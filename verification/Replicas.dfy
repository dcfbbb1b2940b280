/**
 Replicas of the state machine under any schedule of commits, applies, snapshots, late or failed
 persists, crashes and restores. Raft is the environment: it applies committed entries in order and
 restores only what a Persist wrote, of this replica or another, continuing behind it.
 */
module Replicas {
  import opened Basics
  import opened Fsm

  /** A snapshot in memory: the index it stands for and the cloned map. */
  datatype Snap = Snap(at: nat, data: Option<KV>)
  datatype File = File(at: nat, bytes: Bytes)

  /** Entries `from` to before `to` of the log, applied one after the other. */
  datatype Stretch = Stretch(from: nat, to: nat)

  /** `stretches` records what of the log was applied since the process started: a restore begins a new one. */
  datatype Replica = Replica(data: Option<KV>, history: seq<AppliedEntry>, applied: nat, snaps: map<nat, Snap>,
                             stretches: seq<Stretch>)

  datatype Sys = Sys(committed: seq<Entry>, replicas: map<nat, Replica>, files: seq<File>, panicked: bool)

  const Init := Sys([], map[], [], false)
  const Started := Replica(Some(map[]), [], 0, map[], [Stretch(0, 0)])

  datatype Step =
    | Commit(e: Entry)
    | Start(r: nat)                              // first start, or restart after a crash
    | ApplyNext(r: nat)
    | TakeSnapshot(r: nat, id: nat)
    | Persist(r: nat, id: nat, writeOk: bool, closeOk: bool)
    | Restore(r: nat, file: nat)

  predicate Enabled(s: Sys, st: Step)
  {
    match st
    case Commit(_) => true
    case Start(_) => true
    case ApplyNext(r) => r in s.replicas && s.replicas[r].applied < |s.committed|
    case TakeSnapshot(r, id) => r in s.replicas && id !in s.replicas[r].snaps
    case Persist(r, id, _, _) => r in s.replicas && id in s.replicas[r].snaps
    case Restore(r, file) => r in s.replicas && file < |s.files|
  }

  function Longer(stretches: seq<Stretch>): seq<Stretch>
  {
    if stretches == [] then []
    else
      var last := stretches[|stretches| - 1];
      stretches[..|stretches| - 1] + [Stretch(last.from, last.to + 1)]
  }

  /** `KVStoreFSM.Apply` on one replica, as a function of its state. */
  function ApplyEntry(c: Codec, p: Replica, e: Entry): Replica
  {
    var p := p.(applied := p.applied + 1, stretches := Longer(p.stretches));
    if e.ConfigEntry? then p
    else
      var (outcome, data) := Execute(c, p.data, e.data);
      if outcome.Success? then
        p.(data := data, history := LastN(p.history + [AppliedEntry(e.index, e.term, outcome.command)], MAX_APPLIED))
      else p
  }

  /** `KVStoreFSM.Restore`: on success only the data is replaced. */
  function RestoreFile(c: Codec, p: Replica, f: File): Replica
  {
    match c.decode(f.bytes)
    case None => p
    case Some(data) => p.(data := data, applied := f.at, stretches := p.stretches + [Stretch(f.at, f.at)])
  }

  function Apply(c: Codec, s: Sys, st: Step): Sys
    requires Enabled(s, st)
  {
    match st
    case Commit(e) => s.(committed := s.committed + [e])
    case Start(r) => s.(replicas := s.replicas[r := Started])
    case ApplyNext(r) =>
      var p, e := s.replicas[r], s.committed[s.replicas[r].applied];
      s.(replicas := s.replicas[r := ApplyEntry(c, p, e)],
         panicked := s.panicked || (e.CommandEntry? && Execute(c, p.data, e.data).0.Panic?))
    case TakeSnapshot(r, id) =>
      var p := s.replicas[r];
      s.(replicas := s.replicas[r := p.(snaps := p.snaps[id := Snap(p.applied, p.data)])])
    case Persist(r, id, writeOk, closeOk) =>
      var p := s.replicas[r];
      var snap := p.snaps[id];
      s.(replicas := s.replicas[r := p.(snaps := p.snaps - {id})],
         files := if writeOk && closeOk then s.files + [File(snap.at, c.encode(snap.data))] else s.files)
    case Restore(r, file) => s.(replicas := s.replicas[r := RestoreFile(c, s.replicas[r], s.files[file])])
  }

  ghost predicate IsRun(c: Codec, states: seq<Sys>, steps: seq<Step>)
  {
    && |states| == |steps| + 1
    && states[0] == Init
    && forall i :: 0 <= i < |steps| ==> Enabled(states[i], steps[i]) && states[i + 1] == Apply(c, states[i], steps[i])
  }

  // ---- the successful commands of a log --------------------------------------------------------

  /** What `Apply` records of one entry. */
  function SuccessOf(c: Codec, e: Entry): seq<AppliedEntry>
  {
    if e.CommandEntry? && c.command(e.data).Some? && c.command(e.data).value.op in [OP_SET, OP_DELETE]
    then [AppliedEntry(e.index, e.term, c.command(e.data).value)] else []
  }

  function Successes(c: Codec, log: seq<Entry>): seq<AppliedEntry>
  {
    if log == [] then [] else Successes(c, log[..|log| - 1]) + SuccessOf(c, log[|log| - 1])
  }

  /** The entry records the log entry: its index, its term, and the command it decodes to, a SET or a DELETE. */
  predicate RecordsEntry(c: Codec, a: AppliedEntry, e: Entry)
  {
    e.CommandEntry? && a.index == e.index && a.term == e.term && c.command(e.data) == Some(a.command) &&
    a.command.op in {"SET", "DELETE"}
  }

  /** The successful commands of a log are one record for each entry that decodes to a SET or a DELETE, in log order. */
  lemma {:induction false} SuccessesAreCommands(c: Codec, log: seq<Entry>) returns (at: seq<nat>)
    ensures |at| == |Successes(c, log)|
    ensures forall i :: 0 <= i < |at| ==> at[i] < |log| && RecordsEntry(c, Successes(c, log)[i], log[at[i]])
    ensures forall i, j :: 0 <= i < j < |at| ==> at[i] < at[j]
    ensures forall k :: 0 <= k < |log| && k !in at ==>
              log[k].ConfigEntry? || c.command(log[k].data).None? || c.command(log[k].data).value.op !in {"SET", "DELETE"}
  {
    at := [];
    if log != [] {
      var init, last := log[..|log| - 1], log[|log| - 1];
      at := SuccessesAreCommands(c, init);
      if SuccessOf(c, last) != [] {
        assert RecordsEntry(c, SuccessOf(c, last)[0], last);
        at := at + [|log| - 1];
      }
      hide RecordsEntry;
      assert forall k :: 0 <= k < |init| ==> log[k] == init[k];
    }
  }

  predicate WithinLog(committed: seq<Entry>, t: Stretch)
  {
    t.from <= t.to <= |committed|
  }

  /** The successful commands of stretches of one log, one stretch after the other. */
  function AllSuccesses(c: Codec, committed: seq<Entry>, stretches: seq<Stretch>): seq<AppliedEntry>
    requires forall t :: t in stretches ==> WithinLog(committed, t)
  {
    if stretches == [] then []
    else
      var init, last := stretches[..|stretches| - 1], stretches[|stretches| - 1];
      assert last in stretches && WithinLog(committed, last);
      AllSuccesses(c, committed, init) + Successes(c, committed[last.from..last.to])
  }

  lemma SuccessesAppend(c: Codec, log: seq<Entry>, e: Entry)
    ensures Successes(c, log + [e]) == Successes(c, log) + SuccessOf(c, e)
  {
    assert (log + [e])[..|log|] == log;
  }

  lemma Associates<T>(a: seq<T>, b: seq<T>, c: seq<T>)
    ensures a + b + c == a + (b + c)
  {
  }

  lemma SplitLast<T>(s: seq<T>)
    requires s != []
    ensures s == s[..|s| - 1] + [s[|s| - 1]]
  {
  }

  lemma {:induction false} SuccessesConcat(c: Codec, a: seq<Entry>, b: seq<Entry>)
    ensures Successes(c, a + b) == Successes(c, a) + Successes(c, b)
  {
    if b == [] {
      assert a + b == a;
    } else {
      hide Successes, SuccessOf;
      var init, last := b[..|b| - 1], b[|b| - 1];
      SplitLast(b);
      Associates(a, init, [last]);
      SuccessesConcat(c, a, init);
      SuccessesAppend(c, a + init, last);
      SuccessesAppend(c, init, last);
      Associates(Successes(c, a), Successes(c, init), SuccessOf(c, last));
    }
  }

  /** A command is recorded exactly if executing it on data that is there succeeds. */
  lemma SuccessIsRecorded(c: Codec, data: KV, e: Entry)
    requires e.CommandEntry?
    ensures SuccessOf(c, e) ==
            if Execute(c, Some(data), e.data).0.Success?
            then [AppliedEntry(e.index, e.term, Execute(c, Some(data), e.data).0.command)] else []
  {
  }

  lemma {:induction false} AllSuccessesGrow(c: Codec, committed: seq<Entry>, e: Entry, stretches: seq<Stretch>)
    requires forall t :: t in stretches ==> WithinLog(committed, t)
    ensures forall t :: t in stretches ==> WithinLog(committed + [e], t)
    ensures AllSuccesses(c, committed + [e], stretches) == AllSuccesses(c, committed, stretches)
  {
    assert forall t :: t in stretches ==> WithinLog(committed, t) && WithinLog(committed + [e], t);
    if stretches != [] {
      var init, last := stretches[..|stretches| - 1], stretches[|stretches| - 1];
      assert last in stretches;
      AllSuccessesGrow(c, committed, e, init);
      assert (committed + [e])[last.from..last.to] == committed[last.from..last.to];
    }
  }

  /** Applying the next entry lengthens the last stretch. */
  lemma AllSuccessesLonger(c: Codec, committed: seq<Entry>, stretches: seq<Stretch>)
    requires stretches != [] && forall t :: t in stretches ==> WithinLog(committed, t)
    requires stretches[|stretches| - 1].to < |committed|
    ensures forall t :: t in Longer(stretches) ==> WithinLog(committed, t)
    ensures AllSuccesses(c, committed, Longer(stretches)) ==
            AllSuccesses(c, committed, stretches) + SuccessOf(c, committed[stretches[|stretches| - 1].to])
  {
    var init, last := stretches[..|stretches| - 1], stretches[|stretches| - 1];
    assert last in stretches && WithinLog(committed, last);
    hide Successes, SuccessOf, AllSuccesses;
    var before, e := committed[last.from..last.to], committed[last.to];
    assert committed[last.from..last.to + 1] == before + [e];
    SuccessesAppend(c, before, e);
    AllSuccessesEnd(c, committed, init, last);
    AllSuccessesEnd(c, committed, init, Stretch(last.from, last.to + 1));
    SplitLast(stretches);
    Associates(AllSuccesses(c, committed, init), Successes(c, before), SuccessOf(c, e));
  }

  lemma AllSuccessesEnd(c: Codec, committed: seq<Entry>, init: seq<Stretch>, last: Stretch)
    requires WithinLog(committed, last) && forall t :: t in init ==> WithinLog(committed, t)
    ensures forall t :: t in init + [last] ==> WithinLog(committed, t)
    ensures AllSuccesses(c, committed, init + [last]) ==
            AllSuccesses(c, committed, init) + Successes(c, committed[last.from..last.to])
  {
    hide Successes;
    assert (init + [last])[..|init|] == init;
  }

  /** A restore begins an empty stretch. */
  lemma AllSuccessesRestart(c: Codec, committed: seq<Entry>, stretches: seq<Stretch>, at: nat)
    requires at <= |committed| && forall t :: t in stretches ==> WithinLog(committed, t)
    ensures forall t :: t in stretches + [Stretch(at, at)] ==> WithinLog(committed, t)
    ensures AllSuccesses(c, committed, stretches + [Stretch(at, at)]) == AllSuccesses(c, committed, stretches)
  {
    assert (stretches + [Stretch(at, at)])[..|stretches|] == stretches;
    assert Successes(c, committed[at..at]) == [];
  }

  // ---- the invariant ---------------------------------------------------------------------------

  /** The data stands for the first `at` committed entries. */
  ghost predicate Exact(c: Codec, committed: seq<Entry>, at: nat, data: Option<KV>)
  {
    at <= |committed| && data == Some(Fold(c, committed[..at]))
  }

  /** The history is the newest hundred of what the stretches applied; the last stretch ends where the replica stands. */
  ghost predicate HistoryOk(c: Codec, committed: seq<Entry>, applied: nat, stretches: seq<Stretch>, history: seq<AppliedEntry>)
  {
    && stretches != [] && stretches[|stretches| - 1].to == applied
    && (forall t :: t in stretches ==> WithinLog(committed, t))
    && history == LastN(AllSuccesses(c, committed, stretches), 100)
  }

  ghost predicate ReplicaOk(c: Codec, committed: seq<Entry>, p: Replica)
  {
    && Exact(c, committed, p.applied, p.data)
    && (forall id :: id in p.snaps ==> Exact(c, committed, p.snaps[id].at, p.snaps[id].data))
    && HistoryOk(c, committed, p.applied, p.stretches, p.history)
  }

  ghost predicate FileOk(c: Codec, committed: seq<Entry>, f: File)
  {
    f.at <= |committed| && f.bytes == c.encode(Some(Fold(c, committed[..f.at])))
  }

  ghost predicate Inv(c: Codec, s: Sys)
  {
    && !s.panicked
    && (forall r :: r in s.replicas ==> ReplicaOk(c, s.committed, s.replicas[r]))
    && (forall i :: 0 <= i < |s.files| ==> FileOk(c, s.committed, s.files[i]))
  }

  lemma ExactGrows(c: Codec, committed: seq<Entry>, e: Entry, at: nat, data: Option<KV>)
    requires Exact(c, committed, at, data)
    ensures Exact(c, committed + [e], at, data)
  {
    assert (committed + [e])[..at] == committed[..at];
  }

  lemma CommitKept(c: Codec, s: Sys, e: Entry)
    requires Inv(c, s)
    ensures Inv(c, Apply(c, s, Commit(e)))
  {
    forall r | r in s.replicas
      ensures ReplicaOk(c, s.committed + [e], s.replicas[r])
    {
      var p := s.replicas[r];
      ExactGrows(c, s.committed, e, p.applied, p.data);
      forall id | id in p.snaps
        ensures Exact(c, s.committed + [e], p.snaps[id].at, p.snaps[id].data)
      {
        ExactGrows(c, s.committed, e, p.snaps[id].at, p.snaps[id].data);
      }
      AllSuccessesGrow(c, s.committed, e, p.stretches);
    }
    forall i | 0 <= i < |s.files|
      ensures FileOk(c, s.committed + [e], s.files[i])
    {
      assert (s.committed + [e])[..s.files[i].at] == s.committed[..s.files[i].at];
    }
  }

  lemma ApplyEntryExact(c: Codec, committed: seq<Entry>, p: Replica)
    requires Exact(c, committed, p.applied, p.data) && p.applied < |committed|
    ensures var p' := ApplyEntry(c, p, committed[p.applied]);
      Exact(c, committed, p'.applied, p'.data) && p'.applied == p.applied + 1 && p'.snaps == p.snaps && p'.stretches == Longer(p.stretches)
    ensures committed[p.applied].CommandEntry? ==> !Execute(c, p.data, committed[p.applied].data).0.Panic?
    ensures ApplyEntry(c, p, committed[p.applied]).history ==
            if SuccessOf(c, committed[p.applied]) == [] then p.history
            else LastN(p.history + SuccessOf(c, committed[p.applied]), MAX_APPLIED)
  {
    var e := committed[p.applied];
    assert committed[..p.applied + 1] == committed[..p.applied] + [e];
    ExecuteFolds(c, committed[..p.applied], e);
    if e.CommandEntry? {
      SuccessIsRecorded(c, Fold(c, committed[..p.applied]), e);
    }
    hide Fold, LastN;
  }

  lemma WindowTakes(all: seq<AppliedEntry>, more: seq<AppliedEntry>)
    requires |more| <= 1
    ensures LastN(all + more, MAX_APPLIED) ==
            if more == [] then LastN(all, MAX_APPLIED) else LastN(LastN(all, MAX_APPLIED) + more, MAX_APPLIED)
  {
    if more == [] {
      assert all + more == all;
    } else {
      assert more == [more[0]];
      LastNAppend(all, more[0], MAX_APPLIED);
    }
  }

  lemma ApplyEntryOk(c: Codec, committed: seq<Entry>, p: Replica)
    requires ReplicaOk(c, committed, p) && p.applied < |committed|
    ensures ReplicaOk(c, committed, ApplyEntry(c, p, committed[p.applied]))
    ensures committed[p.applied].CommandEntry? ==> !Execute(c, p.data, committed[p.applied].data).0.Panic?
  {
    ApplyEntryExact(c, committed, p);
    AllSuccessesLonger(c, committed, p.stretches);
    WindowTakes(AllSuccesses(c, committed, p.stretches), SuccessOf(c, committed[p.applied]));
    hide Exact, AllSuccesses, SuccessOf, LastN, ApplyEntry, Execute;
  }

  lemma RestoreOk(c: Codec, committed: seq<Entry>, p: Replica, f: File)
    requires Good(c) && ReplicaOk(c, committed, p) && FileOk(c, committed, f)
    ensures ReplicaOk(c, committed, RestoreFile(c, p, f))
    ensures RestoreFile(c, p, f).applied == f.at
  {
    FoldValid(c, committed[..f.at]);
    AllSuccessesRestart(c, committed, p.stretches, f.at);
    hide AllSuccesses, LastN;
  }

  lemma StepKept(c: Codec, s: Sys, st: Step)
    requires Good(c) && Inv(c, s) && Enabled(s, st)
    ensures Inv(c, Apply(c, s, st))
  {
    hide FileOk, Exact, HistoryOk;
    match st {
      case Commit(e) => CommitKept(c, s, e);
      case Start(r) => StartedOk(c, s.committed);
      case ApplyNext(r) => ApplyEntryOk(c, s.committed, s.replicas[r]);
      case TakeSnapshot(r, id) =>
      case Persist(r, id, writeOk, closeOk) => PersistOk(c, s.committed, s.replicas[r].snaps[id]);
      case Restore(r, file) => RestoreOk(c, s.committed, s.replicas[r], s.files[file]);
    }
  }

  lemma StartedOk(c: Codec, committed: seq<Entry>)
    ensures ReplicaOk(c, committed, Started)
  {
    assert Started.stretches[..0] == [];
    assert Successes(c, committed[0..0]) == [];
  }

  lemma PersistOk(c: Codec, committed: seq<Entry>, snap: Snap)
    requires Exact(c, committed, snap.at, snap.data)
    ensures FileOk(c, committed, File(snap.at, c.encode(snap.data)))
  {
  }

  lemma RunKept(c: Codec, states: seq<Sys>, steps: seq<Step>)
    requires Good(c) && IsRun(c, states, steps)
    ensures forall i :: 0 <= i < |states| ==> Inv(c, states[i])
  {
    assert Inv(c, Init);
    hide Inv, Enabled, Apply;
    var n := 0;
    while n < |steps|
      invariant 0 <= n <= |steps|
      invariant forall i :: 0 <= i <= n ==> Inv(c, states[i])
    {
      StepKept(c, states[n], steps[n]);
      n := n + 1;
    }
  }

  // ---- theorems --------------------------------------------------------------------------------

  /** At every moment of every run a replica's data is the fold of the entries it stands at; it is never nil, and Apply never panics. */
  lemma DataIsFold(c: Codec, states: seq<Sys>, steps: seq<Step>, i: nat, r: nat)
    requires Good(c) && IsRun(c, states, steps) && i < |states| && r in states[i].replicas
    ensures !states[i].panicked
    ensures var p := states[i].replicas[r];
      p.applied <= |states[i].committed| && p.data == Some(Fold(c, states[i].committed[..p.applied]))
  {
    RunKept(c, states, steps);
    assert Inv(c, states[i]);
  }

  lemma CommittedGrows(c: Codec, states: seq<Sys>, steps: seq<Step>, i: nat, j: nat)
    requires IsRun(c, states, steps) && i <= j < |states|
    ensures states[i].committed <= states[j].committed
  {
    var n := i;
    while n < j
      invariant i <= n <= j && states[i].committed <= states[n].committed
    {
      assert states[n + 1] == Apply(c, states[n], steps[n]);
      n := n + 1;
    }
  }

  /** Two replicas that stand at the same index hold the same data, even at different moments of the run. */
  lemma ReplicasAgree(c: Codec, states: seq<Sys>, steps: seq<Step>, i: nat, r: nat, j: nat, q: nat)
    requires Good(c) && IsRun(c, states, steps) && i <= j < |states|
    requires r in states[i].replicas && q in states[j].replicas
    requires states[i].replicas[r].applied == states[j].replicas[q].applied
    ensures states[i].replicas[r].data == states[j].replicas[q].data
  {
    DataIsFold(c, states, steps, i, r);
    DataIsFold(c, states, steps, j, q);
    CommittedGrows(c, states, steps, i, j);
    var at := states[i].replicas[r].applied;
    assert states[i].committed[..at] == states[j].committed[..at];
  }

  /** Every persisted snapshot decodes to the fold of the entries up to the point it was taken, however late it was written. */
  lemma FilesAreExact(c: Codec, states: seq<Sys>, steps: seq<Step>, i: nat, f: nat)
    requires Good(c) && IsRun(c, states, steps) && i < |states| && f < |states[i].files|
    ensures var file := states[i].files[f];
      file.at <= |states[i].committed| && c.decode(file.bytes) == Some(Some(Fold(c, states[i].committed[..file.at])))
  {
    RunKept(c, states, steps);
    assert FileOk(c, states[i].committed, states[i].files[f]);
    FoldValid(c, states[i].committed[..states[i].files[f].at]);
  }

  /**
   The history is the newest hundred successful commands of the stretches of the log applied since the
   process started; the last stretch ends where the replica stands, and a restore leaves the history alone.
   */
  lemma HistoryIsWindow(c: Codec, states: seq<Sys>, steps: seq<Step>, i: nat, r: nat)
    requires Good(c) && IsRun(c, states, steps) && i < |states| && r in states[i].replicas
    ensures var p := states[i].replicas[r]; HistoryOk(c, states[i].committed, p.applied, p.stretches, p.history)
    ensures i < |steps| && steps[i].Restore? && steps[i].r == r ==>
              r in states[i + 1].replicas && states[i + 1].replicas[r].history == states[i].replicas[r].history
  {
    RunKept(c, states, steps);
    assert Inv(c, states[i]);
    assert i < |steps| ==> states[i + 1] == Apply(c, states[i], steps[i]);
  }

  // ---- when the history is the history of the data ---------------------------------------------

  /** The history is the window of the very log whose fold is the data. */
  ghost predicate Fits(c: Codec, committed: seq<Entry>, p: Replica)
  {
    p.applied <= |committed| && p.history == LastN(Successes(c, committed[..p.applied]), 100)
  }

  /** Between the two indices the log has no successful command. */
  predicate Silent(c: Codec, committed: seq<Entry>, i: nat, j: nat)
  {
    forall k :: i <= k < j && k < |committed| ==> SuccessOf(c, committed[k]) == []
  }

  /** Raft gives every entry an index of its own. */
  predicate DistinctIndices(log: seq<Entry>)
  {
    forall i, j :: 0 <= i < j < |log| && log[i].CommandEntry? && log[j].CommandEntry? ==> log[i].index != log[j].index
  }

  lemma {:induction false} SuccessFrom(c: Codec, log: seq<Entry>)
    ensures forall a :: a in Successes(c, log) ==>
              exists k :: 0 <= k < |log| && log[k].CommandEntry? && log[k].index == a.index
    ensures Successes(c, log) == [] <==> forall k :: 0 <= k < |log| ==> SuccessOf(c, log[k]) == []
  {
    if log != [] {
      var init := log[..|log| - 1];
      SuccessFrom(c, init);
      assert forall k :: 0 <= k < |init| ==> init[k] == log[k];
      assert log[|log| - 1] == log[|log| - 1];
    }
  }

  lemma LongerWindowDiffers(a: seq<AppliedEntry>, b: seq<AppliedEntry>)
    requires forall x :: x in b ==> x !in a
    ensures LastN(a + b, MAX_APPLIED) == LastN(a, MAX_APPLIED) <==> b == []
  {
    if b == [] {
      assert a + b == a;
    } else {
      var w := LastN(a + b, MAX_APPLIED);
      assert w[|w| - 1] == b[|b| - 1] && b[|b| - 1] in b;
      assert forall x :: x in LastN(a, MAX_APPLIED) ==> x in a;
      assert w[|w| - 1] in w;
    }
  }

  lemma SuccessIn(c: Codec, committed: seq<Entry>, i: nat, j: nat, x: AppliedEntry) returns (k: nat)
    requires i <= j <= |committed| && x in Successes(c, committed[i..j])
    ensures i <= k < j && committed[k].CommandEntry? && committed[k].index == x.index
  {
    var log := committed[i..j];
    SuccessFrom(c, log);
    hide Successes;
    var l :| 0 <= l < |log| && log[l].CommandEntry? && log[l].index == x.index;
    k := i + l;
  }

  lemma NewSuccesses(c: Codec, committed: seq<Entry>, i: nat, j: nat, x: AppliedEntry)
    requires i <= j <= |committed| && DistinctIndices(committed) && x in Successes(c, committed[i..j])
    ensures x !in Successes(c, committed[..i])
  {
    hide Successes;
    if x in Successes(c, committed[..i]) {
      var l := SuccessIn(c, committed, i, j, x);
      assert committed[0..i] == committed[..i];
      var k := SuccessIn(c, committed, 0, i, x);
    }
  }

  lemma SilentIff(c: Codec, committed: seq<Entry>, i: nat, j: nat)
    requires i <= j <= |committed|
    ensures Successes(c, committed[i..j]) == [] <==> Silent(c, committed, i, j)
  {
    var b := committed[i..j];
    SuccessFrom(c, b);
    hide Successes, SuccessOf;
    assert forall k :: 0 <= k < |b| ==> b[k] == committed[i + k];
    assert forall k :: i <= k < j ==> committed[k] == b[k - i];
  }

  /** Two prefixes of one log have the same window exactly if nothing succeeds between their ends. */
  lemma SameWindowIff(c: Codec, committed: seq<Entry>, i: nat, j: nat)
    requires i <= j <= |committed| && DistinctIndices(committed)
    ensures LastN(Successes(c, committed[..j]), MAX_APPLIED) == LastN(Successes(c, committed[..i]), MAX_APPLIED) <==>
            Silent(c, committed, i, j)
  {
    hide Successes, LastN, Silent, DistinctIndices;
    var a, b := committed[..i], committed[i..j];
    assert committed[..j] == a + b;
    SuccessesConcat(c, a, b);
    SilentIff(c, committed, i, j);
    forall x | x in Successes(c, b)
      ensures x !in Successes(c, a)
    {
      NewSuccesses(c, committed, i, j, x);
    }
    LongerWindowDiffers(Successes(c, a), Successes(c, b));
  }

  /** A restore is harmless to the history exactly if nothing succeeds between where the replica stood and the file. */
  predicate RestoreFits(c: Codec, s: Sys, st: Step)
    requires Enabled(s, st)
  {
    st.Restore? ==>
      var i, j := s.replicas[st.r].applied, s.files[st.file].at;
      Silent(c, s.committed, i, j) && Silent(c, s.committed, j, i)
  }

  ghost predicate FitsAt(c: Codec, s: Sys, r: nat)
  {
    r in s.replicas ==> Fits(c, s.committed, s.replicas[r])
  }

  lemma RestoreFitsIff(c: Codec, s: Sys, st: Step)
    requires Good(c) && Inv(c, s) && Enabled(s, st) && st.Restore? && DistinctIndices(s.committed)
    requires Fits(c, s.committed, s.replicas[st.r])
    ensures FitsAt(c, Apply(c, s, st), st.r) <==> RestoreFits(c, s, st)
  {
    var p, f := s.replicas[st.r], s.files[st.file];
    RestoreOk(c, s.committed, p, f);
    hide Successes, LastN, ReplicaOk, HistoryOk;
    if p.applied <= f.at {
      SameWindowIff(c, s.committed, p.applied, f.at);
    } else {
      SameWindowIff(c, s.committed, f.at, p.applied);
    }
  }

  lemma ApplyEntryFits(c: Codec, committed: seq<Entry>, p: Replica)
    requires Exact(c, committed, p.applied, p.data) && p.applied < |committed| && Fits(c, committed, p)
    ensures Fits(c, committed, ApplyEntry(c, p, committed[p.applied]))
  {
    hide Successes, SuccessOf, LastN, ApplyEntry, Exact, Execute, Fold;
    ApplyEntryExact(c, committed, p);
    WindowMoves(c, committed, p.applied);
  }

  lemma WindowMoves(c: Codec, committed: seq<Entry>, i: nat)
    requires i < |committed|
    ensures var w := LastN(Successes(c, committed[..i]), MAX_APPLIED);
      LastN(Successes(c, committed[..i + 1]), MAX_APPLIED) ==
      if SuccessOf(c, committed[i]) == [] then w else LastN(w + SuccessOf(c, committed[i]), MAX_APPLIED)
  {
    assert |SuccessOf(c, committed[i])| <= 1;
    hide Successes, LastN, SuccessOf;
    assert committed[..i + 1] == committed[..i] + [committed[i]];
    SuccessesAppend(c, committed[..i], committed[i]);
    WindowTakes(Successes(c, committed[..i]), SuccessOf(c, committed[i]));
  }

  /** All other steps keep a fitting history fitting; a start makes it so. */
  lemma StepFits(c: Codec, s: Sys, st: Step, r: nat)
    requires Inv(c, s) && Enabled(s, st) && !(st.Restore? && st.r == r)
    requires FitsAt(c, s, r) || (st.Start? && st.r == r)
    ensures FitsAt(c, Apply(c, s, st), r)
  {
    hide Successes, FileOk, LastN, HistoryOk, Exact;
    match st {
      case Commit(e) =>
        assert r in s.replicas && s.replicas[r].applied <= |s.committed| ==>
          (s.committed + [e])[..s.replicas[r].applied] == s.committed[..s.replicas[r].applied];
      case Start(_) => StartedFits(c, s.committed);
      case ApplyNext(q) =>
        if q == r {
          ApplyEntryFits(c, s.committed, s.replicas[r]);
        }
      case _ =>
    }
  }

  lemma StartedFits(c: Codec, committed: seq<Entry>)
    ensures Fits(c, committed, Started)
  {
    assert committed[..0] == [];
  }

  /** From a start on, and as long as it has not restored, a replica's history is the window of the log it has applied. */
  lemma {:induction false} HistoryFollowsLog(c: Codec, states: seq<Sys>, steps: seq<Step>, a: nat, b: nat, r: nat)
    requires Good(c) && IsRun(c, states, steps) && a < b < |states| && steps[a] == Start(r)
    requires forall i :: a < i < b ==> !(steps[i].Restore? && steps[i].r == r)
    ensures FitsAt(c, states[b], r)
    decreases b
  {
    hide Inv, Enabled, Apply, FitsAt;
    if a + 1 < b {
      HistoryFollowsLog(c, states, steps, a, b - 1, r);
    }
    StepOfRun(c, states, steps, b - 1);
    StepFits(c, states[b - 1], steps[b - 1], r);
  }

  lemma StepOfRun(c: Codec, states: seq<Sys>, steps: seq<Step>, i: nat)
    requires Good(c) && IsRun(c, states, steps) && i < |steps|
    ensures Inv(c, states[i]) && Enabled(states[i], steps[i]) && states[i + 1] == Apply(c, states[i], steps[i])
  {
    RunKept(c, states, steps);
    hide Inv, Enabled, Apply;
  }

  /**
   A replica's history is the history of its data at every moment up to `n` if and only if every restore
   so far jumped over no successful command, forward or back.
   */
  lemma {:induction false} HistoryFitsIff(c: Codec, states: seq<Sys>, steps: seq<Step>, n: nat, r: nat)
    requires Good(c) && IsRun(c, states, steps) && n < |states| && DistinctIndices(states[n].committed)
    ensures (forall i :: 0 <= i <= n ==> FitsAt(c, states[i], r)) <==>
            (forall i :: 0 <= i < n && steps[i].Restore? && steps[i].r == r ==> RestoreFits(c, states[i], steps[i]))
    decreases n
  {
    if n > 0 {
      CommittedGrows(c, states, steps, n - 1, n);
      assert forall i :: 0 <= i < |states[n - 1].committed| ==> states[n - 1].committed[i] == states[n].committed[i];
      HistoryFitsIff(c, states, steps, n - 1, r);
      StepOfRun(c, states, steps, n - 1);
      var s, st := states[n - 1], steps[n - 1];
      hide Inv, DistinctIndices, RestoreFits, Apply, FitsAt, Enabled;
      if st.Restore? && st.r == r {
        if FitsAt(c, s, r) {
          RestoreFitsIff(c, s, st);
        }
      } else if FitsAt(c, s, r) {
        StepFits(c, s, st, r);
      }
    }
  }

  /**
   So the history does not follow the data through a snapshot: a replica that crashes after its snapshot
   and restores it has the data of the entry it applied before, and no history of it.
   */
  lemma RestoredReplicaHasNoHistory(c: Codec, e: Entry) returns (states: seq<Sys>, steps: seq<Step>)
    requires Good(c) && e.CommandEntry? && c.command(e.data) == Some(Command("SET", "k", "v"))
    ensures IsRun(c, states, steps)
    ensures var s := states[|states| - 1];
      0 in s.replicas && s.replicas[0].applied == 1 && s.replicas[0].data == Some(map["k" := "v"]) && s.replicas[0].history == []
  {
    steps := [Commit(e), Start(0), ApplyNext(0), TakeSnapshot(0, 0), Persist(0, 0, true, true), Start(0), Restore(0, 0)];
    var s1 := Apply(c, Init, steps[0]);
    var s2 := Apply(c, s1, steps[1]);
    var s3 := Apply(c, s2, steps[2]);
    assert s3.replicas[0].data == Some(map["k" := "v"]);
    var s4 := Apply(c, s3, steps[3]);
    var s5 := Apply(c, s4, steps[4]);
    assert s5.files == [File(1, c.encode(Some(map["k" := "v"])))];
    var s6 := Apply(c, s5, steps[5]);
    assert ValidMap(c, map["k" := "v"]);
    var s7 := Apply(c, s6, steps[6]);
    states := [Init, s1, s2, s3, s4, s5, s6, s7];
    hide Enabled, Apply;
    assert IsRun(c, states, steps);
  }
}
