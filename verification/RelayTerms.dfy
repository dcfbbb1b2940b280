/**
 Which terms the relay claims and announces: the terms its RPCs carry, each once, when it is higher than
 all that anybody had noted before.
 */
module RelayTerms {
  import opened Basics
  import opened RelayMachine
  import RelayInvariant
  import RelaySteps
  import Terms

  /** The term field of a command, if its kind has one. */
  function TermField(c: Command): Option<nat>
  {
    match c
    case RequestVote(term, _) => Some(term)
    case RequestPreVote(term, _) => Some(term)
    case TimeoutNow(_) => None
    case InstallSnapshot(term, _) => Some(term)
    case AppendEntries(term, _, _) => Some(term)
    case OtherCommand(_) => None
  }

  function AsList(t: Option<nat>): seq<nat> { if t.None? then [] else [t.value] }

  /** The term that a step notes: the forwarder's RPC, a heartbeat, or another observer. */
  function NotedBy(s: Sys, st: Step): seq<nat>
  {
    match st
    case Note => if s.pc.Noting? then AsList(TermField(s.pc.rpc.command)) else []
    case Observe(term) => [term]
    case BeatNote(_, term) => [term]
    case _ => []
  }

  /** All terms noted in the first `n` steps. */
  function Noted(states: seq<Sys>, steps: seq<Step>, n: nat): seq<nat>
    requires n <= |steps| <= |states|
  {
    if n == 0 then [] else Noted(states, steps, n - 1) + NotedBy(states[n - 1], steps[n - 1])
  }

  /** The terms of the forwarder's RPCs among them that were higher than all before. */
  function Claimed(states: seq<Sys>, steps: seq<Step>, n: nat): seq<nat>
    requires n <= |steps| <= |states|
  {
    if n == 0 then []
    else
      var before := Claimed(states, steps, n - 1);
      if steps[n - 1].Note? && states[n - 1].pc.Noting? then
        before + Records(Terms.Max(Noted(states, steps, n - 1)), TermField(states[n - 1].pc.rpc.command))
      else before
  }

  function Records(highest: nat, t: Option<nat>): seq<nat>
  {
    if t.Some? && t.value > highest then [t.value] else []
  }

  /** The term changes that the forwarder has announced, in order. */
  function TermChanges(log: seq<Entry>): seq<nat>
  {
    if log == [] then []
    else
      var last := log[|log| - 1];
      TermChanges(log[..|log| - 1]) + (if last.TermChanged? then [last.term] else [])
  }

  /** The claim that the forwarder has still to announce. */
  function Pending(pc: ForwarderPc): seq<nat>
  {
    if pc.Announcing? then AsList(TermField(pc.rpc.command)) else []
  }

  ghost predicate TermsOk(lastTerm: nat, log: seq<Entry>, pc: ForwarderPc, noted: seq<nat>, claimed: seq<nat>)
  {
    && lastTerm == Terms.Max(noted)
    && TermChanges(log) + Pending(pc) == claimed
    && Terms.Increasing(claimed)
    && (forall t :: t in claimed ==> 0 < t <= lastTerm)
    && (pc.Announcing? ==> TermField(pc.rpc.command).Some?)
  }

  lemma MaxAppend(noted: seq<nat>, t: nat)
    ensures Terms.Max(noted + [t]) == if t > Terms.Max(noted) then t else Terms.Max(noted)
  {
    assert (noted + [t])[..|noted|] == noted;
  }

  lemma {:induction false} ChangesConcat(log: seq<Entry>, more: seq<Entry>)
    requires forall i :: 0 <= i < |more| ==> !more[i].TermChanged?
    ensures TermChanges(log + more) == TermChanges(log)
  {
    if more == [] {
      assert log + more == log;
    } else {
      var init := more[..|more| - 1];
      ChangesConcat(log, init);
      assert (log + more)[..|log + more| - 1] == log + init;
    }
  }

  lemma ChangesAppend(log: seq<Entry>, t: nat)
    ensures TermChanges(log + [TermChanged(t)]) == TermChanges(log) + [t]
  {
    assert (log + [TermChanged(t)])[..|log|] == log;
  }

  /** The terms that `noteTerm` is called with are those the commands carry. */
  lemma NotesItsField(c: Command)
    ensures TermField(c).Some? ==> TermOf(c) == TermField(c).value
    ensures TermField(c).None? ==> TermOf(c) == 0
  {
  }

  lemma NoteIs(s: Sys)
    requires Enabled(s, Note)
    ensures var s', t := DoNote(s), TermField(s.pc.rpc.command);
      && s'.log == s.log && Pending(s'.pc) == Records(s.lastTerm, t)
      && s'.lastTerm == (if t.Some? && t.value > s.lastTerm then t.value else s.lastTerm)
      && (s'.pc.Announcing? ==> TermField(s'.pc.rpc.command).Some?)
  {
    NotesItsField(s.pc.rpc.command);
    hide TermField, TermOf;
  }

  /** The next term noted, `t` if it is one, becomes a claim exactly if it is a record high. */
  lemma OneMoreNoted(noted: seq<nat>, claimed: seq<nat>, t: Option<nat>)
    requires Terms.Increasing(claimed) && forall c :: c in claimed ==> 0 < c <= Terms.Max(noted)
    ensures var highest := Terms.Max(noted);
      && Terms.Max(noted + AsList(t)) == (if t.Some? && t.value > highest then t.value else highest)
      && Terms.Increasing(claimed + Records(highest, t))
      && forall c :: c in claimed + Records(highest, t) ==> 0 < c <= Terms.Max(noted + AsList(t))
  {
    if t.None? {
      assert noted + [] == noted && claimed + [] == claimed;
    } else {
      MaxAppend(noted, t.value);
      hide Terms.Max;
      if t.value > Terms.Max(noted) {
        Terms.IncreasingAppend(claimed, t.value);
      } else {
        assert claimed + [] == claimed;
      }
    }
  }

  lemma NoteKept(s: Sys, noted: seq<nat>, claimed: seq<nat>)
    requires Enabled(s, Note) && TermsOk(s.lastTerm, s.log, s.pc, noted, claimed)
    ensures var s', t := DoNote(s), TermField(s.pc.rpc.command);
      TermsOk(s'.lastTerm, s'.log, s'.pc, noted + AsList(t), claimed + Records(Terms.Max(noted), t))
  {
    var t := TermField(s.pc.rpc.command);
    assert Pending(s.pc) == [] && TermChanges(s.log) + [] == TermChanges(s.log);
    NoteIs(s);
    hide Pending, TermField, TermChanges, DoNote, Terms.Max, Terms.Increasing, Records, AsList;
    OneMoreNoted(noted, claimed, t);
  }

  lemma ObserveKept(lastTerm: nat, log: seq<Entry>, pc: ForwarderPc, noted: seq<nat>, claimed: seq<nat>, term: nat)
    requires TermsOk(lastTerm, log, pc, noted, claimed)
    ensures TermsOk(Higher(lastTerm, term), log, pc, noted + [term], claimed)
  {
    MaxAppend(noted, term);
    hide Terms.Max, TermChanges, Pending, Terms.Increasing;
  }

  lemma AnnounceKept(s: Sys, noted: seq<nat>, claimed: seq<nat>)
    requires Enabled(s, Announce) && TermsOk(s.lastTerm, s.log, s.pc, noted, claimed)
    ensures TermsOk(DoAnnounce(s).lastTerm, DoAnnounce(s).log, DoAnnounce(s).pc, noted, claimed)
  {
    var t := TermOf(s.pc.rpc.command);
    NotesItsField(s.pc.rpc.command);
    assert Pending(s.pc) == [t];
    ChangesAppend(s.log, t);
    hide TermField, TermOf, TermChanges, Terms.Max, Terms.Increasing, Pending;
    PendingOnly(DoAnnounce(s).pc);
    assert TermChanges(s.log + [TermChanged(t)]) + [] == TermChanges(s.log + [TermChanged(t)]);
  }

  /** Announcing the RPC, and any other event, leaves the term changes as they are. */
  lemma LogKept(lastTerm: nat, log: seq<Entry>, more: seq<Entry>, pc: ForwarderPc, pc': ForwarderPc, noted: seq<nat>, claimed: seq<nat>)
    requires TermsOk(lastTerm, log, pc, noted, claimed) && Pending(pc') == Pending(pc) && !pc'.Announcing? == !pc.Announcing?
    requires pc'.Announcing? ==> pc' == pc
    requires forall i :: 0 <= i < |more| ==> !more[i].TermChanged?
    ensures TermsOk(lastTerm, log + more, pc', noted, claimed)
  {
    ChangesConcat(log, more);
    hide TermChanges, Pending, Terms.Max, Terms.Increasing;
  }

  // ---- every step ------------------------------------------------------------------------------

  lemma EmitKept(s: Sys, noted: seq<nat>, claimed: seq<nat>)
    requires Enabled(s, Emit) && TermsOk(s.lastTerm, s.log, s.pc, noted, claimed)
    ensures TermsOk(DoEmit(s).lastTerm, DoEmit(s).log, DoEmit(s).pc, noted, claimed)
  {
    hide TermsOk, Announced, Pending, IsVote;
    PendingOnly(s.pc);
    PendingOnly(DoEmit(s).pc);
    NoTermChanges(s.taken - 1, s.pc.rpc.command, s.pc.candidate);
    LogKept(s.lastTerm, s.log, Announced(s.taken - 1, s.pc.rpc.command, s.pc.candidate), s.pc, DoEmit(s).pc, noted, claimed);
  }

  lemma EmitVoteKept(s: Sys, i: nat, noted: seq<nat>, claimed: seq<nat>)
    requires Enabled(s, EmitVote(i)) && TermsOk(s.lastTerm, s.log, s.pc, noted, claimed)
    ensures TermsOk(DoEmitVote(s, i).lastTerm, DoEmitVote(s, i).log, DoEmitVote(s, i).pc, noted, claimed)
  {
    hide TermsOk, Pending, AnnouncesVote;
    var resp := s.voters[i].pc.resp;
    LogKept(s.lastTerm, s.log, if AnnouncesVote(resp) then [VoteEntry(i, s.voters[i], resp)] else [], s.pc, s.pc, noted, claimed);
  }

  /** The other steps note and announce no term. */
  predicate Quiet(st: Step)
  {
    !st.Note? && !st.Announce? && !st.Observe? && !st.BeatNote? && !st.Emit? && !st.EmitVote? && !st.Append?
  }

  lemma QuietKept(s: Sys, st: Step, noted: seq<nat>, claimed: seq<nat>)
    requires Enabled(s, st) && Quiet(st) && TermsOk(s.lastTerm, s.log, s.pc, noted, claimed)
    ensures var s' := Apply(s, st); TermsOk(s'.lastTerm, s'.log, s'.pc, noted, claimed)
  {
    hide TermsOk, Pending;
    var s' := Apply(s, st);
    assert s'.lastTerm == s.lastTerm && s'.log == s.log;
    assert s'.pc == s.pc || (!s'.pc.Announcing? && !s.pc.Announcing?);
    hide Enabled, Apply;
    PendingOnly(s.pc);
    PendingOnly(s'.pc);
    assert s.log + [] == s.log;
    LogKept(s.lastTerm, s.log, [], s.pc, s'.pc, noted, claimed);
  }

  lemma StepKept(s: Sys, st: Step, noted: seq<nat>, claimed: seq<nat>)
    requires Enabled(s, st) && TermsOk(s.lastTerm, s.log, s.pc, noted, claimed)
    ensures var s' := Apply(s, st);
      TermsOk(s'.lastTerm, s'.log, s'.pc, noted + NotedBy(s, st),
              if st.Note? then claimed + Records(Terms.Max(noted), TermField(s.pc.rpc.command)) else claimed)
  {
    assert noted + [] == noted;
    hide TermsOk, Records, TermField, DoNote, DoAnnounce, DoEmit, DoEmitVote;
    match st {
      case Note => NoteKept(s, noted, claimed);
      case Announce => AnnounceKept(s, noted, claimed);
      case Observe(term) => ObserveKept(s.lastTerm, s.log, s.pc, noted, claimed, term);
      case BeatNote(_, term) => ObserveKept(s.lastTerm, s.log, s.pc, noted, claimed, term);
      case Emit => EmitKept(s, noted, claimed);
      case EmitVote(i) => EmitVoteKept(s, i, noted, claimed);
      case Append(n) => LogKept(s.lastTerm, s.log, [Foreign(n)], s.pc, s.pc, noted, claimed);
      case _ => QuietKept(s, st, noted, claimed);
    }
  }

  lemma PendingOnly(pc: ForwarderPc)
    ensures !pc.Announcing? ==> Pending(pc) == []
  {
  }

  lemma NoTermChanges(j: nat, c: Command, candidate: string)
    ensures forall i :: 0 <= i < |Announced(j, c, candidate)| ==> !Announced(j, c, candidate)[i].TermChanged?
  {
  }

  lemma {:induction false} RunKept(states: seq<Sys>, steps: seq<Step>, n: nat)
    requires IsRun(states, steps) && n < |states|
    ensures TermsOk(states[n].lastTerm, states[n].log, states[n].pc, Noted(states, steps, n), Claimed(states, steps, n))
    decreases n
  {
    if n > 0 {
      hide TermsOk, Enabled, Apply, Records, NotedBy;
      RunKept(states, steps, n - 1);
      StepKept(states[n - 1], steps[n - 1], Noted(states, steps, n - 1), Claimed(states, steps, n - 1));
      assert steps[n - 1].Note? ==> states[n - 1].pc.Noting? by { NoteAtNoting(states[n - 1], steps[n - 1]); }
    }
  }

  lemma NoteAtNoting(s: Sys, st: Step)
    requires Enabled(s, st)
    ensures st.Note? ==> s.pc.Noting?
  {
  }

  /** One of the first `taken` RPCs carries the term. */
  ghost predicate Carried(inner: seq<Rpc>, taken: nat, t: nat)
  {
    exists j :: 0 <= j < taken && j < |inner| && TermField(inner[j].command) == Some(t)
  }

  lemma CarriedGrows(inner: seq<Rpc>, inner': seq<Rpc>, taken: nat, taken': nat, t: nat)
    requires Carried(inner, taken, t) && inner <= inner' && taken <= taken'
    ensures Carried(inner', taken', t)
  {
    var j :| 0 <= j < taken && j < |inner| && TermField(inner[j].command) == Some(t);
    assert inner'[j] == inner[j];
  }

  lemma StepOfRun(states: seq<Sys>, steps: seq<Step>, i: nat)
    requires IsRun(states, steps) && i < |steps|
    ensures RelayInvariant.Inv(states[i]) && Enabled(states[i], steps[i]) && states[i + 1] == Apply(states[i], steps[i])
  {
    RelaySteps.RunKept(states, steps);
    hide RelayInvariant.Inv, Enabled, Apply;
  }

  lemma OneMoreClaim(s: Sys, st: Step, highest: nat, t: nat)
    requires RelayInvariant.Inv(s) && Enabled(s, st) && st.Note? && t in Records(highest, TermField(s.pc.rpc.command))
    ensures Carried(s.inner, s.taken, t)
  {
    ForwarderHas(s);
    hide RelayInvariant.Inv, TermField;
    assert TermField(s.inner[s.taken - 1].command) == Some(t);
  }

  /** Every claim is the term field of an RPC that the forwarder has taken. */
  lemma {:induction false} ClaimsAreFields(states: seq<Sys>, steps: seq<Step>, n: nat)
    requires IsRun(states, steps) && n < |states|
    ensures forall t :: t in Claimed(states, steps, n) ==> Carried(states[n].inner, states[n].taken, t)
    decreases n
  {
    hide TermField, RelayInvariant.Inv, Enabled, Apply, Carried, Records;
    if n > 0 {
      var s, st := states[n - 1], steps[n - 1];
      ClaimsAreFields(states, steps, n - 1);
      StepOfRun(states, steps, n - 1);
      InnerGrows(s, st);
      hide IsRun;
      forall t | t in Claimed(states, steps, n)
        ensures Carried(states[n].inner, states[n].taken, t)
      {
        if t !in Claimed(states, steps, n - 1) {
          OneMoreClaim(s, st, Terms.Max(Noted(states, steps, n - 1)), t);
        }
        CarriedGrows(s.inner, states[n].inner, s.taken, states[n].taken, t);
      }
    }
  }

  lemma ForwarderHas(s: Sys)
    requires RelayInvariant.Inv(s)
    ensures s.taken <= |s.inner|
    ensures s.pc.Noting? ==> s.taken > 0 && s.pc.rpc == s.inner[s.taken - 1]
  {
    hide RelayInvariant.VoterInv, RelayInvariant.DeliveryInv, RelayInvariant.RequestInv, RelayInvariant.ResultInv, RelayInvariant.TermInv;
  }

  lemma InnerGrows(s: Sys, st: Step)
    requires Enabled(s, st)
    ensures s.inner <= Apply(s, st).inner && s.taken <= Apply(s, st).taken
  {
    hide Announced, TermOf;
  }

  /**
   In every state of every run the tracked term is the highest that anybody has noted, the forwarder for
   the RPCs it took, the heartbeat path or another observer; the term changes the forwarder has announced,
   with the one it is about to, are exactly the term fields of its RPCs that were higher than all noted
   before, so they climb and none comes twice; and each is the term field of an RPC it has taken.
   */
  lemma TermsAreThoseCarried(states: seq<Sys>, steps: seq<Step>, n: nat)
    requires IsRun(states, steps) && n < |states|
    ensures states[n].lastTerm == Terms.Max(Noted(states, steps, n))
    ensures TermChanges(states[n].log) + Pending(states[n].pc) == Claimed(states, steps, n)
    ensures Terms.Increasing(Claimed(states, steps, n))
    ensures forall t :: t in TermChanges(states[n].log) ==> Carried(states[n].inner, states[n].taken, t)
  {
    RunKept(states, steps, n);
    ClaimsAreFields(states, steps, n);
    hide IsRun, Terms.Max, Terms.Increasing, TermChanges, Pending, Carried, Claimed;
    assert forall t :: t in TermChanges(states[n].log) ==> t in TermChanges(states[n].log) + Pending(states[n].pc);
  }
}
