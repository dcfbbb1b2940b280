/**
 Every incoming RPC is announced as what it is, once, in the order of arrival and before raft sees it;
 empty appends and unknown commands are not announced.
 */
module RelayAnnouncements {
  import opened RelayMachine
  import opened RelayInvariant
  import RelaySteps
  import RelayTheorems

  /** An event by which the forwarder announces an incoming RPC. */
  predicate Incoming(e: Entry)
  {
    e.VoteRequested? || e.TransferReceived? || e.SnapshotReceived? || e.EntriesReceived?
  }

  /** The event describes the `j`-th RPC, a command `c`. */
  predicate Describes(e: Entry, j: nat, c: Command)
  {
    match e
    case VoteRequested(i, term, _, preVote) =>
      i == j && ((c.RequestVote? && !preVote && c.term == term) || (c.RequestPreVote? && preVote && c.term == term))
    case TransferReceived(i) => i == j && c.TimeoutNow?
    case SnapshotReceived(i, term) => i == j && c.InstallSnapshot? && c.term == term
    case EntriesReceived(i, term) => i == j && c.AppendEntries? && c.entries > 0 && c.term == term
    case _ => false
  }

  /** Maintenance appends and commands the relay does not know pass silently. */
  predicate Silent(c: Command)
  {
    c.OtherCommand? || (c.AppendEntries? && c.entries == 0)
  }

  /** How many RPCs the forwarder is past announcing. */
  function Emitted(pc: ForwarderPc, taken: nat): nat
  {
    if (pc.Noting? || pc.Announcing? || pc.Emitting?) && taken > 0 then taken - 1 else taken
  }

  ghost predicate IsAnnounced(log: seq<Entry>, j: nat, before: nat)
  {
    exists p :: 0 <= p < before && p < |log| && Incoming(log[p]) && log[p].j == j
  }

  ghost predicate IncomingInv(inner: seq<Rpc>, log: seq<Entry>, emitted: nat, receivedAt: seq<nat>)
  {
    && |receivedAt| <= emitted <= |inner|
    && (forall j :: 0 <= j < |receivedAt| ==> receivedAt[j] <= |log|)
    && (forall p, q :: 0 <= p < q < |log| && Incoming(log[p]) && Incoming(log[q]) ==> log[p].j < log[q].j)
    && (forall p :: 0 <= p < |log| && Incoming(log[p]) ==>
          log[p].j < emitted && Describes(log[p], log[p].j, inner[log[p].j].command))
    && (forall j :: 0 <= j < emitted && !Silent(inner[j].command) ==>
          IsAnnounced(log, j, if j < |receivedAt| then receivedAt[j] else |log|))
  }

  ghost predicate IncomingOk(s: Sys)
  {
    IncomingInv(s.inner, s.log, Emitted(s.pc, s.taken), s.receivedAt)
  }

  lemma AnnouncedGrows(log: seq<Entry>, e: Entry, j: nat, before: nat, before': nat)
    requires IsAnnounced(log, j, before) && before <= before'
    ensures IsAnnounced(log + [e], j, before')
  {
    var p :| 0 <= p < before && p < |log| && Incoming(log[p]) && log[p].j == j;
    assert (log + [e])[p] == log[p];
  }

  lemma InnerGrows(inner: seq<Rpc>, rpc: Rpc, log: seq<Entry>, emitted: nat, receivedAt: seq<nat>)
    requires IncomingInv(inner, log, emitted, receivedAt)
    ensures IncomingInv(inner + [rpc], log, emitted, receivedAt)
  {
    hide IsAnnounced, Describes, Silent;
  }

  /** Any other event may be appended. */
  lemma OtherEvent(inner: seq<Rpc>, log: seq<Entry>, e: Entry, emitted: nat, receivedAt: seq<nat>)
    requires IncomingInv(inner, log, emitted, receivedAt) && !Incoming(e)
    ensures IncomingInv(inner, log + [e], emitted, receivedAt)
  {
    forall j | 0 <= j < emitted && !Silent(inner[j].command)
      ensures IsAnnounced(log + [e], j, if j < |receivedAt| then receivedAt[j] else |log + [e]|)
    {
      AnnouncedGrows(log, e, j, if j < |receivedAt| then receivedAt[j] else |log|,
                     if j < |receivedAt| then receivedAt[j] else |log + [e]|);
    }
    hide IsAnnounced, Describes, Silent;
  }

  lemma EmitsOne(inner: seq<Rpc>, log: seq<Entry>, e: Entry, emitted: nat, receivedAt: seq<nat>)
    requires IncomingInv(inner, log, emitted, receivedAt) && emitted < |inner|
    requires Incoming(e) && Describes(e, emitted, inner[emitted].command)
    ensures IncomingInv(inner, log + [e], emitted + 1, receivedAt)
  {
    forall j | 0 <= j < emitted && !Silent(inner[j].command)
      ensures IsAnnounced(log + [e], j, if j < |receivedAt| then receivedAt[j] else |log + [e]|)
    {
      AnnouncedGrows(log, e, j, if j < |receivedAt| then receivedAt[j] else |log|,
                     if j < |receivedAt| then receivedAt[j] else |log + [e]|);
    }
    assert (log + [e])[|log|] == e;
    assert IsAnnounced(log + [e], emitted, |log + [e]|);
    hide IsAnnounced, Silent;
  }

  lemma EmitsNone(inner: seq<Rpc>, log: seq<Entry>, emitted: nat, receivedAt: seq<nat>)
    requires IncomingInv(inner, log, emitted, receivedAt) && emitted < |inner| && Silent(inner[emitted].command)
    ensures IncomingInv(inner, log, emitted + 1, receivedAt)
  {
    hide IsAnnounced, Describes, Silent;
  }

  lemma HandsOver(inner: seq<Rpc>, log: seq<Entry>, emitted: nat, receivedAt: seq<nat>)
    requires IncomingInv(inner, log, emitted, receivedAt) && |receivedAt| < emitted
    ensures IncomingInv(inner, log, emitted, receivedAt + [|log|])
  {
    hide IsAnnounced, Describes, Silent;
  }

  // ---- every step ------------------------------------------------------------------------------

  /** Where the forwarder stands. */
  lemma ForwarderAt(s: Sys)
    requires Inv(s)
    ensures s.taken <= |s.inner| && |s.receivedAt| == |s.received|
    ensures Busy(s.pc) ==> s.taken > 0 && |s.received| == s.taken - 1
    ensures !Busy(s.pc) ==> |s.received| == s.taken
    ensures s.pc.Emitting? ==> s.pc.rpc == s.inner[s.taken - 1]
  {
    hide VoterInv, DeliveryInv, RequestInv, ResultInv, TermInv;
  }

  lemma AnnouncementIs(j: nat, c: Command, candidate: string)
    ensures Silent(c) ==> Announced(j, c, candidate) == []
    ensures !Silent(c) ==> exists e :: Announced(j, c, candidate) == [e] && Incoming(e) && Describes(e, j, c)
  {
    if !Silent(c) {
      assert Announced(j, c, candidate) == [Announced(j, c, candidate)[0]];
    }
  }

  lemma EmitIs(s: Sys)
    requires Enabled(s, Emit)
    ensures var s' := DoEmit(s);
      && s'.inner == s.inner && s'.receivedAt == s.receivedAt
      && s'.log == s.log + Announced(s.taken - 1, s.pc.rpc.command, s.pc.candidate)
      && Emitted(s.pc, s.taken) == s.taken - 1 && Emitted(s'.pc, s'.taken) == s.taken
  {
    hide Announced;
  }

  lemma EmitKept(s: Sys)
    requires Inv(s) && IncomingOk(s) && Enabled(s, Emit)
    ensures IncomingOk(DoEmit(s))
  {
    ForwarderAt(s);
    EmitIs(s);
    hide Inv, IncomingInv, Announced, Silent, Describes, Incoming, DoEmit, Emitted;
    var j := s.taken - 1;
    var c := s.inner[j].command;
    AnnouncementIs(j, c, s.pc.candidate);
    if Silent(c) {
      assert s.log + [] == s.log;
      EmitsNone(s.inner, s.log, j, s.receivedAt);
    } else {
      var e :| Announced(j, c, s.pc.candidate) == [e] && Incoming(e) && Describes(e, j, c);
      EmitsOne(s.inner, s.log, e, j, s.receivedAt);
    }
  }

  lemma EmitVoteKept(s: Sys, i: nat)
    requires IncomingOk(s) && Enabled(s, EmitVote(i))
    ensures IncomingOk(DoEmitVote(s, i))
  {
    hide IncomingInv;
    var resp := s.voters[i].pc.resp;
    if AnnouncesVote(resp) {
      OtherEvent(s.inner, s.log, VoteEntry(i, s.voters[i], resp), Emitted(s.pc, s.taken), s.receivedAt);
    } else {
      assert s.log + [] == s.log;
    }
  }

  lemma AnnounceKept(s: Sys)
    requires IncomingOk(s) && Enabled(s, Announce)
    ensures IncomingOk(DoAnnounce(s))
  {
    hide IncomingInv, TermOf;
    OtherEvent(s.inner, s.log, TermChanged(TermOf(s.pc.rpc.command)), Emitted(s.pc, s.taken), s.receivedAt);
  }

  lemma HandKept(s: Sys)
    requires Inv(s) && IncomingOk(s) && Enabled(s, Hand)
    ensures IncomingOk(DoHand(s))
  {
    ForwarderAt(s);
    hide Inv, IncomingInv;
    HandsOver(s.inner, s.log, s.taken, s.receivedAt);
  }

  /** Taking an RPC, noting its term, starting a vote goroutine and closing announce nothing. */
  lemma QuietKept(s: Sys, st: Step)
    requires IncomingOk(s) && Enabled(s, st) && (st.Take? || st.Note? || st.Spawn? || st.CloseWrapped?)
    ensures IncomingOk(Apply(s, st))
  {
    hide IncomingInv, TermOf;
  }

  lemma StepKept(s: Sys, st: Step)
    requires Inv(s) && IncomingOk(s) && Enabled(s, st)
    ensures IncomingOk(Apply(s, st))
  {
    hide Inv, IncomingInv, DoEmit, DoEmitVote, DoAnnounce, DoHand, DoTake, DoNote, DoSpawn;
    match st {
      case Arrive(rpc) => InnerGrows(s.inner, rpc, s.log, Emitted(s.pc, s.taken), s.receivedAt);
      case Emit => EmitKept(s);
      case EmitVote(i) => EmitVoteKept(s, i);
      case Append(n) => OtherEvent(s.inner, s.log, Foreign(n), Emitted(s.pc, s.taken), s.receivedAt);
      case Announce => AnnounceKept(s);
      case Hand => HandKept(s);
      case Take(_) => QuietKept(s, st);
      case Note => QuietKept(s, st);
      case Spawn => QuietKept(s, st);
      case CloseWrapped => QuietKept(s, st);
      case _ =>
    }
  }

  lemma RunKept(states: seq<Sys>, steps: seq<Step>)
    requires IsRun(states, steps)
    ensures forall i :: 0 <= i < |states| ==> IncomingOk(states[i])
  {
    RelaySteps.RunKept(states, steps);
    assert IncomingOk(Init);
    hide Inv, IncomingOk, Enabled, Apply;
    var n := 0;
    while n < |steps|
      invariant 0 <= n <= |steps|
      invariant forall i :: 0 <= i <= n ==> IncomingOk(states[i])
    {
      StepKept(states[n], steps[n]);
      n := n + 1;
    }
  }

  lemma SilentKinds()
    ensures forall c: Command :: Silent(c) <==> c.OtherCommand? || (c.AppendEntries? && c.entries == 0)
  {
  }

  lemma SilentIff(s: Sys, j: nat)
    requires IncomingOk(s) && j < |s.receivedAt|
    ensures Silent(s.inner[j].command) <==> !IsAnnounced(s.log, j, s.receivedAt[j])
  {
    if p: nat :| p < s.receivedAt[j] && p < |s.log| && Incoming(s.log[p]) && s.log[p].j == j {
      assert Describes(s.log[p], j, s.inner[j].command);
    }
  }

  /**
   In every state of every run: the announcements of incoming RPCs stand in order of arrival, none
   twice, each describing its RPC; an RPC that raft has received had been announced before, unless it is
   of the silent kind, which is never announced.
   */
  lemma IncomingAnnounced(s: Sys)
    requires RelayTheorems.Reachable(s)
    ensures |s.receivedAt| == |s.received| <= |s.inner|
    ensures forall p, q :: 0 <= p < q < |s.log| && Incoming(s.log[p]) && Incoming(s.log[q]) ==> s.log[p].j < s.log[q].j
    ensures forall p :: 0 <= p < |s.log| && Incoming(s.log[p]) ==>
              s.log[p].j < |s.inner| && Describes(s.log[p], s.log[p].j, s.inner[s.log[p].j].command)
    ensures forall j :: 0 <= j < |s.received| ==>
              var c := s.inner[j].command;
              (c.OtherCommand? || (c.AppendEntries? && c.entries == 0) <==> !IsAnnounced(s.log, j, s.receivedAt[j]))
  {
    var states, steps :| IsRun(states, steps) && states[|states| - 1] == s;
    RunKept(states, steps);
    RelaySteps.RunKept(states, steps);
    ForwarderAt(s);
    hide Inv, IsRun, Describes, Silent, IsAnnounced;
    assert IncomingOk(s);
    forall j | 0 <= j < |s.received|
      ensures Silent(s.inner[j].command) <==> !IsAnnounced(s.log, j, s.receivedAt[j])
    {
      SilentIff(s, j);
    }
    assert forall c: Command :: Silent(c) <==> c.OtherCommand? || (c.AppendEntries? && c.entries == 0) by { SilentKinds(); }
  }
}
