/** The relay as the object it is: the forwarder's loop undisturbed, field by field. */
module RelayObject {
  import opened Basics
  import opened RelayMachine
  import opened RelayInvariant
  import RelayTheorems

  /** A turn up to its emission: the RPC is taken, its term claimed and, if new, announced. */
  function Noted(s: Sys, candidate: string): (r: Sys)
    requires s.taken < |s.inner|
    ensures r.pc == Emitting(s.inner[s.taken], candidate) && r.taken == s.taken + 1
  {
    var noted := DoNote(DoTake(s, candidate));
    if noted.pc.Announcing? then DoAnnounce(noted) else noted
  }

  /** One turn of the loop in the step-level machine, nobody else moving. */
  function Turn(s: Sys, candidate: string): Sys
    requires s.pc.Waiting? && s.taken < |s.inner| && s.inner[s.taken].resp.Original?
  {
    var emitted := DoEmit(Noted(s, candidate));
    DoHand(if emitted.pc.Spawning? then DoSpawn(emitted) else emitted)
  }

  /** What a turn amounts to. */
  function TurnResult(s: Sys, candidate: string): Sys
    requires s.taken < |s.inner| && s.inner[s.taken].resp.Original?
  {
    var j, rpc := s.taken, s.inner[s.taken];
    var term := TermOf(rpc.command);
    var log := s.log + (if term > s.lastTerm then [TermChanged(term)] else []) + Announced(j, rpc.command, candidate);
    s.(taken := j + 1, lastTerm := Higher(s.lastTerm, term), log := log,
       received := s.received + [Wrap(j, rpc)], receivedAt := s.receivedAt + [|log|],
       voters := if IsVote(rpc.command) then s.voters[j := Voter(rpc.resp.n, candidate, rpc.command.RequestPreVote?, Awaiting)]
                 else s.voters)
  }

  lemma TurnIs(s: Sys, candidate: string)
    requires s.pc.Waiting? && s.taken < |s.inner| && s.inner[s.taken].resp.Original?
    ensures Turn(s, candidate) == TurnResult(s, candidate)
  {
    var rpc, noted := s.inner[s.taken], Noted(s, candidate);
    NotedIs(s, candidate);
    hide Announced, TermOf, IsVote, Noted, DoEmit, DoSpawn, DoHand, Wrap;
    if IsVote(rpc.command) {
      VoteTurn(noted, s.taken, rpc, candidate);
    } else {
      OtherTurn(noted, s.taken, rpc, candidate);
    }
  }

  /** A vote is announced, gets its goroutine, and is sent on rewired. */
  lemma VoteTurn(s: Sys, j: nat, rpc: Rpc, candidate: string)
    requires s.taken == j + 1 && s.pc == Emitting(rpc, candidate) && rpc.resp.Original? && IsVote(rpc.command)
    ensures DoEmit(s).pc.Spawning?
    ensures var log := s.log + Announced(j, rpc.command, candidate);
      DoHand(DoSpawn(DoEmit(s))) ==
      s.(pc := Waiting, log := log, received := s.received + [Wrap(j, rpc)], receivedAt := s.receivedAt + [|log|],
         voters := s.voters[j := Voter(rpc.resp.n, candidate, rpc.command.RequestPreVote?, Awaiting)])
  {
    hide Announced;
  }

  /** Anything else is announced as it may be and sent on as it is. */
  lemma OtherTurn(s: Sys, j: nat, rpc: Rpc, candidate: string)
    requires s.taken == j + 1 && s.pc == Emitting(rpc, candidate) && !IsVote(rpc.command)
    ensures DoEmit(s).pc.Sending?
    ensures var log := s.log + Announced(j, rpc.command, candidate);
      DoHand(DoEmit(s)) ==
      s.(pc := Waiting, log := log, received := s.received + [Wrap(j, rpc)], receivedAt := s.receivedAt + [|log|])
  {
    hide Announced;
  }

  lemma NotedIs(s: Sys, candidate: string)
    requires s.taken < |s.inner|
    ensures var term := TermOf(s.inner[s.taken].command);
      Noted(s, candidate) ==
      s.(taken := s.taken + 1, lastTerm := Higher(s.lastTerm, term), pc := Emitting(s.inner[s.taken], candidate),
         log := s.log + (if term > s.lastTerm then [TermChanged(term)] else []))
  {
    assert s.log + [] == s.log;
    hide TermOf;
  }

  lemma TurnReceives(s: Sys, candidate: string)
    requires s.pc.Waiting? && s.taken < |s.inner| && s.inner[s.taken].resp.Original?
    ensures Turn(s, candidate).received == s.received + [Wrap(s.taken, s.inner[s.taken])]
  {
    TurnIs(s, candidate);
    hide Turn, Announced, Wrap;
  }

  lemma TurnMoves(s: Sys, candidate: string)
    requires s.pc.Waiting? && s.taken < |s.inner| && s.inner[s.taken].resp.Original?
    ensures Turn(s, candidate).pc.Waiting? && Turn(s, candidate).taken == s.taken + 1 && Turn(s, candidate).inner == s.inner
  {
    TurnIs(s, candidate);
    hide Turn, Announced, Wrap;
  }

  /** The first `n` turns, one after the other. */
  function Turns(s: Sys, n: nat, candidate: Rpc -> string): (r: Sys)
    requires s.pc.Waiting? && s.taken == 0 && n <= |s.inner|
    requires forall j :: 0 <= j < |s.inner| ==> s.inner[j].resp.Original?
    ensures r.pc.Waiting? && r.taken == n && r.inner == s.inner
  {
    if n == 0 then s
    else
      var before := Turns(s, n - 1, candidate);
      TurnMoves(before, candidate(s.inner[n - 1]));
      Turn(before, candidate(s.inner[n - 1]))
  }

  ghost predicate WrapsPrefix(received: seq<Rpc>, inner: seq<Rpc>, n: nat)
  {
    n <= |inner| && |received| == n && forall j :: 0 <= j < n ==> received[j] == Wrap(j, inner[j])
  }

  lemma WrapIs(j: nat, rpc: Rpc)
    ensures Wrap(j, rpc) == if rpc.command.RequestVote? || rpc.command.RequestPreVote? then rpc.(resp := Private(j)) else rpc
  {
  }

  lemma WrapsExtend(received: seq<Rpc>, inner: seq<Rpc>, n: nat)
    requires WrapsPrefix(received, inner, n) && n < |inner|
    ensures WrapsPrefix(received + [Wrap(n, inner[n])], inner, n + 1)
  {
    hide Wrap;
  }

  /** Undisturbed, `n` turns hand raft the first `n` RPCs, rewired where they are votes. */
  lemma {:induction false} TurnsWrap(s: Sys, n: nat, candidate: Rpc -> string)
    requires s.pc.Waiting? && s.taken == 0 && s.received == [] && n <= |s.inner|
    requires forall j :: 0 <= j < |s.inner| ==> s.inner[j].resp.Original?
    ensures WrapsPrefix(Turns(s, n, candidate).received, s.inner, n)
  {
    if n > 0 {
      hide Turn, WrapsPrefix;
      TurnsWrap(s, n - 1, candidate);
      var before := Turns(s, n - 1, candidate);
      assert Turns(s, n, candidate) == Turn(before, candidate(s.inner[n - 1]));
      TurnReceives(before, candidate(s.inner[n - 1]));
      WrapsExtend(before.received, s.inner, n - 1);
    }
  }

  // ---- turns are runs --------------------------------------------------------------------------

  lemma NotedReaches(s: Sys, candidate: string)
    requires RelayTheorems.Reachable(s) && s.pc.Waiting? && s.taken < |s.inner|
    ensures RelayTheorems.Reachable(Noted(s, candidate))
  {
    hide RelayTheorems.Reachable, TermOf;
    RelayTheorems.Next(s, Take(candidate));
    var s1 := Apply(s, Take(candidate));
    RelayTheorems.Next(s1, Note);
    var s2 := Apply(s1, Note);
    if s2.pc.Announcing? {
      RelayTheorems.Next(s2, Announce);
    }
  }

  lemma TurnReaches(s: Sys, candidate: string)
    requires RelayTheorems.Reachable(s) && s.pc.Waiting? && s.taken < |s.inner| && s.inner[s.taken].resp.Original?
    ensures RelayTheorems.Reachable(Turn(s, candidate))
  {
    NotedReaches(s, candidate);
    hide RelayTheorems.Reachable, Noted, Announced, IsVote;
    var s1 := Noted(s, candidate);
    RelayTheorems.Next(s1, Emit);
    var s2 := DoEmit(s1);
    if s2.pc.Spawning? {
      RelayTheorems.Next(s2, Spawn);
      RelayTheorems.Next(DoSpawn(s2), Hand);
    } else {
      RelayTheorems.Next(s2, Hand);
    }
  }

  /** Every state the undisturbed loop passes through is one of the machine's runs can reach. */
  lemma {:induction false} TurnsReach(s: Sys, n: nat, candidate: Rpc -> string)
    requires RelayTheorems.Reachable(s) && s.pc.Waiting? && s.taken == 0 && n <= |s.inner|
    requires forall j :: 0 <= j < |s.inner| ==> s.inner[j].resp.Original?
    ensures RelayTheorems.Reachable(Turns(s, n, candidate))
    decreases n
  {
    hide RelayTheorems.Reachable, Turn;
    if n > 0 {
      TurnsReach(s, n - 1, candidate);
      TurnReaches(Turns(s, n - 1, candidate), candidate(s.inner[n - 1]));
    }
  }

  lemma {:induction false} ArrivalsReach(inner: seq<Rpc>)
    requires forall j :: 0 <= j < |inner| ==> inner[j].resp.Original?
    ensures RelayTheorems.Reachable(Init.(inner := inner))
  {
    if inner == [] {
      RelayTheorems.InitReachable();
    } else {
      var before, last := inner[..|inner| - 1], inner[|inner| - 1];
      ArrivalsReach(before);
      hide RelayTheorems.Reachable;
      RelayTheorems.Next(Init.(inner := before), Arrive(last));
      assert before + [last] == inner;
    }
  }

  class EventTransport {
    /** RPCs received from the inner transport. */
    var taken: nat
    /** What raft has received from `wrappedCh`, and whether it is closed. */
    var wrapped: seq<Rpc>
    var closed: bool
    /** Vote goroutines started, by RPC; appends to the hub's log; the tracked term. */
    var voters: Voters
    var log: seq<Entry>
    var lastTerm: nat
    ghost var receivedAt: seq<nat>

    /** The machine's state that the fields stand for, between two turns. */
    ghost function View(inner: seq<Rpc>): Sys
      reads this
    {
      Init.(inner := inner, taken := taken, received := wrapped, receivedAt := receivedAt,
            voters := voters, log := log, lastTerm := lastTerm)
    }

    constructor ()
      ensures forall inner :: View(inner) == Init.(inner := inner)
      ensures !closed
    {
      taken, wrapped, closed, voters, log, lastTerm, receivedAt := 0, [], false, map[], [], 0, [];
    }

    /** `noteTerm`: claims under the lock, announces afterwards. */
    method NoteTerm(term: nat)
      modifies this`lastTerm, this`log
      ensures lastTerm == if term > old(lastTerm) then term else old(lastTerm)
      ensures log == if term > old(lastTerm) then old(log) + [TermChanged(term)] else old(log)
    {
      if term == 0 {
        return;
      }
      if term <= lastTerm {
        return;
      }
      lastTerm := term;
      log := log + [TermChanged(term)];
    }

    /** One turn of `forwardConsumer`. */
    method ForwardOne(rpc: Rpc, candidate: string, ghost inner: seq<Rpc>)
      requires taken < |inner| && rpc == inner[taken] && rpc.resp.Original?
      modifies this
      ensures View(inner) == TurnResult(old(View(inner)), candidate)
      ensures lastTerm == if !rpc.command.TimeoutNow? && !rpc.command.OtherCommand? && rpc.command.term > old(lastTerm)
                          then rpc.command.term else old(lastTerm)
      ensures taken == old(taken) + 1 && closed == old(closed)
    {
      var j := taken;
      taken := taken + 1;
      AnnounceIncoming(j, rpc.command, candidate);
      hide Announced;
      if rpc.command.RequestVote? {
        ForwardWithVoteCapture(j, rpc, candidate, false);
      } else if rpc.command.RequestPreVote? {
        ForwardWithVoteCapture(j, rpc, candidate, true);
      } else {
        Send(rpc);
      }
    }

    /** The cases of the type switch, up to the send. */
    method AnnounceIncoming(j: nat, command: Command, candidate: string)
      modifies this`log, this`lastTerm
      ensures lastTerm == if !command.TimeoutNow? && !command.OtherCommand? && command.term > old(lastTerm)
                          then command.term else old(lastTerm)
      ensures log == old(log) + (if lastTerm > old(lastTerm) then [TermChanged(lastTerm)] else [])
                     + Announced(j, command, candidate)
    {
      match command {
        case RequestVote(term, _) =>
          NoteTerm(term);
          log := log + [VoteRequested(j, term, candidate, false)];
        case RequestPreVote(term, _) =>
          NoteTerm(term);
          log := log + [VoteRequested(j, term, candidate, true)];
        case TimeoutNow(_) =>
          log := log + [TransferReceived(j)];
        case InstallSnapshot(term, _) =>
          NoteTerm(term);
          log := log + [SnapshotReceived(j, term)];
        case AppendEntries(term, entries, _) =>
          NoteTerm(term);
          if entries > 0 {
            log := log + [EntriesReceived(j, term)];
          }
        case OtherCommand(_) =>
      }
    }

    method Send(rpc: Rpc)
      modifies this`wrapped, this`receivedAt
      ensures wrapped == old(wrapped) + [rpc] && receivedAt == old(receivedAt) + [|log|]
    {
      wrapped := wrapped + [rpc];
      receivedAt := receivedAt + [|log|];
    }

    method ForwardWithVoteCapture(j: nat, rpc: Rpc, candidate: string, preVote: bool)
      requires rpc.resp.Original?
      modifies this`wrapped, this`receivedAt, this`voters
      ensures voters == old(voters)[j := Voter(rpc.resp.n, candidate, preVote, Awaiting)]
      ensures wrapped == old(wrapped) + [rpc.(resp := Private(j))] && receivedAt == old(receivedAt) + [|log|]
    {
      voters := voters[j := Voter(rpc.resp.n, candidate, preVote, Awaiting)];
      Send(Rpc(rpc.command, rpc.reader, Private(j)));
    }

    /** The loop of `forwardConsumer`, over everything the inner channel yields. */
    method ForwardAll(inner: seq<Rpc>, candidate: Rpc -> string)
      requires View(inner) == Init.(inner := inner) && taken == 0
      requires forall j :: 0 <= j < |inner| ==> inner[j].resp.Original?
      modifies this
      ensures View(inner) == Turns(Init.(inner := inner), |inner|, candidate)
      ensures closed == old(closed)
    {
      hide TurnResult, Turn, EventTransport.View;
      var n := 0;
      while n < |inner|
        invariant 0 <= n <= |inner| && taken == n && closed == old(closed)
        invariant View(inner) == Turns(Init.(inner := inner), n, candidate)
      {
        TurnIs(View(inner), candidate(inner[n]));
        ForwardOne(inner[n], candidate(inner[n]), inner);
        n := n + 1;
      }
    }

    /** `forwardConsumer`: the wrapped channel is closed once the inner one is used up. */
    method ForwardConsumer(inner: seq<Rpc>, candidate: Rpc -> string)
      requires View(inner) == Init.(inner := inner)
      requires forall j :: 0 <= j < |inner| ==> inner[j].resp.Original?
      modifies this
      ensures View(inner) == Turns(Init.(inner := inner), |inner|, candidate) && RelayTheorems.Reachable(View(inner))
      ensures |wrapped| == |inner|
      ensures forall j :: 0 <= j < |inner| ==>
                wrapped[j] == if inner[j].command.RequestVote? || inner[j].command.RequestPreVote?
                              then inner[j].(resp := Private(j)) else inner[j]
      ensures closed
    {
      hide Turns, Wrap, RelayTheorems.Reachable;
      ForwardAll(inner, candidate);
      closed := true;
      TurnsWrap(Init.(inner := inner), |inner|, candidate);
      ArrivalsReach(inner);
      TurnsReach(Init.(inner := inner), |inner|, candidate);
      assert View(inner).received == wrapped;
      forall j | 0 <= j < |inner|
        ensures wrapped[j] == if inner[j].command.RequestVote? || inner[j].command.RequestPreVote?
                              then inner[j].(resp := Private(j)) else inner[j]
      {
        WrapIs(j, inner[j]);
      }
    }
  }
}
