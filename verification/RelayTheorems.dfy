/** What raft and the senders of RPCs can rely on, in every state of every run of the relay. */
module RelayTheorems {
  import opened Basics
  import opened RelayMachine
  import opened RelayInvariant
  import RelaySteps

  ghost predicate Reachable(s: Sys)
  {
    exists states, steps :: IsRun(states, steps) && states[|states| - 1] == s
  }

  lemma ReachableInv(s: Sys)
    requires Reachable(s)
    ensures Inv(s)
  {
    var states, steps :| IsRun(states, steps) && states[|states| - 1] == s;
    RelaySteps.RunKept(states, steps);
  }

  /** What a receiver can see of an RPC besides where its answer goes. */
  function Contents(rpcs: seq<Rpc>): seq<(Command, nat)>
  {
    seq(|rpcs|, i requires 0 <= i < |rpcs| => (rpcs[i].command, rpcs[i].reader))
  }

  /** Seen from raft, the wrapped channel is the inner one: same RPCs, same order, closed only after all. */
  lemma RefinesPlainChannel(s: Sys)
    requires Reachable(s)
    ensures Contents(s.received) <= Contents(s.inner)
    ensures forall j :: 0 <= j < |s.received| <= |s.inner| && !s.inner[j].command.RequestVote? && !s.inner[j].command.RequestPreVote? ==>
              s.received[j] == s.inner[j]
    ensures s.wrappedClosed ==> s.innerClosed && Contents(s.received) == Contents(s.inner)
  {
    ReachableInv(s);
    hide VoterInv, DeliveryInv, RequestInv, ResultInv, TermInv;
  }

  /**
   What is written to original channels is raft's answer to that very RPC, unchanged, on the RPC's own
   channel, at most once an RPC; and it has been written exactly when raft has answered and, for a
   vote, its goroutine is through.
   */
  lemma ResponsesReachTheirRpc(s: Sys)
    requires Reachable(s)
    ensures forall k :: 0 <= k < |s.deliveries| ==>
              var d := s.deliveries[k];
              d.j < |s.inner| && d.j in s.answers && d.resp == s.answers[d.j] && s.inner[d.j].resp == Original(d.chan)
    ensures forall k, l :: 0 <= k < l < |s.deliveries| ==> s.deliveries[k].j != s.deliveries[l].j
    ensures forall j: nat :: Delivered(s.deliveries, j) <==>
              j in s.answers && j < |s.inner| &&
              (s.inner[j].command.RequestVote? || s.inner[j].command.RequestPreVote? ==> j in s.voters && s.voters[j].pc.Finished?)
  {
    ReachableInv(s);
    hide ForwardInv, VoterInv, RequestInv, ResultInv, TermInv, Delivered;
  }

  /** When the relay has closed its channel, raft has answered all and no goroutine is left, every RPC has its one answer. */
  lemma EveryRpcAnsweredOnce(s: Sys)
    requires Reachable(s) && s.wrappedClosed
    requires forall j :: 0 <= j < |s.received| ==> j in s.answers
    requires forall j :: j in s.voters ==> s.voters[j].pc.Finished?
    ensures forall j :: 0 <= j < |s.inner| ==> Delivered(s.deliveries, j)
    ensures |s.received| == |s.inner|
  {
    ReachableInv(s);
    ResponsesReachTheirRpc(s);
    hide DeliveryInv, RequestInv, ResultInv, TermInv, Delivered;
  }

  /** Raft cannot see a vote request before the hub has logged it. */
  lemma RequestAnnouncedFirst(s: Sys, j: nat)
    requires Reachable(s) && j < |s.received| && j < |s.inner|
    requires s.inner[j].command.RequestVote? || s.inner[j].command.RequestPreVote?
    ensures j < |s.receivedAt| && s.receivedAt[j] <= |s.log|
    ensures exists p, candidate :: 0 <= p < s.receivedAt[j] &&
              s.log[p] == VoteRequested(j, s.inner[j].command.term, candidate, s.inner[j].command.RequestPreVote?)
  {
    ReachableInv(s);
    hide ForwardInv, DeliveryInv, ResultInv, TermInv;
    assert Requested(s.log, j, s.inner[j], s.voters[j].candidate, s.receivedAt[j]);
  }

  /**
   A successful vote response reaches the original channel only after the hub has logged its result,
   with the same term, decision and round, for the candidate whose request was announced.
   */
  lemma ResultAnnouncedFirst(s: Sys, k: nat)
    requires Reachable(s) && k < |s.deliveries|
    requires s.deliveries[k].j < |s.inner|
    requires s.inner[s.deliveries[k].j].command.RequestVote? || s.inner[s.deliveries[k].j].command.RequestPreVote?
    requires !s.deliveries[k].resp.failed && s.deliveries[k].resp.body.VoteResponse?
    ensures s.deliveries[k].at <= |s.log|
    ensures var d, preVote := s.deliveries[k], s.inner[s.deliveries[k].j].command.RequestPreVote?;
      (exists p, q, candidate ::
        && 0 <= q < |s.log| && 0 <= p < d.at
        && s.log[p] == VoteResult(d.j, candidate, d.resp.body.term, d.resp.body.granted, preVote)
        && s.log[q] == VoteRequested(d.j, s.inner[d.j].command.term, candidate, preVote))
  {
    ReachableInv(s);
    var d := s.deliveries[k];
    DeliveredVoteIsOver(s, k);
    ResultBeforeDelivery(s, k);
    RequestOfVoter(s, d.j);
    hide Inv;
    var p :| 0 <= p < d.at && p < |s.log| && s.log[p] == VoteEntry(d.j, s.voters[d.j], d.resp);
    var before: nat :| Requested(s.log, d.j, s.inner[d.j], s.voters[d.j].candidate, before);
    var q :| 0 <= q < before && q < |s.log| &&
             s.log[q] == VoteRequested(d.j, TermOf(s.inner[d.j].command), s.voters[d.j].candidate, s.inner[d.j].command.RequestPreVote?);
    assert s.log[p] == VoteResult(d.j, s.voters[d.j].candidate, d.resp.body.term, d.resp.body.granted, s.inner[d.j].command.RequestPreVote?);
  }

  lemma DeliveredVoteIsOver(s: Sys, k: nat)
    requires Inv(s) && k < |s.deliveries| && s.deliveries[k].j < |s.inner| && IsVote(s.inner[s.deliveries[k].j].command)
    ensures s.deliveries[k].j in s.voters && s.deliveries[k].at <= |s.log|
    ensures s.voters[s.deliveries[k].j].preVote == s.inner[s.deliveries[k].j].command.RequestPreVote?
  {
    hide ForwardInv, RequestInv, ResultInv, TermInv;
    assert Delivered(s.deliveries, s.deliveries[k].j);
  }

  lemma ResultBeforeDelivery(s: Sys, k: nat)
    requires Inv(s) && k < |s.deliveries| && s.deliveries[k].j in s.voters && AnnouncesVote(s.deliveries[k].resp)
    ensures ResultLogged(s.log, s.deliveries[k].j, s.voters[s.deliveries[k].j], s.deliveries[k].resp, s.deliveries[k].at)
  {
    hide ForwardInv, VoterInv, DeliveryInv, RequestInv, TermInv, ResultLogged;
  }

  lemma RequestOfVoter(s: Sys, j: nat)
    requires Inv(s) && j in s.voters && j < |s.inner|
    ensures exists before: nat :: Requested(s.log, j, s.inner[j], s.voters[j].candidate, before)
  {
    hide ForwardInv, VoterInv, DeliveryInv, ResultInv, TermInv, Requested;
    assert Requested(s.log, j, s.inner[j], s.voters[j].candidate, if j < |s.receivedAt| then s.receivedAt[j] else |s.log|);
  }

  /** An answer to a vote is announced if and only if it is an error-free RequestVoteResponse, and then once. */
  lemma ResultAnnouncedIff(s: Sys, j: nat)
    requires Reachable(s) && j in s.voters && s.voters[j].pc.Finished?
    ensures j in s.answers
    ensures (exists p :: 0 <= p < |s.log| && s.log[p].VoteResult? && s.log[p].j == j) <==>
              !s.answers[j].failed && s.answers[j].body.VoteResponse?
    ensures forall p, q :: 0 <= p < q < |s.log| && s.log[p].VoteResult? && s.log[q].VoteResult? ==> s.log[p].j != s.log[q].j
  {
    ReachableInv(s);
    hide ForwardInv, DeliveryInv, RequestInv, TermInv;
    if AnnouncesVote(s.answers[j]) {
      assert ResultLogged(s.log, j, s.voters[j], s.answers[j], |s.log|);
    }
  }

  /**
   So the pre-vote a voter grants is not announced: raft answers a pre-vote with its own response type.
   A run with one pre-vote request, granted and relayed, whose log holds the new term and the request alone.
   */
  lemma GrantedPreVoteIsSilent() returns (s: Sys)
    ensures Reachable(s)
    ensures s.inner == [Rpc(RequestPreVote(1, 0), 0, Original(0))]
    ensures s.deliveries == [Delivery(0, 0, Response(false, PreVoteResponse(1, true)), 2)]
    ensures s.log == [TermChanged(1), VoteRequested(0, 1, "node-2", true)]
  {
    s := PreVoteAnswered();
    var v := s.voters[0];
    assert AnnouncesVote(Response(false, PreVoteResponse(1, true))) == false;
    hide Reachable;
    var s1 := Apply(s, Collect(0));
    Next(s, Collect(0));
    var s2 := Apply(s1, EmitVote(0));
    Next(s1, EmitVote(0));
    assert s2.log == s.log;
    Next(s2, Relay(0));
    s := Apply(s2, Relay(0));
  }

  lemma Next(s: Sys, st: Step)
    requires Reachable(s) && Enabled(s, st)
    ensures Reachable(Apply(s, st))
  {
    hide Enabled, Apply;
    var states, steps :| IsRun(states, steps) && states[|states| - 1] == s;
    assert IsRun(states + [Apply(s, st)], steps + [st]);
    assert (states + [Apply(s, st)])[|states|] == Apply(s, st);
  }

  lemma InitReachable()
    ensures Reachable(Init)
  {
    assert IsRun([Init], []) && [Init][|[Init]| - 1] == Init;
  }

  /** A pre-vote request has been taken, with its term noted and announced. */
  lemma PreVoteTaken() returns (s: Sys)
    ensures Reachable(s)
    ensures var rpc := Rpc(RequestPreVote(1, 0), 0, Original(0));
      s == Init.(inner := [rpc], taken := 1, pc := Emitting(rpc, "node-2"), lastTerm := 1, log := [TermChanged(1)])
  {
    var rpc := Rpc(RequestPreVote(1, 0), 0, Original(0));
    InitReachable();
    hide Reachable;
    Next(Init, Arrive(rpc));
    var s1 := Apply(Init, Arrive(rpc));
    Next(s1, Take("node-2"));
    var s2 := Apply(s1, Take("node-2"));
    Next(s2, Note);
    var s3 := Apply(s2, Note);
    Next(s3, Announce);
    s := Apply(s3, Announce);
  }

  /** It has been announced and handed over, and raft has granted it. */
  lemma PreVoteAnswered() returns (s: Sys)
    ensures Reachable(s)
    ensures var rpc := Rpc(RequestPreVote(1, 0), 0, Original(0));
      && s.inner == [rpc] && s.deliveries == [] && s.log == [TermChanged(1), VoteRequested(0, 1, "node-2", true)]
      && s.voters == map[0 := Voter(0, "node-2", true, Awaiting)]
      && s.private == map[0 := Response(false, PreVoteResponse(1, true))]
  {
    var s0 := PreVoteTaken();
    hide Reachable;
    Next(s0, Emit);
    var s1 := Apply(s0, Emit);
    assert s1.log == [TermChanged(1), VoteRequested(0, 1, "node-2", true)];
    Next(s1, Spawn);
    var s2 := Apply(s1, Spawn);
    Next(s2, Hand);
    var s3 := Apply(s2, Hand);
    assert s3.received == [Rpc(RequestPreVote(1, 0), 0, Private(0))];
    Next(s3, Answer(0, Response(false, PreVoteResponse(1, true))));
    s := Apply(s3, Answer(0, Response(false, PreVoteResponse(1, true))));
  }

  /** The tracked term is never behind an RPC raft has received, by the consumer or by the heartbeat fast path. */
  lemma TermNeverLags(s: Sys)
    requires Reachable(s)
    ensures forall j :: 0 <= j < |s.received| ==>
              var c := s.received[j].command;
              (c.RequestVote? || c.RequestPreVote? || c.InstallSnapshot? || c.AppendEntries? ==> c.term <= s.lastTerm)
    ensures forall i :: 0 <= i < |s.beats| ==> s.beats[i] <= s.lastTerm
  {
    ReachableInv(s);
    hide ForwardInv, VoterInv, DeliveryInv, RequestInv, ResultInv;
    forall j | 0 <= j < |s.received|
      ensures TermOf(s.received[j].command) <= s.lastTerm
    {
    }
  }
}
