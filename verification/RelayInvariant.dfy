/** What every step of the relay keeps, split by the components it speaks of. */
module RelayInvariant {
  import opened Basics
  import opened RelayMachine

  /** What raft is handed in place of the `j`-th incoming RPC. */
  function Wrap(j: nat, rpc: Rpc): Rpc
  {
    if IsVote(rpc.command) then rpc.(resp := Private(j)) else rpc
  }

  predicate Busy(pc: ForwarderPc) { !pc.Waiting? && !pc.Done? }

  ghost predicate ForwardInv(inner: seq<Rpc>, taken: nat, pc: ForwarderPc, received: seq<Rpc>, wrappedClosed: bool, innerClosed: bool)
  {
    && taken <= |inner|
    && (forall j :: 0 <= j < |inner| ==> inner[j].resp.Original?)
    && |received| == (if Busy(pc) then taken - 1 else taken)
    && (Busy(pc) ==> taken > 0 && pc.rpc == (if pc.Sending? then Wrap(taken - 1, inner[taken - 1]) else inner[taken - 1]))
    && (pc.Spawning? ==> IsVote(pc.rpc.command))
    && (forall j :: 0 <= j < |received| ==> received[j] == Wrap(j, inner[j]))
    && (wrappedClosed <==> pc.Done?)
    && (pc.Done? ==> innerClosed && taken == |inner|)
  }

  /** A private channel carries raft's answer to its own RPC and nothing else. */
  ghost predicate VoterInv(inner: seq<Rpc>, n: nat, sending: bool, voters: Voters, private: map<nat, Response>, answers: map<nat, Response>)
    requires n <= |inner|
  {
    && (forall j :: j in voters ==> (j < n || (j == n && sending)) && j < |inner| && IsVote(inner[j].command))
    && (forall j :: 0 <= j < n && IsVote(inner[j].command) ==> j in voters)
    && (sending ==> n < |inner| && (IsVote(inner[n].command) ==> n in voters))
    && (forall j :: j in voters ==>
          inner[j].resp == Original(voters[j].orig) && voters[j].preVote == inner[j].command.RequestPreVote?)
    && (forall j :: j in answers ==> j < n)
    && (forall j :: j in private <==> j in answers && j < n && IsVote(inner[j].command))
    && (forall j :: j in private && j in answers ==> private[j] == answers[j])
    && (forall j :: j in voters && !voters[j].pc.Awaiting? ==> j in answers)
    && (forall j :: j in voters && (voters[j].pc.Got? || voters[j].pc.Relaying?) && j in answers ==> voters[j].pc.resp == answers[j])
  }

  /** The answer to RPC `j` is out: raft wrote it directly, or the vote goroutine has passed it on. */
  predicate Out(inner: seq<Rpc>, voters: Voters, answers: map<nat, Response>, j: nat)
  {
    j in answers && j < |inner| && (IsVote(inner[j].command) ==> j in voters && voters[j].pc.Finished?)
  }

  ghost predicate Delivered(deliveries: seq<Delivery>, j: nat)
  {
    exists k :: 0 <= k < |deliveries| && deliveries[k].j == j
  }

  ghost predicate DeliveryInv(inner: seq<Rpc>, voters: Voters, answers: map<nat, Response>, deliveries: seq<Delivery>, logged: nat)
  {
    && (forall k :: 0 <= k < |deliveries| ==>
          var d := deliveries[k];
          && d.j < |inner| && d.j in answers && d.resp == answers[d.j] && inner[d.j].resp == Original(d.chan)
          && d.at <= logged)
    && (forall k, l :: 0 <= k < l < |deliveries| ==> deliveries[k].j != deliveries[l].j)
    && (forall j :: Delivered(deliveries, j) <==> Out(inner, voters, answers, j))
  }

  /** The request of RPC `j` is among the first `before` appends. */
  ghost predicate Requested(log: seq<Entry>, j: nat, rpc: Rpc, candidate: string, before: nat)
  {
    exists p :: 0 <= p < before && p < |log| &&
      log[p] == VoteRequested(j, TermOf(rpc.command), candidate, rpc.command.RequestPreVote?)
  }

  /** A vote goroutine exists only once its request is announced; so does raft's copy of the RPC. */
  ghost predicate RequestInv(inner: seq<Rpc>, log: seq<Entry>, pc: ForwarderPc, taken: nat, receivedAt: seq<nat>, voters: Voters)
  {
    && (forall j :: 0 <= j < |receivedAt| ==> receivedAt[j] <= |log|)
    && (forall j :: j in voters && j < |inner| ==>
          Requested(log, j, inner[j], voters[j].candidate, if j < |receivedAt| then receivedAt[j] else |log|))
    && (pc.Spawning? && taken > 0 ==> Requested(log, taken - 1, pc.rpc, pc.candidate, |log|))
  }

  ghost predicate ResultLogged(log: seq<Entry>, j: nat, v: Voter, resp: Response, before: nat)
    requires AnnouncesVote(resp)
  {
    exists p :: 0 <= p < before && p < |log| && log[p] == VoteEntry(j, v, resp)
  }

  predicate PastEmit(pc: VoterPc) { pc.Relaying? || pc.Finished? }

  /** A result is in the log exactly for the goroutines past their announcement whose answer is a vote. */
  ghost predicate ResultInv(log: seq<Entry>, voters: Voters, answers: map<nat, Response>, deliveries: seq<Delivery>)
  {
    && (forall j :: j in voters && PastEmit(voters[j].pc) && j in answers && AnnouncesVote(answers[j]) ==>
          ResultLogged(log, j, voters[j], answers[j], |log|))
    && (forall k :: 0 <= k < |deliveries| && deliveries[k].j in voters && AnnouncesVote(deliveries[k].resp) ==>
          ResultLogged(log, deliveries[k].j, voters[deliveries[k].j], deliveries[k].resp, deliveries[k].at))
    && (forall p :: 0 <= p < |log| && log[p].VoteResult? ==>
          && log[p].j in voters && PastEmit(voters[log[p].j].pc) && log[p].j in answers
          && AnnouncesVote(answers[log[p].j]))
    && (forall p, q :: 0 <= p < q < |log| && log[p].VoteResult? && log[q].VoteResult? ==> log[p].j != log[q].j)
  }

  /** Past its call of `noteTerm`, the forwarder's RPC is covered by the tracked term. */
  ghost predicate TermInv(lastTerm: nat, pc: ForwarderPc, received: seq<Rpc>, beating: map<nat, nat>, beats: seq<nat>)
  {
    && (pc.Announcing? || pc.Emitting? || pc.Spawning? || pc.Sending? ==> TermOf(pc.rpc.command) <= lastTerm)
    && (forall j :: 0 <= j < |received| ==> TermOf(received[j].command) <= lastTerm)
    && (forall b :: b in beating ==> beating[b] <= lastTerm)
    && (forall i :: 0 <= i < |beats| ==> beats[i] <= lastTerm)
  }

  ghost predicate Inv(s: Sys)
  {
    && ForwardInv(s.inner, s.taken, s.pc, s.received, s.wrappedClosed, s.innerClosed)
    && |s.receivedAt| == |s.received| <= |s.inner|
    && VoterInv(s.inner, |s.received|, s.pc.Sending?, s.voters, s.private, s.answers)
    && DeliveryInv(s.inner, s.voters, s.answers, s.deliveries, |s.log|)
    && RequestInv(s.inner, s.log, s.pc, s.taken, s.receivedAt, s.voters)
    && ResultInv(s.log, s.voters, s.answers, s.deliveries)
    && TermInv(s.lastTerm, s.pc, s.received, s.beating, s.beats)
  }

  // ---- growth of the log and of the inner sequence ---------------------------------------------

  lemma RequestedGrows(log: seq<Entry>, more: seq<Entry>, j: nat, rpc: Rpc, candidate: string, before: nat, before': nat)
    requires Requested(log, j, rpc, candidate, before) && before <= before'
    ensures Requested(log + more, j, rpc, candidate, before')
  {
    var p :| 0 <= p < before && p < |log| &&
             log[p] == VoteRequested(j, TermOf(rpc.command), candidate, rpc.command.RequestPreVote?);
    assert (log + more)[p] == log[p];
  }

  lemma ResultGrows(log: seq<Entry>, more: seq<Entry>, j: nat, v: Voter, resp: Response, before: nat, before': nat)
    requires AnnouncesVote(resp) && ResultLogged(log, j, v, resp, before) && before <= before'
    ensures ResultLogged(log + more, j, v, resp, before')
  {
    var p :| 0 <= p < before && p < |log| && log[p] == VoteEntry(j, v, resp);
    assert (log + more)[p] == log[p];
  }

  lemma RequestLogGrows(inner: seq<Rpc>, log: seq<Entry>, more: seq<Entry>, pc: ForwarderPc, taken: nat, receivedAt: seq<nat>, voters: Voters)
    requires RequestInv(inner, log, pc, taken, receivedAt, voters)
    ensures RequestInv(inner, log + more, pc, taken, receivedAt, voters)
  {
    forall j, rpc, candidate, before | Requested(log, j, rpc, candidate, before)
      ensures Requested(log + more, j, rpc, candidate, before)
    {
      RequestedGrows(log, more, j, rpc, candidate, before, before);
    }
    forall j, rpc, candidate | Requested(log, j, rpc, candidate, |log|)
      ensures Requested(log + more, j, rpc, candidate, |log + more|)
    {
      RequestedGrows(log, more, j, rpc, candidate, |log|, |log + more|);
    }
    hide Requested;
  }

  /** Anything but a vote result may be appended. */
  lemma ResultLogGrows(log: seq<Entry>, more: seq<Entry>, voters: Voters, answers: map<nat, Response>, deliveries: seq<Delivery>)
    requires ResultInv(log, voters, answers, deliveries)
    requires forall i :: 0 <= i < |more| ==> !more[i].VoteResult?
    ensures ResultInv(log + more, voters, answers, deliveries)
  {
    forall j, v, resp, before | AnnouncesVote(resp) && ResultLogged(log, j, v, resp, before)
      ensures ResultLogged(log + more, j, v, resp, before)
    {
      ResultGrows(log, more, j, v, resp, before, before);
    }
    forall j, v, resp | AnnouncesVote(resp) && ResultLogged(log, j, v, resp, |log|)
      ensures ResultLogged(log + more, j, v, resp, |log + more|)
    {
      ResultGrows(log, more, j, v, resp, |log|, |log + more|);
    }
    hide ResultLogged;
  }

  lemma DeliveryLogGrows(inner: seq<Rpc>, voters: Voters, answers: map<nat, Response>, deliveries: seq<Delivery>, n: nat, n': nat)
    requires DeliveryInv(inner, voters, answers, deliveries, n) && n <= n'
    ensures DeliveryInv(inner, voters, answers, deliveries, n')
  {
    hide Delivered, Out;
  }

  lemma DeliveryInnerGrows(inner: seq<Rpc>, rpc: Rpc, n: nat, voters: Voters, answers: map<nat, Response>, deliveries: seq<Delivery>, logged: nat)
    requires DeliveryInv(inner, voters, answers, deliveries, logged)
    requires forall j :: j in answers ==> j < |inner|
    ensures DeliveryInv(inner + [rpc], voters, answers, deliveries, logged)
  {
    assert forall j :: Out(inner + [rpc], voters, answers, j) <==> Out(inner, voters, answers, j);
    hide Delivered, Out;
  }

  // ---- one step at a time ----------------------------------------------------------------------

  lemma DeliveredAppend(deliveries: seq<Delivery>, d: Delivery, j: nat)
    ensures Delivered(deliveries + [d], j) <==> Delivered(deliveries, j) || d.j == j
  {
    var more := deliveries + [d];
    assert more[|deliveries|] == d;
    assert forall k :: 0 <= k < |deliveries| ==> more[k] == deliveries[k];
  }

  /** A new delivery for an RPC that had none. */
  lemma DeliveryAdds(inner: seq<Rpc>, voters: Voters, answers: map<nat, Response>, deliveries: seq<Delivery>, logged: nat,
                     voters': Voters, answers': map<nat, Response>, d: Delivery)
    requires DeliveryInv(inner, voters, answers, deliveries, logged)
    requires forall j :: j in answers ==> j in answers' && answers'[j] == answers[j]
    requires d.j < |inner| && d.j in answers' && d.resp == answers'[d.j] && inner[d.j].resp == Original(d.chan) && d.at <= logged
    requires !Out(inner, voters, answers, d.j)
    requires forall j :: Out(inner, voters', answers', j) <==> Out(inner, voters, answers, j) || j == d.j
    ensures DeliveryInv(inner, voters', answers', deliveries + [d], logged)
  {
    forall j
      ensures Delivered(deliveries + [d], j) <==> Delivered(deliveries, j) || d.j == j
    {
      DeliveredAppend(deliveries, d, j);
    }
    assert !Delivered(deliveries, d.j);
    assert forall k :: 0 <= k < |deliveries| ==> deliveries[k].j != d.j;
    hide Delivered, Out;
  }

  /** Goroutine moves that finish nothing. */
  lemma DeliverySame(inner: seq<Rpc>, voters: Voters, answers: map<nat, Response>, deliveries: seq<Delivery>, logged: nat,
                     voters': Voters, answers': map<nat, Response>)
    requires DeliveryInv(inner, voters, answers, deliveries, logged)
    requires forall j :: j in answers ==> j in answers' && answers'[j] == answers[j]
    requires forall j :: Out(inner, voters', answers', j) <==> Out(inner, voters, answers, j)
    ensures DeliveryInv(inner, voters', answers', deliveries, logged)
  {
    hide Delivered, Out;
  }
}
