/** Every step of the relay, of raft and of everybody else keeps the invariant. */
module RelaySteps {
  import opened Basics
  import opened RelayMachine
  import opened RelayInvariant

  // ---- the forwarder ---------------------------------------------------------------------------

  lemma ForwardArrive(inner: seq<Rpc>, taken: nat, pc: ForwarderPc, received: seq<Rpc>, rpc: Rpc)
    requires ForwardInv(inner, taken, pc, received, false, false) && rpc.resp.Original?
    ensures ForwardInv(inner + [rpc], taken, pc, received, false, false)
  {
  }

  lemma VoterArrive(inner: seq<Rpc>, n: nat, sending: bool, voters: Voters, private: map<nat, Response>, answers: map<nat, Response>, rpc: Rpc)
    requires n <= |inner| && VoterInv(inner, n, sending, voters, private, answers)
    ensures VoterInv(inner + [rpc], n, sending, voters, private, answers)
  {
  }

  lemma RequestArrive(inner: seq<Rpc>, log: seq<Entry>, pc: ForwarderPc, taken: nat, receivedAt: seq<nat>, voters: Voters, rpc: Rpc)
    requires RequestInv(inner, log, pc, taken, receivedAt, voters)
    requires forall j :: j in voters ==> j < |inner|
    ensures RequestInv(inner + [rpc], log, pc, taken, receivedAt, voters)
  {
    hide Requested;
  }

  /** Facts other parts of the proof lean on. */
  lemma Bounds(s: Sys)
    requires Inv(s)
    ensures forall j :: j in s.voters ==> j < |s.inner| && (j < |s.received| || (j == |s.received| && s.pc.Sending?))
    ensures forall j :: j in s.answers ==> j < |s.received|
    ensures s.taken <= |s.inner| && |s.received| == (if Busy(s.pc) then s.taken - 1 else s.taken)
    ensures s.wrappedClosed ==> s.pc.Done? && s.innerClosed
  {
    hide DeliveryInv, RequestInv, ResultInv, TermInv;
  }

  lemma ArriveKept(s: Sys, rpc: Rpc)
    requires Inv(s) && Enabled(s, Arrive(rpc))
    ensures Inv(Apply(s, Arrive(rpc)))
  {
    hide ForwardInv, VoterInv, DeliveryInv, RequestInv, ResultInv, TermInv;
    var s' := Apply(s, Arrive(rpc));
    Bounds(s);
    ForwardArrive(s.inner, s.taken, s.pc, s.received, rpc);
    VoterArrive(s.inner, |s.received|, s.pc.Sending?, s.voters, s.private, s.answers, rpc);
    DeliveryInnerGrows(s.inner, rpc, |s.received|, s.voters, s.answers, s.deliveries, |s.log|);
    RequestArrive(s.inner, s.log, s.pc, s.taken, s.receivedAt, s.voters, rpc);
  }

  lemma CloseInnerKept(s: Sys)
    requires Inv(s)
    ensures Inv(Apply(s, CloseInner))
  {
    assert ForwardInv(s.inner, s.taken, s.pc, s.received, s.wrappedClosed, true);
    hide ForwardInv, VoterInv, DeliveryInv, RequestInv, ResultInv, TermInv;
  }

  /** The forwarder's program counter moves on; raft, the goroutines and the deliveries do not notice. */
  lemma ForwarderMoves(s: Sys, s': Sys)
    requires Inv(s)
    requires s'.pc.Sending? == s.pc.Sending?
    requires ForwardInv(s'.inner, s'.taken, s'.pc, s'.received, s'.wrappedClosed, s'.innerClosed)
    requires RequestInv(s'.inner, s'.log, s'.pc, s'.taken, s'.receivedAt, s'.voters)
    requires TermInv(s'.lastTerm, s'.pc, s'.received, s'.beating, s'.beats)
    requires s' == s.(pc := s'.pc, taken := s'.taken, lastTerm := s'.lastTerm, wrappedClosed := s'.wrappedClosed)
    ensures Inv(s')
  {
    hide ForwardInv, VoterInv, DeliveryInv, RequestInv, ResultInv, TermInv;
  }

  lemma RequestPc(inner: seq<Rpc>, log: seq<Entry>, pc: ForwarderPc, taken: nat, receivedAt: seq<nat>, voters: Voters, pc': ForwarderPc, taken': nat)
    requires RequestInv(inner, log, pc, taken, receivedAt, voters) && !pc'.Spawning?
    ensures RequestInv(inner, log, pc', taken', receivedAt, voters)
  {
    hide Requested;
  }

  lemma TakeForward(s: Sys, candidate: string)
    requires ForwardInv(s.inner, s.taken, s.pc, s.received, s.wrappedClosed, s.innerClosed) && Enabled(s, Take(candidate))
    ensures var s' := Apply(s, Take(candidate));
      ForwardInv(s'.inner, s'.taken, s'.pc, s'.received, s'.wrappedClosed, s'.innerClosed)
  {
  }

  lemma TakeTerm(s: Sys, candidate: string)
    requires TermInv(s.lastTerm, s.pc, s.received, s.beating, s.beats) && Enabled(s, Take(candidate))
    ensures var s' := Apply(s, Take(candidate));
      TermInv(s'.lastTerm, s'.pc, s'.received, s'.beating, s'.beats)
  {
  }

  lemma TakeKept(s: Sys, candidate: string)
    requires Inv(s) && Enabled(s, Take(candidate))
    ensures Inv(Apply(s, Take(candidate)))
  {
    hide ForwardInv, VoterInv, DeliveryInv, RequestInv, ResultInv, TermInv;
    var s' := Apply(s, Take(candidate));
    RequestPc(s.inner, s.log, s.pc, s.taken, s.receivedAt, s.voters, s'.pc, s'.taken);
    assert ForwardInv(s'.inner, s'.taken, s'.pc, s'.received, s'.wrappedClosed, s'.innerClosed) by {
      TakeForward(s, candidate);
    }
    assert TermInv(s'.lastTerm, s'.pc, s'.received, s'.beating, s'.beats) by {
      TakeTerm(s, candidate);
    }
    ForwarderMoves(s, s');
  }

  lemma NoteForward(s: Sys)
    requires ForwardInv(s.inner, s.taken, s.pc, s.received, s.wrappedClosed, s.innerClosed) && Enabled(s, Note)
    ensures var s' := Apply(s, Note);
      ForwardInv(s'.inner, s'.taken, s'.pc, s'.received, s'.wrappedClosed, s'.innerClosed)
  {
  }

  lemma NoteTerm(s: Sys)
    requires TermInv(s.lastTerm, s.pc, s.received, s.beating, s.beats) && Enabled(s, Note)
    ensures var s' := Apply(s, Note);
      TermInv(s'.lastTerm, s'.pc, s'.received, s'.beating, s'.beats)
  {
  }

  lemma NoteKept(s: Sys)
    requires Inv(s) && Enabled(s, Note)
    ensures Inv(Apply(s, Note))
  {
    hide ForwardInv, VoterInv, DeliveryInv, RequestInv, ResultInv, TermInv;
    var s' := Apply(s, Note);
    RequestPc(s.inner, s.log, s.pc, s.taken, s.receivedAt, s.voters, s'.pc, s'.taken);
    assert ForwardInv(s'.inner, s'.taken, s'.pc, s'.received, s'.wrappedClosed, s'.innerClosed) by {
      NoteForward(s);
    }
    assert TermInv(s'.lastTerm, s'.pc, s'.received, s'.beating, s'.beats) by {
      NoteTerm(s);
    }
    ForwarderMoves(s, s');
  }

  lemma CloseWrappedForward(s: Sys)
    requires ForwardInv(s.inner, s.taken, s.pc, s.received, s.wrappedClosed, s.innerClosed) && Enabled(s, CloseWrapped)
    ensures var s' := Apply(s, CloseWrapped);
      ForwardInv(s'.inner, s'.taken, s'.pc, s'.received, s'.wrappedClosed, s'.innerClosed)
  {
  }

  lemma CloseWrappedTerm(s: Sys)
    requires TermInv(s.lastTerm, s.pc, s.received, s.beating, s.beats) && Enabled(s, CloseWrapped)
    ensures var s' := Apply(s, CloseWrapped);
      TermInv(s'.lastTerm, s'.pc, s'.received, s'.beating, s'.beats)
  {
  }

  lemma CloseWrappedKept(s: Sys)
    requires Inv(s) && Enabled(s, CloseWrapped)
    ensures Inv(Apply(s, CloseWrapped))
  {
    hide ForwardInv, VoterInv, DeliveryInv, RequestInv, ResultInv, TermInv;
    var s' := Apply(s, CloseWrapped);
    RequestPc(s.inner, s.log, s.pc, s.taken, s.receivedAt, s.voters, s'.pc, s'.taken);
    assert ForwardInv(s'.inner, s'.taken, s'.pc, s'.received, s'.wrappedClosed, s'.innerClosed) by {
      CloseWrappedForward(s);
    }
    assert TermInv(s'.lastTerm, s'.pc, s'.received, s'.beating, s'.beats) by {
      CloseWrappedTerm(s);
    }
    ForwarderMoves(s, s');
  }

  lemma AnnounceForward(s: Sys)
    requires ForwardInv(s.inner, s.taken, s.pc, s.received, s.wrappedClosed, s.innerClosed) && Enabled(s, Announce)
    ensures var s' := Apply(s, Announce);
      ForwardInv(s'.inner, s'.taken, s'.pc, s'.received, s'.wrappedClosed, s'.innerClosed)
  {
  }

  lemma AnnounceTerm(s: Sys)
    requires TermInv(s.lastTerm, s.pc, s.received, s.beating, s.beats) && Enabled(s, Announce)
    ensures var s' := Apply(s, Announce);
      TermInv(s'.lastTerm, s'.pc, s'.received, s'.beating, s'.beats)
  {
  }

  lemma AnnounceKept(s: Sys)
    requires Inv(s) && Enabled(s, Announce)
    ensures Inv(Apply(s, Announce))
  {
    hide ForwardInv, VoterInv, DeliveryInv, RequestInv, ResultInv, TermInv;
    var s' := Apply(s, Announce);
    AnnounceForward(s);
    AnnounceTerm(s);
    var more := [TermChanged(TermOf(s.pc.rpc.command))];
    RequestLogGrows(s.inner, s.log, more, s.pc, s.taken, s.receivedAt, s.voters);
    RequestPc(s.inner, s'.log, s.pc, s.taken, s.receivedAt, s.voters, s'.pc, s.taken);
    ResultLogGrows(s.log, more, s.voters, s.answers, s.deliveries);
    DeliveryLogGrows(s.inner, s.voters, s.answers, s.deliveries, |s.log|, |s'.log|);
  }

  lemma EmitForward(s: Sys)
    requires ForwardInv(s.inner, s.taken, s.pc, s.received, s.wrappedClosed, s.innerClosed) && Enabled(s, Emit)
    ensures var s' := Apply(s, Emit);
      ForwardInv(s'.inner, s'.taken, s'.pc, s'.received, s'.wrappedClosed, s'.innerClosed)
  {
  }

  lemma EmitTerm(s: Sys)
    requires TermInv(s.lastTerm, s.pc, s.received, s.beating, s.beats) && Enabled(s, Emit)
    ensures var s' := Apply(s, Emit);
      TermInv(s'.lastTerm, s'.pc, s'.received, s'.beating, s'.beats)
  {
  }

  /** After a vote's announcement, the log holds it. */
  lemma EmitRequest(s: Sys)
    requires RequestInv(s.inner, s.log, s.pc, s.taken, s.receivedAt, s.voters) && Enabled(s, Emit)
    ensures RequestInv(s.inner, DoEmit(s).log, DoEmit(s).pc, s.taken, s.receivedAt, s.voters)
  {
    var more := Announced(s.taken - 1, s.pc.rpc.command, s.pc.candidate);
    var log' := s.log + more;
    RequestLogGrows(s.inner, s.log, more, s.pc, s.taken, s.receivedAt, s.voters);
    if IsVote(s.pc.rpc.command) {
      assert log'[|s.log|] == more[0];
      assert Requested(log', s.taken - 1, s.pc.rpc, s.pc.candidate, |log'|);
    }
    hide Requested;
  }

  /** A forwarder that comes to its send with an RPC that is no vote needs no goroutine. */
  lemma VoterSends(inner: seq<Rpc>, n: nat, voters: Voters, private: map<nat, Response>, answers: map<nat, Response>)
    requires n < |inner| && VoterInv(inner, n, false, voters, private, answers) && !IsVote(inner[n].command)
    ensures VoterInv(inner, n, true, voters, private, answers)
  {
  }

  lemma CurrentRpc(s: Sys)
    requires ForwardInv(s.inner, s.taken, s.pc, s.received, s.wrappedClosed, s.innerClosed) && Busy(s.pc)
    ensures 0 < s.taken <= |s.inner| && |s.received| == s.taken - 1
    ensures !s.pc.Sending? ==> s.pc.rpc == s.inner[s.taken - 1]
    ensures s.pc.Spawning? ==> IsVote(s.pc.rpc.command)
    ensures s.inner[s.taken - 1].resp.Original?
  {
  }

  lemma EmitKept(s: Sys)
    requires Inv(s) && Enabled(s, Emit)
    ensures Inv(Apply(s, Emit))
  {
    hide ForwardInv, VoterInv, DeliveryInv, RequestInv, ResultInv, TermInv;
    var s' := Apply(s, Emit);
    CurrentRpc(s);
    EmitForward(s);
    EmitTerm(s);
    EmitRequest(s);
    var more := Announced(s.taken - 1, s.pc.rpc.command, s.pc.candidate);
    ResultLogGrows(s.log, more, s.voters, s.answers, s.deliveries);
    DeliveryLogGrows(s.inner, s.voters, s.answers, s.deliveries, |s.log|, |s'.log|);
    if !IsVote(s.pc.rpc.command) {
      VoterSends(s.inner, |s.received|, s.voters, s.private, s.answers);
    }
  }

  lemma SpawnForward(s: Sys)
    requires ForwardInv(s.inner, s.taken, s.pc, s.received, s.wrappedClosed, s.innerClosed) && Enabled(s, Spawn)
    ensures var s' := Apply(s, Spawn);
      ForwardInv(s'.inner, s'.taken, s'.pc, s'.received, s'.wrappedClosed, s'.innerClosed)
  {
  }

  lemma SpawnTerm(s: Sys)
    requires TermInv(s.lastTerm, s.pc, s.received, s.beating, s.beats) && Enabled(s, Spawn)
    ensures var s' := Apply(s, Spawn);
      TermInv(s'.lastTerm, s'.pc, s'.received, s'.beating, s'.beats)
  {
  }

  lemma VoterSpawns(inner: seq<Rpc>, n: nat, voters: Voters, private: map<nat, Response>, answers: map<nat, Response>, v: Voter)
    requires n < |inner| && VoterInv(inner, n, false, voters, private, answers) && IsVote(inner[n].command)
    requires v.pc.Awaiting? && inner[n].resp == Original(v.orig) && v.preVote == inner[n].command.RequestPreVote?
    ensures n !in voters && n !in answers && n !in private
    ensures VoterInv(inner, n, true, voters[n := v], private, answers)
  {
  }

  lemma SpawnRequest(s: Sys)
    requires RequestInv(s.inner, s.log, s.pc, s.taken, s.receivedAt, s.voters) && Enabled(s, Spawn)
    requires s.taken <= |s.inner| && s.pc.rpc == s.inner[s.taken - 1] && |s.receivedAt| == s.taken - 1
    ensures RequestInv(s.inner, s.log, DoSpawn(s).pc, s.taken, s.receivedAt, DoSpawn(s).voters)
  {
    hide Requested;
  }

  lemma ResultSpawn(log: seq<Entry>, voters: Voters, answers: map<nat, Response>, deliveries: seq<Delivery>, n: nat, v: Voter)
    requires ResultInv(log, voters, answers, deliveries) && n !in voters && n !in answers && v.pc.Awaiting?
    requires forall k :: 0 <= k < |deliveries| ==> deliveries[k].j in answers
    ensures ResultInv(log, voters[n := v], answers, deliveries)
  {
    hide ResultLogged;
  }

  lemma DeliveredAreAnswered(inner: seq<Rpc>, voters: Voters, answers: map<nat, Response>, deliveries: seq<Delivery>, logged: nat)
    requires DeliveryInv(inner, voters, answers, deliveries, logged)
    ensures forall k :: 0 <= k < |deliveries| ==> deliveries[k].j in answers && deliveries[k].resp == answers[deliveries[k].j]
    ensures forall j :: Out(inner, voters, answers, j) <==> Delivered(deliveries, j)
  {
    hide Out, Delivered;
  }

  lemma SpawnKept(s: Sys)
    requires Inv(s) && Enabled(s, Spawn)
    ensures Inv(Apply(s, Spawn))
  {
    hide ForwardInv, VoterInv, DeliveryInv, RequestInv, ResultInv, TermInv;
    var s' := Apply(s, Spawn);
    CurrentRpc(s);
    SpawnForward(s);
    SpawnTerm(s);
    var n, v := |s.received|, s'.voters[s.taken - 1];
    VoterSpawns(s.inner, n, s.voters, s.private, s.answers, v);
    SpawnRequest(s);
    DeliveredAreAnswered(s.inner, s.voters, s.answers, s.deliveries, |s.log|);
    ResultSpawn(s.log, s.voters, s.answers, s.deliveries, n, v);
    DeliverySame(s.inner, s.voters, s.answers, s.deliveries, |s.log|, s'.voters, s.answers);
  }

  lemma HandForward(s: Sys)
    requires ForwardInv(s.inner, s.taken, s.pc, s.received, s.wrappedClosed, s.innerClosed) && Enabled(s, Hand)
    ensures var s' := Apply(s, Hand);
      ForwardInv(s'.inner, s'.taken, s'.pc, s'.received, s'.wrappedClosed, s'.innerClosed)
  {
  }

  lemma HandTerm(s: Sys)
    requires TermInv(s.lastTerm, s.pc, s.received, s.beating, s.beats) && Enabled(s, Hand)
    ensures var s' := Apply(s, Hand);
      TermInv(s'.lastTerm, s'.pc, s'.received, s'.beating, s'.beats)
  {
  }

  lemma VoterHands(inner: seq<Rpc>, n: nat, voters: Voters, private: map<nat, Response>, answers: map<nat, Response>)
    requires n < |inner| && VoterInv(inner, n, true, voters, private, answers)
    ensures VoterInv(inner, n + 1, false, voters, private, answers)
  {
  }

  lemma RequestHands(inner: seq<Rpc>, log: seq<Entry>, pc: ForwarderPc, taken: nat, receivedAt: seq<nat>, voters: Voters)
    requires RequestInv(inner, log, pc, taken, receivedAt, voters) && pc.Sending?
    ensures RequestInv(inner, log, Waiting, taken, receivedAt + [|log|], voters)
  {
    hide Requested;
  }

  lemma HandKept(s: Sys)
    requires Inv(s) && Enabled(s, Hand)
    ensures Inv(Apply(s, Hand))
  {
    hide ForwardInv, VoterInv, DeliveryInv, RequestInv, ResultInv, TermInv;
    var s' := Apply(s, Hand);
    CurrentRpc(s);
    HandForward(s);
    HandTerm(s);
    VoterHands(s.inner, |s.received|, s.voters, s.private, s.answers);
    RequestHands(s.inner, s.log, s.pc, s.taken, s.receivedAt, s.voters);
  }

  // ---- raft and the vote goroutines --------------------------------------------------------------

  lemma VoterAnswers(inner: seq<Rpc>, n: nat, sending: bool, voters: Voters, private: map<nat, Response>, answers: map<nat, Response>, j: nat, resp: Response)
    requires n <= |inner| && VoterInv(inner, n, sending, voters, private, answers)
    requires j < n && j !in answers
    ensures VoterInv(inner, n, sending, voters, if IsVote(inner[j].command) then private[j := resp] else private, answers[j := resp])
    ensures IsVote(inner[j].command) ==> j in voters && voters[j].pc.Awaiting?
    ensures !IsVote(inner[j].command) ==> j !in voters
  {
  }

  lemma ReceivedIsWrapped(s: Sys, j: nat)
    requires ForwardInv(s.inner, s.taken, s.pc, s.received, s.wrappedClosed, s.innerClosed)
    requires j < |s.received| <= |s.inner|
    ensures s.received[j] == Wrap(j, s.inner[j]) && s.inner[j].resp.Original?
  {
  }

  lemma ResultAnswers(log: seq<Entry>, voters: Voters, answers: map<nat, Response>, deliveries: seq<Delivery>, j: nat, resp: Response, deliveries': seq<Delivery>)
    requires ResultInv(log, voters, answers, deliveries) && j !in answers
    requires j in voters ==> !PastEmit(voters[j].pc)
    requires deliveries' == deliveries ||
             (j !in voters && |deliveries'| == |deliveries| + 1 && deliveries'[..|deliveries|] == deliveries && deliveries'[|deliveries|].j == j)
    ensures ResultInv(log, voters, answers[j := resp], deliveries')
  {
    hide ResultLogged;
    assert forall k :: 0 <= k < |deliveries| ==> deliveries'[k] == deliveries[k];
  }

  lemma AnswerKept(s: Sys, j: nat, resp: Response)
    requires Inv(s) && Enabled(s, Answer(j, resp))
    ensures Inv(Apply(s, Answer(j, resp)))
  {
    hide ForwardInv, VoterInv, DeliveryInv, RequestInv, ResultInv, TermInv;
    var s' := Apply(s, Answer(j, resp));
    ReceivedIsWrapped(s, j);
    VoterAnswers(s.inner, |s.received|, s.pc.Sending?, s.voters, s.private, s.answers, j, resp);
    ResultAnswers(s.log, s.voters, s.answers, s.deliveries, j, resp, s'.deliveries);
    if IsVote(s.inner[j].command) {
      DeliverySame(s.inner, s.voters, s.answers, s.deliveries, |s.log|, s.voters, s'.answers);
    } else {
      DeliveryAdds(s.inner, s.voters, s.answers, s.deliveries, |s.log|, s.voters, s'.answers, s'.deliveries[|s.deliveries|]);
    }
  }

  lemma VoterMoves(inner: seq<Rpc>, n: nat, sending: bool, voters: Voters, private: map<nat, Response>, answers: map<nat, Response>, i: nat, pc: VoterPc)
    requires n <= |inner| && VoterInv(inner, n, sending, voters, private, answers) && i in voters
    requires !pc.Awaiting? && i in answers
    requires pc.Got? || pc.Relaying? ==> pc.resp == answers[i]
    ensures VoterInv(inner, n, sending, voters[i := voters[i].(pc := pc)], private, answers)
  {
  }

  lemma HeldAnswer(inner: seq<Rpc>, n: nat, sending: bool, voters: Voters, private: map<nat, Response>, answers: map<nat, Response>, i: nat)
    requires n <= |inner| && VoterInv(inner, n, sending, voters, private, answers) && i in voters
    ensures i < |inner| && inner[i].resp == Original(voters[i].orig) && IsVote(inner[i].command)
    ensures i in private ==> i in answers && private[i] == answers[i]
    ensures !voters[i].pc.Awaiting? ==> i in answers
    ensures (voters[i].pc.Got? || voters[i].pc.Relaying?) && i in answers ==> voters[i].pc.resp == answers[i]
  {
  }

  /** Requests do not depend on where a vote goroutine is. */
  lemma RequestVoter(inner: seq<Rpc>, log: seq<Entry>, pc: ForwarderPc, taken: nat, receivedAt: seq<nat>, voters: Voters, i: nat, vpc: VoterPc)
    requires RequestInv(inner, log, pc, taken, receivedAt, voters) && i in voters
    ensures RequestInv(inner, log, pc, taken, receivedAt, voters[i := voters[i].(pc := vpc)])
  {
    hide Requested;
  }

  lemma ResultLoggedVoter(log: seq<Entry>, j: nat, v: Voter, pc: VoterPc, resp: Response, before: nat)
    requires AnnouncesVote(resp)
    ensures ResultLogged(log, j, v.(pc := pc), resp, before) <==> ResultLogged(log, j, v, resp, before)
  {
    assert VoteEntry(j, v.(pc := pc), resp) == VoteEntry(j, v, resp);
  }

  lemma ResultSame(log: seq<Entry>, voters: Voters, answers: map<nat, Response>, deliveries: seq<Delivery>, i: nat, pc: VoterPc)
    requires ResultInv(log, voters, answers, deliveries) && i in voters
    requires PastEmit(pc) == PastEmit(voters[i].pc)
    ensures ResultInv(log, voters[i := voters[i].(pc := pc)], answers, deliveries)
  {
    forall resp, before | AnnouncesVote(resp)
      ensures ResultLogged(log, i, voters[i].(pc := pc), resp, before) <==> ResultLogged(log, i, voters[i], resp, before)
    {
      ResultLoggedVoter(log, i, voters[i], pc, resp, before);
    }
    hide ResultLogged;
  }

  lemma CollectKept(s: Sys, i: nat)
    requires Inv(s) && Enabled(s, Collect(i))
    ensures Inv(Apply(s, Collect(i)))
  {
    hide ForwardInv, VoterInv, DeliveryInv, RequestInv, ResultInv, TermInv;
    var s' := Apply(s, Collect(i));
    var n, sending := |s.received|, s.pc.Sending?;
    HeldAnswer(s.inner, n, sending, s.voters, s.private, s.answers, i);
    VoterMoves(s.inner, n, sending, s.voters, s.private, s.answers, i, s'.voters[i].pc);
    RequestVoter(s.inner, s.log, s.pc, s.taken, s.receivedAt, s.voters, i, s'.voters[i].pc);
    ResultSame(s.log, s.voters, s.answers, s.deliveries, i, s'.voters[i].pc);
    DeliverySame(s.inner, s.voters, s.answers, s.deliveries, |s.log|, s'.voters, s.answers);
  }

  lemma ResultEmits(log: seq<Entry>, voters: Voters, answers: map<nat, Response>, deliveries: seq<Delivery>, i: nat, resp: Response)
    requires ResultInv(log, voters, answers, deliveries) && i in voters && i in answers && resp == answers[i] && voters[i].pc.Got?
    requires forall k :: 0 <= k < |deliveries| ==> deliveries[k].j != i
    ensures ResultInv(log + (if AnnouncesVote(resp) then [VoteEntry(i, voters[i], resp)] else []),
                      voters[i := voters[i].(pc := Relaying(resp))], answers, deliveries)
  {
    var v' := voters[i].(pc := Relaying(resp));
    var more := if AnnouncesVote(resp) then [VoteEntry(i, voters[i], resp)] else [];
    var log' := log + more;
    if AnnouncesVote(resp) {
      assert log'[|log|] == VoteEntry(i, v', resp);
      assert ResultLogged(log', i, v', resp, |log'|);
    }
    forall j, v, r, before, before' | AnnouncesVote(r) && ResultLogged(log, j, v, r, before) && before <= before'
      ensures ResultLogged(log', j, v, r, before')
    {
      ResultGrows(log, more, j, v, r, before, before');
    }
    hide ResultLogged;
  }

  lemma EmitVoteKept(s: Sys, i: nat)
    requires Inv(s) && Enabled(s, EmitVote(i))
    ensures Inv(Apply(s, EmitVote(i)))
  {
    hide ForwardInv, VoterInv, DeliveryInv, RequestInv, ResultInv, TermInv;
    var s' := Apply(s, EmitVote(i));
    var n, sending := |s.received|, s.pc.Sending?;
    HeldAnswer(s.inner, n, sending, s.voters, s.private, s.answers, i);
    VoterMoves(s.inner, n, sending, s.voters, s.private, s.answers, i, s'.voters[i].pc);
    RequestVoter(s.inner, s.log, s.pc, s.taken, s.receivedAt, s.voters, i, s'.voters[i].pc);
    var resp := s.voters[i].pc.resp;
    var more := if AnnouncesVote(resp) then [VoteEntry(i, s.voters[i], resp)] else [];
    DeliveredAreAnswered(s.inner, s.voters, s.answers, s.deliveries, |s.log|);
    assert !Out(s.inner, s.voters, s.answers, i);
    assert forall k :: 0 <= k < |s.deliveries| ==> Delivered(s.deliveries, s.deliveries[k].j);
    RequestLogGrows(s.inner, s.log, more, s.pc, s.taken, s.receivedAt, s'.voters);
    ResultEmits(s.log, s.voters, s.answers, s.deliveries, i, resp);
    DeliverySame(s.inner, s.voters, s.answers, s.deliveries, |s.log|, s'.voters, s.answers);
    DeliveryLogGrows(s.inner, s'.voters, s.answers, s.deliveries, |s.log|, |s'.log|);
  }

  lemma ResultRelays(log: seq<Entry>, voters: Voters, answers: map<nat, Response>, deliveries: seq<Delivery>, i: nat, d: Delivery)
    requires ResultInv(log, voters, answers, deliveries) && i in voters && i in answers && voters[i].pc.Relaying?
    requires d.j == i && d.resp == answers[i] && d.at == |log|
    ensures ResultInv(log, voters[i := voters[i].(pc := Finished)], answers, deliveries + [d])
  {
    ResultSame(log, voters, answers, deliveries, i, Finished);
    hide ResultLogged;
  }

  lemma RelayKept(s: Sys, i: nat)
    requires Inv(s) && Enabled(s, Relay(i))
    ensures Inv(Apply(s, Relay(i)))
  {
    hide ForwardInv, VoterInv, DeliveryInv, RequestInv, ResultInv, TermInv;
    var s' := Apply(s, Relay(i));
    var n, sending := |s.received|, s.pc.Sending?;
    HeldAnswer(s.inner, n, sending, s.voters, s.private, s.answers, i);
    VoterMoves(s.inner, n, sending, s.voters, s.private, s.answers, i, s'.voters[i].pc);
    RequestVoter(s.inner, s.log, s.pc, s.taken, s.receivedAt, s.voters, i, s'.voters[i].pc);
    var d := s'.deliveries[|s.deliveries|];
    DeliveryAdds(s.inner, s.voters, s.answers, s.deliveries, |s.log|, s'.voters, s.answers, d);
    ResultRelays(s.log, s.voters, s.answers, s.deliveries, i, d);
  }

  // ---- everybody else --------------------------------------------------------------------------

  lemma OthersKept(s: Sys, st: Step)
    requires Inv(s) && Enabled(s, st) && (st.Append? || st.Observe? || st.BeatNote? || st.BeatHand?)
    ensures Inv(Apply(s, st))
  {
    hide ForwardInv, VoterInv, DeliveryInv, RequestInv, ResultInv;
    var s' := Apply(s, st);
    if st.Append? {
      RequestLogGrows(s.inner, s.log, [Foreign(st.n)], s.pc, s.taken, s.receivedAt, s.voters);
      ResultLogGrows(s.log, [Foreign(st.n)], s.voters, s.answers, s.deliveries);
      DeliveryLogGrows(s.inner, s.voters, s.answers, s.deliveries, |s.log|, |s'.log|);
    }
  }

  lemma StepKept(s: Sys, st: Step)
    requires Inv(s) && Enabled(s, st)
    ensures Inv(Apply(s, st))
  {
    hide Inv, Enabled, Apply;
    match st {
      case Arrive(rpc) => ArriveKept(s, rpc);
      case CloseInner => CloseInnerKept(s);
      case Take(candidate) => TakeKept(s, candidate);
      case Note => NoteKept(s);
      case Announce => AnnounceKept(s);
      case Emit => EmitKept(s);
      case Spawn => SpawnKept(s);
      case Hand => HandKept(s);
      case CloseWrapped => CloseWrappedKept(s);
      case Answer(j, resp) => AnswerKept(s, j, resp);
      case Collect(i) => CollectKept(s, i);
      case EmitVote(i) => EmitVoteKept(s, i);
      case Relay(i) => RelayKept(s, i);
      case _ => OthersKept(s, st);
    }
  }

  lemma InitInv()
    ensures Inv(Init)
  {
  }

  lemma RunKept(states: seq<Sys>, steps: seq<Step>)
    requires IsRun(states, steps)
    ensures forall i :: 0 <= i < |states| ==> Inv(states[i])
  {
    InitInv();
    hide Inv, Enabled, Apply;
    var n := 0;
    while n < |steps|
      invariant 0 <= n <= |steps|
      invariant forall i :: 0 <= i <= n ==> Inv(states[i])
    {
      StepKept(states[n], steps[n]);
      n := n + 1;
    }
  }
}
