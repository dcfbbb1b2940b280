/**
 The transport relay: one goroutine forwards incoming RPCs to raft and announces them on the way; each
 vote RPC gets a private response channel and a goroutine that announces the answer and passes it on.
 Raft is an environment that answers each RPC it has received at most once.
 */
module RelayMachine {
  import opened Basics

  /** `body` stands for the rest of the request. */
  datatype Command =
    | RequestVote(term: nat, body: nat)
    | RequestPreVote(term: nat, body: nat)
    | TimeoutNow(body: nat)
    | InstallSnapshot(term: nat, body: nat)
    | AppendEntries(term: nat, entries: nat, body: nat)
    | OtherCommand(body: nat)

  /** The dynamic type of a response matters: only a `RequestVoteResponse` is announced. */
  datatype Body = VoteResponse(term: nat, granted: bool) | PreVoteResponse(term: nat, granted: bool) | OtherResponse(rest: nat)
  datatype Response = Response(failed: bool, body: Body)

  datatype RespChan = Original(n: nat) | Private(i: nat)
  datatype Rpc = Rpc(command: Command, reader: nat, resp: RespChan)

  /** Appends to the hub's log; `j` numbers the incoming RPC concerned. Others' events are `Foreign`. */
  datatype Entry =
    | TermChanged(term: nat)
    | VoteRequested(j: nat, term: nat, candidate: string, preVote: bool)
    | VoteResult(j: nat, candidate: string, term: nat, granted: bool, preVote: bool)
    | TransferReceived(j: nat)
    | SnapshotReceived(j: nat, term: nat)
    | EntriesReceived(j: nat, term: nat)
    | Foreign(n: nat)

  /** Program counter of `forwardConsumer`. */
  datatype ForwarderPc =
    | Waiting
    | Noting(rpc: Rpc, candidate: string)
    | Announcing(rpc: Rpc, candidate: string)
    | Emitting(rpc: Rpc, candidate: string)
    | Spawning(rpc: Rpc, candidate: string)
    | Sending(rpc: Rpc)
    | Done

  datatype VoterPc = Awaiting | Got(resp: Response) | Relaying(resp: Response) | Finished

  /** One vote goroutine: the original channel and the arguments it captured. */
  datatype Voter = Voter(orig: nat, candidate: string, preVote: bool, pc: VoterPc)

  /** A response written to an RPC's original channel when the hub log was `at` long. */
  datatype Delivery = Delivery(j: nat, chan: nat, resp: Response, at: nat)

  type Voters = map<nat, Voter>

  datatype Sys = Sys(
    inner: seq<Rpc>, innerClosed: bool, taken: nat, pc: ForwarderPc, wrappedClosed: bool,
    // raft: what it received, how long the hub log was then, how it answered
    received: seq<Rpc>, receivedAt: seq<nat>, answers: map<nat, Response>,
    // the private channels (capacity one) and their goroutines
    private: map<nat, Response>, voters: Voters,
    deliveries: seq<Delivery>,
    log: seq<Entry>,
    lastTerm: nat,
    // the heartbeat fast path: terms noted but not yet passed on, and terms passed on
    beating: map<nat, nat>, beats: seq<nat>)

  const Init := Sys([], false, 0, Waiting, false, [], [], map[], map[], map[], [], [], 0, map[], [])

  datatype Step =
    | Arrive(rpc: Rpc)
    | CloseInner
    | Take(candidate: string)
    | Note
    | Announce
    | Emit
    | Spawn
    | Hand
    | CloseWrapped
    | Answer(j: nat, resp: Response)
    | Collect(i: nat)
    | EmitVote(i: nat)
    | Relay(i: nat)
    | Append(n: nat)
    | Observe(term: nat)
    | BeatNote(b: nat, term: nat)
    | BeatHand(b: nat)

  predicate IsVote(c: Command) { c.RequestVote? || c.RequestPreVote? }

  /** The term `noteTerm` is called with; zero, which it ignores, if it is not called. */
  function TermOf(c: Command): nat
  {
    if c.TimeoutNow? || c.OtherCommand? then 0 else c.term
  }

  function Announced(j: nat, c: Command, candidate: string): seq<Entry>
  {
    match c
    case RequestVote(term, _) => [VoteRequested(j, term, candidate, false)]
    case RequestPreVote(term, _) => [VoteRequested(j, term, candidate, true)]
    case TimeoutNow(_) => [TransferReceived(j)]
    case InstallSnapshot(term, _) => [SnapshotReceived(j, term)]
    case AppendEntries(term, entries, _) => if entries > 0 then [EntriesReceived(j, term)] else []
    case OtherCommand(_) => []
  }

  /** `resp.Error == nil` and the type assertion to `*raft.RequestVoteResponse` succeeds. */
  predicate AnnouncesVote(resp: Response) { !resp.failed && resp.body.VoteResponse? }

  function VoteEntry(j: nat, v: Voter, resp: Response): Entry
    requires AnnouncesVote(resp)
  {
    VoteResult(j, v.candidate, resp.body.term, resp.body.granted, v.preVote)
  }

  function Higher(a: nat, b: nat): nat { if a < b then b else a }

  predicate Enabled(s: Sys, st: Step)
  {
    match st
    case Arrive(rpc) => !s.innerClosed && rpc.resp.Original?
    case CloseInner => true
    case Take(_) => s.pc.Waiting? && s.taken < |s.inner|
    case Note => s.pc.Noting?
    case Announce => s.pc.Announcing?
    case Emit => s.pc.Emitting? && s.taken > 0
    case Spawn => s.pc.Spawning? && s.taken > 0 && s.pc.rpc.resp.Original?
    case Hand => s.pc.Sending?
    case CloseWrapped => s.pc.Waiting? && s.taken == |s.inner| && s.innerClosed
    case Answer(j, resp) => j < |s.received| && j !in s.answers
    case Collect(i) => i in s.voters && s.voters[i].pc.Awaiting? && i in s.private
    case EmitVote(i) => i in s.voters && s.voters[i].pc.Got?
    case Relay(i) => i in s.voters && s.voters[i].pc.Relaying?
    case Append(_) => true
    case Observe(_) => true
    case BeatNote(b, _) => b !in s.beating
    case BeatHand(b) => b in s.beating
  }

  function SetVoter(s: Sys, i: nat, pc: VoterPc): Sys
    requires i in s.voters
  {
    s.(voters := s.voters[i := s.voters[i].(pc := pc)])
  }

  function DoTake(s: Sys, candidate: string): Sys
    requires s.taken < |s.inner|
  {
    s.(pc := Noting(s.inner[s.taken], candidate), taken := s.taken + 1)
  }

  /** The locked part of `noteTerm`: the claim comes before the announcement. */
  function DoNote(s: Sys): Sys
    requires s.pc.Noting?
  {
    var term := TermOf(s.pc.rpc.command);
    s.(lastTerm := Higher(s.lastTerm, term),
       pc := if term > s.lastTerm then Announcing(s.pc.rpc, s.pc.candidate) else Emitting(s.pc.rpc, s.pc.candidate))
  }

  function DoAnnounce(s: Sys): Sys
    requires s.pc.Announcing?
  {
    s.(log := s.log + [TermChanged(TermOf(s.pc.rpc.command))], pc := Emitting(s.pc.rpc, s.pc.candidate))
  }

  function DoEmit(s: Sys): Sys
    requires s.pc.Emitting? && s.taken > 0
  {
    s.(log := s.log + Announced(s.taken - 1, s.pc.rpc.command, s.pc.candidate),
       pc := if IsVote(s.pc.rpc.command) then Spawning(s.pc.rpc, s.pc.candidate) else Sending(s.pc.rpc))
  }

  /** `forwardWithVoteCapture`: private channel, goroutine, then the rewritten RPC is sent. */
  function DoSpawn(s: Sys): Sys
    requires s.pc.Spawning? && s.taken > 0 && s.pc.rpc.resp.Original?
  {
    var i := s.taken - 1;
    s.(voters := s.voters[i := Voter(s.pc.rpc.resp.n, s.pc.candidate, s.pc.rpc.command.RequestPreVote?, Awaiting)],
       pc := Sending(s.pc.rpc.(resp := Private(i))))
  }

  /** The unbuffered channel hands over when raft receives. */
  function DoHand(s: Sys): Sys
    requires s.pc.Sending?
  {
    s.(received := s.received + [s.pc.rpc], receivedAt := s.receivedAt + [|s.log|], pc := Waiting)
  }

  /** Raft writes to whatever response channel the RPC it received carries. */
  function DoAnswer(s: Sys, j: nat, resp: Response): Sys
    requires j < |s.received|
  {
    var s := s.(answers := s.answers[j := resp]);
    match s.received[j].resp
    case Original(n) => s.(deliveries := s.deliveries + [Delivery(j, n, resp, |s.log|)])
    case Private(i) => s.(private := s.private[i := resp])
  }

  function DoEmitVote(s: Sys, i: nat): Sys
    requires i in s.voters && s.voters[i].pc.Got?
  {
    var resp := s.voters[i].pc.resp;
    SetVoter(s.(log := s.log + if AnnouncesVote(resp) then [VoteEntry(i, s.voters[i], resp)] else []), i, Relaying(resp))
  }

  function DoRelay(s: Sys, i: nat): Sys
    requires i in s.voters && s.voters[i].pc.Relaying?
  {
    var v := s.voters[i];
    SetVoter(s.(deliveries := s.deliveries + [Delivery(i, v.orig, v.pc.resp, |s.log|)]), i, Finished)
  }

  function Apply(s: Sys, st: Step): Sys
    requires Enabled(s, st)
  {
    match st
    case Arrive(rpc) => s.(inner := s.inner + [rpc])
    case CloseInner => s.(innerClosed := true)
    case Take(candidate) => DoTake(s, candidate)
    case Note => DoNote(s)
    case Announce => DoAnnounce(s)
    case Emit => DoEmit(s)
    case Spawn => DoSpawn(s)
    case Hand => DoHand(s)
    case CloseWrapped => s.(wrappedClosed := true, pc := Done)
    case Answer(j, resp) => DoAnswer(s, j, resp)
    case Collect(i) => SetVoter(s, i, Got(s.private[i]))
    case EmitVote(i) => DoEmitVote(s, i)
    case Relay(i) => DoRelay(s, i)
    case Append(n) => s.(log := s.log + [Foreign(n)])
    case Observe(term) => s.(lastTerm := Higher(s.lastTerm, term))
    case BeatNote(b, term) => s.(lastTerm := Higher(s.lastTerm, term), beating := s.beating[b := term])
    case BeatHand(b) => s.(beats := s.beats + [s.beating[b]], beating := s.beating - {b})
  }

  ghost predicate IsRun(states: seq<Sys>, steps: seq<Step>)
  {
    && |states| == |steps| + 1
    && states[0] == Init
    && forall i :: 0 <= i < |steps| ==> Enabled(states[i], steps[i]) && states[i + 1] == Apply(states[i], steps[i])
  }
}
