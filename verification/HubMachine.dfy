/**
 The event hub and the SSE handover as a step-level concurrent system.

 Any number of goroutines broadcast, any number of SSE handlers subscribe, copy the histories and
 drain their channel, and any number of unsubscribe calls run; their steps interleave freely between
 the points where the code takes and gives back `h.mu`.
 */
module HubMachine {
  import opened Basics
  import opened Events

  /** The `k`-th Broadcast of goroutine `g`. Bookkeeping: the code keeps no such name. */
  datatype Call = Call(g: nat, k: nat)

  /** How an event came by its ID. */
  datatype Mint = Preset | Minted(millis: int, sequence: nat)

  /** An event on its way through the hub, with the call that carries it. */
  datatype Msg = Msg(call: Call, evt: Event, mint: Mint)

  datatype Owner = Caster(g: nat) | Handler(c: nat) | Closer(u: nat)

  /** `h.mu`: who holds it for writing, who for reading. */
  datatype Mutex = Mutex(writer: Option<Owner>, readers: set<Owner>)

  predicate CanLock(mu: Mutex) { mu.writer.None? && mu.readers == {} }
  predicate CanRLock(mu: Mutex) { mu.writer.None? }
  function Lock(mu: Mutex, o: Owner): Mutex { mu.(writer := Some(o)) }
  function Unlock(mu: Mutex): Mutex { mu.(writer := None) }
  function RLock(mu: Mutex, o: Owner): Mutex { mu.(readers := mu.readers + {o}) }
  function RUnlock(mu: Mutex, o: Owner): Mutex { mu.(readers := mu.readers - {o}) }

  /** One non-blocking send: how many events the channel held, and whether the event went in. */
  datatype Attempt = Attempt(m: Msg, held: nat, ok: bool)

  /** A client channel. `attempts` and `received` record what happened to it. */
  datatype Chan = Chan(buf: seq<Msg>, closed: bool, attempts: seq<Attempt>, received: seq<Msg>)

  /** Program counter inside `broadcastDirect`. */
  datatype CasterPc =
    | Idle
    | Called(evt: Event)
    | Stamped(evt: Event, millis: int)          // clock read, sequence not yet taken
    | Ready(m: Msg)                             // about to take the write lock
    | Appending(m: Msg)                         // write lock held
    | Appended(m: Msg)                          // about to call IsActive
    | Checking(m: Msg)                          // read lock held in IsActive
    | Checked(m: Msg)                           // clients seen, about to take the second read lock
    | Delivering(m: Msg, pending: set<nat>)     // read lock held, channels still to visit

  datatype CasterState = CasterState(k: nat, pc: CasterPc)

  /** Program counter inside `Subscribe` and `handleSSEEvents`. */
  datatype HandlerPc = Joining | Joined | Copying | Copied | CopyingBatches | Live | Gone

  /** The `...At` fields are lengths of the append log, `joinedTime` a reading of `time`. */
  datatype HandlerState = HandlerState(
    pc: HandlerPc, joinedTime: nat, joinedAt: nat, copiedAt: nat, batchesAt: nat,
    replay: seq<Msg>, replayBatches: seq<Msg>)

  datatype CloserPc = Wanting(c: nat) | Closing(c: nat) | Finished

  /** The clients a call turned out to be for, settled when it saw none or took the second read lock. */
  datatype Decision = Decision(clients: set<nat>, time: nat, logged: nat)

  type Chans = map<nat, Chan>
  type Casters = map<nat, CasterState>
  type Handlers = map<nat, HandlerState>
  type Closers = map<nat, CloserPc>
  type Decisions = map<Call, Decision>

  datatype Sys = Sys(
    // the hub's own fields
    clients: set<nat>, chans: Chans, history: seq<Msg>, batches: seq<Msg>, sequence: nat,
    mu: Mutex,
    // the goroutines
    casters: Casters, handlers: Handlers, closers: Closers,
    // set when a closed channel is sent on or closed: a Go panic
    panicked: bool,
    // bookkeeping: every append, every minted ID, every settled call, the activate (true) and
    // deactivate (false) decisions; `time` counts settled calls and joins
    log: seq<Msg>, minted: seq<Call>, decisions: Decisions, edges: seq<bool>, time: nat)

  const Init := Sys({}, map[], [], [], 0, Mutex(None, {}), map[], map[], map[], false, [], [], map[], [], 0)

  datatype Step =
    | Begin(g: nat, evt: Event)
    | Stamp(g: nat, millis: int)
    | KeepID(g: nat)
    | MintID(g: nat)
    | LockForAppend(g: nat)
    | Append(g: nat)
    | LockForCheck(g: nat)
    | Skip(g: nat)
    | SeeClients(g: nat)
    | LockForDelivery(g: nat)
    | Send(g: nat, c: nat)
    | EndDelivery(g: nat)
    | Join(c: nat)
    | Register(c: nat)
    | LockForCopy(c: nat)
    | Copy(c: nat)
    | LockForBatches(c: nat)
    | CopyBatches(c: nat)
    | Receive(c: nat)
    | Leave(c: nat)
    | CallClose(u: nat, c: nat)
    | LockForClose(u: nat)
    | CloseAgain(u: nat)
    | Close(u: nat)

  function CasterOf(s: Sys, g: nat): CasterState
  {
    if g in s.casters then s.casters[g] else CasterState(0, Idle)
  }

  /** The `select` with a `default` branch, on an open channel. */
  function TrySend(ch: Chan, m: Msg): Chan
  {
    ch.(buf := Offered(ch.buf, m), attempts := ch.attempts + [Attempt(m, |ch.buf|, |ch.buf| < CLIENT_BUFFER)])
  }

  function SetCaster(s: Sys, g: nat, pc: CasterPc): Sys
  {
    s.(casters := s.casters[g := CasterState(CasterOf(s, g).k, pc)])
  }

  /** The call returns; the goroutine may broadcast again. */
  function Return(s: Sys, g: nat): Sys
  {
    s.(casters := s.casters[g := CasterState(CasterOf(s, g).k + 1, Idle)])
  }

  function SetHandler(s: Sys, c: nat, h: HandlerState): Sys
  {
    s.(handlers := s.handlers[c := h])
  }

  function SetCloser(s: Sys, u: nat, pc: CloserPc): Sys
  {
    s.(closers := s.closers[u := pc])
  }

  function Record(s: Sys, m: Msg): Sys
  {
    s.(log := s.log + [m],
       history := Cached(s.history, m, m.evt.typ, History, MAX_HISTORY),
       batches := Cached(s.batches, m, m.evt.typ, Batches, MAX_HB_HISTORY))
  }

  function CallOf(s: Sys, g: nat): Call
  {
    Call(g, CasterOf(s, g).k)
  }

  function Decide(s: Sys, g: nat): Sys
  {
    s.(decisions := s.decisions[CallOf(s, g) := Decision(s.clients, s.time, |s.log|)], time := s.time + 1)
  }

  // ---- the steps of a broadcasting goroutine ---------------------------------------------------

  function DoBegin(s: Sys, g: nat, evt: Event): Sys
  {
    SetCaster(s, g, Called(evt))
  }

  function DoStamp(s: Sys, g: nat, millis: int): Sys
    requires CasterOf(s, g).pc.Called?
  {
    SetCaster(s, g, Stamped(CasterOf(s, g).pc.evt, millis))
  }

  function DoKeepID(s: Sys, g: nat): Sys
    requires CasterOf(s, g).pc.Called?
  {
    SetCaster(s, g, Ready(Msg(CallOf(s, g), CasterOf(s, g).pc.evt, Preset)))
  }

  function DoMintID(s: Sys, g: nat): Sys
    requires CasterOf(s, g).pc.Stamped?
  {
    var pc, n := CasterOf(s, g).pc, s.sequence + 1;
    var m := Msg(CallOf(s, g), pc.evt.(id := EventID(pc.millis, n)), Minted(pc.millis, n));
    SetCaster(s.(sequence := n, minted := s.minted + [CallOf(s, g)]), g, Ready(m))
  }

  function DoLockForAppend(s: Sys, g: nat): Sys
    requires CasterOf(s, g).pc.Ready?
  {
    SetCaster(s.(mu := Lock(s.mu, Caster(g))), g, Appending(CasterOf(s, g).pc.m))
  }

  function DoAppend(s: Sys, g: nat): Sys
    requires CasterOf(s, g).pc.Appending?
  {
    var m := CasterOf(s, g).pc.m;
    SetCaster(Record(s, m).(mu := Unlock(s.mu)), g, Appended(m))
  }

  function DoLockForCheck(s: Sys, g: nat): Sys
    requires CasterOf(s, g).pc.Appended?
  {
    SetCaster(s.(mu := RLock(s.mu, Caster(g))), g, Checking(CasterOf(s, g).pc.m))
  }

  /** `IsActive` answers false: the broadcast ends here. */
  function DoSkip(s: Sys, g: nat): Sys
  {
    Return(Decide(s.(mu := RUnlock(s.mu, Caster(g))), g), g)
  }

  /** `IsActive` answers true. */
  function DoSeeClients(s: Sys, g: nat): Sys
    requires CasterOf(s, g).pc.Checking?
  {
    SetCaster(s.(mu := RUnlock(s.mu, Caster(g))), g, Checked(CasterOf(s, g).pc.m))
  }

  function DoLockForDelivery(s: Sys, g: nat): Sys
    requires CasterOf(s, g).pc.Checked?
  {
    SetCaster(Decide(s.(mu := RLock(s.mu, Caster(g))), g), g,
              Delivering(CasterOf(s, g).pc.m, s.clients))
  }

  /** One turn of the delivery loop, for whichever channel the map iteration yields next. */
  function DoSend(s: Sys, g: nat, c: nat): Sys
    requires CasterOf(s, g).pc.Delivering? && c in s.chans
  {
    var pc := CasterOf(s, g).pc;
    var s' := if s.chans[c].closed then s.(panicked := true)
              else s.(chans := s.chans[c := TrySend(s.chans[c], pc.m)]);
    SetCaster(s', g, pc.(pending := pc.pending - {c}))
  }

  function DoEndDelivery(s: Sys, g: nat): Sys
  {
    Return(s.(mu := RUnlock(s.mu, Caster(g))), g)
  }

  // ---- the steps of an SSE handler -------------------------------------------------------------

  function DoJoin(s: Sys, c: nat): Sys
  {
    SetHandler(s.(mu := Lock(s.mu, Handler(c))), c, HandlerState(Joining, 0, 0, 0, 0, [], []))
  }

  function DoRegister(s: Sys, c: nat): Sys
    requires c in s.handlers
  {
    var clients := s.clients + {c};
    var edges := if |clients| == 1 then s.edges + [true] else s.edges;
    var h := s.handlers[c].(pc := Joined, joinedTime := s.time, joinedAt := |s.log|);
    SetHandler(s.(clients := clients, chans := s.chans[c := Chan([], false, [], [])],
                  edges := edges, mu := Unlock(s.mu), time := s.time + 1), c, h)
  }

  function DoLockForCopy(s: Sys, c: nat, pc: HandlerPc): Sys
    requires c in s.handlers
  {
    SetHandler(s.(mu := RLock(s.mu, Handler(c))), c, s.handlers[c].(pc := pc))
  }

  function DoCopy(s: Sys, c: nat): Sys
    requires c in s.handlers
  {
    SetHandler(s.(mu := RUnlock(s.mu, Handler(c))), c,
               s.handlers[c].(pc := Copied, copiedAt := |s.log|, replay := s.history))
  }

  function DoCopyBatches(s: Sys, c: nat): Sys
    requires c in s.handlers
  {
    SetHandler(s.(mu := RUnlock(s.mu, Handler(c))), c,
               s.handlers[c].(pc := Live, batchesAt := |s.log|, replayBatches := s.batches))
  }

  function DoReceive(s: Sys, c: nat): Sys
    requires c in s.chans && s.chans[c].buf != []
  {
    var ch := s.chans[c];
    s.(chans := s.chans[c := ch.(buf := ch.buf[1..], received := ch.received + [ch.buf[0]])])
  }

  function DoLeave(s: Sys, c: nat): Sys
    requires c in s.handlers
  {
    SetHandler(s, c, s.handlers[c].(pc := Gone))
  }

  // ---- the steps of an unsubscribe call --------------------------------------------------------

  function DoCallClose(s: Sys, u: nat, c: nat): Sys
  {
    SetCloser(s, u, Wanting(c))
  }

  function DoLockForClose(s: Sys, u: nat): Sys
    requires u in s.closers && s.closers[u].Wanting?
  {
    SetCloser(s.(mu := Lock(s.mu, Closer(u))), u, Closing(s.closers[u].c))
  }

  /** The channel is no longer registered: a repeated unsubscribe. */
  function DoCloseAgain(s: Sys, u: nat): Sys
  {
    SetCloser(s.(mu := Unlock(s.mu)), u, Finished)
  }

  function DoClose(s: Sys, u: nat): Sys
    requires u in s.closers && s.closers[u].Closing? && s.closers[u].c in s.chans
  {
    var c := s.closers[u].c;
    var clients := s.clients - {c};
    var edges := if |clients| == 0 then s.edges + [false] else s.edges;
    SetCloser(s.(clients := clients, chans := s.chans[c := s.chans[c].(closed := true)],
                 panicked := s.panicked || s.chans[c].closed, edges := edges, mu := Unlock(s.mu)),
              u, Finished)
  }

  // ---- the step relation -----------------------------------------------------------------------

  predicate Enabled(s: Sys, st: Step)
  {
    match st
    case Begin(g, evt) => CasterOf(s, g).pc.Idle?
    case Stamp(g, _) => CasterOf(s, g).pc.Called? && CasterOf(s, g).pc.evt.id == ""
    case KeepID(g) => CasterOf(s, g).pc.Called? && CasterOf(s, g).pc.evt.id != ""
    case MintID(g) => CasterOf(s, g).pc.Stamped?
    case LockForAppend(g) => CasterOf(s, g).pc.Ready? && CanLock(s.mu)
    case Append(g) => CasterOf(s, g).pc.Appending?
    case LockForCheck(g) => CasterOf(s, g).pc.Appended? && CanRLock(s.mu)
    case Skip(g) => CasterOf(s, g).pc.Checking? && s.clients == {}
    case SeeClients(g) => CasterOf(s, g).pc.Checking? && s.clients != {}
    case LockForDelivery(g) => CasterOf(s, g).pc.Checked? && CanRLock(s.mu)
    case Send(g, c) =>
      CasterOf(s, g).pc.Delivering? && c in CasterOf(s, g).pc.pending && c in s.chans
    case EndDelivery(g) => CasterOf(s, g).pc.Delivering? && CasterOf(s, g).pc.pending == {}
    case Join(c) => c !in s.handlers && CanLock(s.mu)
    case Register(c) => c in s.handlers && s.handlers[c].pc.Joining?
    case LockForCopy(c) => c in s.handlers && s.handlers[c].pc.Joined? && CanRLock(s.mu)
    case Copy(c) => c in s.handlers && s.handlers[c].pc.Copying?
    case LockForBatches(c) => c in s.handlers && s.handlers[c].pc.Copied? && CanRLock(s.mu)
    case CopyBatches(c) => c in s.handlers && s.handlers[c].pc.CopyingBatches?
    case Receive(c) =>
      c in s.handlers && s.handlers[c].pc.Live? && c in s.chans && s.chans[c].buf != []
    case Leave(c) => c in s.handlers && s.handlers[c].pc.Live?
    // the closure exists once Subscribe has registered the channel; it may be called any number of times
    case CallClose(u, c) => u !in s.closers && c in s.handlers && !s.handlers[c].pc.Joining?
    case LockForClose(u) => u in s.closers && s.closers[u].Wanting? && CanLock(s.mu)
    case CloseAgain(u) => u in s.closers && s.closers[u].Closing? && s.closers[u].c !in s.clients
    case Close(u) =>
      u in s.closers && s.closers[u].Closing? && s.closers[u].c in s.clients && s.closers[u].c in s.chans
  }

  function Apply(s: Sys, st: Step): Sys
    requires Enabled(s, st)
  {
    match st
    case Begin(g, evt) => DoBegin(s, g, evt)
    case Stamp(g, millis) => DoStamp(s, g, millis)
    case KeepID(g) => DoKeepID(s, g)
    case MintID(g) => DoMintID(s, g)
    case LockForAppend(g) => DoLockForAppend(s, g)
    case Append(g) => DoAppend(s, g)
    case LockForCheck(g) => DoLockForCheck(s, g)
    case Skip(g) => DoSkip(s, g)
    case SeeClients(g) => DoSeeClients(s, g)
    case LockForDelivery(g) => DoLockForDelivery(s, g)
    case Send(g, c) => DoSend(s, g, c)
    case EndDelivery(g) => DoEndDelivery(s, g)
    case Join(c) => DoJoin(s, c)
    case Register(c) => DoRegister(s, c)
    case LockForCopy(c) => DoLockForCopy(s, c, Copying)
    case Copy(c) => DoCopy(s, c)
    case LockForBatches(c) => DoLockForCopy(s, c, CopyingBatches)
    case CopyBatches(c) => DoCopyBatches(s, c)
    case Receive(c) => DoReceive(s, c)
    case Leave(c) => DoLeave(s, c)
    case CallClose(u, c) => DoCallClose(s, u, c)
    case LockForClose(u) => DoLockForClose(s, u)
    case CloseAgain(u) => DoCloseAgain(s, u)
    case Close(u) => DoClose(s, u)
  }

  /** A run: states connected by enabled steps, from the hub as NewHub leaves it. */
  ghost predicate IsRun(states: seq<Sys>, steps: seq<Step>)
  {
    && |states| == |steps| + 1
    && states[0] == Init
    && forall i :: 0 <= i < |steps| ==> Enabled(states[i], steps[i]) && states[i + 1] == Apply(states[i], steps[i])
  }
}
