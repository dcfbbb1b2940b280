/**
 What every step of the hub keeps. The invariant is split by the components it speaks of, so that a
 step only owes a proof for the parts whose components it changes.
 */
module HubInvariant {
  import opened Basics
  import opened Events
  import opened HubMachine

  // ---- vocabulary ------------------------------------------------------------------------------

  predicate HasMsg(pc: CasterPc)
  {
    pc.Ready? || pc.Appending? || pc.Appended? || pc.Checking? || pc.Checked? || pc.Delivering?
  }

  predicate AfterAppend(pc: CasterPc)
  {
    pc.Appended? || pc.Checking? || pc.Checked? || pc.Delivering?
  }

  /** Calls of one goroutine stand in the order it made them; so no call stands there twice. */
  ghost predicate Ordered(log: seq<Msg>)
  {
    forall i, j :: 0 <= i < j < |log| && log[i].call.g == log[j].call.g ==> log[i].call.k < log[j].call.k
  }

  ghost predicate OrderedAttempts(attempts: seq<Attempt>)
  {
    forall i, j :: 0 <= i < j < |attempts| && attempts[i].m.call.g == attempts[j].m.call.g ==>
      attempts[i].m.call.k < attempts[j].m.call.k
  }

  /** The events of the successful sends, in order. */
  function Kept(attempts: seq<Attempt>): seq<Msg>
  {
    if attempts == [] then []
    else
      var last := attempts[|attempts| - 1];
      Kept(attempts[..|attempts| - 1]) + (if last.ok then [last.m] else [])
  }

  /** The appends that went to one cache, in lock order. */
  function Select(log: seq<Msg>, cache: Cache): seq<Msg>
  {
    if log == [] then []
    else
      var last := log[|log| - 1];
      Select(log[..|log| - 1], cache) + (if CacheOf(last.evt.typ) == cache then [last] else [])
  }

  /** The call's broadcast has returned. */
  predicate HasReturned(casters: Casters, call: Call)
  {
    call.g in casters && call.k < casters[call.g].k
  }

  /** The call has settled which clients it is for. */
  predicate Decided(casters: Casters, call: Call)
  {
    call.g in casters &&
    (call.k < casters[call.g].k || (call.k == casters[call.g].k && casters[call.g].pc.Delivering?))
  }

  predicate InLog(casters: Casters, call: Call)
  {
    call.g in casters &&
    (call.k < casters[call.g].k || (call.k == casters[call.g].k && AfterAppend(casters[call.g].pc)))
  }

  /** The delivery loop of the call has still to visit client `c`. */
  predicate Pending(casters: Casters, call: Call, c: nat)
  {
    call.g in casters && call.k == casters[call.g].k && casters[call.g].pc.Delivering? &&
    c in casters[call.g].pc.pending
  }

  ghost predicate HasAttempt(attempts: seq<Attempt>, call: Call)
  {
    exists i :: 0 <= i < |attempts| && attempts[i].m.call == call
  }

  /** The call's event is among the first `before` appends. */
  ghost predicate Logged(log: seq<Msg>, call: Call, before: nat)
  {
    exists i :: 0 <= i < before && i < |log| && log[i].call == call
  }

  predicate HasCopy(pc: HandlerPc) { pc.Copied? || pc.CopyingBatches? || pc.Live? || pc.Gone? }
  predicate HasBatches(pc: HandlerPc) { pc.Live? || pc.Gone? }

  predicate Writes(casters: Casters, handlers: Handlers, closers: Closers, o: Owner)
  {
    match o
    case Caster(g) => g in casters && casters[g].pc.Appending?
    case Handler(c) => c in handlers && handlers[c].pc.Joining?
    case Closer(u) => u in closers && closers[u].Closing?
  }

  predicate Reads(casters: Casters, handlers: Handlers, o: Owner)
  {
    match o
    case Caster(g) => g in casters && (casters[g].pc.Checking? || casters[g].pc.Delivering?)
    case Handler(c) => c in handlers && (handlers[c].pc.Copying? || handlers[c].pc.CopyingBatches?)
    case Closer(_) => false
  }

  // ---- the invariant, part by part -------------------------------------------------------------

  /** Whoever is inside a critical section holds the lock it needs. */
  ghost predicate LockInv(mu: Mutex, casters: Casters, handlers: Handlers, closers: Closers)
  {
    && (mu.writer.Some? ==> mu.readers == {})
    && (forall o :: Writes(casters, handlers, closers, o) ==> mu.writer == Some(o))
    && (forall o :: Reads(casters, handlers, o) ==> o in mu.readers)
  }

  /** Registered channels are open, all others closed; nothing has panicked. */
  ghost predicate ChanInv(panicked: bool, clients: set<nat>, chans: Chans, handlers: Handlers, closers: Closers)
  {
    && !panicked
    && clients <= chans.Keys
    && (forall c :: c in chans ==>
          c in handlers && !handlers[c].pc.Joining? && (c in clients <==> !chans[c].closed))
    && (forall c :: c in handlers && !handlers[c].pc.Joining? ==> c in chans)
    && (forall u :: u in closers && !closers[u].Finished? ==> closers[u].c in chans)
  }

  /** One channel: bounded, lossless but for the recorded drops, and in sender order. */
  ghost predicate ChanOk(ch: Chan)
  {
    && |ch.buf| <= CLIENT_BUFFER
    && ch.received + ch.buf == Kept(ch.attempts)
    && (forall i :: 0 <= i < |ch.attempts| ==>
          ch.attempts[i].held <= CLIENT_BUFFER &&
          (ch.attempts[i].ok <==> ch.attempts[i].held < CLIENT_BUFFER))
    && OrderedAttempts(ch.attempts)
  }

  ghost predicate ChansOk(chans: Chans)
  {
    forall c :: c in chans ==> ChanOk(chans[c])
  }

  /** While a call is delivering, its clients are the hub's clients: nobody can leave or join. */
  ghost predicate CasterInv(casters: Casters, clients: set<nat>, decisions: Decisions)
  {
    && (forall g :: g in casters && HasMsg(casters[g].pc) ==> casters[g].pc.m.call == Call(g, casters[g].k))
    && (forall g :: g in casters && casters[g].pc.Delivering? ==>
          && casters[g].pc.pending <= clients
          && Call(g, casters[g].k) in decisions
          && decisions[Call(g, casters[g].k)].clients == clients)
    && (forall call :: call in decisions <==> Decided(casters, call))
  }

  /** A channel has seen exactly the calls that were for its client and have visited it. */
  ghost predicate AttemptInv(casters: Casters, chans: Chans, decisions: Decisions)
  {
    && (forall call :: call in decisions ==> decisions[call].clients <= chans.Keys)
    && (forall c, call :: c in chans ==>
          (HasAttempt(chans[c].attempts, call) <==>
            call in decisions && c in decisions[call].clients && !Pending(casters, call, c)))
  }

  /** The append log holds exactly the calls past their append. */
  ghost predicate LogInv(log: seq<Msg>, casters: Casters)
  {
    && Ordered(log)
    && (forall call :: Logged(log, call, |log|) <==> InLog(casters, call))
  }

  ghost predicate CacheInv(log: seq<Msg>, history: seq<Msg>, batches: seq<Msg>)
  {
    && history == LastN(Select(log, History), MAX_HISTORY)
    && batches == LastN(Select(log, Batches), MAX_HB_HISTORY)
  }

  /** A call settles its clients after its append. */
  ghost predicate DecisionInv(decisions: Decisions, log: seq<Msg>, time: nat)
  {
    forall call :: call in decisions ==>
      && decisions[call].time < time
      && decisions[call].logged <= |log|
      && Logged(log, call, decisions[call].logged)
  }

  /** A decision that leaves out a current client was taken before that client joined. */
  ghost predicate HandoverInv(decisions: Decisions, clients: set<nat>, handlers: Handlers)
  {
    forall call, c :: call in decisions && c in clients && c !in decisions[call].clients && c in handlers ==>
      && decisions[call].time < handlers[c].joinedTime
      && decisions[call].logged <= handlers[c].joinedAt
  }

  ghost predicate HandlerOk(h: HandlerState, log: seq<Msg>)
  {
    && h.joinedAt <= |log|
    && (HasCopy(h.pc) ==>
          && h.joinedAt <= h.copiedAt <= |log|
          && h.replay == LastN(Select(log[..h.copiedAt], History), MAX_HISTORY))
    && (HasBatches(h.pc) ==>
          && h.copiedAt <= h.batchesAt <= |log|
          && h.replayBatches == LastN(Select(log[..h.batchesAt], Batches), MAX_HB_HISTORY))
  }

  ghost predicate HandlerInv(handlers: Handlers, log: seq<Msg>)
  {
    forall c :: c in handlers ==> HandlerOk(handlers[c], log)
  }

  /** Activations and deactivations strictly alternate, and one is outstanding iff somebody listens. */
  ghost predicate EdgeInv(edges: seq<bool>, clients: set<nat>)
  {
    && (forall i :: 0 <= i < |edges| ==> edges[i] == (i % 2 == 0))
    && (|edges| % 2 == 1 <==> clients != {})
  }

  /** A minted ID spells a sequence number that only this call ever drew. */
  ghost predicate MintOk(minted: seq<Call>, m: Msg)
  {
    m.mint.Minted? ==>
      && 1 <= m.mint.sequence <= |minted|
      && minted[m.mint.sequence - 1] == m.call
      && m.evt.id == EventID(m.mint.millis, m.mint.sequence)
  }

  ghost predicate MintInv(sequence: nat, minted: seq<Call>, casters: Casters, log: seq<Msg>)
  {
    && sequence == |minted|
    && (forall g :: g in casters && HasMsg(casters[g].pc) ==> MintOk(minted, casters[g].pc.m))
    && (forall i :: 0 <= i < |log| ==> MintOk(minted, log[i]))
  }

  ghost predicate Inv(s: Sys)
  {
    && LockInv(s.mu, s.casters, s.handlers, s.closers)
    && ChanInv(s.panicked, s.clients, s.chans, s.handlers, s.closers)
    && ChansOk(s.chans)
    && CasterInv(s.casters, s.clients, s.decisions)
    && AttemptInv(s.casters, s.chans, s.decisions)
    && LogInv(s.log, s.casters)
    && CacheInv(s.log, s.history, s.batches)
    && DecisionInv(s.decisions, s.log, s.time)
    && HandoverInv(s.decisions, s.clients, s.handlers)
    && HandlerInv(s.handlers, s.log)
    && EdgeInv(s.edges, s.clients)
    && MintInv(s.sequence, s.minted, s.casters, s.log)
  }

  // ---- one lemma a part and kind of change -----------------------------------------------------

  /** The lock operation matches the critical sections that the step enters and leaves. */
  predicate LockMove(mu: Mutex, mu': Mutex, o: Owner, w: bool, r: bool, w': bool, r': bool)
  {
    || (mu' == mu && (w' ==> w) && (r' ==> r))
    || (CanLock(mu) && mu' == Lock(mu, o) && !r')
    || (w && mu' == Unlock(mu) && !w' && !r')
    || (CanRLock(mu) && mu' == RLock(mu, o) && !w')
    || (r && mu' == RUnlock(mu, o) && !w' && !r')
  }

  lemma LockKept(mu: Mutex, casters: Casters, handlers: Handlers, closers: Closers,
                 mu': Mutex, casters': Casters, handlers': Handlers, closers': Closers,
                 me: Owner)
    requires LockInv(mu, casters, handlers, closers)
    requires forall o :: o != me ==>
               && (Writes(casters', handlers', closers', o) ==> Writes(casters, handlers, closers, o))
               && (Reads(casters', handlers', o) ==> Reads(casters, handlers, o))
    requires LockMove(mu, mu', me, Writes(casters, handlers, closers, me), Reads(casters, handlers, me),
                      Writes(casters', handlers', closers', me), Reads(casters', handlers', me))
    ensures LockInv(mu', casters', handlers', closers')
  {
    hide Writes, Reads;
    assert Writes(casters', handlers', closers', me) || !Writes(casters', handlers', closers', me);
    assert Writes(casters, handlers, closers, me) ==> mu.writer == Some(me);
    assert Reads(casters, handlers, me) ==> me in mu.readers;
    forall o | Writes(casters', handlers', closers', o)
      ensures mu'.writer == Some(o)
    {
      assert o != me ==> Writes(casters, handlers, closers, o);
    }
    forall o | Reads(casters', handlers', o)
      ensures o in mu'.readers
    {
      assert o != me ==> Reads(casters, handlers, o);
    }
  }

  lemma NobodyDelivers(mu: Mutex, casters: Casters, handlers: Handlers, closers: Closers, me: Owner)
    requires LockInv(mu, casters, handlers, closers) && Writes(casters, handlers, closers, me)
    ensures forall g :: g in casters ==> !casters[g].pc.Delivering?
  {
    forall g | g in casters
      ensures !casters[g].pc.Delivering?
    {
      assert Reads(casters, handlers, Caster(g)) ==> Caster(g) in mu.readers;
    }
  }

  /** A caster move that neither settles nor delivers. */
  predicate QuietMove(casters: Casters, g: nat, k: nat, pc: CasterPc)
  {
    var before := if g in casters then casters[g] else CasterState(0, Idle);
    && k == before.k
    && !before.pc.Delivering? && !pc.Delivering?
    && (HasMsg(pc) ==> pc.m.call == Call(g, k))
  }

  /** A caster move that keeps the call on the same side of its append. */
  predicate SameSide(casters: Casters, g: nat, k: nat, pc: CasterPc)
  {
    var before := if g in casters then casters[g] else CasterState(0, Idle);
    || (k == before.k && (AfterAppend(pc) <==> AfterAppend(before.pc)))
    || (k == before.k + 1 && !AfterAppend(pc) && AfterAppend(before.pc))
  }

  lemma CasterQuiet(casters: Casters, g: nat, k: nat, pc: CasterPc, clients: set<nat>, decisions: Decisions)
    requires CasterInv(casters, clients, decisions) && QuietMove(casters, g, k, pc)
    ensures CasterInv(casters[g := CasterState(k, pc)], clients, decisions)
  {
  }

  lemma CasterDecides(casters: Casters, g: nat, m: Msg, clients: set<nat>, decisions: Decisions, d: Decision)
    requires CasterInv(casters, clients, decisions) && d.clients == clients
    requires g in casters && (casters[g].pc == Checking(m) || casters[g].pc == Checked(m))
    ensures CasterInv(casters[g := CasterState(casters[g].k, Delivering(m, clients))], clients, decisions[Call(g, casters[g].k) := d])
    ensures CasterInv(casters[g := CasterState(casters[g].k + 1, Idle)], clients, decisions[Call(g, casters[g].k) := d])
  {
  }

  lemma CasterSends(casters: Casters, g: nat, pending: set<nat>, clients: set<nat>, decisions: Decisions)
    requires CasterInv(casters, clients, decisions)
    requires g in casters && casters[g].pc.Delivering? && pending <= casters[g].pc.pending
    ensures CasterInv(casters[g := CasterState(casters[g].k, casters[g].pc.(pending := pending))], clients, decisions)
    ensures CasterInv(casters[g := CasterState(casters[g].k + 1, Idle)], clients, decisions)
  {
  }

  lemma CasterClients(casters: Casters, clients: set<nat>, clients': set<nat>, decisions: Decisions)
    requires CasterInv(casters, clients, decisions)
    requires forall g :: g in casters ==> !casters[g].pc.Delivering?
    ensures CasterInv(casters, clients', decisions)
  {
  }

  lemma AttemptQuiet(casters: Casters, g: nat, k: nat, pc: CasterPc, chans: Chans, decisions: Decisions)
    requires AttemptInv(casters, chans, decisions) && QuietMove(casters, g, k, pc)
    ensures AttemptInv(casters[g := CasterState(k, pc)], chans, decisions)
  {
    hide HasAttempt;
    var casters' := casters[g := CasterState(k, pc)];
    assert forall call, c :: Pending(casters', call, c) <==> Pending(casters, call, c);
  }

  lemma AttemptDecides(casters: Casters, casters': Casters, g: nat, chans: Chans, clients: set<nat>, decisions: Decisions, d: Decision)
    requires AttemptInv(casters, chans, decisions) && d.clients == clients <= chans.Keys
    requires g in casters && g in casters' && Call(g, casters[g].k) !in decisions && !casters[g].pc.Delivering?
    requires casters' == casters[g := casters'[g]]
    requires if casters'[g].pc.Delivering? then casters'[g].pc.pending == clients && casters'[g].k == casters[g].k
             else clients == {}
    ensures AttemptInv(casters', chans, decisions[Call(g, casters[g].k) := d])
  {
    hide HasAttempt;
    var call0 := Call(g, casters[g].k);
    assert forall call, c :: call != call0 ==> (Pending(casters', call, c) <==> Pending(casters, call, c));
    assert forall c :: c in clients ==> Pending(casters', call0, c);
  }

  lemma HasAttemptAppend(attempts: seq<Attempt>, a: Attempt, call: Call)
    ensures HasAttempt(attempts + [a], call) <==> HasAttempt(attempts, call) || a.m.call == call
  {
    var more := attempts + [a];
    assert more[|attempts|] == a;
    assert forall i :: 0 <= i < |attempts| ==> more[i] == attempts[i];
  }

  lemma AttemptSends(casters: Casters, g: nat, c: nat, chans: Chans, clients: set<nat>, decisions: Decisions, ch: Chan)
    requires CasterInv(casters, clients, decisions) && AttemptInv(casters, chans, decisions)
    requires g in casters && casters[g].pc.Delivering? && c in casters[g].pc.pending && c in chans
    requires |ch.attempts| > 0 && ch.attempts[..|ch.attempts| - 1] == chans[c].attempts
    requires ch.attempts[|ch.attempts| - 1].m == casters[g].pc.m
    ensures AttemptInv(casters[g := CasterState(casters[g].k, casters[g].pc.(pending := casters[g].pc.pending - {c}))],
                       chans[c := ch], decisions)
  {
    var pc := casters[g].pc;
    var casters' := casters[g := CasterState(casters[g].k, pc.(pending := pc.pending - {c}))];
    var call0 := Call(g, casters[g].k);
    assert call0 in decisions && c in decisions[call0].clients;
    forall call
      ensures HasAttempt(ch.attempts, call) <==> HasAttempt(chans[c].attempts, call) || call == call0
    {
      var last := ch.attempts[|ch.attempts| - 1];
      assert ch.attempts == chans[c].attempts + [last];
      HasAttemptAppend(chans[c].attempts, last, call);
    }
    hide HasAttempt;
    assert forall call, d :: Pending(casters', call, d) <==> Pending(casters, call, d) && !(call == call0 && d == c);
  }

  lemma AttemptReturns(casters: Casters, g: nat, chans: Chans, decisions: Decisions)
    requires AttemptInv(casters, chans, decisions)
    requires g in casters && casters[g].pc.Delivering? && casters[g].pc.pending == {}
    ensures AttemptInv(casters[g := CasterState(casters[g].k + 1, Idle)], chans, decisions)
  {
    hide HasAttempt;
    var casters' := casters[g := CasterState(casters[g].k + 1, Idle)];
    assert forall call, c :: Pending(casters', call, c) <==> Pending(casters, call, c);
  }

  lemma AttemptSame(casters: Casters, c: nat, chans: Chans, ch: Chan, decisions: Decisions)
    requires AttemptInv(casters, chans, decisions)
    requires if c in chans then ch.attempts == chans[c].attempts else ch.attempts == []
    ensures AttemptInv(casters, chans[c := ch], decisions)
  {
    assert c !in chans ==> forall call :: !HasAttempt(ch.attempts, call);
    hide HasAttempt;
  }

  lemma LogQuiet(casters: Casters, g: nat, k: nat, pc: CasterPc, log: seq<Msg>)
    requires LogInv(log, casters) && SameSide(casters, g, k, pc)
    ensures LogInv(log, casters[g := CasterState(k, pc)])
  {
    hide Logged, Ordered;
    var casters' := casters[g := CasterState(k, pc)];
    assert forall call :: InLog(casters', call) <==> InLog(casters, call);
  }

  lemma LoggedAppend(log: seq<Msg>, m: Msg, call: Call)
    ensures Logged(log + [m], call, |log| + 1) <==> Logged(log, call, |log|) || m.call == call
  {
    var more := log + [m];
    assert more[|log|] == m;
    assert forall i :: 0 <= i < |log| ==> more[i] == log[i];
  }

  lemma LogAppends(log: seq<Msg>, casters: Casters, g: nat, m: Msg)
    requires LogInv(log, casters)
    requires g in casters && casters[g].pc == Appending(m) && m.call == Call(g, casters[g].k)
    ensures LogInv(log + [m], casters[g := CasterState(casters[g].k, Appended(m))])
  {
    var casters' := casters[g := CasterState(casters[g].k, Appended(m))];
    forall i | 0 <= i < |log| && log[i].call.g == g
      ensures log[i].call.k < casters[g].k
    {
      assert Logged(log, log[i].call, |log|);
    }
    assert Ordered(log + [m]);
    forall call
      ensures Logged(log + [m], call, |log| + 1) <==> InLog(casters', call)
    {
      LoggedAppend(log, m, call);
    }
  }

  lemma SelectAppend(log: seq<Msg>, m: Msg, cache: Cache)
    ensures Select(log + [m], cache) == Select(log, cache) + (if CacheOf(m.evt.typ) == cache then [m] else [])
  {
    var more := log + [m];
    assert more[..|more| - 1] == log && more[|more| - 1] == m;
  }

  lemma CacheAppends(s: Sys, m: Msg)
    requires CacheInv(s.log, s.history, s.batches)
    ensures CacheInv(s.log + [m], Record(s, m).history, Record(s, m).batches)
  {
    SelectAppend(s.log, m, History);
    SelectAppend(s.log, m, Batches);
    hide Select;
    LastNAppend(Select(s.log, History), m, MAX_HISTORY);
    LastNAppend(Select(s.log, Batches), m, MAX_HB_HISTORY);
    hide LastN;
  }

  lemma DecisionAppends(decisions: Decisions, log: seq<Msg>, m: Msg, time: nat)
    requires DecisionInv(decisions, log, time)
    ensures DecisionInv(decisions, log + [m], time)
  {
    forall call | call in decisions
      ensures Logged(log + [m], call, decisions[call].logged)
    {
      var i :| 0 <= i < decisions[call].logged && i < |log| && log[i].call == call;
      assert (log + [m])[i] == log[i];
    }
  }

  lemma DecisionDecides(decisions: Decisions, log: seq<Msg>, time: nat, call: Call, clients: set<nat>)
    requires DecisionInv(decisions, log, time) && Logged(log, call, |log|)
    ensures DecisionInv(decisions[call := Decision(clients, time, |log|)], log, time + 1)
  {
    hide Logged;
  }

  lemma DecisionTime(decisions: Decisions, log: seq<Msg>, time: nat)
    requires DecisionInv(decisions, log, time)
    ensures DecisionInv(decisions, log, time + 1)
  {
    hide Logged;
  }

  lemma HandoverDecides(decisions: Decisions, clients: set<nat>, handlers: Handlers, call: Call, d: Decision)
    requires HandoverInv(decisions, clients, handlers) && d.clients == clients
    ensures HandoverInv(decisions[call := d], clients, handlers)
  {
  }

  lemma HandoverRegisters(decisions: Decisions, clients: set<nat>, handlers: Handlers, c: nat, h: HandlerState, log: seq<Msg>, time: nat)
    requires HandoverInv(decisions, clients, handlers) && DecisionInv(decisions, log, time)
    requires h.joinedTime == time && h.joinedAt == |log|
    ensures HandoverInv(decisions, clients + {c}, handlers[c := h])
  {
    hide Logged;
  }

  lemma HandoverSame(decisions: Decisions, clients: set<nat>, handlers: Handlers, c: nat, h: HandlerState)
    requires HandoverInv(decisions, clients, handlers)
    requires if c in handlers then h.joinedTime == handlers[c].joinedTime && h.joinedAt == handlers[c].joinedAt
             else c !in clients
    ensures HandoverInv(decisions, clients, handlers[c := h])
  {
  }

  lemma HandlersAppend(handlers: Handlers, log: seq<Msg>, m: Msg)
    requires HandlerInv(handlers, log)
    ensures HandlerInv(handlers, log + [m])
  {
    forall c | c in handlers
      ensures HandlerOk(handlers[c], log + [m])
    {
      var h := handlers[c];
      assert HasCopy(h.pc) ==> (log + [m])[..h.copiedAt] == log[..h.copiedAt];
      assert HasBatches(h.pc) ==> (log + [m])[..h.batchesAt] == log[..h.batchesAt];
    }
  }

  lemma HandlerMoves(handlers: Handlers, log: seq<Msg>, c: nat, h: HandlerState)
    requires HandlerInv(handlers, log) && HandlerOk(h, log)
    ensures HandlerInv(handlers[c := h], log)
  {
    hide HandlerOk;
  }

  lemma MintMoves(sequence: nat, minted: seq<Call>, casters: Casters, log: seq<Msg>, g: nat, k: nat, pc: CasterPc)
    requires MintInv(sequence, minted, casters, log) && (HasMsg(pc) ==> MintOk(minted, pc.m))
    ensures MintInv(sequence, minted, casters[g := CasterState(k, pc)], log)
  {
    hide MintOk;
  }

  lemma MintAppends(sequence: nat, minted: seq<Call>, casters: Casters, log: seq<Msg>, m: Msg)
    requires MintInv(sequence, minted, casters, log) && MintOk(minted, m)
    ensures MintInv(sequence, minted, casters, log + [m])
  {
    hide MintOk;
  }

  lemma MintGrows(sequence: nat, minted: seq<Call>, casters: Casters, log: seq<Msg>, call: Call)
    requires MintInv(sequence, minted, casters, log)
    ensures MintInv(sequence + 1, minted + [call], casters, log)
  {
    assert forall m: Msg :: MintOk(minted, m) ==> MintOk(minted + [call], m);
    hide MintOk;
  }

  lemma ChanSame(panicked: bool, clients: set<nat>, chans: Chans, handlers: Handlers, closers: Closers, c: nat, ch: Chan)
    requires ChanInv(panicked, clients, chans, handlers, closers)
    requires c in chans && ch.closed == chans[c].closed
    ensures ChanInv(panicked, clients, chans[c := ch], handlers, closers)
  {
  }

  lemma ChanHandler(panicked: bool, clients: set<nat>, chans: Chans, handlers: Handlers, closers: Closers, c: nat, h: HandlerState)
    requires ChanInv(panicked, clients, chans, handlers, closers)
    requires h.pc.Joining? <==> c !in handlers
    requires c in handlers ==> !handlers[c].pc.Joining?
    ensures ChanInv(panicked, clients, chans, handlers[c := h], closers)
  {
  }

  lemma ChanCloser(panicked: bool, clients: set<nat>, chans: Chans, handlers: Handlers, closers: Closers, u: nat, pc: CloserPc)
    requires ChanInv(panicked, clients, chans, handlers, closers)
    requires !pc.Finished? ==> pc.c in chans
    ensures ChanInv(panicked, clients, chans, handlers, closers[u := pc])
  {
  }

  lemma ChanRegisters(panicked: bool, clients: set<nat>, chans: Chans, handlers: Handlers, closers: Closers, c: nat, ch: Chan, h: HandlerState)
    requires ChanInv(panicked, clients, chans, handlers, closers)
    requires !h.pc.Joining? && !ch.closed
    ensures ChanInv(panicked, clients + {c}, chans[c := ch], handlers[c := h], closers)
  {
  }

  lemma ChanCloses(panicked: bool, clients: set<nat>, chans: Chans, handlers: Handlers, closers: Closers, c: nat, ch: Chan)
    requires ChanInv(panicked, clients, chans, handlers, closers)
    requires c in chans && ch.closed
    ensures ChanInv(panicked, clients - {c}, chans[c := ch], handlers, closers)
  {
  }

  lemma ChansOkWith(chans: Chans, c: nat, ch: Chan)
    requires ChansOk(chans) && ChanOk(ch)
    ensures ChansOk(chans[c := ch])
  {
    hide ChanOk;
  }

  /** A send keeps the channel sound if the call is newer than all that its goroutine sent there. */
  lemma TrySendOk(ch: Chan, m: Msg)
    requires ChanOk(ch)
    requires forall call :: HasAttempt(ch.attempts, call) && call.g == m.call.g ==> call.k < m.call.k
    ensures ChanOk(TrySend(ch, m))
  {
    var more := TrySend(ch, m).attempts;
    assert more[..|more| - 1] == ch.attempts;
    forall i | 0 <= i < |ch.attempts| && ch.attempts[i].m.call.g == m.call.g
      ensures ch.attempts[i].m.call.k < m.call.k
    {
      assert HasAttempt(ch.attempts, ch.attempts[i].m.call);
    }
    assert Kept(more) == Kept(ch.attempts) + (if |ch.buf| < CLIENT_BUFFER then [m] else []);
  }

  lemma ReceiveOk(ch: Chan)
    requires ChanOk(ch) && ch.buf != []
    ensures ChanOk(ch.(buf := ch.buf[1..], received := ch.received + [ch.buf[0]]))
  {
    assert ch.received + [ch.buf[0]] + ch.buf[1..] == ch.received + ch.buf;
  }

  lemma EdgeRegisters(edges: seq<bool>, clients: set<nat>, c: nat)
    requires EdgeInv(edges, clients) && c !in clients
    ensures EdgeInv(if |clients + {c}| == 1 then edges + [true] else edges, clients + {c})
  {
    assert |clients + {c}| == |clients| + 1;
    assert |clients| == 0 <==> clients == {};
    assert c in clients + {c};
  }

  lemma EdgeCloses(edges: seq<bool>, clients: set<nat>, c: nat)
    requires EdgeInv(edges, clients) && c in clients
    ensures EdgeInv(if |clients - {c}| == 0 then edges + [false] else edges, clients - {c})
  {
  }
}
