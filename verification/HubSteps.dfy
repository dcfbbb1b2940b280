/** Every step of every goroutine keeps the invariant. */
module HubSteps {
  import opened Basics
  import opened Events
  import opened HubMachine
  import opened HubInvariant

  /** Facts about the acting goroutine's own message. */
  lemma OwnMsg(s: Sys, g: nat)
    requires Inv(s) && g in s.casters && HasMsg(s.casters[g].pc)
    ensures s.casters[g].pc.m.call == Call(g, s.casters[g].k)
    ensures MintOk(s.minted, s.casters[g].pc.m)
    ensures Call(g, s.casters[g].k) in s.decisions <==> s.casters[g].pc.Delivering?
    ensures AfterAppend(s.casters[g].pc) ==> Logged(s.log, Call(g, s.casters[g].k), |s.log|)
  {
    hide LockInv, ChanInv, ChansOk, AttemptInv, CacheInv, DecisionInv, HandoverInv, HandlerInv, EdgeInv;
    assert Decided(s.casters, Call(g, s.casters[g].k)) <==> s.casters[g].pc.Delivering?;
    assert InLog(s.casters, Call(g, s.casters[g].k)) <==> AfterAppend(s.casters[g].pc);
  }

  lemma SequenceCounts(s: Sys)
    requires Inv(s)
    ensures s.sequence == |s.minted|
  {
    hide LockInv, ChanInv, ChansOk, CasterInv, AttemptInv, LogInv, CacheInv, DecisionInv, HandoverInv, HandlerInv, EdgeInv;
  }

  lemma ClientsHaveChannels(s: Sys)
    requires Inv(s)
    ensures s.clients <= s.chans.Keys
    ensures forall c :: c in s.clients ==> c in s.handlers
  {
    hide LockInv, ChansOk, CasterInv, AttemptInv, LogInv, CacheInv, DecisionInv, HandoverInv, HandlerInv, EdgeInv, MintInv;
  }

  /** The channel a delivery is about to send on is open, and newer calls of the goroutine never reached it. */
  lemma TargetIsFresh(s: Sys, g: nat, c: nat)
    requires Inv(s) && g in s.casters && s.casters[g].pc.Delivering? && c in s.casters[g].pc.pending && c in s.chans
    ensures !s.chans[c].closed
    ensures ChanOk(TrySend(s.chans[c], s.casters[g].pc.m))
  {
    hide LockInv, LogInv, CacheInv, DecisionInv, HandoverInv, HandlerInv, EdgeInv, MintInv, ChanOk, HasAttempt;
    forall call | HasAttempt(s.chans[c].attempts, call) && call.g == g
      ensures call.k < s.casters[g].k
    {
      assert call in s.decisions && !Pending(s.casters, call, c);
      assert Decided(s.casters, call);
    }
    TrySendOk(s.chans[c], s.casters[g].pc.m);
  }

  // ---- broadcasting goroutines -----------------------------------------------------------------

  /** A broadcaster moves on without settling, delivering or crossing its append. */
  lemma CasterMoveKept(s: Sys, g: nat, cs: CasterState, mu: Mutex)
    requires Inv(s) && QuietMove(s.casters, g, cs.k, cs.pc) && SameSide(s.casters, g, cs.k, cs.pc)
    requires HasMsg(cs.pc) ==> MintOk(s.minted, cs.pc.m)
    requires LockMove(s.mu, mu, Caster(g),
                      Writes(s.casters, s.handlers, s.closers, Caster(g)), Reads(s.casters, s.handlers, Caster(g)),
                      cs.pc.Appending?, cs.pc.Checking? || cs.pc.Delivering?)
    ensures Inv(s.(casters := s.casters[g := cs], mu := mu))
  {
    hide LockMove, QuietMove, SameSide, MintOk;
    hide LockInv, ChanInv, ChansOk, CasterInv, AttemptInv, LogInv, CacheInv, DecisionInv, HandoverInv, HandlerInv,
      EdgeInv, MintInv;
    var casters' := s.casters[g := cs];
    LockKept(s.mu, s.casters, s.handlers, s.closers, mu, casters', s.handlers, s.closers, Caster(g));
    CasterQuiet(s.casters, g, cs.k, cs.pc, s.clients, s.decisions);
    AttemptQuiet(s.casters, g, cs.k, cs.pc, s.chans, s.decisions);
    LogQuiet(s.casters, g, cs.k, cs.pc, s.log);
    MintMoves(s.sequence, s.minted, s.casters, s.log, g, cs.k, cs.pc);
  }

  predicate MovesOnly(st: Step)
  {
    st.Begin? || st.Stamp? || st.KeepID? || st.LockForAppend? || st.LockForCheck? || st.SeeClients?
  }

  /** Where such a step takes its goroutine and the lock. */
  lemma MoveIs(s: Sys, st: Step)
    requires Enabled(s, st) && MovesOnly(st)
    ensures st.g in Apply(s, st).casters
    ensures var s', cs := Apply(s, st), Apply(s, st).casters[st.g];
      && s' == s.(casters := s.casters[st.g := cs], mu := s'.mu)
      && cs.k == CasterOf(s, st.g).k && SameSide(s.casters, st.g, cs.k, cs.pc)
      && !CasterOf(s, st.g).pc.Delivering? && !cs.pc.Delivering?
      && (HasMsg(cs.pc) ==> cs.pc.m == if HasMsg(CasterOf(s, st.g).pc) then CasterOf(s, st.g).pc.m
                                       else Msg(CallOf(s, st.g), CasterOf(s, st.g).pc.evt, Preset))
  {
    hide Lock, Unlock, RLock, RUnlock, CanLock, CanRLock;
  }

  lemma MoveLocks(s: Sys, st: Step)
    requires Enabled(s, st) && MovesOnly(st)
    ensures st.g in Apply(s, st).casters
    ensures var pc := Apply(s, st).casters[st.g].pc;
      LockMove(s.mu, Apply(s, st).mu, Caster(st.g),
               Writes(s.casters, s.handlers, s.closers, Caster(st.g)), Reads(s.casters, s.handlers, Caster(st.g)),
               pc.Appending?, pc.Checking? || pc.Delivering?)
  {
    hide Lock, Unlock, RLock, RUnlock, CanLock, CanRLock, CallOf;
  }

  lemma MoveKept(s: Sys, st: Step)
    requires Inv(s) && Enabled(s, st) && MovesOnly(st)
    ensures Inv(Apply(s, st))
  {
    if HasMsg(CasterOf(s, st.g).pc) {
      OwnMsg(s, st.g);
    }
    hide Inv, EventID, Apply, Enabled, SameSide, LockMove, Writes, Reads;
    MoveIs(s, st);
    MoveLocks(s, st);
    CasterMoveKept(s, st.g, Apply(s, st).casters[st.g], Apply(s, st).mu);
  }

  lemma MintIDKept(s: Sys, g: nat)
    requires Inv(s) && Enabled(s, MintID(g))
    ensures Inv(Apply(s, MintID(g)))
  {
    SequenceCounts(s);
    hide LockInv, ChanInv, ChansOk, CasterInv, AttemptInv, LogInv, CacheInv, DecisionInv, HandoverInv, HandlerInv,
      EdgeInv, MintInv;
    var drawn := s.(sequence := s.sequence + 1, minted := s.minted + [CallOf(s, g)]);
    MintGrows(s.sequence, s.minted, s.casters, s.log, CallOf(s, g));
    CasterMoveKept(drawn, g, Apply(s, MintID(g)).casters[g], s.mu);
  }

  lemma AppendKept(s: Sys, g: nat)
    requires Inv(s) && Enabled(s, Append(g))
    ensures Inv(Apply(s, Append(g)))
  {
    hide LockInv, ChanInv, ChansOk, CasterInv, AttemptInv, LogInv, CacheInv, DecisionInv, HandoverInv, HandlerInv,
      EdgeInv, MintInv;
    OwnMsg(s, g);
    var s' := Apply(s, Append(g));
    hide Cached;
    LockKept(s.mu, s.casters, s.handlers, s.closers, s'.mu, s'.casters, s'.handlers, s'.closers, Caster(g));
    var cs, m := s'.casters[g], s.casters[g].pc.m;
    CasterQuiet(s.casters, g, cs.k, cs.pc, s.clients, s.decisions);
    AttemptQuiet(s.casters, g, cs.k, cs.pc, s.chans, s.decisions);
    LogAppends(s.log, s.casters, g, m);
    CacheAppends(s, m);
    DecisionAppends(s.decisions, s.log, m, s.time);
    HandlersAppend(s.handlers, s.log, m);
    MintMoves(s.sequence, s.minted, s.casters, s.log, g, cs.k, cs.pc);
    MintAppends(s.sequence, s.minted, s'.casters, s.log, m);
  }

  lemma SkipKept(s: Sys, g: nat)
    requires Inv(s) && Enabled(s, Skip(g))
    ensures Inv(Apply(s, Skip(g)))
  {
    hide LockInv, ChanInv, ChansOk, CasterInv, AttemptInv, LogInv, CacheInv, DecisionInv, HandoverInv, HandlerInv,
      EdgeInv, MintInv;
    var s' := Apply(s, Skip(g));
    OwnMsg(s, g);
    LockKept(s.mu, s.casters, s.handlers, s.closers, s'.mu, s'.casters, s'.handlers, s'.closers, Caster(g));
    var cs, m, call := s'.casters[g], s.casters[g].pc.m, CallOf(s, g);
    LogQuiet(s.casters, g, cs.k, cs.pc, s.log);
    MintMoves(s.sequence, s.minted, s.casters, s.log, g, cs.k, cs.pc);
    CasterDecides(s.casters, g, m, s.clients, s.decisions, s'.decisions[call]);
    AttemptDecides(s.casters, s'.casters, g, s.chans, s.clients, s.decisions, s'.decisions[call]);
    DecisionDecides(s.decisions, s.log, s.time, call, s.clients);
    HandoverDecides(s.decisions, s.clients, s.handlers, call, s'.decisions[call]);
  }

  lemma LockForDeliveryKept(s: Sys, g: nat)
    requires Inv(s) && Enabled(s, LockForDelivery(g))
    ensures Inv(Apply(s, LockForDelivery(g)))
  {
    hide LockInv, ChanInv, ChansOk, CasterInv, AttemptInv, LogInv, CacheInv, DecisionInv, HandoverInv, HandlerInv,
      EdgeInv, MintInv;
    var s' := Apply(s, LockForDelivery(g));
    OwnMsg(s, g);
    LockKept(s.mu, s.casters, s.handlers, s.closers, s'.mu, s'.casters, s'.handlers, s'.closers, Caster(g));
    var cs, m, call := s'.casters[g], s.casters[g].pc.m, CallOf(s, g);
    LogQuiet(s.casters, g, cs.k, cs.pc, s.log);
    MintMoves(s.sequence, s.minted, s.casters, s.log, g, cs.k, cs.pc);
    ClientsHaveChannels(s);
    CasterDecides(s.casters, g, m, s.clients, s.decisions, s'.decisions[call]);
    AttemptDecides(s.casters, s'.casters, g, s.chans, s.clients, s.decisions, s'.decisions[call]);
    DecisionDecides(s.decisions, s.log, s.time, call, s.clients);
    HandoverDecides(s.decisions, s.clients, s.handlers, call, s'.decisions[call]);
  }

  lemma SendKept(s: Sys, g: nat, c: nat)
    requires Inv(s) && Enabled(s, Send(g, c))
    ensures Inv(Apply(s, Send(g, c)))
  {
    hide LockInv, ChanInv, ChansOk, CasterInv, AttemptInv, LogInv, CacheInv, DecisionInv, HandoverInv, HandlerInv,
      EdgeInv, MintInv;
    var s' := Apply(s, Send(g, c));
    OwnMsg(s, g);
    LockKept(s.mu, s.casters, s.handlers, s.closers, s'.mu, s'.casters, s'.handlers, s'.closers, Caster(g));
    var cs, ch := s'.casters[g], TrySend(s.chans[c], s.casters[g].pc.m);
    TargetIsFresh(s, g, c);
    LogQuiet(s.casters, g, cs.k, cs.pc, s.log);
    MintMoves(s.sequence, s.minted, s.casters, s.log, g, cs.k, cs.pc);
    CasterSends(s.casters, g, cs.pc.pending, s.clients, s.decisions);
    AttemptSends(s.casters, g, c, s.chans, s.clients, s.decisions, ch);
    ChansOkWith(s.chans, c, ch);
    ChanSame(s.panicked, s.clients, s.chans, s.handlers, s.closers, c, ch);
  }

  lemma EndDeliveryKept(s: Sys, g: nat)
    requires Inv(s) && Enabled(s, EndDelivery(g))
    ensures Inv(Apply(s, EndDelivery(g)))
  {
    hide LockInv, ChanInv, ChansOk, CasterInv, AttemptInv, LogInv, CacheInv, DecisionInv, HandoverInv, HandlerInv,
      EdgeInv, MintInv;
    var s' := Apply(s, EndDelivery(g));
    LockKept(s.mu, s.casters, s.handlers, s.closers, s'.mu, s'.casters, s'.handlers, s'.closers, Caster(g));
    var cs := s'.casters[g];
    LogQuiet(s.casters, g, cs.k, cs.pc, s.log);
    MintMoves(s.sequence, s.minted, s.casters, s.log, g, cs.k, cs.pc);
    CasterSends(s.casters, g, {}, s.clients, s.decisions);
    AttemptReturns(s.casters, g, s.chans, s.decisions);
  }

  // ---- SSE handlers ----------------------------------------------------------------------------

  /** What a handler knows of itself, and that a copy taken now is the window of the log so far. */
  lemma OwnHandler(s: Sys, c: nat)
    requires Inv(s)
    ensures c in s.handlers ==> HandlerOk(s.handlers[c], s.log)
    ensures s.history == LastN(Select(s.log[..|s.log|], History), MAX_HISTORY)
    ensures s.batches == LastN(Select(s.log[..|s.log|], Batches), MAX_HB_HISTORY)
    ensures c !in s.handlers ==> c !in s.clients
  {
    ClientsHaveChannels(s);
    hide LockInv, ChanInv, ChansOk, CasterInv, AttemptInv, LogInv, DecisionInv, HandoverInv, EdgeInv, MintInv, HandlerOk;
    assert s.log[..|s.log|] == s.log;
  }

  /** A handler moves on; its channel and the time it joined stay. */
  lemma HandlerMoveKept(s: Sys, c: nat, h: HandlerState, mu: Mutex)
    requires Inv(s) && HandlerOk(h, s.log)
    requires h.pc.Joining? <==> c !in s.handlers
    requires c in s.handlers ==> !s.handlers[c].pc.Joining?
    requires if c in s.handlers then h.joinedTime == s.handlers[c].joinedTime && h.joinedAt == s.handlers[c].joinedAt
             else c !in s.clients
    requires LockMove(s.mu, mu, Handler(c),
                      Writes(s.casters, s.handlers, s.closers, Handler(c)), Reads(s.casters, s.handlers, Handler(c)),
                      h.pc.Joining?, h.pc.Copying? || h.pc.CopyingBatches?)
    ensures Inv(s.(handlers := s.handlers[c := h], mu := mu))
  {
    hide LockMove, HandlerOk;
    hide LockInv, ChanInv, ChansOk, CasterInv, AttemptInv, LogInv, CacheInv, DecisionInv, HandoverInv, HandlerInv,
      EdgeInv, MintInv;
    LockKept(s.mu, s.casters, s.handlers, s.closers, mu, s.casters, s.handlers[c := h], s.closers, Handler(c));
    ChanHandler(s.panicked, s.clients, s.chans, s.handlers, s.closers, c, h);
    HandoverSame(s.decisions, s.clients, s.handlers, c, h);
    HandlerMoves(s.handlers, s.log, c, h);
  }

  predicate Handles(st: Step)
  {
    st.Join? || st.LockForCopy? || st.Copy? || st.LockForBatches? || st.CopyBatches? || st.Leave?
  }

  lemma HandleIs(s: Sys, st: Step)
    requires Enabled(s, st) && Handles(st)
    ensures st.c in Apply(s, st).handlers
    ensures var s', c, h := Apply(s, st), st.c, Apply(s, st).handlers[st.c];
      && s' == s.(handlers := s.handlers[c := h], mu := s'.mu)
      && (h.pc.Joining? <==> c !in s.handlers) && (c in s.handlers ==> !s.handlers[c].pc.Joining?)
      && (c in s.handlers ==> h.joinedTime == s.handlers[c].joinedTime && h.joinedAt == s.handlers[c].joinedAt)
  {
    hide Lock, Unlock, RLock, RUnlock, CanLock, CanRLock;
  }

  lemma HandleLocks(s: Sys, st: Step)
    requires Enabled(s, st) && Handles(st)
    ensures st.c in Apply(s, st).handlers
    ensures var pc := Apply(s, st).handlers[st.c].pc;
      LockMove(s.mu, Apply(s, st).mu, Handler(st.c),
               Writes(s.casters, s.handlers, s.closers, Handler(st.c)), Reads(s.casters, s.handlers, Handler(st.c)),
               pc.Joining?, pc.Copying? || pc.CopyingBatches?)
  {
    hide Lock, Unlock, RLock, RUnlock, CanLock, CanRLock;
  }

  /** A copy taken now is the window of the log so far. */
  lemma HandledOk(s: Sys, st: Step)
    requires Enabled(s, st) && Handles(st)
    requires st.c in s.handlers ==> HandlerOk(s.handlers[st.c], s.log)
    requires s.history == LastN(Select(s.log[..|s.log|], History), MAX_HISTORY)
    requires s.batches == LastN(Select(s.log[..|s.log|], Batches), MAX_HB_HISTORY)
    ensures st.c in Apply(s, st).handlers && HandlerOk(Apply(s, st).handlers[st.c], s.log)
  {
    hide LastN, Select, Lock, Unlock, RLock, RUnlock, CanLock, CanRLock;
  }

  lemma HandleKept(s: Sys, st: Step)
    requires Inv(s) && Enabled(s, st) && Handles(st)
    ensures Inv(Apply(s, st))
  {
    OwnHandler(s, st.c);
    hide Inv, LastN, Select, Apply, Enabled, HandlerOk, LockMove, Writes, Reads;
    HandleIs(s, st);
    HandleLocks(s, st);
    HandledOk(s, st);
    HandlerMoveKept(s, st.c, Apply(s, st).handlers[st.c], Apply(s, st).mu);
  }

  lemma RegisterKept(s: Sys, c: nat)
    requires Inv(s) && Enabled(s, Register(c))
    ensures Inv(Apply(s, Register(c)))
  {
    hide LockInv, ChanInv, ChansOk, CasterInv, AttemptInv, LogInv, CacheInv, DecisionInv, HandoverInv, HandlerInv,
      EdgeInv, MintInv;
    hide ChanOk, HandlerOk;
    var s' := Apply(s, Register(c));
    NewClient(s, c);
    NobodyDelivers(s.mu, s.casters, s.handlers, s.closers, Handler(c));
    LockKept(s.mu, s.casters, s.handlers, s.closers, s'.mu, s'.casters, s'.handlers, s'.closers, Handler(c));
    var h, ch := s'.handlers[c], s'.chans[c];
    ChanRegisters(s.panicked, s.clients, s.chans, s.handlers, s.closers, c, ch, h);
    EmptyChanOk(ch);
    ChansOkWith(s.chans, c, ch);
    CasterClients(s.casters, s.clients, s'.clients, s.decisions);
    AttemptSame(s.casters, c, s.chans, ch, s.decisions);
    DecisionTime(s.decisions, s.log, s.time);
    HandoverRegisters(s.decisions, s.clients, s.handlers, c, h, s.log, s.time);
    JoinedOk(h, s.log);
    HandlerMoves(s.handlers, s.log, c, h);
    EdgeRegisters(s.edges, s.clients, c);
  }

  lemma EmptyChanOk(ch: Chan)
    requires ch == Chan([], false, [], [])
    ensures ChanOk(ch)
  {
  }

  lemma JoinedOk(h: HandlerState, log: seq<Msg>)
    requires h.pc.Joined? && h.joinedAt == |log|
    ensures HandlerOk(h, log)
  {
  }

  lemma NewClient(s: Sys, c: nat)
    requires Inv(s) && c in s.handlers && s.handlers[c].pc.Joining?
    ensures c !in s.chans && c !in s.clients
  {
    hide LockInv, ChansOk, CasterInv, AttemptInv, LogInv, CacheInv, DecisionInv, HandoverInv, HandlerInv, EdgeInv, MintInv;
  }

  lemma ReceiveKept(s: Sys, c: nat)
    requires Inv(s) && Enabled(s, Receive(c))
    ensures Inv(Apply(s, Receive(c)))
  {
    hide LockInv, ChanInv, ChansOk, CasterInv, AttemptInv, LogInv, CacheInv, DecisionInv, HandoverInv, HandlerInv,
      EdgeInv, MintInv;
    var s' := Apply(s, Receive(c));
    var ch := s'.chans[c];
    assert ChanOk(s.chans[c]) by { AnyChanOk(s.chans, c); }
    ReceiveOk(s.chans[c]);
    ChansOkWith(s.chans, c, ch);
    ChanSame(s.panicked, s.clients, s.chans, s.handlers, s.closers, c, ch);
    AttemptSame(s.casters, c, s.chans, ch, s.decisions);
  }

  lemma AnyChanOk(chans: Chans, c: nat)
    requires ChansOk(chans) && c in chans
    ensures ChanOk(chans[c])
  {
    hide ChanOk;
  }

  // ---- unsubscribe calls -----------------------------------------------------------------------

  lemma CallCloseKept(s: Sys, u: nat, c: nat)
    requires Inv(s) && Enabled(s, CallClose(u, c))
    ensures Inv(Apply(s, CallClose(u, c)))
  {
    hide LockInv, ChanInv, ChansOk, CasterInv, AttemptInv, LogInv, CacheInv, DecisionInv, HandoverInv, HandlerInv,
      EdgeInv, MintInv;
    var s' := Apply(s, CallClose(u, c));
    LockKept(s.mu, s.casters, s.handlers, s.closers, s'.mu, s'.casters, s'.handlers, s'.closers, Closer(u));
    HasChannel(s, u, c);
    ChanCloser(s.panicked, s.clients, s.chans, s.handlers, s.closers, u, Wanting(c));
  }

  lemma HasChannel(s: Sys, u: nat, c: nat)
    requires Inv(s)
    ensures c in s.handlers && !s.handlers[c].pc.Joining? ==> c in s.chans
    ensures u in s.closers && !s.closers[u].Finished? ==> s.closers[u].c in s.chans
    ensures c in s.clients ==> c in s.chans && !s.chans[c].closed
  {
    hide LockInv, ChansOk, CasterInv, AttemptInv, LogInv, CacheInv, DecisionInv, HandoverInv, HandlerInv, EdgeInv, MintInv;
  }

  lemma LockForCloseKept(s: Sys, u: nat)
    requires Inv(s) && Enabled(s, LockForClose(u))
    ensures Inv(Apply(s, LockForClose(u)))
  {
    hide LockInv, ChanInv, ChansOk, CasterInv, AttemptInv, LogInv, CacheInv, DecisionInv, HandoverInv, HandlerInv,
      EdgeInv, MintInv;
    var s' := Apply(s, LockForClose(u));
    LockKept(s.mu, s.casters, s.handlers, s.closers, s'.mu, s'.casters, s'.handlers, s'.closers, Closer(u));
    HasChannel(s, u, 0);
    ChanCloser(s.panicked, s.clients, s.chans, s.handlers, s.closers, u, Closing(s.closers[u].c));
  }

  lemma CloseAgainKept(s: Sys, u: nat)
    requires Inv(s) && Enabled(s, CloseAgain(u))
    ensures Inv(Apply(s, CloseAgain(u)))
  {
    hide LockInv, ChanInv, ChansOk, CasterInv, AttemptInv, LogInv, CacheInv, DecisionInv, HandoverInv, HandlerInv,
      EdgeInv, MintInv;
    var s' := Apply(s, CloseAgain(u));
    LockKept(s.mu, s.casters, s.handlers, s.closers, s'.mu, s'.casters, s'.handlers, s'.closers, Closer(u));
    ChanCloser(s.panicked, s.clients, s.chans, s.handlers, s.closers, u, Finished);
  }

  lemma CloseKept(s: Sys, u: nat)
    requires Inv(s) && Enabled(s, Close(u))
    ensures Inv(Apply(s, Close(u)))
  {
    hide LockInv, ChanInv, ChansOk, CasterInv, AttemptInv, LogInv, CacheInv, DecisionInv, HandoverInv, HandlerInv,
      EdgeInv, MintInv;
    var s' := Apply(s, Close(u));
    LockKept(s.mu, s.casters, s.handlers, s.closers, s'.mu, s'.casters, s'.handlers, s'.closers, Closer(u));
    var c := s.closers[u].c;
    var ch := s'.chans[c];
    HasChannel(s, u, c);
    NobodyDelivers(s.mu, s.casters, s.handlers, s.closers, Closer(u));
    ChanCloses(s.panicked, s.clients, s.chans, s.handlers, s.closers, c, ch);
    ChanCloser(s.panicked, s'.clients, s'.chans, s.handlers, s.closers, u, Finished);
    assert ChanOk(ch) by { AnyChanOk(s.chans, c); }
    ChansOkWith(s.chans, c, ch);
    CasterClients(s.casters, s.clients, s'.clients, s.decisions);
    AttemptSame(s.casters, c, s.chans, ch, s.decisions);
    HandoverShrinks(s.decisions, s.clients, s'.clients, s.handlers);
    EdgeCloses(s.edges, s.clients, c);
  }

  lemma HandoverShrinks(decisions: Decisions, clients: set<nat>, clients': set<nat>, handlers: Handlers)
    requires HandoverInv(decisions, clients, handlers) && clients' <= clients
    ensures HandoverInv(decisions, clients', handlers)
  {
  }

  // ---- all of them -----------------------------------------------------------------------------

  /** One step of anybody keeps the whole invariant. */
  lemma StepKept(s: Sys, st: Step)
    requires Inv(s) && Enabled(s, st)
    ensures Inv(Apply(s, st))
  {
    hide Inv, Enabled, Apply;
    match st {
      case MintID(g) => MintIDKept(s, g);
      case Append(g) => AppendKept(s, g);
      case Skip(g) => SkipKept(s, g);
      case LockForDelivery(g) => LockForDeliveryKept(s, g);
      case Send(g, c) => SendKept(s, g, c);
      case EndDelivery(g) => EndDeliveryKept(s, g);
      case Register(c) => RegisterKept(s, c);
      case Receive(c) => ReceiveKept(s, c);
      case CallClose(u, c) => CallCloseKept(s, u, c);
      case LockForClose(u) => LockForCloseKept(s, u);
      case CloseAgain(u) => CloseAgainKept(s, u);
      case Close(u) => CloseKept(s, u);
      case _ =>
        if MovesOnly(st) {
          MoveKept(s, st);
        } else {
          HandleKept(s, st);
        }
    }
  }

  /** Every state of every run satisfies the invariant. */
  lemma {:induction false} RunKept(states: seq<Sys>, steps: seq<Step>)
    requires IsRun(states, steps)
    ensures forall i :: 0 <= i < |states| ==> Inv(states[i])
  {
    var n := 0;
    InitInv();
    while n < |steps|
      invariant 0 <= n <= |steps|
      invariant forall i :: 0 <= i <= n ==> Inv(states[i])
    {
      StepKept(states[n], steps[n]);
      n := n + 1;
    }
  }

  lemma InitInv()
    ensures Inv(Init)
  {
    assert forall call :: !Logged(Init.log, call, 0);
  }
}
