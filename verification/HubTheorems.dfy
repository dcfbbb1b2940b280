/** What a client of the hub can rely on, in every state of every run. */
module HubTheorems {
  import opened Basics
  import opened Events
  import opened HubMachine
  import opened HubInvariant
  import HubSteps

  // ---- selections and windows ------------------------------------------------------------------

  lemma {:induction false} SelectConcat(a: seq<Msg>, b: seq<Msg>, cache: Cache)
    ensures Select(a + b, cache) == Select(a, cache) + Select(b, cache)
  {
    if b == [] {
      assert a + b == a;
    } else {
      var init, last := b[..|b| - 1], b[|b| - 1];
      SelectConcat(a, init, cache);
      SelectAppend(a + init, last, cache);
      SelectAppend(init, last, cache);
      hide Select, CacheOf;
      assert b == init + [last];
      assert a + b == a + init + [last];
      Associates(Select(a, cache), Select(init, cache), if CacheOf(last.evt.typ) == cache then [last] else []);
    }
  }

  lemma Associates(a: seq<Msg>, b: seq<Msg>, c: seq<Msg>)
    ensures a + b + c == a + (b + c)
  {
  }

  lemma {:induction false} SelectElements(log: seq<Msg>, cache: Cache)
    ensures forall m :: m in Select(log, cache) <==> m in log && CacheOf(m.evt.typ) == cache
  {
    if log != [] {
      var init, last := log[..|log| - 1], log[|log| - 1];
      SelectElements(init, cache);
      assert log == init + [last];
    }
  }

  /** In an ordered log, whatever comes before a call of the same goroutine is an older call. */
  lemma OrderedFront(log: seq<Msg>)
    requires Ordered(log) && log != []
    ensures Ordered(log[..|log| - 1])
    ensures forall m :: m in log[..|log| - 1] && m.call.g == log[|log| - 1].call.g ==> m.call.k < log[|log| - 1].call.k
  {
    var init := log[..|log| - 1];
    assert forall i :: 0 <= i < |init| ==> init[i] == log[i];
  }

  lemma OrderedAppend(log: seq<Msg>, m: Msg)
    requires Ordered(log)
    requires forall n :: n in log && n.call.g == m.call.g ==> n.call.k < m.call.k
    ensures Ordered(log + [m])
  {
    assert forall i :: 0 <= i < |log| ==> log[i] in log;
  }

  lemma {:induction false} SelectOrdered(log: seq<Msg>, cache: Cache)
    requires Ordered(log)
    ensures Ordered(Select(log, cache))
  {
    if log != [] {
      var init, last := log[..|log| - 1], log[|log| - 1];
      OrderedFront(log);
      SelectOrdered(init, cache);
      SelectElements(init, cache);
      hide Ordered, CacheOf;
      OrderedAppend(Select(init, cache), last);
      assert Select(init, cache) + [] == Select(init, cache);
    }
  }

  /** In a log without repetition, an event is in the window iff fewer than `max` newer ones of its cache are. */
  lemma WindowHolds(log: seq<Msg>, i: nat, n: nat, cache: Cache, max: nat)
    requires Ordered(log) && i < n <= |log| && CacheOf(log[i].evt.typ) == cache
    ensures log[i] in LastN(Select(log[..n], cache), max) <==> |Select(log[i + 1..n], cache)| < max
  {
    var older, newer := Select(log[..i], cache), Select(log[i + 1..n], cache);
    assert log[..n] == log[..i] + [log[i]] + log[i + 1..n];
    SelectConcat(log[..i] + [log[i]], log[i + 1..n], cache);
    SelectConcat(log[..i], [log[i]], cache);
    assert [log[i]][..0] == [];
    SelectElements(log[i + 1..n], cache);
    assert log[i] !in log[i + 1..n];
    LastNHolds(older, log[i], newer, max);
  }

  lemma {:induction false} KeptOrdered(attempts: seq<Attempt>)
    requires OrderedAttempts(attempts)
    ensures Ordered(Kept(attempts))
    ensures forall m :: m in Kept(attempts) ==> exists i :: 0 <= i < |attempts| && attempts[i].m == m
  {
    if attempts != [] {
      var init, last := attempts[..|attempts| - 1], attempts[|attempts| - 1];
      assert forall i :: 0 <= i < |init| ==> init[i] == attempts[i];
      KeptOrdered(init);
      forall i | 0 <= i < |Kept(init)| && Kept(init)[i].call.g == last.m.call.g
        ensures Kept(init)[i].call.k < last.m.call.k
      {
        assert Kept(init)[i] in Kept(init);
      }
    }
  }

  function Occurrences(msgs: seq<Msg>, call: Call): nat
  {
    if msgs == [] then 0
    else Occurrences(msgs[..|msgs| - 1], call) + (if msgs[|msgs| - 1].call == call then 1 else 0)
  }

  lemma {:induction false} OrderedOccurrences(msgs: seq<Msg>, call: Call)
    requires Ordered(msgs)
    ensures Occurrences(msgs, call) <= 1
    ensures Occurrences(msgs, call) == 1 <==> exists i :: 0 <= i < |msgs| && msgs[i].call == call
  {
    if msgs != [] {
      var init := msgs[..|msgs| - 1];
      assert forall i :: 0 <= i < |init| ==> init[i] == msgs[i];
      OrderedOccurrences(init, call);
    }
  }

  function Drops(attempts: seq<Attempt>): nat
  {
    if attempts == [] then 0
    else Drops(attempts[..|attempts| - 1]) + (if attempts[|attempts| - 1].ok then 0 else 1)
  }

  lemma {:induction false} KeptPlusDrops(attempts: seq<Attempt>)
    ensures |Kept(attempts)| + Drops(attempts) == |attempts|
  {
    if attempts != [] {
      KeptPlusDrops(attempts[..|attempts| - 1]);
    }
  }

  // ---- by event type ---------------------------------------------------------------------------

  /** The appends of the given types, in lock order. */
  function Only(log: seq<Msg>, types: set<EventType>): seq<Msg>
  {
    if log == [] then []
    else
      var last := log[|log| - 1];
      Only(log[..|log| - 1], types) + (if last.evt.typ in types then [last] else [])
  }

  /** The appends of any other type, in lock order. */
  function Except(log: seq<Msg>, types: set<EventType>): seq<Msg>
  {
    if log == [] then []
    else
      var last := log[|log| - 1];
      Except(log[..|log| - 1], types) + (if last.evt.typ in types then [] else [last])
  }

  lemma {:induction false} SelectedByType(log: seq<Msg>)
    ensures Select(log, History) == Except(log, {StateSnapshot, HeartbeatSent, HeartbeatReceived})
    ensures Select(log, Batches) == Only(log, {HeartbeatSent, HeartbeatReceived})
  {
    if log != [] {
      SelectedByType(log[..|log| - 1]);
      CacheByType(log[|log| - 1].evt.typ);
      hide CacheOf;
    }
  }

  lemma CacheByType(typ: EventType)
    ensures CacheOf(typ) == History <==> typ !in {StateSnapshot, HeartbeatSent, HeartbeatReceived}
    ensures CacheOf(typ) == Batches <==> typ in {HeartbeatSent, HeartbeatReceived}
  {
  }

  // ---- theorems --------------------------------------------------------------------------------

  /**
   No run ever sends on a closed channel or closes one twice: whatever channel a delivery or an unsubscribe
   call is about to touch is open.
   */
  lemma NoPanic(states: seq<Sys>, steps: seq<Step>)
    requires IsRun(states, steps)
    ensures forall i :: 0 <= i < |states| ==> !states[i].panicked && TouchesOnlyOpen(states[i])
  {
    HubSteps.RunKept(states, steps);
    hide IsRun, Inv, TouchesOnlyOpen;
    forall i | 0 <= i < |states|
      ensures !states[i].panicked && TouchesOnlyOpen(states[i])
    {
      AllOpen(states[i]);
    }
  }

  /** Every send and every close that can come next meets an open channel. */
  ghost predicate TouchesOnlyOpen(s: Sys)
  {
    && (forall g, c :: Enabled(s, Send(g, c)) ==> c in s.chans && !s.chans[c].closed)
    && (forall u :: Enabled(s, Close(u)) ==> s.closers[u].c in s.chans && !s.chans[s.closers[u].c].closed)
  }

  lemma AllOpen(s: Sys)
    requires Inv(s)
    ensures !s.panicked && TouchesOnlyOpen(s)
  {
    assert !s.panicked;
    hide Inv;
    forall g, c | Enabled(s, Send(g, c))
      ensures c in s.chans && !s.chans[c].closed
    {
      SendsOnOpen(s, g, c);
    }
    forall u | Enabled(s, Close(u))
      ensures s.closers[u].c in s.chans && !s.chans[s.closers[u].c].closed
    {
      ClosesOpen(s, u);
    }
  }

  lemma SendsOnOpen(s: Sys, g: nat, c: nat)
    requires Inv(s) && Enabled(s, Send(g, c))
    ensures c in s.chans && !s.chans[c].closed
  {
    hide LockInv, ChansOk, AttemptInv, LogInv, CacheInv, DecisionInv, HandoverInv, HandlerInv, EdgeInv, MintInv;
  }

  lemma ClosesOpen(s: Sys, u: nat)
    requires Inv(s) && Enabled(s, Close(u))
    ensures s.closers[u].c in s.chans && !s.chans[s.closers[u].c].closed
  {
    hide LockInv, ChansOk, CasterInv, AttemptInv, LogInv, CacheInv, DecisionInv, HandoverInv, HandlerInv, EdgeInv, MintInv;
  }

  /** Where a run can get to. */
  ghost predicate Reachable(s: Sys)
  {
    exists states, steps :: IsRun(states, steps) && states[|states| - 1] == s
  }

  lemma ReachableInv(s: Sys)
    requires Reachable(s)
    ensures Inv(s)
  {
    var states, steps :| IsRun(states, steps) && states[|states| - 1] == s;
    HubSteps.RunKept(states, steps);
  }

  /** When a broadcast returns, its event has been appended. */
  lemma FinishedIsLogged(s: Sys, call: Call)
    requires Reachable(s) && HasReturned(s.casters, call)
    ensures exists i :: 0 <= i < |s.log| && s.log[i].call == call
  {
    ReachableInv(s);
    assert InLog(s.casters, call);
    assert Logged(s.log, call, |s.log|);
  }

  /** What a subscribed client's channel missed was delivered, and so appended, before the client joined. */
  lemma MissedIsOld(s: Sys, c: nat, i: nat)
    requires Inv(s) && c in s.clients && i < |s.log| && HasReturned(s.casters, s.log[i].call)
    ensures c in s.handlers && c in s.chans && s.log[i].call in s.decisions
    ensures !HasAttempt(s.chans[c].attempts, s.log[i].call) ==>
              s.decisions[s.log[i].call].time < s.handlers[c].joinedTime && i < s.handlers[c].joinedAt
  {
    hide LockInv, ChansOk, CacheInv, HandlerInv, EdgeInv, MintInv;
    var call := s.log[i].call;
    assert Decided(s.casters, call) && !Pending(s.casters, call, c);
    assert Logged(s.log, call, s.decisions[call].logged);
    var j :| 0 <= j < s.decisions[call].logged && j < |s.log| && s.log[j].call == call;
    assert i == j;
  }

  /**
   No gap at the handover. Once a lifecycle event's broadcast is over, a client that is subscribed and
   has its copy of the history: has had the event tried on its channel if it was appended after the
   copy; else finds it in the copy exactly when fewer than 50 lifecycle events followed it there; and
   if its channel was never tried, the event had been delivered before the client subscribed. So an
   event the client got in neither way is one that 50 newer ones had pushed out by the copy.
   */
  lemma NoGap(s: Sys, c: nat, i: nat)
    requires Reachable(s)
    requires c in s.clients && c in s.handlers && HasCopy(s.handlers[c].pc)
    requires i < |s.log| && HasReturned(s.casters, s.log[i].call)
    requires s.log[i].evt.typ !in {StateSnapshot, HeartbeatSent, HeartbeatReceived}
    ensures c in s.chans && s.log[i].call in s.decisions
    ensures s.handlers[c].copiedAt <= i ==> HasAttempt(s.chans[c].attempts, s.log[i].call)
    ensures s.handlers[c].copiedAt <= |s.log|
    ensures i < s.handlers[c].copiedAt ==>
              (s.log[i] in s.handlers[c].replay <==>
                |Except(s.log[i + 1..s.handlers[c].copiedAt], {StateSnapshot, HeartbeatSent, HeartbeatReceived})| < 50)
    ensures !HasAttempt(s.chans[c].attempts, s.log[i].call) ==>
              s.decisions[s.log[i].call].time < s.handlers[c].joinedTime && i < s.handlers[c].copiedAt
    ensures HasAttempt(s.chans[c].attempts, s.log[i].call) || s.log[i] in s.handlers[c].replay ||
            (i < s.handlers[c].copiedAt &&
             |Except(s.log[i + 1..s.handlers[c].copiedAt], {StateSnapshot, HeartbeatSent, HeartbeatReceived})| >= 50)
  {
    ReachableInv(s);
    MissedIsOld(s, c, i);
    hide LockInv, ChanInv, ChansOk, CasterInv, AttemptInv, DecisionInv, HandoverInv, EdgeInv, MintInv, CacheInv;
    assert HandlerOk(s.handlers[c], s.log);
    if i < s.handlers[c].copiedAt {
      CacheByType(s.log[i].evt.typ);
      WindowHolds(s.log, i, s.handlers[c].copiedAt, History, MAX_HISTORY);
      SelectedByType(s.log[i + 1..s.handlers[c].copiedAt]);
      hide Select, Except, CacheOf;
    }
  }

  /** The same for coalesced heartbeat batches, which are copied later and kept ten at a time. */
  lemma NoGapInBatches(s: Sys, c: nat, i: nat)
    requires Reachable(s)
    requires c in s.clients && c in s.handlers && HasBatches(s.handlers[c].pc)
    requires i < |s.log| && HasReturned(s.casters, s.log[i].call)
    requires s.log[i].evt.typ in {HeartbeatSent, HeartbeatReceived}
    ensures c in s.chans && s.log[i].call in s.decisions
    ensures s.handlers[c].batchesAt <= i ==> HasAttempt(s.chans[c].attempts, s.log[i].call)
    ensures s.handlers[c].batchesAt <= |s.log|
    ensures i < s.handlers[c].batchesAt ==>
              (s.log[i] in s.handlers[c].replayBatches <==>
                |Only(s.log[i + 1..s.handlers[c].batchesAt], {HeartbeatSent, HeartbeatReceived})| < 10)
    ensures !HasAttempt(s.chans[c].attempts, s.log[i].call) ==>
              s.decisions[s.log[i].call].time < s.handlers[c].joinedTime && i < s.handlers[c].batchesAt
    ensures HasAttempt(s.chans[c].attempts, s.log[i].call) || s.log[i] in s.handlers[c].replayBatches ||
            (i < s.handlers[c].batchesAt &&
             |Only(s.log[i + 1..s.handlers[c].batchesAt], {HeartbeatSent, HeartbeatReceived})| >= 10)
  {
    ReachableInv(s);
    MissedIsOld(s, c, i);
    hide LockInv, ChanInv, ChansOk, CasterInv, AttemptInv, DecisionInv, HandoverInv, EdgeInv, MintInv, CacheInv;
    assert HandlerOk(s.handlers[c], s.log);
    if i < s.handlers[c].batchesAt {
      CacheByType(s.log[i].evt.typ);
      WindowHolds(s.log, i, s.handlers[c].batchesAt, Batches, MAX_HB_HISTORY);
      SelectedByType(s.log[i + 1..s.handlers[c].batchesAt]);
      hide Select, Only, CacheOf;
    }
  }

  /**
   Live delivery: everything tried was enqueued or dropped, dropped exactly when the channel held 64;
   what was enqueued has been received or is still buffered, in order; one goroutine's events keep its
   order; no call is tried twice.
   */
  lemma LiveDelivery(s: Sys, c: nat)
    requires Reachable(s) && c in s.chans
    ensures var ch := s.chans[c];
      && |ch.buf| <= 64
      && ch.received + ch.buf == Kept(ch.attempts)
      && |ch.received| + |ch.buf| + Drops(ch.attempts) == |ch.attempts|
      && (forall i :: 0 <= i < |ch.attempts| ==> (!ch.attempts[i].ok <==> ch.attempts[i].held == 64))
      && OrderedAttempts(ch.attempts)
      && Ordered(ch.received)
  {
    ReachableInv(s);
    hide LockInv, ChanInv, CasterInv, AttemptInv, LogInv, CacheInv, DecisionInv, HandoverInv, HandlerInv, EdgeInv, MintInv;
    var ch := s.chans[c];
    assert ChanOk(ch);
    KeptOrdered(ch.attempts);
    KeptPlusDrops(ch.attempts);
    assert forall i :: 0 <= i < |ch.received| ==> ch.received[i] == Kept(ch.attempts)[i];
  }

  /** A call whose broadcast is over was tried on a channel exactly when it settled on that client. */
  lemma AttemptedExactly(s: Sys, c: nat, call: Call)
    requires Reachable(s) && c in s.chans && HasReturned(s.casters, call)
    ensures call in s.decisions
    ensures HasAttempt(s.chans[c].attempts, call) <==> c in s.decisions[call].clients
  {
    ReachableInv(s);
    hide LockInv, ChanInv, LogInv, CacheInv, DecisionInv, HandoverInv, HandlerInv, EdgeInv, MintInv, ChansOk;
    assert Decided(s.casters, call) && !Pending(s.casters, call, c);
  }

  /** A client sees a broadcast at most twice: once replayed, once live. */
  lemma AtMostTwice(s: Sys, c: nat, call: Call)
    requires Reachable(s) && c in s.chans && c in s.handlers && HasBatches(s.handlers[c].pc)
    ensures Occurrences(s.handlers[c].replay, call) + Occurrences(s.handlers[c].replayBatches, call) <= 1
    ensures Occurrences(s.chans[c].received, call) <= 1
  {
    LiveDelivery(s, c);
    ReachableInv(s);
    hide LockInv, ChanInv, ChansOk, CasterInv, AttemptInv, CacheInv, DecisionInv, HandoverInv, EdgeInv, MintInv;
    var h := s.handlers[c];
    assert HandlerOk(h, s.log);
    OrderedOccurrences(s.chans[c].received, call);
    ReplayedOnce(s.log, h.copiedAt, h.batchesAt, call);
  }

  lemma ReplayedOnce(log: seq<Msg>, n: nat, n': nat, call: Call)
    requires Ordered(log) && n <= |log| && n' <= |log|
    ensures Occurrences(LastN(Select(log[..n], History), MAX_HISTORY), call) +
            Occurrences(LastN(Select(log[..n'], Batches), MAX_HB_HISTORY), call) <= 1
  {
    var a, b := LastN(Select(log[..n], History), MAX_HISTORY), LastN(Select(log[..n'], Batches), MAX_HB_HISTORY);
    WindowOrdered(log, n, History, MAX_HISTORY);
    WindowOrdered(log, n', Batches, MAX_HB_HISTORY);
    OrderedOccurrences(a, call);
    OrderedOccurrences(b, call);
    hide LastN, Select, Occurrences;
    if i, j :| 0 <= i < |a| && a[i].call == call && 0 <= j < |b| && b[j].call == call {
      assert false;
    }
  }

  lemma WindowOrdered(log: seq<Msg>, n: nat, cache: Cache, max: nat)
    requires Ordered(log) && n <= |log|
    ensures Ordered(LastN(Select(log[..n], cache), max))
    ensures forall m :: m in LastN(Select(log[..n], cache), max) ==> m in log && CacheOf(m.evt.typ) == cache
  {
    var all := Select(log[..n], cache);
    assert forall i :: 0 <= i < n ==> log[..n][i] == log[i];
    SelectOrdered(log[..n], cache);
    SelectElements(log[..n], cache);
    forall m | m in LastN(all, max)
      ensures m in log && CacheOf(m.evt.typ) == cache
    {
      assert m in all;
      assert m in log[..n];
    }
  }

  /** Two events of different calls that got their ID from the hub have different IDs, whatever the clock said. */
  lemma MintedIDsDiffer(s: Sys, i: nat, j: nat)
    requires Reachable(s) && i < j < |s.log|
    requires s.log[i].mint.Minted? && s.log[j].mint.Minted?
    ensures s.log[i].evt.id != s.log[j].evt.id
  {
    ReachableInv(s);
    hide LockInv, ChanInv, ChansOk, CasterInv, AttemptInv, CacheInv, DecisionInv, HandoverInv, HandlerInv, EdgeInv,
      MintOk;
    IDsDiffer(s.minted, s.log[i], s.log[j]);
  }

  lemma IDsDiffer(minted: seq<Call>, a: Msg, b: Msg)
    requires MintOk(minted, a) && MintOk(minted, b) && a.mint.Minted? && b.mint.Minted? && a.call != b.call
    ensures a.evt.id != b.evt.id
  {
    hide EventID;
    if a.evt.id == b.evt.id {
      EventIDInjective(a.mint.millis, a.mint.sequence, b.mint.millis, b.mint.sequence);
    }
  }

  /** Activate and deactivate decisions alternate, starting with activate; the last is activate iff somebody listens. */
  lemma EdgesAlternate(s: Sys)
    requires Reachable(s)
    ensures forall i :: 0 <= i < |s.edges| ==> s.edges[i] == (i % 2 == 0)
    ensures s.clients != {} <==> s.edges != [] && s.edges[|s.edges| - 1]
  {
    ReachableInv(s);
    LastEdge(s.edges, s.clients);
    hide LockInv, ChanInv, ChansOk, CasterInv, AttemptInv, LogInv, CacheInv, DecisionInv, HandoverInv, HandlerInv, MintInv;
  }

  lemma LastEdge(edges: seq<bool>, clients: set<nat>)
    ensures EdgeInv(edges, clients) ==> (clients != {} <==> edges != [] && edges[|edges| - 1])
  {
  }

  /**
   The history is the newest 50 appends of all types but state snapshots and heartbeat batches, the batch
   history the newest 10 batches, in lock order; so neither ever holds a state snapshot.
   */
  lemma HistoryIsWindow(s: Sys)
    requires Reachable(s)
    ensures s.history == LastN(Except(s.log, {StateSnapshot, HeartbeatSent, HeartbeatReceived}), 50)
    ensures s.batches == LastN(Only(s.log, {HeartbeatSent, HeartbeatReceived}), 10)
    ensures forall m :: m in s.history || m in s.batches ==> m.evt.typ != StateSnapshot
  {
    ReachableInv(s);
    SelectedByType(s.log);
    assert CacheInv(s.log, s.history, s.batches);
    hide Inv, Only, Except, Reachable;
    SelectElements(s.log, History);
    SelectElements(s.log, Batches);
    hide Select;
  }

  /** Nor does a replay. */
  lemma NoSnapshotReplayed(s: Sys, c: nat)
    requires Reachable(s) && c in s.handlers && HasBatches(s.handlers[c].pc)
    ensures forall m :: m in s.handlers[c].replay ==> m.evt.typ !in {StateSnapshot, HeartbeatSent, HeartbeatReceived}
    ensures forall m :: m in s.handlers[c].replayBatches ==> m.evt.typ in {HeartbeatSent, HeartbeatReceived}
  {
    ReachableInv(s);
    var h := s.handlers[c];
    assert HandlerOk(h, s.log) && Ordered(s.log);
    hide Inv, Reachable;
    WindowOrdered(s.log, h.copiedAt, History, MAX_HISTORY);
    WindowOrdered(s.log, h.batchesAt, Batches, MAX_HB_HISTORY);
    hide LastN, Select;
  }
}
