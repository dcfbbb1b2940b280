/**
 From the hub to the browser: what a subscribed client reads off its stream, in every state of every run
 of the hub.
 */
module ClientStream {
  import opened Basics
  import opened Events
  import opened HubMachine
  import opened HubInvariant
  import opened Sse
  import Decimal
  import HubSteps
  import HubTheorems

  // ---- IDs made by the hub ---------------------------------------------------------------------

  predicate CleanID(id: string)
  {
    OneLine(id) && NUL !in id
  }

  /** An ID the hub makes has no line break and no NUL, whatever the clock reads. */
  lemma EventIDIsClean(millis: int, sequence: nat)
    ensures CleanID(EventID(millis, sequence))
  {
    var a, b := Decimal.PrintInt(millis), Decimal.Print(sequence);
    PrintIntIsClean(millis);
    PrintIsClean(sequence);
    hide Decimal.Print, Decimal.PrintInt, OneLine;
    CleanJoin("evt-", a);
    CleanJoin("evt-" + a, "-");
    CleanJoin("evt-" + a + "-", b);
    LiteralsAreClean();
  }

  lemma LiteralsAreClean()
    ensures CleanID("evt-") && CleanID("-")
  {
  }

  lemma CleanJoin(a: string, b: string)
    ensures CleanID(a + b) <==> CleanID(a) && CleanID(b)
  {
    assert forall x :: x in a + b <==> x in a || x in b;
  }

  lemma PrintIsClean(n: nat)
    ensures CleanID(Decimal.Print(n))
  {
    var s := Decimal.Print(n);
    assert forall i :: 0 <= i < |s| ==> '0' <= s[i] <= '9';
    hide Decimal.Print;
  }

  lemma PrintIntIsClean(n: int)
    ensures CleanID(Decimal.PrintInt(n))
  {
    hide Decimal.Print;
    if n < 0 {
      PrintIsClean(-n);
      LiteralsAreClean();
      CleanJoin("-", Decimal.Print(-n));
    } else {
      PrintIsClean(n);
    }
  }

  // ---- channels carry what was logged ----------------------------------------------------------

  /** What is past its append, and what was tried on a channel, stands in the append log as it is. */
  ghost predicate MsgInv(casters: Casters, chans: Chans, log: seq<Msg>)
  {
    && (forall g :: g in casters && AfterAppend(casters[g].pc) ==> casters[g].pc.m in log)
    && (forall c, i :: c in chans && 0 <= i < |chans[c].attempts| ==> chans[c].attempts[i].m in log)
  }

  lemma CasterMoves(casters: Casters, chans: Chans, log: seq<Msg>, g: nat, cs: CasterState)
    requires MsgInv(casters, chans, log) && (AfterAppend(cs.pc) ==> cs.pc.m in log)
    ensures MsgInv(casters[g := cs], chans, log)
  {
  }

  lemma LogGrows(casters: Casters, chans: Chans, log: seq<Msg>, m: Msg)
    requires MsgInv(casters, chans, log)
    ensures MsgInv(casters, chans, log + [m]) && m in log + [m]
  {
    assert forall x :: x in log + [m] <==> x in log || x == m;
  }

  lemma ChanMoves(casters: Casters, chans: Chans, log: seq<Msg>, c: nat, ch: Chan)
    requires MsgInv(casters, chans, log) && forall i :: 0 <= i < |ch.attempts| ==> ch.attempts[i].m in log
    ensures MsgInv(casters, chans[c := ch], log)
  {
  }

  ghost predicate MsgOk(s: Sys)
  {
    MsgInv(s.casters, s.chans, s.log)
  }

  lemma AppendKept(s: Sys, g: nat)
    requires MsgOk(s) && Enabled(s, Append(g))
    ensures MsgOk(Apply(s, Append(g)))
  {
    hide MsgInv, Cached, Unlock;
    var m := CasterOf(s, g).pc.m;
    LogGrows(s.casters, s.chans, s.log, m);
    CasterMoves(s.casters, s.chans, s.log + [m], g, CasterState(CasterOf(s, g).k, Appended(m)));
  }

  lemma TryMoves(casters: Casters, chans: Chans, log: seq<Msg>, c: nat, m: Msg)
    requires MsgInv(casters, chans, log) && m in log && c in chans
    ensures MsgInv(casters, chans[c := TrySend(chans[c], m)], log)
  {
    hide Offered;
  }

  lemma SendKept(s: Sys, g: nat, c: nat)
    requires MsgOk(s) && Enabled(s, Send(g, c))
    ensures MsgOk(Apply(s, Send(g, c)))
  {
    hide MsgInv, TrySend;
    CarriedIsLogged(s.casters, s.chans, s.log, g);
    var cs := Apply(s, Send(g, c)).casters[g];
    TryMoves(s.casters, s.chans, s.log, c, s.casters[g].pc.m);
    CasterMoves(s.casters, Apply(s, Send(g, c)).chans, s.log, g, cs);
  }

  /** The other steps of a broadcasting goroutine carry the same message or none. */
  predicate Carries(st: Step)
  {
    st.Begin? || st.Stamp? || st.KeepID? || st.MintID? || st.LockForAppend? || st.LockForCheck? || st.Skip? ||
    st.SeeClients? || st.LockForDelivery? || st.EndDelivery?
  }

  lemma CarryKept(s: Sys, st: Step)
    requires MsgOk(s) && Enabled(s, st) && Carries(st)
    ensures MsgOk(Apply(s, st))
  {
    hide MsgInv, EventID, Lock, RLock, RUnlock, CanLock, CanRLock;
    var s', g := Apply(s, st), st.g;
    var cs := s'.casters[g];
    assert s'.casters == s.casters[g := cs] && s'.log == s.log && s'.chans == s.chans;
    assert AfterAppend(cs.pc) ==> g in s.casters && AfterAppend(s.casters[g].pc) && cs.pc.m == s.casters[g].pc.m;
    hide Apply, Enabled;
    CarriedIsLogged(s.casters, s.chans, s.log, g);
    CasterMoves(s.casters, s.chans, s.log, g, cs);
  }

  lemma CarriedIsLogged(casters: Casters, chans: Chans, log: seq<Msg>, g: nat)
    requires MsgInv(casters, chans, log)
    ensures g in casters && AfterAppend(casters[g].pc) ==> casters[g].pc.m in log
  {
  }

  /** Subscribing, receiving and closing try nothing. */
  lemma ChannelKept(s: Sys, st: Step)
    requires MsgOk(s) && Enabled(s, st) && (st.Register? || st.Receive? || st.Close?)
    ensures MsgOk(Apply(s, st))
  {
    var s', c := Apply(s, st), if st.Close? then s.closers[st.u].c else st.c;
    var ch := s'.chans[c];
    assert s'.casters == s.casters && s'.log == s.log && s'.chans == s.chans[c := ch];
    assert ch.attempts == [] || (c in s.chans && ch.attempts == s.chans[c].attempts);
    hide Apply, Enabled;
    ChanMoves(s.casters, s.chans, s.log, c, ch);
  }

  lemma QuietKept(s: Sys, st: Step)
    requires MsgOk(s) && Enabled(s, st)
    requires !Carries(st) && !st.Append? && !st.Send? && !st.Register? && !st.Receive? && !st.Close?
    ensures MsgOk(Apply(s, st))
  {
    hide MsgInv, Lock, RLock, RUnlock, Unlock, CanLock, CanRLock;
  }

  lemma StepKept(s: Sys, st: Step)
    requires MsgOk(s) && Enabled(s, st)
    ensures MsgOk(Apply(s, st))
  {
    hide MsgOk, Apply, Enabled;
    match st {
      case Append(g) => AppendKept(s, g);
      case Send(g, c) => SendKept(s, g, c);
      case Register(_) => ChannelKept(s, st);
      case Receive(_) => ChannelKept(s, st);
      case Close(_) => ChannelKept(s, st);
      case _ =>
        if Carries(st) {
          CarryKept(s, st);
        } else {
          QuietKept(s, st);
        }
    }
  }

  lemma {:induction false} RunKept(states: seq<Sys>, steps: seq<Step>, n: nat)
    requires IsRun(states, steps) && n < |states|
    ensures MsgOk(states[n])
    decreases n
  {
    if n > 0 {
      hide MsgOk, Apply, Enabled;
      RunKept(states, steps, n - 1);
      StepKept(states[n - 1], steps[n - 1]);
    }
  }

  lemma ReachableMsgs(s: Sys)
    requires HubTheorems.Reachable(s)
    ensures MsgOk(s)
  {
    hide MsgOk;
    var states, steps :| IsRun(states, steps) && states[|states| - 1] == s;
    RunKept(states, steps, |states| - 1);
  }

  // ---- the client's stream ---------------------------------------------------------------------

  function EventsOf(msgs: seq<Msg>): seq<Event>
  {
    seq(|msgs|, i requires 0 <= i < |msgs| => msgs[i].evt)
  }

  /** What the handler of client `c` has written once it has passed on what it received. */
  function Written(s: Sys, c: nat, state: nat, sync: nat): seq<Event>
    requires c in s.handlers && c in s.chans
  {
    [Event("", StateSnapshot, "", 0, state)] + EventsOf(s.handlers[c].replay) + EventsOf(s.handlers[c].replayBatches) +
    [Event("", SyncComplete, "", 0, sync)] + EventsOf(s.chans[c].received)
  }

  lemma {:induction false} KeptWasTried(attempts: seq<Attempt>)
    ensures forall m :: m in Kept(attempts) ==> exists i :: 0 <= i < |attempts| && attempts[i].m == m
    ensures forall i :: 0 <= i < |attempts| && attempts[i].ok ==> attempts[i].m in Kept(attempts)
  {
    if attempts != [] {
      var init := attempts[..|attempts| - 1];
      KeptWasTried(init);
      assert forall i :: 0 <= i < |init| ==> init[i] == attempts[i];
    }
  }

  /** All that a client is sent from the hub stands in the append log as it is. */
  lemma SentWasLogged(s: Sys, c: nat)
    requires HubTheorems.Reachable(s) && c in s.chans && c in s.handlers && HasBatches(s.handlers[c].pc)
    ensures forall m :: m in s.handlers[c].replay || m in s.handlers[c].replayBatches || m in s.chans[c].received || m in s.chans[c].buf ==>
              m in s.log
  {
    ReachableMsgs(s);
    HubTheorems.ReachableInv(s);
    HubTheorems.LiveDelivery(s, c);
    var h, ch := s.handlers[c], s.chans[c];
    assert HandlerOk(h, s.log) && Ordered(s.log);
    hide Inv, HubTheorems.Reachable;
    HubTheorems.WindowOrdered(s.log, h.copiedAt, History, MAX_HISTORY);
    HubTheorems.WindowOrdered(s.log, h.batchesAt, Batches, MAX_HB_HISTORY);
    KeptWasTried(ch.attempts);
    hide LastN, Select, Kept;
    forall m | m in ch.received || m in ch.buf
      ensures m in s.log
    {
      assert m in ch.received + ch.buf;
    }
  }

  /** JSON has no raw line break, and IDs that callers bring along are clean. */
  ghost predicate CleanSources(log: seq<Msg>, marshal: Event -> Option<string>)
  {
    && (forall e: Event :: marshal(e).Some? ==> OneLine(marshal(e).value))
    && (forall m :: m in log && m.mint.Preset? ==> CleanID(m.evt.id))
  }

  lemma LoggedIsClean(s: Sys, m: Msg, marshal: Event -> Option<string>)
    requires HubTheorems.Reachable(s) && CleanSources(s.log, marshal) && m in s.log
    ensures CleanID(m.evt.id)
  {
    HubTheorems.ReachableInv(s);
    hide LockInv, ChanInv, ChansOk, CasterInv, AttemptInv, LogInv, CacheInv, DecisionInv, HandoverInv, HandlerInv, EdgeInv,
      CleanID, HubTheorems.Reachable, EventID;
    assert MintOk(s.minted, m);
    if m.mint.Minted? {
      EventIDIsClean(m.mint.millis, m.mint.sequence);
    }
  }

  lemma WrittenIsClean(s: Sys, c: nat, state: nat, sync: nat, marshal: Event -> Option<string>)
    requires HubTheorems.Reachable(s) && CleanSources(s.log, marshal)
    requires c in s.chans && c in s.handlers && HasBatches(s.handlers[c].pc)
    ensures forall i :: 0 <= i < |Written(s, c, state, sync)| ==> CleanID(Written(s, c, state, sync)[i].id)
  {
    SentWasLogged(s, c);
    assert CleanID("");
    hide CleanID, HubTheorems.Reachable, CleanSources;
    var a, b, d := s.handlers[c].replay, s.handlers[c].replayBatches, s.chans[c].received;
    forall e | e in EventsOf(a) || e in EventsOf(b) || e in EventsOf(d)
      ensures CleanID(e.id)
    {
      var m :| (m in a || m in b || m in d) && m.evt == e;
      LoggedIsClean(s, m, marshal);
    }
    hide EventsOf;
    forall e | e in Written(s, c, state, sync)
      ensures CleanID(e.id)
    {
      assert e.id == "" || e in EventsOf(a) || e in EventsOf(b) || e in EventsOf(d);
    }
  }

  /** The text that is on the client's connection. */
  function TextTo(s: Sys, c: nat, state: nat, sync: nat, marshal: Event -> Option<string>): string
    requires c in s.handlers && c in s.chans
  {
    Frames(ItemsOf(Written(s, c, state, sync), marshal))
  }

  /**
   End to end: at every moment of every run, a client that reads its stream by the standard gets one
   message for every event of the state, both replays, the sync mark and all it received that marshals,
   in that order; each decodes to the type that was broadcast, carries its JSON, and has as last event ID
   the newest one written by then.
   */
  lemma ClientReadsBack(s: Sys, c: nat, state: nat, sync: nat, marshal: Event -> Option<string>)
    requires HubTheorems.Reachable(s) && CleanSources(s.log, marshal)
    requires c in s.chans && c in s.handlers && HasBatches(s.handlers[c].pc)
    ensures var read, kept := Parse(TextTo(s, c, state, sync, marshal)), Marshalled(Written(s, c, state, sync), marshal);
      |read| == |kept| &&
      forall k :: 0 <= k < |kept| ==>
        && TypeOf(read[k].typ) == Some(kept[k].typ)
        && marshal(kept[k]) == Some(read[k].data)
        && read[k].lastEventID == NewestEventID(kept[..k + 1])
  {
    WrittenIsClean(s, c, state, sync, marshal);
    hide HubTheorems.Reachable, Written, Parse, Frames, OneLine, ItemsOf, Marshalled, TypeOf, NewestEventID;
    var w := Written(s, c, state, sync);
    forall i | 0 <= i < |w|
      ensures OneLine(w[i].id) && NUL !in w[i].id
    {
      assert CleanID(w[i].id);
    }
    StreamReadsEvents(w, marshal);
  }

  /** One of the messages is the event. */
  ghost predicate Reads(messages: seq<Message>, e: Event, marshal: Event -> Option<string>)
  {
    exists k :: 0 <= k < |messages| && TypeOf(messages[k].typ) == Some(e.typ) && marshal(e) == Some(messages[k].data)
  }

  lemma {:induction false} MarshalledHas(events: seq<Event>, marshal: Event -> Option<string>, e: Event)
    requires e in events && marshal(e).Some?
    ensures e in Marshalled(events, marshal)
  {
    if e != events[0] {
      assert e in events[1..];
      MarshalledHas(events[1..], marshal, e);
    }
  }

  lemma WrittenIsRead(s: Sys, c: nat, state: nat, sync: nat, marshal: Event -> Option<string>, m: Msg)
    requires HubTheorems.Reachable(s) && CleanSources(s.log, marshal)
    requires c in s.chans && c in s.handlers && HasBatches(s.handlers[c].pc)
    requires (m in s.handlers[c].replay || m in s.chans[c].received) && marshal(m.evt).Some?
    ensures Reads(Parse(TextTo(s, c, state, sync, marshal)), m.evt, marshal)
  {
    ClientReadsBack(s, c, state, sync, marshal);
    WrittenHas(s, c, state, sync, m);
    hide HubTheorems.Reachable, CleanSources, Written, TextTo, Parse, TypeOf, Marshalled, NewestEventID;
    var w := Written(s, c, state, sync);
    MarshalledHas(w, marshal, m.evt);
    var k :| 0 <= k < |Marshalled(w, marshal)| && Marshalled(w, marshal)[k] == m.evt;
  }

  lemma WrittenHas(s: Sys, c: nat, state: nat, sync: nat, m: Msg)
    requires c in s.chans && c in s.handlers && (m in s.handlers[c].replay || m in s.chans[c].received)
    ensures m.evt in Written(s, c, state, sync)
  {
    EventsHas(s.handlers[c].replay, m);
    EventsHas(s.chans[c].received, m);
    hide EventsOf;
  }

  lemma EventsHas(msgs: seq<Msg>, m: Msg)
    ensures m in msgs ==> m.evt in EventsOf(msgs)
  {
    if m in msgs {
      var i :| 0 <= i < |msgs| && msgs[i] == m;
      assert EventsOf(msgs)[i] == m.evt;
    }
  }

  ghost predicate Dropped(attempts: seq<Attempt>, call: Call)
  {
    exists i :: 0 <= i < |attempts| && attempts[i].m.call == call && !attempts[i].ok && attempts[i].held == 64
  }

  /** A broadcast that was tried on the channel was received, is waiting, or was dropped. */
  lemma TriedOrDropped(s: Sys, c: nat, i: nat)
    requires HubTheorems.Reachable(s) && c in s.chans && i < |s.log| && HasAttempt(s.chans[c].attempts, s.log[i].call)
    ensures s.log[i] in s.chans[c].received || s.log[i] in s.chans[c].buf || Dropped(s.chans[c].attempts, s.log[i].call)
  {
    ReachableMsgs(s);
    HubTheorems.ReachableInv(s);
    HubTheorems.LiveDelivery(s, c);
    assert Ordered(s.log);
    hide Inv, HubTheorems.Reachable, Kept;
    var ch := s.chans[c];
    KeptWasTried(ch.attempts);
    var x :| 0 <= x < |ch.attempts| && ch.attempts[x].m.call == s.log[i].call;
    if ch.attempts[x].ok {
      assert ch.attempts[x].m in s.log;
      OneEntry(s.log, ch.attempts[x].m, i);
      assert s.log[i] in ch.received + ch.buf;
    }
  }

  lemma OneEntry(log: seq<Msg>, m: Msg, i: nat)
    requires Ordered(log) && m in log && i < |log| && m.call == log[i].call
    ensures m == log[i]
  {
  }

  /**
   No lifecycle event is lost on its way to the browser for any other reason than these: once its
   broadcast is over, a subscribed client past its replay has read it, or it waits in the client's
   channel, or it was dropped there because 64 events were waiting, or 50 newer ones had pushed it out of
   the history before the client copied it.
   */
  lemma NothingLost(s: Sys, c: nat, i: nat, state: nat, sync: nat, marshal: Event -> Option<string>)
    requires HubTheorems.Reachable(s) && CleanSources(s.log, marshal)
    requires c in s.clients && c in s.handlers && HasBatches(s.handlers[c].pc)
    requires i < |s.log| && HasReturned(s.casters, s.log[i].call)
    requires s.log[i].evt.typ !in {StateSnapshot, HeartbeatSent, HeartbeatReceived}
    requires marshal(s.log[i].evt).Some?
    ensures c in s.chans && s.handlers[c].copiedAt <= |s.log|
    ensures || Reads(Parse(TextTo(s, c, state, sync, marshal)), s.log[i].evt, marshal)
            || s.log[i] in s.chans[c].buf
            || Dropped(s.chans[c].attempts, s.log[i].call)
            || (i < s.handlers[c].copiedAt &&
                |HubTheorems.Except(s.log[i + 1..s.handlers[c].copiedAt], {StateSnapshot, HeartbeatSent, HeartbeatReceived})| >= 50)
  {
    HubTheorems.NoGap(s, c, i);
    hide HubTheorems.Reachable, CleanSources, TextTo, Parse, HubTheorems.Except, Reads, Dropped, HasAttempt;
    if HasAttempt(s.chans[c].attempts, s.log[i].call) {
      TriedOrDropped(s, c, i);
    }
    if s.log[i] in s.handlers[c].replay || s.log[i] in s.chans[c].received {
      WrittenIsRead(s, c, state, sync, marshal, s.log[i]);
    }
  }
}
