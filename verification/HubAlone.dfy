/**
 The broadcasts of the step-level hub that nobody disturbs: what they amount to is the contract of
 `HubObject.Hub.BroadcastDirect`. Two of them, one let in between the append and the delivery of the
 other, show that channels and history can differ in order.
 */
module HubAlone {
  import opened Basics
  import opened Events
  import opened HubMachine
  import opened HubInvariant
  import HubTheorems

  // ---- stretches of steps ----------------------------------------------------------------------

  ghost predicate Leads(s: Sys, steps: seq<Step>, s': Sys)
    decreases |steps|
  {
    if steps == [] then s == s'
    else Enabled(s, steps[0]) && Leads(Apply(s, steps[0]), steps[1..], s')
  }

  lemma {:induction false} LeadsConcat(s: Sys, a: seq<Step>, s': Sys, b: seq<Step>, s'': Sys)
    requires Leads(s, a, s') && Leads(s', b, s'')
    ensures Leads(s, a + b, s'')
    decreases |a|
  {
    hide Enabled, Apply;
    if a == [] {
      assert a + b == b;
    } else {
      assert (a + b)[1..] == a[1..] + b;
      LeadsConcat(Apply(s, a[0]), a[1..], s', b, s'');
    }
  }

  lemma LeadsChain(s: Sys, a: seq<Step>, s1: Sys, b: seq<Step>, s2: Sys, c: seq<Step>, s3: Sys, d: seq<Step>, s4: Sys)
    requires Leads(s, a, s1) && Leads(s1, b, s2) && Leads(s2, c, s3) && Leads(s3, d, s4)
    ensures Leads(s, a + b + c + d, s4)
  {
    hide Leads;
    LeadsConcat(s, a, s1, b, s2);
    LeadsConcat(s, a + b, s2, c, s3);
    LeadsConcat(s, a + b + c, s3, d, s4);
  }

  lemma OneStep(s: Sys, st: Step)
    requires Enabled(s, st)
    ensures Leads(s, [st], Apply(s, st))
  {
    hide Enabled, Apply;
    assert [st][1..] == [];
  }

  lemma AddStep(s: Sys, steps: seq<Step>, s': Sys, st: Step)
    requires Leads(s, steps, s') && Enabled(s', st)
    ensures Leads(s, steps + [st], Apply(s', st))
  {
    OneStep(s', st);
    hide Enabled, Apply, Leads;
    LeadsConcat(s, steps, s', [st], Apply(s', st));
  }

  /** What a stretch of steps leads to is reachable from whatever was. */
  lemma {:induction false} LeadsReaches(s: Sys, steps: seq<Step>, s': Sys)
    requires HubTheorems.Reachable(s) && Leads(s, steps, s')
    ensures HubTheorems.Reachable(s')
    decreases |steps|
  {
    hide Enabled, Apply;
    if steps != [] {
      var before, taken :| IsRun(before, taken) && before[|before| - 1] == s;
      var next := Apply(s, steps[0]);
      assert IsRun(before + [next], taken + [steps[0]]);
      assert (before + [next])[|before|] == next;
      LeadsReaches(next, steps[1..], s');
    }
  }

  // ---- a broadcast up to its append ------------------------------------------------------------

  /** The event as `broadcastDirect` records and sends it. */
  function Sent(s: Sys, g: nat, evt: Event, millis: int): Msg
  {
    if evt.id == "" then
      Msg(CallOf(s, g), evt.(id := EventID(millis, s.sequence + 1)), Minted(millis, s.sequence + 1))
    else Msg(CallOf(s, g), evt, Preset)
  }

  function NameSteps(g: nat, evt: Event, millis: int): seq<Step>
  {
    [Begin(g, evt)] + if evt.id == "" then [Stamp(g, millis), MintID(g)] else [KeepID(g)]
  }

  function Named(s: Sys, g: nat, evt: Event, millis: int): Sys
  {
    var drawn := if evt.id == "" then s.(sequence := s.sequence + 1, minted := s.minted + [CallOf(s, g)]) else s;
    SetCaster(drawn, g, Ready(Sent(s, g, evt, millis)))
  }

  lemma SetTwice(s: Sys, g: nat, a: CasterPc, b: CasterPc)
    ensures CasterOf(SetCaster(s, g, a), g) == CasterState(CasterOf(s, g).k, a)
    ensures SetCaster(SetCaster(s, g, a), g, b) == SetCaster(s, g, b)
  {
    var x, y := CasterState(CasterOf(s, g).k, a), CasterState(CasterOf(s, g).k, b);
    assert s.casters[g := x][g := y] == s.casters[g := y];
  }

  lemma StampsAlone(s: Sys, g: nat, evt: Event, millis: int)
    requires CasterOf(s, g).pc.Idle? && evt.id == ""
    ensures Leads(s, [Begin(g, evt), Stamp(g, millis)], SetCaster(s, g, Stamped(evt, millis)))
  {
    var s1 := Apply(s, Begin(g, evt));
    SetTwice(s, g, Called(evt), Stamped(evt, millis));
    OneStep(s, Begin(g, evt));
    AddStep(s, [Begin(g, evt)], s1, Stamp(g, millis));
    hide Leads, SetCaster, CasterOf;
    assert [Begin(g, evt)] + [Stamp(g, millis)] == [Begin(g, evt), Stamp(g, millis)];
  }

  lemma MintsAlone(s: Sys, g: nat, evt: Event, millis: int)
    requires CasterOf(s, g).pc == Stamped(evt, millis)
    ensures Leads(s, [MintID(g)],
                  SetCaster(s.(sequence := s.sequence + 1, minted := s.minted + [CallOf(s, g)]), g,
                            Ready(Msg(CallOf(s, g), evt.(id := EventID(millis, s.sequence + 1)), Minted(millis, s.sequence + 1)))))
  {
    hide EventID;
    OneStep(s, MintID(g));
    hide Leads;
  }

  lemma KeepsAlone(s: Sys, g: nat, evt: Event)
    requires CasterOf(s, g).pc.Idle? && evt.id != ""
    ensures Leads(s, [Begin(g, evt), KeepID(g)], SetCaster(s, g, Ready(Msg(CallOf(s, g), evt, Preset))))
  {
    var s1 := Apply(s, Begin(g, evt));
    SetTwice(s, g, Called(evt), Ready(Msg(CallOf(s, g), evt, Preset)));
    OneStep(s, Begin(g, evt));
    AddStep(s, [Begin(g, evt)], s1, KeepID(g));
    hide Leads, SetCaster;
    assert [Begin(g, evt)] + [KeepID(g)] == [Begin(g, evt), KeepID(g)];
  }

  lemma NamesAlone(s: Sys, g: nat, evt: Event, millis: int)
    requires CasterOf(s, g).pc.Idle?
    ensures Leads(s, NameSteps(g, evt, millis), Named(s, g, evt, millis))
  {
    hide EventID, Leads, Enabled, Apply;
    if evt.id == "" {
      var s2 := SetCaster(s, g, Stamped(evt, millis));
      StampsAlone(s, g, evt, millis);
      MintsAlone(s2, g, evt, millis);
      var drawn := s.(sequence := s.sequence + 1, minted := s.minted + [CallOf(s, g)]);
      SetTwice(drawn, g, Stamped(evt, millis), Named(s, g, evt, millis).casters[g].pc);
      LeadsConcat(s, [Begin(g, evt), Stamp(g, millis)], s2, [MintID(g)], Named(s, g, evt, millis));
      assert [Begin(g, evt), Stamp(g, millis)] + [MintID(g)] == NameSteps(g, evt, millis);
    } else {
      KeepsAlone(s, g, evt);
      assert [Begin(g, evt), KeepID(g)] == NameSteps(g, evt, millis);
    }
  }

  lemma RecordsAlone(s: Sys, g: nat, m: Msg)
    requires CasterOf(s, g).pc == Ready(m) && CanLock(s.mu)
    ensures Leads(s, [LockForAppend(g), Append(g)], SetCaster(Record(s, m), g, Appended(m)))
  {
    hide Cached;
    var s1 := Apply(s, LockForAppend(g));
    OneStep(s, LockForAppend(g));
    AddStep(s, [LockForAppend(g)], s1, Append(g));
    hide Leads;
    assert [LockForAppend(g)] + [Append(g)] == [LockForAppend(g), Append(g)];
    SetTwice(s, g, Appending(m), Appended(m));
    assert Unlock(Lock(s.mu, Caster(g))) == s.mu;
  }

  // ---- its delivery ----------------------------------------------------------------------------

  function Elements(order: seq<nat>): set<nat> { set c | c in order }

  ghost predicate Lists(order: seq<nat>, cs: set<nat>)
  {
    Elements(order) == cs && forall i, j :: 0 <= i < j < |order| ==> order[i] != order[j]
  }

  predicate Open(chans: Chans, cs: set<nat>)
  {
    forall c :: c in cs ==> c in chans && !chans[c].closed
  }

  function SentTo(chans: Chans, m: Msg, cs: set<nat>): Chans
  {
    map c | c in chans :: if c in cs then TrySend(chans[c], m) else chans[c]
  }

  function Sends(g: nat, order: seq<nat>): seq<Step>
  {
    seq(|order|, i requires 0 <= i < |order| => Send(g, order[i]))
  }

  lemma SentToOneMore(chans: Chans, m: Msg, c: nat, rest: set<nat>)
    requires c in chans && c !in rest
    ensures SentTo(chans[c := TrySend(chans[c], m)], m, rest) == SentTo(chans, m, {c} + rest)
  {
    hide TrySend;
  }

  lemma FirstOut(order: seq<nat>)
    requires order != [] && forall i, j :: 0 <= i < j < |order| ==> order[i] != order[j]
    ensures Elements(order) == {order[0]} + Elements(order[1..]) && order[0] !in Elements(order[1..])
    ensures Elements(order) - {order[0]} == Elements(order[1..])
  {
    assert order == [order[0]] + order[1..];
  }

  lemma SendAlone(s: Sys, g: nat, m: Msg, c: nat, rest: set<nat>)
    requires CasterOf(s, g).pc == Delivering(m, {c} + rest) && c !in rest && Open(s.chans, {c} + rest)
    ensures Leads(s, [Send(g, c)], SetCaster(s.(chans := s.chans[c := TrySend(s.chans[c], m)]), g, Delivering(m, rest)))
  {
    OneStep(s, Send(g, c));
    hide Leads, TrySend;
    assert {c} + rest - {c} == rest;
  }

  lemma NothingSent(s: Sys, g: nat, m: Msg)
    requires g in s.casters && s.casters[g].pc == Delivering(m, {})
    ensures SetCaster(s.(chans := SentTo(s.chans, m, {})), g, Delivering(m, {})) == s
  {
    hide TrySend;
    assert SentTo(s.chans, m, {}) == s.chans;
    assert s.casters[g := s.casters[g]] == s.casters;
  }

  /** The delivery loop, for any order in which the channels come up. */
  lemma {:induction false} SendsAlone(s: Sys, g: nat, m: Msg, order: seq<nat>)
    requires g in s.casters && s.casters[g].pc == Delivering(m, Elements(order)) && Lists(order, Elements(order))
    requires Open(s.chans, Elements(order))
    ensures Leads(s, Sends(g, order), SetCaster(s.(chans := SentTo(s.chans, m, Elements(order))), g, Delivering(m, {})))
    decreases |order|
  {
    if order == [] {
      NothingSent(s, g, m);
    } else {
      var c, rest := order[0], order[1..];
      FirstOut(order);
      SendAlone(s, g, m, c, Elements(rest));
      var s1 := SetCaster(s.(chans := s.chans[c := TrySend(s.chans[c], m)]), g, Delivering(m, Elements(rest)));
      SendsAlone(s1, g, m, rest);
      SentToOneMore(s.chans, m, c, Elements(rest));
      hide Leads, SentTo, TrySend, Elements, Enabled, Apply;
      var done := s.(chans := SentTo(s.chans, m, Elements(order)));
      SetTwice(done, g, Delivering(m, Elements(rest)), Delivering(m, {}));
      LeadsConcat(s, [Send(g, c)], s1, Sends(g, rest), SetCaster(done, g, Delivering(m, {})));
      assert [Send(g, c)] + Sends(g, rest) == Sends(g, order);
    }
  }

  function DeliverSteps(g: nat, order: seq<nat>): seq<Step>
  {
    if order == [] then [LockForCheck(g), Skip(g)]
    else [LockForCheck(g), SeeClients(g), LockForDelivery(g)] + Sends(g, order) + [EndDelivery(g)]
  }

  /** The call has settled on the clients of the moment, tried each once, and returned. */
  function Delivered(s: Sys, g: nat, m: Msg): Sys
  {
    Return(Decide(s.(chans := SentTo(s.chans, m, s.clients)), g), g)
  }

  lemma ReturnAfterSet(s: Sys, g: nat, pc: CasterPc)
    ensures Return(SetCaster(s, g, pc), g) == Return(s, g)
    ensures Decide(SetCaster(s, g, pc), g) == SetCaster(Decide(s, g), g, pc)
  {
    var k := CasterOf(s, g).k;
    assert s.casters[g := CasterState(k, pc)][g := CasterState(k + 1, Idle)] == s.casters[g := CasterState(k + 1, Idle)];
  }

  lemma SkipIs(s: Sys, g: nat, m: Msg)
    requires s.mu.readers == {}
    ensures DoSkip(SetCaster(s.(mu := RLock(s.mu, Caster(g))), g, Checking(m)), g) == Return(Decide(s, g), g)
  {
    assert RUnlock(RLock(s.mu, Caster(g)), Caster(g)) == s.mu;
    ReturnAfterSet(s, g, Checking(m));
    ReturnAfterSet(Decide(s, g), g, Checking(m));
    hide Return, Decide;
  }

  function Looking(s: Sys, g: nat, m: Msg): Sys
  {
    SetCaster(s.(mu := RLock(s.mu, Caster(g))), g, Checking(m))
  }

  lemma LooksAlone(s: Sys, g: nat, m: Msg)
    requires CasterOf(s, g).pc == Appended(m) && CanLock(s.mu)
    ensures Leads(s, [LockForCheck(g)], Looking(s, g, m))
    ensures s.clients == {} ==> Leads(Looking(s, g, m), [Skip(g)], DoSkip(Looking(s, g, m), g))
    ensures s.clients != {} ==> Leads(Looking(s, g, m), [SeeClients(g)], DoSeeClients(Looking(s, g, m), g))
  {
    OneStep(s, LockForCheck(g));
    if s.clients == {} {
      OneStep(Looking(s, g, m), Skip(g));
    } else {
      OneStep(Looking(s, g, m), SeeClients(g));
    }
    hide Leads, DoSkip, DoSeeClients;
  }

  lemma SkipsAlone(s: Sys, g: nat, m: Msg)
    requires CasterOf(s, g).pc == Appended(m) && CanLock(s.mu) && s.clients == {}
    ensures Leads(s, [LockForCheck(g), Skip(g)], Delivered(s, g, m))
  {
    LooksAlone(s, g, m);
    LeadsConcat(s, [LockForCheck(g)], Looking(s, g, m), [Skip(g)], DoSkip(Looking(s, g, m), g));
    SkipIs(s, g, m);
    hide Leads, Return, Decide, SetCaster, TrySend, DoSkip;
    assert [LockForCheck(g)] + [Skip(g)] == [LockForCheck(g), Skip(g)];
    assert SentTo(s.chans, m, {}) == s.chans;
  }

  lemma ChecksAlone(s: Sys, g: nat, m: Msg)
    requires CasterOf(s, g).pc == Appended(m) && CanLock(s.mu) && s.clients != {}
    ensures Leads(s, [LockForCheck(g), SeeClients(g)], SetCaster(s, g, Checked(m)))
  {
    LooksAlone(s, g, m);
    LeadsConcat(s, [LockForCheck(g)], Looking(s, g, m), [SeeClients(g)], DoSeeClients(Looking(s, g, m), g));
    hide Leads;
    assert [LockForCheck(g)] + [SeeClients(g)] == [LockForCheck(g), SeeClients(g)];
    assert RUnlock(RLock(s.mu, Caster(g)), Caster(g)) == s.mu;
    SetTwice(s, g, Checking(m), Checked(m));
  }

  lemma SettlesAlone(s: Sys, g: nat, m: Msg)
    requires CasterOf(s, g).pc == Checked(m) && CanLock(s.mu)
    ensures Leads(s, [LockForDelivery(g)], DoLockForDelivery(s, g))
  {
    OneStep(s, LockForDelivery(g));
    hide Leads;
  }

  lemma EndsAlone(s: Sys, g: nat, m: Msg)
    requires CasterOf(s, g).pc == Delivering(m, {})
    ensures Leads(s, [EndDelivery(g)], DoEndDelivery(s, g))
  {
    assert Enabled(s, EndDelivery(g));
    assert Apply(s, EndDelivery(g)) == DoEndDelivery(s, g);
    hide Leads, DoEndDelivery, Enabled, Apply;
    OneStep(s, EndDelivery(g));
  }

  /** The second read lock, the settled call and the channels, piece by piece. */
  lemma SettledIs(s: Sys, g: nat, m: Msg)
    requires s.mu.readers == {}
    ensures var s3 := DoLockForDelivery(SetCaster(s, g, Checked(m)), g);
      && s3 == SetCaster(Decide(s, g), g, Delivering(m, s.clients)).(mu := RLock(s.mu, Caster(g)))
      && RUnlock(s3.mu, Caster(g)) == s.mu
  {
    ReturnAfterSet(s, g, Checked(m));
    SetTwice(Decide(s, g), g, Checked(m), Delivering(m, s.clients));
    assert RUnlock(RLock(s.mu, Caster(g)), Caster(g)) == s.mu;
  }

  lemma EndIs(s: Sys, g: nat, m: Msg, mu: Mutex, chans: Chans)
    requires RUnlock(mu, Caster(g)) == s.mu
    ensures var s3 := SetCaster(Decide(s, g), g, Delivering(m, s.clients)).(mu := mu);
      DoEndDelivery(SetCaster(s3.(chans := chans), g, Delivering(m, {})), g) == Return(Decide(s.(chans := chans), g), g)
  {
    hide RUnlock;
    SetTwice(Decide(s.(chans := chans), g), g, Delivering(m, s.clients), Delivering(m, {}));
    ReturnAfterSet(Decide(s.(chans := chans), g), g, Delivering(m, {}));
  }

  lemma DeliversAlone(s: Sys, g: nat, m: Msg, order: seq<nat>)
    requires CasterOf(s, g).pc == Appended(m) && CanLock(s.mu)
    requires Lists(order, s.clients) && Open(s.chans, s.clients)
    ensures Leads(s, DeliverSteps(g, order), Delivered(s, g, m))
  {
    if order == [] {
      SkipsAlone(s, g, m);
    } else {
      assert order[0] in s.clients;
      var s2 := SetCaster(s, g, Checked(m));
      var s3 := DoLockForDelivery(s2, g);
      var s4 := SetCaster(s3.(chans := SentTo(s.chans, m, s.clients)), g, Delivering(m, {}));
      ChecksAlone(s, g, m);
      SettlesAlone(s2, g, m);
      SettledIs(s, g, m);
      SendsAlone(s3, g, m, order);
      EndsAlone(s4, g, m);
      EndIs(s, g, m, s3.mu, SentTo(s.chans, m, s.clients));
      hide Leads, SetCaster, Return, Decide, SentTo, Sends, DoEndDelivery, DoLockForDelivery, Lists, Enabled, Apply;
      LeadsChain(s, [LockForCheck(g), SeeClients(g)], s2, [LockForDelivery(g)], s3, Sends(g, order), s4,
                 [EndDelivery(g)], DoEndDelivery(s4, g));
      assert [LockForCheck(g), SeeClients(g)] + [LockForDelivery(g)] == [LockForCheck(g), SeeClients(g), LockForDelivery(g)];
    }
  }

  // ---- the whole broadcast ---------------------------------------------------------------------

  function AppendSteps(g: nat, evt: Event, millis: int): seq<Step>
  {
    NameSteps(g, evt, millis) + [LockForAppend(g), Append(g)]
  }

  function Recorded(s: Sys, g: nat, evt: Event, millis: int): Sys
  {
    var m := Sent(s, g, evt, millis);
    SetCaster(Record(Named(s, g, evt, millis), m), g, Appended(m))
  }

  lemma AppendsAlone(s: Sys, g: nat, evt: Event, millis: int)
    requires CasterOf(s, g).pc.Idle? && CanLock(s.mu)
    ensures Leads(s, AppendSteps(g, evt, millis), Recorded(s, g, evt, millis))
  {
    NamesAlone(s, g, evt, millis);
    RecordsAlone(Named(s, g, evt, millis), g, Sent(s, g, evt, millis));
    LeadsConcat(s, NameSteps(g, evt, millis), Named(s, g, evt, millis), [LockForAppend(g), Append(g)], Recorded(s, g, evt, millis));
    hide Leads, Record, NameSteps, Sent;
  }

  /** What the append leaves for the delivery. */
  lemma RecordedIs(s: Sys, g: nat, evt: Event, millis: int)
    ensures var r, sent := Recorded(s, g, evt, millis), Sent(s, g, evt, millis);
      && r.clients == s.clients && r.chans == s.chans && r.mu == s.mu && r.log == s.log + [sent]
      && r.sequence == (if evt.id == "" then s.sequence + 1 else s.sequence)
      && r.history == Cached(s.history, sent, evt.typ, History, MAX_HISTORY)
      && r.batches == Cached(s.batches, sent, evt.typ, Batches, MAX_HB_HISTORY)
      && CasterOf(r, g) == CasterState(CasterOf(s, g).k, Appended(sent))
      && forall h :: h != g ==> CasterOf(r, h) == CasterOf(s, h)
  {
    hide Cached, EventID;
  }

  lemma DeliveredIs(s: Sys, g: nat, m: Msg)
    ensures var d := Delivered(s, g, m);
      && d.clients == s.clients && d.mu == s.mu && d.log == s.log && d.sequence == s.sequence
      && d.history == s.history && d.batches == s.batches
      && d.chans == SentTo(s.chans, m, s.clients)
      && CasterOf(d, g) == CasterState(CasterOf(s, g).k + 1, Idle)
      && forall h :: h != g ==> CasterOf(d, h) == CasterOf(s, h)
  {
    hide SentTo;
  }

  function BroadcastSteps(g: nat, evt: Event, millis: int, order: seq<nat>): seq<Step>
  {
    AppendSteps(g, evt, millis) + DeliverSteps(g, order)
  }

  /**
   A broadcast run from start to end while nobody else moves, for any order in which the channels come
   up: the next number if it needs an ID, the one cache of its kind, one offer to every client, and
   nothing else; so the object's `BroadcastDirect` is the undisturbed case of the concurrent machine.
   */
  lemma BroadcastAlone(s: Sys, g: nat, evt: Event, millis: int, order: seq<nat>) returns (s': Sys)
    requires Inv(s) && CanLock(s.mu) && CasterOf(s, g).pc.Idle? && Lists(order, s.clients)
    ensures Leads(s, BroadcastSteps(g, evt, millis, order), s')
    ensures var sent := Sent(s, g, evt, millis);
      && s'.clients == s.clients && s'.mu == s.mu && s'.log == s.log + [sent]
      && s'.sequence == (if evt.id == "" then s.sequence + 1 else s.sequence)
      && s'.history == (if evt.typ in {StateSnapshot, HeartbeatSent, HeartbeatReceived} then s.history
                        else LastN(s.history + [sent], 50))
      && s'.batches == (if evt.typ in {HeartbeatSent, HeartbeatReceived} then LastN(s.batches + [sent], 10) else s.batches)
    ensures s'.chans.Keys == s.chans.Keys
    ensures forall c :: c in s.clients ==> c in s.chans
    ensures forall c :: c in s.chans ==>
              s'.chans[c] == if c in s.clients then TrySend(s.chans[c], Sent(s, g, evt, millis)) else s.chans[c]
    ensures CasterOf(s', g) == CasterState(CasterOf(s, g).k + 1, Idle)
    ensures forall h :: h != g ==> CasterOf(s', h) == CasterOf(s, h)
  {
    var m, r := Sent(s, g, evt, millis), Recorded(s, g, evt, millis);
    s' := Delivered(r, g, m);
    ClientsAreOpen(s);
    AppendsAlone(s, g, evt, millis);
    RecordedIs(s, g, evt, millis);
    CachedByType(s.history, m, evt.typ);
    CachedByType(s.batches, m, evt.typ);
    hide LastN, Inv, Recorded, Delivered, Sent, Leads, AppendSteps, DeliverSteps, TrySend, Cached, Lists, Open;
    DeliversAlone(r, g, m, order);
    DeliveredIs(r, g, m);
    LeadsConcat(s, AppendSteps(g, evt, millis), r, DeliverSteps(g, order), s');
    SentToEach(s.chans, m, s.clients);
    hide SentTo;
  }

  lemma SentToEach(chans: Chans, m: Msg, cs: set<nat>)
    ensures SentTo(chans, m, cs).Keys == chans.Keys
    ensures forall c :: c in chans ==> SentTo(chans, m, cs)[c] == if c in cs then TrySend(chans[c], m) else chans[c]
  {
    hide TrySend;
  }

  lemma ClientsAreOpen(s: Sys)
    requires Inv(s)
    ensures Open(s.chans, s.clients)
    ensures forall c :: c in s.clients ==> c in s.chans
  {
    hide LockInv, ChansOk, CasterInv, AttemptInv, LogInv, CacheInv, DecisionInv, HandoverInv, HandlerInv, EdgeInv, MintInv;
  }

  // ---- two broadcasts that overlap -------------------------------------------------------------

  const ONE := Event("one", TermChanged, "node-1", 1, 0)
  const TWO := Event("two", TermChanged, "node-1", 2, 0)

  lemma InitReachable()
    ensures HubTheorems.Reachable(Init)
  {
    assert IsRun([Init], []);
    assert [Init][|[Init]| - 1] == Init;
  }

  /** One client and nobody at work. */
  lemma OneClient() returns (s: Sys)
    ensures HubTheorems.Reachable(s)
    ensures s.clients == {0} && s.chans == map[0 := Chan([], false, [], [])] && s.log == [] && s.casters == map[]
    ensures CanLock(s.mu) && s.edges == [true] && s.closers == map[]
    ensures 0 in s.handlers && !s.handlers[0].pc.Joining?
  {
    var s1 := Apply(Init, Join(0));
    s := Apply(s1, Register(0));
    assert |{0}| == 1;
    InitReachable();
    OneStep(Init, Join(0));
    LeadsReaches(Init, [Join(0)], s1);
    OneStep(s1, Register(0));
    LeadsReaches(s1, [Register(0)], s);
  }

  /** The client has gone again: two decisions, nobody subscribed. */
  lemma CameAndWent() returns (s: Sys)
    ensures HubTheorems.Reachable(s)
    ensures s.clients == {} && s.edges == [true, false]
  {
    var s1 := OneClient();
    var s2 := Apply(s1, CallClose(0, 0));
    var s3 := Apply(s2, LockForClose(0));
    s := Apply(s3, Close(0));
    assert {0} - {0} == {};
    OneStep(s1, CallClose(0, 0));
    OneStep(s2, LockForClose(0));
    OneStep(s3, Close(0));
    hide Enabled, Apply, Leads, HubTheorems.Reachable;
    LeadsReaches(s1, [CallClose(0, 0)], s2);
    LeadsReaches(s2, [LockForClose(0)], s3);
    LeadsReaches(s3, [Close(0)], s);
  }

  /** Goroutine 0 has appended the first event and not yet looked for clients. */
  lemma HalfBroadcast() returns (s: Sys, m: Msg)
    ensures HubTheorems.Reachable(s) && CanLock(s.mu)
    ensures s.clients == {0} && s.chans == map[0 := Chan([], false, [], [])]
    ensures m.evt == ONE && s.log == [m]
    ensures CasterOf(s, 0).pc == Appended(m) && CasterOf(s, 1).pc.Idle?
  {
    var before := OneClient();
    m := Sent(before, 0, ONE, 0);
    s := Recorded(before, 0, ONE, 0);
    hide Recorded, Leads, AppendSteps, HubTheorems.Reachable;
    RecordedIs(before, 0, ONE, 0);
    AppendsAlone(before, 0, ONE, 0);
    LeadsReaches(before, AppendSteps(0, ONE, 0), s);
    assert CasterOf(s, 1) == CasterOf(before, 1);
  }

  /** Then goroutine 1 broadcasts the second from start to end. */
  lemma WholeBroadcast() returns (s: Sys, m: Msg, n: Msg)
    ensures HubTheorems.Reachable(s) && CanLock(s.mu)
    ensures s.clients == {0} && 0 in s.chans && s.chans[0].buf == [n] && !s.chans[0].closed
    ensures m.evt == ONE && n.evt == TWO && s.log == [m, n]
    ensures CasterOf(s, 0).pc == Appended(m)
  {
    var before;
    before, m := HalfBroadcast();
    HubTheorems.ReachableInv(before);
    ListsOne();
    hide Inv, Leads, BroadcastSteps, HubTheorems.Reachable, Lists, CasterOf;
    n := Sent(before, 1, TWO, 0);
    s := BroadcastAlone(before, 1, TWO, 0, [0]);
    LeadsReaches(before, BroadcastSteps(1, TWO, 0, [0]), s);
  }

  lemma ListsOne()
    ensures Lists([0], {0})
  {
    assert [0][0] == 0;
  }

  /**
   Where broadcasts overlap the orders can differ: goroutine 0 appends, goroutine 1 broadcasts from
   start to end, then goroutine 0 delivers. The history has 0 before 1, the client gets 1 before 0.
   */
  lemma OverlappingCanSwap() returns (s: Sys)
    ensures HubTheorems.Reachable(s)
    ensures |s.log| == 2 && s.log[0].evt == ONE && s.log[1].evt == TWO
    ensures 0 in s.chans && s.chans[0].buf == [s.log[1], s.log[0]]
  {
    var before, m, n := WholeBroadcast();
    ListsOne();
    s := Delivered(before, 0, m);
    hide Delivered, Leads, DeliverSteps, HubTheorems.Reachable, Lists, CasterOf;
    DeliversAlone(before, 0, m, [0]);
    LeadsReaches(before, DeliverSteps(0, [0]), s);
    DeliveredIs(before, 0, m);
    SentToEach(before.chans, m, {0});
  }
}
