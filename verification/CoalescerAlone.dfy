/**
 The coalescer's calls that nobody disturbs: what they amount to in the step-level machine is the contract
 of `HeartbeatObject.Coalescer`.
 */
module CoalescerAlone {
  import opened Basics
  import opened Heartbeat
  import opened CoalescerMachine

  ghost predicate Leads(s: Sys, steps: seq<Step>, s': Sys)
    decreases |steps|
  {
    if steps == [] then s == s'
    else Enabled(s, steps[0]) && Leads(Apply(s, steps[0]), steps[1..], s')
  }

  lemma {:induction false} LeadsConcat(s: Sys, a: seq<Step>, s': Sys, b: seq<Step>, s'': Sys)
    requires Leads(s, a, s') && Leads(s', b, s'')
    ensures Leads(s, a + b, s'')
    decreases |a|
  {
    hide Enabled, Apply;
    if a == [] {
      assert a + b == b;
    } else {
      assert (a + b)[1..] == a[1..] + b;
      LeadsConcat(Apply(s, a[0]), a[1..], s', b, s'');
    }
  }

  lemma TwoSteps(s: Sys, a: Step, b: Step)
    requires Enabled(s, a) && Enabled(Apply(s, a), b)
    ensures Leads(s, [a, b], Apply(Apply(s, a), b))
  {
    hide Enabled, Apply;
    assert [a, b][1..] == [b] && [b][1..] == [];
    assert Leads(Apply(s, a), [b], Apply(Apply(s, a), b));
  }

  lemma OneStep(s: Sys, a: Step)
    requires Enabled(s, a)
    ensures Leads(s, [a], Apply(s, a))
  {
    hide Enabled, Apply;
    assert [a][1..] == [];
  }

  // ---- a flush ---------------------------------------------------------------------------------

  /** A swapped-out cell rendered if it counted something, dropped otherwise. */
  function Settle(l: Lane, cell: nat): Lane
    requires cell in l.heap
  {
    if l.heap[cell].count > 0 then Render(l, cell) else Discard(l, cell)
  }

  lemma SetTwice(s: Sys, f: nat, a: FlushPc, b: FlushPc)
    ensures SetPc(SetPc(s, f, a), f, b) == SetPc(s, f, b)
  {
    assert s.flushes[f := a][f := b] == s.flushes[f := b];
  }

  lemma SwapAlone(s: Sys, f: nat)
    requires PcOf(s, f).Idle? && s.mu.None? && s.sent.current in s.sent.heap && s.recv.current in s.recv.heap
    ensures Leads(s, [LockToSwap(f), Swap(f)], DoSwap(SetPc(s, f, Swapping), f))
  {
    var s1 := Apply(s, LockToSwap(f));
    TwoSteps(s, LockToSwap(f), Swap(f));
    assert DoSwap(s1, f) == DoSwap(SetPc(s, f, Swapping), f);
    hide Leads, DoSwap;
  }

  lemma SettleSentAlone(s: Sys, f: nat, sent: nat, recv: nat) returns (steps: seq<Step>)
    requires f in s.flushes && s.flushes[f] == ReadingSent(sent, recv) && sent in s.sent.heap
    ensures Leads(s, steps, SetPc(s.(sent := Settle(s.sent, sent)), f, ReadingRecv(recv)))
  {
    if s.sent.heap[sent].count > 0 {
      steps := [ReadSent(f), RenderSent(f)];
      TwoSteps(s, ReadSent(f), RenderSent(f));
      SetTwice(s.(sent := Settle(s.sent, sent)), f, RenderingSent(sent, recv), ReadingRecv(recv));
    } else {
      steps := [ReadSent(f)];
      OneStep(s, ReadSent(f));
    }
    hide Leads;
  }

  lemma SettleRecvAlone(s: Sys, f: nat, recv: nat) returns (steps: seq<Step>)
    requires f in s.flushes && s.flushes[f] == ReadingRecv(recv) && recv in s.recv.heap
    ensures Leads(s, steps, SetPc(s.(recv := Settle(s.recv, recv)), f, Idle))
  {
    if s.recv.heap[recv].count > 0 {
      steps := [ReadRecv(f), RenderRecv(f)];
      TwoSteps(s, ReadRecv(f), RenderRecv(f));
      SetTwice(s.(recv := Settle(s.recv, recv)), f, RenderingRecv(recv), Idle);
    } else {
      steps := [ReadRecv(f)];
      OneStep(s, ReadRecv(f));
    }
    hide Leads;
  }

  /** One direction of a flush that swaps: one batch of all that was held, if that was anything; a fresh accumulator. */
  ghost predicate Flushed(l: Lane, l': Lane)
    requires l.current in l.heap
  {
    var held := l.heap[l.current];
    && l'.current == l.current + 1 && l'.current in l'.heap && l'.heap[l'.current] == Fresh
    && l'.batches == (if held.count > 0 then l.batches + [Batch(l.current, held)] else l.batches)
    && l'.inFlight == l.inFlight && l'.accepted == l.accepted
  }

  lemma SettledIs(l: Lane)
    requires l.current in l.heap && l.current !in l.inFlight
    ensures Flushed(l, Settle(SwapOut(l), l.current))
  {
    assert l.inFlight + {l.current} - {l.current} == l.inFlight;
  }

  lemma BothSettled(s: Sys, f: nat) returns (steps: seq<Step>, s': Sys)
    requires PcOf(s, f).Idle? && s.mu.None? && s.sent.current in s.sent.heap && s.recv.current in s.recv.heap
    requires s.sent.heap[s.sent.current].count > 0 || s.recv.heap[s.recv.current].count > 0
    ensures Leads(s, steps, s')
    ensures s' == s.(sent := Settle(SwapOut(s.sent), s.sent.current), recv := Settle(SwapOut(s.recv), s.recv.current),
                     flushes := s.flushes[f := Idle])
  {
    var a, b := s.sent.current, s.recv.current;
    var s2 := DoSwap(SetPc(s, f, Swapping), f);
    SwapAlone(s, f);
    SetTwice(s.(sent := SwapOut(s.sent), recv := SwapOut(s.recv)), f, Swapping, ReadingSent(a, b));
    assert s2 == SetPc(s.(sent := SwapOut(s.sent), recv := SwapOut(s.recv)), f, ReadingSent(a, b));
    hide Leads, DoSwap, Settle;
    var sentSteps := SettleSentAlone(s2, f, a, b);
    var s3 := SetPc(s2.(sent := Settle(s2.sent, a)), f, ReadingRecv(b));
    var recvSteps := SettleRecvAlone(s3, f, b);
    s' := SetPc(s3.(recv := Settle(s3.recv, b)), f, Idle);
    LeadsConcat(s, [LockToSwap(f), Swap(f)], s2, sentSteps, s3);
    LeadsConcat(s, [LockToSwap(f), Swap(f)] + sentSteps, s3, recvSteps, s');
    steps := [LockToSwap(f), Swap(f)] + sentSteps + recvSteps;
    assert s.flushes[f := ReadingSent(a, b)][f := ReadingRecv(b)][f := Idle] == s.flushes[f := Idle];
  }

  /**
   An undisturbed flush does nothing if neither direction counted anything; otherwise both directions get
   a fresh accumulator, and each that counted something one batch of all it held.
   */
  lemma FlushAlone(s: Sys, f: nat) returns (steps: seq<Step>, s': Sys)
    requires Inv(s) && s.mu.None? && PcOf(s, f).Idle?
    ensures Leads(s, steps, s')
    ensures s.sent.current in s.sent.heap && s.recv.current in s.recv.heap
    ensures s.sent.heap[s.sent.current].count == 0 && s.recv.heap[s.recv.current].count == 0 ==>
              s'.sent == s.sent && s'.recv == s.recv
    ensures s.sent.heap[s.sent.current].count > 0 || s.recv.heap[s.recv.current].count > 0 ==>
              Flushed(s.sent, s'.sent) && Flushed(s.recv, s'.recv)
    ensures s'.mu == s.mu && s'.adders == s.adders && s'.flushes == s.flushes[f := Idle]
  {
    LaneCurrentIsHeld(s.sent);
    LaneCurrentIsHeld(s.recv);
    hide Inv, Leads;
    if s.sent.heap[s.sent.current].count == 0 && s.recv.heap[s.recv.current].count == 0 {
      SwapAlone(s, f);
      steps, s' := [LockToSwap(f), Swap(f)], DoSwap(SetPc(s, f, Swapping), f);
      SetTwice(s, f, Swapping, Idle);
    } else {
      steps, s' := BothSettled(s, f);
      SettledIs(s.sent);
      SettledIs(s.recv);
      hide Settle, Flushed;
    }
  }

  // ---- an accumulation -------------------------------------------------------------------------

  /** An undisturbed accumulation folds the heartbeat into the accumulator of its direction and touches nothing else. */
  lemma AddAlone(s: Sys, a: nat, received: bool, h: Beat)
    requires Inv(s) && s.mu.None? && AddPcOf(s, a).Away?
    ensures s.sent.current in s.sent.heap && s.recv.current in s.recv.heap
    ensures Leads(s, [LockToAdd(a, received, h), Load(a), if received then WriteRecv(a) else WriteSent(a)],
                  if received then s.(recv := Accept(s.recv, h), adders := s.adders[a := Away])
                  else s.(sent := Accept(s.sent, h), adders := s.adders[a := Away]))
  {
    LaneCurrentIsHeld(s.sent);
    LaneCurrentIsHeld(s.recv);
    hide Inv, Accept, Absorb;
    var cell := if received then s.recv.current else s.sent.current;
    var s1 := Apply(s, LockToAdd(a, received, h));
    var s2 := Apply(s1, Load(a));
    var st := if received then WriteRecv(a) else WriteSent(a);
    TwoSteps(s, LockToAdd(a, received, h), Load(a));
    WriteEnds(s, a, received, h, cell);
    OneStep(s2, st);
    LeadsConcat(s, [LockToAdd(a, received, h), Load(a)], s2, [st], Apply(s2, st));
    hide Leads;
    assert [LockToAdd(a, received, h), Load(a)] + [st] == [LockToAdd(a, received, h), Load(a), st];
  }

  lemma WriteEnds(s: Sys, a: nat, received: bool, h: Beat, cell: nat)
    requires s.mu.None? && AddPcOf(s, a).Away? && cell == (if received then s.recv.current else s.sent.current)
    requires s.sent.current in s.sent.heap && s.recv.current in s.recv.heap
    ensures var s1 := Apply(s, LockToAdd(a, received, h));
      && Enabled(s1, Load(a))
      && var s2 := Apply(s1, Load(a)); var st := if received then WriteRecv(a) else WriteSent(a);
      && Enabled(s2, st)
      && Apply(s2, st) == if received then s.(recv := Accept(s.recv, h), adders := s.adders[a := Away])
                          else s.(sent := Accept(s.sent, h), adders := s.adders[a := Away])
  {
    hide Absorb;
    assert s.adders[a := Locked(received, h)][a := Loaded(received, h, cell)][a := Away] == s.adders[a := Away];
  }
}
