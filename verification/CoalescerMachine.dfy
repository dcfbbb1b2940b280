/** The two directions together: accumulating goroutines against any number of flushes. */
module CoalescerMachine {
  import opened Basics
  import opened Heartbeat

  datatype Owner = Adder(a: nat) | Flusher(f: nat)

  /** Program counter inside `accumulateHeartbeat`; `cell` is the local `accum`. */
  datatype AddPc =
    | Away
    | Locked(received: bool, h: Beat)               // hbMu held
    | Loaded(received: bool, h: Beat, cell: nat)    // hbMu held, pointer loaded

  /** Program counter inside `hbFlushOnce`; the cells are the local `sent` and `recv`. */
  datatype FlushPc =
    | Idle
    | Swapping                                // hbMu held
    | ReadingSent(sent: nat, recv: nat)       // hbMu given back
    | RenderingSent(sent: nat, recv: nat)     // sent.count > 0 was seen
    | ReadingRecv(recv: nat)
    | RenderingRecv(recv: nat)

  type Adders = map<nat, AddPc>
  type Flushes = map<nat, FlushPc>

  /** `mu` is `hbMu`. */
  datatype Sys = Sys(sent: Lane, recv: Lane, mu: Option<Owner>, adders: Adders, flushes: Flushes)

  const Init := Sys(InitLane, InitLane, None, map[], map[])

  datatype Step =
    | LockToAdd(a: nat, received: bool, h: Beat)
    | Load(a: nat)
    | WriteSent(a: nat)
    | WriteRecv(a: nat)
    | LockToSwap(f: nat)
    | Swap(f: nat)
    | ReadSent(f: nat)
    | RenderSent(f: nat)
    | ReadRecv(f: nat)
    | RenderRecv(f: nat)

  function AddPcOf(s: Sys, a: nat): AddPc
  {
    if a in s.adders then s.adders[a] else Away
  }

  function PcOf(s: Sys, f: nat): FlushPc
  {
    if f in s.flushes then s.flushes[f] else Idle
  }

  predicate Enabled(s: Sys, st: Step)
  {
    match st
    case LockToAdd(a, _, _) => AddPcOf(s, a).Away? && s.mu.None?
    case Load(a) => AddPcOf(s, a).Locked?
    case WriteSent(a) => AddPcOf(s, a).Loaded? && !AddPcOf(s, a).received && AddPcOf(s, a).cell in s.sent.heap
    case WriteRecv(a) => AddPcOf(s, a).Loaded? && AddPcOf(s, a).received && AddPcOf(s, a).cell in s.recv.heap
    case LockToSwap(f) => PcOf(s, f).Idle? && s.mu.None?
    case Swap(f) => PcOf(s, f).Swapping? && s.sent.current in s.sent.heap && s.recv.current in s.recv.heap
    case ReadSent(f) => PcOf(s, f).ReadingSent? && PcOf(s, f).sent in s.sent.heap
    case RenderSent(f) => PcOf(s, f).RenderingSent? && PcOf(s, f).sent in s.sent.heap
    case ReadRecv(f) => PcOf(s, f).ReadingRecv? && PcOf(s, f).recv in s.recv.heap
    case RenderRecv(f) => PcOf(s, f).RenderingRecv? && PcOf(s, f).recv in s.recv.heap
  }

  function SetAdder(s: Sys, a: nat, pc: AddPc): Sys
  {
    s.(adders := s.adders[a := pc])
  }

  function SetPc(s: Sys, f: nat, pc: FlushPc): Sys
  {
    s.(flushes := s.flushes[f := pc])
  }

  function DoLoad(s: Sys, a: nat): Sys
    requires AddPcOf(s, a).Locked?
  {
    var pc := AddPcOf(s, a);
    SetAdder(s, a, Loaded(pc.received, pc.h, if pc.received then s.recv.current else s.sent.current))
  }

  function DoSwap(s: Sys, f: nat): Sys
    requires s.sent.current in s.sent.heap && s.recv.current in s.recv.heap
  {
    var s' := s.(mu := None);
    if s.sent.heap[s.sent.current].count == 0 && s.recv.heap[s.recv.current].count == 0 then SetPc(s', f, Idle)
    else SetPc(s'.(sent := SwapOut(s.sent), recv := SwapOut(s.recv)), f, ReadingSent(s.sent.current, s.recv.current))
  }

  function Apply(s: Sys, st: Step): Sys
    requires Enabled(s, st)
  {
    match st
    case LockToAdd(a, received, h) => SetAdder(s.(mu := Some(Adder(a))), a, Locked(received, h))
    case Load(a) => DoLoad(s, a)
    case WriteSent(a) =>
      var pc := AddPcOf(s, a);
      SetAdder(s.(sent := Write(s.sent, pc.cell, pc.h), mu := None), a, Away)
    case WriteRecv(a) =>
      var pc := AddPcOf(s, a);
      SetAdder(s.(recv := Write(s.recv, pc.cell, pc.h), mu := None), a, Away)
    case LockToSwap(f) => SetPc(s.(mu := Some(Flusher(f))), f, Swapping)
    case Swap(f) => DoSwap(s, f)
    case ReadSent(f) =>
      var pc := PcOf(s, f);
      if s.sent.heap[pc.sent].count > 0 then SetPc(s, f, RenderingSent(pc.sent, pc.recv))
      else SetPc(s.(sent := Discard(s.sent, pc.sent)), f, ReadingRecv(pc.recv))
    case RenderSent(f) =>
      var pc := PcOf(s, f);
      SetPc(s.(sent := Render(s.sent, pc.sent)), f, ReadingRecv(pc.recv))
    case ReadRecv(f) =>
      var pc := PcOf(s, f);
      if s.recv.heap[pc.recv].count > 0 then SetPc(s, f, RenderingRecv(pc.recv))
      else SetPc(s.(recv := Discard(s.recv, pc.recv)), f, Idle)
    case RenderRecv(f) =>
      var pc := PcOf(s, f);
      SetPc(s.(recv := Render(s.recv, pc.recv)), f, Idle)
  }

  ghost predicate IsRun(states: seq<Sys>, steps: seq<Step>)
  {
    && |states| == |steps| + 1
    && states[0] == Init
    && forall i :: 0 <= i < |steps| ==> Enabled(states[i], steps[i]) && states[i + 1] == Apply(states[i], steps[i])
  }

  // ---- ownership -------------------------------------------------------------------------------

  predicate HoldsSent(pc: FlushPc) { pc.ReadingSent? || pc.RenderingSent? }
  predicate HoldsRecv(pc: FlushPc) { !pc.Idle? && !pc.Swapping? }

  /** Each cell in flight belongs to exactly one flush, which has seen its count if it is rendering it. */
  ghost predicate SentOwned(inFlight: set<nat>, heap: map<nat, Accum>, flushes: Flushes)
  {
    && (forall f :: f in flushes && HoldsSent(flushes[f]) ==> flushes[f].sent in inFlight)
    && (forall f, g :: f in flushes && g in flushes && f != g && HoldsSent(flushes[f]) && HoldsSent(flushes[g]) ==>
          flushes[f].sent != flushes[g].sent)
    && (forall c :: c in inFlight ==> exists f :: f in flushes && HoldsSent(flushes[f]) && flushes[f].sent == c)
    && (forall f :: f in flushes && flushes[f].RenderingSent? && flushes[f].sent in heap ==>
          heap[flushes[f].sent].count > 0)
  }

  ghost predicate RecvOwned(inFlight: set<nat>, heap: map<nat, Accum>, flushes: Flushes)
  {
    && (forall f :: f in flushes && HoldsRecv(flushes[f]) ==> flushes[f].recv in inFlight)
    && (forall f, g :: f in flushes && g in flushes && f != g && HoldsRecv(flushes[f]) && HoldsRecv(flushes[g]) ==>
          flushes[f].recv != flushes[g].recv)
    && (forall c :: c in inFlight ==> exists f :: f in flushes && HoldsRecv(flushes[f]) && flushes[f].recv == c)
    && (forall f :: f in flushes && flushes[f].RenderingRecv? && flushes[f].recv in heap ==>
          heap[flushes[f].recv].count > 0)
  }

  /** Whoever is inside a critical section holds `hbMu`, and a loaded pointer is the one the hub still has. */
  ghost predicate LockInv(mu: Option<Owner>, adders: Adders, flushes: Flushes, sent: nat, recv: nat)
  {
    && (forall a :: a in adders && !adders[a].Away? ==> mu == Some(Adder(a)))
    && (forall f :: f in flushes && flushes[f].Swapping? ==> mu == Some(Flusher(f)))
    && (forall a :: a in adders && adders[a].Loaded? ==> adders[a].cell == if adders[a].received then recv else sent)
  }

  ghost predicate Inv(s: Sys)
  {
    && LaneInv(s.sent) && LaneInv(s.recv)
    && SentOwned(s.sent.inFlight, s.sent.heap, s.flushes)
    && RecvOwned(s.recv.inFlight, s.recv.heap, s.flushes)
    && LockInv(s.mu, s.adders, s.flushes, s.sent.current, s.recv.current)
  }

  lemma SentHeapChanges(l: Lane, h: Beat, flushes: Flushes)
    requires LaneInv(l) && SentOwned(l.inFlight, l.heap, flushes)
    ensures SentOwned(l.inFlight, Accept(l, h).heap, flushes)
  {
    CurrentIsHeld(l.heap, l.current, l.inFlight, l.batches, l.accepted, l.cuts);
    hide LaneInv;
  }

  lemma RecvHeapChanges(l: Lane, h: Beat, flushes: Flushes)
    requires LaneInv(l) && RecvOwned(l.inFlight, l.heap, flushes)
    ensures RecvOwned(l.inFlight, Accept(l, h).heap, flushes)
  {
    CurrentIsHeld(l.heap, l.current, l.inFlight, l.batches, l.accepted, l.cuts);
    hide LaneInv;
  }

  lemma SentSwaps(inFlight: set<nat>, heap: map<nat, Accum>, current: nat, flushes: Flushes, f: nat, recv: nat)
    requires SentOwned(inFlight, heap, flushes) && current !in inFlight && current + 1 !in inFlight
    requires f in flushes ==> !HoldsRecv(flushes[f])
    ensures SentOwned(inFlight + {current}, heap[current + 1 := Fresh], flushes[f := ReadingSent(current, recv)])
  {
    var flushes' := flushes[f := ReadingSent(current, recv)];
    assert HoldsSent(flushes'[f]) && flushes'[f].sent == current;
    forall c | c in inFlight
      ensures exists g :: g in flushes' && HoldsSent(flushes'[g]) && flushes'[g].sent == c
    {
      var g :| g in flushes && HoldsSent(flushes[g]) && flushes[g].sent == c;
      assert flushes'[g] == flushes[g];
    }
  }

  lemma RecvSwaps(inFlight: set<nat>, heap: map<nat, Accum>, current: nat, flushes: Flushes, f: nat, sent: nat)
    requires RecvOwned(inFlight, heap, flushes) && current !in inFlight && current + 1 !in inFlight
    requires f in flushes ==> !HoldsRecv(flushes[f])
    ensures RecvOwned(inFlight + {current}, heap[current + 1 := Fresh], flushes[f := ReadingSent(sent, current)])
  {
    var flushes' := flushes[f := ReadingSent(sent, current)];
    assert HoldsRecv(flushes'[f]) && flushes'[f].recv == current;
    forall c | c in inFlight
      ensures exists g :: g in flushes' && HoldsRecv(flushes'[g]) && flushes'[g].recv == c
    {
      var g :| g in flushes && HoldsRecv(flushes[g]) && flushes[g].recv == c;
      assert flushes'[g] == flushes[g];
    }
  }

  /** The owner moves on: either it keeps the cell, or the cell leaves the flight. */
  lemma SentMoves(inFlight: set<nat>, heap: map<nat, Accum>, flushes: Flushes, f: nat, pc: FlushPc)
    requires SentOwned(inFlight, heap, flushes) && f in flushes
    requires HoldsSent(pc) ==> HoldsSent(flushes[f]) && pc.sent == flushes[f].sent
    requires pc.RenderingSent? ==> pc.sent in heap && heap[pc.sent].count > 0
    ensures SentOwned(if HoldsSent(flushes[f]) && !HoldsSent(pc) then inFlight - {flushes[f].sent} else inFlight, heap,
                      flushes[f := pc])
  {
    var flushes' := flushes[f := pc];
    assert flushes'[f] == pc;
    forall c | c in inFlight && !(HoldsSent(flushes[f]) && c == flushes[f].sent)
      ensures exists g :: g in flushes' && HoldsSent(flushes'[g]) && flushes'[g].sent == c
    {
      var g :| g in flushes && HoldsSent(flushes[g]) && flushes[g].sent == c;
      assert flushes'[g] == flushes[g];
    }
  }

  lemma RecvMoves(inFlight: set<nat>, heap: map<nat, Accum>, flushes: Flushes, f: nat, pc: FlushPc)
    requires RecvOwned(inFlight, heap, flushes) && f in flushes && HoldsRecv(flushes[f])
    requires HoldsRecv(pc) ==> pc.recv == flushes[f].recv
    requires pc.RenderingRecv? ==> pc.recv in heap && heap[pc.recv].count > 0
    ensures RecvOwned(if HoldsRecv(pc) then inFlight else inFlight - {flushes[f].recv}, heap, flushes[f := pc])
  {
    var flushes' := flushes[f := pc];
    assert flushes'[f] == pc;
    forall c | c in inFlight && c != flushes[f].recv
      ensures exists g :: g in flushes' && HoldsRecv(flushes'[g]) && flushes'[g].recv == c
    {
      var g :| g in flushes && HoldsRecv(flushes[g]) && flushes[g].recv == c;
      assert flushes'[g] == flushes[g];
    }
  }

  // ---- every step ------------------------------------------------------------------------------

  /** What an acting flush may rely on. */
  lemma OwnCells(s: Sys, f: nat)
    requires Inv(s) && f in s.flushes
    ensures HoldsSent(s.flushes[f]) ==> s.flushes[f].sent in s.sent.inFlight
    ensures HoldsRecv(s.flushes[f]) ==> s.flushes[f].recv in s.recv.inFlight
    ensures s.flushes[f].RenderingSent? && s.flushes[f].sent in s.sent.heap ==> s.sent.heap[s.flushes[f].sent].count > 0
    ensures s.flushes[f].RenderingRecv? && s.flushes[f].recv in s.recv.heap ==> s.recv.heap[s.flushes[f].recv].count > 0
  {
    hide LaneInv;
  }

  lemma LaneCurrentIsHeld(l: Lane)
    requires LaneInv(l)
    ensures l.current in l.heap && l.current !in l.inFlight && l.current + 1 !in l.inFlight
  {
    CurrentIsHeld(l.heap, l.current, l.inFlight, l.batches, l.accepted, l.cuts);
    hide CellsOk, SettledOk;
  }

  /** A flush that held no cell and holds none now. */
  lemma SentSame(inFlight: set<nat>, heap: map<nat, Accum>, flushes: Flushes, f: nat, pc: FlushPc)
    requires SentOwned(inFlight, heap, flushes)
    requires !HoldsSent(pc) && (f in flushes ==> !HoldsSent(flushes[f]))
    ensures SentOwned(inFlight, heap, flushes[f := pc])
  {
    var flushes' := flushes[f := pc];
    forall c | c in inFlight
      ensures exists g :: g in flushes' && HoldsSent(flushes'[g]) && flushes'[g].sent == c
    {
      var g :| g in flushes && HoldsSent(flushes[g]) && flushes[g].sent == c;
      assert flushes'[g] == flushes[g];
    }
  }

  lemma RecvSame(inFlight: set<nat>, heap: map<nat, Accum>, flushes: Flushes, f: nat, pc: FlushPc)
    requires RecvOwned(inFlight, heap, flushes)
    requires !HoldsRecv(pc) && (f in flushes ==> !HoldsRecv(flushes[f]))
    ensures RecvOwned(inFlight, heap, flushes[f := pc])
  {
    var flushes' := flushes[f := pc];
    forall c | c in inFlight
      ensures exists g :: g in flushes' && HoldsRecv(flushes'[g]) && flushes'[g].recv == c
    {
      var g :| g in flushes && HoldsRecv(flushes[g]) && flushes[g].recv == c;
      assert flushes'[g] == flushes[g];
    }
  }

  lemma AddKept(s: Sys, st: Step)
    requires Inv(s) && Enabled(s, st) && (st.LockToAdd? || st.Load?)
    ensures Inv(Apply(s, st))
  {
    hide LaneInv, SentOwned, RecvOwned;
  }

  /** The loaded pointer is the current cell: the write is an accepted heartbeat. */
  lemma WriteSentKept(s: Sys, a: nat)
    requires Inv(s) && Enabled(s, WriteSent(a))
    ensures Inv(Apply(s, WriteSent(a)))
  {
    hide LaneInv, SentOwned, RecvOwned;
    var h := s.adders[a].h;
    assert s.adders[a].cell == s.sent.current;
    AcceptKept(s.sent, h);
    SentHeapChanges(s.sent, h, s.flushes);
  }

  lemma WriteRecvKept(s: Sys, a: nat)
    requires Inv(s) && Enabled(s, WriteRecv(a))
    ensures Inv(Apply(s, WriteRecv(a)))
  {
    hide LaneInv, SentOwned, RecvOwned;
    var h := s.adders[a].h;
    assert s.adders[a].cell == s.recv.current;
    AcceptKept(s.recv, h);
    RecvHeapChanges(s.recv, h, s.flushes);
  }

  lemma LockToSwapKept(s: Sys, f: nat)
    requires Inv(s) && Enabled(s, LockToSwap(f))
    ensures Inv(Apply(s, LockToSwap(f)))
  {
    hide LaneInv, SentOwned, RecvOwned;
    SentSame(s.sent.inFlight, s.sent.heap, s.flushes, f, Swapping);
    RecvSame(s.recv.inFlight, s.recv.heap, s.flushes, f, Swapping);
  }

  lemma SwapKept(s: Sys, f: nat)
    requires Inv(s) && Enabled(s, Swap(f))
    ensures Inv(Apply(s, Swap(f)))
  {
    hide LaneInv, SentOwned, RecvOwned;
    var a, b := s.sent, s.recv;
    if a.heap[a.current].count == 0 && b.heap[b.current].count == 0 {
      SentSame(a.inFlight, a.heap, s.flushes, f, Idle);
      RecvSame(b.inFlight, b.heap, s.flushes, f, Idle);
    } else {
      LaneCurrentIsHeld(a);
      LaneCurrentIsHeld(b);
      SwapOutKept(a);
      SwapOutKept(b);
      SentSwaps(a.inFlight, a.heap, a.current, s.flushes, f, b.current);
      RecvSwaps(b.inFlight, b.heap, b.current, s.flushes, f, a.current);
    }
  }

  /** A flush that has given the lock back reads what is its own. */
  lemma ReadKept(s: Sys, st: Step)
    requires Inv(s) && Enabled(s, st) && (st.ReadSent? || st.RenderSent? || st.ReadRecv? || st.RenderRecv?)
    ensures Inv(Apply(s, st))
  {
    hide LaneInv, SentOwned, RecvOwned;
    var s' := Apply(s, st);
    OwnCells(s, st.f);
    SentMoves(s.sent.inFlight, s.sent.heap, s.flushes, st.f, s'.flushes[st.f]);
    RecvMoves(s.recv.inFlight, s.recv.heap, s.flushes, st.f, s'.flushes[st.f]);
    match st {
      case ReadSent(f) =>
        if s.sent.heap[s.flushes[f].sent].count == 0 { DiscardKept(s.sent, s.flushes[f].sent); }
      case RenderSent(f) => RenderKept(s.sent, s.flushes[f].sent);
      case ReadRecv(f) =>
        if s.recv.heap[s.flushes[f].recv].count == 0 { DiscardKept(s.recv, s.flushes[f].recv); }
      case RenderRecv(f) => RenderKept(s.recv, s.flushes[f].recv);
    }
  }

  lemma StepKept(s: Sys, st: Step)
    requires Inv(s) && Enabled(s, st)
    ensures Inv(Apply(s, st))
  {
    hide Inv, Enabled, Apply;
    match st {
      case LockToAdd(_, _, _) => AddKept(s, st);
      case Load(_) => AddKept(s, st);
      case WriteSent(a) => WriteSentKept(s, a);
      case WriteRecv(a) => WriteRecvKept(s, a);
      case LockToSwap(f) => LockToSwapKept(s, f);
      case Swap(f) => SwapKept(s, f);
      case _ => ReadKept(s, st);
    }
  }

  lemma RunKept(states: seq<Sys>, steps: seq<Step>)
    requires IsRun(states, steps)
    ensures forall i :: 0 <= i < |states| ==> Inv(states[i])
  {
    InitLaneInv();
    assert Inv(Init);
    hide Inv, Enabled, Apply;
    var n := 0;
    while n < |steps|
      invariant 0 <= n <= |steps|
      invariant forall i :: 0 <= i <= n ==> Inv(states[i])
    {
      StepKept(states[n], steps[n]);
      n := n + 1;
    }
  }

  // ---- theorems --------------------------------------------------------------------------------

  /**
   Conservation and partition, per direction and at every state of every run: heartbeats accepted are
   those in rendered batches, those in flight and those in the current accumulator; every batch is the
   summary of one stretch of the stream, and the stretches are consecutive.
   */
  lemma HeartbeatsConserved(states: seq<Sys>, steps: seq<Step>, i: nat)
    requires IsRun(states, steps) && i < |states|
    ensures LaneConserved(states[i].sent) && LaneConserved(states[i].recv)
  {
    RunKept(states, steps);
    assert LaneInv(states[i].sent) && LaneInv(states[i].recv);
    LaneIsConserved(states[i].sent);
    LaneIsConserved(states[i].recv);
  }

  ghost predicate LaneConserved(l: Lane)
  {
    && l.inFlight <= l.heap.Keys && l.current in l.heap
    && |l.accepted| == BatchTotal(l.batches) + Sum(l.heap, l.inFlight) + l.heap[l.current].count
    && CutsOk(l.accepted, l.cuts)
    && l.current == |l.cuts| - 1 && l.heap[l.current] == Summary(Stretch(l.accepted, l.cuts, l.current))
    && (forall b :: b in l.batches ==>
          b.cell < l.current && b.content == Summary(Stretch(l.accepted, l.cuts, b.cell)) && b.content.count > 0)
    && (forall i, j :: 0 <= i < j < |l.batches| ==> l.batches[i].cell != l.batches[j].cell)
  }

  lemma LaneIsConserved(l: Lane)
    requires LaneInv(l)
    ensures LaneConserved(l)
  {
    hide Summary, CutsOk, Stretch;
    forall b | b in l.batches
      ensures b.cell < l.current && b.content == l.heap[b.cell] && b.content.count > 0
    {
      var i :| 0 <= i < |l.batches| && l.batches[i] == b;
    }
  }

  /** With no flush under way, nothing is in flight. */
  lemma QuietConserved(states: seq<Sys>, steps: seq<Step>, i: nat)
    requires IsRun(states, steps) && i < |states|
    requires forall f :: f in states[i].flushes ==> states[i].flushes[f].Idle?
    ensures var l := states[i].sent; l.current in l.heap && |l.accepted| == BatchTotal(l.batches) + l.heap[l.current].count
    ensures var l := states[i].recv; l.current in l.heap && |l.accepted| == BatchTotal(l.batches) + l.heap[l.current].count
  {
    RunKept(states, steps);
    HeartbeatsConserved(states, steps, i);
    var s := states[i];
    hide LaneInv;
    assert s.sent.inFlight == {} && s.recv.inFlight == {};
  }

  /**
   Whoever is about to write a cell holds `hbMu`; the cell is the one the hub points at, and so no flush
   that reads without the lock has it.
   */
  lemma WriterIsAlone(states: seq<Sys>, steps: seq<Step>, i: nat, a: nat)
    requires IsRun(states, steps) && i < |states| && a in states[i].adders && states[i].adders[a].Loaded?
    ensures var s, pc := states[i], states[i].adders[a];
      var l := if pc.received then s.recv else s.sent;
      && s.mu == Some(Adder(a))
      && pc.cell == l.current && pc.cell in l.heap && pc.cell !in l.inFlight
      && (forall f :: f in s.flushes && !pc.received && HoldsSent(s.flushes[f]) ==> s.flushes[f].sent != pc.cell)
      && (forall f :: f in s.flushes && pc.received && HoldsRecv(s.flushes[f]) ==> s.flushes[f].recv != pc.cell)
  {
    RunKept(states, steps);
    var s := states[i];
    assert Inv(s);
    hide IsRun;
    LaneCurrentIsHeld(s.sent);
    LaneCurrentIsHeld(s.recv);
    hide LaneInv;
  }

  /** A swapped-out accumulator is never written again, so reading it without the lock is safe. */
  lemma {:induction false} NeverRewritten(states: seq<Sys>, steps: seq<Step>, i: nat, j: nat)
    requires IsRun(states, steps) && i <= j < |states|
    ensures OldCellsKept(states[i].sent, states[j].sent) && OldCellsKept(states[i].recv, states[j].recv)
    decreases j
  {
    hide Apply, Enabled, Inv, OldCellsKept;
    if i == j {
      KeptOver(states[i].sent, states[i].sent, states[i].sent);
      KeptOver(states[i].recv, states[i].recv, states[i].recv);
    } else {
      NeverRewritten(states, steps, i, j - 1);
      RunKept(states, steps);
      StepKeepsOld(states[j - 1], steps[j - 1]);
      KeptOver(states[i].sent, states[j - 1].sent, states[j].sent);
      KeptOver(states[i].recv, states[j - 1].recv, states[j].recv);
    }
  }

  lemma KeptOver(l: Lane, m: Lane, n: Lane)
    ensures OldCellsKept(l, l)
    ensures OldCellsKept(l, m) && OldCellsKept(m, n) ==> OldCellsKept(l, n)
  {
  }

  lemma StepKeepsOld(s: Sys, st: Step)
    requires Inv(s) && Enabled(s, st)
    ensures OldCellsKept(s.sent, Apply(s, st).sent) && OldCellsKept(s.recv, Apply(s, st).recv)
  {
    hide LaneInv, SentOwned, RecvOwned;
  }
}
