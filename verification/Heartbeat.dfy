/**
 The heartbeat coalescer: heartbeats are folded into an accumulator per direction, flushes swap the
 accumulators out under `hbMu` and read them after giving it back.
 */
module Heartbeat {
  import opened Basics

  /** A heartbeat event that carries data; `None` is a field that is missing or of another type. */
  datatype Beat = Beat(nodeID: string, peer: Option<string>, term: Option<nat>, commit: Option<nat>)

  datatype Accum = Accum(count: nat, nodeID: string, peers: set<string>, lastTerm: nat, lastCommit: nat)

  const Fresh := Accum(0, "", {}, 0, 0)

  /** `accumulateHeartbeat`, on the accumulator of the event's direction. */
  function Absorb(a: Accum, h: Beat): Accum
  {
    Accum(a.count + 1,
          if h.nodeID != "" then h.nodeID else a.nodeID,
          if h.peer.Some? && h.peer.value != "" then a.peers + {h.peer.value} else a.peers,
          if h.term.Some? then h.term.value else a.lastTerm,
          if h.commit.Some? then h.commit.value else a.lastCommit)
  }

  // ---- what a batch should say of a stretch of heartbeats --------------------------------------

  function LastSome(values: seq<Option<nat>>): nat
  {
    if values == [] then 0
    else if values[|values| - 1].Some? then values[|values| - 1].value
    else LastSome(values[..|values| - 1])
  }

  /** The value of the newest present entry, zero only by default. */
  lemma {:induction false} LastSomeIsNewest(values: seq<Option<nat>>)
    ensures (forall i :: 0 <= i < |values| ==> values[i].None?) ==> LastSome(values) == 0
    ensures forall i :: 0 <= i < |values| && values[i].Some? && (forall j :: i < j < |values| ==> values[j].None?) ==>
              LastSome(values) == values[i].value
  {
    if values != [] {
      var init := values[..|values| - 1];
      assert forall i :: 0 <= i < |init| ==> init[i] == values[i];
      LastSomeIsNewest(init);
    }
  }

  function LastNonEmpty(names: seq<string>): string
  {
    if names == [] then ""
    else if names[|names| - 1] != "" then names[|names| - 1]
    else LastNonEmpty(names[..|names| - 1])
  }

  function Terms(s: seq<Beat>): seq<Option<nat>> { seq(|s|, i requires 0 <= i < |s| => s[i].term) }
  function Commits(s: seq<Beat>): seq<Option<nat>> { seq(|s|, i requires 0 <= i < |s| => s[i].commit) }
  function Names(s: seq<Beat>): seq<string> { seq(|s|, i requires 0 <= i < |s| => s[i].nodeID) }
  function Peers(s: seq<Beat>): set<string> { set h | h in s && h.peer.Some? && h.peer.value != "" :: h.peer.value }

  function Summary(s: seq<Beat>): Accum
  {
    Accum(|s|, LastNonEmpty(Names(s)), Peers(s), LastSome(Terms(s)), LastSome(Commits(s)))
  }

  lemma {:induction false} LastNonEmptyIsNewest(names: seq<string>)
    ensures (forall i :: 0 <= i < |names| ==> names[i] == "") ==> LastNonEmpty(names) == ""
    ensures forall i :: 0 <= i < |names| && names[i] != "" && (forall j :: i < j < |names| ==> names[j] == "") ==>
              LastNonEmpty(names) == names[i]
  {
    if names != [] {
      var init := names[..|names| - 1];
      assert forall i :: 0 <= i < |init| ==> init[i] == names[i];
      LastNonEmptyIsNewest(init);
    }
  }

  /** `v` is the term of the newest heartbeat that has one, zero if none has. */
  ghost predicate NewestTerm(s: seq<Beat>, v: nat)
  {
    && (forall i :: 0 <= i < |s| && !s[i].term.None? && (forall j :: i < j < |s| ==> s[j].term.None?) ==> v == s[i].term.value)
    && ((forall i :: 0 <= i < |s| ==> s[i].term.None?) ==> v == 0)
  }

  lemma NewestTermIs(s: seq<Beat>)
    ensures NewestTerm(s, Summary(s).lastTerm)
  {
    LastSomeIsNewest(Terms(s));
    assert forall i :: 0 <= i < |s| ==> Terms(s)[i] == s[i].term;
    hide LastSome, LastNonEmpty;
    forall i | 0 <= i < |s| && !s[i].term.None? && (forall j :: i < j < |s| ==> s[j].term.None?)
      ensures Summary(s).lastTerm == s[i].term.value
    {
      assert Terms(s)[i] == s[i].term;
    }
  }

  /** `v` is the commit index of the newest heartbeat that has one, zero if none has. */
  ghost predicate NewestCommit(s: seq<Beat>, v: nat)
  {
    && (forall i :: 0 <= i < |s| && !s[i].commit.None? && (forall j :: i < j < |s| ==> s[j].commit.None?) ==> v == s[i].commit.value)
    && ((forall i :: 0 <= i < |s| ==> s[i].commit.None?) ==> v == 0)
  }

  lemma NewestCommitIs(s: seq<Beat>)
    ensures NewestCommit(s, Summary(s).lastCommit)
  {
    LastSomeIsNewest(Commits(s));
    assert forall i :: 0 <= i < |s| ==> Commits(s)[i] == s[i].commit;
    hide LastSome, LastNonEmpty;
    forall i | 0 <= i < |s| && !s[i].commit.None? && (forall j :: i < j < |s| ==> s[j].commit.None?)
      ensures Summary(s).lastCommit == s[i].commit.value
    {
      assert Commits(s)[i] == s[i].commit;
    }
  }

  /** `v` is the node of the newest heartbeat that names one, empty if none does. */
  ghost predicate NewestNode(s: seq<Beat>, v: string)
  {
    && (forall i :: 0 <= i < |s| && !(s[i].nodeID == "") && (forall j :: i < j < |s| ==> (s[j].nodeID == "")) ==> v == s[i].nodeID)
    && ((forall i :: 0 <= i < |s| ==> (s[i].nodeID == "")) ==> v == "")
  }

  lemma NewestNodeIs(s: seq<Beat>)
    ensures NewestNode(s, Summary(s).nodeID)
  {
    LastNonEmptyIsNewest(Names(s));
    assert forall i :: 0 <= i < |s| ==> Names(s)[i] == s[i].nodeID;
    hide LastSome, LastNonEmpty;
    forall i | 0 <= i < |s| && !(s[i].nodeID == "") && (forall j :: i < j < |s| ==> (s[j].nodeID == ""))
      ensures Summary(s).nodeID == s[i].nodeID
    {
      assert Names(s)[i] == s[i].nodeID;
    }
  }

  lemma PeersAre(s: seq<Beat>, p: string)
    ensures p in Summary(s).peers <==> p != "" && exists i :: 0 <= i < |s| && s[i].peer == Some(p)
  {
    if p in Peers(s) {
      var h :| h in s && h.peer.Some? && h.peer.value != "" && h.peer.value == p;
      var i :| 0 <= i < |s| && s[i] == h;
    }
  }

  /** A summary, heartbeat by heartbeat. */
  lemma SummaryIs(s: seq<Beat>)
    ensures Summary(s).count == |s|
    ensures NewestTerm(s, Summary(s).lastTerm) && NewestCommit(s, Summary(s).lastCommit) && NewestNode(s, Summary(s).nodeID)
    ensures forall p :: p in Summary(s).peers <==> p != "" && exists i :: 0 <= i < |s| && s[i].peer == Some(p)
  {
    NewestTermIs(s);
    NewestCommitIs(s);
    NewestNodeIs(s);
    assert Summary(s).count == |s|;
    hide NewestTerm, NewestCommit, NewestNode, Summary;
    forall p
      ensures p in Summary(s).peers <==> p != "" && exists i :: 0 <= i < |s| && s[i].peer == Some(p)
    {
      PeersAre(s, p);
    }
  }

  /** Folding one heartbeat more summarises the longer stretch. */
  lemma AbsorbSummary(s: seq<Beat>, h: Beat)
    ensures Absorb(Summary(s), h) == Summary(s + [h])
  {
    var more := s + [h];
    assert Terms(more)[..|s|] == Terms(s) && Terms(more)[|s|] == h.term;
    assert Commits(more)[..|s|] == Commits(s) && Commits(more)[|s|] == h.commit;
    assert Names(more)[..|s|] == Names(s) && Names(more)[|s|] == h.nodeID;
    assert Peers(more) == Absorb(Summary(s), h).peers by {
      assert forall x :: x in more <==> x in s || x == h;
    }
  }

  // ---- one direction ---------------------------------------------------------------------------

  datatype Batch = Batch(cell: nat, content: Accum)

  /**
   One direction: the heap cells of its accumulators, the pointer the hub holds (`hbSent` or `hbRecv`),
   the cells flushes have swapped out and not finished with, and the batches rendered.
   `accepted` is the stream so far and `cuts` where in it each cell began: bookkeeping.
   */
  datatype Lane = Lane(heap: map<nat, Accum>, current: nat, inFlight: set<nat>, batches: seq<Batch>,
                       accepted: seq<Beat>, cuts: seq<nat>)

  const InitLane := Lane(map[0 := Fresh], 0, {}, [], [], [0])

  /** The field updates, through whatever pointer the goroutine has loaded. */
  function Write(l: Lane, cell: nat, h: Beat): Lane
    requires cell in l.heap
  {
    l.(heap := l.heap[cell := Absorb(l.heap[cell], h)], accepted := l.accepted + [h])
  }

  /** A heartbeat folded into the cell the hub points at. */
  function Accept(l: Lane, h: Beat): Lane
    requires l.current in l.heap
  {
    Write(l, l.current, h)
  }

  function SwapOut(l: Lane): Lane
  {
    l.(heap := l.heap[l.current + 1 := Fresh], current := l.current + 1,
       inFlight := l.inFlight + {l.current}, cuts := l.cuts + [|l.accepted|])
  }

  /** `batchEvent`: reads the cell, long after the lock is given back. */
  function Render(l: Lane, cell: nat): Lane
    requires cell in l.heap
  {
    l.(inFlight := l.inFlight - {cell}, batches := l.batches + [Batch(cell, l.heap[cell])])
  }

  /** A cell whose count is zero is dropped. */
  function Discard(l: Lane, cell: nat): Lane
  {
    l.(inFlight := l.inFlight - {cell})
  }

  ghost function Sum(heap: map<nat, Accum>, cells: set<nat>): nat
    requires cells <= heap.Keys
  {
    if cells == {} then 0
    else
      var c :| c in cells;
      heap[c].count + Sum(heap, cells - {c})
  }

  function BatchTotal(batches: seq<Batch>): nat
  {
    if batches == [] then 0
    else BatchTotal(batches[..|batches| - 1]) + batches[|batches| - 1].content.count
  }

  lemma {:induction false} SumWithout(heap: map<nat, Accum>, cells: set<nat>, c: nat)
    requires cells <= heap.Keys && c in cells
    ensures Sum(heap, cells) == heap[c].count + Sum(heap, cells - {c})
  {
    var d :| d in cells && Sum(heap, cells) == heap[d].count + Sum(heap, cells - {d});
    if d != c {
      SumWithout(heap, cells - {d}, c);
      SumWithout(heap, cells - {c}, d);
      assert cells - {d} - {c} == cells - {c} - {d};
    }
  }

  lemma {:induction false} SumFrame(heap: map<nat, Accum>, heap': map<nat, Accum>, cells: set<nat>)
    requires cells <= heap.Keys && cells <= heap'.Keys
    requires forall c :: c in cells ==> heap[c] == heap'[c]
    ensures Sum(heap, cells) == Sum(heap', cells)
  {
    if cells != {} {
      var c :| c in cells;
      SumWithout(heap, cells, c);
      SumWithout(heap', cells, c);
      SumFrame(heap, heap', cells - {c});
    }
  }

  /** Consecutive stretches tile the stream: the first begins it, each ends where the next begins. */
  predicate CutsOk(accepted: seq<Beat>, cuts: seq<nat>)
  {
    && |cuts| > 0 && cuts[0] == 0
    && (forall c :: 0 <= c < |cuts| ==> cuts[c] <= |accepted|)
    && (forall c, d :: 0 <= c <= d < |cuts| ==> cuts[c] <= cuts[d])
  }

  /** The stretch of the stream that cell `c` is for. */
  function Stretch(accepted: seq<Beat>, cuts: seq<nat>, c: nat): seq<Beat>
    requires CutsOk(accepted, cuts) && c < |cuts|
  {
    if c + 1 < |cuts| then accepted[cuts[c]..cuts[c + 1]] else accepted[cuts[c]..]
  }

  /** Every cell holds the summary of its own stretch. */
  ghost predicate CellsOk(heap: map<nat, Accum>, current: nat, accepted: seq<Beat>, cuts: seq<nat>)
  {
    && CutsOk(accepted, cuts) && |cuts| == current + 1
    && (forall c: nat :: c <= current ==> c in heap && heap[c] == Summary(Stretch(accepted, cuts, c)))
  }

  /** A swapped-out cell is in flight, or rendered once as it is, or was empty. */
  ghost predicate SettledOk(heap: map<nat, Accum>, current: nat, inFlight: set<nat>, batches: seq<Batch>)
  {
    && (forall c :: c in inFlight ==> c < current && c in heap)
    && (forall i :: 0 <= i < |batches| ==>
          && batches[i].cell < current && batches[i].cell in heap && batches[i].cell !in inFlight
          && batches[i].content == heap[batches[i].cell] && batches[i].content.count > 0)
    && (forall i, j :: 0 <= i < j < |batches| ==> batches[i].cell != batches[j].cell)
    && (forall c: nat :: c < current && c in heap && c !in inFlight && heap[c].count > 0 ==> Rendered(batches, c))
  }

  ghost predicate Rendered(batches: seq<Batch>, c: nat)
  {
    exists i :: 0 <= i < |batches| && batches[i].cell == c
  }

  ghost predicate Conserved(heap: map<nat, Accum>, current: nat, inFlight: set<nat>, batches: seq<Batch>, accepted: nat)
  {
    inFlight <= heap.Keys && current in heap &&
    accepted == BatchTotal(batches) + Sum(heap, inFlight) + heap[current].count
  }

  ghost predicate LaneInv(l: Lane)
  {
    && CellsOk(l.heap, l.current, l.accepted, l.cuts)
    && SettledOk(l.heap, l.current, l.inFlight, l.batches)
    && Conserved(l.heap, l.current, l.inFlight, l.batches, |l.accepted|)
  }

  lemma InitLaneInv()
    ensures LaneInv(InitLane)
  {
    assert Stretch([], [0], 0) == [];
    assert Peers([]) == {};
  }

  lemma AcceptKept(l: Lane, h: Beat)
    requires LaneInv(l)
    ensures LaneInv(Accept(l, h))
  {
    AcceptCells(l, h);
    SettledFrame(l.heap, Accept(l, h).heap, l.current, l.inFlight, l.batches);
    SumFrame(l.heap, Accept(l, h).heap, l.inFlight);
    hide CellsOk, SettledOk;
  }

  lemma StretchAccept(accepted: seq<Beat>, cuts: seq<nat>, h: Beat, c: nat)
    requires CutsOk(accepted, cuts) && c < |cuts|
    ensures CutsOk(accepted + [h], cuts)
    ensures c + 1 < |cuts| ==> Stretch(accepted + [h], cuts, c) == Stretch(accepted, cuts, c)
    ensures c + 1 == |cuts| ==> Stretch(accepted + [h], cuts, c) == Stretch(accepted, cuts, c) + [h]
  {
  }

  lemma AcceptCells(l: Lane, h: Beat)
    requires CellsOk(l.heap, l.current, l.accepted, l.cuts)
    ensures CellsOk(Accept(l, h).heap, l.current, l.accepted + [h], l.cuts)
  {
    var heap' := Accept(l, h).heap;
    hide Summary, Absorb, Stretch;
    StretchAccept(l.accepted, l.cuts, h, 0);
    hide CutsOk;
    forall c: nat | c <= l.current
      ensures c in heap' && heap'[c] == Summary(Stretch(l.accepted + [h], l.cuts, c))
    {
      StretchAccept(l.accepted, l.cuts, h, c);
      if c == l.current {
        AbsorbSummary(Stretch(l.accepted, l.cuts, c), h);
      }
    }
  }

  /** Only the current cell, which nobody has swapped out, may change. */
  lemma SettledFrame(heap: map<nat, Accum>, heap': map<nat, Accum>, current: nat, inFlight: set<nat>, batches: seq<Batch>)
    requires SettledOk(heap, current, inFlight, batches)
    requires forall c: nat :: c < current ==> (c in heap <==> c in heap') && (c in heap ==> heap[c] == heap'[c])
    ensures SettledOk(heap', current, inFlight, batches)
  {
    hide Rendered;
  }

  lemma SwapOutKept(l: Lane)
    requires LaneInv(l)
    ensures LaneInv(SwapOut(l))
  {
    SwapOutCells(l);
    CurrentIsHeld(l.heap, l.current, l.inFlight, l.batches, l.accepted, l.cuts);
    SettledSwap(l.heap, l.current, l.inFlight, l.batches);
    SumSwap(l.heap, l.current, l.inFlight);
    hide CellsOk, SettledOk, Sum;
  }

  /** The cell the hub points at is nobody else's. */
  lemma CurrentIsHeld(heap: map<nat, Accum>, current: nat, inFlight: set<nat>, batches: seq<Batch>, accepted: seq<Beat>, cuts: seq<nat>)
    requires CellsOk(heap, current, accepted, cuts) && SettledOk(heap, current, inFlight, batches)
    ensures current in heap && current !in inFlight && current + 1 !in inFlight && inFlight <= heap.Keys
  {
    hide Summary;
  }

  lemma SumSwap(heap: map<nat, Accum>, current: nat, inFlight: set<nat>)
    requires current in heap && current !in inFlight && current + 1 !in inFlight && inFlight <= heap.Keys
    ensures inFlight + {current} <= heap[current + 1 := Fresh].Keys
    ensures Sum(heap[current + 1 := Fresh], inFlight + {current}) == Sum(heap, inFlight) + heap[current].count
  {
    var heap' := heap[current + 1 := Fresh];
    SumWithout(heap', inFlight + {current}, current);
    assert inFlight + {current} - {current} == inFlight;
    SumFrame(heap, heap', inFlight);
  }

  lemma SettledSwap(heap: map<nat, Accum>, current: nat, inFlight: set<nat>, batches: seq<Batch>)
    requires SettledOk(heap, current, inFlight, batches) && current in heap
    ensures SettledOk(heap[current + 1 := Fresh], current + 1, inFlight + {current}, batches)
  {
    hide Rendered;
  }

  lemma SwapOutCells(l: Lane)
    requires CellsOk(l.heap, l.current, l.accepted, l.cuts)
    ensures CellsOk(SwapOut(l).heap, l.current + 1, l.accepted, SwapOut(l).cuts)
  {
    var cuts' := l.cuts + [|l.accepted|];
    assert Summary([]) == Fresh by {
      assert Peers([]) == {};
    }
    hide Summary;
    assert Stretch(l.accepted, cuts', l.current + 1) == [];
    forall c: nat | c <= l.current
      ensures Stretch(l.accepted, cuts', c) == Stretch(l.accepted, l.cuts, c)
    {
    }
  }

  lemma RenderKept(l: Lane, cell: nat)
    requires LaneInv(l) && cell in l.inFlight && cell in l.heap && l.heap[cell].count > 0
    ensures LaneInv(Render(l, cell))
  {
    var l' := Render(l, cell);
    assert l'.batches[..|l'.batches| - 1] == l.batches;
    SumWithout(l.heap, l.inFlight, cell);
    SettledRender(l.heap, l.current, l.inFlight, l.batches, cell);
    hide CellsOk, SettledOk;
  }

  lemma SettledRender(heap: map<nat, Accum>, current: nat, inFlight: set<nat>, batches: seq<Batch>, cell: nat)
    requires SettledOk(heap, current, inFlight, batches) && cell in inFlight && heap[cell].count > 0
    ensures SettledOk(heap, current, inFlight - {cell}, batches + [Batch(cell, heap[cell])])
  {
    var batches' := batches + [Batch(cell, heap[cell])];
    forall c: nat | c == cell || Rendered(batches, c)
      ensures Rendered(batches', c)
    {
      if c == cell {
        assert batches'[|batches|].cell == c;
      } else {
        var i :| 0 <= i < |batches| && batches[i].cell == c;
        assert batches'[i].cell == c;
      }
    }
    hide Rendered;
  }

  lemma DiscardKept(l: Lane, cell: nat)
    requires LaneInv(l) && cell in l.inFlight && cell in l.heap && l.heap[cell].count == 0
    ensures LaneInv(Discard(l, cell))
  {
    SumWithout(l.heap, l.inFlight, cell);
    SettledDiscard(l.heap, l.current, l.inFlight, l.batches, cell);
    hide CellsOk, SettledOk;
  }

  lemma SettledDiscard(heap: map<nat, Accum>, current: nat, inFlight: set<nat>, batches: seq<Batch>, cell: nat)
    requires SettledOk(heap, current, inFlight, batches) && cell in inFlight && heap[cell].count == 0
    ensures SettledOk(heap, current, inFlight - {cell}, batches)
  {
    hide Rendered;
  }

  /** A cell dropped for its zero count never held anything. */
  lemma DiscardedIsFresh(l: Lane, cell: nat)
    requires LaneInv(l) && cell in l.inFlight && cell in l.heap && l.heap[cell].count == 0
    ensures l.heap[cell] == Fresh && cell < |l.cuts| && Stretch(l.accepted, l.cuts, cell) == []
  {
    assert Peers([]) == {};
  }

  /** No operation of the lane writes a cell that has been swapped out. */
  ghost predicate OldCellsKept(l: Lane, l': Lane)
  {
    l.current <= l'.current &&
    forall c: nat :: c < l.current && c in l.heap ==> c in l'.heap && l'.heap[c] == l.heap[c]
  }
}
