/** The coalescer as the objects it is made of. */
module HeartbeatObject {
  import opened Basics
  import opened Heartbeat
  import Sorting

  datatype BatchEvent = BatchEvent(received: bool, nodeID: string, count: nat, term: nat, commit: nat, peers: seq<string>)

  /** The batch says all that the accumulator held, its peers listed in order and once each. */
  ghost predicate Describes(b: BatchEvent, received: bool, a: Accum)
  {
    && b == BatchEvent(received, a.nodeID, a.count, a.lastTerm, a.lastCommit, b.peers)
    && Sorting.StrictlySorted(b.peers) && (forall id :: id in b.peers <==> id in a.peers)
  }

  /** Map order leaves no choice: an accumulator has one rendering. */
  lemma DescribesOne(b: BatchEvent, c: BatchEvent, received: bool, a: Accum)
    requires Describes(b, received, a) && Describes(c, received, a)
    ensures b == c
  {
    Sorting.SortedUnique(b.peers, c.peers);
  }

  class HBAccum {
    var count: nat
    var nodeID: string
    var peerIDs: set<string>
    var lastTerm: nat
    var lastCommit: nat

    function View(): Accum
      reads this
    {
      Accum(count, nodeID, peerIDs, lastTerm, lastCommit)
    }

    constructor ()
      ensures View() == Fresh
    {
      count, nodeID, peerIDs, lastTerm, lastCommit := 0, "", {}, 0, 0;
    }

    method Add(h: Beat)
      modifies this
      ensures View() == Absorb(old(View()), h)
    {
      count := count + 1;
      if h.nodeID != "" {
        nodeID := h.nodeID;
      }
      if h.peer.Some? && h.peer.value != "" {
        peerIDs := peerIDs + {h.peer.value};
      }
      if h.term.Some? {
        lastTerm := h.term.value;
      }
      if h.commit.Some? {
        lastCommit := h.commit.value;
      }
    }

    /** The peers come out sorted whatever order the map is walked in. */
    method Batch(received: bool) returns (b: BatchEvent)
      ensures Describes(b, received, View())
    {
      var ids := Sorting.SortedListing(peerIDs);
      b := BatchEvent(received, nodeID, count, lastTerm, lastCommit, ids);
    }
  }

  class Coalescer {
    var hbSent: HBAccum
    var hbRecv: HBAccum

    ghost predicate Valid()
      reads this
    {
      hbSent != hbRecv
    }

    constructor ()
      ensures Valid() && fresh(hbSent) && fresh(hbRecv)
      ensures hbSent.View() == Fresh && hbRecv.View() == Fresh
    {
      hbSent := new HBAccum();
      hbRecv := new HBAccum();
    }

    /** `Broadcast` of a heartbeat: without data it is ignored. */
    method Accumulate(received: bool, data: Option<Beat>)
      requires Valid()
      modifies hbSent, hbRecv
      ensures hbSent.View() == if data.Some? && !received then Absorb(old(hbSent.View()), data.value) else old(hbSent.View())
      ensures hbRecv.View() == if data.Some? && received then Absorb(old(hbRecv.View()), data.value) else old(hbRecv.View())
    {
      if data.None? {
        return;
      }
      var accum := hbSent;
      if received {
        accum := hbRecv;
      }
      accum.Add(data.value);
    }

    /** The locked part of `hbFlushOnce`: both accumulators change hands, or neither. */
    method Swap() returns (swapped: bool, sent: HBAccum, recv: HBAccum)
      requires Valid()
      modifies this
      ensures Valid()
      ensures sent == old(hbSent) && recv == old(hbRecv)
      ensures swapped <==> old(hbSent.count > 0 || hbRecv.count > 0)
      ensures swapped ==> fresh(hbSent) && fresh(hbRecv) && hbSent.View() == Fresh && hbRecv.View() == Fresh
      ensures !swapped ==> hbSent == sent && hbRecv == recv
    {
      sent, recv := hbSent, hbRecv;
      if sent.count == 0 && recv.count == 0 {
        return false, sent, recv;
      }
      hbSent := new HBAccum();
      hbRecv := new HBAccum();
      swapped := true;
    }

    /** One flush with nobody in between: one batch a direction that saw anything, sent before received. */
    method FlushOnce() returns (batches: seq<BatchEvent>)
      requires Valid()
      modifies this
      ensures Valid()
      ensures hbSent.count == 0 && hbRecv.count == 0
      ensures old(hbSent.count > 0 || hbRecv.count > 0) ==> hbSent.View() == Fresh && hbRecv.View() == Fresh
      ensures |batches| == (if old(hbSent.count) > 0 then 1 else 0) + (if old(hbRecv.count) > 0 then 1 else 0)
      ensures old(hbSent.count) > 0 ==> Describes(batches[0], false, old(hbSent.View()))
      ensures old(hbRecv.count) > 0 ==> Describes(batches[|batches| - 1], true, old(hbRecv.View()))
    {
      batches := [];
      var swapped, sent, recv := Swap();
      if !swapped {
        return;
      }
      if sent.count > 0 {
        var b := sent.Batch(false);
        batches := batches + [b];
      }
      if recv.count > 0 {
        var b := recv.Batch(true);
        batches := batches + [b];
      }
    }
  }

  /** The heartbeats of one direction, in order. */
  function Of(beats: seq<(bool, Beat)>, received: bool): seq<Beat>
  {
    if beats == [] then []
    else
      var last := beats[|beats| - 1];
      Of(beats[..|beats| - 1], received) + (if last.0 == received then [last.1] else [])
  }

  lemma OneMore(beats: seq<(bool, Beat)>, i: nat, received: bool)
    requires i < |beats|
    ensures Summary(Of(beats[..i + 1], received)) ==
            if beats[i].0 == received then Absorb(Summary(Of(beats[..i], received)), beats[i].1)
            else Summary(Of(beats[..i], received))
  {
    assert beats[..i + 1][..i] == beats[..i];
    AbsorbSummary(Of(beats[..i], received), beats[i].1);
    hide Summary, Absorb;
    assert Of(beats[..i], received) + [] == Of(beats[..i], received);
  }

  /** Heartbeats that arrive after the swap leave what was swapped out alone; the new pair summarises them by direction. */
  method SwapThenAccumulate(c: Coalescer, beats: seq<(bool, Beat)>) returns (sent: HBAccum, recv: HBAccum)
    requires c.Valid() && (c.hbSent.count > 0 || c.hbRecv.count > 0)
    modifies c, c.hbSent, c.hbRecv
    ensures sent == old(c.hbSent) && sent.View() == old(c.hbSent.View())
    ensures recv == old(c.hbRecv) && recv.View() == old(c.hbRecv.View())
    ensures c.hbSent.View() == Summary(Of(beats, false))
    ensures c.hbRecv.View() == Summary(Of(beats, true))
  {
    var swapped;
    swapped, sent, recv := c.Swap();
    var i := 0;
    assert Summary([]) == Fresh by { assert Peers([]) == {}; }
    hide Summary, Absorb;
    while i < |beats|
      invariant 0 <= i <= |beats|
      invariant c.Valid() && fresh(c.hbSent) && fresh(c.hbRecv) && c.hbSent != sent && c.hbSent != recv && c.hbRecv != sent && c.hbRecv != recv
      invariant sent.View() == old(c.hbSent.View()) && recv.View() == old(c.hbRecv.View())
      invariant c.hbSent.View() == Summary(Of(beats[..i], false))
      invariant c.hbRecv.View() == Summary(Of(beats[..i], true))
    {
      OneMore(beats, i, false);
      OneMore(beats, i, true);
      c.Accumulate(beats[i].0, Some(beats[i].1));
      i := i + 1;
    }
    assert beats[..i] == beats;
  }
}
