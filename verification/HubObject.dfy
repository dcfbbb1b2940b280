/** The hub as the object it is: one goroutine's call at a time, every field updated in place. */
module HubObject {
  import opened Basics
  import opened Events
  import opened Windows

  /** A buffered Go channel of capacity 64. */
  class Channel {
    var buf: seq<Event>
    var closed: bool

    constructor ()
      ensures buf == [] && !closed
    {
      buf, closed := [], false;
    }

    /** The non-blocking `select`; sending on a closed channel would panic. */
    method TrySend(e: Event) returns (ok: bool)
      requires !closed
      modifies this`buf
      ensures ok <==> |old(buf)| < 64
      ensures buf == if |old(buf)| < 64 then old(buf) + [e] else old(buf)
    {
      ok := |buf| < CLIENT_BUFFER;
      if ok {
        buf := buf + [e];
      }
    }

    /** Closing twice would panic. */
    method Close()
      requires !closed
      modifies this`closed
      ensures closed
    {
      closed := true;
    }
  }

  class Hub {
    var clients: set<Channel>
    const history: Window<Event>
    const heartbeatHistory: Window<Event>
    var sequence: nat

    ghost predicate Valid()
      reads this, history, history.arr, heartbeatHistory, heartbeatHistory.arr, clients
    {
      && history.Valid() && history.max == 50
      && heartbeatHistory.Valid() && heartbeatHistory.max == 10
      && history != heartbeatHistory && history.arr != heartbeatHistory.arr
      && (forall ch :: ch in clients ==> !ch.closed && |ch.buf| <= 64)
    }

    constructor ()
      ensures Valid() && clients == {} && sequence == 0
      ensures history.Contents() == [] && heartbeatHistory.Contents() == []
      ensures fresh(history) && fresh(history.arr) && fresh(heartbeatHistory) && fresh(heartbeatHistory.arr)
    {
      clients, sequence := {}, 0;
      history := new Window(MAX_HISTORY);
      heartbeatHistory := new Window(MAX_HB_HISTORY);
    }

    method Subscribe() returns (ch: Channel, activate: bool)
      requires Valid()
      modifies this`clients
      ensures Valid() && fresh(ch) && ch.buf == []
      ensures clients == old(clients) + {ch}
      ensures activate <==> old(clients) == {}
    {
      ch := new Channel();
      assert ch !in clients;
      clients := clients + {ch};
      activate := |clients| == 1;
      assert |clients| == |old(clients)| + 1;
    }

    /** The closure `Subscribe` hands out; calling it again does nothing. */
    method Unsubscribe(ch: Channel) returns (deactivate: bool)
      requires Valid()
      modifies this`clients, ch`closed
      ensures Valid()
      ensures clients == old(clients) - {ch}
      ensures ch.closed <==> ch in old(clients) || old(ch.closed)
      ensures deactivate <==> ch in old(clients) && clients == {}
    {
      if ch !in clients {
        return false;
      }
      clients := clients - {ch};
      ch.Close();
      deactivate := |clients| == 0;
    }

    method IsActive() returns (active: bool)
      ensures active <==> clients != {}
    {
      active := |clients| > 0;
    }

    method GetHistory() returns (copy: array<Event>)
      requires Valid()
      ensures fresh(copy) && copy[..] == history.Contents()
    {
      copy := history.Clone();
    }

    method GetHeartbeatHistory() returns (copy: array<Event>)
      requires Valid()
      ensures fresh(copy) && copy[..] == heartbeatHistory.Contents()
    {
      copy := heartbeatHistory.Clone();
    }

    /** Records the event in the cache of its kind and tries every client once. */
    method BroadcastDirect(evt: Event, millis: int) returns (sent: Event)
      requires Valid()
      modifies this`sequence, history, history.arr, heartbeatHistory, heartbeatHistory.arr, clients`buf
      ensures Valid()
      ensures sent == (if evt.id == "" then evt.(id := EventID(millis, sequence)) else evt)
      ensures sequence == if evt.id == "" then old(sequence) + 1 else old(sequence)
      ensures history.Contents() == if evt.typ in {StateSnapshot, HeartbeatSent, HeartbeatReceived} then old(history.Contents())
                                    else LastN(old(history.Contents()) + [sent], 50)
      ensures heartbeatHistory.Contents() == if evt.typ in {HeartbeatSent, HeartbeatReceived}
                                             then LastN(old(heartbeatHistory.Contents()) + [sent], 10)
                                             else old(heartbeatHistory.Contents())
      ensures history.arr == old(history.arr) || fresh(history.arr)
      ensures heartbeatHistory.arr == old(heartbeatHistory.arr) || fresh(heartbeatHistory.arr)
      ensures forall ch :: ch in clients ==> ch.buf == if |old(ch.buf)| < 64 then old(ch.buf) + [sent] else old(ch.buf)
    {
      sent := evt;
      if sent.id == "" {
        sequence := sequence + 1;
        sent := sent.(id := EventID(millis, sequence));
      }
      Record(sent);
      var active := IsActive();
      if !active {
        return;
      }
      Deliver(sent);
    }

    /** The `switch` under the write lock. */
    method Record(evt: Event)
      requires Valid()
      modifies history, history.arr, heartbeatHistory, heartbeatHistory.arr
      ensures Valid()
      ensures history.Contents() == if evt.typ in {StateSnapshot, HeartbeatSent, HeartbeatReceived} then old(history.Contents())
                                    else LastN(old(history.Contents()) + [evt], 50)
      ensures heartbeatHistory.Contents() == if evt.typ in {HeartbeatSent, HeartbeatReceived}
                                             then LastN(old(heartbeatHistory.Contents()) + [evt], 10)
                                             else old(heartbeatHistory.Contents())
      ensures history.arr == old(history.arr) || fresh(history.arr)
      ensures heartbeatHistory.arr == old(heartbeatHistory.arr) || fresh(heartbeatHistory.arr)
    {
      match CacheOf(evt.typ) {
        case Batches => heartbeatHistory.Push(evt);
        case History => history.Push(evt);
        case NoCache =>
      }
    }

    /** The delivery loop: every registered channel is visited once, in any order. */
    method Deliver(evt: Event)
      requires Valid()
      modifies clients`buf
      ensures Valid()
      ensures forall ch :: ch in clients ==> ch.buf == if |old(ch.buf)| < 64 then old(ch.buf) + [evt] else old(ch.buf)
    {
      var pending := clients;
      while pending != {}
        invariant pending <= clients
        invariant forall ch :: ch in pending ==> ch.buf == old(ch.buf)
        invariant forall ch :: ch in clients - pending ==> ch.buf == if |old(ch.buf)| < 64 then old(ch.buf) + [evt] else old(ch.buf)
        decreases pending
      {
        var ch :| ch in pending;
        var _ := ch.TrySend(evt);
        pending := pending - {ch};
      }
    }
  }
}
