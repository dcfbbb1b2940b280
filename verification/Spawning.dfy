/** Node IDs and ports for spawned child processes. */
module Spawning {
  import opened Basics
  import Decimal

  const MAX_IDS: nat := 500
  const FIRST_PORT: nat := 7004
  const HTTP_FALLBACK: nat := 8004
  const PORT_RANGE: nat := 2000

  function NodeID(i: nat): string
  {
    "node-" + Decimal.Print(i)
  }

  /** The name is "node-" and the number in decimal. */
  lemma NodeIDReads(i: nat)
    ensures var id := NodeID(i); |id| > 5 && id[..5] == "node-" && Decimal.Digits(id[5..]) && Decimal.Value(id[5..]) == i
    ensures NodeID(i)[5] == '0' <==> i == 0
  {
    Decimal.PrintReadsBack(i);
    assert NodeID(i)[..5] == "node-" && NodeID(i)[5..] == Decimal.Print(i);
    hide Decimal.Print;
  }

  lemma NodeIDInjective(i: nat, j: nat)
    requires NodeID(i) == NodeID(j)
    ensures i == j
  {
    assert NodeID(i)[5..] == Decimal.Print(i) && NodeID(j)[5..] == Decimal.Print(j);
    Decimal.PrintInjective(i, j);
  }

  function IDsUpTo(n: nat): set<string>
  {
    set i | 1 <= i <= n :: NodeID(i)
  }

  lemma {:induction false} IDsUpToCount(n: nat)
    ensures |IDsUpTo(n)| == n
  {
    if n > 0 {
      IDsUpToCount(n - 1);
      assert IDsUpTo(n) == IDsUpTo(n - 1) + {NodeID(n)};
      if NodeID(n) in IDsUpTo(n - 1) {
        var i :| 1 <= i <= n - 1 && NodeID(i) == NodeID(n);
        NodeIDInjective(i, n);
        assert false;
      }
    } else {
      assert IDsUpTo(0) == {};
    }
  }

  lemma SubsetSize<T>(a: set<T>, b: set<T>)
    requires a <= b
    ensures |a| <= |b|
  {
    assert b == a + (b - a);
  }

  /** The used names that the search for a free number runs into. */
  function Taken(used: set<string>): set<string>
  {
    used * IDsUpTo(MAX_IDS)
  }

  /** Pigeonhole: a number is free if and only if fewer than 500 of the names are taken. */
  lemma SomeIDIsFree(used: set<string>)
    ensures (exists i :: 1 <= i <= MAX_IDS && NodeID(i) !in used) <==> |Taken(used)| < MAX_IDS
  {
    IDsUpToCount(MAX_IDS);
    if i :| 1 <= i <= MAX_IDS && NodeID(i) !in used {
      assert NodeID(i) in IDsUpTo(MAX_IDS);
      SubsetSize(Taken(used) + {NodeID(i)}, IDsUpTo(MAX_IDS));
    } else {
      assert Taken(used) == IDsUpTo(MAX_IDS);
    }
  }

  datatype ProcessInfo = ProcessInfo(nodeID: string, raftPort: nat, httpPort: nat)

  /** What the operating system answers during one spawn; each search probes a port at most once. */
  datatype OS = OS(freeRaft: nat -> bool, freeHTTP: nat -> bool, freeFallback: nat -> bool,
                   logOk: bool, startOk: bool, clock: nat)

  /** `port` is the lowest free one of the 2000 from `start` on, `None` if none of them is. */
  ghost predicate FirstFree(port: Option<nat>, start: nat, free: nat -> bool)
  {
    match port
    case Some(p) => start <= p < start + 2000 && free(p) && forall q: nat :: start <= q < p ==> !free(q)
    case None => forall q: nat :: start <= q < start + 2000 ==> !free(q)
  }

  /** Probes ports upward. */
  method FindFreePort(startPort: nat, free: nat -> bool) returns (port: Option<nat>)
    ensures FirstFree(port, startPort, free)
  {
    var p := startPort;
    while p < startPort + PORT_RANGE
      invariant startPort <= p <= startPort + PORT_RANGE
      invariant forall q: nat :: startPort <= q < p ==> !free(q)
    {
      if free(p) {
        return Some(p);
      }
      p := p + 1;
    }
    port := None;
  }

  /** The HTTP port is looked for a thousand above the raft port, then from 8004 on. */
  ghost predicate HTTPPort(port: Option<nat>, raftPort: nat, os: OS)
  {
    if FirstFree(None, raftPort + 1000, os.freeHTTP) then FirstFree(port, 8004, os.freeFallback)
    else FirstFree(port, raftPort + 1000, os.freeHTTP)
  }

  class Manager {
    const localNodeID: string
    var children: map<string, ProcessInfo>
    var nextPort: nat

    constructor (localNodeID: string)
      ensures this.localNodeID == localNodeID && children == map[] && nextPort == 7004
    {
      this.localNodeID := localNodeID;
      children, nextPort := map[], FIRST_PORT;
    }

    function Used(existing: seq<string>): set<string>
      reads this
    {
      {localNodeID} + (set p | p in existing) + children.Keys
    }

    /**
     The lowest unused number up to 500; a name made from the clock if there is none. The name is unused
     if and only if fewer than 500 of the candidate names are taken or the clock happens on an unused one.
     */
    method NextAvailableNodeID(existing: seq<string>, clock: nat) returns (id: string)
      ensures (exists i :: 1 <= i <= MAX_IDS && NodeID(i) !in Used(existing)) ==>
                exists i :: 1 <= i <= MAX_IDS && id == NodeID(i) && NodeID(i) !in Used(existing) &&
                  forall j :: 1 <= j < i ==> NodeID(j) in Used(existing)
      ensures (forall i :: 1 <= i <= MAX_IDS ==> NodeID(i) in Used(existing)) ==> id == NodeID(clock % 10000)
      ensures |id| > 5 && id[..5] == "node-" && Decimal.Digits(id[5..]) && (id[5] == '0' ==> |id| == 6)
      ensures |Taken(Used(existing))| < 500 ==>
                var n := Decimal.Value(id[5..]); 1 <= n <= 500 && forall j :: 1 <= j < n ==> NodeID(j) in Used(existing)
      ensures |Taken(Used(existing))| == 500 ==> Decimal.Value(id[5..]) == clock % 10000
      ensures |Taken(Used(existing))| < MAX_IDS ==> id in IDsUpTo(MAX_IDS)
      ensures id !in Used(existing) <==> |Taken(Used(existing))| < MAX_IDS || NodeID(clock % 10000) !in Used(existing)
    {
      SomeIDIsFree(Used(existing));
      var used: set<string> := {localNodeID};
      var k := 0;
      while k < |existing|
        invariant 0 <= k <= |existing|
        invariant used == {localNodeID} + (set p | p in existing[..k])
      {
        assert existing[..k + 1] == existing[..k] + [existing[k]];
        used := used + {existing[k]};
        k := k + 1;
      }
      assert existing[..k] == existing;
      used := used + children.Keys;
      var i := 1;
      while i <= MAX_IDS
        invariant 1 <= i <= MAX_IDS + 1
        invariant forall j :: 1 <= j < i ==> NodeID(j) in used
      {
        if NodeID(i) !in used {
          NodeIDReads(i);
          return NodeID(i);
        }
        i := i + 1;
      }
      id := NodeID(clock % 10000);
      NodeIDReads(clock % 10000);
    }

    /**
     Allocates ports and starts the process. `nextPort` moves past the raft port even if a later part of
     the spawn fails; the child is recorded only if all goes well.
     */
    method SpawnNode(nodeID: string, os: OS) returns (info: Option<ProcessInfo>, raftPort: Option<nat>, ghost httpPort: Option<nat>)
      modifies this
      ensures FirstFree(raftPort, old(nextPort), os.freeRaft)
      ensures nextPort == if raftPort.Some? then raftPort.value + 1 else old(nextPort)
      ensures raftPort.Some? ==> HTTPPort(httpPort, raftPort.value, os)
      ensures info == if raftPort.Some? && httpPort.Some? && os.logOk && os.startOk
                      then Some(ProcessInfo(nodeID, raftPort.value, httpPort.value)) else None
      ensures children == if info.Some? then old(children)[nodeID := info.value] else old(children)
    {
      info, raftPort, httpPort := None, None, None;
      var raft := FindFreePort(nextPort, os.freeRaft);
      if raft.None? {
        return;
      }
      raftPort := raft;
      nextPort := raft.value + 1;
      var http := FindFreePort(raft.value + 1000, os.freeHTTP);
      if http.None? {
        http := FindFreePort(HTTP_FALLBACK, os.freeFallback);
        if http.None? {
          return;
        }
      }
      httpPort := http;
      if !os.logOk {
        return;
      }
      if !os.startOk {
        return;
      }
      info := Some(ProcessInfo(nodeID, raft.value, http.value));
      children := children[nodeID := info.value];
    }
  }

  ghost predicate Distinct(ids: seq<string>)
  {
    forall i, j :: 0 <= i < j < |ids| ==> ids[i] != ids[j]
  }

  /** The IDs handed out so far: all different, all new, all numbered, all in use by now. */
  ghost predicate FreshIDs(ids: seq<string>, used0: set<string>, used: set<string>)
  {
    && Distinct(ids) && used0 <= used
    && (forall i :: 0 <= i < |ids| ==> ids[i] !in used0 && ids[i] in IDsUpTo(MAX_IDS) && ids[i] in used)
    && |Taken(used)| <= |Taken(used0)| + |ids|
  }

  lemma TakenGrows(used: set<string>, id: string)
    ensures |Taken(used + {id})| <= |Taken(used)| + 1
  {
    hide IDsUpTo;
    SubsetSize(Taken(used + {id}), Taken(used) + {id});
  }

  lemma FreshIDsStart(used0: set<string>)
    ensures FreshIDs([], used0, used0)
  {
    hide Taken;
  }

  lemma FreshIDsRoom(ids: seq<string>, used0: set<string>, used: set<string>)
    requires FreshIDs(ids, used0, used)
    ensures |Taken(used)| <= |Taken(used0)| + |ids|
  {
    hide Taken, IDsUpTo;
  }

  lemma FreshIDsUsed(ids: seq<string>, used0: set<string>, used: set<string>)
    requires FreshIDs(ids, used0, used)
    ensures forall id :: id in ids ==> id in used
  {
    hide Taken, IDsUpTo;
  }

  lemma FreshIDsExtend(ids: seq<string>, used0: set<string>, used: set<string>, id: string)
    requires FreshIDs(ids, used0, used) && id !in used && id in IDsUpTo(MAX_IDS)
    ensures FreshIDs(ids + [id], used0, used + {id})
  {
    TakenGrows(used, id);
    hide IDsUpTo, Taken;
  }

  ghost predicate Climbing(ports: seq<nat>, low: nat, high: nat)
  {
    && low <= high
    && (forall i, j :: 0 <= i < j < |ports| ==> ports[i] < ports[j])
    && (forall i :: 0 <= i < |ports| ==> low <= ports[i] < high)
  }

  /** One turn of the spawn loop: the name joins those in use whether or not the spawn succeeds. */
  method SpawnOne(m: Manager, existing: seq<string>, os: OS) returns (id: string, info: Option<ProcessInfo>, port: Option<nat>)
    modifies m
    ensures |Taken(old(m.Used(existing)))| < MAX_IDS ==> id !in old(m.Used(existing)) && id in IDsUpTo(MAX_IDS)
    ensures m.Used(existing + [id]) == old(m.Used(existing)) + {id}
    ensures FirstFree(port, old(m.nextPort), os.freeRaft)
    ensures m.nextPort == if port.Some? then port.value + 1 else old(m.nextPort)
    ensures info.Some? ==> info.value.nodeID == id && port == Some(info.value.raftPort)
    ensures m.children == if info.Some? then old(m.children)[id := info.value] else old(m.children)
  {
    hide Taken, IDsUpTo, NodeID, FirstFree, HTTPPort;
    id := m.NextAvailableNodeID(existing, os.clock);
    assert (set p | p in existing + [id]) == (set p | p in existing) + {id};
    ghost var http;
    info, port, http := m.SpawnNode(id, os);
  }

  const MAX_BATCH: nat := 50

  /** The batch a request asks for: one unless it names a positive number, fifty at most. */
  function BatchSize(requested: int): nat
  {
    if requested <= 0 then 1 else if requested > MAX_BATCH then MAX_BATCH else requested
  }

  /** The children once each spawned process has been recorded under its name, in order. */
  function RecordAll(children: map<string, ProcessInfo>, spawned: seq<ProcessInfo>): map<string, ProcessInfo>
  {
    if spawned == [] then children
    else
      var last := spawned[|spawned| - 1];
      RecordAll(children, spawned[..|spawned| - 1])[last.nodeID := last]
  }

  predicate NamesDiffer(spawned: seq<ProcessInfo>)
  {
    forall i, j :: 0 <= i < j < |spawned| ==> spawned[i].nodeID != spawned[j].nodeID
  }

  /** With distinct names, every spawned process is the child recorded under its name, and no other child changes. */
  lemma {:induction false} RecordedUnderName(children: map<string, ProcessInfo>, spawned: seq<ProcessInfo>)
    requires NamesDiffer(spawned)
    ensures forall p :: p in spawned ==> p.nodeID in RecordAll(children, spawned) && RecordAll(children, spawned)[p.nodeID] == p
    ensures forall id :: (forall p :: p in spawned ==> p.nodeID != id) ==>
              (id in RecordAll(children, spawned) <==> id in children) &&
              (id in children ==> RecordAll(children, spawned)[id] == children[id])
  {
    if spawned != [] {
      var init, last := spawned[..|spawned| - 1], spawned[|spawned| - 1];
      RecordedUnderName(children, init);
      assert spawned == init + [last];
      assert forall p :: p in spawned <==> p in init || p == last;
    }
  }

  /** What was spawned has a name and a port handed out, and is recorded. */
  ghost predicate Accounted(ids: seq<string>, ports: seq<nat>, spawned: seq<ProcessInfo>,
                            before: map<string, ProcessInfo>, children: map<string, ProcessInfo>)
  {
    && (forall p :: p in spawned ==> p.nodeID in ids && p.raftPort in ports)
    && children == RecordAll(before, spawned)
  }

  lemma StartsEmpty(port: nat, children: map<string, ProcessInfo>)
    ensures Climbing([], port, port) && Accounted([], [], [], children, children) && NamesDiffer([])
  {
  }

  lemma AllAccounted(ids: seq<string>, ports: seq<nat>, spawned: seq<ProcessInfo>,
                     before: map<string, ProcessInfo>, children: map<string, ProcessInfo>)
    requires Accounted(ids, ports, spawned, before, children)
    ensures forall i :: 0 <= i < |spawned| ==> spawned[i].nodeID in ids && spawned[i].raftPort in ports
    ensures children == RecordAll(before, spawned)
  {
  }

  lemma ClimbsOn(ports: seq<nat>, low: nat, next: nat, port: Option<nat>, free: nat -> bool)
    requires Climbing(ports, low, next) && FirstFree(port, next, free)
    ensures port.None? ==> Climbing(ports, low, next)
    ensures port.Some? ==> Climbing(ports + [port.value], low, port.value + 1)
  {
  }

  lemma AccountsFor(ids: seq<string>, ports: seq<nat>, spawned: seq<ProcessInfo>, before: map<string, ProcessInfo>,
                    children: map<string, ProcessInfo>, id: string, port: Option<nat>, info: Option<ProcessInfo>)
    requires Accounted(ids, ports, spawned, before, children)
    requires info.Some? ==> info.value.nodeID == id && port == Some(info.value.raftPort)
    ensures var ports' := if port.Some? then ports + [port.value] else ports;
      var spawned' := if info.Some? then spawned + [info.value] else spawned;
      && Accounted(ids + [id], ports', spawned', before, if info.Some? then children[id := info.value] else children)
      && (NamesDiffer(spawned) && id !in ids ==> NamesDiffer(spawned'))
  {
    if info.Some? {
      var more := spawned + [info.value];
      assert more[..|spawned|] == spawned;
      assert forall p :: p in more <==> p in spawned || p == info.value;
      assert forall i :: 0 <= i < |spawned| ==> spawned[i] in spawned;
    }
  }

  /**
   The loop of `handleSpawnNodes`, undisturbed. The raft ports taken climb strictly, whether or not a
   spawn then fails; the children are the old ones and what was spawned. If the taken names and the batch
   fit into 500, every ID is new, no two are equal and none comes from the clock.
   (The taken names are at most the peers, the children and this node.)
   */
  method SpawnBatch(m: Manager, peers: seq<string>, requested: int, os: nat -> OS)
    returns (ids: seq<string>, ports: seq<nat>, spawned: seq<ProcessInfo>)
    modifies m
    ensures |ids| == if requested < 1 then 1 else if requested > 50 then 50 else requested
    ensures |Taken(old(m.Used(peers)))| + |ids| <= 500 ==>
              FreshIDs(ids, old(m.Used(peers)), m.Used(peers + ids))
    ensures Climbing(ports, old(m.nextPort), m.nextPort)
    ensures forall i :: 0 <= i < |spawned| ==> spawned[i].nodeID in ids && spawned[i].raftPort in ports
    ensures m.children == RecordAll(old(m.children), spawned)
    ensures |Taken(old(m.Used(peers)))| + |ids| <= 500 ==>
              forall p :: p in spawned ==> p.nodeID in m.children && m.children[p.nodeID] == p
  {
    hide IDsUpTo, Taken, FreshIDs, Climbing, Accounted, NamesDiffer, FirstFree;
    ids, ports, spawned := [], [], [];
    StartsEmpty(m.nextPort, m.children);
    ghost var used0 := m.Used(peers);
    assert peers + [] == peers;
    FreshIDsStart(used0);
    var count := BatchSize(requested);
    var n := 0;
    while n < count
      invariant 0 <= n <= count && |ids| == n
      invariant |Taken(used0)| + count <= MAX_IDS ==> FreshIDs(ids, used0, m.Used(peers + ids))
      invariant Climbing(ports, old(m.nextPort), m.nextPort)
      invariant Accounted(ids, ports, spawned, old(m.children), m.children)
      invariant |Taken(used0)| + count <= MAX_IDS ==> NamesDiffer(spawned)
    {
      ghost var before, low, children := m.Used(peers + ids), m.nextPort, m.children;
      var id, info, port := SpawnOne(m, peers + ids, os(n));
      assert peers + ids + [id] == peers + (ids + [id]);
      if |Taken(used0)| + count <= MAX_IDS {
        FreshIDsRoom(ids, used0, before);
        FreshIDsUsed(ids, used0, before);
        FreshIDsExtend(ids, used0, before, id);
      }
      ClimbsOn(ports, old(m.nextPort), low, port, os(n).freeRaft);
      AccountsFor(ids, ports, spawned, old(m.children), children, id, port, info);
      ids := ids + [id];
      ports := if port.Some? then ports + [port.value] else ports;
      spawned := if info.Some? then spawned + [info.value] else spawned;
      n := n + 1;
    }
    AllAccounted(ids, ports, spawned, old(m.children), m.children);
    if |Taken(used0)| + count <= MAX_IDS {
      RecordedUnderName(old(m.children), spawned);
    }
  }

  function FirstNames(n: nat): seq<string>
  {
    seq(n, i requires 0 <= i < n => NodeID(i + 1))
  }

  lemma AllNamesTaken(used: set<string>)
    requires forall i :: 0 <= i < MAX_IDS ==> FirstNames(MAX_IDS)[i] in used
    ensures forall i :: 1 <= i <= MAX_IDS ==> NodeID(i) in used
  {
    forall i | 1 <= i <= MAX_IDS
      ensures NodeID(i) in used
    {
      assert FirstNames(MAX_IDS)[i - 1] == NodeID(i);
    }
  }

  /** With all 500 names in use and an unlucky clock, the name handed out is one in use. */
  method ClockRepeatsName(m: Manager, clock: nat) returns (existing: seq<string>, id: string)
    requires clock % 10000 == 1
    ensures |Taken(m.Used(existing))| == MAX_IDS
    ensures id == NodeID(1) && id in m.Used(existing)
  {
    existing := FirstNames(MAX_IDS);
    assert forall i :: 0 <= i < MAX_IDS ==> existing[i] in existing;
    AllNamesTaken(m.Used(existing));
    SomeIDIsFree(m.Used(existing));
    assert Taken(m.Used(existing)) <= IDsUpTo(MAX_IDS);
    IDsUpToCount(MAX_IDS);
    SubsetSize(Taken(m.Used(existing)), IDsUpTo(MAX_IDS));
    id := m.NextAvailableNodeID(existing, clock);
  }
}
