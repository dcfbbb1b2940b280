/** A node's view of the membership and the joined and removed events that describe its changes. */
module Membership {

  datatype Announcement = Joined(id: string) | Removed(id: string)

  /** The set a listener holds who starts from `start` and follows the announcements. */
  function Replay(start: set<string>, log: seq<Announcement>): set<string>
  {
    if log == [] then start
    else
      var before := Replay(start, log[..|log| - 1]);
      match log[|log| - 1]
      case Joined(id) => before + {id}
      case Removed(id) => before - {id}
  }

  lemma {:induction false} ReplayConcat(start: set<string>, a: seq<Announcement>, b: seq<Announcement>)
    ensures Replay(start, a + b) == Replay(Replay(start, a), b)
  {
    if b == [] {
      assert a + b == a;
    } else {
      ReplayConcat(start, a, b[..|b| - 1]);
      assert (a + b)[..|a + b| - 1] == a + b[..|b| - 1];
    }
  }

  function Joins(ids: seq<string>): seq<Announcement>
  {
    seq(|ids|, i requires 0 <= i < |ids| => Joined(ids[i]))
  }

  function Removals(ids: seq<string>): seq<Announcement>
  {
    seq(|ids|, i requires 0 <= i < |ids| => Removed(ids[i]))
  }

  function Elements(ids: seq<string>): set<string> { set id | id in ids }

  lemma {:induction false} ReplayJoins(start: set<string>, ids: seq<string>)
    ensures Replay(start, Joins(ids)) == start + Elements(ids)
  {
    if ids != [] {
      var init := ids[..|ids| - 1];
      ReplayJoins(start, init);
      assert Joins(ids)[..|ids| - 1] == Joins(init);
      assert ids == init + [ids[|ids| - 1]];
    }
  }

  lemma {:induction false} ReplayRemovals(start: set<string>, ids: seq<string>)
    ensures Replay(start, Removals(ids)) == start - Elements(ids)
  {
    if ids != [] {
      var init := ids[..|ids| - 1];
      ReplayRemovals(start, init);
      assert Removals(ids)[..|ids| - 1] == Removals(init);
      assert ids == init + [ids[|ids| - 1]];
    }
  }

  ghost predicate Lists(ids: seq<string>, s: set<string>)
  {
    && Elements(ids) == s
    && forall i, j :: 0 <= i < j < |ids| ==> ids[i] != ids[j]
  }

  lemma ListsAppend(ids: seq<string>, s: set<string>, id: string)
    requires Lists(ids, s) && id !in s
    ensures Lists(ids + [id], s + {id})
  {
    assert id !in ids by { assert id in ids ==> id in Elements(ids); }
    assert Elements(ids + [id]) == Elements(ids) + {id};
  }

  // ---- the object ------------------------------------------------------------------------------

  class PeerView {
    const self: string
    var knownPeers: map<string, string>

    constructor (self: string, addr: string)
      ensures this.self == self && knownPeers == map[self := addr]
    {
      this.self := self;
      knownPeers := map[self := addr];
    }

    /** First loop of the diff: peers of the configuration that are unknown join, in any order. */
    method JoinMissing(current: map<string, string>) returns (joined: seq<string>)
      modifies this
      ensures Lists(joined, current.Keys - old(knownPeers.Keys))
      ensures knownPeers == current + old(knownPeers)
    {
      joined := [];
      var rest := current.Keys;
      while rest != {}
        invariant rest <= current.Keys
        invariant Lists(joined, current.Keys - rest - old(knownPeers.Keys))
        invariant knownPeers == (current - rest) + old(knownPeers)
        decreases rest
      {
        var id :| id in rest;
        assert (current - (rest - {id})) == (current - rest)[id := current[id]];
        rest := rest - {id};
        if id !in knownPeers {
          ListsAppend(joined, current.Keys - (rest + {id}) - old(knownPeers.Keys), id);
          assert current.Keys - (rest + {id}) - old(knownPeers.Keys) + {id} == current.Keys - rest - old(knownPeers.Keys);
          knownPeers := knownPeers[id := current[id]];
          joined := joined + [id];
        } else {
          assert current.Keys - (rest + {id}) - old(knownPeers.Keys) == current.Keys - rest - old(knownPeers.Keys);
        }
      }
      assert current - rest == current;
      assert current.Keys - rest == current.Keys;
    }

    /** Second loop: known peers outside the configuration leave, in any order, but never this node. */
    method RemoveStale(current: map<string, string>) returns (removed: seq<string>)
      modifies this
      ensures Lists(removed, old(knownPeers.Keys) - current.Keys - {self})
      ensures knownPeers == old(knownPeers) - (old(knownPeers.Keys) - current.Keys - {self})
    {
      removed := [];
      var rest := knownPeers.Keys;
      while rest != {}
        invariant rest <= old(knownPeers.Keys)
        invariant Lists(removed, old(knownPeers.Keys) - rest - current.Keys - {self})
        invariant knownPeers == old(knownPeers) - (old(knownPeers.Keys) - rest - current.Keys - {self})
        decreases rest
      {
        var id :| id in rest;
        ghost var gone := old(knownPeers.Keys) - rest - current.Keys - {self};
        rest := rest - {id};
        if id !in current && id != self {
          assert old(knownPeers.Keys) - rest - current.Keys - {self} == gone + {id};
          ListsAppend(removed, gone, id);
          knownPeers := knownPeers - {id};
          removed := removed + [id];
        } else {
          assert old(knownPeers.Keys) - rest - current.Keys - {self} == gone;
        }
      }
      assert old(knownPeers.Keys) - rest == old(knownPeers.Keys);
    }

    /**
     The locked part of `checkPeersHealth`: the lists announce exactly the two set differences. A known
     peer keeps the address it is known by, even if the configuration has another.
     */
    method Diff(servers: seq<(string, string)>) returns (joined: seq<string>, removed: seq<string>)
      modifies this
      ensures var config := set s | s in servers :: s.0;
        && Legal(self, old(knownPeers.Keys), Change.Diff(config, joined, removed))
        && knownPeers.Keys == KnownAfter(self, old(knownPeers.Keys), Change.Diff(config, joined, removed))
      ensures forall id :: id in old(knownPeers) && id in knownPeers ==> knownPeers[id] == old(knownPeers)[id]
      ensures forall id :: id in knownPeers && id !in old(knownPeers) ==> (id, knownPeers[id]) in servers
    {
      var current := CurrentOf(servers);
      joined := JoinMissing(current);
      ghost var middle := knownPeers.Keys;
      removed := RemoveStale(current);
      assert middle - current.Keys == old(knownPeers.Keys) - current.Keys;
    }

    /** `nodeIDForRaftAddr`: some known peer with the address, or the address itself if there is none. */
    method NodeIDFor(addr: string) returns (id: string)
      ensures (exists p :: p in knownPeers && knownPeers[p] == addr) ==> id in knownPeers && knownPeers[id] == addr
      ensures (forall p :: p in knownPeers ==> knownPeers[p] != addr) ==> id == addr
    {
      var rest := knownPeers.Keys;
      while rest != {}
        invariant rest <= knownPeers.Keys
        invariant forall p :: p in knownPeers && p !in rest ==> knownPeers[p] != addr
        decreases rest
      {
        var p :| p in rest;
        if knownPeers[p] == addr {
          return p;
        }
        rest := rest - {p};
      }
      id := addr;
    }

    /** The locked part of the peer observation: unconditional, and announced unconditionally. */
    method Observe(id: string, addr: string, gone: bool)
      modifies this
      ensures knownPeers == if gone then old(knownPeers) - {id} else old(knownPeers)[id := addr]
      ensures knownPeers.Keys == KnownAfter(self, old(knownPeers.Keys), Observation(id, gone))
    {
      if gone {
        knownPeers := knownPeers - {id};
      } else {
        knownPeers := knownPeers[id := addr];
      }
    }
  }

  method CurrentOf(servers: seq<(string, string)>) returns (current: map<string, string>)
    ensures current.Keys == set s | s in servers :: s.0
    ensures forall id :: id in current ==> (id, current[id]) in servers
  {
    current := map[];
    var i := 0;
    while i < |servers|
      invariant 0 <= i <= |servers|
      invariant current.Keys == set s | s in servers[..i] :: s.0
      invariant forall id :: id in current ==> (id, current[id]) in servers
    {
      assert servers[..i + 1] == servers[..i] + [servers[i]];
      assert (set s | s in servers[..i + 1] :: s.0) == (set s | s in servers[..i] :: s.0) + {servers[i].0};
      current := current[servers[i].0 := servers[i].1];
      i := i + 1;
    }
    assert servers[..i] == servers;
  }

  // ---- all runs, in lock order -----------------------------------------------------------------

  datatype Change =
    | Diff(config: set<string>, joined: seq<string>, removed: seq<string>)
    | Observation(id: string, gone: bool)

  ghost predicate Legal(self: string, known: set<string>, ch: Change)
  {
    ch.Diff? ==> Lists(ch.joined, ch.config - known) && Lists(ch.removed, known - ch.config - {self})
  }

  /** A diff leaves the configuration, and this node if it was known. */
  function KnownAfter(self: string, known: set<string>, ch: Change): set<string>
  {
    match ch
    case Diff(config, _, _) => config + (known * {self})
    case Observation(id, gone) => if gone then known - {id} else known + {id}
  }

  function Announce(ch: Change): seq<Announcement>
  {
    match ch
    case Diff(_, joined, removed) => Joins(joined) + Removals(removed)
    case Observation(id, gone) => [if gone then Removed(id) else Joined(id)]
  }

  /** What `checkPeersHealth` broadcasts after giving the lock back: all who joined, then all who were removed. */
  method BroadcastDiff(config: set<string>, joined: seq<string>, removed: seq<string>) returns (log: seq<Announcement>)
    ensures |log| == |joined| + |removed|
    ensures forall i :: 0 <= i < |joined| ==> log[i] == Joined(joined[i])
    ensures forall i :: 0 <= i < |removed| ==> log[|joined| + i] == Removed(removed[i])
    ensures log == Announce(Change.Diff(config, joined, removed))
  {
    log := [];
    var i := 0;
    while i < |joined|
      invariant 0 <= i <= |joined| && |log| == i
      invariant forall k :: 0 <= k < i ==> log[k] == Joined(joined[k])
    {
      log := log + [Joined(joined[i])];
      i := i + 1;
    }
    i := 0;
    while i < |removed|
      invariant 0 <= i <= |removed| && |log| == |joined| + i
      invariant forall k :: 0 <= k < |joined| ==> log[k] == Joined(joined[k])
      invariant forall k :: 0 <= k < i ==> log[|joined| + k] == Removed(removed[k])
    {
      log := log + [Removed(removed[i])];
      i := i + 1;
    }
    assert log[..|joined|] == Joins(joined) && log[|joined|..] == Removals(removed);
  }

  /** `views[i]` is what the node knows before the `i`-th change, `logs[i]` all it has announced by then. */
  ghost predicate IsRun(self: string, changes: seq<Change>, views: seq<set<string>>, logs: seq<seq<Announcement>>)
  {
    && |views| == |logs| == |changes| + 1
    && views[0] == {self} && logs[0] == []
    && forall i :: 0 <= i < |changes| ==>
         && Legal(self, views[i], changes[i])
         && views[i + 1] == KnownAfter(self, views[i], changes[i])
         && logs[i + 1] == logs[i] + Announce(changes[i])
  }

  /** One change moves the view exactly as its announcements move a listener. */
  lemma ChangeReplays(self: string, known: set<string>, ch: Change)
    requires Legal(self, known, ch)
    ensures Replay(known, Announce(ch)) == KnownAfter(self, known, ch)
  {
    match ch {
      case Diff(config, joined, removed) =>
        ReplayConcat(known, Joins(joined), Removals(removed));
        ReplayJoins(known, joined);
        ReplayRemovals(known + Elements(joined), removed);
      case Observation(id, gone) =>
        assert Announce(ch)[..0] == [];
    }
  }

  /** At every moment, replaying the announcements over {self} gives the known peers. */
  lemma {:induction false} ViewIsReplay(self: string, changes: seq<Change>, views: seq<set<string>>, logs: seq<seq<Announcement>>, i: nat)
    requires IsRun(self, changes, views, logs) && i < |views|
    ensures views[i] == Replay({self}, logs[i])
  {
    if i > 0 {
      ViewIsReplay(self, changes, views, logs, i - 1);
      ChangeReplays(self, views[i - 1], changes[i - 1]);
      ReplayConcat({self}, logs[i - 1], Announce(changes[i - 1]));
    }
  }

  /** Every announcement says something new: who joins was absent, who is removed was present. */
  ghost predicate Effective(start: set<string>, log: seq<Announcement>)
  {
    forall i :: 0 <= i < |log| ==> (log[i].Joined? <==> log[i].id !in Replay(start, log[..i]))
  }

  lemma EffectiveConcat(start: set<string>, a: seq<Announcement>, b: seq<Announcement>)
    ensures Effective(start, a + b) <==> Effective(start, a) && Effective(Replay(start, a), b)
  {
    forall i | 0 <= i < |a|
      ensures (a + b)[i] == a[i] && (a + b)[..i] == a[..i]
    {
    }
    forall i | 0 <= i < |b|
      ensures (a + b)[i + |a|] == b[i]
      ensures Replay(start, (a + b)[..i + |a|]) == Replay(Replay(start, a), b[..i])
    {
      assert (a + b)[..i + |a|] == a + b[..i];
      ReplayConcat(start, a, b[..i]);
    }
    if Effective(start, a + b) {
      assert forall i :: 0 <= i < |a| ==> (a + b)[i] == a[i];
      forall i | 0 <= i < |b|
        ensures b[i].Joined? <==> b[i].id !in Replay(Replay(start, a), b[..i])
      {
        assert (a + b)[i + |a|] == b[i];
      }
    } else if Effective(start, a) && Effective(Replay(start, a), b) {
      forall i | 0 <= i < |a + b|
        ensures (a + b)[i].Joined? <==> (a + b)[i].id !in Replay(start, (a + b)[..i])
      {
        if i >= |a| {
          assert (a + b)[(i - |a|) + |a|] == b[i - |a|];
        }
      }
    }
  }

  lemma DiffEffective(self: string, known: set<string>, ch: Change)
    requires Legal(self, known, ch) && ch.Diff?
    ensures Effective(known, Announce(ch))
  {
    forall i | 0 <= i < |ch.joined|
      ensures ch.joined[i] !in Replay(known, Joins(ch.joined)[..i])
    {
      assert Joins(ch.joined)[..i] == Joins(ch.joined[..i]);
      ReplayJoins(known, ch.joined[..i]);
      assert ch.joined[i] in Elements(ch.joined);
    }
    var middle := known + Elements(ch.joined);
    ReplayJoins(known, ch.joined);
    forall i | 0 <= i < |ch.removed|
      ensures ch.removed[i] in Replay(middle, Removals(ch.removed)[..i])
    {
      assert Removals(ch.removed)[..i] == Removals(ch.removed[..i]);
      ReplayRemovals(middle, ch.removed[..i]);
      assert ch.removed[i] in Elements(ch.removed);
    }
    EffectiveConcat(known, Joins(ch.joined), Removals(ch.removed));
  }

  /** Between two announcements about one peer with none in between, its presence does not change. */
  lemma {:induction false} PresenceHolds(start: set<string>, log: seq<Announcement>, id: string, i: nat, j: nat)
    requires i <= j <= |log|
    requires forall k :: i <= k < j ==> log[k].id != id
    ensures id in Replay(start, log[..i]) <==> id in Replay(start, log[..j])
  {
    if i < j {
      PresenceHolds(start, log, id, i, j - 1);
      assert log[..j][..j - 1] == log[..j - 1];
    }
  }

  /** Nobody between `i` and `j` speaks of the peer that `i` speaks of. */
  predicate QuietBetween(log: seq<Announcement>, i: nat, j: nat)
  {
    i < |log| && forall k :: i < k < j && k < |log| ==> log[k].id != log[i].id
  }

  /** Per peer, joins and removals take turns, and a join comes first unless the peer was there from the start. */
  ghost predicate Alternates(start: set<string>, log: seq<Announcement>)
  {
    && (forall i, j :: 0 <= i < j < |log| && log[i].id == log[j].id && QuietBetween(log, i, j) ==>
          log[i].Joined? != log[j].Joined?)
    && (forall i :: 0 <= i < |log| && (forall k :: 0 <= k < i ==> log[k].id != log[i].id) ==>
          (log[i].Joined? <==> log[i].id !in start))
  }

  /** The newest announcement about the peer before `i`, if there is one. */
  lemma {:induction false} LastMention(log: seq<Announcement>, i: nat, n: nat) returns (k: int)
    requires n <= i < |log| && forall l :: n <= l < i ==> log[l].id != log[i].id
    ensures -1 <= k < i
    ensures forall l :: k < l < i ==> log[l].id != log[i].id
    ensures k >= 0 ==> log[k].id == log[i].id
  {
    if n == 0 {
      k := -1;
    } else if log[n - 1].id == log[i].id {
      k := n - 1;
    } else {
      k := LastMention(log, i, n - 1);
    }
  }

  lemma AfterMention(start: set<string>, log: seq<Announcement>, k: nat)
    requires k < |log|
    ensures log[k].id in Replay(start, log[..k + 1]) <==> log[k].Joined?
  {
    assert log[..k + 1][..k] == log[..k];
  }

  /** Announcements are effective if and only if they alternate per peer. */
  lemma EffectiveIffAlternates(start: set<string>, log: seq<Announcement>)
    ensures Effective(start, log) <==> Alternates(start, log)
  {
    hide Replay;
    if Effective(start, log) {
      forall i, j | 0 <= i < j < |log| && log[i].id == log[j].id && QuietBetween(log, i, j)
        ensures log[i].Joined? != log[j].Joined?
      {
        AfterMention(start, log, i);
        PresenceHolds(start, log, log[i].id, i + 1, j);
      }
      forall i | 0 <= i < |log| && (forall k :: 0 <= k < i ==> log[k].id != log[i].id)
        ensures log[i].Joined? <==> log[i].id !in start
      {
        NothingReplayed(start, log);
        PresenceHolds(start, log, log[i].id, 0, i);
      }
    } else if Alternates(start, log) {
      forall i | 0 <= i < |log|
        ensures log[i].Joined? <==> log[i].id !in Replay(start, log[..i])
      {
        AlternatingIsNews(start, log, i);
      }
    }
  }

  lemma NothingReplayed(start: set<string>, log: seq<Announcement>)
    ensures Replay(start, log[..0]) == start
  {
  }

  lemma AlternatingIsNews(start: set<string>, log: seq<Announcement>, i: nat)
    requires Alternates(start, log) && i < |log|
    ensures log[i].Joined? <==> log[i].id !in Replay(start, log[..i])
  {
    hide Replay;
    var k := LastMention(log, i, i);
    if k < 0 {
      NothingReplayed(start, log);
      PresenceHolds(start, log, log[i].id, 0, i);
    } else {
      AfterMention(start, log, k);
      PresenceHolds(start, log, log[i].id, k + 1, i);
      assert QuietBetween(log, k, i);
    }
  }

  /**
   The announcements are effective if and only if every observation was news when it came: a removal of
   a known peer, or the arrival of an unknown one. Diffs always are.
   */
  lemma {:induction false} EffectiveIffObservationsAreNews(self: string, changes: seq<Change>, views: seq<set<string>>, logs: seq<seq<Announcement>>, n: nat)
    requires IsRun(self, changes, views, logs) && n < |logs|
    ensures Effective({self}, logs[n]) <==>
              forall i :: 0 <= i < n && changes[i].Observation? ==> (changes[i].gone <==> changes[i].id in views[i])
  {
    if n > 0 {
      var ch := changes[n - 1];
      EffectiveIffObservationsAreNews(self, changes, views, logs, n - 1);
      ViewIsReplay(self, changes, views, logs, n - 1);
      EffectiveConcat({self}, logs[n - 1], Announce(ch));
      if ch.Diff? {
        DiffEffective(self, views[n - 1], ch);
      } else {
        assert Announce(ch)[..0] == [];
      }
    }
  }

  /** At every moment of every run, joins and removals have alternated per peer if and only if every observation so far was news. */
  lemma AlternatesIffObservationsAreNews(self: string, changes: seq<Change>, views: seq<set<string>>, logs: seq<seq<Announcement>>, n: nat)
    requires IsRun(self, changes, views, logs) && n < |logs|
    ensures Alternates({self}, logs[n]) <==>
              forall i :: 0 <= i < n && changes[i].Observation? ==> (changes[i].gone <==> changes[i].id in views[i])
  {
    EffectiveIffObservationsAreNews(self, changes, views, logs, n);
    EffectiveIffAlternates({self}, logs[n]);
  }

  /** So they always do in runs without peer observations. */
  lemma DiffsAlternate(self: string, changes: seq<Change>, views: seq<set<string>>, logs: seq<seq<Announcement>>, n: nat)
    requires IsRun(self, changes, views, logs) && n < |logs|
    requires forall i :: 0 <= i < n ==> changes[i].Diff?
    ensures Alternates({self}, logs[n])
  {
    AlternatesIffObservationsAreNews(self, changes, views, logs, n);
    hide Alternates;
  }

  /** Without peer observations this node is never announced. */
  lemma {:induction false} DiffsSpareSelf(self: string, changes: seq<Change>, views: seq<set<string>>, logs: seq<seq<Announcement>>, n: nat)
    requires IsRun(self, changes, views, logs) && n < |logs|
    requires forall i :: 0 <= i < n ==> changes[i].Diff?
    ensures self in views[n]
    ensures forall i :: 0 <= i < |logs[n]| ==> logs[n][i].id != self
  {
    if n > 0 {
      DiffsSpareSelf(self, changes, views, logs, n - 1);
      var ch := changes[n - 1];
      assert forall i :: 0 <= i < |ch.joined| ==> ch.joined[i] in Elements(ch.joined);
      assert forall i :: 0 <= i < |ch.removed| ==> ch.removed[i] in Elements(ch.removed);
    }
  }

  /** With observations it fails: an observed peer that is known already is announced as joined again. */
  lemma ObservedPeerJoinsTwice() returns (changes: seq<Change>, views: seq<set<string>>, logs: seq<seq<Announcement>>)
    ensures IsRun("node-1", changes, views, logs)
    ensures logs[|logs| - 1] == [Joined("node-2"), Joined("node-2")]
  {
    var diff := Change.Diff({"node-1", "node-2"}, ["node-2"], []);
    var seen := Observation("node-2", false);
    changes := [diff, seen];
    views := [{"node-1"}, {"node-1", "node-2"}, {"node-1", "node-2"}];
    logs := [[], [Joined("node-2")], [Joined("node-2"), Joined("node-2")]];
    assert "node-1" != "node-2" by { assert "node-1"[5] != "node-2"[5]; }
    assert Announce(diff) == [Joined("node-2")];
  }
}
