/** Byte-wise string order, and the one sorted listing of a finite set of strings. */
module Sorting {

  predicate Less(a: string, b: string)
  {
    if b == "" then false
    else if a == "" then true
    else a[0] < b[0] || (a[0] == b[0] && Less(a[1..], b[1..]))
  }

  lemma {:induction false} LessTransitive(a: string, b: string, c: string)
    requires Less(a, b) && Less(b, c)
    ensures Less(a, c)
  {
    if a != "" && a[0] == b[0] == c[0] {
      LessTransitive(a[1..], b[1..], c[1..]);
    }
  }

  lemma {:induction false} LessTotal(a: string, b: string)
    ensures a == b || Less(a, b) || Less(b, a)
    ensures !(Less(a, b) && Less(b, a)) && !Less(a, a)
  {
    if a != "" && b != "" {
      LessTotal(a[1..], b[1..]);
      LessTotal(a[1..], a[1..]);
      assert a == [a[0]] + a[1..] && b == [b[0]] + b[1..];
    } else if a != "" {
      LessTotal(a[1..], a[1..]);
    }
  }

  /** The order is ascending: a proper prefix comes first, else the smaller character at the first difference. */
  lemma {:induction false} LessIsLexicographic(a: string, b: string)
    ensures Less(a, b) <==>
              (|a| < |b| && a == b[..|a|]) ||
              (exists k :: 0 <= k < |a| && k < |b| && a[..k] == b[..k] && a[k] < b[k])
  {
    if a != "" && b != "" {
      LessIsLexicographic(a[1..], b[1..]);
      var x, y := a[1..], b[1..];
      if a[0] == b[0] {
        assert |a| < |b| ==> (a == b[..|a|] <==> x == y[..|x|]) by {
          assert a == [a[0]] + x && (|a| < |b| ==> b[..|a|] == [b[0]] + y[..|x|]);
        }
        forall k | 0 <= k < |x| && k < |y|
          ensures x[..k] == y[..k] && x[k] < y[k] <==> a[..k + 1] == b[..k + 1] && a[k + 1] < b[k + 1]
        {
          assert a[..k + 1] == [a[0]] + x[..k] && b[..k + 1] == [b[0]] + y[..k];
        }
        if k :| 0 <= k < |x| && k < |y| && x[..k] == y[..k] && x[k] < y[k] {
          assert a[..k + 1] == b[..k + 1] && a[k + 1] < b[k + 1];
        }
        if k :| 0 <= k < |a| && k < |b| && a[..k] == b[..k] && a[k] < b[k] {
          assert x[..k - 1] == y[..k - 1] && x[k - 1] < y[k - 1];
        }
      } else {
        assert a[..0] == b[..0];
        assert forall k :: 0 < k <= |a| && k <= |b| ==> a[..k][0] == a[0] && b[..k][0] == b[0];
      }
    }
  }

  ghost predicate StrictlySorted(s: seq<string>)
  {
    forall i, j :: 0 <= i < j < |s| ==> Less(s[i], s[j])
  }

  /** `slices.Sort` as insertion sort. */
  function Insert(s: seq<string>, x: string): seq<string>
  {
    if s == [] then [x]
    else if Less(x, s[0]) then [x] + s
    else [s[0]] + Insert(s[1..], x)
  }

  function Sort(s: seq<string>): seq<string>
  {
    if s == [] then [] else Insert(Sort(s[1..]), s[0])
  }

  lemma {:induction false} InsertSorted(s: seq<string>, x: string)
    requires StrictlySorted(s) && x !in s
    ensures StrictlySorted(Insert(s, x))
    ensures forall y :: y in Insert(s, x) <==> y == x || y in s
  {
    if s != [] {
      LessTotal(x, s[0]);
      if Less(x, s[0]) {
        forall i | 0 <= i < |s|
          ensures Less(x, s[i])
        {
          if i > 0 { LessTransitive(x, s[0], s[i]); }
        }
      } else {
        InsertSorted(s[1..], x);
        forall y | y in Insert(s[1..], x)
          ensures Less(s[0], y)
        {
          if y != x {
            var i :| 0 <= i < |s[1..]| && s[1..][i] == y;
            assert y == s[i + 1];
          }
        }
        assert s == [s[0]] + s[1..];
      }
    }
  }

  lemma {:induction false} SortSorted(s: seq<string>)
    requires forall i, j :: 0 <= i < j < |s| ==> s[i] != s[j]
    ensures StrictlySorted(Sort(s))
    ensures forall y :: y in Sort(s) <==> y in s
  {
    if s != [] {
      SortSorted(s[1..]);
      InsertSorted(Sort(s[1..]), s[0]);
      assert s == [s[0]] + s[1..];
    }
  }

  /** A set has one strictly sorted listing. */
  lemma {:induction false} SortedUnique(a: seq<string>, b: seq<string>)
    requires StrictlySorted(a) && StrictlySorted(b)
    requires forall y :: y in a <==> y in b
    ensures a == b
  {
    assert (a != [] ==> a[0] in b) && (b != [] ==> b[0] in a);
    if a != [] && b != [] {
      assert a[0] in b && b[0] in a;
      LessTotal(a[0], b[0]);
      assert a[0] == b[0];
      forall y
        ensures y in a[1..] <==> y in b[1..]
      {
        LessTotal(a[0], a[0]);
        assert y in a <==> y == a[0] || y in a[1..];
        assert y in b <==> y == b[0] || y in b[1..];
      }
      SortedUnique(a[1..], b[1..]);
      assert a == [a[0]] + a[1..] && b == [b[0]] + b[1..];
    }
  }

  /** Listing a set's elements in any order and sorting them always gives the same list. */
  method SortedListing(s: set<string>) returns (ids: seq<string>)
    ensures StrictlySorted(ids)
    ensures forall y :: y in ids <==> y in s
    ensures forall other :: StrictlySorted(other) && (forall y :: y in other <==> y in s) ==> other == ids
  {
    var rest, listed := s, [];
    while rest != {}
      invariant rest <= s
      invariant forall y :: y in listed <==> y in s && y !in rest
      invariant forall i, j :: 0 <= i < j < |listed| ==> listed[i] != listed[j]
      decreases rest
    {
      var id :| id in rest;
      listed := listed + [id];
      rest := rest - {id};
    }
    SortSorted(listed);
    ids := Sort(listed);
    forall other | StrictlySorted(other) && (forall y :: y in other <==> y in s)
      ensures other == ids
    {
      SortedUnique(other, ids);
    }
  }
}
