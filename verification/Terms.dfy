/** The concurrent term tracker: `noteTerm` claims a term under `n.mu` and announces it afterwards. */
module Terms {
  import opened Basics

  // ---- reference definitions -------------------------------------------------------------------

  function Max(terms: seq<nat>): nat
  {
    if terms == [] then 0
    else
      var last, before := terms[|terms| - 1], Max(terms[..|terms| - 1]);
      if last > before then last else before
  }

  /** The terms that were higher than everything before them (and than zero). */
  function Records(terms: seq<nat>): seq<nat>
  {
    if terms == [] then []
    else
      var last, before := terms[|terms| - 1], terms[..|terms| - 1];
      Records(before) + (if last > Max(before) then [last] else [])
  }

  ghost predicate Increasing(s: seq<nat>)
  {
    forall i, j :: 0 <= i < j < |s| ==> s[i] < s[j]
  }

  lemma {:induction false} MaxIsMax(terms: seq<nat>)
    ensures forall t :: t in terms ==> t <= Max(terms)
    ensures Max(terms) in terms || Max(terms) == 0
  {
    if terms != [] {
      var before := terms[..|terms| - 1];
      MaxIsMax(before);
      assert terms == before + [terms[|terms| - 1]];
    }
  }

  lemma IncreasingAppend(s: seq<nat>, x: nat)
    requires Increasing(s) && forall t :: t in s ==> t < x
    ensures Increasing(s + [x])
  {
    assert forall i :: 0 <= i < |s| ==> s[i] in s;
  }

  /** Record highs climb strictly, and the last of them is the maximum. */
  lemma {:induction false} RecordsClimb(terms: seq<nat>)
    ensures Increasing(Records(terms))
    ensures forall t :: t in Records(terms) ==> 0 < t <= Max(terms)
    ensures Max(terms) > 0 ==> Records(terms) != [] && Records(terms)[|Records(terms)| - 1] == Max(terms)
  {
    if terms != [] {
      var last, before := terms[|terms| - 1], terms[..|terms| - 1];
      RecordsClimb(before);
      if last > Max(before) {
        IncreasingAppend(Records(before), last);
      } else {
        assert Records(terms) == Records(before);
      }
      hide Increasing;
    }
  }

  // ---- the object ------------------------------------------------------------------------------

  class TermTracker {
    var lastTerm: nat
    /** The arguments of all calls so far. */
    ghost var observed: seq<nat>

    ghost predicate Valid()
      reads this
    {
      lastTerm == Max(observed)
    }

    constructor ()
      ensures Valid() && observed == []
    {
      lastTerm, observed := 0, [];
    }

    /** The locked part of `noteTerm`; `claimed` says that the caller must announce the term. */
    method Note(term: nat) returns (claimed: bool)
      requires Valid()
      modifies this
      ensures Valid() && observed == old(observed) + [term]
      ensures lastTerm >= term && lastTerm >= old(lastTerm)
      ensures Records(observed) == Records(old(observed)) + (if claimed then [term] else [])
    {
      observed := observed + [term];
      assert observed[..|observed| - 1] == old(observed);
      if term == 0 {
        return false;
      }
      if term <= lastTerm {
        return false;
      }
      lastTerm := term;
      claimed := true;
    }
  }

  // ---- any number of concurrent callers --------------------------------------------------------

  /** `claiming` maps a caller past its lock to the term it has still to announce. */
  datatype Sys = Sys(lastTerm: nat, claiming: map<nat, nat>, announced: seq<nat>, observed: seq<nat>, claims: seq<nat>)

  const Init := Sys(0, map[], [], [], [])

  datatype Step = Note(caller: nat, term: nat) | Announce(caller: nat)

  predicate Enabled(s: Sys, st: Step)
  {
    st.Note? <==> st.caller !in s.claiming
  }

  function Apply(s: Sys, st: Step): Sys
    requires Enabled(s, st)
  {
    match st
    case Note(caller, term) =>
      var s := s.(observed := s.observed + [term]);
      if term == 0 || term <= s.lastTerm then s
      else s.(lastTerm := term, claims := s.claims + [term], claiming := s.claiming[caller := term])
    case Announce(caller) =>
      s.(announced := s.announced + [s.claiming[caller]], claiming := s.claiming - {caller})
  }

  ghost predicate IsRun(states: seq<Sys>, steps: seq<Step>)
  {
    && |states| == |steps| + 1
    && states[0] == Init
    && forall i :: 0 <= i < |steps| ==> Enabled(states[i], steps[i]) && states[i + 1] == Apply(states[i], steps[i])
  }

  ghost predicate ClaimInv(lastTerm: nat, observed: seq<nat>, claims: seq<nat>)
  {
    && lastTerm == Max(observed)
    && claims == Records(observed)
  }

  /** Every claim has been announced once or is one caller's to announce. */
  ghost predicate AnnounceInv(claims: seq<nat>, claiming: map<nat, nat>, announced: seq<nat>)
  {
    && (forall i, j :: 0 <= i < j < |announced| ==> announced[i] != announced[j])
    && (forall t :: t in announced ==> t in claims)
    && (forall c :: c in claiming ==> claiming[c] in claims && claiming[c] !in announced)
    && (forall c, d :: c in claiming && d in claiming && c != d ==> claiming[c] != claiming[d])
    && (forall t :: t in claims && t !in announced ==> InFlight(claiming, t))
  }

  ghost predicate InFlight(claiming: map<nat, nat>, t: nat)
  {
    exists c :: c in claiming && claiming[c] == t
  }

  ghost predicate Inv(s: Sys)
  {
    ClaimInv(s.lastTerm, s.observed, s.claims) && AnnounceInv(s.claims, s.claiming, s.announced)
  }

  lemma ClaimKept(claims: seq<nat>, claiming: map<nat, nat>, announced: seq<nat>, caller: nat, term: nat)
    requires AnnounceInv(claims, claiming, announced) && caller !in claiming
    requires forall t :: t in claims ==> t < term
    ensures AnnounceInv(claims + [term], claiming[caller := term], announced)
  {
    var claiming' := claiming[caller := term];
    forall t | t == term || InFlight(claiming, t)
      ensures InFlight(claiming', t)
    {
      if t == term {
        assert claiming'[caller] == t;
      } else {
        var c :| c in claiming && claiming[c] == t;
        assert claiming'[c] == t;
      }
    }
    hide InFlight;
  }

  lemma AnnounceKept(claims: seq<nat>, claiming: map<nat, nat>, announced: seq<nat>, caller: nat)
    requires AnnounceInv(claims, claiming, announced) && caller in claiming
    ensures AnnounceInv(claims, claiming - {caller}, announced + [claiming[caller]])
  {
    forall t | InFlight(claiming, t) && t != claiming[caller]
      ensures InFlight(claiming - {caller}, t)
    {
      var c :| c in claiming && claiming[c] == t;
      assert c in claiming - {caller};
    }
    hide InFlight;
  }

  lemma StepKept(s: Sys, st: Step)
    requires Inv(s) && Enabled(s, st)
    ensures Inv(Apply(s, st))
  {
    hide AnnounceInv;
    match st {
      case Note(caller, term) =>
        assert (s.observed + [term])[..|s.observed|] == s.observed;
        RecordsClimb(s.observed);
        if term > s.lastTerm {
          ClaimKept(s.claims, s.claiming, s.announced, caller, term);
        }
      case Announce(caller) =>
        AnnounceKept(s.claims, s.claiming, s.announced, caller);
    }
  }

  lemma RunKept(states: seq<Sys>, steps: seq<Step>)
    requires IsRun(states, steps)
    ensures forall i :: 0 <= i < |states| ==> Inv(states[i])
  {
    assert Inv(Init);
    hide Enabled, Apply, Inv;
    var n := 0;
    while n < |steps|
      invariant 0 <= n <= |steps|
      invariant forall i :: 0 <= i <= n ==> Inv(states[i])
    {
      StepKept(states[n], steps[n]);
      n := n + 1;
    }
  }

  lemma SameElements(a: seq<nat>, b: seq<nat>)
    requires forall i, j :: 0 <= i < j < |a| ==> a[i] != a[j]
    requires forall i, j :: 0 <= i < j < |b| ==> b[i] != b[j]
    requires forall t :: t in a <==> t in b
    ensures multiset(a) == multiset(b)
  {
    forall t
      ensures multiset(a)[t] == multiset(b)[t]
    {
      CountOnce(a, t);
      CountOnce(b, t);
    }
  }

  lemma {:induction false} CountOnce(a: seq<nat>, t: nat)
    requires forall i, j :: 0 <= i < j < |a| ==> a[i] != a[j]
    ensures multiset(a)[t] == if t in a then 1 else 0
  {
    if a != [] {
      var init := a[..|a| - 1];
      CountOnce(init, t);
      assert a == init + [a[|a| - 1]];
    }
  }

  /**
   At every state of every run the tracked term is the highest observed, the claims in lock order are
   exactly the record highs and climb strictly, no term is announced twice, and once no call is under
   way the announcements are a permutation of the record highs.
   */
  lemma TermsAnnouncedOnce(states: seq<Sys>, steps: seq<Step>, i: nat)
    requires IsRun(states, steps) && i < |states|
    ensures states[i].lastTerm == Max(states[i].observed)
    ensures states[i].claims == Records(states[i].observed) && Increasing(states[i].claims)
    ensures multiset(states[i].announced) <= multiset(Records(states[i].observed))
    ensures states[i].claiming == map[] ==> multiset(states[i].announced) == multiset(Records(states[i].observed))
  {
    RunKept(states, steps);
    var s := states[i];
    assert Inv(s);
    RecordsClimb(s.observed);
    if s.claiming == map[] {
      SameElements(s.announced, s.claims);
    }
    forall t
      ensures multiset(s.announced)[t] <= multiset(s.claims)[t]
    {
      CountOnce(s.announced, t);
      CountOnce(s.claims, t);
    }
  }

  /** The announcements reach the hub in another order than the claims when a later caller overtakes. */
  lemma AnnouncementsCanOvertake() returns (states: seq<Sys>, steps: seq<Step>)
    ensures IsRun(states, steps)
    ensures states[|states| - 1].claiming == map[]
    ensures states[|states| - 1].claims == [1, 2] && states[|states| - 1].announced == [2, 1]
  {
    var s0 := Init;
    steps := [Note(0, 1), Note(1, 2), Announce(1), Announce(0)];
    var s1 := Apply(s0, steps[0]);
    var s2 := Apply(s1, steps[1]);
    var s3 := Apply(s2, steps[2]);
    var s4 := Apply(s3, steps[3]);
    states := [s0, s1, s2, s3, s4];
  }

  // ---- when the announcements do come in claim order -------------------------------------------

  /** An announcement is made by the caller with the least term still to announce. */
  predicate AnnouncesLeast(s: Sys, st: Step)
  {
    st.Announce? ==> st.caller in s.claiming && forall c :: c in s.claiming ==> s.claiming[st.caller] <= s.claiming[c]
  }

  /** A claim above all announcements adds nothing that they could already hold. */
  lemma ClaimKeepsPrefix(announced: seq<nat>, claims: seq<nat>, term: nat)
    requires forall t :: t in announced ==> t < term
    ensures announced <= claims + [term] <==> announced <= claims
  {
    if |announced| > |claims| {
      assert announced[|claims|] in announced;
    }
  }

  /** Behind announcements in claim order, the next claim is the least in flight. */
  lemma NextIsLeast(s: Sys, caller: nat)
    requires Inv(s) && Increasing(s.claims) && caller in s.claiming && s.announced <= s.claims
    ensures s.announced + [s.claiming[caller]] <= s.claims <==> AnnouncesLeast(s, Announce(caller))
  {
    var n := |s.announced|;
    forall c | c in s.claiming
      ensures n < |s.claims| && s.claims[n] <= s.claiming[c]
    {
      var k :| 0 <= k < |s.claims| && s.claims[k] == s.claiming[c];
      assert forall i :: 0 <= i < n ==> s.announced[i] in s.announced;
    }
    assert s.claims[n] in s.claims && s.claims[n] !in s.announced;
    assert InFlight(s.claiming, s.claims[n]);
  }

  lemma StepInOrderIff(s: Sys, st: Step)
    requires Inv(s) && Enabled(s, st)
    ensures Apply(s, st).announced <= Apply(s, st).claims <==> s.announced <= s.claims && AnnouncesLeast(s, st)
  {
    RecordsClimb(s.observed);
    match st {
      case Note(caller, term) =>
        if term > s.lastTerm {
          assert forall t :: t in s.announced ==> t in s.claims;
          ClaimKeepsPrefix(s.announced, s.claims, term);
        }
      case Announce(caller) =>
        if s.announced <= s.claims {
          NextIsLeast(s, caller);
        }
    }
  }

  /**
   At every moment of every run, what has been announced is a prefix of the claims, and so stands in
   claim order, if and only if every announcement so far was made by the caller with the least term
   still to announce.
   */
  lemma {:induction false} InClaimOrderIff(states: seq<Sys>, steps: seq<Step>, n: nat)
    requires IsRun(states, steps) && n < |states|
    ensures states[n].announced <= states[n].claims <==> forall i :: 0 <= i < n ==> AnnouncesLeast(states[i], steps[i])
  {
    if n > 0 {
      InClaimOrderIff(states, steps, n - 1);
      RunKept(states, steps);
      StepInOrderIff(states[n - 1], steps[n - 1]);
      hide Inv, Enabled, Apply, AnnouncesLeast;
      assert states[n] == Apply(states[n - 1], steps[n - 1]);
    }
  }
}
