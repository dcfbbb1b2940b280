/** Exactly when a send lets the order on a channel fall behind the order of the append log. */
module HubOvertaking {
  import opened Basics
  import opened Events
  import opened HubMachine
  import opened HubInvariant
  import HubAlone
  import HubOrder
  import HubSteps
  import HubTheorems

  /** Goroutine `h` has appended an event older than the `j`-th entry and not tried it on channel `c` yet. */
  ghost predicate OlderInFlight(s: Sys, c: nat, j: nat, h: nat)
  {
    && c in s.chans && h in s.casters && AfterAppend(s.casters[h].pc)
    && Logged(s.log, Call(h, s.casters[h].k), j)
    && !HasAttempt(s.chans[c].attempts, Call(h, s.casters[h].k))
  }

  /** Among the attempts on `c` from the `n`-th on is one with an event older than the `j`-th entry. */
  ghost predicate OlderAttempted(s: Sys, c: nat, j: nat, n: nat)
  {
    c in s.chans && exists y :: n <= y < |s.chans[c].attempts| && Logged(s.log, s.chans[c].attempts[y].m.call, j)
  }

  ghost predicate CanOvertake(s: Sys, c: nat, j: nat, n: nat)
  {
    exists steps, s' :: HubAlone.Leads(s, steps, s') && OlderAttempted(s', c, j, n)
  }

  // ---- a broadcast in flight can go on to the channel ------------------------------------------

  /** Nobody has the write lock, `c` is subscribed, and the broadcast of `h` is on its way there. */
  predicate OnItsWay(s: Sys, c: nat, h: nat)
  {
    && s.mu.writer.None? && c in s.clients && c in s.chans && !s.chans[c].closed
    && h in s.casters && AfterAppend(s.casters[h].pc)
    && (s.casters[h].pc.Delivering? ==> c in s.casters[h].pc.pending)
  }

  function NextStep(pc: CasterPc, c: nat, h: nat): Step
    requires AfterAppend(pc)
  {
    match pc
    case Appended(_) => LockForCheck(h)
    case Checking(_) => SeeClients(h)
    case Checked(_) => LockForDelivery(h)
    case Delivering(_, _) => Send(h, c)
  }

  function Rank(pc: CasterPc): nat
  {
    match pc
    case Appended(_) => 3
    case Checking(_) => 2
    case Checked(_) => 1
    case _ => 0
  }

  lemma GoesOn(s: Sys, c: nat, h: nat)
    requires OnItsWay(s, c, h) && !s.casters[h].pc.Delivering?
    ensures var st := NextStep(s.casters[h].pc, c, h);
      && Enabled(s, st) && OnItsWay(Apply(s, st), c, h)
      && Apply(s, st).casters[h].pc.m == s.casters[h].pc.m && Apply(s, st).log == s.log && Apply(s, st).chans == s.chans
      && Rank(Apply(s, st).casters[h].pc) < Rank(s.casters[h].pc)
  {
  }

  lemma Arrives(s: Sys, c: nat, h: nat)
    requires OnItsWay(s, c, h) && s.casters[h].pc.Delivering?
    ensures Enabled(s, Send(h, c)) && c in Apply(s, Send(h, c)).chans && Apply(s, Send(h, c)).log == s.log
    ensures var attempts := Apply(s, Send(h, c)).chans[c].attempts;
      |attempts| == |s.chans[c].attempts| + 1 && attempts[|s.chans[c].attempts|].m == s.casters[h].pc.m
  {
  }

  lemma {:induction false} ReachesChannel(s: Sys, c: nat, h: nat) returns (steps: seq<Step>, s': Sys)
    requires OnItsWay(s, c, h)
    ensures HubAlone.Leads(s, steps, s') && s'.log == s.log && c in s'.chans
    ensures |s'.chans[c].attempts| == |s.chans[c].attempts| + 1
    ensures s'.chans[c].attempts[|s.chans[c].attempts|].m == s.casters[h].pc.m
    decreases Rank(s.casters[h].pc)
  {
    hide Enabled, Apply, HubAlone.Leads;
    var st := NextStep(s.casters[h].pc, c, h);
    if s.casters[h].pc.Delivering? {
      Arrives(s, c, h);
      HubAlone.OneStep(s, st);
      steps, s' := [st], Apply(s, st);
    } else {
      GoesOn(s, c, h);
      hide OnItsWay;
      var rest;
      rest, s' := ReachesChannel(Apply(s, st), c, h);
      HubAlone.OneStep(s, st);
      HubAlone.LeadsConcat(s, [st], Apply(s, st), rest, s');
      steps := [st] + rest;
    }
  }

  // ---- from an older event in flight to one that comes later -----------------------------------

  /** What a delivering goroutine can rely on about the channel it is about to try. */
  lemma TargetIsOpen(s: Sys, g: nat, c: nat)
    requires Inv(s) && Enabled(s, Send(g, c))
    ensures s.mu.writer.None? && c in s.clients && c in s.chans && !s.chans[c].closed
  {
    hide ChansOk, AttemptInv, LogInv, CacheInv, DecisionInv, HandoverInv, HandlerInv, EdgeInv, MintInv;
    assert Reads(s.casters, s.handlers, Caster(g));
  }

  /** A goroutine that delivers and has not tried a current client has it still to visit. */
  lemma StillToVisit(s: Sys, c: nat, h: nat)
    requires Inv(s) && c in s.clients && c in s.chans && h in s.casters && s.casters[h].pc.Delivering?
    requires !HasAttempt(s.chans[c].attempts, Call(h, s.casters[h].k))
    ensures c in s.casters[h].pc.pending
  {
    hide LockInv, ChanInv, ChansOk, LogInv, CacheInv, DecisionInv, HandoverInv, HandlerInv, EdgeInv, MintInv, HasAttempt;
    assert Call(h, s.casters[h].k) in s.decisions;
  }

  lemma OwnCall(s: Sys, h: nat)
    requires Inv(s) && h in s.casters && HasMsg(s.casters[h].pc)
    ensures s.casters[h].pc.m.call == Call(h, s.casters[h].k)
  {
    hide LockInv, ChanInv, ChansOk, AttemptInv, LogInv, CacheInv, DecisionInv, HandoverInv, HandlerInv, EdgeInv, MintInv;
  }

  lemma AfterSend(s: Sys, g: nat, c: nat, h: nat)
    requires Enabled(s, Send(g, c)) && h != g && OnItsWay(s, c, h)
    ensures var s' := Apply(s, Send(g, c));
      && OnItsWay(s', c, h) && s'.casters[h] == s.casters[h] && s'.log == s.log
      && |s'.chans[c].attempts| == |s.chans[c].attempts| + 1
  {
  }

  lemma InFlightOvertakes(s: Sys, g: nat, c: nat, j: nat, h: nat)
    requires Inv(s) && Enabled(s, Send(g, c)) && h != g && OlderInFlight(s, c, j, h)
    ensures CanOvertake(Apply(s, Send(g, c)), c, j, |s.chans[c].attempts|)
  {
    TargetIsOpen(s, g, c);
    if s.casters[h].pc.Delivering? {
      StillToVisit(s, c, h);
    }
    OwnCall(s, h);
    AfterSend(s, g, c, h);
    hide Inv, Apply, Enabled, HubAlone.Leads, OnItsWay, Logged;
    var steps, s' := ReachesChannel(Apply(s, Send(g, c)), c, h);
    assert Logged(s'.log, s'.chans[c].attempts[|s.chans[c].attempts| + 1].m.call, j);
    assert OlderAttempted(s', c, j, |s.chans[c].attempts|);
  }

  // ---- and back --------------------------------------------------------------------------------

  lemma {:induction false} LeadsGrows(s: Sys, steps: seq<Step>, s': Sys)
    requires Inv(s) && HubAlone.Leads(s, steps, s')
    ensures Inv(s') && HubOrder.Grows(s, s')
    decreases |steps|
  {
    hide Inv, Enabled, Apply, HubOrder.Grows;
    if steps == [] {
      HubOrder.SameGrows(s, s);
    } else {
      HubSteps.StepKept(s, steps[0]);
      HubOrder.StepGrows(s, steps[0]);
      LeadsGrows(Apply(s, steps[0]), steps[1..], s');
      HubOrder.GrowsTransitive(s, Apply(s, steps[0]), s');
    }
  }

  lemma LoggedBefore(log: seq<Msg>, log': seq<Msg>, call: Call, j: nat)
    requires log <= log' && j <= |log| && Logged(log', call, j)
    ensures Logged(log, call, j)
  {
    var i :| 0 <= i < j && i < |log'| && log'[i].call == call;
    assert log[i] == log'[i];
  }

  /** What is tried later than now is still in flight now, if it is logged. */
  lemma LaterIsInFlight(s: Sys, s': Sys, c: nat, j: nat, y: nat)
    requires Inv(s) && Inv(s') && HubOrder.Grows(s, s') && j <= |s.log|
    requires c in s.chans && c in s'.chans && |s.chans[c].attempts| <= y < |s'.chans[c].attempts|
    requires Logged(s'.log, s'.chans[c].attempts[y].m.call, j)
    ensures OlderInFlight(s, c, j, s'.chans[c].attempts[y].m.call.g)
  {
    hide LockInv, ChanInv, CasterInv, AttemptInv, CacheInv, DecisionInv, HandoverInv, HandlerInv, EdgeInv, MintInv;
    var call := s'.chans[c].attempts[y].m.call;
    LoggedBefore(s.log, s'.log, call, j);
    assert Logged(s.log, call, |s.log|);
    assert InLog(s.casters, call);
    if HasReturned(s.casters, call) {
      HubOrder.ReturnedIsOver(s, s', c, y);
    }
    NotTriedTwice(s.chans[c].attempts, s'.chans[c].attempts, y);
    hide Logged, HasAttempt;
  }

  lemma NotTriedTwice(attempts: seq<Attempt>, attempts': seq<Attempt>, y: nat)
    requires attempts <= attempts' && |attempts| <= y < |attempts'|
    ensures OrderedAttempts(attempts') ==> !HasAttempt(attempts, attempts'[y].m.call)
  {
    assert forall w :: 0 <= w < |attempts| ==> attempts[w] == attempts'[w];
  }

  /**
   A send of the `j`-th logged event to `c` can be followed, in some continuation, by an older logged
   event on the same channel if and only if one is in flight that has not been tried there: its
   goroutine is past its append and not past its send to `c`.
   */
  lemma SendCanOvertakeIff(s: Sys, g: nat, c: nat, j: nat)
    requires HubTheorems.Reachable(s) && Enabled(s, Send(g, c))
    requires j < |s.log| && s.log[j].call == Call(g, s.casters[g].k)
    ensures c in s.chans
    ensures CanOvertake(Apply(s, Send(g, c)), c, j, |s.chans[c].attempts|) <==> exists h :: OlderInFlight(s, c, j, h)
  {
    HubTheorems.ReachableInv(s);
    TargetIsOpen(s, g, c);
    hide Inv, Apply, Enabled, OlderInFlight, CanOvertake, HubTheorems.Reachable;
    if h :| OlderInFlight(s, c, j, h) {
      NotOwn(s, g, c, j, h);
      InFlightOvertakes(s, g, c, j, h);
    } else if CanOvertake(Apply(s, Send(g, c)), c, j, |s.chans[c].attempts|) {
      var h' := OvertakerIsInFlight(s, g, c, j);
    }
  }

  lemma OvertakerIsInFlight(s: Sys, g: nat, c: nat, j: nat) returns (h: nat)
    requires Inv(s) && Enabled(s, Send(g, c)) && c in s.chans && j < |s.log|
    requires CanOvertake(Apply(s, Send(g, c)), c, j, |s.chans[c].attempts|)
    ensures OlderInFlight(s, c, j, h)
  {
    hide Inv, Apply, Enabled, OlderInFlight;
    var s1 := Apply(s, Send(g, c));
    var steps, s' :| HubAlone.Leads(s1, steps, s') && OlderAttempted(s', c, j, |s.chans[c].attempts|);
    HubSteps.StepKept(s, Send(g, c));
    HubOrder.StepGrows(s, Send(g, c));
    LeadsGrows(s1, steps, s');
    HubOrder.GrowsTransitive(s, s1, s');
    var y :| |s.chans[c].attempts| <= y < |s'.chans[c].attempts| && Logged(s'.log, s'.chans[c].attempts[y].m.call, j);
    LaterIsInFlight(s, s', c, j, y);
    h := s'.chans[c].attempts[y].m.call.g;
  }

  lemma NotOwn(s: Sys, g: nat, c: nat, j: nat, h: nat)
    requires Inv(s) && g in s.casters && OlderInFlight(s, c, j, h)
    requires j < |s.log| && s.log[j].call == Call(g, s.casters[g].k)
    ensures h != g
  {
    hide LockInv, ChanInv, ChansOk, CasterInv, AttemptInv, CacheInv, DecisionInv, HandoverInv, HandlerInv, EdgeInv, MintInv;
    var i :| 0 <= i < j && i < |s.log| && s.log[i].call == Call(h, s.casters[h].k);
  }
}
