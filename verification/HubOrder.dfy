/** In which order broadcasts of different goroutines reach the history and the clients. */
module HubOrder {
  import opened Basics
  import opened Events
  import opened HubMachine
  import opened HubInvariant
  import HubSteps
  import HubTheorems

  // ---- what no step takes back -----------------------------------------------------------------

  ghost predicate ChansGrow(chans: Chans, chans': Chans)
  {
    forall c :: c in chans ==> c in chans' && chans[c].attempts <= chans'[c].attempts
  }

  ghost predicate DecisionsStay(decisions: Decisions, decisions': Decisions)
  {
    forall call :: call in decisions ==> call in decisions' && decisions'[call] == decisions[call]
  }

  /** The three logs that a step may only extend. */
  ghost predicate Grows(s: Sys, s': Sys)
  {
    s.log <= s'.log && ChansGrow(s.chans, s'.chans) && DecisionsStay(s.decisions, s'.decisions)
  }

  lemma AppendGrows(s: Sys, g: nat)
    requires Enabled(s, Append(g))
    ensures Grows(s, Apply(s, Append(g)))
  {
    hide CacheOf, LastN;
  }

  lemma SendGrows(s: Sys, g: nat, c: nat)
    requires Enabled(s, Send(g, c))
    ensures Grows(s, Apply(s, Send(g, c)))
  {
  }

  lemma RegisterGrows(s: Sys, c: nat)
    requires Inv(s) && Enabled(s, Register(c))
    ensures Grows(s, Apply(s, Register(c)))
  {
    ActorIsNew(s, Register(c));
    NewChannelGrows(s, c);
    hide Inv, Grows, DoRegister;
  }

  lemma NewChannelGrows(s: Sys, c: nat)
    requires c in s.handlers && c !in s.chans
    ensures Grows(s, DoRegister(s, c))
  {
  }

  lemma SkipGrows(s: Sys, g: nat)
    requires Inv(s) && Enabled(s, Skip(g))
    ensures Grows(s, Apply(s, Skip(g)))
  {
    ActorIsNew(s, Skip(g));
    hide Inv;
  }

  lemma LockForDeliveryGrows(s: Sys, g: nat)
    requires Inv(s) && Enabled(s, LockForDelivery(g))
    ensures Grows(s, Apply(s, LockForDelivery(g)))
  {
    ActorIsNew(s, LockForDelivery(g));
    hide Inv;
  }

  lemma ReceiveGrows(s: Sys, c: nat)
    requires Enabled(s, Receive(c))
    ensures Grows(s, Apply(s, Receive(c)))
  {
  }

  lemma CloseGrows(s: Sys, u: nat)
    requires Enabled(s, Close(u))
    ensures Grows(s, Apply(s, Close(u)))
  {
  }

  /** Nobody's call is settled twice and nobody registers twice. */
  lemma ActorIsNew(s: Sys, st: Step)
    requires Inv(s) && Enabled(s, st)
    ensures st.Register? ==> st.c !in s.chans
    ensures st.Skip? || st.LockForDelivery? ==> CallOf(s, st.g) !in s.decisions
  {
    hide LockInv, ChansOk, AttemptInv, LogInv, CacheInv, DecisionInv, HandoverInv, HandlerInv, EdgeInv, MintInv;
  }

  predicate Logs(st: Step)
  {
    st.Append? || st.Send? || st.Register? || st.Skip? || st.LockForDelivery? || st.Receive? || st.Close?
  }

  lemma QuietGrows(s: Sys, st: Step)
    requires Enabled(s, st) && !Logs(st)
    ensures Grows(s, Apply(s, st))
  {
    var s' := Apply(s, st);
    hide Enabled, Grows, Lock, Unlock, RLock, RUnlock, CanLock, CanRLock, CallOf;
    assert s'.log == s.log && s'.chans == s.chans && s'.decisions == s.decisions;
    SameGrows(s, s');
  }

  lemma SameGrows(s: Sys, s': Sys)
    requires s'.log == s.log && s'.chans == s.chans && s'.decisions == s.decisions
    ensures Grows(s, s')
  {
  }

  lemma StepGrows(s: Sys, st: Step)
    requires Inv(s) && Enabled(s, st)
    ensures Grows(s, Apply(s, st))
  {
    hide Inv, Grows, Enabled, Apply;
    match st {
      case Append(g) => AppendGrows(s, g);
      case Send(g, c) => SendGrows(s, g, c);
      case Register(c) => RegisterGrows(s, c);
      case Skip(g) => SkipGrows(s, g);
      case LockForDelivery(g) => LockForDeliveryGrows(s, g);
      case Receive(c) => ReceiveGrows(s, c);
      case Close(u) => CloseGrows(s, u);
      case _ => QuietGrows(s, st);
    }
  }

  lemma GrowsTransitive(a: Sys, b: Sys, c: Sys)
    requires Grows(a, b) && Grows(b, c)
    ensures Grows(a, c)
  {
  }

  lemma RunGrows(states: seq<Sys>, steps: seq<Step>, p: nat, q: nat)
    requires IsRun(states, steps) && p <= q < |states|
    ensures Grows(states[p], states[q])
  {
    HubSteps.RunKept(states, steps);
    SameGrows(states[p], states[p]);
    hide Inv, Enabled, Apply, Grows;
    var n := p;
    while n < q
      invariant p <= n <= q && Grows(states[p], states[n])
    {
      StepGrows(states[n], steps[n]);
      GrowsTransitive(states[p], states[n], states[n + 1]);
      n := n + 1;
    }
  }

  // ---- theorems --------------------------------------------------------------------------------

  /** An attempt of a call that had returned earlier had been made by then. */
  lemma ReturnedIsOver(s: Sys, s': Sys, c: nat, x: nat)
    requires Inv(s) && Inv(s') && Grows(s, s')
    requires c in s'.chans && x < |s'.chans[c].attempts| && HasReturned(s.casters, s'.chans[c].attempts[x].m.call)
    ensures c in s.chans && x < |s.chans[c].attempts|
  {
    hide LockInv, ChanInv, LogInv, CacheInv, DecisionInv, HandoverInv, HandlerInv, EdgeInv, MintInv;
    var call := s'.chans[c].attempts[x].m.call;
    assert HasAttempt(s'.chans[c].attempts, call);
    assert Decided(s.casters, call) && call in s.decisions && c in s.decisions[call].clients;
    assert !Pending(s.casters, call, c);
    assert HasAttempt(s.chans[c].attempts, call);
    var w :| 0 <= w < |s.chans[c].attempts| && s.chans[c].attempts[w].m.call == call;
    assert s'.chans[c].attempts[w].m.call == call;
    assert ChanOk(s'.chans[c]);
  }

  lemma TriedIsLogged(s: Sys, c: nat, y: nat)
    requires Inv(s) && c in s.chans && y < |s.chans[c].attempts|
    ensures Logged(s.log, s.chans[c].attempts[y].m.call, |s.log|)
  {
    hide LockInv, ChanInv, ChansOk, CasterInv, LogInv, CacheInv, HandoverInv, HandlerInv, EdgeInv, MintInv;
    var call := s.chans[c].attempts[y].m.call;
    assert HasAttempt(s.chans[c].attempts, call);
    assert Logged(s.log, call, s.decisions[call].logged);
  }

  /** What was not yet appended had not been tried anywhere. */
  lemma UnloggedIsUntried(s: Sys, s': Sys, c: nat, y: nat)
    requires Inv(s) && Grows(s, s')
    requires c in s.chans && c in s'.chans && y < |s'.chans[c].attempts|
    requires !Logged(s.log, s'.chans[c].attempts[y].m.call, |s.log|)
    ensures |s.chans[c].attempts| <= y
  {
    hide Inv, Logged;
    if y < |s.chans[c].attempts| {
      TriedIsLogged(s, c, y);
    }
  }

  ghost predicate LoggedInOrder(log: seq<Msg>, a: Call, b: Call)
  {
    forall i, j :: 0 <= i < |log| && 0 <= j < |log| && log[i].call == a && log[j].call == b ==> i < j
  }

  ghost predicate TriedInOrder(attempts: seq<Attempt>, a: Call, b: Call)
  {
    forall x, y :: 0 <= x < |attempts| && 0 <= y < |attempts| && attempts[x].m.call == a && attempts[y].m.call == b ==> x < y
  }

  /**
   Broadcasts that do not overlap keep their order whatever goroutines make them: if one has returned
   before the other is appended, then wherever both turn up later, in the append log or on any one
   client's channel, the first comes first.
   */
  lemma NonOverlappingInOrder(states: seq<Sys>, steps: seq<Step>, p: nat, q: nat, a: Call, b: Call)
    requires IsRun(states, steps) && p <= q < |states|
    requires HasReturned(states[p].casters, a) && !Logged(states[p].log, b, |states[p].log|)
    ensures LoggedInOrder(states[q].log, a, b)
    ensures forall c :: c in states[q].chans ==> TriedInOrder(states[q].chans[c].attempts, a, b)
  {
    HubSteps.RunKept(states, steps);
    RunGrows(states, steps, p, q);
    var s, s' := states[p], states[q];
    assert Inv(s) && Inv(s');
    hide IsRun;
    LogOrder(s, s', a, b);
    hide Inv, Grows, Logged;
    forall c | c in s'.chans
      ensures TriedInOrder(s'.chans[c].attempts, a, b)
    {
      var tried := s'.chans[c].attempts;
      forall x, y | 0 <= x < |tried| && 0 <= y < |tried| && tried[x].m.call == a && tried[y].m.call == b
        ensures x < y
      {
        ReturnedIsOver(s, s', c, x);
        UnloggedIsUntried(s, s', c, y);
      }
    }
  }

  lemma LogOrder(s: Sys, s': Sys, a: Call, b: Call)
    requires Inv(s) && Inv(s') && Grows(s, s')
    requires HasReturned(s.casters, a) && !Logged(s.log, b, |s.log|)
    ensures LoggedInOrder(s'.log, a, b)
  {
    hide LockInv, ChanInv, ChansOk, CasterInv, AttemptInv, CacheInv, DecisionInv, HandoverInv, HandlerInv, EdgeInv, MintInv;
    assert InLog(s.casters, a);
    assert Logged(s.log, a, |s.log|);
    var w :| 0 <= w < |s.log| && s.log[w].call == a;
    assert s'.log[w].call == a;
    forall i, j | 0 <= i < |s'.log| && 0 <= j < |s'.log| && s'.log[i].call == a && s'.log[j].call == b
      ensures i < j
    {
      assert i == w;
    }
  }
}
