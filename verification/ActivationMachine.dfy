/**
 The hub's activate and deactivate callbacks as the goroutines they are. Only the swap of
 `pollingRunning` is atomic; `pollCancel` is assigned, read, closed and cleared in steps of their own.
 */
module ActivationMachine {
  import opened Basics
  import HubMachine
  import HubTheorems
  import HubAlone

  /**
   What the callbacks share. Cancel channels are numbered as they are made; `closed` lists those closed,
   `loops` what each broadcaster loop was given to wait on: nothing, if it was started on nil.
   */
  datatype Poll = Poll(running: bool, cancel: Option<nat>, made: nat, closed: set<nat>, loops: seq<Option<nat>>)

  const Off := Poll(false, None, 0, {}, [])

  /** Program counter of one callback. */
  datatype Pc =
    | Ready
    | Assigning       // activate: swap won, about to make the channel
    | Launching       // activate: about to start the loop on whatever pollCancel is then
    | Checking        // deactivate: swap won, about to look at pollCancel
    | Closing         // deactivate: saw a channel, about to close whatever pollCancel is then
    | Clearing        // deactivate: about to set pollCancel to nil
    | Done

  /** Callback `i` is the `i`-th the hub decided: they alternate, activate first. `swaps` is the order of their swaps. */
  datatype Sys = Sys(poll: Poll, pcs: seq<Pc>, swaps: seq<nat>, panicked: bool)

  const Init := Sys(Off, [], [], false)

  datatype Step = Decide | Swap(i: nat) | Assign(i: nat) | Launch(i: nat) | Check(i: nat) | Close(i: nat) | Clear(i: nat)

  predicate Activates(i: nat) { i % 2 == 0 }

  /** The swap finds the flag the other way, so the callback goes on. */
  predicate Wins(s: Sys, i: nat) { s.poll.running != Activates(i) }

  predicate Enabled(s: Sys, st: Step)
  {
    !s.panicked &&
    match st
    case Decide => true
    case Swap(i) => i < |s.pcs| && s.pcs[i].Ready?
    case Assign(i) => i < |s.pcs| && s.pcs[i].Assigning?
    case Launch(i) => i < |s.pcs| && s.pcs[i].Launching?
    case Check(i) => i < |s.pcs| && s.pcs[i].Checking?
    case Close(i) => i < |s.pcs| && s.pcs[i].Closing?
    case Clear(i) => i < |s.pcs| && s.pcs[i].Clearing?
  }

  function SetPc(s: Sys, i: nat, pc: Pc): Sys
    requires i < |s.pcs|
  {
    s.(pcs := s.pcs[i := pc])
  }

  function DoSwap(s: Sys, i: nat): Sys
    requires i < |s.pcs|
  {
    SetPc(s.(poll := s.poll.(running := Activates(i)), swaps := s.swaps + [i]), i,
          if !Wins(s, i) then Done else if Activates(i) then Assigning else Checking)
  }

  /** Closing nil or a closed channel panics. */
  function DoClose(s: Sys, i: nat): Sys
    requires i < |s.pcs|
  {
    var p := s.poll;
    if p.cancel.None? || p.cancel.value in p.closed then SetPc(s.(panicked := true), i, Done)
    else SetPc(s.(poll := p.(closed := p.closed + {p.cancel.value})), i, Clearing)
  }

  function Apply(s: Sys, st: Step): Sys
    requires Enabled(s, st)
  {
    match st
    case Decide => s.(pcs := s.pcs + [Ready])
    case Swap(i) => DoSwap(s, i)
    case Assign(i) => SetPc(s.(poll := s.poll.(cancel := Some(s.poll.made), made := s.poll.made + 1)), i, Launching)
    case Launch(i) => SetPc(s.(poll := s.poll.(loops := s.poll.loops + [s.poll.cancel])), i, Done)
    case Check(i) => SetPc(s, i, if s.poll.cancel.Some? then Closing else Done)
    case Close(i) => DoClose(s, i)
    case Clear(i) => SetPc(s.(poll := s.poll.(cancel := None)), i, Done)
  }

  ghost predicate IsRun(states: seq<Sys>, steps: seq<Step>)
  {
    && |states| == |steps| + 1
    && states[0] == Init
    && forall i :: 0 <= i < |steps| ==> Enabled(states[i], steps[i]) && states[i + 1] == Apply(states[i], steps[i])
  }

  // ---- what is right ---------------------------------------------------------------------------

  /** Nobody can stop a loop that waits on nil; the others stop when their channel is closed. */
  predicate Open(closed: set<nat>, loop: Option<nat>)
  {
    loop.None? || loop.value !in closed
  }

  predicate AllStopped(closed: set<nat>, loops: seq<Option<nat>>)
  {
    forall k :: 0 <= k < |loops| ==> !Open(closed, loops[k])
  }

  /** One loop is open, and `pollCancel` can stop it. */
  ghost predicate OneLoop(cancel: Option<nat>, closed: set<nat>, loops: seq<Option<nat>>)
  {
    cancel.Some? && cancel.value !in closed &&
    exists k :: 0 <= k < |loops| && loops[k] == cancel && forall l :: 0 <= l < |loops| && l != k ==> !Open(closed, loops[l])
  }

  /** With the flag set there is one loop, which can be stopped; otherwise there is none. */
  ghost predicate Right(p: Poll)
  {
    if p.running then OneLoop(p.cancel, p.closed, p.loops) else p.cancel.None? && AllStopped(p.closed, p.loops)
  }

  /** The callback has won its swap and is not through. */
  predicate Mid(pc: Pc) { !pc.Ready? && !pc.Done? }

  predicate Quiet(pcs: seq<Pc>)
  {
    forall i :: 0 <= i < |pcs| ==> !Mid(pcs[i])
  }

  // ---- swaps won while nobody is in the middle -------------------------------------------------

  /** A callback wins its swap only when no other is between its own swap and its end. */
  predicate Guarded(s: Sys, st: Step)
  {
    st.Swap? && Wins(s, st.i) ==> Quiet(s.pcs)
  }

  ghost predicate GuardedRun(states: seq<Sys>, steps: seq<Step>)
  {
    IsRun(states, steps) && forall i :: 0 <= i < |steps| ==> Guarded(states[i], steps[i])
  }

  /** The shared fields while the one callback in the middle is at `pc`, or while nobody is. */
  ghost predicate Consistent(p: Poll, pc: Pc)
  {
    match pc
    case Ready => Right(p)
    case Done => Right(p)
    case Assigning => p.running && p.cancel.None? && AllStopped(p.closed, p.loops)
    case Launching => p.running && p.cancel.Some? && p.cancel.value !in p.closed && AllStopped(p.closed, p.loops)
    case Checking => !p.running && OneLoop(p.cancel, p.closed, p.loops)
    case Closing => !p.running && OneLoop(p.cancel, p.closed, p.loops)
    case Clearing => !p.running && p.cancel.Some? && AllStopped(p.closed, p.loops)
  }

  predicate Numbered(p: Poll)
  {
    (p.cancel.Some? ==> p.cancel.value < p.made) && forall c :: c in p.closed ==> c < p.made
  }

  ghost predicate Inv(s: Sys)
  {
    && !s.panicked
    && Numbered(s.poll)
    && (forall i, j :: 0 <= i < j < |s.pcs| ==> !(Mid(s.pcs[i]) && Mid(s.pcs[j])))
    && (forall i :: 0 <= i < |s.pcs| && Mid(s.pcs[i]) ==> Consistent(s.poll, s.pcs[i]))
    && (Quiet(s.pcs) ==> Right(s.poll))
  }

  /** The flag is what the last swap made it; the callbacks past their swap are those in `swaps`. */
  ghost predicate SwapInv(s: Sys)
  {
    && (s.poll.running <==> s.swaps != [] && Activates(s.swaps[|s.swaps| - 1]))
    && (forall i :: 0 <= i < |s.pcs| && !s.pcs[i].Ready? ==> s.swaps != [])
  }

  /** The callback in the middle moves on, or one without a callback in the middle wins its swap. */
  lemma OneMoves(s: Sys, i: nat, poll: Poll, pc: Pc)
    requires Inv(s) && i < |s.pcs| && (Mid(s.pcs[i]) || Quiet(s.pcs))
    requires Numbered(poll) && Consistent(poll, pc)
    ensures var pcs := s.pcs[i := pc];
      && (forall j, k :: 0 <= j < k < |pcs| ==> !(Mid(pcs[j]) && Mid(pcs[k])))
      && (forall j :: 0 <= j < |pcs| && Mid(pcs[j]) ==> Consistent(poll, pcs[j]))
      && (Quiet(pcs) ==> Right(poll))
  {
    var pcs := s.pcs[i := pc];
    RightAtEnd(poll, pc);
    hide Consistent, Right, Numbered;
    assert forall j :: 0 <= j < |pcs| && j != i ==> pcs[j] == s.pcs[j] && !Mid(pcs[j]);
    assert Quiet(pcs) ==> !Mid(pcs[i]);
  }

  lemma RightAtEnd(p: Poll, pc: Pc)
    requires Consistent(p, pc)
    ensures !Mid(pc) ==> Right(p)
  {
    hide Right;
  }

  lemma LaunchedOne(cancel: Option<nat>, closed: set<nat>, loops: seq<Option<nat>>)
    requires AllStopped(closed, loops) && cancel.Some? && cancel.value !in closed
    ensures OneLoop(cancel, closed, loops + [cancel])
  {
    assert (loops + [cancel])[|loops|] == cancel;
  }

  lemma StoppedLast(cancel: Option<nat>, closed: set<nat>, loops: seq<Option<nat>>)
    requires OneLoop(cancel, closed, loops)
    ensures AllStopped(closed + {cancel.value}, loops)
  {
  }

  lemma SwapKept(s: Sys, i: nat)
    requires Inv(s) && Enabled(s, Swap(i)) && Guarded(s, Swap(i))
    ensures Inv(Apply(s, Swap(i)))
  {
    hide OneLoop, AllStopped;
    if Wins(s, i) {
      OneMoves(s, i, DoSwap(s, i).poll, DoSwap(s, i).pcs[i]);
    } else {
      var pcs := s.pcs[i := Done];
      assert s.poll.(running := Activates(i)) == s.poll;
      assert forall j :: 0 <= j < |pcs| ==> (Mid(pcs[j]) <==> Mid(s.pcs[j]));
      assert Quiet(pcs) ==> Quiet(s.pcs);
    }
  }

  lemma WorkKept(s: Sys, st: Step)
    requires Inv(s) && Enabled(s, st) && !st.Swap? && !st.Decide?
    ensures Inv(Apply(s, st))
  {
    var p := s.poll;
    assert Consistent(p, s.pcs[st.i]);
    if st.Launch? {
      LaunchedOne(p.cancel, p.closed, p.loops);
    } else if st.Close? {
      assert OneLoop(p.cancel, p.closed, p.loops);
      StoppedLast(p.cancel, p.closed, p.loops);
    } else if st.Check? {
      assert OneLoop(p.cancel, p.closed, p.loops);
    }
    hide OneLoop, AllStopped;
    OneMoves(s, st.i, Apply(s, st).poll, Apply(s, st).pcs[st.i]);
  }

  lemma StepKept(s: Sys, st: Step)
    requires Inv(s) && Enabled(s, st) && Guarded(s, st)
    ensures Inv(Apply(s, st))
  {
    hide OneLoop, AllStopped, Consistent, Right;
    match st {
      case Decide =>
        var pcs := s.pcs + [Ready];
        assert forall j :: 0 <= j < |s.pcs| ==> pcs[j] == s.pcs[j];
      case Swap(i) => SwapKept(s, i);
      case _ => WorkKept(s, st);
    }
  }

  lemma SwapInvKept(s: Sys, st: Step)
    requires SwapInv(s) && Enabled(s, st)
    ensures SwapInv(Apply(s, st))
  {
  }

  /** In every state of a guarded run nothing has panicked, and polling is right whenever nobody is in the middle. */
  lemma {:induction false} GuardedRunKept(states: seq<Sys>, steps: seq<Step>, n: nat)
    requires GuardedRun(states, steps) && n < |states|
    ensures Inv(states[n]) && SwapInv(states[n])
    decreases n
  {
    if n > 0 {
      hide Inv, SwapInv, Enabled, Apply, Guarded;
      GuardedRunKept(states, steps, n - 1);
      StepKept(states[n - 1], steps[n - 1]);
      SwapInvKept(states[n - 1], steps[n - 1]);
    }
  }

  /**
   Overlaps are safe as long as nobody wins a swap while another is in the middle: no channel is closed
   twice, and no close meets nil; and whenever nobody is in the middle, one loop runs, on the channel
   `pollCancel` holds, if the last swap was an activation, and none runs otherwise.
   */
  lemma GuardedRunsAreRight(states: seq<Sys>, steps: seq<Step>, n: nat)
    requires GuardedRun(states, steps) && n < |states|
    ensures !states[n].panicked
    ensures Quiet(states[n].pcs) ==> Right(states[n].poll)
    ensures states[n].poll.running <==> states[n].swaps != [] && Activates(states[n].swaps[|states[n].swaps| - 1])
  {
    GuardedRunKept(states, steps, n);
    hide IsRun;
  }

  // ---- the guard is the weakest one ------------------------------------------------------------

  /** The steps of callbacks past their swap. */
  predicate Works(st: Step) { !st.Decide? && !st.Swap? }

  /** `s'` can be reached from `s` by such steps. */
  ghost predicate WorksTo(s: Sys, steps: seq<Step>, s': Sys)
    decreases |steps|
  {
    if steps == [] then s == s'
    else Works(steps[0]) && Enabled(s, steps[0]) && WorksTo(Apply(s, steps[0]), steps[1..], s')
  }

  /** Whatever the callbacks past their swaps do next, nothing panics, and polling is right once they are through. */
  ghost predicate Safe(s: Sys)
  {
    forall steps, s' :: WorksTo(s, steps, s') ==> !s'.panicked && (Quiet(s'.pcs) ==> Right(s'.poll))
  }

  lemma {:induction false} WorkingKept(s: Sys, steps: seq<Step>, s': Sys)
    requires Inv(s) && WorksTo(s, steps, s')
    ensures Inv(s')
    decreases |steps|
  {
    if steps != [] {
      hide Inv, Enabled, Apply;
      WorkKept(s, steps[0]);
      WorkingKept(Apply(s, steps[0]), steps[1..], s');
    }
  }

  lemma WorksOne(s: Sys, st: Step, steps: seq<Step>, s': Sys)
    requires Works(st) && Enabled(s, st) && WorksTo(Apply(s, st), steps, s')
    ensures WorksTo(s, [st] + steps, s')
  {
    hide Enabled, Apply, Works;
    assert ([st] + steps)[1..] == steps;
  }

  lemma WorksNone(s: Sys)
    ensures WorksTo(s, [], s)
  {
  }

  ghost predicate LeadsAstray(s: Sys)
  {
    exists steps, s' :: WorksTo(s, steps, s') && Quiet(s'.pcs) && !Right(s'.poll)
  }

  lemma OneStepAstray(s: Sys, st: Step)
    requires Works(st) && Enabled(s, st) && LeadsAstray(Apply(s, st))
    ensures LeadsAstray(s)
  {
    hide Enabled, Apply, Works;
    var steps, s' :| WorksTo(Apply(s, st), steps, s') && Quiet(s'.pcs) && !Right(s'.poll);
    WorksOne(s, st, steps, s');
  }

  lemma Astray(s: Sys)
    requires Quiet(s.pcs) && !Right(s.poll)
    ensures LeadsAstray(s)
  {
    WorksNone(s);
  }

  /** Callback `i` is in the middle and `j` has just swapped; nobody else matters. */
  predicate Two(pcs: seq<Pc>, i: nat, j: nat)
  {
    i < |pcs| && j < |pcs| && i != j && forall k :: 0 <= k < |pcs| && k != i && k != j ==> !Mid(pcs[k])
  }

  /** The deactivation finds nothing to close; the activation then starts a loop nobody will stop. */
  lemma DeactivatedBeforeAssign(s: Sys, i: nat, j: nat)
    requires !s.panicked && Two(s.pcs, i, j) && s.pcs[i].Assigning? && s.pcs[j].Checking?
    requires !s.poll.running && s.poll.cancel.None?
    ensures LeadsAstray(s)
  {
    hide Right;
    var s1 := Apply(s, Check(j));
    var s2 := Apply(s1, Assign(i));
    var s3 := Apply(s2, Launch(i));
    assert !Right(s3.poll) by { NotRight(s3.poll); }
    Astray(s3);
    OneStepAstray(s2, Launch(i));
    OneStepAstray(s1, Assign(i));
    OneStepAstray(s, Check(j));
  }

  lemma NotRight(p: Poll)
    requires p.running <==> p.cancel.None?
    ensures !Right(p)
  {
  }

  /** The deactivation closes and clears before the loop is started, which then waits on nil. */
  lemma DeactivatedBeforeLaunch(s: Sys, i: nat, j: nat)
    requires !s.panicked && Two(s.pcs, i, j) && s.pcs[i].Launching? && s.pcs[j].Checking?
    requires !s.poll.running && s.poll.cancel.Some? && s.poll.cancel.value !in s.poll.closed
    ensures LeadsAstray(s)
  {
    hide Right;
    var s1 := Apply(s, Check(j));
    var s2 := Apply(s1, Close(j));
    var s3 := Apply(s2, Clear(j));
    var s4 := Apply(s3, Launch(i));
    assert !Right(s4.poll) by { WaitsOnNil(s4.poll); }
    Astray(s4);
    OneStepAstray(s3, Launch(i));
    OneStepAstray(s2, Clear(j));
    OneStepAstray(s1, Close(j));
    OneStepAstray(s, Check(j));
  }

  lemma WaitsOnNil(p: Poll)
    requires !p.running && p.loops != [] && p.loops[|p.loops| - 1].None?
    ensures !Right(p)
  {
    assert Open(p.closed, p.loops[|p.loops| - 1]);
  }

  /** An unfinished deactivation clears the channel of the next activation. */
  lemma ActivatedBeforeClear(s: Sys, i: nat, j: nat)
    requires !s.panicked && Two(s.pcs, i, j) && s.pcs[i].Clearing? && s.pcs[j].Launching? && s.poll.running
    ensures LeadsAstray(s)
  {
    hide Right;
    var s1 := Apply(s, Clear(i));
    var s2 := Apply(s1, Launch(j));
    assert !Right(s2.poll) by { NotRight(s2.poll); }
    Astray(s2);
    OneStepAstray(s1, Launch(j));
    OneStepAstray(s, Clear(i));
  }

  /** Or closes it, having seen the old one. */
  lemma ActivatedBeforeClose(s: Sys, i: nat, j: nat)
    requires !s.panicked && Numbered(s.poll) && Two(s.pcs, i, j) && s.poll.running && s.pcs[j].Assigning?
    requires s.pcs[i].Closing? || s.pcs[i].Clearing? || (s.pcs[i].Checking? && s.poll.cancel.Some?)
    ensures LeadsAstray(s)
    decreases if i < |s.pcs| && s.pcs[i].Checking? then 1 else 0
  {
    if s.pcs[i].Checking? {
      var s1 := Apply(s, Check(i));
      ActivatedBeforeClose(s1, i, j);
      OneStepAstray(s, Check(i));
    } else {
      var s1 := Apply(s, Assign(j));
      if s.pcs[i].Clearing? {
        ActivatedBeforeClear(s1, i, j);
      } else {
        ActivatedBeforeClear(Apply(s1, Close(i)), i, j);
        OneStepAstray(s1, Close(i));
      }
      OneStepAstray(s, Assign(j));
    }
  }

  lemma OverlapLeadsAstray(s: Sys, i: nat, j: nat)
    requires Inv(s) && i < |s.pcs| && Mid(s.pcs[i]) && Enabled(s, Swap(j)) && Wins(s, j)
    ensures LeadsAstray(Apply(s, Swap(j)))
  {
    var s' := Apply(s, Swap(j));
    assert Consistent(s.poll, s.pcs[i]);
    assert Two(s'.pcs, i, j);
    LoopIsHeld(s.poll);
    hide Inv, OneLoop, AllStopped, LeadsAstray, Two;
    match s.pcs[i] {
      case Assigning => DeactivatedBeforeAssign(s', i, j);
      case Launching => DeactivatedBeforeLaunch(s', i, j);
      case Checking => ActivatedBeforeClose(s', i, j);
      case Closing => ActivatedBeforeClose(s', i, j);
      case Clearing => ActivatedBeforeClose(s', i, j);
      case Ready =>
      case Done =>
    }
  }

  lemma LoopIsHeld(p: Poll)
    ensures OneLoop(p.cancel, p.closed, p.loops) ==> p.cancel.Some?
  {
  }

  /**
   At any point of a guarded run, letting a callback win its swap is safe, whatever the scheduler then
   does with those past their swaps, if and only if nobody is in the middle.
   */
  lemma SafeIffQuiet(states: seq<Sys>, steps: seq<Step>, n: nat, j: nat)
    requires GuardedRun(states, steps) && n < |states|
    requires Enabled(states[n], Swap(j)) && Wins(states[n], j)
    ensures Safe(Apply(states[n], Swap(j))) <==> Quiet(states[n].pcs)
  {
    var s := states[n];
    GuardedRunKept(states, steps, n);
    if Quiet(s.pcs) {
      SwapKept(s, j);
      var t := Apply(s, Swap(j));
      forall more, s' | WorksTo(t, more, s')
        ensures !s'.panicked && (Quiet(s'.pcs) ==> Right(s'.poll))
      {
        WorkingKept(t, more, s');
      }
    } else {
      var i :| 0 <= i < |s.pcs| && Mid(s.pcs[i]);
      OverlapLeadsAstray(s, i, j);
      hide Inv, SwapInv, Enabled, Apply, Right;
    }
  }

  // ---- a callback that nobody disturbs ---------------------------------------------------------

  /** What a callback amounts to that runs from its swap to its end on its own. */
  function Whole(p: Poll, activate: bool): Poll
  {
    if p.running == activate then p
    else if activate then Poll(true, Some(p.made), p.made + 1, p.closed, p.loops + [Some(p.made)])
    else Poll(false, None, p.made, if p.cancel.Some? then p.closed + {p.cancel.value} else p.closed, p.loops)
  }

  lemma ActivatesAlone(s: Sys, i: nat)
    requires Inv(s) && Quiet(s.pcs) && Enabled(s, Swap(i)) && Activates(i) && Wins(s, i)
    ensures WorksTo(Apply(s, Swap(i)), [Assign(i), Launch(i)],
                    Sys(Whole(s.poll, true), s.pcs[i := Done], s.swaps + [i], false))
  {
    hide Right;
    var s1 := Apply(s, Swap(i));
    var s2 := Apply(s1, Assign(i));
    var s3 := Apply(s2, Launch(i));
    assert s3 == Sys(Whole(s.poll, true), s.pcs[i := Done], s.swaps + [i], false) by {
      assert s3.pcs == s.pcs[i := Done];
    }
    WorksNone(s3);
    WorksOne(s2, Launch(i), [], s3);
    WorksOne(s1, Assign(i), [Launch(i)] + [], s3);
    assert [Assign(i)] + ([Launch(i)] + []) == [Assign(i), Launch(i)];
  }

  lemma DeactivatesAlone(s: Sys, i: nat)
    requires Inv(s) && Quiet(s.pcs) && Enabled(s, Swap(i)) && !Activates(i) && Wins(s, i)
    ensures WorksTo(Apply(s, Swap(i)), [Check(i), Close(i), Clear(i)],
                    Sys(Whole(s.poll, false), s.pcs[i := Done], s.swaps + [i], false))
  {
    assert OneLoop(s.poll.cancel, s.poll.closed, s.poll.loops);
    hide Right;
    var s1 := Apply(s, Swap(i));
    var s2 := Apply(s1, Check(i));
    var s3 := Apply(s2, Close(i));
    var s4 := Apply(s3, Clear(i));
    assert s4 == Sys(Whole(s.poll, false), s.pcs[i := Done], s.swaps + [i], false) by {
      assert s4.pcs == s.pcs[i := Done];
    }
    WorksNone(s4);
    WorksOne(s3, Clear(i), [], s4);
    WorksOne(s2, Close(i), [Clear(i)] + [], s4);
    WorksOne(s1, Check(i), [Close(i)] + ([Clear(i)] + []), s4);
    assert [Check(i)] + ([Close(i)] + ([Clear(i)] + [])) == [Check(i), Close(i), Clear(i)];
  }

  /** A swap that is lost, or won and followed by the callback's own steps, amounts to `Whole`. */
  lemma CallbackAlone(s: Sys, i: nat) returns (steps: seq<Step>)
    requires Inv(s) && Quiet(s.pcs) && Enabled(s, Swap(i))
    ensures WorksTo(Apply(s, Swap(i)), steps,
                    Sys(Whole(s.poll, Activates(i)), s.pcs[i := Done], s.swaps + [i], false))
  {
    if !Wins(s, i) {
      steps := [];
      WorksNone(Apply(s, Swap(i)));
    } else if Activates(i) {
      steps := [Assign(i), Launch(i)];
      ActivatesAlone(s, i);
    } else {
      steps := [Check(i), Close(i), Clear(i)];
      DeactivatesAlone(s, i);
    }
  }

  // ---- the polling and the clients -------------------------------------------------------------

  ghost predicate SomeLoopRuns(p: Poll)
  {
    exists k :: 0 <= k < |p.loops| && Open(p.closed, p.loops[k])
  }

  lemma RunsIffRunning(p: Poll)
    requires Right(p)
    ensures SomeLoopRuns(p) <==> p.running
  {
    if p.running {
      var k :| 0 <= k < |p.loops| && p.loops[k] == p.cancel;
      assert Open(p.closed, p.loops[k]);
    }
  }

  /**
   After a guarded run in which all callbacks that a hub has decided are through, some loop runs exactly
   while somebody is subscribed if and only if the callback that swapped last is of the kind the hub
   decided last.
   */
  lemma PollingRightIff(hub: HubMachine.Sys, states: seq<Sys>, steps: seq<Step>, n: nat)
    requires HubTheorems.Reachable(hub)
    requires GuardedRun(states, steps) && n < |states|
    requires |states[n].pcs| == |hub.edges| && forall i :: 0 <= i < |states[n].pcs| ==> states[n].pcs[i].Done?
    ensures hub.edges != [] ==> states[n].swaps != []
    ensures (SomeLoopRuns(states[n].poll) <==> hub.clients != {}) <==>
              (hub.edges == [] ||
               Activates(states[n].swaps[|states[n].swaps| - 1]) == hub.edges[|hub.edges| - 1])
  {
    HubTheorems.EdgesAlternate(hub);
    GuardedRunKept(states, steps, n);
    var s := states[n];
    hide IsRun, HubTheorems.Reachable;
    RunsIffRunning(s.poll);
    NoSwapsYet(states, steps, n);
    hide Right, SomeLoopRuns;
    assert hub.edges != [] ==> !s.pcs[0].Ready?;
  }

  lemma {:induction false} NoSwapsYet(states: seq<Sys>, steps: seq<Step>, n: nat)
    requires IsRun(states, steps) && n < |states|
    ensures states[n].pcs == [] ==> states[n].swaps == []
    decreases n
  {
    if n > 0 {
      NoSwapsYet(states, steps, n - 1);
      assert states[n] == Apply(states[n - 1], steps[n - 1]);
    }
  }

  /** If the swaps come in the order of the decisions, it does. */
  lemma PollingFollowsClients(hub: HubMachine.Sys, states: seq<Sys>, steps: seq<Step>, n: nat)
    requires HubTheorems.Reachable(hub)
    requires GuardedRun(states, steps) && n < |states|
    requires |states[n].pcs| == |hub.edges| && forall i :: 0 <= i < |states[n].pcs| ==> states[n].pcs[i].Done?
    requires |states[n].swaps| == |hub.edges| && forall i :: 0 <= i < |hub.edges| ==> states[n].swaps[i] == i
    ensures SomeLoopRuns(states[n].poll) <==> hub.clients != {}
  {
    PollingRightIff(hub, states, steps, n);
    HubTheorems.EdgesAlternate(hub);
    hide IsRun, GuardedRun, HubTheorems.Reachable, SomeLoopRuns;
  }

  // ---- three runs ------------------------------------------------------------------------------

  ghost predicate Reachable(s: Sys, guarded: bool)
  {
    exists states, steps ::
      IsRun(states, steps) && (guarded ==> GuardedRun(states, steps)) && states[|states| - 1] == s
  }

  lemma InitReachable(guarded: bool)
    ensures Reachable(Init, guarded)
  {
    assert IsRun([Init], []) && [Init][|[Init]| - 1] == Init;
  }

  lemma Next(s: Sys, st: Step, guarded: bool, s': Sys)
    requires Reachable(s, guarded) && Enabled(s, st) && (guarded ==> Guarded(s, st)) && s' == Apply(s, st)
    ensures Reachable(s', guarded)
  {
    hide Enabled, Apply, Guarded;
    var states, steps :| IsRun(states, steps) && (guarded ==> GuardedRun(states, steps)) && states[|states| - 1] == s;
    assert IsRun(states + [s'], steps + [st]);
    assert (states + [s'])[|states|] == s';
  }

  /** Two callbacks decided, none of them started. */
  lemma TwoDecided(guarded: bool)
    ensures Reachable(Sys(Off, [Ready, Ready], [], false), guarded)
  {
    InitReachable(guarded);
    hide Reachable;
    Next(Init, Decide, guarded, Sys(Off, [Ready], [], false));
    Next(Sys(Off, [Ready], [], false), Decide, guarded, Sys(Off, [Ready, Ready], [], false));
  }

  /** The callbacks of a client that comes and goes, swapping in the wrong order: a loop is left running for nobody. */
  lemma SwappedCallbacksKeepPolling() returns (hub: HubMachine.Sys, s: Sys)
    ensures HubTheorems.Reachable(hub) && hub.clients == {} && hub.edges == [true, false]
    ensures Reachable(s, true) && s.pcs == [Done, Done] && s.swaps == [1, 0]
    ensures SomeLoopRuns(s.poll)
  {
    hub := HubAlone.CameAndWent();
    TwoDecided(true);
    hide HubTheorems.Reachable, Reachable;
    var s2 := Sys(Off, [Ready, Ready], [], false);
    var s3 := Sys(Off, [Ready, Done], [1], false);
    var s4 := Sys(Off.(running := true), [Assigning, Done], [1, 0], false);
    var s5 := Sys(Poll(true, Some(0), 1, {}, []), [Launching, Done], [1, 0], false);
    s := Sys(Poll(true, Some(0), 1, {}, [Some(0)]), [Done, Done], [1, 0], false);
    Next(s2, Swap(1), true, s3);
    Next(s3, Swap(0), true, s4);
    Next(s4, Assign(0), true, s5);
    Next(s5, Launch(0), true, s);
    assert Open(s.poll.closed, s.poll.loops[0]);
  }

  /**
   The right order of swaps is not enough where they overlap: the deactivation finds no channel to close,
   the activation then starts its loop.
   */
  lemma OverlapKeepsPolling() returns (s: Sys)
    ensures Reachable(s, false) && s.pcs == [Done, Done] && s.swaps == [0, 1]
    ensures SomeLoopRuns(s.poll) && !s.poll.running
  {
    TwoDecided(false);
    hide Reachable;
    var s2 := Sys(Off, [Ready, Ready], [], false);
    var s3 := Sys(Off.(running := true), [Assigning, Ready], [0], false);
    var s4 := Sys(Off, [Assigning, Checking], [0, 1], false);
    var s5 := Sys(Off, [Assigning, Done], [0, 1], false);
    var s6 := Sys(Poll(false, Some(0), 1, {}, []), [Launching, Done], [0, 1], false);
    s := Sys(Poll(false, Some(0), 1, {}, [Some(0)]), [Done, Done], [0, 1], false);
    Next(s2, Swap(0), false, s3);
    Next(s3, Swap(1), false, s4);
    Next(s4, Check(1), false, s5);
    Next(s5, Assign(0), false, s6);
    Next(s6, Launch(0), false, s);
    assert Open(s.poll.closed, s.poll.loops[0]);
  }

  /** Polling is on; the first deactivation has seen its channel and not closed it yet. */
  lemma OneStopping() returns (s: Sys)
    ensures Reachable(s, false)
    ensures s == Sys(Poll(false, Some(0), 1, {}, [Some(0)]), [Done, Closing], [0, 1], false)
  {
    TwoDecided(false);
    hide Reachable;
    var s2 := Sys(Off, [Ready, Ready], [], false);
    var s3 := Sys(Off.(running := true), [Assigning, Ready], [0], false);
    var s4 := Sys(Poll(true, Some(0), 1, {}, []), [Launching, Ready], [0], false);
    var p := Poll(true, Some(0), 1, {}, [Some(0)]);
    var s5 := Sys(p, [Done, Ready], [0], false);
    var s6 := Sys(p.(running := false), [Done, Checking], [0, 1], false);
    s := Sys(p.(running := false), [Done, Closing], [0, 1], false);
    Next(s2, Swap(0), false, s3);
    Next(s3, Assign(0), false, s4);
    Next(s4, Launch(0), false, s5);
    Next(s5, Swap(1), false, s6);
    Next(s6, Check(1), false, s);
  }

  /** Then polling is on again, and the second deactivation has closed the new channel. */
  lemma OtherStopped() returns (s: Sys)
    ensures Reachable(s, false)
    ensures s == Sys(Poll(false, Some(1), 2, {1}, [Some(0), Some(1)]), [Done, Closing, Done, Clearing], [0, 1, 2, 3], false)
  {
    var s1 := OneStopping();
    hide Reachable;
    var p := s1.poll;
    var s2 := Sys(p, [Done, Closing, Ready], [0, 1], false);
    var s3 := Sys(p.(running := true), [Done, Closing, Assigning], [0, 1, 2], false);
    var s4 := Sys(Poll(true, Some(1), 2, {}, [Some(0)]), [Done, Closing, Launching], [0, 1, 2], false);
    var q := Poll(true, Some(1), 2, {}, [Some(0), Some(1)]);
    var s5 := Sys(q, [Done, Closing, Done], [0, 1, 2], false);
    var s6 := Sys(q, [Done, Closing, Done, Ready], [0, 1, 2], false);
    var s7 := Sys(q.(running := false), [Done, Closing, Done, Checking], [0, 1, 2, 3], false);
    var s8 := Sys(q.(running := false), [Done, Closing, Done, Closing], [0, 1, 2, 3], false);
    s := Sys(Poll(false, Some(1), 2, {1}, [Some(0), Some(1)]), [Done, Closing, Done, Clearing], [0, 1, 2, 3], false);
    Next(s1, Decide, false, s2);
    Next(s2, Swap(2), false, s3);
    Next(s3, Assign(2), false, s4);
    Next(s4, Launch(2), false, s5);
    Next(s5, Decide, false, s6);
    Next(s6, Swap(3), false, s7);
    Next(s7, Check(3), false, s8);
    Next(s8, Close(3), false, s);
  }

  /** Nor is the order enough for the closes: the two deactivations come to close one channel. */
  lemma OverlapPanics() returns (s: Sys)
    ensures Reachable(s, false) && s.swaps == [0, 1, 2, 3] && s.panicked
  {
    var before := OtherStopped();
    hide Reachable;
    s := Apply(before, Close(1));
    Next(before, Close(1), false, s);
  }

  /** And one can come to close the nil that the other has left. */
  lemma OverlapClosesNil() returns (s: Sys)
    ensures Reachable(s, false) && s.swaps == [0, 1, 2, 3] && s.panicked && s.poll.cancel.None?
  {
    var s1 := OneStopping();
    hide Reachable;
    var p := s1.poll;
    var s2 := Sys(p, [Done, Closing, Ready], [0, 1], false);
    var s3 := Sys(p.(running := true), [Done, Closing, Assigning], [0, 1, 2], false);
    var s4 := Sys(p.(running := true), [Done, Closing, Assigning, Ready], [0, 1, 2], false);
    var s5 := Sys(p, [Done, Closing, Assigning, Checking], [0, 1, 2, 3], false);
    var s6 := Sys(p, [Done, Closing, Assigning, Closing], [0, 1, 2, 3], false);
    var s7 := Sys(p.(closed := {0}), [Done, Closing, Assigning, Clearing], [0, 1, 2, 3], false);
    var s8 := Sys(p.(closed := {0}, cancel := None), [Done, Closing, Assigning, Done], [0, 1, 2, 3], false);
    Next(s1, Decide, false, s2);
    Next(s2, Swap(2), false, s3);
    Next(s3, Decide, false, s4);
    Next(s4, Swap(3), false, s5);
    Next(s5, Check(3), false, s6);
    Next(s6, Close(3), false, s7);
    Next(s7, Clear(3), false, s8);
    s := Apply(s8, Close(1));
    Next(s8, Close(1), false, s);
  }
}
