/** The polling loop that the hub's activate and deactivate callbacks start and stop, one callback at a time. */
module Activation {
  import opened Basics
  import opened ActivationMachine

  class CancelChannel {
    var closed: bool

    constructor ()
      ensures !closed
    {
      closed := false;
    }
  }

  class Poller {
    var pollingRunning: bool
    var pollCancel: CancelChannel?
    /** The channels made so far, the number of the one held, and what each loop was started on. */
    ghost var channels: seq<CancelChannel>
    ghost var held: nat
    ghost var loops: seq<Option<nat>>

    /** The machine's shared fields that these stand for. */
    ghost function View(): Poll
      reads this, channels
    {
      Poll(pollingRunning, if pollCancel == null then None else Some(held), |channels|,
           (set i: nat | i < |channels| && channels[i].closed), loops)
    }

    ghost predicate Valid()
      reads this, channels
    {
      && (pollCancel != null ==> held < |channels| && channels[held] == pollCancel)
      && (forall i, j :: 0 <= i < j < |channels| ==> channels[i] != channels[j])
      && Right(View())
    }

    constructor ()
      ensures Valid() && View() == Off
    {
      pollingRunning, pollCancel, channels, held, loops := false, null, [], 0, [];
    }

    method OnActivated()
      requires Valid()
      modifies this
      ensures Valid() && View() == Whole(old(View()), true)
      ensures channels == old(channels) || (|channels| == |old(channels)| + 1 && fresh(channels[|old(channels)|]))
    {
      var was := pollingRunning;
      pollingRunning := true;
      if was {
        return;
      }
      pollCancel := new CancelChannel();
      held := |channels|;
      channels := channels + [pollCancel];
      loops := loops + [Some(held)];
      assert View().closed == old(View().closed);
      LaunchedOne(View().cancel, View().closed, old(loops));
    }

    /** The channel closed was open. */
    method OnDeactivated()
      requires Valid()
      modifies this, pollCancel
      ensures Valid() && View() == Whole(old(View()), false)
      ensures channels == old(channels)
      ensures old(pollCancel) != null ==> !old(pollCancel.closed) && old(pollCancel).closed
    {
      var was := pollingRunning;
      pollingRunning := false;
      if !was {
        return;
      }
      StoppedLast(View().cancel, View().closed, loops);
      if pollCancel != null {
        pollCancel.closed := true;
        assert View().closed == old(View().closed) + {held};
        pollCancel := null;
      }
    }
  }
}
