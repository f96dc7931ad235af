/**
 The event loop's object. `queueInLoop` and `quit` of another thread are two
 methods each, since the loop thread can come between them; `loop` is one method
 for each stretch between the points where callbacks and other threads come in.
 */
module EventLoopObjects {
  import opened EventLoopModel

  /** Where the threads are and what has happened, for the state machine's account. */
  datatype Trace = Trace(
    phase: Phase, pushers: nat, quitters: nat, drained: bool, queued: seq<int>, executed: seq<int>)

  class EventLoop {
    var pendingFunctors: seq<int>
    var functors: seq<int>                // the local of doPendingFunctors
    var callingPendingFunctors: bool
    var quit: bool
    var wakeupFd: nat                     // the eventfd's counter
    ghost var trace: Trace

    ghost function View(): Loop
      reads this
    {
      Loop(trace.phase, pendingFunctors, functors, callingPendingFunctors, quit, wakeupFd,
           trace.pushers, trace.quitters, trace.drained, trace.queued, trace.executed)
    }

    ghost predicate Valid()
      reads this
    {
      Inv(View())
    }

    constructor ()
      ensures Valid() && View() == NEW
    {
      pendingFunctors, functors, callingPendingFunctors, quit, wakeupFd := [], [], false, false, 0;
      trace := Trace(Idle, 0, 0, false, [], []);
    }

    method PushFunctor(f: int)
      modifies this`pendingFunctors, this`trace
      ensures View() == Queue(old(View()), f)
    {
      pendingFunctors := pendingFunctors + [f];
      trace := trace.(queued := trace.queued + [f]);
    }

    method Wakeup()
      modifies this`wakeupFd
      ensures View() == EventLoopModel.Wakeup(old(View()))
    {
      wakeupFd := wakeupFd + 1;
    }

    /** `queueInLoop`, called in the loop thread. */
    method QueueInLoop(f: int)
      requires Valid() && Enabled(View(), PushHere(f))
      modifies this
      ensures Valid() && View() == Apply(old(View()), PushHere(f))
      ensures callingPendingFunctors ==> wakeupFd > 0
    {
      StepInv(View(), PushHere(f));
      hide Inv;
      PushFunctor(f);
      if callingPendingFunctors {
        Wakeup();
      }
    }

    /** `queueInLoop`, called in another thread: its push, and then its wakeup. */
    method QueueFromOther(f: int)
      requires Valid()
      modifies this
      ensures Valid() && View() == Apply(old(View()), Push(f)) && Told(View())
    {
      StepInv(View(), Push(f));
      hide Inv;
      PushFunctor(f);
      trace := trace.(pushers := trace.pushers + 1);
    }

    method WakeupFromOther()
      requires Valid() && Enabled(View(), PushWakes)
      modifies this
      ensures Valid() && View() == Apply(old(View()), PushWakes) && Told(View())
    {
      StepInv(View(), PushWakes);
      hide Inv;
      Wakeup();
      trace := trace.(pushers := trace.pushers - 1);
    }

    /** `quit()` in another thread, likewise in two. */
    method QuitFromOther()
      requires Valid()
      modifies this
      ensures Valid() && View() == Apply(old(View()), Event.Quit)
    {
      quit := true;
      trace := trace.(quitters := trace.quitters + 1);
    }

    method QuitWakeup()
      requires Valid() && Enabled(View(), QuitWakes)
      modifies this
      ensures Valid() && View() == Apply(old(View()), QuitWakes)
    {
      Wakeup();
      trace := trace.(quitters := trace.quitters - 1);
    }

    method Quit()
      requires Valid() && Enabled(View(), QuitHere)
      modifies this`quit
      ensures Valid() && View() == Apply(old(View()), QuitHere)
    {
      quit := true;
    }

    method BeginLoop()
      requires Valid() && trace.phase == Idle
      modifies this`quit, this`trace
      ensures Valid() && View() == Apply(old(View()), Start)
    {
      quit := false;
      trace := trace.(phase := Polling);
    }

    /** The poller reports the eventfd if its counter is not zero; after the first
        drain it does so with functors pending, unless a thread is about to wake it. */
    method Poll() returns (wakeupReadable: bool)
      requires Valid() && trace.phase == Polling
      modifies this`trace
      ensures Valid() && View() == Apply(old(View()), PollReturns) && wakeupReadable == (wakeupFd > 0)
      ensures trace.drained && pendingFunctors != [] ==> wakeupReadable || trace.pushers > 0
      ensures quit ==> wakeupReadable || trace.quitters > 0
    {
      wakeupReadable := wakeupFd > 0;
      trace := trace.(phase := Handling(wakeupReadable));
    }

    /** A read resets the counter of the eventfd. */
    method HandleRead()
      requires Valid() && trace.phase == Handling(true)
      modifies this`wakeupFd, this`trace
      ensures Valid() && View() == Apply(old(View()), ReadWakeup)
    {
      wakeupFd := 0;
      trace := trace.(phase := Handling(false));
    }

    /** `doPendingFunctors`: up to the lock, the swap, one functor at a time, the end. */
    method BeginPending()
      requires Valid() && trace.phase == Handling(false)
      modifies this`callingPendingFunctors, this`trace
      ensures Valid() && View() == Apply(old(View()), Enter)
    {
      callingPendingFunctors := true;
      trace := trace.(phase := Entering);
    }

    /** What is swapped out is all that was queued and has not been executed. */
    method SwapPending()
      requires Valid() && trace.phase == Entering
      modifies this
      ensures Valid() && View() == Apply(old(View()), SwapOut)
      ensures trace.executed + functors == trace.queued == old(trace.queued)
    {
      StepInv(View(), SwapOut);
      hide Inv;
      functors, pendingFunctors := pendingFunctors, [];
      trace := trace.(phase := Draining, drained := true);
    }

    method NextFunctor() returns (f: int)
      requires Valid() && Enabled(View(), RunNext)
      modifies this`functors, this`trace
      ensures Valid() && View() == Apply(old(View()), RunNext) && f == old(trace.queued)[old(|trace.executed|)]
    {
      StepInv(View(), RunNext);
      HeadIs(View());
      hide Inv;
      f := functors[0];
      functors := functors[1..];
      trace := trace.(executed := trace.executed + [f]);
    }

    /** The end of `doPendingFunctors` and the test of the loop. */
    method EndPending() returns (again: bool)
      requires Valid() && Enabled(View(), Finish)
      modifies this`callingPendingFunctors, this`trace
      ensures Valid() && View() == Apply(old(View()), Finish) && again == !quit
      ensures trace.executed + pendingFunctors == trace.queued
      ensures pendingFunctors != [] ==> Told(View())
    {
      callingPendingFunctors := false;
      again := !quit;
      trace := trace.(phase := if again then Polling else Ended);
    }
  }

  /** The functor run next is the first one queued that has not been run. */
  lemma HeadIs(l: Loop)
    requires InOrder(l)
    ensures l.batch != [] ==> |l.executed| < |l.queued| && l.queued[|l.executed|] == l.batch[0]
  {
  }
}
