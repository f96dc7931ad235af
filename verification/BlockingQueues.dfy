/**
 The bounded blocking queue and the thread pool as objects. A method that can
 wait is one stretch of the thread's work under the mutex: it ends with the result
 or in the wait, and is called again when the thread comes out of it. Which waiter
 a notification wakes is a parameter.
 */
module BlockingQueues {
  import opened WaitQueueModel
  import opened Options

  class Condition {
    var unsignalled: set<nat>
    var woken: set<nat>

    function View(): Waiters
      reads this
    {
      Waiters(unsignalled, woken)
    }

    constructor ()
      ensures View() == NOBODY
    {
      unsignalled, woken := {}, {};
    }

    method Wait(t: nat)
      modifies this
      ensures View() == WaitQueueModel.Wait(old(View()), t)
    {
      unsignalled := unsignalled + {t};
      woken := woken - {t};
    }

    /** The thread has the mutex and does not wait (any more). */
    method Leave(t: nat)
      modifies this
      ensures View() == WaitQueueModel.Leave(old(View()), t)
    {
      woken := woken - {t};
    }

    method NotifyOne(pick: nat)
      requires CanPick(View(), pick)
      modifies this
      ensures View() == WaitQueueModel.NotifyOne(old(View()), pick)
    {
      if unsignalled != {} {
        unsignalled := unsignalled - {pick};
        woken := woken + {pick};
      }
    }

    method NotifyAll()
      modifies this
      ensures View() == WaitQueueModel.NotifyAll(old(View()))
    {
      woken := unsignalled + woken;
      unsignalled := {};
    }
  }

  /** What has happened, for the state machine's account. */
  datatype Past = Past(put: seq<int>, taken: seq<int>)

  class BoundedBlockingQueue {
    const maxSize: nat
    const notEmpty: Condition
    const notFull: Condition
    var queue: seq<int>
    ghost var past: Past

    ghost function View(): Queue
      reads this, notEmpty, notFull
    {
      Queue(Some(maxSize), true, queue, notEmpty.View(), notFull.View(), past.put, past.taken)
    }

    ghost predicate Valid()
      reads this, notEmpty, notFull
    {
      notEmpty != notFull && Inv(View())
    }

    constructor (maxSize: nat)
      ensures Valid() && View() == New(Some(maxSize)) && fresh(notEmpty) && fresh(notFull)
    {
      this.maxSize, queue, past := maxSize, [], Past([], []);
      notEmpty := new Condition();
      notFull := new Condition();
    }

    method Put(t: nat, x: int, pick: nat) returns (waits: bool)
      requires Valid() && Enabled(View(), Event.Put(t, x, pick))
      modifies this, notEmpty, notFull
      ensures Valid() && View() == Apply(old(View()), Event.Put(t, x, pick))
      ensures waits == (old(|queue|) == maxSize)
    {
      PutInv(View(), t, x, pick);
      hide Inv;
      waits := |queue| >= maxSize;
      if waits {
        notFull.Wait(t);
      } else {
        notFull.Leave(t);
        queue := queue + [x];
        past := past.(put := past.put + [x]);
        notEmpty.NotifyOne(pick);
      }
    }

    method Take(t: nat, pick: nat) returns (front: Option<int>)
      requires Valid() && Enabled(View(), Event.Take(t, pick))
      modifies this, notEmpty, notFull
      ensures Valid() && View() == Apply(old(View()), Event.Take(t, pick))
      ensures front == if old(queue) == [] then None else Some(old(past.put)[|old(past.taken)|])
    {
      TakeInv(View(), t, pick);
      FrontIs(View());
      hide Inv;
      if queue == [] {
        notEmpty.Wait(t);
        front := None;
      } else {
        notEmpty.Leave(t);
        front := Some(queue[0]);
        queue := queue[1..];
        past := past.(taken := past.taken + [front.value]);
        notFull.NotifyOne(pick);
      }
    }
  }

  /** The front of the queue is the oldest item not taken yet. */
  lemma FrontIs(q: Queue)
    requires Inv(q)
    ensures q.items != [] ==> |q.taken| < |q.put| && q.put[|q.taken|] == q.items[0]
  {
  }

  class ThreadPool {
    const maxQueueSize: nat
    const notEmpty: Condition
    const notFull: Condition
    var running: bool
    var queue: seq<int>
    ghost var past: Past

    ghost function View(): Queue
      reads this, notEmpty, notFull
    {
      Queue(if maxQueueSize > 0 then Some(maxQueueSize) else None, running, queue,
            notEmpty.View(), notFull.View(), past.put, past.taken)
    }

    ghost predicate Valid()
      reads this, notEmpty, notFull
    {
      notEmpty != notFull && Inv(View())
    }

    /** With its threads started. */
    constructor (maxQueueSize: nat)
      ensures Valid() && View() == New(if maxQueueSize > 0 then Some(maxQueueSize) else None)
      ensures this.maxQueueSize == maxQueueSize && fresh(notEmpty) && fresh(notFull)
    {
      this.maxQueueSize, running, queue, past := maxQueueSize, true, [], Past([], []);
      notEmpty := new Condition();
      notFull := new Condition();
    }

    predicate IsFull()
      reads this
    {
      maxQueueSize > 0 && |queue| >= maxQueueSize
    }

    method Run(t: nat, task: int, pick: nat) returns (waits: bool)
      requires Valid() && Enabled(View(), Event.Put(t, task, pick))
      modifies this, notEmpty, notFull
      ensures Valid() && View() == Apply(old(View()), Event.Put(t, task, pick))
      ensures waits == old(IsFull() && running)
    {
      PutInv(View(), t, task, pick);
      hide Inv;
      waits := IsFull() && running;
      if waits {
        notFull.Wait(t);
        return;
      }
      notFull.Leave(t);
      if !running { return; }
      assert !IsFull();
      PushTask(task, pick);
    }

    method PushTask(task: int, pick: nat)
      requires notEmpty != notFull && CanPick(notEmpty.View(), pick)
      modifies this`queue, this`past, notEmpty
      ensures View() == old(View()).(items := old(queue) + [task], put := old(past.put) + [task],
                                     takers := WaitQueueModel.NotifyOne(old(notEmpty.View()), pick))
    {
      queue := queue + [task];
      past := past.(put := past.put + [task]);
      notEmpty.NotifyOne(pick);
    }

    /** A queued task, or none from a stopped pool. */
    method Take(t: nat, pick: nat) returns (waits: bool, task: Option<int>)
      requires Valid() && Enabled(View(), Event.Take(t, pick))
      modifies this, notEmpty, notFull
      ensures Valid() && View() == Apply(old(View()), Event.Take(t, pick))
      ensures waits == old(queue == [] && running)
      ensures task == if old(queue) == [] then None else Some(old(past.put)[|old(past.taken)|])
    {
      TakeInv(View(), t, pick);
      FrontIs(View());
      hide Inv;
      waits := queue == [] && running;
      task := None;
      if waits {
        notEmpty.Wait(t);
        return;
      }
      notEmpty.Leave(t);
      if queue != [] {
        task := Some(queue[0]);
        queue := queue[1..];
        past := past.(taken := past.taken + [task.value]);
        if maxQueueSize > 0 {
          notFull.NotifyOne(pick);
        }
      }
    }

    method Stop()
      requires Valid()
      modifies this`running, notEmpty, notFull
      ensures Valid() && View() == WaitQueueModel.Stop(old(View()))
    {
      StepInv(View(), Stopped);
      hide Inv;
      running := false;
      notEmpty.NotifyAll();
      notFull.NotifyAll();
    }
  }
}
