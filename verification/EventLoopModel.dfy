/**
 The functors queued to an event loop, and how the loop is woken for them: a
 state machine over the steps of the loop thread and of any number of other
 threads. A functor is a number.
 */
module EventLoopModel {

  /** Where the loop thread is: not in `loop` yet, about to poll or in it, handling
      what the poll reported, in `doPendingFunctors` before and after the swap, or
      out of the loop. */
  datatype Phase = Idle | Polling | Handling(woken: bool) | Entering | Draining | Ended

  datatype Loop = Loop(
    phase: Phase,
    pending: seq<int>,        // pendingFunctors_
    batch: seq<int>,          // what is left of the swapped-out functors
    calling: bool,            // callingPendingFunctors_
    quit: bool,
    counter: nat,             // of the eventfd
    pushers: nat,             // other threads between their push and their wakeup
    quitters: nat,            // other threads between setting quit_ and their wakeup
    // what has happened so far
    drained: bool,            // a swap has taken place
    queued: seq<int>,
    executed: seq<int>)

  const NEW := Loop(Idle, [], [], false, false, 0, 0, 0, false, [], [])

  datatype Event =
    | Push(f: int)            // queueInLoop in another thread, up to its wakeup
    | PushWakes               // that wakeup
    | PushHere(f: int)        // queueInLoop in the loop thread
    | Quit                    // quit() in another thread, up to its wakeup
    | QuitWakes
    | QuitHere
    | Start                   // loop() is called
    | PollReturns             // with the eventfd if its counter is not 0
    | ReadWakeup              // handleRead
    | Enter                   // doPendingFunctors
    | SwapOut
    | RunNext
    | Finish

  /** What the loop thread does with events and functors. */
  predicate InUserCode(phase: Phase) { phase.Idle? || phase.Handling? || phase.Draining? }

  predicate Enabled(l: Loop, e: Event) {
    match e
    case Push(_) => true
    case PushWakes => l.pushers > 0
    case PushHere(_) => InUserCode(l.phase)
    case Quit => true
    case QuitWakes => l.quitters > 0
    case QuitHere => InUserCode(l.phase)
    case Start => l.phase.Idle?
    case PollReturns => l.phase.Polling?
    case ReadWakeup => l.phase.Handling? && l.phase.woken
    case Enter => l.phase.Handling? && !l.phase.woken
    case SwapOut => l.phase.Entering?
    case RunNext => l.phase.Draining? && l.batch != []
    case Finish => l.phase.Draining? && l.batch == []
  }

  function Queue(l: Loop, f: int): Loop { l.(pending := l.pending + [f], queued := l.queued + [f]) }

  function Wakeup(l: Loop): Loop { l.(counter := l.counter + 1) }

  function Apply(l: Loop, e: Event): Loop
    requires Enabled(l, e)
  {
    match e
    case Push(f) => Queue(l, f).(pushers := l.pushers + 1)
    case PushWakes => Wakeup(l).(pushers := l.pushers - 1)
    case PushHere(f) => if l.calling then Wakeup(Queue(l, f)) else Queue(l, f)
    case Quit => l.(quit := true, quitters := l.quitters + 1)
    case QuitWakes => Wakeup(l).(quitters := l.quitters - 1)
    case QuitHere => l.(quit := true)
    case Start => l.(phase := Polling, quit := false)
    case PollReturns => l.(phase := Handling(l.counter > 0))
    case ReadWakeup => l.(phase := Handling(false), counter := 0)
    case Enter => l.(phase := Entering, calling := true)
    case SwapOut => l.(phase := Draining, batch := l.pending, pending := [], drained := true)
    case RunNext => l.(batch := l.batch[1..], executed := l.executed + [l.batch[0]])
    case Finish => l.(phase := if l.quit then Ended else Polling, calling := false)
  }

  // -------------------------------------------------------------- what they keep

  /** Somebody has told the eventfd, or is about to. */
  predicate Told(l: Loop) { l.counter > 0 || l.pushers > 0 }

  predicate InOrder(l: Loop) { l.executed + l.batch + l.pending == l.queued }

  predicate Inv(l: Loop) {
    && InOrder(l)
    && (l.batch != [] ==> l.phase.Draining?)
    && (l.calling <==> l.phase.Entering? || l.phase.Draining?)
    && (l.phase.Draining? ==> l.drained) && (l.phase.Idle? ==> !l.drained)
    && (l.phase.Draining? || (l.phase.Polling? && l.drained) ==> (l.pending != [] ==> Told(l)))
    && (l.phase.Polling? && l.quit ==> l.counter > 0 || l.quitters > 0)
  }

  lemma StepInOrder(l: Loop, e: Event)
    requires InOrder(l) && Enabled(l, e) && (l.batch != [] ==> l.phase.Draining?)
    ensures InOrder(Apply(l, e))
  {
    match e
    case Push(f) => assert l.executed + l.batch + (l.pending + [f]) == l.executed + l.batch + l.pending + [f];
    case PushHere(f) => assert l.executed + l.batch + (l.pending + [f]) == l.executed + l.batch + l.pending + [f];
    case SwapOut => assert l.executed + [] + l.pending == l.executed + l.pending + [];
    case RunNext => assert l.executed + [l.batch[0]] + l.batch[1..] == l.executed + l.batch;
    case _ =>
  }

  lemma StepInv(l: Loop, e: Event)
    requires Inv(l) && Enabled(l, e)
    ensures Inv(Apply(l, e))
  {
    StepInOrder(l, e);
    hide InOrder;
  }

  lemma StepQueued(l: Loop, e: Event)
    requires Enabled(l, e)
    ensures Apply(l, e).queued == l.queued + (if e.Push? || e.PushHere? then [e.f] else [])
  {
    assert l.queued + [] == l.queued;
  }

  predicate Playable(l: Loop, es: seq<Event>)
    decreases |es|
  {
    es == [] || (Enabled(l, es[0]) && Playable(Apply(l, es[0]), es[1..]))
  }

  function Play(l: Loop, es: seq<Event>): Loop
    requires Playable(l, es)
    decreases |es|
  {
    if es == [] then l else Play(Apply(l, es[0]), es[1..])
  }

  lemma {:induction false} PlayInv(l: Loop, es: seq<Event>)
    requires Inv(l) && Playable(l, es)
    ensures Inv(Play(l, es)) && Play(l, es).queued == l.queued + Queued(es)
    decreases |es|
  {
    if es == [] {
      assert l.queued + [] == l.queued;
    } else {
      hide Inv, Apply, Enabled;
      StepInv(l, es[0]);
      StepQueued(l, es[0]);
      PlayInv(Apply(l, es[0]), es[1..]);
      var f := if es[0].Push? || es[0].PushHere? then [es[0].f] else [];
      assert l.queued + f + Queued(es[1..]) == l.queued + (f + Queued(es[1..]));
    }
  }

  /** The functors of a run in the order in which their pushes got the lock. */
  function Queued(es: seq<Event>): seq<int> {
    if es == [] then [] else
    (if es[0].Push? || es[0].PushHere? then [es[0].f] else []) + Queued(es[1..])
  }

  /** On every run, with any number of threads: the functors executed are the first
      ones queued, each once and in order; once the loop has drained its queue for
      the first time, it never goes to poll with functors pending unless the
      eventfd says so or a thread is about to tell it; and the same for `quit`. */
  lemma NoLostFunctor(es: seq<Event>)
    requires Playable(NEW, es)
    ensures var l := Play(NEW, es);
            && l.executed + l.batch + l.pending == Queued(es)
            && l.executed <= Queued(es)
            && (l.phase.Polling? && l.drained && l.pending != [] ==> l.counter > 0 || l.pushers > 0)
            && (l.phase.Polling? && l.quit ==> l.counter > 0 || l.quitters > 0)
            && (l.phase.Draining? || l.batch == [])
  {
    hide Play, Playable, Queued;
    PlayInv(NEW, es);
    var l := Play(NEW, es);
    assert [] + Queued(es) == Queued(es);
    assert l.executed + l.batch + l.pending == l.executed + (l.batch + l.pending);
  }

  /** Another thread has queued a functor, or called `quit` and woken the loop. */
  predicate SomebodyElse(es: seq<Event>) {
    es != [] && (es[0].Push? || es[0].QuitWakes? || SomebodyElse(es[1..]))
  }

  /** Before the end of the first poll. */
  predicate FirstPoll(l: Loop) { l.phase.Idle? || (l.phase.Polling? && !l.drained) }

  lemma {:induction false} NeverFirstPollAgain(l: Loop, es: seq<Event>)
    requires Inv(l) && Playable(l, es) && !FirstPoll(l)
    ensures !FirstPoll(Play(l, es))
    decreases |es|
  {
    if es != [] {
      StepInv(l, es[0]);
      NeverFirstPollAgain(Apply(l, es[0]), es[1..]);
    }
  }

  lemma {:induction false} ToldInFirstPoll(l: Loop, es: seq<Event>)
    requires Inv(l) && FirstPoll(l) && Playable(l, es) && FirstPoll(Play(l, es))
    ensures Told(Play(l, es)) <==> Told(l) || SomebodyElse(es)
    decreases |es|
  {
    if es != [] {
      StepInv(l, es[0]);
      if FirstPoll(Apply(l, es[0])) {
        ToldInFirstPoll(Apply(l, es[0]), es[1..]);
      } else {
        NeverFirstPollAgain(Apply(l, es[0]), es[1..]);
      }
    }
  }

  /** The exception, exactly: up to its first poll the loop is told if and only if
      another thread has queued a functor or woken it to quit. So with functors
      pending the first poll lasts until its timeout exactly when all of them were
      queued in the loop thread and no other thread woke it to quit. */
  lemma FirstPollToldIff(es: seq<Event>)
    requires Playable(NEW, es) && FirstPoll(Play(NEW, es))
    ensures Told(Play(NEW, es)) <==> SomebodyElse(es)
  {
    ToldInFirstPoll(NEW, es);
  }

  /** A functor that is pending when the poll returns is executed in that turn of
      the loop, whatever other threads do meanwhile and the functors queue. */
  lemma TurnExecutes(l: Loop, between: seq<Event>)
    requires Inv(l) && l.phase.Entering? && Playable(Apply(l, SwapOut), between)
    requires var r := Play(Apply(l, SwapOut), between); r.phase.Polling? || r.phase.Ended?
    ensures l.executed + l.pending <= Play(Apply(l, SwapOut), between).executed
  {
    StepInv(l, SwapOut);
    DrainExecutes(Apply(l, SwapOut), between, l.executed + l.pending);
  }

  lemma {:induction false} DrainExecutes(l: Loop, es: seq<Event>, goal: seq<int>)
    requires Inv(l) && Playable(l, es)
    requires (l.phase.Draining? && goal == l.executed + l.batch) || goal <= l.executed
    requires var r := Play(l, es); r.phase.Polling? || r.phase.Ended?
    ensures goal <= Play(l, es).executed
    decreases |es|
  {
    if es != [] {
      hide Inv;
      StepInv(l, es[0]);
      StepDrains(l, es[0], goal);
      DrainExecutes(Apply(l, es[0]), es[1..], goal);
    }
  }

  lemma StepDrains(l: Loop, e: Event, goal: seq<int>)
    requires Inv(l) && Enabled(l, e)
    requires (l.phase.Draining? && goal == l.executed + l.batch) || goal <= l.executed
    ensures var r := Apply(l, e); (r.phase.Draining? && goal == r.executed + r.batch) || goal <= r.executed
  {
    if e.RunNext? {
      assert l.executed + [l.batch[0]] + l.batch[1..] == l.executed + l.batch;
    }
    if e.Finish? { assert l.executed + [] == l.executed; }
  }
}
