/**
 A queue under one mutex with two condition variables, as a state machine over the
 critical sections of any number of threads: the bounded blocking queue, and the
 task queue of the thread pool, which can also be unbounded and be stopped. A
 thread that waits is either unsignalled or woken and about to take the mutex.
 */
module WaitQueueModel {
  import opened Options

  /** A condition variable: the threads in `wait` by whether they were signalled. */
  datatype Waiters = Waiters(unsignalled: set<nat>, woken: set<nat>)

  const NOBODY := Waiters({}, {})

  datatype Queue = Queue(
    bound: Option<nat>,      // `None`: the thread pool's limit 0
    running: bool,
    items: seq<int>,
    takers: Waiters,         // on notEmpty_
    putters: Waiters,        // on notFull_
    put: seq<int>,           // what was ever put in
    taken: seq<int>)         // what was ever taken out

  function New(bound: Option<nat>): Queue { Queue(bound, true, [], NOBODY, NOBODY, [], []) }

  predicate Full(q: Queue) { q.bound.Some? && |q.items| >= q.bound.value }

  // ------------------------------------------------------ the condition variables

  function Wait(w: Waiters, t: nat): Waiters { Waiters(w.unsignalled + {t}, w.woken - {t}) }

  /** The signalled thread gets the mutex, or a thread comes that did not wait. */
  function Leave(w: Waiters, t: nat): Waiters { w.(woken := w.woken - {t}) }

  /** `notifyOne` wakes some waiting thread, if there is one. */
  predicate CanPick(w: Waiters, pick: nat) { w.unsignalled != {} ==> pick in w.unsignalled }

  function NotifyOne(w: Waiters, pick: nat): Waiters {
    if w.unsignalled == {} then w else Waiters(w.unsignalled - {pick}, w.woken + {pick})
  }

  function NotifyAll(w: Waiters): Waiters { Waiters({}, w.unsignalled + w.woken) }

  // ---------------------------------------------------------- the critical sections

  /** `put`, `run`: from taking the mutex to waiting for room or to the end. */
  function TryPut(q: Queue, t: nat, x: int, pick: nat): Queue {
    if Full(q) && q.running then q.(putters := Wait(q.putters, t))
    else if !q.running then q.(putters := Leave(q.putters, t))
    else q.(putters := Leave(q.putters, t), items := q.items + [x], put := q.put + [x],
            takers := NotifyOne(q.takers, pick))
  }

  /** `take`: a stopped pool without tasks gives none. */
  function TryTake(q: Queue, t: nat, pick: nat): Queue {
    if q.items == [] && q.running then q.(takers := Wait(q.takers, t))
    else if q.items == [] then q.(takers := Leave(q.takers, t))
    else q.(takers := Leave(q.takers, t), items := q.items[1..], taken := q.taken + [q.items[0]],
            putters := if q.bound.Some? then NotifyOne(q.putters, pick) else q.putters)
  }

  /** `ThreadPool::stop` */
  function Stop(q: Queue): Queue {
    q.(running := false, takers := NotifyAll(q.takers), putters := NotifyAll(q.putters))
  }

  datatype Event =
    | Put(t: nat, x: int, pick: nat)     // a call of put, or the return from its wait
    | Take(t: nat, pick: nat)
    | WakeTaker(t: nat)                  // for no reason
    | WakePutter(t: nat)
    | Stopped

  predicate Enabled(q: Queue, e: Event) {
    match e
    case Put(t, _, pick) =>
      CanPick(q.takers, pick) && t !in q.putters.unsignalled && t !in q.takers.unsignalled + q.takers.woken
    case Take(t, pick) =>
      CanPick(q.putters, pick) && t !in q.takers.unsignalled && t !in q.putters.unsignalled + q.putters.woken
    case WakeTaker(t) => t in q.takers.unsignalled
    case WakePutter(t) => t in q.putters.unsignalled
    case Stopped => true
  }

  function Apply(q: Queue, e: Event): Queue
    requires Enabled(q, e)
  {
    match e
    case Put(t, x, pick) => TryPut(q, t, x, pick)
    case Take(t, pick) => TryTake(q, t, pick)
    case WakeTaker(t) => q.(takers := NotifyOne(q.takers, t))
    case WakePutter(t) => q.(putters := NotifyOne(q.putters, t))
    case Stopped => Stop(q)
  }

  // -------------------------------------------------------------- what they keep

  predicate Apart(w: Waiters) { w.unsignalled !! w.woken }

  /** While a consumer waits unsignalled, there are no more items than signalled
      consumers to take them. */
  predicate ItemsHaveTakers(q: Queue) { q.takers.unsignalled != {} ==> |q.items| <= |q.takers.woken| }

  /** While a producer waits unsignalled, there are no more free slots than
      signalled producers to use them. */
  predicate SlotsHavePutters(q: Queue) {
    q.putters.unsignalled != {} ==> q.bound.Some? && q.bound.value - |q.items| <= |q.putters.woken|
  }

  predicate Inv(q: Queue) {
    && Apart(q.takers) && Apart(q.putters)
    && ItemsHaveTakers(q) && SlotsHavePutters(q)
    && (q.bound.Some? ==> |q.items| <= q.bound.value)
    && q.taken + q.items == q.put
    && (!q.running ==> q.takers.unsignalled == {} && q.putters.unsignalled == {})
  }

  lemma NotifyCounts(w: Waiters, pick: nat)
    requires Apart(w) && CanPick(w, pick)
    ensures var v := NotifyOne(w, pick);
            && Apart(v) && v.unsignalled <= w.unsignalled
            && |v.woken| == |w.woken| + (if w.unsignalled == {} then 0 else 1)
  {
  }

  lemma PutInv(q: Queue, t: nat, x: int, pick: nat)
    requires Inv(q) && Enabled(q, Put(t, x, pick))
    ensures Inv(TryPut(q, t, x, pick))
  {
    NotifyCounts(q.takers, pick);
    hide NotifyOne;
    assert q.taken + (q.items + [x]) == q.taken + q.items + [x];
    assert t in q.putters.woken ==> |q.putters.woken - {t}| == |q.putters.woken| - 1;
    assert t !in q.putters.woken ==> q.putters.woken - {t} == q.putters.woken;
  }

  lemma TakeInv(q: Queue, t: nat, pick: nat)
    requires Inv(q) && Enabled(q, Take(t, pick))
    ensures Inv(TryTake(q, t, pick))
  {
    NotifyCounts(q.putters, pick);
    hide NotifyOne;
    if q.items != [] { assert q.taken + [q.items[0]] + q.items[1..] == q.taken + q.items; }
    assert t in q.takers.woken ==> |q.takers.woken - {t}| == |q.takers.woken| - 1;
    assert t !in q.takers.woken ==> q.takers.woken - {t} == q.takers.woken;
  }

  lemma StepInv(q: Queue, e: Event)
    requires Inv(q) && Enabled(q, e)
    ensures Inv(Apply(q, e))
  {
    match e
    case Put(t, x, pick) => PutInv(q, t, x, pick);
    case Take(t, pick) => TakeInv(q, t, pick);
    case WakeTaker(t) => NotifyCounts(q.takers, t);
    case WakePutter(t) => NotifyCounts(q.putters, t);
    case Stopped =>
  }

  predicate Playable(q: Queue, es: seq<Event>)
    decreases |es|
  {
    es == [] || (Enabled(q, es[0]) && Playable(Apply(q, es[0]), es[1..]))
  }

  function Play(q: Queue, es: seq<Event>): Queue
    requires Playable(q, es)
    decreases |es|
  {
    if es == [] then q else Play(Apply(q, es[0]), es[1..])
  }

  lemma {:induction false} PlayInv(q: Queue, es: seq<Event>)
    requires Inv(q) && Playable(q, es)
    ensures Inv(Play(q, es)) && Play(q, es).bound == q.bound
    decreases |es|
  {
    hide Inv;
    if es != [] {
      StepInv(q, es[0]);
      PlayInv(Apply(q, es[0]), es[1..]);
    }
  }

  /** On every run, for any number of threads: what is taken comes out in the
      order it was put in and once; no consumer waits unsignalled beside an item
      unless a signalled one is there for it, and no producer beside a free slot. */
  lemma NoLostWakeup(bound: Option<nat>, es: seq<Event>)
    requires Playable(New(bound), es)
    ensures var q := Play(New(bound), es);
            && q.taken <= q.put && q.put[|q.taken|..] == q.items
            && (bound.Some? ==> |q.items| <= bound.value)
            && (q.takers.unsignalled != {} ==> |q.items| <= |q.takers.woken|)
            && (q.putters.unsignalled != {} ==> bound.Some? && bound.value - |q.items| <= |q.putters.woken|)
            && (q.takers.unsignalled != {} && q.items != [] ==> q.takers.woken != {})
            && (q.putters.unsignalled != {} && !Full(q) ==> q.putters.woken != {})
  {
    PlayInv(New(bound), es);
  }

  lemma StoppedStep(q: Queue, e: Event)
    requires Inv(q) && !q.running && Enabled(q, e)
    ensures var r := Apply(q, e);
            && !r.running && r.put == q.put
            && r.takers.woken <= q.takers.woken && r.putters.woken <= q.putters.woken
            && r.takers.unsignalled == {} == r.putters.unsignalled
            && (e.Take? ==> e.t !in r.takers.woken) && (e.Put? ==> e.t !in r.putters.woken)
  {
  }

  /** The thread runs one of its critical sections. */
  predicate TakesPart(es: seq<Event>, t: nat) {
    es != [] && (((es[0].Take? || es[0].Put?) && es[0].t == t) || TakesPart(es[1..], t))
  }

  lemma {:induction false} StoppedPlay(q: Queue, es: seq<Event>)
    requires Inv(q) && !q.running && Playable(q, es)
    ensures var r := Play(q, es);
            && !r.running && r.takers.unsignalled == {} && r.putters.unsignalled == {} && r.put == q.put
            && (forall t :: t in r.takers.woken ==> t in q.takers.woken && !TakesPart(es, t))
            && (forall t :: t in r.putters.woken ==> t in q.putters.woken && !TakesPart(es, t))
    decreases |es|
  {
    if es != [] {
      StepInv(q, es[0]);
      StoppedStep(q, es[0]);
      StoppedPlay(Apply(q, es[0]), es[1..]);
    }
  }

  /** After `stop` nobody waits and nobody ever waits again: on every run from
      there each thread that was waiting comes back at its next step, none is
      added, and nothing is put in any more. */
  lemma StopFreesAll(q: Queue, es: seq<Event>)
    requires Inv(q) && Playable(Stop(q), es)
    ensures var r := Play(Stop(q), es);
            && r.takers.unsignalled == {} && r.putters.unsignalled == {} && r.put == q.put
            && (forall t :: t in r.takers.woken ==> t in Stop(q).takers.woken && !TakesPart(es, t))
            && (forall t :: t in r.putters.woken ==> t in Stop(q).putters.woken && !TakesPart(es, t))
  {
    StepInv(q, Stopped);
    StoppedPlay(Stop(q), es);
  }
}
