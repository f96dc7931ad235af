/**
 The timer queue object. Each method is proved to make the move of the state
 machine in TimerModel, its own assertions included; `handleRead` is the three
 methods between which the callbacks, and what they call, take place.
 */
module TimerObjects {
  import opened TimerModel
  import opened Options

  /** The locals of the `handleRead` in progress: its batch, how many callbacks
      have run, and its time. */
  datatype Frame = Frame(expired: seq<Entry>, next: nat, now: int)

  /** What has happened, for the state machine's account. */
  datatype Past = Past(
    inbox: set<nat>,
    issued: seq<nat>,
    batches: nat,
    runs: seq<Run>,
    freed: multiset<nat>,
    cancelled: map<nat, nat>)

  class TimerQueue {
    var heap: map<nat, Timer>
    var created: nat
    var timers: seq<Entry>
    var activeTimers: set<Key>
    var callingExpiredTimers: bool
    var cancelingTimers: set<Key>
    var frame: Frame
    var timerfd: Option<int>
    ghost var past: Past

    ghost function View(): Queue
      reads this
    {
      Queue(heap, timers, activeTimers, callingExpiredTimers, cancelingTimers,
            frame.expired, frame.next, frame.now, timerfd,
            past.inbox, past.issued, past.batches, past.runs, past.freed, past.cancelled)
    }

    ghost predicate Valid()
      reads this
    {
      Good(View()) && created == |past.issued|
    }

    constructor ()
      ensures Valid() && View() == EMPTY
    {
      heap, created, timers, activeTimers := map[], 0, [], {};
      callingExpiredTimers, cancelingTimers, frame, timerfd := false, {}, Frame([], 0, 0), None;
      past := Past({}, [], 0, [], multiset{}, map[]);
    }

    method AddTimer(a: nat, when: int, interval: nat, repeats: bool) returns (id: Key)
      requires Valid() && a !in heap
      modifies this
      ensures Valid() && View() == After(old(View()), Make(a, when, interval, repeats))
      ensures id == Key(a, old(created)) && Issued(View(), id)
    {
      hide Good;
      ghost var q := View();
      heap := heap[a := Timer(when, interval, repeats, created)];
      id := Key(a, created);
      created := created + 1;
      past := past.(issued := past.issued + [a], inbox := past.inbox + {a});
      assert View() == After(q, Make(a, when, interval, repeats));
    }

    /** Into both sets; tells whether the timer is now the earliest. */
    method Insert(a: nat) returns (earliestChanged: bool)
      requires Agree(View()) && a in heap
      requires Entry(heap[a].expiration, a) !in timers && KeyOf(View(), a) !in activeTimers
      modifies this`timers, this`activeTimers
      ensures View() == Put(old(View()), a) && earliestChanged == Earliest(old(View()), a)
    {
      SameSize(View());
      assert |timers| == |activeTimers|;
      var when := heap[a].expiration;
      earliestChanged := timers == [] || when < timers[0].when;
      timers := TimerModel.Insert(timers, Entry(when, a));
      activeTimers := activeTimers + {Key(a, heap[a].sequence)};
      assert |timers| == |activeTimers|;
    }

    method AddTimerInLoop(a: nat)
      requires Valid() && a in past.inbox
      modifies this
      ensures Valid() && View() == After(old(View()), Added(a))
    {
      hide Good;
      ghost var q := View();
      NotInTimersYet(q, a);
      var earliestChanged := Insert(a);
      if earliestChanged {
        timerfd := Some(heap[a].expiration);
      }
      past := past.(inbox := past.inbox - {a});
      assert View() == After(q, Added(a));
    }

    /** Out of both sets, and deleted. */
    method RemoveTimer(id: Key)
      requires id.addr in heap && id in activeTimers
      requires Entry(heap[id.addr].expiration, id.addr) in timers
      modifies this`timers, this`activeTimers, this`heap, this`past
      ensures View() == Remove(old(View()), id)
      ensures |timers| == old(|timers|) - 1 && |activeTimers| == old(|activeTimers|) - 1
    {
      timers := Erase(timers, Entry(heap[id.addr].expiration, id.addr));
      past := past.(freed := past.freed + multiset{heap[id.addr].sequence});
      heap := heap - {id.addr};
      activeTimers := activeTimers - {id};
    }

    method CancelInLoop(id: Key)
      requires Valid()
      modifies this
      ensures Valid() && View() == After(old(View()), Cancelled(id))
    {
      hide Good;
      ghost var q := View();
      SameSizeOnce(q);
      ActiveIsWaiting(q, id);
      hide Note, Remove;
      assert |timers| == |activeTimers|;
      ghost var noted := Note(q, id);
      if id in activeTimers {
        RemoveTimer(id);
      } else if callingExpiredTimers {
        cancelingTimers := cancelingTimers + {id};
      }
      past := past.(cancelled := noted);
      assert View() == After(q, Cancelled(id));
      assert |timers| == |activeTimers|;
    }

    /** `getExpired`: the timers due at `time` leave both sets. */
    method GetExpired(time: int) returns (es: seq<Entry>)
      requires forall e :: e in timers ==> e.addr in heap
      modifies this`timers, this`activeTimers
      ensures es == Due(old(timers), time) && timers == NotDue(old(timers), time)
      ensures activeTimers == old(activeTimers) - Keys(heap, es)
    {
      var n := Expired(timers, time);
      assert n == |timers| || time < timers[n].when by { ExpiredSplits(timers, time); }
      es, timers := timers[..n], timers[n..];
      EraseKeys(es);
    }

    method TakeBatch(time: int)
      requires forall e :: e in timers ==> e.addr in heap
      modifies this
      ensures View() == Take(old(View()), time) && created == old(created)
    {
      hide Due, NotDue, Keys;
      timerfd := None;
      var expired := GetExpired(time);
      frame := Frame(expired, 0, time);
      callingExpiredTimers := true;
      cancelingTimers := {};
      past := past.(batches := past.batches + 1);
    }

    /** `handleRead` up to the callbacks. */
    method BeginRead(time: int)
      requires Valid() && !callingExpiredTimers && time > 0
      modifies this
      ensures Valid() && View() == After(old(View()), Fired(time))
    {
      hide Good, After, Apply;
      ghost var q := View();
      WaitingIsLive(q);
      FiredIs(q, time);
      TakeBatch(time);
      assert past.issued == q.issued;
    }

    method EraseKeys(es: seq<Entry>)
      requires forall e :: e in es ==> e.addr in heap
      modifies this`activeTimers
      ensures activeTimers == old(activeTimers) - Keys(heap, es)
    {
      ghost var gone: set<Key> := {};
      for i := 0 to |es|
        invariant activeTimers == old(activeTimers) - gone
        invariant gone == Keys(heap, es[..i])
      {
        var e := es[i];
        assert es[..i + 1] == es[..i] + [e];
        var key := Key(e.addr, heap[e.addr].sequence);
        activeTimers, gone := activeTimers - {key}, gone + {key};
      }
      assert es[..|es|] == es;
    }

    /** One callback of the batch. */
    method RunCallback()
      requires Valid() && callingExpiredTimers && frame.next < |frame.expired|
      modifies this
      ensures Valid() && View() == After(old(View()), Called)
    {
      hide Good;
      ghost var q := View();
      BatchIsLive(q);
      var t := heap[frame.expired[frame.next].addr];
      past := past.(runs := past.runs + [Run(t.sequence, past.batches, t.repeats)]);
      frame := frame.(next := frame.next + 1);
      assert View() == After(q, Called);
    }

    /** The first of the batch goes back or is deleted. */
    method ResetFirst()
      requires Inv(View()) && frame.expired != [] && frame.next == |frame.expired|
      modifies this`frame, this`heap, this`past, this`timers, this`activeTimers
      ensures View() == ResetOne(old(View()))
    {
      hide Inv, Agree;
      ghost var q := View();
      FirstNotInTimers(q);
      var a := frame.expired[0].addr;
      var t := heap[a];
      if t.repeats && Key(a, t.sequence) !in cancelingTimers {
        Restart(a);
      } else {
        frame := frame.(expired := frame.expired[1..], next := frame.next - 1);
        heap := heap - {a};
        past := past.(freed := past.freed + multiset{t.sequence});
      }
    }

    /** The timer's next time, and back into both sets. */
    method Restart(a: nat)
      requires Agree(View()) && a in heap
      requires KeyOf(View(), a) !in activeTimers && forall e :: e in timers ==> e.addr != a
      requires frame.expired != [] && frame.next > 0
      modifies this`frame, this`heap, this`timers, this`activeTimers
      ensures View() == PutBack(old(View()), a)
    {
      hide Earliest, Put;
      ghost var q := View();
      frame := frame.(expired := frame.expired[1..], next := frame.next - 1);
      heap := heap[a := heap[a].(expiration := frame.now + heap[a].interval)];
      AgreeElsewhere(q, View(), a);
      hide Agree;
      var _ := Insert(a);
    }

    /** `handleRead` after the callbacks: `reset`. */
    method EndRead()
      requires Valid() && callingExpiredTimers && frame.next == |frame.expired|
      modifies this
      ensures Valid() && View() == After(old(View()), Done)
    {
      hide Agree, Owned, Counted, Doomed, History, Armed, ResetOne;
      ghost var q := View();
      callingExpiredTimers := false;
      SameParts(q, View());
      ghost var start := View();
      while frame.expired != []
        invariant Inv(View()) && frame.next == |frame.expired| && !callingExpiredTimers
        invariant ResetAll(View()) == ResetAll(start)
        invariant past.issued == old(past.issued) && created == old(created)
        decreases |frame.expired|
      {
        ResetOneInv(View());
        ghost var was := View();
        ResetFirst();
        ResetOneShrinks(was);
        assert ResetAll(was) == ResetAll(View());
      }
      assert View() == ResetAll(start);
      if timers != [] && timers[0].when > 0 {
        timerfd := Some(timers[0].when);
      }
      assert start == q.(calling := false);
      assert View() == After(q, Done);
      DoneIssuesNothing(q);
    }
  }

  lemma DoneIssuesNothing(q: Queue)
    requires Good(q) && q.calling && q.next == |q.expired|
    ensures Reset(q).issued == q.issued
  {
    hide Agree, Owned, Counted, Doomed, History, Armed, ResetAll;
    SameParts(q, q.(calling := false));
    ResetAllKeeps(q.(calling := false));
    assert Reset(q) == Rearm(ResetAll(q.(calling := false)));
  }

  lemma FiredIs(q: Queue, time: int)
    requires Good(q) && !q.calling && time > 0
    ensures After(q, Fired(time)) == Take(q, time)
  {
    hide Good, Due, NotDue, Keys;
  }

  lemma ResetOneShrinks(q: Queue)
    requires Inv(q) && q.expired != [] && q.next == |q.expired|
    ensures |ResetOne(q).expired| == |q.expired| - 1 && ResetOne(q).issued == q.issued
  {
  }

  lemma NotInTimersYet(q: Queue, a: nat)
    requires Good(q) && a in q.inbox
    ensures Agree(q) && a in q.heap && Entry(q.heap[a].expiration, a) !in q.timers && KeyOf(q, a) !in q.active
  {
    assert !InTimers(q, a);
  }

  lemma ActiveIsWaiting(q: Queue, id: Key)
    requires Good(q)
    ensures id in q.active ==>
              id.addr in q.heap && KeyOf(q, id.addr) == id && Entry(q.heap[id.addr].expiration, id.addr) in q.timers
  {
  }

  lemma BatchIsLive(q: Queue)
    requires Good(q) && q.next < |q.expired|
    ensures q.expired[q.next].addr in q.heap
  {
    assert q.expired[q.next] in q.expired;
  }

  lemma WaitingIsLive(q: Queue)
    requires Good(q)
    ensures forall e :: e in q.timers ==> e.addr in q.heap
    ensures forall i :: 0 <= i < |q.timers| ==> q.timers[i].addr in q.heap
  {
    forall i | 0 <= i < |q.timers| ensures q.timers[i].addr in q.heap { assert q.timers[i] in q.timers; }
  }

  lemma FirstNotInTimers(q: Queue)
    requires Inv(q) && q.expired != []
    ensures var a := q.expired[0].addr;
            Agree(q) && a in q.heap && KeyOf(q, a) !in q.active && forall e :: e in q.timers ==> e.addr != a
  {
    NotInTimers(q);
  }

  lemma AgreeElsewhere(q: Queue, r: Queue, a: nat)
    requires Agree(q) && a in q.heap && KeyOf(q, a) !in q.active && (forall e :: e in q.timers ==> e.addr != a)
    requires r.timers == q.timers && r.active == q.active
    requires a in r.heap && r.heap == q.heap[a := r.heap[a]] && r.heap[a].sequence == q.heap[a].sequence
    ensures Agree(r)
  {
  }
}
