/**
 The timer queue as a state machine: two sets that must agree, a batch of
 expired timers in flight, cancellation that may have to wait for the end of
 the batch, and a heap whose addresses are reused, so that a timer is named by
 its address and its sequence number together.
 Times are microseconds, of which only the order matters here.
 */
module TimerModel {
  import opened Options

  /** An element of `timers_`. */
  datatype Entry = Entry(when: int, addr: nat)

  /** An element of `activeTimers_`; also what a `TimerId` holds. */
  datatype Key = Key(addr: nat, sequence: nat)

  /** A timer object. `interval` is in microseconds, cut to an integer, and may be
      0 for a repeating timer too. */
  datatype Timer = Timer(expiration: int, interval: nat, repeats: bool, sequence: nat)

  /** A callback that was run, and in which batch. */
  datatype Run = Run(sequence: nat, batch: nat, repeats: bool)

  datatype Queue = Queue(
    heap: map<nat, Timer>,
    timers: seq<Entry>,        // std::set, in its order
    active: set<Key>,
    calling: bool,
    canceling: set<Key>,
    expired: seq<Entry>,       // the batch in flight ...
    next: nat,                 // ... and how many of its callbacks have run
    now: int,                  // when that batch was taken
    armed: Option<int>,        // the time the timerfd is set to, if it is
    // what has happened so far
    inbox: set<nat>,           // allocated; addTimerInLoop has not run yet
    issued: seq<nat>,          // the address of the timer with each sequence number
    batches: nat,
    runs: seq<Run>,
    freed: multiset<nat>,      // sequence numbers of deleted timers
    cancelled: map<nat, nat>)  // sequence number -> batch count when cancelled

  const EMPTY := Queue(map[], [], {}, false, {}, [], 0, 0, None, {}, [], 0, [], multiset{}, map[])

  // ------------------------------------------------------------ the ordered set

  predicate Less(a: Entry, b: Entry) {
    a.when < b.when || (a.when == b.when && a.addr < b.addr)
  }

  predicate Sorted(ts: seq<Entry>) {
    forall i, j :: 0 <= i < j < |ts| ==> Less(ts[i], ts[j])
  }

  function Insert(ts: seq<Entry>, e: Entry): (r: seq<Entry>)
    ensures |r| == |ts| + 1
    ensures forall x :: x in r <==> x == e || x in ts
    ensures Sorted(ts) && e !in ts ==> Sorted(r)
    ensures ts != [] && !Less(e, ts[0]) ==> r[0] == ts[0]
    ensures ts == [] || Less(e, ts[0]) ==> r[0] == e
  {
    if ts == [] || Less(e, ts[0]) then [e] + ts
    else
      assert ts == [ts[0]] + ts[1..];
      [ts[0]] + Insert(ts[1..], e)
  }

  function Erase(ts: seq<Entry>, e: Entry): (r: seq<Entry>)
    ensures Sorted(ts) ==> Sorted(r)
    ensures Sorted(ts) ==> forall x :: x in r <==> x in ts && x != e
    ensures e in ts ==> |r| == |ts| - 1
    ensures forall x :: x in r ==> x in ts
    ensures Sorted(ts) && r != [] ==> ts != [] && (r[0] == ts[0] || Less(ts[0], r[0]))
  {
    if ts == [] then []
    else
      assert ts == [ts[0]] + ts[1..];
      if ts[0] == e then ts[1..] else [ts[0]] + Erase(ts[1..], e)
  }

  /** `lower_bound` of (now, the largest address): how many have expired. */
  function Expired(ts: seq<Entry>, now: int): (n: nat)
    ensures n <= |ts|
  {
    if ts == [] || ts[0].when > now then 0 else 1 + Expired(ts[1..], now)
  }

  function Due(ts: seq<Entry>, now: int): seq<Entry> { ts[..Expired(ts, now)] }

  function NotDue(ts: seq<Entry>, now: int): seq<Entry> { ts[Expired(ts, now)..] }

  /** Those before have expired, the one after has not. */
  lemma {:induction false} ExpiredSplits(ts: seq<Entry>, now: int)
    ensures var n := Expired(ts, now);
            (forall k :: 0 <= k < n ==> ts[k].when <= now) && (n < |ts| ==> ts[n].when > now)
  {
    if ts != [] && ts[0].when <= now { ExpiredSplits(ts[1..], now); }
  }

  // ----------------------------------------------------------------- the actions

  function KeyOf(q: Queue, a: nat): Key
    requires a in q.heap
  {
    Key(a, q.heap[a].sequence)
  }

  /** `addTimer`: a timer at an address that holds no live one. The caller gets
      the key back. */
  function New(q: Queue, a: nat, when: int, interval: nat, repeats: bool): Queue
    requires a !in q.heap
  {
    q.(heap := q.heap[a := Timer(when, interval, repeats, |q.issued|)],
       issued := q.issued + [a],
       inbox := q.inbox + {a})
  }

  /** `insert`, into both sets. */
  function Put(q: Queue, a: nat): Queue
    requires a in q.heap
  {
    q.(timers := Insert(q.timers, Entry(q.heap[a].expiration, a)),
       active := q.active + {KeyOf(q, a)})
  }

  /** The timer is the earliest if put now. */
  predicate Earliest(q: Queue, a: nat)
    requires a in q.heap
  {
    q.timers == [] || q.heap[a].expiration < q.timers[0].when
  }

  /** `addTimerInLoop` */
  function Add(q: Queue, a: nat): Queue
    requires a in q.heap
  {
    var q' := Put(q, a).(inbox := q.inbox - {a});
    if Earliest(q, a) then q'.(armed := Some(q.heap[a].expiration)) else q'
  }

  function Delete(q: Queue, a: nat): Queue
    requires a in q.heap
  {
    q.(heap := q.heap - {a}, freed := q.freed + multiset{q.heap[a].sequence})
  }

  predicate Issued(q: Queue, id: Key) {
    id.sequence < |q.issued| && q.issued[id.sequence] == id.addr
  }

  /** A key whose timer has been allocated but not added. */
  predicate NotYetAdded(q: Queue, id: Key) {
    id.addr in q.inbox && id.addr in q.heap && KeyOf(q, id.addr) == id
  }

  /** A timer that waits in both sets leaves them and is deleted. */
  function Remove(q: Queue, id: Key): Queue
    requires id.addr in q.heap
  {
    Delete(q, id.addr).(timers := Erase(q.timers, Entry(q.heap[id.addr].expiration, id.addr)),
                        active := q.active - {id})
  }

  /** What has been cancelled, from its execution on. */
  function Note(q: Queue, id: Key): map<nat, nat> {
    if Issued(q, id) && !NotYetAdded(q, id) && id.sequence !in q.cancelled
    then q.cancelled[id.sequence := q.batches] else q.cancelled
  }

  /** `cancelInLoop` */
  function Cancel(q: Queue, id: Key): Queue
    requires id in q.active ==> id.addr in q.heap
  {
    var q' := if id in q.active then Remove(q, id)
              else if q.calling then q.(canceling := q.canceling + {id})
              else q;
    q'.(cancelled := Note(q, id))
  }

  function Keys(heap: map<nat, Timer>, ts: seq<Entry>): set<Key> {
    set e | e in ts && e.addr in heap :: Key(e.addr, heap[e.addr].sequence)
  }

  /** `handleRead` up to the callbacks: the expired timers leave both sets. */
  function Take(q: Queue, now: int): Queue {
    q.(timers := NotDue(q.timers, now),
       expired := Due(q.timers, now),
       active := q.active - Keys(q.heap, Due(q.timers, now)),
       calling := true, canceling := {}, next := 0, now := now,
       armed := None, batches := q.batches + 1)
  }

  function RunNext(q: Queue): Queue
    requires q.next < |q.expired| && q.expired[q.next].addr in q.heap
  {
    var t := q.heap[q.expired[q.next].addr];
    q.(runs := q.runs + [Run(t.sequence, q.batches, t.repeats)], next := q.next + 1)
  }

  /** What `reset` does with the first timer of the batch: a repeating one that
      was not cancelled goes back, any other is deleted. */
  function ResetOne(q: Queue): Queue
    requires q.expired != [] && q.expired[0].addr in q.heap && q.next > 0
  {
    var a := q.expired[0].addr;
    if q.heap[a].repeats && KeyOf(q, a) !in q.canceling then PutBack(q, a) else Drop(q, a)
  }

  /** `restart` and `insert` */
  function PutBack(q: Queue, a: nat): Queue
    requires q.expired != [] && a in q.heap && q.next > 0
  {
    Put(q.(heap := q.heap[a := q.heap[a].(expiration := q.now + q.heap[a].interval)],
           expired := q.expired[1..], next := q.next - 1), a)
  }

  function Drop(q: Queue, a: nat): Queue
    requires q.expired != [] && a in q.heap && q.next > 0
  {
    Delete(q.(expired := q.expired[1..], next := q.next - 1), a)
  }

  function ResetAll(q: Queue): Queue
    requires Inv(q) && q.next == |q.expired| && !q.calling
    decreases |q.expired|
  {
    if q.expired == [] then q
    else
      ResetOneInv(q);
      ResetAll(ResetOne(q))
  }

  /** The timerfd is set again unless the earliest time is not a valid one. */
  function Rearm(q: Queue): Queue {
    if q.timers != [] && q.timers[0].when > 0 then q.(armed := Some(q.timers[0].when)) else q
  }

  /** `handleRead` after the callbacks. */
  function Reset(q: Queue): Queue
    requires Inv(q) && q.next == |q.expired|
  {
    Rearm(ResetAll(q.(calling := false)))
  }

  // -------------------------------------------------------------- what they keep

  /** `timers_` and `activeTimers_` hold the same timers, with matching times. */
  predicate Agree(q: Queue) {
    && Sorted(q.timers)
    && (forall e :: e in q.timers ==>
          e.addr in q.heap && q.heap[e.addr].expiration == e.when && KeyOf(q, e.addr) in q.active)
    && (forall k :: k in q.active ==>
          k.addr in q.heap && KeyOf(q, k.addr) == k && Entry(q.heap[k.addr].expiration, k.addr) in q.timers)
  }

  predicate InBatch(q: Queue, a: nat) { exists e :: e in q.expired && e.addr == a }

  predicate InTimers(q: Queue, a: nat)
    requires a in q.heap
  {
    Entry(q.heap[a].expiration, a) in q.timers
  }

  /** Every live timer is in exactly one place. */
  predicate Owned(q: Queue) {
    && q.next <= |q.expired|
    && (forall i, j :: 0 <= i < j < |q.expired| ==> q.expired[i].addr != q.expired[j].addr)
    && (forall e :: e in q.expired ==> e.addr in q.heap && q.heap[e.addr].expiration == e.when)
    && (forall a :: a in q.inbox ==> a in q.heap)
    && (forall a :: a in q.heap ==>
          && (a in q.inbox || InTimers(q, a) || InBatch(q, a))
          && !(a in q.inbox && InTimers(q, a))
          && !(a in q.inbox && InBatch(q, a))
          && !(InTimers(q, a) && InBatch(q, a)))
  }

  /** Sequence numbers name timers, and every timer ever made is live or was
      freed once. */
  predicate Counted(q: Queue) {
    && (forall a :: a in q.heap ==> q.heap[a].sequence < |q.issued| && q.issued[q.heap[a].sequence] == a)
    && (forall s :: 0 <= s < |q.issued| ==> q.freed[s] == if Live(q, s) then 0 else 1)
    && (forall s :: s in q.freed ==> s < |q.issued|)
  }

  predicate Live(q: Queue, s: nat) {
    s < |q.issued| && q.issued[s] in q.heap && q.heap[q.issued[s]].sequence == s
  }

  /** A cancelled timer that is still alive waits in the batch to be deleted. */
  predicate Doomed(q: Queue) {
    && (forall s :: s in q.cancelled ==> s < |q.issued| && q.cancelled[s] <= q.batches)
    && (forall s :: s in q.cancelled && Live(q, s) ==>
          InBatch(q, q.issued[s]) && Key(q.issued[s], s) in q.canceling && q.cancelled[s] == q.batches)
  }

  /** The callbacks of one timer are in different batches, and of a one-shot
      timer there is only one; none is in a batch after its cancellation. */
  predicate RunsOnce(q: Queue) {
    forall i, j :: 0 <= i < j < |q.runs| && q.runs[i].sequence == q.runs[j].sequence ==>
      q.runs[i].batch < q.runs[j].batch && q.runs[i].repeats
  }

  predicate NoneAfterCancel(q: Queue) {
    forall r :: r in q.runs && r.sequence in q.cancelled ==> r.batch <= q.cancelled[r.sequence]
  }

  /** The timers whose callback has been run in the batch in flight. */
  predicate RanInBatch(q: Queue, s: nat)
    requires forall e :: e in q.expired ==> e.addr in q.heap
  {
    exists i :: 0 <= i < q.next && i < |q.expired| && q.heap[q.expired[i].addr].sequence == s
  }

  predicate History(q: Queue)
    requires forall e :: e in q.expired ==> e.addr in q.heap
  {
    && RunsOnce(q) && NoneAfterCancel(q)
    && (forall r :: r in q.runs ==> r.sequence < |q.issued| && r.batch <= q.batches)
    && (forall r :: r in q.runs && Live(q, r.sequence) ==> q.heap[q.issued[r.sequence]].repeats == r.repeats)
    && (forall r :: r in q.runs && Live(q, r.sequence) && InBatch(q, q.issued[r.sequence]) && r.batch == q.batches ==>
          RanInBatch(q, r.sequence))
    && (forall r :: r in q.runs && Live(q, r.sequence) && !r.repeats ==> RanInBatch(q, r.sequence))
  }

  predicate Inv(q: Queue) {
    Agree(q) && Owned(q) && Counted(q) && Doomed(q) && History(q)
  }

  lemma NewAgree(q: Queue, a: nat, when: int, interval: nat, repeats: bool)
    requires Inv(q)
    requires a !in q.heap
    ensures Agree(New(q, a, when, interval, repeats))
  {
  }

  lemma NewOwned(q: Queue, a: nat, when: int, interval: nat, repeats: bool)
    requires Inv(q)
    requires a !in q.heap
    ensures Owned(New(q, a, when, interval, repeats))
  {
  }

  lemma NewCounted(q: Queue, a: nat, when: int, interval: nat, repeats: bool)
    requires Inv(q)
    requires a !in q.heap
    ensures Counted(New(q, a, when, interval, repeats))
  {
  }

  lemma NewDoomed(q: Queue, a: nat, when: int, interval: nat, repeats: bool)
    requires Inv(q)
    requires a !in q.heap
    ensures Doomed(New(q, a, when, interval, repeats))
  {
  }

  lemma NewHistory(q: Queue, a: nat, when: int, interval: nat, repeats: bool)
    requires Inv(q)
    requires a !in q.heap
    ensures var r := New(q, a, when, interval, repeats);
            (forall e :: e in r.expired ==> e.addr in r.heap) && History(r)
  {
  }

  lemma AddAgree(q: Queue, a: nat)
    requires Inv(q)
    requires a in q.inbox
    ensures Agree(Add(q, a))
  {
    hide Counted, Doomed, History, Insert;
    assert !InTimers(q, a);
  }

  lemma AddOwned(q: Queue, a: nat)
    requires Inv(q)
    requires a in q.inbox
    ensures Owned(Add(q, a))
  {
    hide Counted, Doomed, History, Insert;
    var q' := Add(q, a);
    assert forall b :: InBatch(q', b) == InBatch(q, b);
    forall b | b in q'.heap && b != a ensures InTimers(q', b) == InTimers(q, b) {}
    assert InTimers(q', a);
  }

  lemma AddCounted(q: Queue, a: nat)
    requires Inv(q)
    requires a in q.inbox
    ensures Counted(Add(q, a))
  {
    hide Agree, Owned, Doomed, History, Insert;
  }

  lemma AddDoomed(q: Queue, a: nat)
    requires Inv(q)
    requires a in q.inbox
    ensures Doomed(Add(q, a))
  {
    hide Agree, Owned, Counted, History, Insert;
  }

  lemma AddHistory(q: Queue, a: nat)
    requires Inv(q)
    requires a in q.inbox
    ensures (forall e :: e in Add(q, a).expired ==> e.addr in Add(q, a).heap) && History(Add(q, a))
  {
    hide Agree, Counted, Doomed, History, Insert, Earliest;
    FewerLive(q, Add(q, a));
  }

  lemma CancelAgree(q: Queue, id: Key)
    requires Inv(q)
    ensures Agree(Cancel(q, id))
  {
    hide Owned, Counted, Doomed, History, Note, Erase;
    if id in q.active { RemoveAgree(q, id); }
  }

  lemma RemoveAgree(q: Queue, id: Key)
    requires Agree(q) && id in q.active
    ensures Agree(Remove(q, id))
  {
    hide Erase;
    var q' := Remove(q, id);
    forall k | k in q'.active
      ensures k.addr in q'.heap && KeyOf(q', k.addr) == k && Entry(q'.heap[k.addr].expiration, k.addr) in q'.timers
    {
      assert KeyOf(q, k.addr) == k && KeyOf(q, id.addr) == id && k.addr != id.addr;
    }
    forall e | e in q'.timers
      ensures e.addr in q'.heap && q'.heap[e.addr].expiration == e.when && KeyOf(q', e.addr) in q'.active
    {
      assert e.addr != id.addr;
    }
  }

  lemma CancelOwned(q: Queue, id: Key)
    requires Inv(q)
    ensures Owned(Cancel(q, id))
  {
    hide Counted, Doomed, History, Note, Erase;
    if id in q.active {
      RemoveOwned(q, id);
      SameOwned(Remove(q, id), Cancel(q, id));
    } else {
      SameOwned(q, Cancel(q, id));
    }
  }

  /** Ownership looks at these components only. */
  lemma SameOwned(q: Queue, r: Queue)
    requires Owned(q) && r.heap == q.heap && r.timers == q.timers && r.expired == q.expired
    requires r.next == q.next && r.inbox == q.inbox
    ensures Owned(r)
  {
    assert forall a :: InBatch(r, a) == InBatch(q, a);
    forall a | a in r.heap ensures InTimers(r, a) == InTimers(q, a) {}
  }

  lemma RemoveOwned(q: Queue, id: Key)
    requires Agree(q) && Owned(q) && id in q.active
    ensures Owned(Remove(q, id))
  {
    hide Erase;
    var q' := Remove(q, id);
    assert KeyOf(q, id.addr) == id && InTimers(q, id.addr);
    forall b ensures InBatch(q', b) == InBatch(q, b) {}
    forall x | x in q.expired ensures x.addr != id.addr { assert InBatch(q, x.addr); }
    forall a | a in q'.heap ensures a != id.addr && InTimers(q', a) == InTimers(q, a) {}
  }

  lemma CancelCounted(q: Queue, id: Key)
    requires Inv(q)
    ensures Counted(Cancel(q, id))
  {
  }

  lemma CancelDoomed(q: Queue, id: Key)
    requires Inv(q)
    requires !q.calling ==> q.expired == []
    ensures Doomed(Cancel(q, id))
  {
    hide Agree, Owned, Counted, History, Erase, Note, Issued, NotYetAdded;
    if id in q.active { RemoveDoomed(q, id); } else { PostponeDoomed(q, id); }
  }

  lemma RemoveDoomed(q: Queue, id: Key)
    requires Agree(q) && Counted(q) && Doomed(q) && id in q.active
    ensures Doomed(Cancel(q, id))
  {
    var q' := Cancel(q, id);
    assert KeyOf(q, id.addr) == id;
    hide Agree, Erase, NotYetAdded;
    assert forall b :: InBatch(q', b) == InBatch(q, b);
    forall t: nat ensures Live(q', t) ==> Live(q, t) && t != id.sequence {}
  }

  lemma PostponeDoomed(q: Queue, id: Key)
    requires Inv(q) && id !in q.active && (!q.calling ==> q.expired == [])
    ensures Doomed(Cancel(q, id))
  {
    var q', s := Cancel(q, id), id.sequence;
    assert forall b :: InBatch(q', b) == InBatch(q, b);
    if Issued(q, id) && Live(q, s) && !NotYetAdded(q, id) { WaitsInBatch(q, id); }
    hide Agree, Owned, Counted, History, InTimers, NotYetAdded;
    assert forall t: nat :: Live(q', t) == Live(q, t);
  }

  lemma WaitsInBatch(q: Queue, id: Key)
    requires Agree(q) && Owned(q) && id !in q.active
    requires Issued(q, id) && Live(q, id.sequence) && !NotYetAdded(q, id)
    ensures InBatch(q, id.addr)
  {
    assert KeyOf(q, id.addr) == id && id.addr !in q.inbox;
    assert !InTimers(q, id.addr);
  }

  lemma CancelHistory(q: Queue, id: Key)
    requires Inv(q)
    ensures (forall e :: e in Cancel(q, id).expired ==> e.addr in Cancel(q, id).heap) && History(Cancel(q, id))
  {
    hide Counted, Doomed, Erase;
    if id in q.active {
      assert KeyOf(q, id.addr) == id && InTimers(q, id.addr);
      forall x | x in q.expired ensures x.addr != id.addr { assert InBatch(q, x.addr); }
    }
    hide Agree, Owned, InTimers;
    FewerLive(q, Cancel(q, id));
  }

  /** The history is kept when timers outside the batch die and cancellations
      are noted. */
  lemma FewerLive(q: Queue, r: Queue)
    requires Owned(q) && History(q)
    requires r.runs == q.runs && r.expired == q.expired && r.next == q.next
    requires r.issued == q.issued && r.batches == q.batches
    requires forall a :: a in r.heap ==> a in q.heap && r.heap[a] == q.heap[a]
    requires forall e :: e in q.expired ==> e.addr in r.heap
    requires forall s :: s in r.cancelled ==>
               r.cancelled[s] == if s in q.cancelled then q.cancelled[s] else q.batches
    ensures History(r)
  {
    forall t ensures Live(r, t) ==> Live(q, t) {}
    forall t ensures RanInBatch(q, t) == RanInBatch(r, t) {
      forall i | 0 <= i < q.next && i < |q.expired|
        ensures q.heap[q.expired[i].addr] == r.heap[r.expired[i].addr] {}
    }
    forall a ensures InBatch(q, a) == InBatch(r, a) {}
  }

  lemma TakeAgree(q: Queue, now: int)
    requires Inv(q)
    requires !q.calling && q.expired == []
    ensures Agree(Take(q, now))
  {
  }

  lemma TakeOwned(q: Queue, now: int)
    requires Inv(q)
    requires !q.calling && q.expired == []
    ensures Owned(Take(q, now))
  {
  }

  lemma TakeCounted(q: Queue, now: int)
    requires Inv(q)
    requires !q.calling && q.expired == []
    ensures Counted(Take(q, now))
  {
  }

  lemma TakeDoomed(q: Queue, now: int)
    requires Inv(q)
    requires !q.calling && q.expired == []
    ensures Doomed(Take(q, now))
  {
  }

  lemma TakeHistory(q: Queue, now: int)
    requires Inv(q)
    requires !q.calling && q.expired == []
    ensures (forall e :: e in Take(q, now).expired ==> e.addr in Take(q, now).heap) && History(Take(q, now))
  {
  }

  lemma RunNextAgree(q: Queue)
    requires Inv(q)
    requires q.next < |q.expired|
    ensures Agree(RunNext(q))
  {
  }

  lemma RunNextOwned(q: Queue)
    requires Inv(q)
    requires q.next < |q.expired|
    ensures Owned(RunNext(q))
  {
  }

  lemma RunNextCounted(q: Queue)
    requires Inv(q)
    requires q.next < |q.expired|
    ensures Counted(RunNext(q))
  {
  }

  lemma RunNextDoomed(q: Queue)
    requires Inv(q)
    requires q.next < |q.expired|
    ensures Doomed(RunNext(q))
  {
  }

  lemma RunNextHistory(q: Queue)
    requires Inv(q)
    requires q.next < |q.expired|
    ensures (forall e :: e in RunNext(q).expired ==> e.addr in RunNext(q).heap) && History(RunNext(q))
  {
    hide Agree;
    var q', a := RunNext(q), q.expired[q.next].addr;
    var s := q.heap[a].sequence;
    assert Live(q, s) && InBatch(q, a) && q.issued[s] == a;
    forall t ensures RanInBatch(q, t) ==> RanInBatch(q', t) {}
    forall t ensures Live(q', t) == Live(q, t) {}
    forall b ensures InBatch(q', b) == InBatch(q, b) {}
    assert RanInBatch(q', s) by { assert q'.heap[q'.expired[q.next].addr].sequence == s; }
    forall r | r in q.runs && r.sequence == s
      ensures r.batch < q.batches && r.repeats
    {
      NotRunYet(q, r);
    }
  }

  /** The next timer of the batch has not run in it. */
  lemma NotRunYet(q: Queue, r: Run)
    requires Inv(q) && q.next < |q.expired| && r in q.runs
    requires r.sequence == q.heap[q.expired[q.next].addr].sequence
    ensures r.batch < q.batches && r.repeats
  {
    hide Agree, Doomed, InTimers;
    var a, s := q.expired[q.next].addr, r.sequence;
    assert Live(q, s) && q.issued[s] == a && InBatch(q, a);
    forall i | 0 <= i < q.next ensures q.heap[q.expired[i].addr].sequence != s {
      assert q.expired[i].addr != a;
      assert q.issued[q.heap[q.expired[i].addr].sequence] == q.expired[i].addr;
    }
    assert !RanInBatch(q, s);
  }

  lemma ResetOneAgree(q: Queue)
    requires Inv(q)
    requires q.expired != [] && q.next == |q.expired|
    ensures Agree(ResetOne(q))
  {
    hide Agree, Counted, Doomed, History, Insert;
    NotInTimers(q);
    PutBackAgree(q);
    DropAgree(q);
  }

  /** The first timer of the batch is in neither set. */
  lemma NotInTimers(q: Queue)
    requires Agree(q) && Owned(q) && q.expired != []
    ensures var a := q.expired[0].addr;
            a in q.heap && KeyOf(q, a) !in q.active && forall e :: e in q.timers ==> e.addr != a
  {
    var a := q.expired[0].addr;
    assert q.expired[0] in q.expired && InBatch(q, a);
    forall e | e in q.timers ensures e.addr != a { assert e.addr == a ==> InTimers(q, a); }
  }

  lemma PutBackAgree(q: Queue)
    requires Agree(q) && q.expired != [] && q.expired[0].addr in q.heap && q.next > 0
    requires KeyOf(q, q.expired[0].addr) !in q.active && forall e :: e in q.timers ==> e.addr != q.expired[0].addr
    ensures Agree(PutBack(q, q.expired[0].addr))
  {
    var a := q.expired[0].addr;
    var q' := PutBack(q, a);
    var e := Entry(q'.heap[a].expiration, a);
    assert e !in q.timers && Sorted(q'.timers);
    hide Insert, Sorted;
    forall k | k in q'.active
      ensures k.addr in q'.heap && KeyOf(q', k.addr) == k && Entry(q'.heap[k.addr].expiration, k.addr) in q'.timers
    {
    }
  }

  lemma DropAgree(q: Queue)
    requires Agree(q) && q.expired != [] && q.expired[0].addr in q.heap && q.next > 0
    requires KeyOf(q, q.expired[0].addr) !in q.active && forall e :: e in q.timers ==> e.addr != q.expired[0].addr
    ensures Agree(Drop(q, q.expired[0].addr))
  {
    hide Sorted;
  }

  lemma ResetOneOwned(q: Queue)
    requires Inv(q)
    requires q.expired != [] && q.next == |q.expired|
    ensures Owned(ResetOne(q))
  {
    hide Counted, Doomed, History, PutBack, Drop;
    PutBackOwned(q);
    DropOwned(q);
  }

  lemma PutBackOwned(q: Queue)
    requires Agree(q) && Owned(q) && q.expired != [] && q.next == |q.expired|
    ensures Owned(PutBack(q, q.expired[0].addr))
  {
    hide Insert;
    var a := q.expired[0].addr;
    var q' := PutBack(q, a);
    assert InBatch(q, a) && q'.expired == q.expired[1..];
    RestOfBatch(q);
    forall b ensures InBatch(q', b) <==> InBatch(q, b) && b != a {
      assert InBatch(q', b) == InBatch(q.(expired := q.expired[1..]), b);
    }
    forall b | b in q'.heap && b != a ensures b in q.heap && InTimers(q', b) == InTimers(q, b) {
      assert q'.heap[b] == q.heap[b];
    }
    assert InTimers(q', a);
  }

  lemma DropOwned(q: Queue)
    requires Agree(q) && Owned(q) && q.expired != [] && q.next == |q.expired|
    ensures Owned(Drop(q, q.expired[0].addr))
  {
    var a := q.expired[0].addr;
    var q' := Drop(q, a);
    assert InBatch(q, a) && q'.expired == q.expired[1..];
    RestOfBatch(q);
    forall b ensures InBatch(q', b) <==> InBatch(q, b) && b != a {
      assert InBatch(q', b) == InBatch(q.(expired := q.expired[1..]), b);
    }
    forall b | b in q'.heap ensures b in q.heap && b != a && InTimers(q', b) == InTimers(q, b) {
      assert q'.heap[b] == q.heap[b];
    }
  }

  /** Leaving the batch, the first timer is no longer in it, all others are. */
  lemma RestOfBatch(q: Queue)
    requires Owned(q) && q.expired != []
    ensures forall e :: e in q.expired[1..] ==> e in q.expired && e.addr != q.expired[0].addr
    ensures forall b :: InBatch(q.(expired := q.expired[1..]), b) <==> InBatch(q, b) && b != q.expired[0].addr
  {
    var q' := q.(expired := q.expired[1..]);
    forall b ensures InBatch(q', b) <==> InBatch(q, b) && b != q.expired[0].addr {
      if InBatch(q, b) && b != q.expired[0].addr {
        var e :| e in q.expired && e.addr == b;
        assert e in q.expired[1..];
      }
    }
  }

  lemma ResetOneCounted(q: Queue)
    requires Inv(q)
    requires q.expired != [] && q.next == |q.expired|
    ensures Counted(ResetOne(q))
  {
    hide Agree, Doomed, History, Insert;
  }

  lemma ResetOneDoomed(q: Queue)
    requires Inv(q)
    requires q.expired != [] && q.next == |q.expired|
    ensures Doomed(ResetOne(q))
  {
  }

  lemma ResetOneHistory(q: Queue)
    requires Inv(q)
    requires q.expired != [] && q.next == |q.expired|
    ensures (forall e :: e in ResetOne(q).expired ==> e.addr in ResetOne(q).heap) && History(ResetOne(q))
  {
    ResetOneParts(q);
    RanInRest(q);
    hide Agree, Owned, Counted, Doomed, ResetOne;
  }

  lemma ResetOneParts(q: Queue)
    requires Inv(q) && q.expired != [] && q.next == |q.expired|
    ensures var q', a := ResetOne(q), q.expired[0].addr;
            && q'.runs == q.runs && q'.issued == q.issued && q'.batches == q.batches && q'.cancelled == q.cancelled
            && (forall t: nat :: Live(q', t) ==>
                  Live(q, t) && q'.heap[q.issued[t]].repeats == q.heap[q.issued[t]].repeats
                  && (t == q.heap[a].sequence ==> q.heap[a].repeats))
            && (forall b :: InBatch(q', b) <==> InBatch(q, b) && b != a)
            && q.heap[a].sequence < |q.issued| && q.issued[q.heap[a].sequence] == a
  {
    hide Doomed, History, InTimers, Insert;
    var q', a := ResetOne(q), q.expired[0].addr;
    assert q'.expired == q.expired[1..];
    RestOfBatch(q);
    forall b ensures InBatch(q', b) <==> InBatch(q, b) && b != a {
      assert InBatch(q', b) == InBatch(q.(expired := q.expired[1..]), b);
    }
  }

  lemma RanInRest(q: Queue)
    requires Inv(q) && q.expired != [] && q.next == |q.expired|
    ensures var q' := ResetOne(q);
            && (forall e :: e in q'.expired ==> e.addr in q'.heap)
            && forall t :: RanInBatch(q, t) && t != q.heap[q.expired[0].addr].sequence ==> RanInBatch(q', t)
  {
    hide Agree, Doomed, History, InTimers, Insert;
    RestOfBatch(q);
    var q' := ResetOne(q);
    forall e | e in q'.expired ensures e.addr in q'.heap && q'.heap[e.addr] == q.heap[e.addr] {}
    forall t | RanInBatch(q, t) && t != q.heap[q.expired[0].addr].sequence ensures RanInBatch(q', t) {
      var i :| 0 <= i < q.next && i < |q.expired| && q.heap[q.expired[i].addr].sequence == t;
      assert q'.expired[i - 1] == q.expired[i];
    }
  }

  lemma ResetOneInv(q: Queue)
    requires Inv(q) && q.expired != [] && q.next == |q.expired|
    ensures Inv(ResetOne(q))
    ensures ResetOne(q).next == |ResetOne(q).expired| && ResetOne(q).calling == q.calling
  {
    ResetOneAgree(q);
    ResetOneOwned(q);
    ResetOneCounted(q);
    ResetOneDoomed(q);
    ResetOneHistory(q);
    hide Agree, Counted, Doomed, History;
  }
  // -------------------------------------------------------------------- whole runs

  datatype Event =
    | Make(addr: nat, when: int, interval: nat, repeats: bool) // addTimer, on any thread
    | Added(addr: nat)                                         // addTimerInLoop
    | Cancelled(id: Key)                                       // cancelInLoop
    | Fired(now: int)                                          // handleRead begins
    | Called                                                   // one callback of the batch
    | Done                                                     // handleRead ends

  /** The allocator returns free memory, the clock is past 0, and `handleRead`
      is not entered from a callback. Callbacks may add and cancel. */
  predicate Enabled(q: Queue, e: Event) {
    match e
    case Make(a, _, _, _) => a !in q.heap
    case Added(a) => a in q.inbox
    case Cancelled(_) => true
    case Fired(now) => !q.calling && now > 0
    case Called => q.calling && q.next < |q.expired|
    case Done => q.calling && q.next == |q.expired|
  }

  function Apply(q: Queue, e: Event): Queue
    requires Good(q) && Enabled(q, e)
  {
    match e
    case Make(a, when, interval, repeats) => New(q, a, when, interval, repeats)
    case Added(a) => Add(q, a)
    case Cancelled(id) => Cancel(q, id)
    case Fired(now) => Take(q, now)
    case Called => RunNext(q)
    case Done => Reset(q)
  }

  /** The timerfd is set for no later than the earliest timer. While a batch is
      in flight it only has to be so for times that `reset` does not set. */
  predicate Armed(q: Queue) {
    q.timers != [] && (q.calling ==> q.timers[0].when <= 0) ==> q.armed.Some? && q.armed.value <= q.timers[0].when
  }

  predicate Good(q: Queue) {
    Inv(q) && (!q.calling ==> q.expired == []) && (q.calling ==> q.now > 0) && Armed(q)
  }

  /** What putting one timer of the batch back, or dropping it, leaves alone. */
  lemma ResetOneFrame(q: Queue)
    requires Inv(q) && q.expired != [] && q.next == |q.expired|
    ensures var r := ResetOne(q);
            && r.armed == q.armed && r.batches == q.batches && r.now == q.now && r.calling == q.calling
            && r.inbox == q.inbox && r.issued == q.issued && r.cancelled == q.cancelled && r.runs == q.runs
            && |r.expired| < |q.expired|
    ensures forall a :: a in q.inbox ==> a in ResetOne(q).heap && ResetOne(q).heap[a] == q.heap[a]
  {
    forall a | a in q.inbox ensures a != q.expired[0].addr { assert InBatch(q, q.expired[0].addr); }
    hide Agree, Counted, Doomed, History, Insert;
  }

  lemma ResetOneFront(q: Queue)
    requires Inv(q) && q.expired != [] && q.next == |q.expired| && q.now > 0
    ensures var r := ResetOne(q);
            r.timers != [] && r.timers[0].when <= 0 ==> q.timers != [] && q.timers[0] == r.timers[0]
  {
    hide Agree, Owned, Counted, Doomed, History;
  }

  lemma {:induction false} ResetAllKeeps(q: Queue)
    requires Inv(q) && q.next == |q.expired| && !q.calling
    ensures var r := ResetAll(q);
            && Inv(r) && r.expired == [] && !r.calling && r.armed == q.armed && r.batches == q.batches
            && r.inbox == q.inbox && r.issued == q.issued && r.cancelled == q.cancelled && r.runs == q.runs
            && (forall a :: a in q.inbox ==> a in r.heap && r.heap[a] == q.heap[a])
            && (q.now > 0 && r.timers != [] && r.timers[0].when <= 0 ==> q.timers != [] && q.timers[0] == r.timers[0])
    decreases |q.expired|
  {
    if q.expired != [] {
      ResetOneInv(q);
      ResetOneFrame(q);
      if q.now > 0 { ResetOneFront(q); }
      hide Inv, ResetOne;
      ResetAllKeeps(ResetOne(q));
    }
  }

  lemma StepGood(q: Queue, e: Event)
    requires Good(q) && Enabled(q, e)
    ensures Good(Apply(q, e))
  {
    hide Agree, Owned, Counted, Doomed, History, Armed, New, Add, Cancel, Take, RunNext;
    if !e.Done? { Flags(q, e); StepArmed(q, e); }
    match e
    case Make(a, when, interval, repeats) =>
      NewAgree(q, a, when, interval, repeats);
      NewOwned(q, a, when, interval, repeats);
      NewCounted(q, a, when, interval, repeats);
      NewDoomed(q, a, when, interval, repeats);
      NewHistory(q, a, when, interval, repeats);
    case Added(a) =>
      AddAgree(q, a);
      AddOwned(q, a);
      AddCounted(q, a);
      AddDoomed(q, a);
      AddHistory(q, a);
    case Cancelled(id) =>
      CancelAgree(q, id);
      CancelOwned(q, id);
      CancelCounted(q, id);
      CancelDoomed(q, id);
      CancelHistory(q, id);
    case Fired(now) =>
      TakeAgree(q, now);
      TakeOwned(q, now);
      TakeCounted(q, now);
      TakeDoomed(q, now);
      TakeHistory(q, now);
    case Called =>
      RunNextAgree(q);
      RunNextOwned(q);
      RunNextCounted(q);
      RunNextDoomed(q);
      RunNextHistory(q);
    case Done => ResetGood(q);
  }

  lemma Flags(q: Queue, e: Event)
    requires Good(q) && Enabled(q, e) && !e.Done?
    ensures var r := Apply(q, e);
            (!r.calling ==> r.expired == []) && (r.calling ==> r.now > 0)
  {
  }

  lemma ResetGood(q: Queue)
    requires Good(q) && q.calling && q.next == |q.expired|
    ensures Good(Reset(q)) && !Reset(q).calling
  {
    var r := ResetAll(q.(calling := false));
    SameParts(q, q.(calling := false));
    ResetAllKeeps(q.(calling := false));
    SameParts(r, Rearm(r));
    hide Agree, Owned, Counted, Doomed, History;
  }

  /** The invariant does not look at these components. */
  lemma SameParts(q: Queue, r: Queue)
    requires Inv(q)
    requires r == q.(calling := r.calling, armed := r.armed)
    ensures Inv(r)
  {
    assert forall a :: InBatch(r, a) == InBatch(q, a);
    assert forall s :: Live(r, s) == Live(q, s);
    assert forall s :: RanInBatch(r, s) == RanInBatch(q, s);
    assert forall a :: a in q.heap ==> InTimers(r, a) == InTimers(q, a);
  }

  lemma StepArmed(q: Queue, e: Event)
    requires Good(q) && Enabled(q, e) && !e.Done?
    ensures Armed(Apply(q, e))
  {
    if e.Fired? { ExpiredSplits(q.timers, e.now); }
  }

  /** One event, on a state that is as it should be. */
  function After(q: Queue, e: Event): (r: Queue)
    requires Good(q) && Enabled(q, e)
    ensures Good(r)
  {
    StepGood(q, e);
    Apply(q, e)
  }

  predicate Playable(q: Queue, es: seq<Event>)
    requires Good(q)
    decreases |es|
  {
    es == [] || (Enabled(q, es[0]) && Playable(After(q, es[0]), es[1..]))
  }

  function Play(q: Queue, es: seq<Event>): (r: Queue)
    requires Good(q) && Playable(q, es)
    ensures Good(r)
    decreases |es|
  {
    if es == [] then q else Play(After(q, es[0]), es[1..])
  }

  // ------------------------------------------------------- what holds of every run

  /** The two sets always have the same size, as the assertions in the source say. */
  lemma SameSize(q: Queue)
    requires Agree(q)
    ensures |q.timers| == |q.active|
  {
    TimersDistinct(q);
    KeysOfTimers(q.heap, q.timers);
    assert q.active == Keys(q.heap, q.timers) by {
      forall k | k in q.active ensures k in Keys(q.heap, q.timers) {
        assert KeyOf(q, Entry(q.heap[k.addr].expiration, k.addr).addr) == k;
      }
    }
  }

  lemma {:induction false} KeysOfTimers(heap: map<nat, Timer>, ts: seq<Entry>)
    requires forall e :: e in ts ==> e.addr in heap
    requires forall i, j :: 0 <= i < j < |ts| ==> ts[i].addr != ts[j].addr
    ensures |Keys(heap, ts)| == |ts|
  {
    if ts != [] {
      var n := |ts| - 1;
      var last, init := ts[n], ts[..n];
      KeysOfTimers(heap, init);
      assert ts == init + [last];
      forall e | e in init ensures e.addr != last.addr {}
      assert Keys(heap, ts) == Keys(heap, init) + {Key(last.addr, heap[last.addr].sequence)};
    }
  }

  lemma TimersDistinct(q: Queue)
    requires Agree(q)
    ensures forall i, j :: 0 <= i < j < |q.timers| ==> q.timers[i].addr != q.timers[j].addr
  {
    forall i, j | 0 <= i < j < |q.timers| ensures q.timers[i].addr != q.timers[j].addr {
      assert Less(q.timers[i], q.timers[j]) && q.timers[i] in q.timers && q.timers[j] in q.timers;
    }
  }

  /** In how many places the timer with a sequence number is: allocated and on its
      way to the loop, waiting in `timers_`, in the batch in flight, or freed. */
  function Places(q: Queue, s: nat): nat
    requires s < |q.issued|
  {
    var a := q.issued[s];
    q.freed[s] + if !Live(q, s) then 0 else
    (if a in q.inbox then 1 else 0) + (if InTimers(q, a) then 1 else 0) + (if InBatch(q, a) then 1 else 0)
  }

  /** Every timer ever made is live, in exactly one of the three places, or was
      freed exactly once. */
  lemma InOnePlace(q: Queue, s: nat)
    requires Good(q) && s < |q.issued|
    ensures Places(q, s) == 1
  {
    hide Agree, Doomed, History;
  }

  /** A one-shot timer runs at most once, and any timer at most once a batch. */
  lemma OneShotOnce(q: Queue, i: nat, j: nat)
    requires Good(q) && i < j < |q.runs| && q.runs[i].sequence == q.runs[j].sequence
    ensures q.runs[i].repeats && q.runs[i].batch < q.runs[j].batch
  {
  }

  lemma SameSizeOnce(q: Queue)
    requires Good(q)
    ensures |q.timers| == |q.active|
  {
    SameSize(q);
  }

  /** On every run: the two sets have the same size, every timer ever made is in
      exactly one place, and two runs of one timer are those of a repeating one in
      two batches. */
  lemma OnEveryRun(es: seq<Event>)
    requires Playable(EMPTY, es)
    ensures var q := Play(EMPTY, es);
            && |q.timers| == |q.active|
            && (forall s :: 0 <= s < |q.issued| ==> Places(q, s) == 1)
            && (forall i, j :: 0 <= i < j < |q.runs| && q.runs[i].sequence == q.runs[j].sequence ==>
                  q.runs[i].repeats && q.runs[i].batch < q.runs[j].batch)
  {
    var q := Play(EMPTY, es);
    hide Good, Play, Playable, Places;
    SameSizeOnce(q);
    forall s | 0 <= s < |q.issued| ensures Places(q, s) == 1 { InOnePlace(q, s); }
    forall i, j | 0 <= i < j < |q.runs| && q.runs[i].sequence == q.runs[j].sequence
      ensures q.runs[i].repeats && q.runs[i].batch < q.runs[j].batch
    {
      OneShotOnce(q, i, j);
    }
  }

  lemma {:induction false} CancelledStays(q: Queue, es: seq<Event>, s: nat)
    requires Good(q) && Playable(q, es) && s in q.cancelled
    ensures s in Play(q, es).cancelled && Play(q, es).cancelled[s] == q.cancelled[s]
    decreases |es|
  {
    if es != [] {
      StepKeepsCancelled(q, es[0], s);
      CancelledStays(After(q, es[0]), es[1..], s);
    }
  }

  lemma StepKeepsCancelled(q: Queue, e: Event, s: nat)
    requires Good(q) && Enabled(q, e) && s in q.cancelled
    ensures s in Apply(q, e).cancelled && Apply(q, e).cancelled[s] == q.cancelled[s]
  {
    if e.Done? {
      SameParts(q, q.(calling := false));
      ResetAllKeeps(q.(calling := false));
    }
    hide Agree, Owned, Counted, Doomed, History;
  }

  /** Once `cancelInLoop` has been executed for a timer that has been added, no
      callback of it is run in a later batch, whatever happens afterwards. */
  lemma CancelledNeverRunsAgain(q: Queue, id: Key, es: seq<Event>)
    requires Good(q) && Issued(q, id) && !NotYetAdded(q, id)
    requires Playable(After(q, Cancelled(id)), es)
    ensures forall r :: r in Play(After(q, Cancelled(id)), es).runs && r.sequence == id.sequence ==>
              r.batch <= q.batches
  {
    CancelledStays(After(q, Cancelled(id)), es, id.sequence);
  }

  /** A cancellation that overtakes the addition changes nothing the timer
      depends on: it is lost. */
  lemma EarlyCancelIsLost(q: Queue, id: Key)
    requires Good(q) && NotYetAdded(q, id)
    ensures After(q, Cancelled(id)) == q.(canceling := After(q, Cancelled(id)).canceling)
  {
    assert Key(id.addr, id.sequence) == id;
    if id in q.active { assert InTimers(q, id.addr); }
  }

  /** The events are possible, and a callback of timer `s` is run in a batch after `b`. */
  predicate RunsAfter(q: Queue, es: seq<Event>, s: nat, b: nat)
    requires Good(q)
  {
    Playable(q, es) && exists r :: r in Play(q, es).runs && r.sequence == s && r.batch > b
  }

  lemma Prefixed(q: Queue, e: Event, es: seq<Event>, s: nat, b: nat)
    requires Good(q) && Enabled(q, e) && RunsAfter(After(q, e), es, s, b)
    ensures RunsAfter(q, [e] + es, s, b)
  {
    hide Agree, Owned, Counted, Doomed, History, Apply, Enabled;
    assert ([e] + es)[1..] == es;
  }

  lemma {:induction false} RunsInBatch(q: Queue, i: nat, s: nat, b: nat) returns (es: seq<Event>)
    requires Good(q) && q.calling && q.next <= i < |q.expired| && b < q.batches
    requires q.heap[q.expired[i].addr].sequence == s
    ensures RunsAfter(q, es, s, b)
    decreases i - q.next
  {
    var q' := After(q, Called);
    if q.next == i {
      es := [];
      assert q'.runs[|q'.runs| - 1].sequence == s;
    } else {
      es := RunsInBatch(q', i, s, b);
    }
    hide Agree, Owned, Counted, Doomed, History, Apply, Enabled;
    Prefixed(q, Called, es, s, b);
    es := [Called] + es;
  }

  lemma RunsFromRest(q: Queue, id: Key, b: nat) returns (es: seq<Event>)
    requires Good(q) && NotYetAdded(q, id) && !q.calling && b <= q.batches
    ensures RunsAfter(q, es, id.sequence, b)
  {
    var a := id.addr;
    var when := q.heap[a].expiration;
    var now := if when > 0 then when else 1;
    var q1 := After(q, Added(a));
    assert Entry(when, a) in q1.timers;
    var q2 := After(q1, Fired(now));
    var k :| 0 <= k < |q1.timers| && q1.timers[k] == Entry(when, a);
    InPrefix(q1.timers, now, k);
    hide Agree, Owned, Counted, Doomed, History, Insert, Expired;
    es := RunsInBatch(q2, k, id.sequence, b);
    Prefixed(q1, Fired(now), es, id.sequence, b);
    Prefixed(q, Added(a), [Fired(now)] + es, id.sequence, b);
    es := [Added(a)] + ([Fired(now)] + es);
  }

  lemma InPrefix(ts: seq<Entry>, now: int, k: nat)
    requires Sorted(ts) && k < |ts| && ts[k].when <= now
    ensures k < Expired(ts, now)
  {
    ExpiredSplits(ts, now);
  }

  lemma DoneKeeps(q: Queue, id: Key)
    requires Good(q) && NotYetAdded(q, id) && q.calling && q.next == |q.expired|
    ensures var r := After(q, Done);
            NotYetAdded(r, id) && !r.calling && r.batches == q.batches
  {
    hide Agree, Owned, Counted, Doomed, History, ResetAll;
    SameParts(q, q.(calling := false));
    ResetAllKeeps(q.(calling := false));
    assert After(q, Done) == Rearm(ResetAll(q.(calling := false)));
  }

  lemma {:induction false} RunsFromBatch(q: Queue, id: Key, b: nat) returns (es: seq<Event>)
    requires Good(q) && NotYetAdded(q, id) && q.calling && b <= q.batches
    ensures RunsAfter(q, es, id.sequence, b)
    decreases |q.expired| - q.next
  {
    if q.next < |q.expired| {
      var q' := After(q, Called);
      es := RunsFromBatch(q', id, b);
      Prefixed(q, Called, es, id.sequence, b);
      es := [Called] + es;
    } else {
      DoneKeeps(q, id);
      hide Agree, Owned, Counted, Doomed, History, Apply;
      var q' := After(q, Done);
      es := RunsFromRest(q', id, b);
      Prefixed(q, Done, es, id.sequence, b);
      es := [Done] + es;
    }
  }

  ghost predicate CanRunAfterCancel(q: Queue, id: Key)
    requires Good(q)
  {
    exists es :: RunsAfter(After(q, Cancelled(id)), es, id.sequence, q.batches)
  }

  /** The exact condition: a timer whose `cancelInLoop` has been executed can
      still run in a later batch if and only if its `addTimerInLoop` had not
      been executed before the cancellation. */
  lemma CancelIff(q: Queue, id: Key)
    requires Good(q) && Issued(q, id)
    ensures CanRunAfterCancel(q, id) <==> NotYetAdded(q, id)
  {
    if NotYetAdded(q, id) {
      EarlyCancelIsLost(q, id);
      var q' := After(q, Cancelled(id));
      assert NotYetAdded(q', id);
      var es;
      if q'.calling { es := RunsFromBatch(q', id, q.batches); } else { es := RunsFromRest(q', id, q.batches); }
    } else {
      forall es | Playable(After(q, Cancelled(id)), es)
        ensures !RunsAfter(After(q, Cancelled(id)), es, id.sequence, q.batches)
      {
        CancelledNeverRunsAgain(q, id, es);
      }
    }
  }

  /** A key that names no live timer, because that timer is gone and its address
      may hold another, removes nothing. */
  lemma StaleKey(q: Queue, id: Key)
    requires Good(q) && !(id.addr in q.heap && KeyOf(q, id.addr) == id)
    ensures var r := After(q, Cancelled(id));
            r.heap == q.heap && r.timers == q.timers && r.active == q.active && r.freed == q.freed && r.inbox == q.inbox
    ensures forall k :: k in After(q, Cancelled(id)).canceling && k != id ==> k in q.canceling
  {
  }

  /** And a key that does name one removes no other. */
  lemma CancelOnlyNamed(q: Queue, id: Key, a: nat)
    requires Good(q) && a in q.heap && KeyOf(q, a) != id
    ensures var r := After(q, Cancelled(id));
            && a in r.heap && r.heap[a] == q.heap[a]
            && InTimers(r, a) == InTimers(q, a) && InBatch(r, a) == InBatch(q, a)
            && (KeyOf(q, a) in r.canceling <==> KeyOf(q, a) in q.canceling)
  {
    assert id in q.active ==> KeyOf(q, id.addr) == id;
    var r := After(q, Cancelled(id));
    assert r.expired == q.expired;
    hide Owned, Counted, Doomed, History, Erase;
  }

  /** Outside `handleRead` the timerfd is set whenever a timer waits, and for no
      later than the earliest. */
  lemma ArmedInTime(es: seq<Event>)
    requires Playable(EMPTY, es)
    ensures var q := Play(EMPTY, es);
            !q.calling && q.timers != [] ==>
              q.armed.Some? && forall e :: e in q.timers ==> q.armed.value <= e.when
  {
    var q := Play(EMPTY, es);
    if q.timers != [] {
      forall e | e in q.timers ensures q.timers[0].when <= e.when {
        var i :| 0 <= i < |q.timers| && q.timers[i] == e;
        if i > 0 { assert Less(q.timers[0], q.timers[i]); }
      }
    }
  }
}
