/**
 What becomes of a timer that is not cancelled: it waits for exactly the time it was
 made for, runs in the first batch taken at or after that time, and goes back for
 its next time if it repeats.
 */
module TimerRuns {
  import opened Options
  import opened TimerModel

  // ------------------------------------------------------------ the end of a batch

  /** What becomes of the timer at an address of the batch. */
  predicate GoesBack(q: Queue, a: nat)
    requires a in q.heap
  {
    q.heap[a].repeats && Key(a, q.heap[a].sequence) !in q.canceling
  }

  /** From before to after. */
  predicate Fate(q: Queue, r: Queue, a: nat)
    requires a in q.heap
  {
    if GoesBack(q, a)
    then && a in r.heap && r.heap[a] == q.heap[a].(expiration := q.now + q.heap[a].interval)
         && Entry(q.now + q.heap[a].interval, a) in r.timers
    else a !in r.heap
  }

  /** All timers outside the batch are left alone. */
  predicate OthersStay(q: Queue, r: Queue) {
    && (forall a :: a in q.heap && !InBatch(q, a) ==> a in r.heap && r.heap[a] == q.heap[a])
    && (forall a :: a in r.heap ==> a in q.heap)
    && (forall e :: e in q.timers ==> e in r.timers)
  }

  lemma ResetOneIs(q: Queue)
    requires Inv(q) && q.expired != [] && q.next == |q.expired|
    ensures var r, a := ResetOne(q), q.expired[0].addr;
            && a in q.heap && r.expired == q.expired[1..] && r.canceling == q.canceling && r.now == q.now
            && r.calling == q.calling && r.next == |r.expired|
            && Fate(q, r, a)
            && (forall b :: b in q.heap && b != a ==> b in r.heap && r.heap[b] == q.heap[b])
            && (forall b :: b in r.heap ==> b in q.heap)
            && (forall e :: e in q.timers ==> e in r.timers)
            && (forall e :: e in r.expired ==> e in q.expired && e.addr != a)
  {
    RestOfBatch(q);
    hide Agree, Counted, Doomed, History, Insert;
  }

  /** Every timer of the batch: a repeating one that was not cancelled waits again,
      for exactly its interval after the time the batch was taken; any other is
      deleted. No other timer is touched. */
  lemma {:induction false} ResetAllIs(q: Queue)
    requires Inv(q) && q.next == |q.expired| && !q.calling
    ensures forall e :: e in q.expired ==> e.addr in q.heap && Fate(q, ResetAll(q), e.addr)
    ensures OthersStay(q, ResetAll(q))
    decreases |q.expired|
  {
    if q.expired != [] {
      ResetOneInv(q);
      OneLess(q);
      hide Inv, ResetOne, Fate, OthersStay;
      ResetAllIs(ResetOne(q));
      OneMore(q, ResetAll(ResetOne(q)));
    }
  }

  lemma OneLess(q: Queue)
    requires Inv(q) && q.expired != [] && q.next == |q.expired|
    ensures |ResetOne(q).expired| < |q.expired|
  {
    hide Inv;
  }

  lemma OneMore(q: Queue, r: Queue)
    requires Inv(q) && q.expired != [] && q.next == |q.expired|
    requires forall e :: e in ResetOne(q).expired ==> e.addr in ResetOne(q).heap && Fate(ResetOne(q), r, e.addr)
    requires OthersStay(ResetOne(q), r)
    ensures forall e :: e in q.expired ==> e.addr in q.heap && Fate(q, r, e.addr)
    ensures OthersStay(q, r)
  {
    var d, a := ResetOne(q), q.expired[0].addr;
    ResetOneIs(q);
    BatchOf(q);
    hide Inv, ResetOne, GoesBack, Fate;
    forall e | e in q.expired ensures e.addr in q.heap && Fate(q, r, e.addr) {
      if e.addr == a {
        FateStays(q, d, r, a);
      } else {
        assert e in d.expired;
        SameFate(q, d, r, e.addr);
      }
    }
    hide InBatch;
    assert InBatch(q, a) by { AtHead(q); }
  }

  lemma AtHead(q: Queue)
    requires q.expired != []
    ensures InBatch(q, q.expired[0].addr)
  {
    assert q.expired[0] in q.expired;
  }

  lemma FateStays(q: Queue, d: Queue, r: Queue, a: nat)
    requires a in q.heap && Fate(q, d, a) && OthersStay(d, r) && !InBatch(d, a)
    ensures Fate(q, r, a)
  {
  }

  lemma SameFate(q: Queue, d: Queue, r: Queue, a: nat)
    requires a in q.heap && a in d.heap && q.heap[a] == d.heap[a] && q.canceling == d.canceling && q.now == d.now
    requires Fate(d, r, a)
    ensures Fate(q, r, a)
  {
  }

  lemma BatchOf(q: Queue)
    requires Inv(q) && q.expired != [] && q.next == |q.expired|
    ensures !InBatch(ResetOne(q), q.expired[0].addr)
    ensures forall b :: InBatch(ResetOne(q), b) ==> InBatch(q, b)
    ensures forall e :: e in q.expired ==> e.addr in q.heap && (e == q.expired[0] || e.addr != q.expired[0].addr)
  {
    ResetOneIs(q);
    hide Agree, Counted, Doomed, History, ResetOne;
    forall e | e in q.expired ensures e == q.expired[0] || e.addr != q.expired[0].addr {
      var i :| 0 <= i < |q.expired| && q.expired[i] == e;
    }
  }

  /** The end of `handleRead`, for each timer of the batch. */
  lemma BatchEnds(q: Queue, e: Entry)
    requires Good(q) && Enabled(q, Done) && e in q.expired
    ensures var r := After(q, Done);
            && e.addr in q.heap
            && var t := q.heap[e.addr];
               if t.repeats && Key(e.addr, t.sequence) !in q.canceling
               then Waits(r, t.sequence, e.addr, q.now + t.interval) && r.heap[e.addr].repeats
                    && r.heap[e.addr].interval == t.interval && r.freed[t.sequence] == 0
               else !Live(r, t.sequence) && r.freed[t.sequence] == 1
  {
    hide Agree, Owned, Counted, Doomed, History, ResetAll, Armed, Fate;
    var c := q.(calling := false);
    SameParts(q, c);
    ResetAllIs(c);
    ResetAllKeeps(c);
    StepGood(q, Done);
    var r, a := Reset(q), e.addr;
    assert e in c.expired && Fate(c, ResetAll(c), a);
    SequenceOf(q, a);
    FateIs(q, ResetAll(c), r, a);
    FreedIs(r, q.heap[a].sequence);
  }

  lemma FateIs(q: Queue, d: Queue, r: Queue, a: nat)
    requires a in q.heap && Fate(q.(calling := false), d, a) && r == d.(armed := r.armed) && d.issued == q.issued
    requires q.heap[a].sequence < |q.issued| && q.issued[q.heap[a].sequence] == a
    ensures var t := q.heap[a];
            if t.repeats && Key(a, t.sequence) !in q.canceling
            then Waits(r, t.sequence, a, q.now + t.interval) && r.heap[a].repeats && r.heap[a].interval == t.interval
                 && Live(r, t.sequence)
            else !Live(r, t.sequence)
  {
  }

  lemma FreedIs(r: Queue, s: nat)
    requires Inv(r) && s < |r.issued|
    ensures r.freed[s] == if Live(r, s) then 0 else 1
  {
    hide Agree, Owned, Doomed, History;
  }

  lemma SequenceOf(q: Queue, a: nat)
    requires Inv(q) && a in q.heap
    ensures var s := q.heap[a].sequence; s < |q.issued| && q.issued[s] == a
  {
    hide Agree, Owned, Doomed, History;
  }

  // ---------------------------------------------------------------- one timer's life

  /** The timer waits for that time. */
  predicate Waits(q: Queue, s: nat, a: nat, when: int) {
    && a in q.heap && q.heap[a].sequence == s && s < |q.issued| && q.issued[s] == a
    && q.heap[a].expiration == when && Entry(when, a) in q.timers
  }

  /** It has been made for that time, and not been added yet. */
  predicate OnItsWay(q: Queue, s: nat, a: nat, when: int) {
    && a in q.heap && q.heap[a].sequence == s && s < |q.issued| && q.issued[s] == a
    && q.heap[a].expiration == when && a in q.inbox
  }

  lemma MakeIs(q: Queue, a: nat, when: int, interval: nat, repeats: bool)
    requires Good(q) && Enabled(q, Make(a, when, interval, repeats))
    ensures var r := After(q, Make(a, when, interval, repeats));
            && OnItsWay(r, |q.issued|, a, when) && r.heap[a].interval == interval && r.heap[a].repeats == repeats
            && r.canceling == q.canceling
  {
    hide Good;
  }

  lemma AddIs(q: Queue, s: nat, a: nat, when: int)
    requires Good(q) && OnItsWay(q, s, a, when)
    ensures Enabled(q, Added(a)) && Waits(After(q, Added(a)), s, a, when)
  {
    hide Agree, Owned, Counted, Doomed, History;
  }

  /** Whatever else happens, it stays on its way: a cancellation does not reach it. */
  lemma StaysOnItsWay(q: Queue, e: Event, s: nat, a: nat, when: int)
    requires Good(q) && Enabled(q, e) && OnItsWay(q, s, a, when) && e != Added(a)
    ensures OnItsWay(After(q, e), s, a, when)
  {
    match e
    case Cancelled(id) => CancelLeaves(q, id, a); hide Cancel, Inv;
    case Done => DoneLeaves(q, a); hide Reset, Inv;
    case _ => hide Inv;
  }

  lemma CancelLeaves(q: Queue, id: Key, a: nat)
    requires Inv(q) && a in q.heap && (a in q.inbox || id != Key(a, q.heap[a].sequence))
    ensures var r := Cancel(q, id);
            && a in r.heap && r.heap[a] == q.heap[a] && r.issued == q.issued && r.inbox == q.inbox && r.runs == q.runs
            && (forall e :: e in q.timers && e.addr == a ==> e in r.timers)
  {
    if id in q.active {
      assert KeyOf(q, id.addr) == id && InTimers(q, id.addr);
      assert id.addr != a;
    }
    hide Counted, Doomed, History, Erase, Note;
  }

  /** The end of a batch leaves the timers outside the batch as they are. */
  lemma DoneLeaves(q: Queue, a: nat)
    requires Good(q) && Enabled(q, Done) && a in q.heap && !InBatch(q, a)
    ensures var r := Reset(q);
            && a in r.heap && r.heap[a] == q.heap[a] && r.issued == q.issued && r.runs == q.runs
            && (a in q.inbox ==> a in r.inbox) && (forall e :: e in q.timers ==> e in r.timers)
  {
    var c := q.(calling := false);
    SameParts(q, c);
    ResetAllIs(c);
    ResetAllKeeps(c);
    assert !InBatch(c, a);
    hide Inv, ResetAll, Armed;
  }

  /** The callback of the timer has run in that batch. */
  predicate RunIn(q: Queue, s: nat, batch: nat) { exists r :: r in q.runs && r.sequence == s && r.batch == batch }

  /** It is in the batch in flight, and if its turn was, it has run. */
  predicate InFlight(q: Queue, s: nat, a: nat, batch: nat) {
    && q.calling && q.batches == batch && a in q.heap && q.heap[a].sequence == s && s < |q.issued| && q.issued[s] == a
    && (exists i :: 0 <= i < |q.expired| && q.expired[i].addr == a && (i < q.next ==> RunIn(q, s, batch)))
  }

  predicate IsDue(e: Event, when: int) { e.Fired? && e.now >= when }

  /** Until a batch is taken at its time or later, or it is cancelled, it waits. */
  lemma StaysWaiting(q: Queue, e: Event, s: nat, a: nat, when: int)
    requires Good(q) && Enabled(q, e) && Waits(q, s, a, when)
    requires e != Cancelled(Key(a, s)) && !IsDue(e, when)
    ensures Waits(After(q, e), s, a, when)
    ensures forall r :: r in After(q, e).runs && r.sequence == s ==> r in q.runs
  {
    assert InTimers(q, a) && a !in q.inbox && !InBatch(q, a) by { OnlyWaits(q, a); }
    match e
    case Cancelled(id) => CancelLeaves(q, id, a); hide Cancel, Inv;
    case Done => DoneLeaves(q, a); hide Reset, Inv;
    case Fired(now) => NotDueStays(q.timers, now, Entry(when, a)); hide Inv;
    case Called => OtherRuns(q, a); hide Agree, Owned, Counted, Doomed, History;
    case _ => hide Counted, Doomed, History, Agree;
  }

  lemma OnlyWaits(q: Queue, a: nat)
    requires Inv(q) && a in q.heap && InTimers(q, a)
    ensures a !in q.inbox && !InBatch(q, a)
  {
    hide Agree, Counted, Doomed, History;
  }

  lemma NotDueStays(ts: seq<Entry>, now: int, e: Entry)
    requires e in ts && e.when > now
    ensures e in NotDue(ts, now)
  {
    ExpiredSplits(ts, now);
    var i :| 0 <= i < |ts| && ts[i] == e;
    assert ts[i] == NotDue(ts, now)[i - Expired(ts, now)];
  }

  /** The callback that runs is another timer's. */
  lemma OtherRuns(q: Queue, a: nat)
    requires Inv(q) && q.next < |q.expired| && a in q.heap && !InBatch(q, a)
    ensures var b := q.expired[q.next].addr; b in q.heap && q.heap[b].sequence != q.heap[a].sequence
  {
    var e := q.expired[q.next];
    assert e in q.expired && e.addr != a;
    SequenceOf(q, a);
    SequenceOf(q, e.addr);
    hide Agree, Counted, Doomed, History;
  }

  /** The first batch at its time or later takes it. */
  lemma Taken(q: Queue, now: int, s: nat, a: nat, when: int)
    requires Good(q) && Enabled(q, Fired(now)) && Waits(q, s, a, when) && now >= when
    ensures InFlight(After(q, Fired(now)), s, a, q.batches + 1)
  {
    DueIn(q, now, Entry(when, a));
    TakeIs(q, now, s, a, when);
    hide Inv, Armed, Waits, InFlight, Take;
  }

  lemma TakeIs(q: Queue, now: int, s: nat, a: nat, when: int)
    requires Waits(q, s, a, when) && Entry(when, a) in Due(q.timers, now)
    ensures InFlight(Take(q, now), s, a, q.batches + 1)
  {
    var r := Take(q, now);
    var i :| 0 <= i < |r.expired| && r.expired[i] == Entry(when, a);
    hide RunIn;
  }

  lemma InTime(ts: seq<Entry>, n: nat, i: nat, now: int)
    requires Sorted(ts) && n <= |ts| && (n < |ts| ==> ts[n].when > now) && i < |ts| && ts[i].when <= now
    ensures i < n
  {
    assert forall k :: n < k < |ts| ==> Less(ts[n], ts[k]);
  }

  lemma DueIn(q: Queue, now: int, e: Entry)
    requires Agree(q) && e in q.timers && e.when <= now
    ensures e in Due(q.timers, now)
  {
    ExpiredSplits(q.timers, now);
    var i :| 0 <= i < |q.timers| && q.timers[i] == e;
    var n := Expired(q.timers, now);
    InTime(q.timers, n, i, now);
    assert q.timers[i] == Due(q.timers, now)[i];
  }

  lemma StaysInFlight(q: Queue, e: Event, s: nat, a: nat, batch: nat)
    requires Good(q) && Enabled(q, e) && InFlight(q, s, a, batch) && e != Done
    ensures InFlight(After(q, e), s, a, batch)
  {
    var r := After(q, e);
    var i :| 0 <= i < |q.expired| && q.expired[i].addr == a && (i < q.next ==> RunIn(q, s, batch));
    assert InBatch(q, a) by { assert q.expired[i] in q.expired; }
    if RunIn(q, s, batch) { RunsGrow(q, e, s, batch); }
    match e {
      case Cancelled(id) => CancelInFlight(q, id, a); hide Cancel, Inv;
      case Called => CallInFlight(q, i, s, a, batch); hide RunNext, Inv;
      case _ => hide Inv;
    }
    hide RunIn;
    assert i < |r.expired| && r.expired[i].addr == a;
  }

  lemma RunsGrow(q: Queue, e: Event, s: nat, batch: nat)
    requires Good(q) && Enabled(q, e) && RunIn(q, s, batch)
    ensures RunIn(After(q, e), s, batch)
  {
    var x :| x in q.runs && x.sequence == s && x.batch == batch;
    var r := After(q, e);
    if e.Done? {
      var c := q.(calling := false);
      SameParts(q, c);
      ResetAllKeeps(c);
    }
    assert x in r.runs by { hide Inv, ResetAll; }
  }

  lemma CancelInFlight(q: Queue, id: Key, a: nat)
    requires Good(q) && a in q.heap && InBatch(q, a)
    ensures var r := Cancel(q, id);
            && a in r.heap && r.heap[a] == q.heap[a] && r.issued == q.issued && r.expired == q.expired
            && r.next == q.next && r.runs == q.runs && r.calling == q.calling && r.batches == q.batches
  {
    if id in q.active {
      assert KeyOf(q, id.addr) == id && InTimers(q, id.addr);
      OnlyWaits(q, id.addr);
    }
    hide Counted, Doomed, History, Erase, Note, Owned;
  }

  lemma CallInFlight(q: Queue, i: nat, s: nat, a: nat, batch: nat)
    requires Good(q) && Enabled(q, Called) && i < |q.expired| && q.expired[i].addr == a
    requires a in q.heap && q.heap[a].sequence == s && q.batches == batch
    ensures var r := RunNext(q);
            && r.heap == q.heap && r.issued == q.issued && r.expired == q.expired && r.calling == q.calling
            && r.batches == q.batches && r.next == q.next + 1 && (i == q.next ==> RunIn(r, s, batch))
  {
    hide Agree, Counted, Doomed, History;
    var r := RunNext(q);
    if i == q.next { assert r.runs[|q.runs|] in r.runs; }
  }

  /** When the batch has ended, it has run in it. */
  lemma {:induction false} BatchRuns(q: Queue, es: seq<Event>, s: nat, a: nat, batch: nat)
    requires Good(q) && Playable(q, es) && InFlight(q, s, a, batch) && Done in es
    ensures RunIn(Play(q, es), s, batch)
    decreases |es|
  {
    hide Good, Enabled, After, InFlight, RunIn;
    assert es == [es[0]] + es[1..];
    if es[0] == Done {
      HasRun(q, s, a, batch);
      RunsGrow(q, Done, s, batch);
      RunStays(After(q, Done), es[1..], s, batch);
    } else {
      StaysInFlight(q, es[0], s, a, batch);
      BatchRuns(After(q, es[0]), es[1..], s, a, batch);
    }
  }

  lemma HasRun(q: Queue, s: nat, a: nat, batch: nat)
    requires Good(q) && Enabled(q, Done) && InFlight(q, s, a, batch)
    ensures RunIn(q, s, batch)
  {
    hide RunIn;
  }

  lemma {:induction false} RunStays(q: Queue, es: seq<Event>, s: nat, batch: nat)
    requires Good(q) && Playable(q, es) && RunIn(q, s, batch)
    ensures RunIn(Play(q, es), s, batch)
    decreases |es|
  {
    hide Good, Enabled, After, RunIn;
    if es != [] {
      RunsGrow(q, es[0], s, batch);
      RunStays(After(q, es[0]), es[1..], s, batch);
    }
  }

  // --------------------------------------------------------------------- whole runs

  /** The events before the first batch at a time or later, and the rest. */
  function UntilDue(es: seq<Event>, when: int): (k: nat)
    ensures k <= |es|
  {
    if es == [] || IsDue(es[0], when) then 0 else 1 + UntilDue(es[1..], when)
  }

  function Batches(es: seq<Event>): nat {
    if es == [] then 0 else (if es[0].Fired? then 1 else 0) + Batches(es[1..])
  }

  /** A timer that waits, and is not cancelled before its time: it is not run, and waits
      for exactly that time, until the first batch taken then or later; and when that
      batch has ended, it has been run in it. */
  lemma {:induction false} RunsOnTime(q: Queue, es: seq<Event>, s: nat, a: nat, when: int)
    requires Good(q) && Playable(q, es) && Waits(q, s, a, when)
    requires Cancelled(Key(a, s)) !in es[..UntilDue(es, when)]
    ensures var k, r := UntilDue(es, when), Play(q, es);
            && (k == |es| ==> Waits(r, s, a, when) && forall x :: x in r.runs && x.sequence == s ==> x in q.runs)
            && (k < |es| && Done in es[k + 1..] ==> RunIn(r, s, q.batches + Batches(es[..k + 1])))
    decreases |es|
  {
    hide Good, Enabled, After, Waits, RunIn;
    if es != [] {
      var d, rest := After(q, es[0]), es[1..];
      UntilLater(es, when);
      if IsDue(es[0], when) {
        Taken(q, es[0].now, s, a, when);
        if Done in rest { BatchRuns(d, rest, s, a, q.batches + 1); }
      } else {
        hide IsDue, UntilDue, Batches;
        StaysWaiting(q, es[0], s, a, when);
        BatchCount(q, es[0]);
        RunsOnTime(d, rest, s, a, when);
      }
    }
  }

  lemma UntilLater(es: seq<Event>, when: int)
    requires es != []
    ensures IsDue(es[0], when) ==> UntilDue(es, when) == 0 && Batches(es[..1]) == 1
    ensures !IsDue(es[0], when) ==>
              var k := UntilDue(es[1..], when);
              && UntilDue(es, when) == k + 1
              && es[..k + 1] == [es[0]] + es[1..][..k]
              && (k < |es[1..]| ==>
                    && es[k + 2..] == es[1..][k + 1..]
                    && Batches(es[..k + 2]) == (if es[0].Fired? then 1 else 0) + Batches(es[1..][..k + 1]))
  {
    assert es[..1] == [es[0]] && es[..1][1..] == [];
    if !IsDue(es[0], when) {
      var k := UntilDue(es[1..], when);
      if k < |es[1..]| { assert es[..k + 2][1..] == es[1..][..k + 1]; }
    }
  }

  lemma BatchCount(q: Queue, e: Event)
    requires Good(q) && Enabled(q, e)
    ensures After(q, e).batches == q.batches + (if e.Fired? then 1 else 0)
  {
    if e.Done? {
      var c := q.(calling := false);
      SameParts(q, c);
      ResetAllKeeps(c);
    }
    hide Inv, ResetAll;
  }

  /** From the moment it is made: it waits for the time it was made for as soon as it
      has been added, whatever happens in between, a cancellation included. */
  lemma {:induction false} MadeWaits(q: Queue, es: seq<Event>, s: nat, a: nat, when: int)
    requires Good(q) && Playable(q, es + [Added(a)]) && OnItsWay(q, s, a, when) && Added(a) !in es
    ensures Waits(Play(q, es + [Added(a)]), s, a, when)
    decreases |es|
  {
    hide Good, Enabled, After, Waits, OnItsWay;
    if es == [] {
      assert es + [Added(a)] == [Added(a)] && [Added(a)][1..] == [];
      AddIs(q, s, a, when);
    } else {
      assert (es + [Added(a)])[1..] == es[1..] + [Added(a)];
      StaysOnItsWay(q, es[0], s, a, when);
      MadeWaits(After(q, es[0]), es[1..], s, a, when);
    }
  }

  /** A repeating timer that was not cancelled, wherever it is. */
  predicate Repeats(q: Queue, s: nat, a: nat, interval: nat) {
    && a in q.heap && q.heap[a].sequence == s && s < |q.issued| && q.issued[s] == a
    && q.heap[a].repeats && q.heap[a].interval == interval && Key(a, s) !in q.canceling
  }

  lemma StaysRepeating(q: Queue, e: Event, s: nat, a: nat, interval: nat)
    requires Good(q) && Enabled(q, e) && Repeats(q, s, a, interval) && e != Cancelled(Key(a, s))
    ensures Repeats(After(q, e), s, a, interval)
  {
    match e
    case Cancelled(id) => CancelSpares(q, id, s, a); hide Cancel, Inv;
    case Done => DoneSpares(q, s, a, interval); hide Reset, Inv;
    case _ => hide Inv;
  }

  lemma CancelSpares(q: Queue, id: Key, s: nat, a: nat)
    requires Inv(q) && a in q.heap && q.heap[a].sequence == s && id != Key(a, s) && Key(a, s) !in q.canceling
    ensures var r := Cancel(q, id);
            a in r.heap && r.heap[a] == q.heap[a] && r.issued == q.issued && Key(a, s) !in r.canceling
  {
    CancelLeaves(q, id, a);
    hide Inv;
  }

  lemma DoneSpares(q: Queue, s: nat, a: nat, interval: nat)
    requires Good(q) && Enabled(q, Done) && Repeats(q, s, a, interval)
    ensures Repeats(Reset(q), s, a, interval)
  {
    CancelingStays(q);
    if InBatch(q, a) { BatchSpares(q, s, a, interval); } else { DoneLeaves(q, a); }
    hide Good, Reset, Inv;
  }

  lemma BatchSpares(q: Queue, s: nat, a: nat, interval: nat)
    requires Good(q) && Enabled(q, Done) && Repeats(q, s, a, interval) && InBatch(q, a)
    ensures var r := Reset(q);
            && a in r.heap && r.heap[a].sequence == s && s < |r.issued| && r.issued[s] == a
            && r.heap[a].repeats && r.heap[a].interval == interval
  {
    hide Inv, Reset, Armed;
    var e :| e in q.expired && e.addr == a;
    BatchEnds(q, e);
  }

  lemma CancelingStays(q: Queue)
    requires Good(q) && Enabled(q, Done)
    ensures Reset(q).canceling == q.canceling
  {
    SameParts(q, q.(calling := false));
    AllCancelingStays(q.(calling := false));
    hide Inv, ResetAll;
  }

  lemma {:induction false} AllCancelingStays(q: Queue)
    requires Inv(q) && q.next == |q.expired| && !q.calling
    ensures ResetAll(q).canceling == q.canceling
    decreases |q.expired|
  {
    if q.expired != [] {
      ResetOneInv(q);
      ResetOneIs(q);
      hide Inv, ResetOne;
      AllCancelingStays(ResetOne(q));
    }
  }

  /** A repeating timer that is never cancelled is never freed. */
  lemma {:induction false} NeverFreed(q: Queue, es: seq<Event>, s: nat, a: nat, interval: nat)
    requires Good(q) && Playable(q, es) && Repeats(q, s, a, interval) && Cancelled(Key(a, s)) !in es
    ensures var r := Play(q, es); Repeats(r, s, a, interval) && Live(r, s) && r.freed[s] == 0
    decreases |es|
  {
    if es == [] {
      FreedIs(q, s);
      hide Inv;
    } else {
      StaysRepeating(q, es[0], s, a, interval);
      hide Good, Enabled, After, Repeats, Live;
      NeverFreed(After(q, es[0]), es[1..], s, a, interval);
    }
  }

  lemma {:induction false} PlaySplit(q: Queue, es: seq<Event>, fs: seq<Event>)
    requires Good(q) && Playable(q, es + fs)
    ensures Playable(q, es) && Playable(Play(q, es), fs) && Play(q, es + fs) == Play(Play(q, es), fs)
    decreases |es|
  {
    hide Good, Enabled, After;
    if es == [] {
      assert es + fs == fs;
    } else {
      assert (es + fs)[1..] == es[1..] + fs && (es + fs)[0] == es[0];
      PlaySplit(After(q, es[0]), es[1..], fs);
    }
  }

  lemma {:induction false} BatchesPlayed(q: Queue, es: seq<Event>)
    requires Good(q) && Playable(q, es)
    ensures Play(q, es).batches == q.batches + Batches(es)
    decreases |es|
  {
    hide Good, Enabled, After;
    if es != [] {
      BatchCount(q, es[0]);
      BatchesPlayed(After(q, es[0]), es[1..]);
    }
  }

  /** In every run in which a timer is made for a time and added, and not cancelled
      between then and the first batch taken at that time or later: up to that batch
      it waits for exactly that time, and when that batch has ended, its callback has
      been run in it. */
  lemma MadeRuns(q: Queue, make: Event, mid: seq<Event>, rest: seq<Event>)
    requires Good(q) && make.Make? && Playable(q, [make] + mid + [Added(make.addr)] + rest)
    requires Added(make.addr) !in mid
    requires Cancelled(Key(make.addr, |q.issued|)) !in rest[..UntilDue(rest, make.when)]
    ensures var s, k, r := |q.issued|, UntilDue(rest, make.when), Play(q, [make] + mid + [Added(make.addr)] + rest);
            && (k == |rest| ==> Waits(r, s, make.addr, make.when))
            && (k < |rest| && Done in rest[k + 1..] ==>
                  RunIn(r, s, q.batches + Batches(mid) + Batches(rest[..k + 1])))
  {
    hide Good, Enabled, After, Waits, RunIn, Play, Playable;
    var first := [make] + mid + [Added(make.addr)];
    PlaySplit(q, first, rest);
    MadeAndAdded(q, make, mid);
    RunsOnTime(Play(q, first), rest, |q.issued|, make.addr, make.when);
  }

  lemma MadeAndAdded(q: Queue, make: Event, mid: seq<Event>)
    requires Good(q) && make.Make? && Playable(q, [make] + mid + [Added(make.addr)]) && Added(make.addr) !in mid
    ensures var r := Play(q, [make] + mid + [Added(make.addr)]);
            Waits(r, |q.issued|, make.addr, make.when) && r.batches == q.batches + Batches(mid)
  {
    hide Good, Enabled, After, Waits, OnItsWay;
    var added := mid + [Added(make.addr)];
    assert [make] + mid + [Added(make.addr)] == [make] + added && [make][1..] == [];
    PlaySplit(q, [make], added);
    MakeIs(q, make.addr, make.when, make.interval, make.repeats);
    var d := After(q, make);
    BatchCount(q, make);
    hide Play, Playable;
    MadeWaits(d, mid, |q.issued|, make.addr, make.when);
    BatchesPlayed(d, added);
    BatchesAdd(mid, Added(make.addr));
  }

  lemma {:induction false} BatchesAdd(es: seq<Event>, e: Event)
    ensures Batches(es + [e]) == Batches(es) + (if e.Fired? then 1 else 0)
  {
    if es == [] {
      assert es + [e] == [e] && [e][1..] == [];
    } else {
      assert (es + [e])[1..] == es[1..] + [e];
      BatchesAdd(es[1..], e);
    }
  }

  /** When the timerfd is set, it is set to the earliest timer: by an addition that
      makes one the earliest, and at the end of a batch, unless that time is not
      after the epoch. No other addition touches it, and a batch unsets it. */
  lemma ArmedExactly(q: Queue, e: Event)
    requires Good(q) && Enabled(q, e)
    ensures var r := After(q, e);
            && (e.Done? && r.timers != [] && r.timers[0].when > 0 ==> r.armed == Some(r.timers[0].when))
            && (e.Done? && (r.timers == [] || r.timers[0].when <= 0) ==> r.armed == q.armed)
            && (e.Added? ==>
                  var when := q.heap[e.addr].expiration;
                  r.armed == if q.timers == [] || when < q.timers[0].when then Some(when) else q.armed)
            && (e.Fired? ==> r.armed == None)
            && (e.Make? || e.Cancelled? || e.Called? ==> r.armed == q.armed)
  {
    if e.Done? {
      var c := q.(calling := false);
      SameParts(q, c);
      ResetAllKeeps(c);
    }
    hide Inv, ResetAll;
  }
}
