/**
 Which descriptors a loop watches. Both pollers are state machines over the same
 two calls, update and remove; the array of the one and the kernel table of the
 other are shown to hold the same events for the same descriptors.
 */
module PollerModel {
  import opened Options

  /** What was asked for: the events of each registered channel. `muted`: they were
      set to none after the registration. */
  datatype Entry = Entry(events: nat, muted: bool)
  type Interest = map<nat, Entry>

  datatype Op = Update(fd: nat, events: nat) | Remove(fd: nat)

  /** A channel is removed after its events were set to none, as `Channel::remove`
      asserts, and not by its registration. */
  predicate Legal(i: Interest, op: Op) {
    op.Remove? ==> op.fd in i && i[op.fd].muted
  }

  function Next(i: Interest, op: Op): Interest {
    match op
    case Update(fd, events) => i[fd := Entry(events, fd in i && events == 0)]
    case Remove(fd) => i - {fd}
  }

  predicate Wanted(i: Interest, fd: nat, events: nat) { fd in i && i[fd].events == events && events != 0 }

  // -------------------------------------------------------------------- PollPoller

  datatype PollFd = PollFd(fd: int, events: nat)

  /** `index`: the `index_` of each channel in `channels_`. */
  datatype Poll = Poll(pollfds: seq<PollFd>, index: map<nat, int>)

  const NO_POLL := Poll([], map[])

  /** An entry that `poll` ignores has the one's complement of its descriptor. */
  function Ignored(fd: nat): int { 0 - fd - 1 }

  function FdOf(p: PollFd): nat { if p.fd < 0 then 0 - p.fd - 1 else p.fd }

  predicate PollAsserts(p: Poll, op: Op) {
    match op
    case Update(fd, _) =>
      fd in p.index ==> 0 <= p.index[fd] < |p.pollfds| && FdOf(p.pollfds[p.index[fd]]) == fd
    case Remove(fd) =>
      && fd in p.index && 0 <= p.index[fd] < |p.pollfds|
      && p.pollfds[p.index[fd]] == PollFd(Ignored(fd), 0)
      && FdOf(p.pollfds[|p.pollfds| - 1]) in p.index
      && p.index[FdOf(p.pollfds[|p.pollfds| - 1])] == |p.pollfds| - 1
  }

  function PollNext(p: Poll, op: Op): Poll
    requires PollAsserts(p, op)
  {
    match op
    case Update(fd, events) =>
      if fd !in p.index
      then Poll(p.pollfds + [PollFd(fd, events)], p.index[fd := |p.pollfds|])
      else p.(pollfds := p.pollfds[p.index[fd] := PollFd(if events == 0 then Ignored(fd) else fd, events)])
    case Remove(fd) =>
      var i, last := p.index[fd], |p.pollfds| - 1;
      if i == last then Poll(p.pollfds[..last], p.index - {fd})
      else Poll(p.pollfds[i := p.pollfds[last]][..last], (p.index - {fd})[FdOf(p.pollfds[last]) := i])
  }

  /** What the kernel is asked to watch: an entry of the array that counts. */
  predicate PollWatches(p: Poll, fd: nat, events: nat) {
    PollFd(fd, events) in p.pollfds && events != 0
  }

  /** A channel's index leads to its entry. */
  predicate Indexed(p: Poll, i: Interest, fd: nat) {
    && fd in i && fd in p.index && 0 <= p.index[fd] < |p.pollfds|
    && p.pollfds[p.index[fd]] == PollFd(if i[fd].muted then Ignored(fd) else fd, i[fd].events)
    && (i[fd].muted ==> i[fd].events == 0)
  }

  /** An entry's channel leads back to it. */
  predicate Placed(p: Poll, k: nat) {
    k < |p.pollfds| && FdOf(p.pollfds[k]) in p.index && p.index[FdOf(p.pollfds[k])] == k
  }

  /** The array, the map and the channels' indices are inverse to each other. */
  predicate PollInv(p: Poll, i: Interest) {
    && p.index.Keys == i.Keys
    && (forall fd :: fd in i ==> Indexed(p, i, fd))
    && (forall k :: 0 <= k < |p.pollfds| ==> Placed(p, k))
  }

  lemma PollUpdate(p: Poll, i: Interest, fd: nat, events: nat)
    requires PollInv(p, i)
    ensures PollAsserts(p, Update(fd, events)) && PollInv(PollNext(p, Update(fd, events)), Next(i, Update(fd, events)))
  {
    var op := Update(fd, events);
    assert fd in i ==> Indexed(p, i, fd);
    var q, j := PollNext(p, op), Next(i, op);
    forall f | f in j ensures Indexed(q, j, f) {
      assert f in i ==> Indexed(p, i, f);
      assert f in i && f != fd && fd in i ==> p.index[f] != p.index[fd];
    }
    forall k | 0 <= k < |q.pollfds| ensures Placed(q, k) { assert k < |p.pollfds| ==> Placed(p, k); }
  }

  lemma PollRemove(p: Poll, i: Interest, fd: nat)
    requires PollInv(p, i) && Legal(i, Remove(fd))
    ensures PollAsserts(p, Remove(fd)) && PollInv(PollNext(p, Remove(fd)), Next(i, Remove(fd)))
  {
    var op := Remove(fd);
    assert Indexed(p, i, fd);
    assert Placed(p, |p.pollfds| - 1);
    var q, j := PollNext(p, op), Next(i, op);
    forall f | f in j ensures Indexed(q, j, f) {
      assert Indexed(p, i, f);
      assert p.index[f] != p.index[fd];
    }
    forall k | 0 <= k < |q.pollfds| ensures Placed(q, k) { assert Placed(p, k); }
  }

  lemma PollStep(p: Poll, i: Interest, op: Op)
    requires PollInv(p, i) && Legal(i, op)
    ensures PollAsserts(p, op) && PollInv(PollNext(p, op), Next(i, op))
  {
    match op
    case Update(fd, events) => PollUpdate(p, i, fd, events);
    case Remove(fd) => PollRemove(p, i, fd);
    hide PollInv, PollNext, PollAsserts;
  }

  lemma PollRefines(p: Poll, i: Interest, fd: nat, events: nat)
    requires PollInv(p, i)
    ensures PollWatches(p, fd, events) <==> Wanted(i, fd, events)
  {
    if PollWatches(p, fd, events) {
      var k :| 0 <= k < |p.pollfds| && p.pollfds[k] == PollFd(fd, events);
      assert FdOf(p.pollfds[k]) == fd && Placed(p, k) && Indexed(p, i, fd);
    }
  }

  // ------------------------------------------------------------------- EPollPoller

  const NEW := -1
  const ADDED := 1
  const DELETED := 2

  datatype Ctl = Add | Mod | Del

  /** `epoll_ctl` on the kernel's table, or its failure. */
  function Control(kernel: map<nat, nat>, ctl: Ctl, fd: nat, events: nat): Option<map<nat, nat>> {
    match ctl
    case Add => if fd in kernel then None else Some(kernel[fd := events])
    case Mod => if fd in kernel then Some(kernel[fd := events]) else None
    case Del => if fd in kernel then Some(kernel - {fd}) else None
  }

  datatype EPoll = EPoll(kernel: map<nat, nat>, index: map<nat, int>)

  const NO_EPOLL := EPoll(map[], map[])

  predicate EPollAsserts(e: EPoll, op: Op) {
    match op
    case Update(fd, _) => fd in e.index ==> e.index[fd] in {ADDED, DELETED}
    case Remove(fd) => fd in e.index && e.index[fd] in {ADDED, DELETED}
  }

  /** The call of `epoll_ctl` that goes with the operation, if there is one. */
  function CtlOf(e: EPoll, op: Op): Option<Ctl>
    requires EPollAsserts(e, op)
  {
    match op
    case Update(fd, events) =>
      Some(if fd !in e.index || e.index[fd] == DELETED then Add else if events == 0 then Del else Mod)
    case Remove(fd) => if e.index[fd] == ADDED then Some(Del) else None
  }

  predicate CtlSucceeds(e: EPoll, op: Op)
    requires EPollAsserts(e, op)
  {
    CtlOf(e, op).Some? ==> Control(e.kernel, CtlOf(e, op).value, op.fd, EventsOf(op)).Some?
  }

  function EventsOf(op: Op): nat { if op.Update? then op.events else 0 }

  function EPollNext(e: EPoll, op: Op): EPoll
    requires EPollAsserts(e, op) && CtlSucceeds(e, op)
  {
    var ctl := CtlOf(e, op);
    var kernel := if ctl.Some? then Control(e.kernel, ctl.value, op.fd, EventsOf(op)).value else e.kernel;
    match op
    case Update(fd, events) =>
      EPoll(kernel, e.index[fd := if fd in e.index && e.index[fd] == ADDED && events == 0 then DELETED else ADDED])
    case Remove(fd) => EPoll(kernel, e.index - {fd})
  }

  predicate EPollWatches(e: EPoll, fd: nat, events: nat) {
    fd in e.kernel && e.kernel[fd] == events && events != 0
  }

  /** The kernel's table holds exactly the added channels, with their events. */
  predicate EPollInv(e: EPoll, i: Interest) {
    && e.index.Keys == i.Keys
    && (forall fd :: fd in i ==>
          && e.index[fd] in {ADDED, DELETED}
          && (e.index[fd] == ADDED ==> fd in e.kernel && e.kernel[fd] == i[fd].events)
          && (e.index[fd] == DELETED ==> fd !in e.kernel && i[fd].events == 0))
    && (forall fd :: fd in e.kernel ==> fd in i)
  }

  lemma EPollStep(e: EPoll, i: Interest, op: Op)
    requires EPollInv(e, i) && Legal(i, op)
    ensures EPollAsserts(e, op) && CtlSucceeds(e, op) && EPollInv(EPollNext(e, op), Next(i, op))
  {
  }

  // ------------------------------------------------------------------ whole runs

  predicate LegalRun(i: Interest, ops: seq<Op>)
    decreases |ops|
  {
    ops == [] || (Legal(i, ops[0]) && LegalRun(Next(i, ops[0]), ops[1..]))
  }

  function After(i: Interest, ops: seq<Op>): Interest
    decreases |ops|
  {
    if ops == [] then i else After(Next(i, ops[0]), ops[1..])
  }

  function PollRun(p: Poll, i: Interest, ops: seq<Op>): (r: Poll)
    requires PollInv(p, i) && LegalRun(i, ops)
    ensures PollInv(r, After(i, ops))
    decreases |ops|
  {
    if ops == [] then p else
    PollStep(p, i, ops[0]);
    PollRun(PollNext(p, ops[0]), Next(i, ops[0]), ops[1..])
  }

  function EPollRun(e: EPoll, i: Interest, ops: seq<Op>): (r: EPoll)
    requires EPollInv(e, i) && LegalRun(i, ops)
    ensures EPollInv(r, After(i, ops))
    decreases |ops|
  {
    if ops == [] then e else
    EPollStep(e, i, ops[0]);
    EPollRun(EPollNext(e, ops[0]), Next(i, ops[0]), ops[1..])
  }

  /** After every legal sequence of calls both pollers watch the same descriptors
      for the same events: those that were asked for and not taken back. */
  lemma SameWatched(ops: seq<Op>, fd: nat, events: nat)
    requires LegalRun(map[], ops)
    ensures var i := After(map[], ops);
            && (PollWatches(PollRun(NO_POLL, map[], ops), fd, events) <==> Wanted(i, fd, events))
            && (EPollWatches(EPollRun(NO_EPOLL, map[], ops), fd, events) <==> Wanted(i, fd, events))
  {
    PollRefines(PollRun(NO_POLL, map[], ops), After(map[], ops), fd, events);
  }

  /** A channel without events can be removed from the array if and only if its
      events were set to none after its registration; from the kernel's table it
      always can. */
  lemma RemovableIff(p: Poll, e: EPoll, i: Interest, fd: nat)
    requires PollInv(p, i) && EPollInv(e, i) && fd in i && i[fd].events == 0
    ensures PollAsserts(p, Remove(fd)) <==> i[fd].muted
    ensures EPollAsserts(e, Remove(fd)) && CtlSucceeds(e, Remove(fd))
  {
    assert Indexed(p, i, fd);
    if i[fd].muted { PollRemove(p, i, fd); }
  }

  /** So a channel registered with no events, and not updated since, cannot. */
  lemma RegisteredIdle(ops: seq<Op>, fd: nat)
    requires LegalRun(map[], ops) && fd !in After(map[], ops)
    ensures var i := After(map[], ops);
            !PollAsserts(PollNext(PollRun(NO_POLL, map[], ops), Update(fd, 0)), Remove(fd))
  {
    var i, p := After(map[], ops), PollRun(NO_POLL, map[], ops);
    var j, q := Next(i, Update(fd, 0)), PollNext(p, Update(fd, 0));
    PollUpdate(p, i, fd, 0);
    assert Indexed(q, j, fd);
    hide PollRun, After, LegalRun, PollNext;
  }
}
