/**
 A thread other than the loop's calls `shutdown` on a connection. The functor it
 queues comes behind the messages queued before, but draining the output buffer
 also shuts the write side, and may do so too early; and other threads may be in
 the middle of a call themselves. This module says exactly when that matters.
 */
module ShutdownRace {
  import opened Options
  import opened ConnectionModel

  /** The messages with bytes in them that wait in the queue. */
  function Messages(fs: seq<Functor>): nat {
    if fs == [] then 0 else (if fs[0].Deliver? && fs[0].data != "" then 1 else 0) + Messages(fs[1..])
  }

  function Shuts(fs: seq<Functor>): nat {
    if fs == [] then 0 else (if fs[0] == ShutdownLater then 1 else 0) + Shuts(fs[1..])
  }

  /** The write side may be shut by what the loop thread does next: it has bytes to
      drain, or is in the middle of sending some, or of a shutdown of its own. */
  predicate Busy(c: Conn) {
    c.output != "" || c.calls.home == Shutting || (c.calls.home.Sending? && c.calls.home.data != "")
  }

  /** What comes before the functor of a shutdown that is about to be queued. */
  function Ahead(c: Conn): nat { Messages(c.pending) + (if Busy(c) then 1 else 0) }

  /** No sender has tested the state and not queued its message. */
  predicate NoneComing(c: Conn) { forall data :: data in c.calls.senders ==> data == "" }

  lemma {:induction false} MessagesAppend(fs: seq<Functor>, f: Functor)
    ensures Messages(fs + [f]) == Messages(fs) + (if f.Deliver? && f.data != "" then 1 else 0)
    ensures Shuts(fs + [f]) == Shuts(fs) + (if f == ShutdownLater then 1 else 0)
  {
    if fs == [] {
      assert fs + [f] == [f];
    } else {
      assert (fs + [f])[1..] == fs[1..] + [f];
      MessagesAppend(fs[1..], f);
    }
  }

  lemma {:induction false} NoShuts(fs: seq<Functor>)
    requires ShutdownLater !in fs
    ensures Shuts(fs) == 0 && InOrder(fs)
  {
    if fs != [] { NoShuts(fs[1..]); }
  }

  /** No message waits behind a shutdown. */
  predicate InOrder(fs: seq<Functor>)
    decreases |fs|
  {
    fs == [] || ((fs[0] == ShutdownLater ==> Messages(fs[1..]) == 0) && InOrder(fs[1..]))
  }

  lemma {:induction false} InOrderAppend(fs: seq<Functor>, f: Functor)
    requires InOrder(fs) && (f.Deliver? ==> f.data == "")
    ensures InOrder(fs + [f])
  {
    if fs == [] {
      assert fs + [f] == [f];
    } else {
      assert (fs + [f])[1..] == fs[1..] + [f];
      InOrderAppend(fs[1..], f);
      MessagesAppend(fs[1..], f);
    }
  }

  /** An event gives up a message because the write side is shut already: its
      functor runs on a connection that is otherwise still open. */
  predicate Loses(c: Conn, e: Event) {
    && e.Head? && c.pending != [] && c.pending[0].Deliver? && c.pending[0].data != ""
    && c.state == Disconnecting && c.shutdowns > 0
  }

  predicate LosesIn(c: Conn, es: seq<Event>)
    requires Playable(c, es)
    decreases |es|
  {
    es != [] && (Loses(c, es[0]) || LosesIn(Apply(c, es[0]), es[1..]))
  }

  // -------------------------------------------------------- what cannot happen

  /** On the way down, no test of the state in `send` or `shutdown` succeeds. */
  predicate GoingDown(c: Conn) { Inv(c) && c.state in {Disconnecting, Disconnected} }

  predicate SameQueue(c: Conn, d: Conn) {
    && Messages(d.pending) == Messages(c.pending) && Shuts(d.pending) == Shuts(c.pending)
    && (InOrder(c.pending) ==> InOrder(d.pending))
  }

  lemma Pushed(c: Conn, f: Functor)
    requires (f.Deliver? ==> f.data == "") && f != ShutdownLater
    ensures SameQueue(c, Queue(c, f))
  {
    MessagesAppend(c.pending, f);
    if InOrder(c.pending) { InOrderAppend(c.pending, f); }
  }

  lemma QueueCompleteIs(c: Conn)
    ensures var d := QueueComplete(c); d == c.(pending := d.pending) && SameQueue(c, d)
  {
    Pushed(c, WriteComplete);
  }

  /** What a write from the buffer does to the counts. */
  lemma FlushCounts(c: Conn, r: Result)
    requires GoingDown(c) && c.calls.home == Idle && (c.writing ==> r.n <= |c.output|)
    ensures var d := Flush(c, r);
            && GoingDown(d) && SameQueue(c, d) && d.calls == c.calls
            && (c.output == "" ==> d == c)
            && |d.output| <= |c.output|
            && (d.shutdowns == c.shutdowns || (d.shutdowns == c.shutdowns + 1 && d.output == "" && c.output != ""))
  {
    FlushInv(c, r);
    if c.writing && r.n > 0 {
      var d := c.(wire := c.wire + c.output[..r.n], output := c.output[r.n..]);
      QueueCompleteIs(d.(writing := false));
      Pushed(c, HandleWrite);
      hide QueueComplete;
    }
    hide SameQueue;
  }

  lemma BufferedCounts(c: Conn, rest: string)
    ensures var d := Buffered(c, rest);
            && d == c.(pending := d.pending, output := c.output + rest, writing := true) && SameQueue(c, d)
  {
    Pushed(c, HighWater(|c.output| + |rest|));
  }

  /** What a send does to them, once it has begun. */
  lemma SendCounts(c: Conn, data: string, r1: Result, r2: Result)
    requires GoingDown(c) && c.calls.home == Idle && CanSend(c, data, r1, r2) && (data != "" ==> c.shutdowns == 0)
    ensures var d := SendInLoop(c, data, r1, r2);
            && GoingDown(d) && SameQueue(c, d) && d.calls == c.calls
            && (data == "" ==> d.output == c.output && d.shutdowns == c.shutdowns)
            && (d.shutdowns == c.shutdowns || (d.shutdowns == c.shutdowns + 1 && d.output == ""))
  {
    SendInv(c, data, r1, r2);
    var w := Direct(c, data, r1);
    if c.state != Disconnected && w.Some? {
      var k := w.value;
      var d := c.(wire := c.wire + data[..k], accepted := c.accepted + data);
      if k < |data| {
        BufferedInv(c, data, k);
        BufferedCounts(d, data[k..]);
        FlushCounts(Buffered(d, data[k..]), r2);
        hide Flush, Buffered;
      } else {
        QueueCompleteIs(d);
        hide QueueComplete;
      }
    }
    hide Messages, Shuts, InOrder;
  }

  /** The shutdowns done and to come. */
  function AllShuts(c: Conn): nat { c.shutdowns + Shuts(c.pending) + c.calls.shut + c.calls.toShut }

  /** Nothing to send, and at most one shutdown done or to come. */
  predicate Calm(c: Conn) { GoingDown(c) && Ahead(c) == 0 && NoneComing(c) && AllShuts(c) <= 1 }

  /** At most one thing ahead while the write side is open, and no message after. */
  predicate Single(c: Conn) {
    && GoingDown(c) && InOrder(c.pending) && Ahead(c) <= 1 && NoneComing(c)
    && (c.shutdowns > 0 ==> Messages(c.pending) == 0)
  }

  /** The queue without its head. */
  function Popped(c: Conn): Conn
    requires c.pending != []
  {
    c.(pending := c.pending[1..])
  }

  lemma PopGoesDown(c: Conn)
    requires GoingDown(c) && c.pending != []
    ensures GoingDown(Popped(c))
  {
  }

  lemma HeadCalm(c: Conn, r1: Result, r2: Result)
    requires Calm(c) && c.calls.home == Idle && CanRun(c, r1, r2)
    ensures Calm(RunHead(c, r1, r2))
  {
    var d := Popped(c);
    PopGoesDown(c);
    match c.pending[0]
    case HandleWrite => FlushCounts(d, r1); hide Flush;
    case Deliver(data) => SendCounts(d, data, r1, r2); hide SendInLoop;
    case _ =>
  }

  /** A step in another thread queues no bytes, and does not add to the shutdowns. */
  lemma ElsewhereCounts(c: Conn, e: Event)
    requires GoingDown(c) && NoneComing(c) && Enabled(c, e)
    ensures var d := Elsewhere(c, e);
            && GoingDown(d) && NoneComing(d) && AllShuts(d) == AllShuts(c) && Ahead(d) == Ahead(c)
            && d.shutdowns == c.shutdowns && Messages(d.pending) == Messages(c.pending)
            && (InOrder(c.pending) ==> InOrder(d.pending))
  {
    ElsewhereInv(c, e);
    match e
    case SendQueued(data) => Pushed(c, Deliver(data));
    case ShutdownQueued =>
      MessagesAppend(c.pending, ShutdownLater);
      if InOrder(c.pending) { InOrderAppend(c.pending, ShutdownLater); }
    case CloseQueued => Pushed(c, ForceCloseInLoop);
    case _ => hide Inv;
    hide Messages, Shuts, InOrder;
  }

  lemma StepCalm(c: Conn, e: Event)
    requires Calm(c) && Enabled(c, e)
    ensures Calm(Apply(c, e))
  {
    StepInv(c, e);
    match e
    case Head(r1, r2) => HeadCalm(c, r1, r2); hide RunHead;
    case SendRuns(r1, r2) => SendCounts(WithHome(c, Idle), c.calls.home.data, r1, r2); hide SendInLoop;
    case ForceClosed => Pushed(c, ForceCloseInLoop);
    case Writable(r) => FlushCounts(c, r); hide Flush;
    case _ => ElsewhereCounts(c, e); hide Elsewhere;
  }

  lemma {:induction false} PlayCalm(c: Conn, es: seq<Event>)
    requires Calm(c) && Playable(c, es)
    ensures Play(c, es).shutdowns <= 1
    decreases |es|
  {
    if es != [] {
      StepCalm(c, es[0]);
      hide Calm, Apply, Enabled;
      PlayCalm(Apply(c, es[0]), es[1..]);
    }
  }

  lemma HeadSingle(c: Conn, r1: Result, r2: Result)
    requires Single(c) && c.calls.home == Idle && CanRun(c, r1, r2)
    ensures Single(RunHead(c, r1, r2))
  {
    var d := Popped(c);
    PopGoesDown(c);
    match c.pending[0]
    case HandleWrite => FlushCounts(d, r1); hide Flush;
    case Deliver(data) => SendCounts(d, data, r1, r2); hide SendInLoop;
    case _ =>
  }

  lemma StepSingle(c: Conn, e: Event)
    requires Single(c) && Enabled(c, e)
    ensures Single(Apply(c, e)) && !Loses(c, e)
  {
    StepInv(c, e);
    match e
    case Head(r1, r2) => HeadSingle(c, r1, r2); hide RunHead;
    case SendRuns(r1, r2) => SendCounts(WithHome(c, Idle), c.calls.home.data, r1, r2); hide SendInLoop;
    case ForceClosed => Pushed(c, ForceCloseInLoop);
    case Writable(r) => FlushCounts(c, r); hide Flush;
    case _ => ElsewhereCounts(c, e); hide Elsewhere;
  }

  lemma {:induction false} PlaySingle(c: Conn, es: seq<Event>)
    requires Single(c) && Playable(c, es)
    ensures !LosesIn(c, es)
    decreases |es|
  {
    if es != [] {
      StepSingle(c, es[0]);
      hide Single, Apply, Enabled, Loses;
      PlaySingle(Apply(c, es[0]), es[1..]);
    }
  }

  // ------------------------------------------------------------ what can happen

  lemma {:induction false} PlayOn(c: Conn, es: seq<Event>, fs: seq<Event>)
    requires Playable(c, es) && Playable(Play(c, es), fs)
    ensures Playable(c, es + fs) && Play(c, es + fs) == Play(Play(c, es), fs)
    ensures LosesIn(Play(c, es), fs) ==> LosesIn(c, es + fs)
    decreases |es|
  {
    if es == [] {
      assert es + fs == fs;
    } else {
      assert (es + fs)[1..] == es[1..] + fs;
      hide Apply, Enabled, Loses;
      PlayOn(Apply(c, es[0]), es[1..], fs);
    }
  }

  lemma PlayOne(c: Conn, e: Event)
    requires Enabled(c, e)
    ensures Playable(c, [e]) && Play(c, [e]) == Apply(c, e)
  {
    assert [e][1..] == [];
    hide Apply, Enabled;
  }

  const GONE := Result(-1, Broken)
  const LATER := Result(-1, WouldBlock)

  /** On the way down and not closed yet, and no close is queued. */
  predicate Half(c: Conn) { Inv(c) && c.state == Disconnecting && c.closes == 0 && ForceCloseInLoop !in c.pending }

  /** With the write side shut, a functor that is no shutdown leaves all as it is. */
  lemma HeadWhenShut(c: Conn)
    requires Half(c) && c.calls.home == Idle && c.shutdowns >= 1 && c.pending != []
    ensures Enabled(c, Head(GONE, GONE))
    ensures var d := Apply(c, Head(GONE, GONE));
            d == Popped(c).(shutdowns := c.shutdowns + (if c.pending[0] == ShutdownLater then 1 else 0)) && Half(d)
  {
    StepInv(c, Head(GONE, GONE));
    hide Flush;
  }

  /** A shutdown that is still queued shuts the write side once more. */
  lemma {:induction false} ReachSecond(c: Conn) returns (es: seq<Event>)
    requires Half(c) && c.calls.home == Idle && c.shutdowns >= 1 && ShutdownLater in c.pending
    ensures Playable(c, es) && Play(c, es).shutdowns > 1
    decreases |c.pending|
  {
    var e := Head(GONE, GONE);
    HeadWhenShut(c);
    var d := Apply(c, e);
    if c.pending[0] == ShutdownLater {
      es := [];
    } else {
      assert c.pending == [c.pending[0]] + c.pending[1..];
      es := ReachSecond(d);
    }
    hide Apply, Enabled, Half;
    assert ([e] + es)[1..] == es;
    es := [e] + es;
  }

  /** And a message that is still queued is lost. */
  lemma {:induction false} ReachLoss(c: Conn) returns (es: seq<Event>)
    requires Half(c) && c.calls.home == Idle && c.shutdowns >= 1 && Messages(c.pending) >= 1
    ensures Playable(c, es) && LosesIn(c, es)
    decreases |c.pending|
  {
    var e := Head(GONE, GONE);
    HeadWhenShut(c);
    var d := Apply(c, e);
    if c.pending[0].Deliver? && c.pending[0].data != "" {
      es := [e];
    } else {
      es := ReachLoss(d);
      hide Apply, Enabled, Half, Loses;
      assert ([e] + es)[1..] == es;
      es := [e] + es;
    }
  }

  /** The functors of interest are the same, up to messages. */
  predicate SameShuts(c: Conn, d: Conn) {
    && (ShutdownLater in d.pending <==> ShutdownLater in c.pending)
    && (ForceCloseInLoop in d.pending <==> ForceCloseInLoop in c.pending)
  }

  /** After it, the write side is shut, and nothing else is decided. */
  predicate FirstOf(c: Conn, d: Conn) {
    && Half(d) && d.shutdowns == 1 && d.calls == c.calls.(home := Idle) && SameShuts(c, d)
  }

  /** Draining the buffer shuts the write side. */
  lemma DrainShuts(c: Conn)
    requires Inv(c) && c.state == Disconnecting && c.closes == 0 && ForceCloseInLoop !in c.pending
    requires c.calls.home == Idle && c.shutdowns == 0 && c.output != ""
    ensures var r := Result(|c.output|, WouldBlock);
            && Enabled(c, Writable(r))
            && FirstOf(c, Flush(c, r)) && Messages(Flush(c, r).pending) == Messages(c.pending)
  {
    var r := Result(|c.output|, WouldBlock);
    FlushInv(c, r);
    QueueCompleteIs(c);
    assert c.output[r.n..] == "";
  }

  /** A message whose first write finds the socket full, and whose second one does
      not, is drained at once. */
  lemma SendDrains(c: Conn, data: string)
    requires Half(c) && c.calls.home == Idle && c.shutdowns == 0 && data != ""
    ensures var r2 := Result(|c.output| + |data|, WouldBlock);
            && CanSend(c, data, LATER, r2)
            && var d := SendInLoop(c, data, LATER, r2);
               FirstOf(c, d) && Messages(d.pending) == Messages(c.pending)
  {
    var r2 := Result(|c.output| + |data|, WouldBlock);
    assert Direct(c, data, LATER) == Some(0);
    var a := c.(wire := c.wire + data[..0], accepted := c.accepted + data);
    var b := Buffered(a, data[0..]);
    BufferedInv(c, data, 0);
    BufferedCounts(a, data[0..]);
    BufferedKeeps(a, data[0..]);
    assert b.output == c.output + data;
    DrainShuts(b);
    hide Flush, Buffered;
    assert SendInLoop(c, data, LATER, r2) == Flush(b, r2);
  }

  lemma BufferedKeeps(c: Conn, rest: string)
    ensures SameShuts(c, Buffered(c, rest))
  {
  }

  lemma SendNothing(c: Conn)
    requires CanSend(c, "", LATER, LATER) && c.state == Disconnecting
    ensures SendInLoop(c, "", LATER, LATER) == c
  {
    assert c.wire + "" == c.wire && c.accepted + "" == c.accepted;
  }

  lemma ShutdownEnds(c: Conn)
    requires Half(c) && c.shutdowns == 0 && c.calls.home == Shutting
    ensures var d := Apply(c, ShutdownRuns);
            if c.output == "" then FirstOf(c, d) && d.pending == c.pending else d == WithHome(c, Idle)
  {
    assert c == SetDown(c);
  }

  lemma NothingEnds(c: Conn)
    requires Half(c) && c.shutdowns == 0 && c.calls.home == Sending("")
    ensures Enabled(c, SendRuns(LATER, LATER)) && Apply(c, SendRuns(LATER, LATER)) == WithHome(c, Idle)
  {
    SendNothing(WithHome(c, Idle));
    hide SendInLoop;
  }

  lemma SendEnds(c: Conn)
    requires Half(c) && c.shutdowns == 0 && c.calls.home.Sending? && c.calls.home.data != ""
    ensures var e := SendRuns(LATER, Result(|c.output| + |c.calls.home.data|, WouldBlock));
            && Enabled(c, e) && FirstOf(c, Apply(c, e))
            && Messages(Apply(c, e).pending) == Messages(c.pending)
  {
    var i := WithHome(c, Idle);
    assert Half(i) && SameShuts(i, c);
    hide SendInLoop, Half, Messages;
    SendDrains(i, c.calls.home.data);
  }

  /** What the loop thread is in the middle of comes to its end. */
  lemma HomeEnds(c: Conn) returns (e: Event)
    requires Half(c) && c.shutdowns == 0 && c.calls.home != Idle
    ensures Enabled(c, e)
    ensures var d := Apply(c, e);
            || (d == WithHome(c, Idle) && (Busy(d) <==> Busy(c)))
            || (FirstOf(c, d) && Busy(c) && Messages(d.pending) == Messages(c.pending))
  {
    if c.calls.home == Shutting {
      e := ShutdownRuns;
      ShutdownEnds(c);
    } else if c.calls.home.data == "" {
      e := SendRuns(LATER, LATER);
      NothingEnds(c);
    } else {
      e := SendRuns(LATER, Result(|c.output| + |c.calls.home.data|, WouldBlock));
      SendEnds(c);
    }
    hide Apply, Half, FirstOf, Messages;
  }

  /** A functor that sends nothing only leaves the queue. */
  lemma IdleHead(c: Conn)
    requires Half(c) && c.calls.home == Idle && c.output == "" && c.shutdowns == 0
    requires c.pending != [] && c.pending[0] != ShutdownLater && (c.pending[0].Deliver? ==> c.pending[0].data == "")
    ensures Enabled(c, Head(LATER, LATER)) && Apply(c, Head(LATER, LATER)) == Popped(c) && Half(Popped(c))
  {
    SendNothing(Popped(c));
  }

  lemma MessageRuns(c: Conn)
    requires Half(c) && c.calls.home == Idle && c.shutdowns == 0 && c.output == ""
    requires c.pending != [] && c.pending[0].Deliver? && c.pending[0].data != ""
    ensures var e := Head(LATER, Result(|c.pending[0].data|, WouldBlock));
            && Enabled(c, e)
            && FirstOf(c, Apply(c, e)) && Messages(Apply(c, e).pending) == Messages(c.pending) - 1
  {
    SendDrains(Popped(c), c.pending[0].data);
    hide SendInLoop;
  }

  /** A step that shuts the write side, or leaves as much ahead. */
  lemma GoesOn(c: Conn) returns (e: Event)
    requires Half(c) && c.shutdowns == 0 && Ahead(c) >= 1 && ShutdownLater !in c.pending
    ensures Enabled(c, e)
    ensures var d := Apply(c, e);
            || (FirstOf(c, d) && Messages(d.pending) == Ahead(c) - 1)
            || (d == WithHome(c, Idle) != c && Half(d) && Ahead(d) == Ahead(c))
            || (c.calls.home == Idle && c.pending != [] && d == Popped(c) && Half(d) && Ahead(d) == Ahead(c))
  {
    if c.calls.home != Idle {
      e := HomeEnds(c);
      hide Apply, Enabled;
    } else if c.output != "" {
      e := Writable(Result(|c.output|, WouldBlock));
      DrainShuts(c);
      hide Flush;
    } else if c.pending[0].Deliver? && c.pending[0].data != "" {
      e := Head(LATER, Result(|c.pending[0].data|, WouldBlock));
      MessageRuns(c);
      hide Apply, Enabled;
    } else {
      e := Head(LATER, LATER);
      IdleHead(c);
      hide Apply, Enabled;
    }
  }

  /** With something ahead, the write side can be shut before any other thread goes
      on, and what was shut for it is no longer ahead. */
  lemma {:induction false} FirstShut(c: Conn) returns (es: seq<Event>)
    requires Half(c) && c.shutdowns == 0 && Ahead(c) >= 1 && ShutdownLater !in c.pending
    ensures Playable(c, es) && FirstOf(c, Play(c, es)) && Messages(Play(c, es).pending) == Ahead(c) - 1
    decreases c.calls.home != Idle, |c.pending|
  {
    hide Apply, Enabled, Ahead, Messages;
    var e := GoesOn(c);
    PlayOne(c, e);
    var d := Apply(c, e);
    if FirstOf(c, d) && Messages(d.pending) == Ahead(c) - 1 {
      es := [e];
    } else {
      assert c.pending != [] ==> c.pending == [c.pending[0]] + c.pending[1..];
      es := FirstShut(d);
      PlayOn(c, [e], es);
      es := [e] + es;
    }
  }

  /** With nothing ahead, the queued shutdown shuts the write side. */
  lemma {:induction false} QueuedShut(c: Conn) returns (es: seq<Event>)
    requires Half(c) && c.calls.home == Idle && c.shutdowns == 0 && Ahead(c) == 0 && ShutdownLater in c.pending
    ensures Playable(c, es)
    ensures var d := Play(c, es); Half(d) && d.shutdowns == 1 && d.calls == c.calls
    decreases |c.pending|
  {
    var e := Head(LATER, LATER);
    if c.pending[0] == ShutdownLater {
      StepInv(c, e);
      PlayOne(c, e);
      es := [e];
    } else {
      IdleHead(c);
      PlayOne(c, e);
      assert c.pending == [c.pending[0]] + c.pending[1..];
      es := QueuedShut(Popped(c));
      hide Apply, Enabled, Half;
      PlayOn(c, [e], es);
      es := [e] + es;
    }
  }

  lemma QueueShut(c: Conn)
    requires Half(c) && c.calls.shut > 0
    ensures Enabled(c, ShutdownQueued)
    ensures var d := Apply(c, ShutdownQueued);
            && Half(d) && ShutdownLater in d.pending && Ahead(d) == Ahead(c) && d.shutdowns == c.shutdowns
            && d.calls == c.calls.(shut := c.calls.shut - 1)
  {
    StepInv(c, ShutdownQueued);
    MessagesAppend(c.pending, ShutdownLater);
  }

  lemma QueueSend(c: Conn, data: string)
    requires Half(c) && data in c.calls.senders && data != ""
    ensures Enabled(c, SendQueued(data))
    ensures var d := Apply(c, SendQueued(data));
            && Half(d) && Messages(d.pending) >= 1 && Ahead(d) == Ahead(c) + 1 && d.shutdowns == c.shutdowns
            && (ShutdownLater in d.pending <==> ShutdownLater in c.pending)
            && d.calls == c.calls.(senders := d.calls.senders)
  {
    StepInv(c, SendQueued(data));
    MessagesAppend(c.pending, Deliver(data));
  }

  /** With nothing ahead, at most a message without bytes is being sent. */
  lemma IdleEnds(c: Conn) returns (es: seq<Event>)
    requires Half(c) && c.shutdowns == 0 && Ahead(c) == 0
    ensures Playable(c, es) && Play(c, es) == WithHome(c, Idle) && Half(WithHome(c, Idle))
    ensures Ahead(WithHome(c, Idle)) == 0
  {
    if c.calls.home == Idle {
      es := [];
    } else {
      var e := HomeEnds(c);
      PlayOne(c, e);
      es := [e];
      hide Apply, Enabled;
    }
  }

  /** After the state was set, the write side can be shut by what is ahead, or else
      by the functor. */
  lemma ShutFirst(c: Conn) returns (es: seq<Event>)
    requires Half(c) && c.shutdowns == 0 && ShutdownLater !in c.pending && c.calls.shut > 0
    ensures Playable(c, es)
    ensures var d := Play(c, es);
            && Half(d) && d.shutdowns == 1 && d.calls.home == Idle
            && d.calls.senders == c.calls.senders && d.calls.toShut == c.calls.toShut
            && (Ahead(c) >= 1 ==> d.calls.shut == c.calls.shut && Messages(d.pending) == Ahead(c) - 1)
  {
    if Ahead(c) >= 1 {
      es := FirstShut(c);
    } else {
      QueueShut(c);
      PlayOne(c, ShutdownQueued);
      var d := Apply(c, ShutdownQueued);
      hide Apply, Enabled;
      var fs := IdleEnds(d);
      var gs := QueuedShut(WithHome(d, Idle));
      PlayOn(d, fs, gs);
      PlayOn(c, [ShutdownQueued], fs + gs);
      es := [ShutdownQueued] + (fs + gs);
    }
    hide Half, Play, Playable;
  }

  /** A shutdown that comes after the first one shuts the write side again. */
  lemma ShutAgain(c: Conn) returns (es: seq<Event>)
    requires Half(c) && c.calls.home == Idle && c.shutdowns >= 1 && c.calls.shut > 0
    ensures Playable(c, es) && Play(c, es).shutdowns > 1
  {
    QueueShut(c);
    PlayOne(c, ShutdownQueued);
    var d := Apply(c, ShutdownQueued);
    hide Apply, Enabled, Half;
    es := ReachSecond(d);
    PlayOn(c, [ShutdownQueued], es);
    es := [ShutdownQueued] + es;
  }

  lemma SetAgain(c: Conn)
    requires Half(c) && c.calls.toShut > 0
    ensures Enabled(c, ShutdownSet)
    ensures var d := Apply(c, ShutdownSet);
            Half(d) && d == c.(calls := d.calls) && d.calls.shut == c.calls.shut + 1 && d.calls.home == c.calls.home
  {
    StepInv(c, ShutdownSet);
  }

  /** With something ahead, or a sender still to come, or a second thread in
      `shutdown`, the write side can be shut twice. */
  lemma ShutTwice(c: Conn) returns (es: seq<Event>)
    requires Half(c) && c.shutdowns == 0 && ShutdownLater !in c.pending && c.calls.shut > 0
    requires Ahead(c) >= 1 || !NoneComing(c) || c.calls.toShut > 0
    ensures Playable(c, es) && Play(c, es).shutdowns > 1
    decreases Ahead(c) == 0
  {
    if Ahead(c) == 0 && !NoneComing(c) {
      var data :| data in c.calls.senders && data != "";
      QueueSend(c, data);
      PlayOne(c, SendQueued(data));
      var d := Apply(c, SendQueued(data));
      hide Apply, Enabled, Half;
      es := ShutTwice(d);
      PlayOn(c, [SendQueued(data)], es);
      es := [SendQueued(data)] + es;
    } else {
      var fs := ShutFirst(c);
      var d := Play(c, fs);
      if Ahead(c) >= 1 {
        es := ShutAgain(d);
      } else {
        SetAgain(d);
        PlayOne(d, ShutdownSet);
        var gs := ShutAgain(Apply(d, ShutdownSet));
        PlayOn(d, [ShutdownSet], gs);
        es := [ShutdownSet] + gs;
      }
      hide Apply, Enabled, Half, Play, Playable;
      PlayOn(c, fs, es);
      es := fs + es;
    }
  }

  /** With two things ahead, or a sender still to come, a message can be lost. */
  lemma LosesOne(c: Conn) returns (es: seq<Event>)
    requires Half(c) && c.shutdowns == 0 && ShutdownLater !in c.pending && c.calls.shut > 0
    requires Ahead(c) >= 2 || !NoneComing(c)
    ensures Playable(c, es) && LosesIn(c, es)
  {
    var fs := ShutFirst(c);
    var d := Play(c, fs);
    if Ahead(c) >= 2 {
      es := ReachLoss(d);
    } else {
      var data :| data in c.calls.senders && data != "";
      QueueSend(d, data);
      PlayOne(d, SendQueued(data));
      var gs := ReachLoss(Apply(d, SendQueued(data)));
      PlayOn(d, [SendQueued(data)], gs);
      es := [SendQueued(data)] + gs;
    }
    hide Apply, Enabled, Half, Play, Playable, LosesIn;
    PlayOn(c, fs, es);
    es := fs + es;
  }

  // ----------------------------------------------------------- the exact conditions

  ghost predicate AlwaysShutOnce(c: Conn) {
    forall es :: Playable(c, es) ==> Play(c, es).shutdowns <= 1
  }

  ghost predicate NeverLoses(c: Conn) {
    forall es :: Playable(c, es) ==> !LosesIn(c, es)
  }

  /** Right after the other thread has set the state. */
  lemma AfterSet(c: Conn)
    requires Inv(c) && c.state == Connected && c.calls.toShut > 0
    ensures Enabled(c, ShutdownSet)
    ensures var d := Apply(c, ShutdownSet);
            && Half(d) && GoingDown(d) && d.shutdowns == 0 && Ahead(d) == Ahead(c)
            && Shuts(d.pending) == 0 && InOrder(d.pending) && ShutdownLater !in d.pending
            && d.calls == c.calls.(toShut := c.calls.toShut - 1, shut := 1)
  {
    StepInv(c, ShutdownSet);
    NoShuts(c.pending);
    hide Messages, Shuts, InOrder;
  }

  /** A thread that calls `shutdown` sets the state of a connected connection. From
      there on the write side is shut at most once, whatever happens, if and only if
      nothing is ahead of it: no bytes buffered, queued or being sent, no sender
      between its test and its push, and no other call of `shutdown`, in the loop
      thread or elsewhere, past its test. */
  lemma ShutOnceIff(c: Conn)
    requires Inv(c) && c.state == Connected && c.calls.toShut > 0
    ensures AlwaysShutOnce(Apply(c, ShutdownSet)) <==> Ahead(c) == 0 && NoneComing(c) && c.calls.toShut == 1
  {
    AfterSet(c);
    var d := Apply(c, ShutdownSet);
    if Ahead(c) == 0 && NoneComing(c) && c.calls.toShut == 1 {
      assert Calm(d);
      forall es | Playable(d, es) ensures Play(d, es).shutdowns <= 1 { PlayCalm(d, es); }
    } else {
      var es := ShutTwice(d);
    }
    hide Apply, GoingDown, Half, Playable, Play, Ahead, Shuts, InOrder;
  }

  /** And no message is lost to it, whatever happens, if and only if at most one
      thing is ahead of it, the buffer, one message, or what the loop thread is in
      the middle of, and no sender is between its test and its push. */
  lemma NothingLostIff(c: Conn)
    requires Inv(c) && c.state == Connected && c.calls.toShut > 0
    ensures NeverLoses(Apply(c, ShutdownSet)) <==> Ahead(c) <= 1 && NoneComing(c)
  {
    AfterSet(c);
    var d := Apply(c, ShutdownSet);
    if Ahead(c) <= 1 && NoneComing(c) {
      assert Single(d);
      forall es | Playable(d, es) ensures !LosesIn(d, es) { PlaySingle(d, es); }
    } else {
      var es := LosesOne(d);
    }
    hide Apply, GoingDown, Half, Playable, Play, Ahead, Shuts, InOrder, LosesIn;
  }

  /** For example, on a connection with nothing to send, and one sender between its
      test and its push. */
  lemma SenderBetween()
    ensures var c := NEW.(state := Connected, calls := NO_CALLS.(senders := multiset{"x"}, toShut := 1));
            Ahead(c) == 0 && Enabled(c, ShutdownSet)
            && !AlwaysShutOnce(Apply(c, ShutdownSet)) && !NeverLoses(Apply(c, ShutdownSet))
  {
    var c := NEW.(state := Connected, calls := NO_CALLS.(senders := multiset{"x"}, toShut := 1));
    assert "x" in c.calls.senders;
    ShutOnceIff(c);
    NothingLostIff(c);
    hide Apply, AlwaysShutOnce, NeverLoses;
  }
}
