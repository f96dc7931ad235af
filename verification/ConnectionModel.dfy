/**
 The output side and the lifecycle of a connection as a state machine. What
 `write` returns is up to the environment. The connection lives in its loop
 thread, where functors run between two other steps. A call in another thread
 tests the state, sets it, and queues a functor, and anything can happen between
 one of these and the next; so it can between the test of the state and the rest of
 a `send` or `shutdown` in the loop thread.
 */
module ConnectionModel {
  import opened Options

  datatype State = Connecting | Connected | Disconnecting | Disconnected

  /** errno as the code tells it apart: would block, the peer is gone (EPIPE,
      ECONNRESET), anything else. */
  datatype Errno = WouldBlock | Broken | OtherError

  /** What `write` returned. For `n == 0` the code looks at errno too, which then
      is left over from an earlier call. */
  datatype Result = Result(n: int, errno: Errno)

  datatype Functor =
    | WriteComplete
    | HandleWrite
    | HighWater(size: nat)
    | ForceCloseInLoop
    | Deliver(data: string)      // sendInLoop, for a send in another thread
    | ShutdownLater              // shutdownInLoop, for a shutdown in another thread

  /** What the loop thread is in the middle of, its test of the state passed. */
  datatype Home = Idle | Sending(data: string) | Shutting

  /** The threads in the middle of a call: senders that have tested the state and
      not queued their message, and threads in `shutdown` and in `forceClose`
      that have tested the state and not set it, or have set it and not queued
      their functor. */
  datatype Calls = Calls(
    senders: multiset<string>, toShut: nat, shut: nat, toClose: nat, closing: nat, home: Home)

  const NO_CALLS := Calls(multiset{}, 0, 0, 0, 0, Idle)

  datatype Conn = Conn(
    state: State,
    writing: bool,               // the channel asks for write events
    output: string,              // outputBuffer_
    pending: seq<Functor>,       // queued to the loop by this connection
    onComplete: bool,            // writeCompleteCallback_ is set
    highWater: Option<nat>,      // highWaterMark_, when its callback is set
    calls: Calls,                // who is in the middle of what
    // what has happened so far
    wire: string,                // bytes the kernel took
    accepted: string,            // bytes of the messages that were not given up
    shutdowns: nat,              // calls of shutdown(SHUT_WR)
    closes: nat)                 // calls of handleClose

  const NEW := Conn(Connecting, false, "", [], false, None, NO_CALLS, "", "", 0, 0)

  // ------------------------------------------------------------------- the actions

  function Queue(c: Conn, f: Functor): Conn { c.(pending := c.pending + [f]) }

  function QueueComplete(c: Conn): Conn { if c.onComplete then Queue(c, WriteComplete) else c }

  /** `handleClose` */
  function Close(c: Conn): Conn { c.(state := Disconnected, writing := false, closes := c.closes + 1) }

  predicate Open(c: Conn) { c.state in {Connected, Disconnecting} }

  function ShutdownInLoop(c: Conn): Conn {
    if c.writing then c else c.(shutdowns := c.shutdowns + 1)
  }

  /** `handleWrite` */
  function Flush(c: Conn, r: Result): Conn
    requires c.writing ==> r.n <= |c.output|
  {
    if !c.writing then c
    else if r.n > 0 then
      var d := c.(wire := c.wire + c.output[..r.n], output := c.output[r.n..]);
      if d.output == "" then
        var e := QueueComplete(d.(writing := false));
        if e.state == Disconnecting then ShutdownInLoop(e) else e
      else Queue(d, HandleWrite)
    else if r.errno == Broken then Close(c)
    else c
  }

  /** The direct attempt of `sendInLoop`: how much of the message is on the wire,
      or `None` when the peer is gone and the message is given up. */
  function Direct(c: Conn, data: string, r: Result): (w: Option<nat>)
    requires r.n <= |data|
    ensures w.Some? ==> w.value <= |data|
  {
    if c.writing || c.output != "" then Some(0)
    else if r.n >= 0 then Some(r.n)
    else if r.errno == Broken then None
    else Some(0)
  }

  function Buffered(c: Conn, rest: string): Conn {
    var c' := if c.highWater.Some? && |c.output| + |rest| >= c.highWater.value && |c.output| < c.highWater.value
              then Queue(c, HighWater(|c.output| + |rest|)) else c;
    c'.(output := c'.output + rest, writing := true)
  }

  /** What the two writes of a send can return; once the write side is shut, they
      find the pipe broken. */
  predicate CanSend(c: Conn, data: string, r1: Result, r2: Result) {
    && r1.n <= |data|
    && r2.n <= |c.output| + |data| - (if Direct(c, data, r1).Some? then Direct(c, data, r1).value else 0)
    && (c.shutdowns > 0 ==> r1.n < 0 && r1.errno == Broken && r2.n < 0 && r2.errno == Broken)
  }

  /** `sendInLoop`: one direct write, the rest into the buffer, and one more write
      from there. */
  function SendInLoop(c: Conn, data: string, r1: Result, r2: Result): Conn
    requires CanSend(c, data, r1, r2)
  {
    if c.state == Disconnected then c else
    var w := Direct(c, data, r1);
    if w.None? then c else
    var d := c.(wire := c.wire + data[..w.value], accepted := c.accepted + data);
    if w.value < |data| then Flush(Buffered(d, data[w.value..]), r2)
    else if !c.writing && c.output == "" && r1.n == |data| then QueueComplete(d)
    else d
  }

  /** `send` and `shutdown` in the loop thread, when no other thread comes between
      the test and the rest. */
  function Send(c: Conn, data: string, r1: Result, r2: Result): Conn
    requires CanSend(c, data, r1, r2)
  {
    if c.state == Connected then SendInLoop(c, data, r1, r2) else c
  }

  function Shutdown(c: Conn): Conn {
    if c.state == Connected then ShutdownInLoop(SetDown(c)) else c
  }

  /** `setState(kDisconnecting)`, whatever the state is by then. */
  function SetDown(c: Conn): Conn { c.(state := Disconnecting) }

  /** In the loop thread a `forceClose` is one step: no other thread can make its
      test fail, and none looks at what it sets but by a test of its own. */
  function ForceClose(c: Conn): Conn {
    if Open(c) then Queue(SetDown(c), ForceCloseInLoop) else c
  }

  /** What the writes of the functor at the head can return. */
  predicate CanRun(c: Conn, r1: Result, r2: Result) {
    && c.pending != []
    && (c.pending[0].Deliver? ==> CanSend(c, c.pending[0].data, r1, r2))
    && (c.pending[0].HandleWrite? && c.writing ==> r1.n <= |c.output|)
  }

  /** The functor at the head of the queue. A write-complete or high-water callback
      belongs to the user; what it calls are further events. */
  function RunHead(c: Conn, r1: Result, r2: Result): Conn
    requires CanRun(c, r1, r2)
  {
    var d := c.(pending := c.pending[1..]);
    match c.pending[0]
    case HandleWrite => Flush(d, r1)
    case ForceCloseInLoop => if Open(d) then Close(d) else d
    case Deliver(data) => SendInLoop(d, data, r1, r2)
    case ShutdownLater => ShutdownInLoop(d)
    case _ => d
  }

  // -------------------------------------------------------------- what they keep

  /** The connection asks for write events exactly while bytes are buffered, and
      while it is open with its write side shut none are. */
  predicate Watched(c: Conn) {
    && (Open(c) ==> (c.writing <==> c.output != ""))
    && (c.state == Disconnecting && c.shutdowns > 0 ==> c.output == "")
  }

  predicate Inv(c: Conn) {
    && c.wire + c.output == c.accepted
    && (c.writing ==> c.output != "" && c.shutdowns == 0 && Open(c))
    && (c.closes == 0 ==> Watched(c) && c.state != Disconnected)
    && (c.state == Connecting ==> c.output == "" && c.pending == [] && c.calls == NO_CALLS)
    && (c.state in {Connecting, Connected} ==>
          && c.shutdowns == c.closes == c.calls.shut == c.calls.closing == 0
          && ShutdownLater !in c.pending && ForceCloseInLoop !in c.pending)
    && (c.calls.home != Idle ==> Open(c) && c.shutdowns == c.closes == 0)
  }

  datatype Event =
    | Established
    // in the loop thread
    | SendCalled(data: string)
    | SendRuns(r1: Result, r2: Result)
    | ShutdownCalled
    | ShutdownRuns
    | ForceClosed
    | Writable(r: Result)        // the poller reports the socket writable
    | Head(r1: Result, r2: Result)   // the loop runs the functor at the head
    | PeerClosed                 // a read returned 0, or the peer hung up
    // in other threads
    | SendTested(data: string)
    | SendQueued(data: string)
    | ShutdownTested
    | ShutdownSet
    | ShutdownQueued
    | CloseTested
    | CloseSet
    | CloseQueued
    // in any thread
    | Callback(installed: bool)  // setWriteCompleteCallback

  /** Events of the loop thread that need it to be in the middle of nothing. After a
      close the channel asks for no events until something is written again. A
      test in another thread is an event when it succeeds. */
  predicate Enabled(c: Conn, e: Event) {
    match e
    case Established => c.state == Connecting
    case SendCalled(_) => c.calls.home == Idle
    case SendRuns(r1, r2) => c.calls.home.Sending? && CanSend(c, c.calls.home.data, r1, r2)
    case ShutdownCalled => c.calls.home == Idle
    case ShutdownRuns => c.calls.home == Shutting
    case ForceClosed => c.calls.home == Idle
    case Writable(r) => c.calls.home == Idle && c.writing && r.n <= |c.output|
    case Head(r1, r2) => c.calls.home == Idle && CanRun(c, r1, r2)
    case PeerClosed => c.calls.home == Idle && Open(c) && (c.closes == 0 || c.writing)
    case SendTested(_) => c.state == Connected
    case SendQueued(data) => data in c.calls.senders
    case ShutdownTested => c.state == Connected
    case ShutdownSet => c.calls.toShut > 0
    case ShutdownQueued => c.calls.shut > 0
    case CloseTested => Open(c)
    case CloseSet => c.calls.toClose > 0
    case CloseQueued => c.calls.closing > 0
    case Callback(_) => true
  }

  function WithHome(c: Conn, home: Home): Conn { c.(calls := c.calls.(home := home)) }

  /** A step of a call in another thread. */
  function Elsewhere(c: Conn, e: Event): Conn
    requires Enabled(c, e)
  {
    var k := c.calls;
    match e
    case SendTested(data) => c.(calls := k.(senders := k.senders + multiset{data}))
    case SendQueued(data) => Queue(c.(calls := k.(senders := k.senders - multiset{data})), Deliver(data))
    case ShutdownTested => c.(calls := k.(toShut := k.toShut + 1))
    case ShutdownSet => SetDown(c).(calls := k.(toShut := k.toShut - 1, shut := k.shut + 1))
    case ShutdownQueued => Queue(c.(calls := k.(shut := k.shut - 1)), ShutdownLater)
    case CloseTested => c.(calls := k.(toClose := k.toClose + 1))
    case CloseSet => SetDown(c).(calls := k.(toClose := k.toClose - 1, closing := k.closing + 1))
    case CloseQueued => Queue(c.(calls := k.(closing := k.closing - 1)), ForceCloseInLoop)
    case _ => c
  }

  function Apply(c: Conn, e: Event): Conn
    requires Enabled(c, e)
  {
    match e
    case Established => c.(state := Connected)
    case SendCalled(data) => if c.state == Connected then WithHome(c, Sending(data)) else c
    case SendRuns(r1, r2) => SendInLoop(WithHome(c, Idle), c.calls.home.data, r1, r2)
    case ShutdownCalled => if c.state == Connected then WithHome(c, Shutting) else c
    case ShutdownRuns => ShutdownInLoop(SetDown(WithHome(c, Idle)))
    case ForceClosed => ForceClose(c)
    case Writable(r) => Flush(c, r)
    case Head(r1, r2) => RunHead(c, r1, r2)
    case PeerClosed => Close(c)
    case Callback(installed) => c.(onComplete := installed)
    case _ => Elsewhere(c, e)
  }

  lemma FlushInv(c: Conn, r: Result)
    requires Inv(c) && c.calls.home == Idle && (c.writing ==> r.n <= |c.output|)
    ensures Inv(Flush(c, r)) && Flush(c, r).accepted == c.accepted
    ensures Watched(c) ==> Watched(Flush(c, r))
  {
    if c.writing && r.n > 0 {
      assert c.wire + c.output[..r.n] + c.output[r.n..] == c.wire + c.output;
    }
  }

  /** Bytes go to the wire directly only when none are buffered. */
  lemma InOrder(wire: string, output: string, data: string, k: nat)
    requires k <= |data| && (output != "" ==> k == 0)
    ensures (wire + data[..k]) + (output + data[k..]) == wire + output + data
  {
    var l, r := (wire + data[..k]) + (output + data[k..]), wire + output + data;
    assert |l| == |r|;
    assert forall i :: 0 <= i < |l| ==> l[i] == r[i];
  }

  lemma BufferedInv(c: Conn, data: string, k: nat)
    requires Inv(c) && Open(c) && c.shutdowns == 0
    requires k < |data| && (c.output != "" ==> k == 0)
    ensures var d := Buffered(c.(wire := c.wire + data[..k], accepted := c.accepted + data), data[k..]);
            Inv(d) && Watched(d) && d.calls == c.calls
  {
    InOrder(c.wire, c.output, data, k);
  }

  /** With the write side shut, bytes left from before keep a message from being
      given up, and the write closes the connection. */
  lemma SendWhenShut(c: Conn, data: string, r1: Result, r2: Result)
    requires Inv(c) && c.state == Disconnecting && c.calls.home == Idle && c.shutdowns > 0
    requires CanSend(c, data, r1, r2)
    ensures Inv(SendInLoop(c, data, r1, r2)) && (Watched(c) ==> SendInLoop(c, data, r1, r2) == c)
    ensures c.output == "" ==> SendInLoop(c, data, r1, r2) == c
  {
    if c.output != "" {
      InOrder(c.wire, c.output, data, 0);
      assert c.wire + data[..0] == c.wire && data[0..] == data && c.accepted + "" == c.accepted;
    }
  }

  /** A send in any state the connection can be in by then. */
  lemma SendInv(c: Conn, data: string, r1: Result, r2: Result)
    requires Inv(c) && c.state != Connecting && c.calls.home == Idle && CanSend(c, data, r1, r2)
    ensures Inv(SendInLoop(c, data, r1, r2))
    ensures Watched(c) ==> Watched(SendInLoop(c, data, r1, r2))
  {
    var w := Direct(c, data, r1);
    if c.state != Disconnected && w.Some? {
      if c.shutdowns > 0 {
        SendWhenShut(c, data, r1, r2);
        return;
      }
      var k := w.value;
      InOrder(c.wire, c.output, data, k);
      var d := c.(wire := c.wire + data[..k], accepted := c.accepted + data);
      if k < |data| {
        BufferedInv(c, data, k);
        FlushInv(Buffered(d, data[k..]), r2);
        hide Flush, Buffered;
      } else {
        assert data[k..] == "" && c.output + "" == c.output;
      }
    }
  }

  lemma HeadInv(c: Conn, r1: Result, r2: Result)
    requires Inv(c) && c.calls.home == Idle && CanRun(c, r1, r2)
    ensures Inv(RunHead(c, r1, r2)) && (Watched(c) ==> Watched(RunHead(c, r1, r2)))
  {
    var d := c.(pending := c.pending[1..]);
    match c.pending[0]
    case HandleWrite => FlushInv(d, r1);
    case Deliver(data) => SendInv(d, data, r1, r2); hide SendInLoop;
    case _ =>
  }

  lemma ElsewhereInv(c: Conn, e: Event)
    requires Inv(c) && Enabled(c, e)
    ensures Inv(Elsewhere(c, e)) && Elsewhere(c, e).accepted == c.accepted && Elsewhere(c, e).wire == c.wire
  {
  }

  lemma StepInv(c: Conn, e: Event)
    requires Inv(c) && Enabled(c, e)
    ensures Inv(Apply(c, e))
  {
    match e
    case SendRuns(r1, r2) => SendInv(WithHome(c, Idle), c.calls.home.data, r1, r2); hide SendInLoop;
    case Writable(r) => FlushInv(c, r);
    case Head(r1, r2) => HeadInv(c, r1, r2); hide RunHead;
    case _ => ElsewhereInv(c, e); hide Elsewhere;
  }

  /** A call in the loop thread that no other thread interrupts is one step. */
  lemma Uninterrupted(c: Conn, data: string, r1: Result, r2: Result)
    requires Inv(c) && c.calls.home == Idle && CanSend(c, data, r1, r2)
    ensures var d := Apply(c, SendCalled(data));
            if c.state == Connected
            then Enabled(d, SendRuns(r1, r2)) && Apply(d, SendRuns(r1, r2)) == Send(c, data, r1, r2)
            else d == Send(c, data, r1, r2)
    ensures var d := Apply(c, ShutdownCalled);
            if c.state == Connected then Enabled(d, ShutdownRuns) && Apply(d, ShutdownRuns) == Shutdown(c)
            else d == Shutdown(c)
  {
    hide SendInLoop;
    assert c.state == Connected ==> WithHome(WithHome(c, Sending(data)), Idle) == c;
  }

  predicate Playable(c: Conn, es: seq<Event>)
    decreases |es|
  {
    es == [] || (Enabled(c, es[0]) && Playable(Apply(c, es[0]), es[1..]))
  }

  function Play(c: Conn, es: seq<Event>): Conn
    requires Playable(c, es)
    decreases |es|
  {
    if es == [] then c else Play(Apply(c, es[0]), es[1..])
  }

  /** The message that an event hands to the connection, if it does: one sent in
      the loop thread, or one sent elsewhere whose functor runs; and not given up
      because the connection is closed or the peer gone. */
  function Message(c: Conn, e: Event): string
    requires Enabled(c, e)
  {
    match e
    case SendRuns(r1, _) => Taken(c, c.calls.home.data, r1)
    case Head(r1, _) => if c.pending[0].Deliver? then Taken(c, c.pending[0].data, r1) else ""
    case _ => ""
  }

  function Taken(c: Conn, data: string, r: Result): string
    requires r.n <= |data|
  {
    if c.state != Disconnected && Direct(c, data, r).Some? then data else ""
  }

  /** The messages accepted in a run, in order. */
  function Accepted(c: Conn, es: seq<Event>): string
    requires Playable(c, es)
    decreases |es|
  {
    if es == [] then "" else Message(c, es[0]) + Accepted(Apply(c, es[0]), es[1..])
  }

  lemma SendAccepted(c: Conn, data: string, r1: Result, r2: Result)
    requires CanSend(c, data, r1, r2)
    ensures SendInLoop(c, data, r1, r2).accepted == c.accepted + Taken(c, data, r1)
  {
    assert c.accepted + "" == c.accepted;
  }

  lemma StepAccepted(c: Conn, e: Event)
    requires Inv(c) && Enabled(c, e)
    ensures Apply(c, e).accepted == c.accepted + Message(c, e)
  {
    assert c.accepted + "" == c.accepted;
    match e
    case SendRuns(r1, r2) => SendAccepted(WithHome(c, Idle), c.calls.home.data, r1, r2); hide SendInLoop;
    case Head(r1, r2) =>
      if c.pending[0].Deliver? { SendAccepted(c.(pending := c.pending[1..]), c.pending[0].data, r1, r2); }
      hide SendInLoop;
    case _ => ElsewhereInv(c, e); hide Elsewhere;
  }

  lemma {:induction false} PlayKeeps(c: Conn, es: seq<Event>)
    requires Inv(c) && Playable(c, es)
    ensures Inv(Play(c, es)) && Play(c, es).accepted == c.accepted + Accepted(c, es)
    decreases |es|
  {
    hide Inv, Apply, Enabled, Message;
    if es == [] {
      assert c.accepted + "" == c.accepted;
    } else {
      StepInv(c, es[0]);
      StepAccepted(c, es[0]);
      PlayKeeps(Apply(c, es[0]), es[1..]);
      var a, b := Message(c, es[0]), Accepted(Apply(c, es[0]), es[1..]);
      assert c.accepted + a + b == c.accepted + (a + b);
    }
  }

  /** On every run, with calls in any thread: what is on the wire and what is
      buffered make up the accepted messages in order; write events are asked for
      only while bytes are buffered; and until the connection has been closed it
      asks for them exactly then, and with its write side shut every accepted byte
      is on the wire. */
  lemma OutputConserved(es: seq<Event>)
    requires Playable(NEW, es)
    ensures var c := Play(NEW, es);
            && c.wire + c.output == Accepted(NEW, es)
            && (c.writing ==> c.output != "" && Open(c))
            && (c.closes == 0 ==> (c.writing <==> c.output != ""))
            && (c.closes == 0 && c.shutdowns > 0 ==> c.wire == Accepted(NEW, es))
  {
    PlayKeeps(NEW, es);
    var c := Play(NEW, es);
    assert "" + Accepted(NEW, es) == Accepted(NEW, es);
    if c.closes == 0 && c.shutdowns > 0 { assert c.wire + "" == c.wire; }
    hide Play, Playable, Accepted;
  }

  // ------------------------------------------------- write events after a close

  /** Another thread has tested the state while the connection was open, and sets
      it after the connection was closed with bytes left. */
  predicate LateSet(c: Conn, e: Event) {
    e in {ShutdownSet, CloseSet} && c.state == Disconnected && c.output != ""
  }

  predicate LateSetIn(c: Conn, es: seq<Event>)
    requires Playable(c, es)
    decreases |es|
  {
    es != [] && (LateSet(c, es[0]) || LateSetIn(Apply(c, es[0]), es[1..]))
  }

  predicate WatchedThroughout(c: Conn, es: seq<Event>)
    requires Playable(c, es)
    decreases |es|
  {
    Watched(c) && (es == [] || WatchedThroughout(Apply(c, es[0]), es[1..]))
  }

  lemma StepWatched(c: Conn, e: Event)
    requires Inv(c) && Watched(c) && Enabled(c, e)
    ensures Watched(Apply(c, e)) <==> !LateSet(c, e)
  {
    match e
    case SendRuns(r1, r2) => SendInv(WithHome(c, Idle), c.calls.home.data, r1, r2); hide SendInLoop;
    case Writable(r) => FlushInv(c, r); hide Flush;
    case Head(r1, r2) => HeadInv(c, r1, r2); hide RunHead;
    case _ =>
  }

  lemma {:induction false} PlayWatched(c: Conn, es: seq<Event>)
    requires Inv(c) && Watched(c) && Playable(c, es)
    ensures WatchedThroughout(c, es) <==> !LateSetIn(c, es)
    decreases |es|
  {
    hide Inv, Apply, Enabled, LateSet, Watched;
    if es != [] {
      StepInv(c, es[0]);
      StepWatched(c, es[0]);
      if !LateSet(c, es[0]) { PlayWatched(Apply(c, es[0]), es[1..]); }
    }
  }

  /** Exactly when that holds of a closed connection too: at every point of a run
      the open connection asks for write events while bytes are buffered, and has
      none buffered with its write side shut, if and only if in that run no thread
      sets the state of a connection that was closed, with bytes left, after the
      test. */
  lemma WatchedIff(es: seq<Event>)
    requires Playable(NEW, es)
    ensures WatchedThroughout(NEW, es) <==> !LateSetIn(NEW, es)
  {
    PlayWatched(NEW, es);
  }

  // ---------------------------------------------------------- how often it is shut

  /** Nobody shut the connection from another thread. */
  predicate ShutAtHome(c: Conn) {
    && c.shutdowns <= 1 && ShutdownLater !in c.pending && c.calls.toShut == c.calls.shut == 0
    && (c.shutdowns == 1 ==> c.output == "")
  }

  lemma SendShutsOnce(c: Conn, data: string, r1: Result, r2: Result)
    requires Inv(c) && ShutAtHome(c) && c.state != Connecting && c.calls.home == Idle && CanSend(c, data, r1, r2)
    ensures ShutAtHome(SendInLoop(c, data, r1, r2))
  {
    var w := Direct(c, data, r1);
    if c.state != Disconnected && w.Some? && w.value < |data| {
      assert c.shutdowns == 0;
      var d := c.(wire := c.wire + data[..w.value], accepted := c.accepted + data);
      FlushShutsOnce(Buffered(d, data[w.value..]), r2);
    }
    hide Flush;
  }

  lemma FlushShutsOnce(c: Conn, r: Result)
    requires c.writing ==> r.n <= |c.output|
    requires ShutAtHome(c) && (c.writing ==> c.shutdowns == 0)
    ensures ShutAtHome(Flush(c, r))
  {
  }

  lemma StepShutsOnce(c: Conn, e: Event)
    requires Inv(c) && ShutAtHome(c) && Enabled(c, e) && !e.ShutdownTested?
    ensures ShutAtHome(Apply(c, e))
  {
    match e
    case SendRuns(r1, r2) => SendShutsOnce(WithHome(c, Idle), c.calls.home.data, r1, r2); hide SendInLoop;
    case Writable(r) => FlushShutsOnce(c, r);
    case Head(r1, r2) =>
      var d := c.(pending := c.pending[1..]);
      if c.pending[0].Deliver? { SendShutsOnce(d, c.pending[0].data, r1, r2); }
      if c.pending[0].HandleWrite? { FlushShutsOnce(d, r1); }
      hide SendInLoop, Flush;
    case _ =>
  }

  lemma {:induction false} PlayShutsOnce(c: Conn, es: seq<Event>)
    requires Inv(c) && ShutAtHome(c) && Playable(c, es) && ShutdownTested !in es
    ensures ShutAtHome(Play(c, es))
    decreases |es|
  {
    hide Inv, Apply, Enabled;
    if es != [] {
      StepInv(c, es[0]);
      StepShutsOnce(c, es[0]);
      PlayShutsOnce(Apply(c, es[0]), es[1..]);
    }
  }

  /** Unless another thread calls `shutdown`, the write side is shut at most once,
      and then, closed or not, every accepted byte is on the wire. */
  lemma ShutOnce(es: seq<Event>)
    requires Playable(NEW, es) && ShutdownTested !in es
    ensures var c := Play(NEW, es); c.shutdowns <= 1 && (c.shutdowns == 1 ==> c.wire == Accepted(NEW, es))
  {
    PlayShutsOnce(NEW, es);
    OutputConserved(es);
    assert Play(NEW, es).wire + "" == Play(NEW, es).wire;
    hide Play, Playable, Accepted;
  }

  // ------------------------------------------------------------- the wire only grows

  lemma FlushGrows(c: Conn, r: Result)
    requires c.writing ==> r.n <= |c.output|
    ensures c.wire <= Flush(c, r).wire
    ensures !c.writing ==> Flush(c, r) == c
  {
  }

  lemma SendGrows(c: Conn, data: string, r1: Result, r2: Result)
    requires Inv(c) && CanSend(c, data, r1, r2) && c.state != Connecting && c.calls.home == Idle
    ensures c.wire <= SendInLoop(c, data, r1, r2).wire
    ensures c.shutdowns > 0 ==> SendInLoop(c, data, r1, r2).wire == c.wire
  {
    var w := Direct(c, data, r1);
    if w.Some? && w.value < |data| {
      assert c.wire + "" == c.wire;
      if c.shutdowns == 0 {
        FlushGrows(Buffered(c.(wire := c.wire + data[..w.value], accepted := c.accepted + data), data[w.value..]), r2);
        hide Flush;
      }
    }
  }

  /** Nothing leaves the wire, and nothing reaches it after the write side is shut. */
  lemma WireOnlyGrows(c: Conn, e: Event)
    requires Inv(c) && Enabled(c, e)
    ensures c.wire <= Apply(c, e).wire
    ensures c.shutdowns > 0 ==> Apply(c, e).wire == c.wire
  {
    match e
    case SendRuns(r1, r2) => SendGrows(WithHome(c, Idle), c.calls.home.data, r1, r2); hide SendInLoop;
    case Writable(r) => FlushGrows(c, r);
    case Head(r1, r2) =>
      var d := c.(pending := c.pending[1..]);
      if c.pending[0].Deliver? { SendGrows(d, c.pending[0].data, r1, r2); }
      if c.pending[0].HandleWrite? { FlushGrows(d, r1); }
      hide SendInLoop, Flush;
    case _ => ElsewhereInv(c, e); hide Elsewhere;
  }
}
