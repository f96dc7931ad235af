/**
 What a send or a write does besides moving bytes: when a message is given up, when
 the connection is closed, and which callbacks are queued.
 */
module ConnectionWrites {
  import opened Options
  import opened ConnectionModel

  function Completes(fs: seq<Functor>): nat {
    if fs == [] then 0 else (if fs[0] == WriteComplete then 1 else 0) + Completes(fs[1..])
  }

  function Crossings(fs: seq<Functor>): nat {
    if fs == [] then 0 else (if fs[0].HighWater? then 1 else 0) + Crossings(fs[1..])
  }

  lemma {:induction false} OneMore(fs: seq<Functor>, f: Functor)
    ensures Completes(fs + [f]) == Completes(fs) + (if f == WriteComplete then 1 else 0)
    ensures Crossings(fs + [f]) == Crossings(fs) + (if f.HighWater? then 1 else 0)
  {
    if fs == [] {
      assert fs + [f] == [f];
    } else {
      assert (fs + [f])[1..] == fs[1..] + [f];
      OneMore(fs[1..], f);
    }
  }

  /** A failed write closes the connection if the peer is gone, and changes nothing
      otherwise; a write that takes bytes never closes it. */
  lemma FailedWrite(c: Conn, r: Result)
    requires Inv(c) && Enabled(c, Writable(r))
    ensures var d := Apply(c, Writable(r));
            && (r.n <= 0 && r.errno == Broken ==>
                  d == c.(state := Disconnected, writing := false, closes := c.closes + 1))
            && (r.n <= 0 && r.errno != Broken ==> d == c)
            && (r.n > 0 ==> d.state == c.state && d.wire == c.wire + c.output[..r.n] && d.output == c.output[r.n..])
  {
  }

  /** What the direct write of a message puts on the wire. */
  function Written(c: Conn, r: Result): nat {
    if c.output == "" && r.n >= 0 then r.n else 0
  }

  /** A message is given up if and only if the connection is closed, or nothing was
      buffered and the write found the peer gone; then nothing changes. */
  lemma GivenUpIff(c: Conn, data: string, r1: Result, r2: Result)
    requires Inv(c) && Watched(c) && c.state != Connecting && c.calls.home == Idle && CanSend(c, data, r1, r2)
    ensures var d := SendInLoop(c, data, r1, r2);
            if c.state == Disconnected || (c.output == "" && r1.n < 0 && r1.errno == Broken) then d == c
            else d.accepted == c.accepted + data
  {
    hide Flush;
    var w := Direct(c, data, r1);
    if c.state != Disconnected && w.Some? && w.value < |data| {
      if c.shutdowns == 0 {
        BufferedInv(c, data, w.value);
        FlushInv(Buffered(c.(wire := c.wire + data[..w.value], accepted := c.accepted + data), data[w.value..]), r2);
      }
    }
  }

  lemma FlushQueues(c: Conn, r: Result)
    requires c.writing && r.n <= |c.output| && c.output != ""
    ensures var d := Flush(c, r);
            && Crossings(d.pending) == Crossings(c.pending)
            && Completes(d.pending) == Completes(c.pending) + (if c.onComplete && d.output == "" then 1 else 0)
            && (forall f :: f in c.pending ==> f in d.pending)
  {
    OneMore(c.pending, WriteComplete);
    OneMore(c.pending, HandleWrite);
  }

  lemma BufferedQueues(c: Conn, rest: string)
    ensures var d, size := Buffered(c, rest), |c.output| + |rest|;
            var crosses := c.highWater.Some? && |c.output| < c.highWater.value <= size;
            && Completes(d.pending) == Completes(c.pending)
            && Crossings(d.pending) == Crossings(c.pending) + (if crosses then 1 else 0)
            && (crosses ==> HighWater(size) in d.pending)
            && d.onComplete == c.onComplete && d.writing && d.output == c.output + rest
  {
    OneMore(c.pending, HighWater(|c.output| + |rest|));
  }

  /** A message on an open connection, if it is not given up, has the high-water callback
      queued if and only if what its direct write left makes the buffer reach the mark
      from below, and with that size; and the write-complete callback, if one is set,
      if and only if no byte is left in the buffer. */
  lemma CallbacksIff(c: Conn, data: string, r1: Result, r2: Result)
    requires Inv(c) && c.state == Connected && c.calls.home == Idle && CanSend(c, data, r1, r2) && data != ""
    requires c.output != "" || r1.n >= 0 || r1.errno != Broken
    ensures var d, size := SendInLoop(c, data, r1, r2), |c.output| + |data| - Written(c, r1);
            var crosses := Written(c, r1) < |data| && c.highWater.Some? && |c.output| < c.highWater.value <= size;
            && Crossings(d.pending) == Crossings(c.pending) + (if crosses then 1 else 0)
            && (crosses ==> HighWater(size) in d.pending)
            && Completes(d.pending) == Completes(c.pending) + (if c.onComplete && d.output == "" then 1 else 0)
  {
    hide Flush, Buffered, Crossings, Completes;
    var k := Direct(c, data, r1).value;
    var d := c.(wire := c.wire + data[..k], accepted := c.accepted + data);
    if k < |data| {
      BufferedQueues(d, data[k..]);
      FlushQueues(Buffered(d, data[k..]), r2);
    } else {
      OneMore(c.pending, WriteComplete);
    }
  }
}
