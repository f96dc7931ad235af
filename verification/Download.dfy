/**
 A download: the response header is sent, and from then on the write-complete
 callback feeds the connection the file in chunks of 1 MB and finally shuts the
 write side. The range end of a request is only printed in the header; what is
 sent runs from the start position to the end of the file.
 */
module Download {
  import opened ConnectionModel
  import opened ConnectionWrites

  const CHUNK: nat := 1024 * 1024

  /** The connection with its `FileDownContext`. */
  datatype Pump = Pump(conn: Conn, file: string, position: nat, isComplete: bool)

  /** `readNextChunk` */
  function ChunkSize(p: Pump): nat
    requires p.position <= |p.file|
  {
    var remaining := |p.file| - p.position;
    if p.isComplete then 0 else if remaining < CHUNK then remaining else CHUNK
  }

  /** The write-complete callback. */
  function Complete(p: Pump, r1: Result, r2: Result): (q: Pump)
    requires p.position <= |p.file| && CanSend(p.conn, Chunk(p), r1, r2)
    ensures q.file == p.file && q.position <= |q.file|
  {
    if ChunkSize(p) == 0 then p.(isComplete := true, conn := Shutdown(p.conn))
    else p.(position := p.position + ChunkSize(p), conn := Send(p.conn, Chunk(p), r1, r2))
  }

  function Chunk(p: Pump): string
    requires p.position <= |p.file|
  {
    p.file[p.position..p.position + ChunkSize(p)]
  }

  /** The socket becomes writable, or the loop runs the functor at the head. */
  datatype Event = Poll(r: Result) | Functor(r1: Result, r2: Result)

  /** A write that took some bytes or would have blocked. */
  predicate NoFault(r: Result) { r.n > 0 || r.errno != Broken }

  predicate Ready(p: Pump, e: Event)
    requires p.position <= |p.file|
  {
    match e
    case Poll(r) => NoFault(r) && Enabled(p.conn, Writable(r))
    case Functor(r1, r2) =>
      && NoFault(r1) && NoFault(r2) && p.conn.pending != [] && p.conn.calls.home == Idle
      && (if p.conn.pending[0] == WriteComplete then CanSend(p.conn, Chunk(p), r1, r2)
          else Enabled(p.conn, Head(r1, r2)))
  }

  function Next(p: Pump, e: Event): (q: Pump)
    requires p.position <= |p.file| && Ready(p, e)
    ensures q.file == p.file && q.position <= |q.file|
  {
    hide Flush, Send, Shutdown, RunHead, CanSend;
    match e
    case Poll(r) => p.(conn := Flush(p.conn, r))
    case Functor(r1, r2) =>
      if p.conn.pending[0] == WriteComplete
      then Complete(p.(conn := p.conn.(pending := p.conn.pending[1..])), r1, r2)
      else p.(conn := RunHead(p.conn, r1, r2))
  }

  /** `handleDownload` and the response it returns: the file opened and sought to
      `start`, the callback installed, the header sent. */
  function Start(c: Conn, file: string, start: nat, header: string, r1: Result, r2: Result): Pump
    requires start <= |file| && CanSend(c.(onComplete := true), header, r1, r2)
  {
    Pump(Send(c.(onComplete := true), header, r1, r2), file, start, false)
  }

  /** Functors of the connection's own output; no close, and nothing from other
      threads. */
  predicate Quiet(fs: seq<ConnectionModel.Functor>) {
    forall f :: f in fs ==> f.WriteComplete? || f.HandleWrite? || f.HighWater?
  }

  predicate Sending(p: Pump) {
    && p.conn.state == Connected && p.conn.output != "" && p.conn.writing
    && Completes(p.conn.pending) == 0 && p.conn.shutdowns == 0
  }

  predicate Waiting(p: Pump) {
    && p.conn.state == Connected && p.conn.output == "" && !p.conn.writing
    && Completes(p.conn.pending) == 1 && p.conn.shutdowns == 0
  }

  predicate Finished(p: Pump) {
    && p.conn.state == Disconnecting && p.conn.output == "" && !p.conn.writing && Completes(p.conn.pending) == 0
    && p.conn.shutdowns == 1 && p.position == |p.file|
  }

  /** What a download keeps: it is in exactly one of three situations, and the
      accepted bytes are what was there before (`sofar`, with the header) and the
      file up to the read position. */
  predicate Pumping(p: Pump, sofar: string, start: nat) {
    && Inv(p.conn) && p.conn.calls == NO_CALLS && p.conn.onComplete && Quiet(p.conn.pending)
    && start <= p.position <= |p.file|
    && (p.isComplete ==> Finished(p))
    && p.conn.accepted == sofar + p.file[start..p.position]
    && (Sending(p) || Waiting(p) || Finished(p))
  }

  /** Exactly one of the three. */
  predicate OneSituation(p: Pump) {
    if Sending(p) then !Waiting(p) && !Finished(p) else Waiting(p) != Finished(p)
  }

  lemma FlushPumps(c: Conn, r: Result)
    requires Inv(c) && c.calls == NO_CALLS && c.state == Connected && c.writing && c.onComplete && c.shutdowns == 0
    requires NoFault(r) && r.n <= |c.output| && Completes(c.pending) == 0 && Quiet(c.pending)
    ensures var d := Flush(c, r);
            && Inv(d) && d.calls == NO_CALLS && d.state == Connected && d.onComplete && d.shutdowns == 0
            && d.accepted == c.accepted
            && Quiet(d.pending)
            && Completes(d.pending) == (if d.output == "" then 1 else 0)
            && (d.writing <==> d.output != "")
            && |d.output| == |c.output| - (if r.n > 0 then r.n else 0)
  {
    FlushInv(c, r);
    OneMore(c.pending, WriteComplete);
    OneMore(c.pending, HandleWrite);
  }

  lemma SendPumps(c: Conn, data: string, r1: Result, r2: Result)
    requires Inv(c) && c.calls == NO_CALLS && c.state == Connected && c.onComplete && c.shutdowns == 0 && data != ""
    requires CanSend(c, data, r1, r2) && NoFault(r1) && NoFault(r2)
    requires Completes(c.pending) == 0 && Quiet(c.pending)
    ensures var d := Send(c, data, r1, r2);
            && Inv(d) && d.calls == NO_CALLS && d.state == Connected && d.onComplete && d.shutdowns == 0
            && d.accepted == c.accepted + data
            && Quiet(d.pending)
            && Completes(d.pending) == (if d.output == "" then 1 else 0)
            && (d.writing <==> d.output != "")
            && |d.output| <= |c.output| + |data|
  {
    SendInv(c, data, r1, r2);
    var k := Direct(c, data, r1).value;
    OneMore(c.pending, WriteComplete);
    if k < |data| {
      BufferPumps(c, data, k);
      FlushPumps(Buffered(c.(wire := c.wire + data[..k], accepted := c.accepted + data), data[k..]), r2);
      hide Flush, Buffered, Inv, Quiet, Completes;
    }
  }

  /** The rest of a message in the buffer. */
  lemma BufferPumps(c: Conn, data: string, k: nat)
    requires Inv(c) && c.calls == NO_CALLS && c.state == Connected && c.onComplete && c.shutdowns == 0
    requires Completes(c.pending) == 0 && Quiet(c.pending) && k < |data| && (c.output != "" ==> k == 0)
    ensures var b := Buffered(c.(wire := c.wire + data[..k], accepted := c.accepted + data), data[k..]);
            && Inv(b) && b.calls == NO_CALLS && b.state == Connected && b.writing && b.onComplete && b.shutdowns == 0
            && Completes(b.pending) == 0 && Quiet(b.pending)
            && b.output == c.output + data[k..] && b.accepted == c.accepted + data
  {
    OneMore(c.pending, HighWater(|c.output| + |data[k..]|));
    BufferedInv(c, data, k);
    hide Inv;
  }

  lemma ChunkAppended(file: string, sofar: string, start: nat, at: nat, size: nat)
    requires start <= at && at + size <= |file|
    ensures sofar + file[start..at] + file[at..at + size] == sofar + file[start..at + size]
  {
    assert file[start..at] + file[at..at + size] == file[start..at + size];
    assert sofar + file[start..at] + file[at..at + size] == sofar + (file[start..at] + file[at..at + size]);
  }

  lemma PollPumps(p: Pump, r: Result, sofar: string, start: nat)
    requires Pumping(p, sofar, start) && Ready(p, Poll(r))
    ensures var q := Next(p, Poll(r));
            && Pumping(q, sofar, start)
            && |q.conn.output| == |p.conn.output| - (if r.n > 0 then r.n else 0)
            && q.conn.shutdowns == p.conn.shutdowns && q.position == p.position
            && (r.n <= 0 ==> q == p)
  {
    FlushPumps(p.conn, r);
    if r.n > 0 { hide Flush; }
  }

  /** The callback with the file used up: the write side is shut. */
  lemma LastCallback(p: Pump, e: Event, sofar: string, start: nat)
    requires Pumping(p, sofar, start) && Ready(p, e) && e.Functor? && p.conn.pending[0] == WriteComplete
    requires ChunkSize(p) == 0
    ensures var q := Next(p, e);
            && Pumping(q, sofar, start) && Finished(q) && p.conn.shutdowns == 0
            && q.conn.output == p.conn.output && q.position == p.position
  {
    hide Send, Flush;
    assert Waiting(p);
  }

  lemma ChunkCallback(p: Pump, e: Event, sofar: string, start: nat)
    requires Pumping(p, sofar, start) && Ready(p, e) && e.Functor? && p.conn.pending[0] == WriteComplete
    requires ChunkSize(p) > 0
    ensures var q := Next(p, e);
            && Pumping(q, sofar, start) && q.conn.shutdowns == 0 == p.conn.shutdowns
            && q.position == p.position + ChunkSize(p) && |q.conn.output| <= ChunkSize(p)
  {
    hide Send, Flush;
    assert Waiting(p);
    var c := p.conn.(pending := p.conn.pending[1..]);
    ChunkAppended(p.file, sofar, start, p.position, ChunkSize(p));
    SendPumps(c, Chunk(p), e.r1, e.r2);
  }

  /** A queued write, or a high-water callback. */
  lemma OtherFunctor(p: Pump, e: Event, sofar: string, start: nat)
    requires Pumping(p, sofar, start) && Ready(p, e) && e.Functor? && p.conn.pending[0] != WriteComplete
    ensures var q := Next(p, e);
            && Pumping(q, sofar, start)
            && q.conn.shutdowns == p.conn.shutdowns && q.position == p.position
            && (|q.conn.output| < |p.conn.output| || q == p.(conn := p.conn.(pending := p.conn.pending[1..])))
  {
    var c := p.conn.(pending := p.conn.pending[1..]);
    if p.conn.pending[0] == HandleWrite && c.writing {
      FlushPumps(c, e.r1);
      if e.r1.n > 0 { hide Flush; }
    }
    hide Send;
  }

  /** Every event keeps it. */
  lemma NextPumps(p: Pump, e: Event, sofar: string, start: nat)
    requires Pumping(p, sofar, start) && Ready(p, e)
    ensures Pumping(Next(p, e), sofar, start)
  {
    if e.Poll? {
      PollPumps(p, e.r, sofar, start);
    } else if p.conn.pending[0] != WriteComplete {
      OtherFunctor(p, e, sofar, start);
    } else if ChunkSize(p) == 0 {
      LastCallback(p, e, sofar, start);
    } else {
      ChunkCallback(p, e, sofar, start);
    }
    hide Next, Pumping, Ready;
  }

  /** The header puts the pump to work, on any open connection whose earlier
      responses have no callback outstanding. */
  lemma StartPumps(c: Conn, file: string, start: nat, header: string, r1: Result, r2: Result)
    requires Inv(c) && c.calls == NO_CALLS && c.state == Connected && c.shutdowns == 0
    requires Completes(c.pending) == 0 && Quiet(c.pending)
    requires start <= |file| && header != "" && NoFault(r1) && NoFault(r2)
    requires CanSend(c.(onComplete := true), header, r1, r2)
    ensures Pumping(Start(c, file, start, header, r1, r2), c.accepted + header, start)
  {
    SendPumps(c.(onComplete := true), header, r1, r2);
    hide Send;
    assert file[start..start] == "" && c.accepted + header + "" == c.accepted + header;
  }

  predicate Playable(p: Pump, es: seq<Event>)
    requires p.position <= |p.file|
    decreases |es|
  {
    es == [] || (Ready(p, es[0]) && Playable(Next(p, es[0]), es[1..]))
  }

  function Play(p: Pump, es: seq<Event>): Pump
    requires p.position <= |p.file| && Playable(p, es)
    decreases |es|
  {
    if es == [] then p else Play(Next(p, es[0]), es[1..])
  }

  lemma {:induction false} PlayPumps(p: Pump, es: seq<Event>, sofar: string, start: nat)
    requires Pumping(p, sofar, start) && Playable(p, es)
    ensures Pumping(Play(p, es), sofar, start) && Play(p, es).file == p.file
    ensures Effective(p, es) + Left(Play(p, es)) <= Left(p)
    decreases |es|
  {
    if es != [] {
      NextPumps(p, es[0], sofar, start);
      EffectOf(p, es[0], sofar, start);
      PlayPumps(Next(p, es[0]), es[1..], sofar, start);
    }
  }

  /** What is left to do: bytes not read count twice, buffered bytes once. */
  function Left(p: Pump): nat {
    2 * (if p.position <= |p.file| then |p.file| - p.position else 0) + |p.conn.output|
    + (if p.conn.shutdowns == 0 then 1 else 0)
  }

  predicate Moves(p: Pump, e: Event)
    requires p.position <= |p.file| && Ready(p, e)
  {
    Left(Next(p, e)) < Left(p)
  }

  function Effective(p: Pump, es: seq<Event>): nat
    requires p.position <= |p.file| && Playable(p, es)
    decreases |es|
  {
    if es == [] then 0 else (if Moves(p, es[0]) then 1 else 0) + Effective(Next(p, es[0]), es[1..])
  }

  /** An event that takes no byte to the wire and none from the file changes
      nothing but the queue of functors; every other one leaves less to do. */
  lemma EffectOf(p: Pump, e: Event, sofar: string, start: nat)
    requires Pumping(p, sofar, start) && Ready(p, e)
    ensures Moves(p, e) || Next(p, e) == p.(conn := p.conn.(pending := Next(p, e).conn.pending))
    ensures Left(Next(p, e)) <= Left(p)
    ensures e.Poll? && e.r.n > 0 ==> Moves(p, e)
    ensures e.Functor? && p.conn.pending[0] == WriteComplete ==> Moves(p, e)
  {
    if e.Poll? {
      PollPumps(p, e.r, sofar, start);
    } else if p.conn.pending[0] != WriteComplete {
      OtherFunctor(p, e, sofar, start);
    } else if ChunkSize(p) == 0 {
      LastCallback(p, e, sofar, start);
    } else {
      ChunkCallback(p, e, sofar, start);
    }
    hide Next, Pumping, Ready, Finished, Sending, Waiting;
  }

  /** What the wire carries in each situation. */
  lemma OnTheWire(p: Pump, sofar: string, start: nat)
    requires Pumping(p, sofar, start)
    ensures start <= |p.file| && OneSituation(p)
    ensures p.conn.wire <= sofar + p.file[start..]
    ensures p.conn.shutdowns == 1 <==> Finished(p)
    ensures Finished(p) ==> p.conn.wire == sofar + p.file[start..]
  {
    assert p.conn.wire + p.conn.output == sofar + p.file[start..p.position];
    assert p.file[start..] == p.file[start..p.position] + p.file[p.position..];
    assert sofar + p.file[start..] == p.conn.wire + p.conn.output + p.file[p.position..];
    if Finished(p) {
      assert p.conn.wire + "" == p.conn.wire && p.file[start..|p.file|] == p.file[start..];
    }
  }

  /** The whole download: whatever the writes do short of failing, the pump stays
      in one of the three situations, makes at most `Left` effective steps, and
      once the write side is shut, once, the wire carries the header and the file
      from `start` to its end. */
  lemma WholeFile(c: Conn, file: string, start: nat, header: string, r1: Result, r2: Result, es: seq<Event>)
    requires Inv(c) && c.calls == NO_CALLS && c.state == Connected && c.shutdowns == 0
    requires Completes(c.pending) == 0 && Quiet(c.pending)
    requires start <= |file| && header != "" && NoFault(r1) && NoFault(r2)
    requires CanSend(c.(onComplete := true), header, r1, r2)
    requires Playable(Start(c, file, start, header, r1, r2), es)
    ensures var p0 := Start(c, file, start, header, r1, r2);
            var p := Play(p0, es);
            && OneSituation(p)
            && Effective(p0, es) <= Left(p0)
            && p.conn.wire <= c.accepted + header + file[start..]
            && (p.conn.shutdowns == 1 <==> Finished(p))
            && (Finished(p) ==> p.conn.wire == c.accepted + header + file[start..])
  {
    var p0 := Start(c, file, start, header, r1, r2);
    StartPumps(c, file, start, header, r1, r2);
    hide Start, Pumping, Inv, CanSend, Playable, Play, Sending, Waiting, Finished;
    PlayPumps(p0, es, c.accepted + header, start);
    OnTheWire(Play(p0, es), c.accepted + header, start);
  }

  /** Until it has finished, the pump is never stuck: bytes can be written when
      the socket takes one, or the callback comes after the functors before it. */
  lemma {:induction false} NeverStuck(p: Pump, sofar: string, start: nat) returns (es: seq<Event>)
    requires Pumping(p, sofar, start) && !Finished(p)
    ensures Playable(p, es) && Effective(p, es) > 0
    decreases |p.conn.pending|
  {
    var r := Result(0, WouldBlock);
    if Sending(p) {
      es := [Poll(Result(1, WouldBlock))];
      EffectOf(p, es[0], sofar, start);
      NextPumps(p, es[0], sofar, start);
    } else {
      var e := Functor(r, r);
      assert p.conn.pending != [];
      assert Ready(p, e);
      NextPumps(p, e, sofar, start);
      EffectOf(p, e, sofar, start);
      if p.conn.pending[0] == WriteComplete {
        es := [e];
      } else {
        var rest := NeverStuck(Next(p, e), sofar, start);
        es := [e] + rest;
        assert es[1..] == rest;
      }
    }
  }
}
