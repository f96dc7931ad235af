/**
 The connection object and the objects of a download. What each `write` returns
 is a parameter; every method is proved to make the step of the state machine in
 ConnectionModel, respectively Download.
 */
module ConnectionObjects {
  import opened ConnectionModel
  import opened NetBuffer
  import Download
  import opened Options

  /** What has happened, for the state machine's account. */
  datatype Past = Past(wire: string, accepted: string, shutdowns: nat, closes: nat)

  class TcpConnection {
    var state: State
    var writing: bool
    const outputBuffer: Buffer
    var pending: seq<Functor>
    var onComplete: bool
    var highWater: Option<nat>
    ghost var calls: Calls
    ghost var past: Past

    ghost function View(): Conn
      requires outputBuffer.Valid()
      reads this, outputBuffer, outputBuffer.data
    {
      Conn(state, writing, outputBuffer.Contents(), pending, onComplete, highWater, calls,
           past.wire, past.accepted, past.shutdowns, past.closes)
    }

    ghost predicate Valid()
      reads this, outputBuffer, outputBuffer.data
    {
      outputBuffer.Valid() && Inv(View())
    }

    constructor ()
      ensures Valid() && View() == NEW && fresh(outputBuffer) && fresh(outputBuffer.data)
    {
      state, writing, pending, onComplete, highWater := Connecting, false, [], false, None;
      past, calls := Past("", "", 0, 0), NO_CALLS;
      outputBuffer := new Buffer();
    }

    method ConnectEstablished()
      requires Valid() && state == Connecting
      modifies this`state
      ensures Valid() && View() == Apply(old(View()), Established)
    {
      state := Connected;
    }

    method SetWriteCompleteCallback(installed: bool)
      requires Valid()
      modifies this`onComplete
      ensures Valid() && View() == Apply(old(View()), Callback(installed))
    {
      onComplete := installed;
    }

    method ShutdownInLoop()
      modifies this`past
      ensures past == if writing then old(past) else old(past).(shutdowns := old(past).shutdowns + 1)
    {
      if !writing {
        past := past.(shutdowns := past.shutdowns + 1);
      }
    }

    method Shutdown()
      requires Valid() && calls.home == Idle
      modifies this`state, this`past
      ensures Valid() && View() == ConnectionModel.Shutdown(old(View()))
    {
      if state == Connected {
        state := Disconnecting;
        ShutdownInLoop();
      }
    }

    // `send`, `shutdown` and `forceClose` in another thread, cut where something can
    // come in between

    /** The test in `send`. */
    method TestSend(data: string) returns (ok: bool)
      requires Valid()
      modifies this`calls
      ensures Valid() && ok == (state == Connected)
      ensures View() == if ok then Apply(old(View()), SendTested(data)) else old(View())
    {
      ok := state == Connected;
      if ok { calls := calls.(senders := calls.senders + multiset{data}); }
    }

    /** ... and its push. */
    method QueueSend(data: string)
      requires Valid() && data in calls.senders
      modifies this`pending, this`calls
      ensures Valid() && View() == Apply(old(View()), SendQueued(data))
    {
      calls := calls.(senders := calls.senders - multiset{data});
      pending := pending + [Deliver(data)];
    }

    method TestShutdown() returns (ok: bool)
      requires Valid()
      modifies this`calls
      ensures Valid() && ok == (state == Connected)
      ensures View() == if ok then Apply(old(View()), ShutdownTested) else old(View())
    {
      ok := state == Connected;
      if ok { calls := calls.(toShut := calls.toShut + 1); }
    }

    method SetShutdown()
      requires Valid() && calls.toShut > 0
      modifies this`state, this`calls
      ensures Valid() && View() == Apply(old(View()), ShutdownSet)
    {
      calls := calls.(toShut := calls.toShut - 1, shut := calls.shut + 1);
      state := Disconnecting;
    }

    method QueueShutdown()
      requires Valid() && calls.shut > 0
      modifies this`pending, this`calls
      ensures Valid() && View() == Apply(old(View()), ShutdownQueued)
    {
      calls := calls.(shut := calls.shut - 1);
      pending := pending + [ShutdownLater];
    }

    method TestForceClose() returns (ok: bool)
      requires Valid()
      modifies this`calls
      ensures Valid() && ok == Open(View())
      ensures View() == if ok then Apply(old(View()), CloseTested) else old(View())
    {
      ok := state == Connected || state == Disconnecting;
      if ok { calls := calls.(toClose := calls.toClose + 1); }
    }

    method SetForceClose()
      requires Valid() && calls.toClose > 0
      modifies this`state, this`calls
      ensures Valid() && View() == Apply(old(View()), CloseSet)
    {
      calls := calls.(toClose := calls.toClose - 1, closing := calls.closing + 1);
      state := Disconnecting;
    }

    method QueueForceClose()
      requires Valid() && calls.closing > 0
      modifies this`pending, this`calls
      ensures Valid() && View() == Apply(old(View()), CloseQueued)
    {
      calls := calls.(closing := calls.closing - 1);
      pending := pending + [ForceCloseInLoop];
    }

    /** In the loop thread. */
    method ForceClose()
      requires Valid() && calls.home == Idle
      modifies this`state, this`pending
      ensures Valid() && View() == Apply(old(View()), ForceClosed)
    {
      if state == Connected || state == Disconnecting {
        state := Disconnecting;
        pending := pending + [ForceCloseInLoop];
      }
    }

    method ForceCloseNow()
      modifies this`state, this`writing, this`past
      ensures if old(state) in {Connected, Disconnecting}
              then state == Disconnected && !writing && past == old(past).(closes := old(past).closes + 1)
              else state == old(state) && writing == old(writing) && past == old(past)
    {
      if state == Connected || state == Disconnecting {
        HandleClose();
      }
    }

    /** The callbacks it calls are the user's and the server's. */
    method HandleClose()
      requires state == Connected || state == Disconnecting
      modifies this`state, this`writing, this`past
      ensures state == Disconnected && !writing && past == old(past).(closes := old(past).closes + 1)
    {
      past := past.(closes := past.closes + 1);
      state := Disconnected;
      writing := false;
    }

    method QueueWriteComplete()
      modifies this`pending
      ensures pending == if onComplete then old(pending) + [WriteComplete] else old(pending)
    {
      if onComplete {
        pending := pending + [WriteComplete];
      }
    }

    method HandleWrite(r: Result)
      requires outputBuffer.Valid() && calls.home == Idle
      requires writing ==> r.n <= |outputBuffer.Contents()| && state in {Connected, Disconnecting}
      modifies this, outputBuffer
      ensures outputBuffer.Valid() && View() == Flush(old(View()), r) && outputBuffer.data == old(outputBuffer.data)
      ensures old(Valid()) ==> Valid()
    {
      ghost var c := View();
      if Inv(c) { FlushInv(c, r); }
      hide Inv;
      if writing {
        if r.n > 0 {
          TakeWritten(r.n);
          if outputBuffer.ReadableBytes() == 0 {
            AllWritten();
          } else {
            pending := pending + [Functor.HandleWrite];
          }
        } else if r.errno == Broken {
          HandleClose();
        }
      }
    }

    /** The bytes the kernel took leave the output buffer. */
    method TakeWritten(n: nat)
      requires outputBuffer.Valid() && n <= |outputBuffer.Contents()|
      modifies this`past, outputBuffer
      ensures outputBuffer.Valid() && outputBuffer.data == old(outputBuffer.data)
      ensures View() == old(View()).(wire := old(View()).wire + old(outputBuffer.Contents())[..n],
                                     output := old(outputBuffer.Contents())[n..])
    {
      past := past.(wire := past.wire + outputBuffer.Contents()[..n]);
      outputBuffer.Retrieve(n);
    }

    /** The output buffer is empty. */
    method AllWritten()
      requires outputBuffer.Valid()
      modifies this
      ensures outputBuffer.Valid()
      ensures var d := QueueComplete(old(View()).(writing := false));
              View() == if d.state == Disconnecting then ConnectionModel.ShutdownInLoop(d) else d
    {
      writing := false;
      QueueWriteComplete();
      if state == Disconnecting {
        ShutdownInLoop();
      }
    }

    method SendInLoop(data: string, r1: Result, r2: Result)
      requires Valid() && state != Connecting && calls.home == Idle && CanSend(View(), data, r1, r2)
      modifies this, outputBuffer, outputBuffer.data
      ensures Valid() && View() == ConnectionModel.SendInLoop(old(View()), data, r1, r2)
      ensures outputBuffer.data == old(outputBuffer.data) || fresh(outputBuffer.data)
    {
      ghost var c := View();
      SendInv(c, data, r1, r2);
      hide Inv, Flush;
      if state == Disconnected { return; }
      var nwrote, remaining, faultError := 0, |data|, false;
      if !writing && outputBuffer.ReadableBytes() == 0 {
        if r1.n >= 0 {
          nwrote := r1.n;
          remaining := |data| - nwrote;
          if remaining == 0 {
            QueueWriteComplete();
          }
        } else if r1.errno == Broken {
          faultError := true;
        }
      }
      if !faultError {
        past := past.(wire := past.wire + data[..nwrote], accepted := past.accepted + data);
        if remaining > 0 {
          StoreRest(data[nwrote..]);
          assert View() == Buffered(c.(wire := c.wire + data[..nwrote], accepted := c.accepted + data), data[nwrote..]);
          HandleWrite(r2);
        }
      }
    }

    /** What the direct write left goes to the output buffer. */
    method StoreRest(rest: string)
      requires outputBuffer.Valid() && rest != ""
      modifies this, outputBuffer, outputBuffer.data
      ensures outputBuffer.Valid() && View() == Buffered(old(View()), rest)
      ensures outputBuffer.data == old(outputBuffer.data) || fresh(outputBuffer.data)
    {
      var oldLen := outputBuffer.ReadableBytes();
      if highWater.Some? && oldLen + |rest| >= highWater.value && oldLen < highWater.value {
        pending := pending + [HighWater(oldLen + |rest|)];
      }
      outputBuffer.Append(rest);
      if !writing {
        writing := true;
      }
    }

    method Send(data: string, r1: Result, r2: Result)
      requires Valid() && calls.home == Idle && CanSend(View(), data, r1, r2)
      modifies this, outputBuffer, outputBuffer.data
      ensures Valid() && View() == ConnectionModel.Send(old(View()), data, r1, r2)
      ensures outputBuffer.data == old(outputBuffer.data) || fresh(outputBuffer.data)
    {
      if state == Connected {
        SendInLoop(data, r1, r2);
      }
    }

    /** The functor at the head of the loop's queue. */
    method RunFunctor(r1: Result, r2: Result) returns (f: Functor)
      requires Valid() && calls.home == Idle && CanRun(View(), r1, r2)
      modifies this, outputBuffer, outputBuffer.data
      ensures Valid() && View() == Apply(old(View()), Head(r1, r2)) && f == old(pending[0])
      ensures outputBuffer.data == old(outputBuffer.data) || fresh(outputBuffer.data)
    {
      ghost var c := View();
      hide ConnectionModel.SendInLoop, Flush;
      HeadInv(c, r1, r2);
      f := pending[0];
      PopFunctor();
      match f {
        case HandleWrite => HandleWrite(r1);
        case ForceCloseInLoop => ForceCloseNow();
        case Deliver(data) => SendInLoop(data, r1, r2);
        case ShutdownLater => ShutdownInLoop();
        case _ =>
      }
    }

    method PopFunctor()
      requires Valid() && pending != []
      modifies this`pending
      ensures Valid() && View() == old(View()).(pending := old(pending)[1..])
    {
      pending := pending[1..];
    }
  }

  class FileDownContext {
    const file: string
    var currentPosition: nat
    var isComplete: bool

    ghost predicate Valid()
      reads this
    {
      currentPosition <= |file|
    }

    /** What is still to be read from it. */
    ghost function Unread(): string
      requires Valid()
      reads this
    {
      if isComplete then "" else file[currentPosition..]
    }

    constructor (file: string)
      ensures Valid() && this.file == file && currentPosition == 0 && Unread() == file
    {
      this.file, currentPosition, isComplete := file, 0, false;
    }

    /** The file is read from there on, also when it had been read to its end. */
    method SeekTo(position: nat)
      requires position <= |file|
      modifies this
      ensures Valid() && currentPosition == position && Unread() == file[position..]
      ensures !isComplete
    {
      currentPosition := position;
      isComplete := false;
    }

    /** The chunks are the file from the position on, none empty, and the position
        is where the next one starts. */
    method ReadNextChunk() returns (more: bool, chunk: string)
      requires Valid()
      modifies this
      ensures Valid() && more == (chunk != "") && old(currentPosition) <= currentPosition
      ensures chunk + Unread() == old(Unread()) && (more <==> old(Unread()) != "")
      ensures chunk == file[old(currentPosition)..currentPosition]
      ensures |chunk| <= 1048576
      ensures more && currentPosition < |file| ==> |chunk| == 1048576
      ensures !more ==> isComplete && (old(isComplete) || currentPosition == |file|)
      ensures more ==> !isComplete && !old(isComplete)
    {
      if isComplete {
        return false, "";
      }
      var remainingBytes := |file| - currentPosition;
      var bytesToRead := if Download.CHUNK < remainingBytes then Download.CHUNK else remainingBytes;
      if bytesToRead == 0 {
        isComplete := true;
        return false, "";
      }
      chunk := file[currentPosition..currentPosition + bytesToRead];
      currentPosition := currentPosition + bytesToRead;
      more := true;
    }
  }

  ghost function PumpOf(conn: TcpConnection, down: FileDownContext): Download.Pump
    requires conn.outputBuffer.Valid()
    reads conn, conn.outputBuffer, conn.outputBuffer.data, down
  {
    Download.Pump(conn.View(), down.file, down.currentPosition, down.isComplete)
  }

  /** The write-complete callback that a download installs. */
  method OnWriteComplete(conn: TcpConnection, down: FileDownContext, r1: Result, r2: Result)
    requires conn.Valid() && down.Valid() && conn.calls.home == Idle
    requires CanSend(conn.View(), Download.Chunk(PumpOf(conn, down)), r1, r2)
    modifies conn, conn.outputBuffer, conn.outputBuffer.data, down
    ensures conn.Valid() && down.Valid()
    ensures PumpOf(conn, down) == Download.Complete(old(PumpOf(conn, down)), r1, r2)
  {
    hide Inv, Send, Shutdown;
    ghost var p := PumpOf(conn, down);
    var more, chunk := down.ReadNextChunk();
    assert down.currentPosition == p.position + Download.ChunkSize(p) && chunk == Download.Chunk(p);
    if more {
      conn.Send(chunk, r1, r2);
    } else {
      conn.Shutdown();
    }
  }

  /** The callback has no part in what a write can return. */
  lemma SameWrites(c: Conn, data: string, r1: Result, r2: Result)
    ensures CanSend(c.(onComplete := true), data, r1, r2) <==> CanSend(c, data, r1, r2)
    ensures Apply(c, Callback(true)) == c.(onComplete := true)
  {
  }

  /** `handleDownload` after its checks, and the header that `onRequest` sends. */
  method StartDownload(conn: TcpConnection, file: string, start: nat, header: string, r1: Result, r2: Result)
    returns (down: FileDownContext)
    requires conn.Valid() && conn.calls.home == Idle && start <= |file| && CanSend(conn.View(), header, r1, r2)
    modifies conn, conn.outputBuffer, conn.outputBuffer.data
    ensures conn.Valid() && down.Valid() && fresh(down)
    ensures PumpOf(conn, down) == Download.Start(old(conn.View()), file, start, header, r1, r2)
  {
    ghost var c := conn.View();
    SameWrites(c, header, r1, r2);
    hide Inv, Send, CanSend, Apply;
    down := new FileDownContext(file);
    down.SeekTo(start);
    conn.SetWriteCompleteCallback(true);
    conn.Send(header, r1, r2);
  }
}
