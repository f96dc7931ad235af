/**
 The asynchronous log's object: `Append` for the threads that log, and the loop of
 the writing thread as one method for each stretch between the points where other
 threads can come in.
 */
module LoggingObjects {
  import opened LoggingModel
  import opened Options

  /** The locals of `threadFunc`, and the log file. */
  datatype Writer = Writer(
    phase: Phase,
    newBuffer1: Option<Buffer>,
    newBuffer2: Option<Buffer>,
    buffersToWrite: seq<Buffer>,
    output: seq<Item>)

  /** What has happened, for the state machine's account. */
  datatype Past = Past(batches: seq<seq<Buffer>>, accepted: seq<string>)

  class AsyncLogging {
    const size: nat
    var currentBuffer: Buffer
    var nextBuffer: Option<Buffer>
    var buffers: seq<Buffer>
    var thread: Writer
    ghost var past: Past

    ghost function View(): Log
      reads this
    {
      Log(currentBuffer, nextBuffer, buffers, thread.phase, thread.newBuffer1, thread.newBuffer2,
          thread.buffersToWrite, thread.output, past.batches, past.accepted)
    }

    ghost predicate Valid()
      reads this
    {
      Inv(View()) && Fits(View(), size)
    }

    constructor (size: nat)
      requires size > 0
      ensures Valid() && View() == START && this.size == size
    {
      this.size := size;
      currentBuffer, nextBuffer, buffers := [], Some([]), [];
      thread := Writer(Ready, Some([]), Some([]), [], []);
      past := Past([], []);
      new;
      assert Inv(View());
    }

    /** `FixedBuffer::append` on the current buffer. */
    method PutLine(line: string)
      modifies this`currentBuffer
      ensures currentBuffer == Put(old(currentBuffer), line, size)
    {
      if size - Length(currentBuffer) > |line| {
        currentBuffer := currentBuffer + [line];
      }
    }

    method Append(line: string)
      requires Valid()
      modifies this
      ensures Valid() && View() == Apply(old(View()), Appended(line), size)
    {
      ghost var s := View();
      StepInv(s, Appended(line), size);
      StepFits(s, Appended(line), size);
      hide Inv, Fits;
      if size - Length(currentBuffer) > |line| {
        PutLine(line);
      } else {
        buffers := buffers + [currentBuffer];
        match nextBuffer {
          case Some(b) =>
            currentBuffer := b;
            nextBuffer := None;
          case None =>
            currentBuffer := [];
        }
        PutLine(line);
      }
      past := if |line| < size then past.(accepted := past.accepted + [line]) else past;
    }

    /** From the head of the loop to the wait, or through the swap. */
    method Enter() returns (waits: bool)
      requires Valid() && thread.phase == Ready
      modifies this
      ensures Valid() && View() == Apply(old(View()), Entered, size) && waits == old(buffers == [])
    {
      assert thread.newBuffer1 == Some([]) && thread.newBuffer2 == Some([]) && thread.buffersToWrite == [];
      waits := buffers == [];
      if waits {
        thread := thread.(phase := Waiting);
      } else {
        SwapBuffers();
      }
    }

    /** Out of the wait: by a notification, the timeout, or for no reason. */
    method Wake()
      requires Valid() && thread.phase == Waiting
      modifies this
      ensures Valid() && View() == Apply(old(View()), Woken, size)
    {
      SwapBuffers();
    }

    method SwapBuffers()
      requires Valid() && thread.phase in {Ready, Waiting}
      modifies this
      ensures Valid() && View() == Swap(old(View())) && thread.buffersToWrite != []
    {
      ghost var s := View();
      SwapInv(s);
      SwapFits(s, size);
      buffers := buffers + [currentBuffer];
      currentBuffer := thread.newBuffer1.value;
      thread := thread.(phase := Swapped, newBuffer1 := None, buffersToWrite := buffers);
      buffers := [];
      past := past.(batches := past.batches + [thread.buffersToWrite]);
      if nextBuffer.None? {
        nextBuffer := thread.newBuffer2;
        thread := thread.(newBuffer2 := None);
      }
      hide Inv, Fits;
      assert View() == Swap(s);
    }

    /** Everything taken goes to the file, or, with a backlog, a notice and the
        first two buffers. */
    method WriteBatch()
      requires Valid() && thread.phase == Swapped
      modifies this`thread
      ensures Valid() && View() == Apply(old(View()), Wrote, size)
    {
      ghost var s := View();
      WriteInv(s);
      var kept, output := thread.buffersToWrite, thread.output;
      if |kept| > BACKLOG {
        output := output + [Notice(|kept| - 2)];
        kept := kept[..2];
      }
      ghost var before := output;
      output := AppendAll(output, kept);
      thread := thread.(phase := Written, buffersToWrite := kept, output := output);
      OutputIs(s, before, output);
      hide Inv, Fits, Output;
      assert View() == WriteOut(s);
    }

    /** Two of the written buffers become the spare ones again. */
    method RecycleBuffers()
      requires Valid() && thread.phase == Written
      modifies this`thread
      ensures Valid() && View() == Apply(old(View()), Recycled, size)
    {
      var left := thread.buffersToWrite;
      if |left| > 2 {
        left := left[..2];
      }
      var new1, new2 := thread.newBuffer1, thread.newBuffer2;
      if new1.None? {
        assert left != [];
        left := left[..|left| - 1];
        new1 := Some([]);
      }
      if new2.None? {
        assert left != [];
        left := left[..|left| - 1];
        new2 := Some([]);
      }
      thread := thread.(phase := Ready, newBuffer1 := new1, newBuffer2 := new2, buffersToWrite := []);
    }
  }

  /** The loop over the buffers, each appended to the log file. */
  method AppendAll(output: seq<Item>, kept: seq<Buffer>) returns (r: seq<Item>)
    ensures r == output + Lines(Flat(kept))
  {
    hide Lines, Flat;
    r := output;
    NoLines(output);
    assert kept[..0] == [];
    for i := 0 to |kept|
      invariant r == output + Lines(Flat(kept[..i]))
    {
      assert kept[..i + 1] == kept[..i] + [kept[i]];
      LinesPush(output, kept[..i], kept[i]);
      r := r + Lines(kept[i]);
    }
    assert kept[..|kept|] == kept;
  }

  lemma NoLines(output: seq<Item>)
    ensures output + Lines(Flat([])) == output
  {
  }

  lemma LinesPush(output: seq<Item>, bs: seq<Buffer>, b: Buffer)
    ensures output + Lines(Flat(bs)) + Lines(b) == output + Lines(Flat(bs + [b]))
  {
    FlatPush(bs, b);
    assert Lines(Flat(bs) + b) == Lines(Flat(bs)) + Lines(b);
    hide Lines, Flat;
  }

  lemma OutputIs(s: Log, before: seq<Item>, output: seq<Item>)
    requires before == if |s.toWrite| > BACKLOG then s.file + [Notice(|s.toWrite| - 2)] else s.file
    requires output == before + Lines(Flat(if |s.toWrite| > BACKLOG then s.toWrite[..2] else s.toWrite))
    ensures output == s.file + Output(s.toWrite)
  {
    if |s.toWrite| <= BACKLOG { return; }
    var lines := Lines(Flat(if |s.toWrite| > BACKLOG then s.toWrite[..2] else s.toWrite));
    assert s.file + [Notice(|s.toWrite| - 2)] + lines == s.file + ([Notice(|s.toWrite| - 2)] + lines);
    hide Lines, Flat;
  }
}
