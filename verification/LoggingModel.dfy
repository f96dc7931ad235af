/**
 The double-buffered asynchronous log as a state machine: any number of threads
 append lines, one thread writes full buffers to the file. A step is what one
 thread does while it holds the lock, or what the writing thread does between
 two locks. A buffer is the lines in it.
 */
module LoggingModel {
  import opened Options

  type Buffer = seq<string>

  const BACKLOG: nat := 25

  function Length(b: Buffer): nat {
    if b == [] then 0 else |b[0]| + Length(b[1..])
  }

  function Flat(bs: seq<Buffer>): Buffer {
    if bs == [] then [] else bs[0] + Flat(bs[1..])
  }

  /** Where the writing thread is: at the head of its loop, in `waitFor`, after
      the swap, after the writing, or out of the loop. */
  datatype Phase = Ready | Waiting | Swapped | Written | Stopped

  datatype Item = Line(text: string) | Notice(dropped: nat)

  datatype Log = Log(
    current: Buffer,
    next: Option<Buffer>,
    buffers: seq<Buffer>,
    // the writing thread's own variables
    phase: Phase,
    new1: Option<Buffer>,
    new2: Option<Buffer>,
    toWrite: seq<Buffer>,
    file: seq<Item>,
    // what has happened so far
    batches: seq<seq<Buffer>>,   // taken by the swaps
    accepted: seq<string>)

  const START := Log([], Some([]), [], Ready, Some([]), Some([]), [], [], [], [])

  // ------------------------------------------------------------------- the steps

  /** `FixedBuffer::append`: a line that does not fit is dropped. */
  function Put(b: Buffer, line: string, size: nat): Buffer {
    if size - Length(b) > |line| then b + [line] else b
  }

  function Append(s: Log, line: string, size: nat): Log {
    var t := if size - Length(s.current) > |line| then s.(current := Put(s.current, line, size))
             else s.(buffers := s.buffers + [s.current],
                     current := Put(if s.next.Some? then s.next.value else [], line, size),
                     next := None);
    if |line| < size then t.(accepted := t.accepted + [line]) else t
  }

  function Swap(s: Log): Log
    requires s.new1.Some?
  {
    var taken := s.buffers + [s.current];
    s.(phase := Swapped, current := s.new1.value, new1 := None, buffers := [], toWrite := taken,
       next := if s.next.None? then s.new2 else s.next,
       new2 := if s.next.None? then None else s.new2,
       batches := s.batches + [taken])
  }

  function Lines(b: Buffer): seq<Item> {
    seq(|b|, i requires 0 <= i < |b| => Line(b[i]))
  }

  /** What one batch leaves in the file: with more than 25 buffers, a notice and
      the first two only. */
  function Output(batch: seq<Buffer>): seq<Item> {
    if |batch| > BACKLOG then [Notice(|batch| - 2)] + Lines(Flat(batch[..2])) else Lines(Flat(batch))
  }

  function WriteOut(s: Log): Log {
    s.(phase := Written, file := s.file + Output(s.toWrite),
       toWrite := if |s.toWrite| > BACKLOG then s.toWrite[..2] else s.toWrite)
  }

  /** The two assertions of the recycling. */
  predicate CanRecycle(s: Log) {
    var kept := if |s.toWrite| > 2 then 2 else |s.toWrite|;
    (s.new1.None? ==> kept > 0) && (s.new2.None? ==> kept > (if s.new1.None? then 1 else 0))
  }

  function Recycle(s: Log): Log {
    s.(phase := Ready, toWrite := [],
       new1 := Some(if s.new1.None? then [] else s.new1.value),
       new2 := Some(if s.new2.None? then [] else s.new2.value))
  }

  datatype Event = Appended(line: string) | Entered | Woken | Wrote | Recycled | Exited

  predicate Enabled(s: Log, e: Event) {
    match e
    case Appended(_) => true
    case Entered => s.phase == Ready && (s.buffers != [] ==> s.new1.Some?)
    case Woken => s.phase == Waiting && s.new1.Some?
    case Wrote => s.phase == Swapped
    case Recycled => s.phase == Written
    case Exited => s.phase == Ready
  }

  function Apply(s: Log, e: Event, size: nat): Log
    requires Enabled(s, e)
  {
    match e
    case Appended(line) => Append(s, line, size)
    case Entered => if s.buffers == [] then s.(phase := Waiting) else Swap(s)
    case Woken => Swap(s)
    case Wrote => WriteOut(s)
    case Recycled => Recycle(s)
    case Exited => s.(phase := Stopped)
  }

  // -------------------------------------------------------------- what they keep

  /** The lines not handed to the writing thread yet. */
  function Residual(s: Log): Buffer { Flat(s.buffers) + s.current }

  function Disposed(batches: seq<seq<Buffer>>): Buffer {
    if batches == [] then [] else Disposed(batches[..|batches| - 1]) + Flat(batches[|batches| - 1])
  }

  function FileOf(batches: seq<seq<Buffer>>): seq<Item> {
    if batches == [] then [] else FileOf(batches[..|batches| - 1]) + Output(batches[|batches| - 1])
  }

  /** The batches whose writing is done: all but the one in flight. */
  function Done(s: Log): seq<seq<Buffer>>
    requires s.phase == Swapped ==> s.batches != []
  {
    if s.phase == Swapped then s.batches[..|s.batches| - 1] else s.batches
  }

  predicate Inv(s: Log) {
    && Disposed(s.batches) + Residual(s) == s.accepted
    && (s.phase == Swapped ==> s.batches != [] && s.toWrite == s.batches[|s.batches| - 1])
    && s.file == FileOf(Done(s))
    && (s.next.None? ==> s.buffers != [])
    && (s.next.Some? ==> s.next.value == [])
    && (s.new1.Some? ==> s.new1.value == []) && (s.new2.Some? ==> s.new2.value == [])
    && (s.phase in {Ready, Waiting, Stopped} ==> s.new1.Some? && s.new2.Some? && s.toWrite == [])
    && (s.phase in {Swapped, Written} ==> s.new1.None? && s.toWrite != [] && (s.new2.None? ==> |s.toWrite| >= 2))
  }

  lemma {:induction false} FlatPush(bs: seq<Buffer>, b: Buffer)
    ensures Flat(bs + [b]) == Flat(bs) + b
  {
    if bs == [] {
      assert bs + [b] == [b] && Flat([b]) == b + Flat([b][1..]) == b;
    } else {
      assert (bs + [b])[1..] == bs[1..] + [b];
      FlatPush(bs[1..], b);
    }
  }

  /** A line goes behind all lines that are buffered, or nowhere. */
  lemma AppendResidual(s: Log, line: string, size: nat)
    requires s.next.Some? ==> s.next.value == []
    ensures Residual(Append(s, line, size)) == Residual(s) + (if |line| < size then [line] else [])
  {
    var taken := Flat(s.buffers);
    if size - Length(s.current) > |line| {
      assert taken + (s.current + [line]) == taken + s.current + [line];
    } else {
      FlatPush(s.buffers, s.current);
      assert Length([]) == 0;
      assert [] + [line] == [line];
    }
    hide Flat, Length;
    assert Residual(s) + [] == Residual(s);
  }

  lemma AppendInv(s: Log, line: string, size: nat)
    requires Inv(s)
    ensures Inv(Append(s, line, size))
  {
    hide Flat, Disposed, FileOf, Length, Put, Residual;
    var t, more := Append(s, line, size), if |line| < size then [line] else [];
    AppendShape(s, line, size);
    assert Disposed(t.batches) + Residual(t) == t.accepted by {
      AppendResidual(s, line, size);
      assert s.accepted + [] == s.accepted;
      assert Disposed(s.batches) + (Residual(s) + more) == Disposed(s.batches) + Residual(s) + more;
      hide Append;
    }
    hide Append;
  }

  lemma AppendShape(s: Log, line: string, size: nat)
    ensures var t := Append(s, line, size);
            && t == s.(current := t.current, buffers := t.buffers, next := t.next, accepted := t.accepted)
            && t.accepted == s.accepted + (if |line| < size then [line] else [])
            && ((t.buffers == s.buffers && t.next == s.next) || (t.buffers != [] && t.next.None?))
  {
    assert s.accepted + [] == s.accepted;
    hide Put, Length;
  }

  lemma SwapInv(s: Log)
    requires Inv(s) && s.phase in {Ready, Waiting}
    requires s.new1.Some?
    ensures Inv(Swap(s))
  {
    FlatPush(s.buffers, s.current);
    var taken := s.buffers + [s.current];
    var bs := s.batches + [taken];
    assert bs[..|bs| - 1] == s.batches && bs[|bs| - 1] == taken;
    assert Disposed(bs) == Disposed(s.batches) + Flat(taken);
    assert Flat([]) + [] == [];
    hide Flat, Disposed, FileOf;
    assert Disposed(s.batches) + Residual(s) + [] == Disposed(s.batches) + Residual(s);
  }

  lemma WriteInv(s: Log)
    requires Inv(s) && s.phase == Swapped
    ensures Inv(WriteOut(s))
  {
    hide Flat, Disposed, Output;
  }

  lemma StepInv(s: Log, e: Event, size: nat)
    requires Inv(s) && Enabled(s, e)
    ensures Inv(Apply(s, e, size))
  {
    match e
    case Appended(line) => AppendInv(s, line, size);
    case Entered => if s.buffers != [] { SwapInv(s); }
    case Woken => SwapInv(s);
    case Wrote => WriteInv(s);
    case Recycled =>
    case Exited =>
  }

  predicate Playable(s: Log, es: seq<Event>, size: nat)
    decreases |es|
  {
    es == [] || (Enabled(s, es[0]) && Playable(Apply(s, es[0], size), es[1..], size))
  }

  function Play(s: Log, es: seq<Event>, size: nat): Log
    requires Playable(s, es, size)
    decreases |es|
  {
    if es == [] then s else Play(Apply(s, es[0], size), es[1..], size)
  }

  /** The lines the appends of a run offered, without those no buffer can hold. */
  function Offered(es: seq<Event>, size: nat): seq<string> {
    if es == [] then [] else
    (if es[0].Appended? && |es[0].line| < size then [es[0].line] else []) + Offered(es[1..], size)
  }

  lemma {:induction false} PlayKeeps(s: Log, es: seq<Event>, size: nat)
    requires Inv(s) && Playable(s, es, size)
    ensures Inv(Play(s, es, size)) && Play(s, es, size).accepted == s.accepted + Offered(es, size)
    decreases |es|
  {
    hide Inv, Apply, Enabled;
    if es == [] {
      assert s.accepted + [] == s.accepted;
    } else {
      StepInv(s, es[0], size);
      PlayKeeps(Apply(s, es[0], size), es[1..], size);
      StepAccepts(s, es[0], size);
      var a := if es[0].Appended? && |es[0].line| < size then [es[0].line] else [];
      assert s.accepted + a + Offered(es[1..], size) == s.accepted + (a + Offered(es[1..], size));
    }
  }

  lemma StepAccepts(s: Log, e: Event, size: nat)
    requires Enabled(s, e)
    ensures Apply(s, e, size).accepted == s.accepted + (if e.Appended? && |e.line| < size then [e.line] else [])
  {
    assert s.accepted + [] == s.accepted;
  }

  /** In every interleaving of appends with the writing thread: the batches taken
      so far and the lines still buffered are the lines offered, in order and
      whole; and the file holds exactly what `Output` leaves of each batch whose
      writing is done. */
  lemma LinesConserved(es: seq<Event>, size: nat)
    requires Playable(START, es, size)
    ensures var s := Play(START, es, size);
            && Disposed(s.batches) + Residual(s) == Offered(es, size)
            && (s.phase == Swapped ==> s.batches != [])
            && s.file == FileOf(Done(s))
  {
    assert Inv(START);
    PlayKeeps(START, es, size);
    assert [] + Offered(es, size) == Offered(es, size);
  }

  lemma {:induction false} SmallBatches(batches: seq<seq<Buffer>>)
    requires forall i :: 0 <= i < |batches| ==> |batches[i]| <= BACKLOG
    ensures FileOf(batches) == Lines(Disposed(batches))
    decreases |batches|
  {
    if batches != [] {
      var init, last := batches[..|batches| - 1], batches[|batches| - 1];
      SmallBatches(init);
      assert Lines(Disposed(init) + Flat(last)) == Lines(Disposed(init)) + Lines(Flat(last));
    }
  }

  lemma NoBacklog(es: seq<Event>, size: nat)
    requires Playable(START, es, size)
    requires var s := Play(START, es, size);
             s.phase != Swapped && forall i :: 0 <= i < |s.batches| ==> |s.batches[i]| <= BACKLOG
    ensures var s := Play(START, es, size);
            s.file + Lines(Residual(s)) == Lines(Offered(es, size))
  {
    var s := Play(START, es, size);
    LinesConserved(es, size);
    SmallBatches(s.batches);
    assert Lines(Disposed(s.batches) + Residual(s)) == Lines(Disposed(s.batches)) + Lines(Residual(s));
  }

  lemma {:induction false} FlatJoin(a: seq<Buffer>, b: seq<Buffer>)
    ensures Flat(a + b) == Flat(a) + Flat(b)
  {
    if a == [] {
      assert a + b == b;
    } else {
      assert (a + b)[1..] == a[1..] + b;
      FlatJoin(a[1..], b);
    }
  }

  /** What a batch leaves in the file, and what it does not. */
  function Kept(batch: seq<Buffer>): Buffer { Flat(if |batch| > BACKLOG then batch[..2] else batch) }

  function Dropped(batch: seq<Buffer>): Buffer { if |batch| > BACKLOG then Flat(batch[2..]) else [] }

  function AllDropped(batches: seq<seq<Buffer>>): Buffer {
    if batches == [] then [] else AllDropped(batches[..|batches| - 1]) + Dropped(batches[|batches| - 1])
  }

  /** The lines in a file, without the notices. */
  function LinesIn(file: seq<Item>): Buffer {
    if file == [] then [] else (if file[0].Line? then [file[0].text] else []) + LinesIn(file[1..])
  }

  lemma {:induction false} LinesInJoin(a: seq<Item>, b: seq<Item>)
    ensures LinesIn(a + b) == LinesIn(a) + LinesIn(b)
  {
    if a == [] {
      assert a + b == b;
    } else {
      assert (a + b)[1..] == a[1..] + b;
      LinesInJoin(a[1..], b);
    }
  }

  lemma {:induction false} LinesInLines(b: Buffer)
    ensures LinesIn(Lines(b)) == b
  {
    if b != [] {
      assert Lines(b)[1..] == Lines(b[1..]);
      LinesInLines(b[1..]);
    }
  }

  lemma OutputKeeps(batch: seq<Buffer>)
    ensures LinesIn(Output(batch)) == Kept(batch) && Kept(batch) + Dropped(batch) == Flat(batch)
  {
    hide Flat, Lines;
    LinesInLines(Kept(batch));
    if |batch| > BACKLOG {
      assert batch == batch[..2] + batch[2..];
      FlatJoin(batch[..2], batch[2..]);
      assert Output(batch)[1..] == Lines(Kept(batch));
    } else {
      assert Flat(batch) + [] == Flat(batch);
    }
  }

  lemma {:induction false} FileAndDropped(batches: seq<seq<Buffer>>)
    ensures multiset(Disposed(batches)) == multiset(LinesIn(FileOf(batches))) + multiset(AllDropped(batches))
    decreases |batches|
  {
    if batches != [] {
      var init, last := batches[..|batches| - 1], batches[|batches| - 1];
      FileAndDropped(init);
      OutputKeeps(last);
      LinesInJoin(FileOf(init), Output(last));
      hide Output, Kept, Dropped, Flat;
    }
  }

  /** Over every run, between two batches: the lines offered are those in the file,
      those still buffered, and, of each batch with more than 25 buffers and of no
      other, those of the third buffer and the later ones. */
  lemma MissingFromFile(es: seq<Event>, size: nat)
    requires Playable(START, es, size) && Play(START, es, size).phase != Swapped
    ensures var s := Play(START, es, size);
            multiset(Offered(es, size)) ==
            multiset(LinesIn(s.file)) + multiset(AllDropped(s.batches)) + multiset(Residual(s))
  {
    hide Play, Playable, Offered, FileOf, Disposed, AllDropped, Residual;
    LinesConserved(es, size);
    FileAndDropped(Play(START, es, size).batches);
  }

  /** The assertions of the writing thread hold on every run: at the head of the
      loop it has two empty buffers and nothing to write, after the swap there is
      something to write, and the recycling finds a buffer for each one it gave
      away. */
  lemma AssertionsHold(es: seq<Event>, size: nat)
    requires Playable(START, es, size)
    ensures var s := Play(START, es, size);
            && (s.phase == Ready ==> s.new1 == Some([]) && s.new2 == Some([]) && s.toWrite == [])
            && (s.phase == Swapped ==> s.toWrite != [])
            && (s.phase == Written ==> CanRecycle(s))
            && (s.next.None? ==> s.buffers != [])
  {
    assert Inv(START);
    PlayKeeps(START, es, size);
    hide Flat, Disposed, FileOf, Play, Playable;
  }

  lemma {:induction false} LengthPush(b: Buffer, line: string)
    ensures Length(b + [line]) == Length(b) + |line|
  {
    if b == [] {
      assert b + [line] == [line] && Length([line]) == |line| + Length([line][1..]);
    } else {
      assert (b + [line])[1..] == b[1..] + [line];
      LengthPush(b[1..], line);
    }
  }

  /** No buffer is ever filled: a byte stays free. */
  predicate Fits(s: Log, size: nat) {
    Length(s.current) < size && forall i :: 0 <= i < |s.buffers| ==> Length(s.buffers[i]) < size
  }

  lemma PutFits(b: Buffer, line: string, size: nat)
    requires Length(b) < size
    ensures Length(Put(b, line, size)) < size
  {
    LengthPush(b, line);
  }

  lemma StepFits(s: Log, e: Event, size: nat)
    requires Inv(s) && Enabled(s, e) && Fits(s, size)
    ensures Fits(Apply(s, e, size), size)
  {
    match e
    case Appended(line) => AppendFits(s, line, size); hide Append, Inv, Fits;
    case Entered => SwapFits(s, size); hide Swap, Inv, Fits;
    case Woken => SwapFits(s, size); hide Swap, Inv, Fits;
    case _ => hide Length, Inv;
  }

  lemma AppendFits(s: Log, line: string, size: nat)
    requires Inv(s) && Fits(s, size)
    ensures Fits(Append(s, line, size), size)
  {
    assert Length([]) == 0;
    PutFits(s.current, line, size);
    PutFits([], line, size);
    hide Length, Disposed, FileOf, Flat, Put;
  }

  lemma SwapFits(s: Log, size: nat)
    requires Inv(s) && s.new1.Some? && Fits(s, size)
    ensures Fits(Swap(s), size)
  {
    assert Length([]) == 0;
    hide Length, Disposed, FileOf, Flat;
  }

  /** A buffer never holds more than it has room for, with a byte to spare. */
  lemma {:induction false} PlayFits(s: Log, es: seq<Event>, size: nat)
    requires Inv(s) && Playable(s, es, size) && Fits(s, size)
    ensures Fits(Play(s, es, size), size)
    decreases |es|
  {
    hide Inv, Fits, Apply;
    if es != [] {
      StepInv(s, es[0], size);
      StepFits(s, es[0], size);
      PlayFits(Apply(s, es[0], size), es[1..], size);
    }
  }

  // ----------------------------------------------------- how many buffers are filled

  /** On every run an append starts a new buffer exactly when the current one, with
      the line, would have no byte left free; the one it puts away is the current. */
  lemma NewBufferIff(es: seq<Event>, size: nat, line: string)
    requires Playable(START, es, size)
    ensures var s := Play(START, es, size);
            var t := Apply(s, Appended(line), size);
            && (Length(s.current) + |line| >= size ==>
                  t.buffers == s.buffers + [s.current] && t.current == if |line| < size then [line] else [])
            && (Length(s.current) + |line| < size ==> t.buffers == s.buffers && t.current == s.current + [line])
  {
    PlayKeeps(START, es, size);
    assert Inv(START) && Length([]) == 0 && [] + [line] == [line];
    hide Play, Playable, Length, Disposed, FileOf, Flat;
  }

  /** The event hands the buffers over to the writing thread. */
  predicate Swaps(s: Log, e: Event) { e.Woken? || (e.Entered? && s.buffers != []) }

  /** The lines offered between one swap and the next, with those before the first and
      those since the last; `sofar` were offered before. */
  function Spans(s: Log, es: seq<Event>, size: nat, sofar: seq<string>): (r: seq<seq<string>>)
    requires Playable(s, es, size)
    ensures r != []
    decreases |es|
  {
    if es == [] then [sofar] else
    var t := Apply(s, es[0], size);
    if Swaps(s, es[0]) then [sofar] + Spans(t, es[1..], size, [])
    else Spans(t, es[1..], size, sofar + (if es[0].Appended? then [es[0].line] else []))
  }

  function AllLines(es: seq<Event>): seq<string> {
    if es == [] then [] else (if es[0].Appended? then [es[0].line] else []) + AllLines(es[1..])
  }

  /** The spans are all lines, in order. */
  lemma {:induction false} SpansAreAll(s: Log, es: seq<Event>, size: nat, sofar: seq<string>)
    requires Playable(s, es, size)
    ensures Flat(Spans(s, es, size, sofar)) == sofar + AllLines(es)
    decreases |es|
  {
    hide Apply, Swaps, Enabled, Flat;
    if es == [] {
      FlatCons(sofar, []);
      assert sofar + [] == sofar;
    } else {
      var t := Apply(s, es[0], size);
      var more := if es[0].Appended? then [es[0].line] else [];
      if Swaps(s, es[0]) {
        assert more == [] by { NoLine(s, es[0]); }
        SpansAreAll(t, es[1..], size, []);
        FlatCons(sofar, Spans(t, es[1..], size, []));
        assert [] + AllLines(es[1..]) == AllLines(es[1..]);
      } else {
        SpansAreAll(t, es[1..], size, sofar + more);
        assert sofar + more + AllLines(es[1..]) == sofar + (more + AllLines(es[1..]));
      }
    }
  }

  lemma FlatCons(b: Buffer, bs: seq<Buffer>)
    ensures Flat([b] + bs) == b + Flat(bs) && Flat([b]) == b + Flat([]) && Flat([]) == []
  {
    assert ([b] + bs)[1..] == bs && [b][1..] == [];
  }

  lemma NoLine(s: Log, e: Event)
    ensures Swaps(s, e) ==> !e.Appended?
  {
  }

  /** Two buffers in a row, and the line between them, weigh at least one size. */
  predicate Weighs(s: Log, span: seq<string>, size: nat) {
    size * |s.buffers| + Length(s.current) <= 2 * Length(span)
  }

  lemma AppendWeighs(s: Log, line: string, span: seq<string>, size: nat)
    requires Inv(s) && Weighs(s, span, size)
    ensures Weighs(Append(s, line, size), span + [line], size)
  {
    AppendSizes(s, line, size);
    LengthPush(span, line);
    OneMore(size, |s.buffers|);
    hide Length, Append, Inv;
  }

  lemma OneMore(size: nat, n: nat)
    ensures size * (n + 1) == size * n + size
  {
  }

  lemma AppendSizes(s: Log, line: string, size: nat)
    requires Inv(s)
    ensures var t := Append(s, line, size);
            || (|t.buffers| == |s.buffers| && Length(t.current) == Length(s.current) + |line|)
            || (|t.buffers| == |s.buffers| + 1 && Length(s.current) + |line| >= size && Length(t.current) <= |line|)
  {
    LengthPush(s.current, line);
    assert Length([]) == 0 && [] + [line] == [line];
    LengthPush([], line);
    hide Length, Disposed, FileOf, Flat;
  }

  lemma SwapWeighs(s: Log, e: Event, span: seq<string>, size: nat)
    requires Inv(s) && Weighs(s, span, size) && Enabled(s, e) && Swaps(s, e)
    ensures var t := Apply(s, e, size);
            && Weighs(t, [], size) && t.batches == s.batches + [s.buffers + [s.current]]
            && size * (|s.buffers + [s.current]| - 1) <= 2 * Length(span)
  {
    assert Length([]) == 0;
    hide Length, Disposed, FileOf, Flat;
  }

  lemma OtherWeighs(s: Log, e: Event, span: seq<string>, size: nat)
    requires Weighs(s, span, size) && Enabled(s, e) && !Swaps(s, e) && !e.Appended?
    ensures Weighs(Apply(s, e, size), span, size) && Apply(s, e, size).batches == s.batches
  {
    hide Length;
  }

  /** From any state on, each batch has its span. */
  lemma {:induction false} PlayWeighs(s: Log, es: seq<Event>, size: nat, sofar: seq<string>)
    requires Inv(s) && Playable(s, es, size) && Weighs(s, sofar, size)
    ensures var t, spans := Play(s, es, size), Spans(s, es, size, sofar);
            && |t.batches| == |s.batches| + |spans| - 1
            && (forall i :: 0 <= i < |s.batches| ==> t.batches[i] == s.batches[i])
            && (forall i :: 0 <= i < |spans| - 1 ==> size * (|t.batches[|s.batches| + i]| - 1) <= 2 * Length(spans[i]))
            && Weighs(t, spans[|spans| - 1], size)
    decreases |es|
  {
    hide Inv, Apply, Enabled, Weighs, Swaps, Length;
    if es != [] {
      var e, rest := es[0], es[1..];
      var t := Apply(s, e, size);
      StepInv(s, e, size);
      if Swaps(s, e) {
        SwapWeighs(s, e, sofar, size);
        PlayWeighs(t, rest, size, []);
      } else if e.Appended? {
        AppendWeighs(s, e.line, sofar, size);
        AppendBatches(s, e, size);
        PlayWeighs(t, rest, size, sofar + [e.line]);
      } else {
        OtherWeighs(s, e, sofar, size);
        assert sofar + [] == sofar;
        PlayWeighs(t, rest, size, sofar);
      }
    }
  }

  lemma AppendBatches(s: Log, e: Event, size: nat)
    requires Enabled(s, e) && e.Appended?
    ensures Apply(s, e, size) == Append(s, e.line, size) && Apply(s, e, size).batches == s.batches
  {
    hide Length, Put;
  }

  /** On every run a batch of more than 25 buffers was preceded by lines, since the
      swap before it, of at least twelve and a half buffers' size in bytes. */
  lemma BacklogNeeds(es: seq<Event>, size: nat, i: nat)
    requires Playable(START, es, size) && i < |Play(START, es, size).batches|
    ensures var spans := Spans(START, es, size, []);
            && |spans| == |Play(START, es, size).batches| + 1
            && (|Play(START, es, size).batches[i]| > 25 ==> 2 * Length(spans[i]) >= 25 * size)
  {
    assert Inv(START) && Weighs(START, [], size);
    PlayWeighs(START, es, size, []);
    hide Play, Playable, Spans, Length, Inv;
    var n := |Play(START, es, size).batches[i]|;
    if n > 25 { TimesSize(size, n - 1, 25); }
  }

  lemma TimesSize(size: nat, a: nat, b: nat)
    requires a >= b
    ensures size * a >= size * b
  {
  }

  /** So, if between any two swaps fewer bytes are offered than that, nothing is
      dropped: the file and what is buffered are all the lines offered. */
  lemma NothingDropped(es: seq<Event>, size: nat)
    requires Playable(START, es, size) && Play(START, es, size).phase != Swapped
    requires var spans := Spans(START, es, size, []);
             forall i :: 0 <= i < |spans| - 1 ==> 2 * Length(spans[i]) < 25 * size
    ensures var s := Play(START, es, size);
            s.file + Lines(Residual(s)) == Lines(Offered(es, size))
  {
    var s := Play(START, es, size);
    hide Play, Playable, Spans, Length, Offered, Residual;
    forall i | 0 <= i < |s.batches| ensures |s.batches[i]| <= BACKLOG { BacklogNeeds(es, size, i); }
    NoBacklog(es, size);
  }

  /** What a batch leaves in the file. */
  lemma BatchLeaves(batch: seq<Buffer>)
    ensures |batch| <= 25 ==> Output(batch) == Lines(Flat(batch))
    ensures |batch| > 25 ==> Output(batch) == [Notice(|batch| - 2)] + Lines(batch[0] + batch[1])
  {
    if |batch| > 25 {
      assert batch[..2][1..] == [batch[1]] && [batch[1]][1..] == [];
      assert Flat(batch[..2]) == batch[0] + (batch[1] + []) == batch[0] + batch[1];
    }
  }
}
