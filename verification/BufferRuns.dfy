/**
 Both buffers on the same run of operations: each is proved to give what a plain
 queue of bytes gives, so they agree with each other.
 */
module BufferRuns {
  import opened NetBuffer
  import LinkedBlocks

  /** `Send`: a write to a socket that takes `n` bytes, or fails. */
  datatype Op =
    | Append(bytes: string) | Retrieve(n: nat) | Take(n: nat) | Clear | Shrink(reserve: nat) | Send(result: int)

  /** What the callers owe: no more is read than is there. */
  predicate Legal(q: string, op: Op) {
    match op
    case Retrieve(n) => n <= |q|
    case Take(n) => n <= |q|
    case Send(n) => n <= |q|
    case _ => true
  }

  function Count(q: string, op: Op): (n: nat)
    requires Legal(q, op)
    ensures n <= |q|
  {
    match op
    case Retrieve(n) => n
    case Take(n) => n
    case Clear => |q|
    case Send(n) => if n > 0 then n else 0
    case _ => 0
  }

  /** The queue afterwards, and the bytes that came out into somebody's hands. */
  function After(q: string, op: Op): string
    requires Legal(q, op)
  {
    q[Count(q, op)..] + if op.Append? then op.bytes else ""
  }

  function Out(q: string, op: Op): string
    requires Legal(q, op)
  {
    if op.Take? || op.Send? then q[..Count(q, op)] else ""
  }

  predicate LegalRun(q: string, ops: seq<Op>)
    decreases |ops|
  {
    ops == [] || (Legal(q, ops[0]) && LegalRun(After(q, ops[0]), ops[1..]))
  }

  function Outs(q: string, ops: seq<Op>): seq<string>
    requires LegalRun(q, ops)
    decreases |ops|
  {
    if ops == [] then [] else [Out(q, ops[0])] + Outs(After(q, ops[0]), ops[1..])
  }

  function Final(q: string, ops: seq<Op>): string
    requires LegalRun(q, ops)
    decreases |ops|
  {
    if ops == [] then q else Final(After(q, ops[0]), ops[1..])
  }

  function Appended(ops: seq<Op>): string {
    if ops == [] then "" else (if ops[0].Append? then ops[0].bytes else "") + Appended(ops[1..])
  }

  /** What left the front of the queue, read or skipped. */
  function Consumed(q: string, ops: seq<Op>): string
    requires LegalRun(q, ops)
    decreases |ops|
  {
    if ops == [] then "" else q[..Count(q, ops[0])] + Consumed(After(q, ops[0]), ops[1..])
  }

  /** First in, first out, nothing lost: what was there and what came in, in order,
      is what left followed by what is there. */
  lemma {:induction false} FirstInFirstOut(q: string, ops: seq<Op>)
    requires LegalRun(q, ops)
    ensures q + Appended(ops) == Consumed(q, ops) + Final(q, ops)
    decreases |ops|
  {
    if ops == [] {
      assert q + "" == q == "" + q;
    } else {
      var n, more := Count(q, ops[0]), if ops[0].Append? then ops[0].bytes else "";
      FirstInFirstOut(After(q, ops[0]), ops[1..]);
      Regroup(q, n, more, Appended(ops[1..]), Consumed(After(q, ops[0]), ops[1..]), Final(q, ops));
    }
  }

  lemma Regroup(q: string, n: nat, more: string, later: string, consumed: string, final: string)
    requires n <= |q| && q[n..] + more + later == consumed + final
    ensures q + (more + later) == q[..n] + consumed + final
  {
    assert q == q[..n] + q[n..];
    assert q + (more + later) == q[..n] + (q[n..] + more + later);
    assert q[..n] + (consumed + final) == q[..n] + consumed + final;
  }

  // ------------------------------------------------ the contiguous buffer, in full

  /** What the contiguous buffer does besides: bytes in front, the last bytes taken
      back, and one scattered read. */
  datatype FlatOp = Common(op: Op) | Prepend(bytes: string) | UnWrite(n: nat) | Read(bytes: string)

  /** The queue, and the free bytes in front of it and behind it. */
  datatype Flat = Flat(q: string, room: Room)

  const NEW_FLAT := Flat("", Room(CHEAP_PREPEND, INITIAL_SIZE))

  predicate Sound(f: Flat) { f.room.front + |f.q| + f.room.back >= CHEAP_PREPEND }

  predicate FlatLegal(f: Flat, op: FlatOp) {
    match op
    case Common(o) => Legal(f.q, o)
    case Prepend(bytes) => |bytes| <= f.room.front
    case UnWrite(n) => n <= |f.q|
    case Read(bytes) => |bytes| <= f.room.back + (if f.room.back < EXTRA_BUF then EXTRA_BUF else 0)
  }

  /** After `n` bytes were read; the positions go back when none is left. */
  function Skipped(f: Flat, n: nat): (g: Flat)
    requires Sound(f) && n <= |f.q|
    ensures Sound(g)
  {
    Flat(f.q[n..], if n < |f.q| then Room(f.room.front + n, f.room.back)
                   else Room(CHEAP_PREPEND, f.room.front + |f.q| + f.room.back - CHEAP_PREPEND))
  }

  function CommonAfter(f: Flat, op: Op): (g: Flat)
    requires Sound(f) && Legal(f.q, op)
    ensures Sound(g) && g.q == After(f.q, op)
  {
    assert f.q[0..] == f.q && f.q[|f.q|..] == "" && forall n: nat :: n <= |f.q| ==> f.q[n..] + "" == f.q[n..];
    match op
    case Append(bytes) => Flat(f.q + bytes, RoomAfter(f.room, |bytes|))
    case Retrieve(n) => Skipped(f, n)
    case Take(n) => Skipped(f, n)
    case Clear => Skipped(f, |f.q|)
    case Shrink(reserve) =>
      Flat(f.q, RoomAfter(RoomFor(Room(CHEAP_PREPEND, INITIAL_SIZE), |f.q| + reserve), |f.q|))
    case Send(n) => if n > 0 then Skipped(f, n) else f
  }

  function FlatAfter(f: Flat, op: FlatOp): (g: Flat)
    requires Sound(f) && FlatLegal(f, op)
    ensures Sound(g)
  {
    match op
    case Common(o) => CommonAfter(f, o)
    case Prepend(bytes) => Flat(bytes + f.q, Room(f.room.front - |bytes|, f.room.back))
    case UnWrite(n) => Flat(f.q[..|f.q| - n], Room(f.room.front, f.room.back + n))
    case Read(bytes) =>
      Flat(f.q + bytes, if |bytes| <= f.room.back then RoomAfter(f.room, |bytes|)
                        else RoomAfter(Room(f.room.front, 0), |bytes| - f.room.back))
  }

  function FlatOut(f: Flat, op: FlatOp): string
    requires FlatLegal(f, op)
  {
    if op.Common? then Out(f.q, op.op) else ""
  }

  predicate FlatRun(f: Flat, ops: seq<FlatOp>)
    requires Sound(f)
    decreases |ops|
  {
    ops == [] || (FlatLegal(f, ops[0]) && FlatRun(FlatAfter(f, ops[0]), ops[1..]))
  }

  function FlatOuts(f: Flat, ops: seq<FlatOp>): seq<string>
    requires Sound(f) && FlatRun(f, ops)
    decreases |ops|
  {
    if ops == [] then [] else [FlatOut(f, ops[0])] + FlatOuts(FlatAfter(f, ops[0]), ops[1..])
  }

  function FlatFinal(f: Flat, ops: seq<FlatOp>): Flat
    requires Sound(f) && FlatRun(f, ops)
    decreases |ops|
  {
    if ops == [] then f else FlatFinal(FlatAfter(f, ops[0]), ops[1..])
  }

  function AsFlat(ops: seq<Op>): seq<FlatOp> { seq(|ops|, i requires 0 <= i < |ops| => Common(ops[i])) }

  /** The operations both buffers have do to the contiguous one what they do to a
      plain queue. */
  lemma {:induction false} CommonRun(f: Flat, ops: seq<Op>)
    requires Sound(f) && LegalRun(f.q, ops)
    ensures FlatRun(f, AsFlat(ops))
    ensures FlatOuts(f, AsFlat(ops)) == Outs(f.q, ops) && FlatFinal(f, AsFlat(ops)).q == Final(f.q, ops)
    decreases |ops|
  {
    if ops != [] {
      assert AsFlat(ops)[1..] == AsFlat(ops[1..]) && AsFlat(ops)[0] == Common(ops[0]);
      CommonRun(CommonAfter(f, ops[0]), ops[1..]);
      hide CommonAfter, After, Out;
    }
  }

  ghost function FlatOf(b: Buffer): Flat
    requires b.Valid()
    reads b, b.data
  {
    Flat(b.Contents(), b.Space())
  }

  /** `n` bytes handed out and skipped. */
  method TakeStep(b: Buffer, n: nat) returns (out: string)
    requires b.Valid() && n <= |b.Contents()|
    modifies b
    ensures b.Valid() && b.data == old(b.data)
    ensures FlatOf(b) == Skipped(old(FlatOf(b)), n) && out == old(b.Contents())[..n]
  {
    out := b.RetrieveAsString(n);
  }

  method SkipStep(b: Buffer, n: nat)
    requires b.Valid() && n <= |b.Contents()|
    modifies b
    ensures b.Valid() && b.data == old(b.data)
    ensures FlatOf(b) == Skipped(old(FlatOf(b)), n)
  {
    b.Retrieve(n);
  }

  method ClearStep(b: Buffer)
    requires b.Valid()
    modifies b
    ensures b.Valid() && b.data == old(b.data)
    ensures FlatOf(b) == Skipped(old(FlatOf(b)), |old(b.Contents())|)
  {
    b.RetrieveAll();
  }

  method CommonStep(b: Buffer, op: Op) returns (out: string)
    requires b.Valid() && Legal(b.Contents(), op)
    modifies b, b.data
    ensures b.Valid() && (b.data == old(b.data) || fresh(b.data))
    ensures FlatOf(b) == CommonAfter(old(FlatOf(b)), op) && out == Out(old(b.Contents()), op)
  {
    hide RoomFor, RoomAfter, Skipped, After;
    out := "";
    match op {
      case Append(bytes) => b.Append(bytes);
      case Retrieve(n) => SkipStep(b, n);
      case Take(n) => out := TakeStep(b, n);
      case Clear => ClearStep(b);
      case Shrink(reserve) => b.Shrink(reserve);
      case Send(n) =>
        if n > 0 { out := TakeStep(b, n); }
    }
  }

  method FlatStep(b: Buffer, op: FlatOp) returns (out: string)
    requires b.Valid() && FlatLegal(FlatOf(b), op)
    modifies b, b.data
    ensures b.Valid() && (b.data == old(b.data) || fresh(b.data))
    ensures FlatOf(b) == FlatAfter(old(FlatOf(b)), op) && out == FlatOut(old(FlatOf(b)), op)
  {
    hide RoomFor, RoomAfter, CommonAfter, Out;
    out := "";
    match op {
      case Common(o) => out := CommonStep(b, o);
      case Prepend(bytes) => b.Prepend(bytes);
      case UnWrite(n) => b.UnWrite(n);
      case Read(bytes) => b.ReadFd(Received(bytes));
    }
  }

  /** The contiguous buffer on every run in which no call breaks its own assertions. */
  method RunFlat(ops: seq<FlatOp>) returns (outs: seq<string>, rest: string)
    requires FlatRun(NEW_FLAT, ops)
    ensures outs == FlatOuts(NEW_FLAT, ops) && rest == FlatFinal(NEW_FLAT, ops).q
  {
    hide FlatLegal, FlatRun, FlatOuts, FlatFinal, FlatAfter, FlatOut;
    var b := new Buffer();
    outs := [];
    assert FlatOf(b) == NEW_FLAT;
    assert [] + FlatOuts(NEW_FLAT, ops) == FlatOuts(NEW_FLAT, ops) && ops[0..] == ops;
    for i := 0 to |ops|
      invariant b.Valid() && fresh(b) && fresh(b.data)
      invariant FlatRun(FlatOf(b), ops[i..])
      invariant outs + FlatOuts(FlatOf(b), ops[i..]) == FlatOuts(NEW_FLAT, ops)
      invariant FlatFinal(FlatOf(b), ops[i..]) == FlatFinal(NEW_FLAT, ops)
    {
      OneFlatStep(FlatOf(b), ops[i..], outs);
      assert ops[i..][1..] == ops[i + 1..];
      var x := FlatStep(b, ops[i]);
      outs := outs + [x];
    }
    FlatEnds(FlatOf(b), ops[|ops|..], outs);
    rest := b.Peek(b.ReadableBytes());
    assert b.Contents()[..b.ReadableBytes()] == b.Contents();
  }

  lemma FlatEnds(f: Flat, ops: seq<FlatOp>, outs: seq<string>)
    requires ops == [] && Sound(f) && FlatRun(f, ops)
    ensures outs + FlatOuts(f, ops) == outs && FlatFinal(f, ops) == f
  {
  }

  lemma OneFlatStep(f: Flat, ops: seq<FlatOp>, before: seq<string>)
    requires ops != [] && Sound(f) && FlatRun(f, ops)
    ensures FlatLegal(f, ops[0]) && FlatRun(FlatAfter(f, ops[0]), ops[1..])
    ensures before + FlatOuts(f, ops) == before + [FlatOut(f, ops[0])] + FlatOuts(FlatAfter(f, ops[0]), ops[1..])
    ensures FlatFinal(f, ops) == FlatFinal(FlatAfter(f, ops[0]), ops[1..])
  {
    hide FlatLegal, FlatAfter, FlatOut;
    var rest := FlatOuts(FlatAfter(f, ops[0]), ops[1..]);
    assert before + ([FlatOut(f, ops[0])] + rest) == before + [FlatOut(f, ops[0])] + rest;
  }

  // ------------------------------------------------------------- the list of blocks

  method LinkedStep(b: LinkedBlocks.LinkedBuffer, op: Op) returns (out: string)
    requires b.Valid() && Legal(b.Contents(), op)
    modifies b, b.Repr
    ensures b.Valid() && fresh(b.Repr - old(b.Repr))
    ensures b.Contents() == After(old(b.Contents()), op) && out == Out(old(b.Contents()), op)
  {
    ghost var q := b.Contents();
    assert q[0..] == q && q[|q|..] == "" && forall n: nat :: n <= |q| ==> q[n..] + "" == q[n..];
    out := "";
    match op {
      case Append(bytes) => b.Append(bytes);
      case Retrieve(n) => b.Retrieve(n);
      case Take(n) => out := b.RetrieveAsString(n);
      case Clear => b.RetrieveAll();
      case Shrink(reserve) => b.Shrink(reserve);
      case Send(n) => out := b.WriteFd(n);
    }
  }

  method RunLinked(ops: seq<Op>) returns (outs: seq<string>, rest: string)
    requires LegalRun("", ops)
    ensures outs == Outs("", ops) && rest == Final("", ops)
  {
    hide Legal, LegalRun, Outs, Final, After, Out;
    var b := new LinkedBlocks.LinkedBuffer();
    outs := [];
    assert [] + Outs("", ops) == Outs("", ops) && ops[0..] == ops;
    for i := 0 to |ops|
      invariant b.Valid() && fresh(b) && fresh(b.Repr)
      invariant LegalRun(b.Contents(), ops[i..])
      invariant outs + Outs(b.Contents(), ops[i..]) == Outs("", ops)
      invariant Final(b.Contents(), ops[i..]) == Final("", ops)
    {
      OneStep(b.Contents(), ops[i..], outs);
      assert ops[i..][1..] == ops[i + 1..];
      var x := LinkedStep(b, ops[i]);
      outs := outs + [x];
    }
    RunEnds(b.Contents(), ops[|ops|..], outs);
    rest := b.Gather();
  }

  /** On every legal run both buffers give out the same bytes and end with the same
      contents, those of the plain queue. */
  method RunBoth(ops: seq<Op>) returns (flat: seq<string>, linked: seq<string>, flatRest: string, linkedRest: string)
    requires LegalRun("", ops)
    ensures flat == linked == Outs("", ops)
    ensures flatRest == linkedRest == Final("", ops)
  {
    CommonRun(NEW_FLAT, ops);
    flat, flatRest := RunFlat(AsFlat(ops));
    linked, linkedRest := RunLinked(ops);
  }

  lemma RunEnds(q: string, ops: seq<Op>, outs: seq<string>)
    requires ops == [] && LegalRun(q, ops)
    ensures outs + Outs(q, ops) == outs && Final(q, ops) == q
  {
  }

  lemma OneStep(q: string, ops: seq<Op>, before: seq<string>)
    requires ops != [] && LegalRun(q, ops)
    ensures Legal(q, ops[0]) && LegalRun(After(q, ops[0]), ops[1..])
    ensures before + Outs(q, ops) == before + [Out(q, ops[0])] + Outs(After(q, ops[0]), ops[1..])
    ensures Final(q, ops) == Final(After(q, ops[0]), ops[1..])
  {
    var rest := Outs(After(q, ops[0]), ops[1..]);
    assert before + ([Out(q, ops[0])] + rest) == before + [Out(q, ops[0])] + rest;
  }
}
