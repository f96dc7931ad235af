/**
 The byte buffer made of a list of heap blocks. Every operation is proved to be
 the operation on the queue of readable bytes that the contiguous buffer does.
 */
module LinkedBlocks {

  const BLOCK_SIZE: nat := 4096
  const PREPEND_SIZE: nat := 8

  /** Bytes already read, readable bytes, free bytes, in this order. */
  class Block {
    var data: string
    var prependable: nat
    var readable: nat
    var writable: nat
    var capacity: nat

    ghost predicate Valid()
      reads this
    {
      prependable + readable + writable == capacity == |data|
    }

    ghost function Contents(): (s: string)
      requires Valid()
      reads this
      ensures |s| == readable
    {
      data[prependable..prependable + readable]
    }

    constructor (cap: nat)
      requires cap >= PREPEND_SIZE
      ensures Valid() && Contents() == "" && writable == cap - PREPEND_SIZE
    {
      capacity, prependable, readable, writable := cap, PREPEND_SIZE, 0, cap - PREPEND_SIZE;
      data := seq(cap, _ => '\0');
    }

    method Write(bytes: string)
      requires Valid() && |bytes| <= writable
      modifies this
      ensures Valid() && Contents() == old(Contents()) + bytes
      ensures writable == old(writable) - |bytes|
    {
      var at := prependable + readable;
      data := data[..at] + bytes + data[at + |bytes|..];
      readable := readable + |bytes|;
      writable := writable - |bytes|;
    }

    method Read(n: nat) returns (s: string)
      requires Valid() && n <= readable
      ensures s == Contents()[..n]
    {
      s := data[prependable..prependable + n];
      assert s == data[prependable..prependable + readable][..n];
    }

    /** The first `n` bytes are read. */
    method Skip(n: nat)
      requires Valid() && n <= readable
      modifies this
      ensures Valid() && Contents() == old(Contents())[n..] && readable == old(readable) - n
    {
      readable := readable - n;
      prependable := prependable + n;
    }

    /** Into memory of another size, with the readable bytes in their place. */
    method Move(size: nat)
      requires Valid() && prependable + readable <= size
      modifies this
      ensures Valid() && Contents() == old(Contents())
      ensures readable == old(readable) && prependable == old(prependable) && writable == size - prependable - readable
    {
      var kept := data[prependable..prependable + readable];
      data := seq(prependable, _ => '\0') + kept + seq(size - prependable - readable, _ => '\0');
      capacity := size;
      writable := size - prependable - readable;
    }

    /** One free byte is kept. */
    method Shrink()
      requires Valid()
      modifies this
      ensures Valid() && Contents() == old(Contents()) && readable == old(readable) && writable == 1
    {
      if prependable + readable + writable == capacity {
        Move(prependable + readable + 1);
      }
    }
  }

  ghost predicate AllValid(bs: seq<Block>)
    reads bs
  {
    forall i :: 0 <= i < |bs| ==> bs[i].Valid()
  }

  ghost predicate Distinct(bs: seq<Block>) { forall i, j :: 0 <= i < j < |bs| ==> bs[i] != bs[j] }

  /** The readable bytes of all blocks. */
  ghost function Texts(bs: seq<Block>): string
    requires AllValid(bs)
    reads bs
  {
    if bs == [] then "" else bs[0].Contents() + Texts(bs[1..])
  }

  ghost function Writable(bs: seq<Block>): nat
    reads bs
  {
    if bs == [] then 0 else bs[0].writable + Writable(bs[1..])
  }

  lemma {:induction false} TextsJoin(a: seq<Block>, b: seq<Block>)
    requires AllValid(a) && AllValid(b)
    ensures AllValid(a + b) && Texts(a + b) == Texts(a) + Texts(b)
    decreases |a|
  {
    assert AllValid(a + b);
    if a == [] {
      assert a + b == b && "" + Texts(b) == Texts(b);
    } else {
      assert AllValid(a[1..]);
      TextsJoin(a[1..], b);
      assert (a + b)[1..] == a[1..] + b;
      assert a[0].Contents() + (Texts(a[1..]) + Texts(b)) == a[0].Contents() + Texts(a[1..]) + Texts(b);
    }
  }

  lemma TextsOne(b: Block)
    requires b.Valid()
    ensures AllValid([b]) && Texts([b]) == b.Contents()
  {
    assert [b][1..] == [];
    assert b.Contents() + "" == b.Contents();
  }

  lemma {:induction false} WritableJoin(a: seq<Block>, b: seq<Block>)
    ensures Writable(a + b) == Writable(a) + Writable(b)
    decreases |a|
  {
    if a == [] {
      assert a + b == b;
    } else {
      assert (a + b)[1..] == a[1..] + b;
      WritableJoin(a[1..], b);
    }
  }

  /** The blocks before and behind one, and that one. */
  lemma SplitAt(bs: seq<Block>, i: nat)
    requires AllValid(bs) && i < |bs|
    ensures AllValid(bs[..i]) && AllValid(bs[i + 1..])
    ensures Texts(bs) == Texts(bs[..i]) + (bs[i].Contents() + Texts(bs[i + 1..]))
    ensures Writable(bs) == Writable(bs[..i]) + bs[i].writable + Writable(bs[i + 1..])
  {
    assert bs == bs[..i] + bs[i..] && bs[i..][1..] == bs[i + 1..];
    assert AllValid(bs[..i]) && AllValid(bs[i..]) && AllValid(bs[i + 1..]);
    TextsJoin(bs[..i], bs[i..]);
    WritableJoin(bs[..i], bs[i..]);
  }

  lemma Front(bs: seq<Block>)
    requires AllValid(bs) && bs != []
    ensures AllValid(bs[1..]) && Texts(bs) == bs[0].Contents() + Texts(bs[1..])
  {
  }

  lemma Pushed(bs: seq<Block>, b: Block)
    requires AllValid(bs) && b.Valid()
    ensures AllValid(bs + [b]) && Texts(bs + [b]) == Texts(bs) + b.Contents()
  {
    TextsOne(b);
    TextsJoin(bs, [b]);
    hide Texts;
  }

  class LinkedBuffer {
    var blocks: seq<Block>
    var totalReadable: nat
    ghost var Repr: set<Block>

    ghost predicate Valid()
      reads this, Repr
    {
      && (forall i :: 0 <= i < |blocks| ==> blocks[i] in Repr)
      && AllValid(blocks) && Distinct(blocks) && totalReadable == |Texts(blocks)|
    }

    ghost function Contents(): (s: string)
      requires Valid()
      reads this, Repr
      ensures |s| == totalReadable
    {
      Texts(blocks)
    }

    constructor ()
      ensures Valid() && Contents() == "" && Repr == {}
    {
      blocks, totalReadable, Repr := [], 0, {};
    }

    /** A block for the bytes still to be written, if the last one is full. */
    method EnsureRoom(remaining: nat)
      requires Valid() && remaining > 0
      modifies this`blocks, this`Repr
      ensures Valid() && old(Repr) <= Repr && fresh(Repr - old(Repr))
      ensures Contents() == old(Contents()) && blocks != [] && blocks[|blocks| - 1].writable > 0
    {
      hide Texts;
      if blocks == [] || blocks[|blocks| - 1].writable == 0 {
        var block := new Block(if remaining < BLOCK_SIZE then BLOCK_SIZE else remaining);
        Pushed(blocks, block);
        assert Texts(blocks) + "" == Texts(blocks);
        blocks := blocks + [block];
        Repr := Repr + {block};
      }
    }

    method WriteBack(bytes: string)
      requires Valid() && blocks != [] && |bytes| <= blocks[|blocks| - 1].writable
      modifies this`totalReadable, Repr
      ensures Valid() && Repr == old(Repr) && blocks == old(blocks)
      ensures Contents() == old(Contents()) + bytes
    {
      hide Texts;
      var back, init := blocks[|blocks| - 1], blocks[..|blocks| - 1];
      assert blocks == init + [back] && AllValid(init);
      Pushed(init, back);
      ghost var before, was := Texts(init), back.Contents();
      back.Write(bytes);
      assert AllValid(init) && Texts(init) == before;
      Pushed(init, back);
      assert before + (was + bytes) == before + was + bytes;
      totalReadable := totalReadable + |bytes|;
    }

    method Append(bytes: string)
      requires Valid()
      modifies this, Repr
      ensures Valid() && fresh(Repr - old(Repr))
      ensures Contents() == old(Contents()) + bytes
    {
      hide Texts, Writable;
      var cur, remaining := 0, |bytes|;
      ghost var q := Contents();
      assert q + bytes[..0] == q;
      while remaining > 0
        invariant 0 <= cur && 0 <= remaining && cur + remaining == |bytes|
        invariant Valid() && fresh(Repr - old(Repr))
        invariant Contents() == q + bytes[..cur]
        decreases remaining
      {
        EnsureRoom(remaining);
        var room := blocks[|blocks| - 1].writable;
        var writeLen := if remaining < room then remaining else room;
        AppendStep(q, bytes, cur, cur + writeLen);
        WriteBack(bytes[cur..cur + writeLen]);
        cur := cur + writeLen;
        remaining := remaining - writeLen;
      }
      assert bytes[..cur] == bytes;
    }

    method PopFront()
      requires Valid() && blocks != []
      modifies this
      ensures Valid() && Repr == old(Repr) && blocks == old(blocks)[1..]
      ensures old(blocks[0].readable) <= |old(Contents())|
      ensures Contents() == old(Contents())[old(blocks[0].readable)..]
    {
      Front(blocks);
      hide Texts;
      totalReadable := totalReadable - blocks[0].readable;
      blocks := blocks[1..];
    }

    method SkipFront(n: nat)
      requires Valid() && blocks != [] && n <= blocks[0].readable
      modifies this`totalReadable, Repr
      ensures Valid() && Repr == old(Repr) && blocks == old(blocks) && blocks[0].readable == old(blocks[0].readable) - n
      ensures n <= |old(Contents())| && Contents() == old(Contents())[n..]
    {
      Front(blocks);
      hide Texts;
      ghost var rest := Texts(blocks[1..]);
      blocks[0].Skip(n);
      assert AllValid(blocks[1..]) && Texts(blocks[1..]) == rest;
      Front(blocks);
      totalReadable := totalReadable - n;
    }

    method Retrieve(len: nat)
      requires Valid() && len <= totalReadable
      modifies this, Repr
      ensures Valid() && Repr == old(Repr)
      ensures Contents() == old(Contents())[len..]
    {
      var remaining := len;
      ghost var q := Contents();
      hide Texts;
      while remaining > 0 && blocks != []
        invariant Valid() && Repr == old(Repr)
        invariant 0 <= remaining <= len <= |q| && Contents() == q[len - remaining..]
        decreases |blocks|, remaining
      {
        Front(blocks);
        if blocks[0].readable <= remaining {
          remaining := remaining - blocks[0].readable;
          PopFront();
        } else {
          SkipFront(remaining);
          remaining := 0;
        }
      }
      NoBlocks(blocks);
    }

    /** What the first block has of the next `n` bytes, and the block itself, if
        that was all it had. */
    method TakeFront(n: nat) returns (copied: string)
      requires Valid() && blocks != []
      modifies this, Repr
      ensures Valid() && Repr == old(Repr)
      ensures |copied| <= n && copied + Contents() == old(Contents())
      ensures |blocks| < old(|blocks|) || (|blocks| == old(|blocks|) && |copied| == n)
    {
      hide Texts;
      Front(blocks);
      var copyLen := if n < blocks[0].readable then n else blocks[0].readable;
      copied := blocks[0].Read(copyLen);
      SkipFront(copyLen);
      if blocks[0].readable == 0 {
        PopFront();
      }
    }

    method RetrieveAsString(len: nat) returns (result: string)
      requires Valid() && len <= totalReadable
      modifies this, Repr
      ensures Valid() && Repr == old(Repr)
      ensures result + Contents() == old(Contents()) && |result| == len
    {
      var remaining := len;
      result := "";
      ghost var q := Contents();
      assert "" + q == q;
      hide Texts, AllValid, Distinct;
      while remaining > 0 && blocks != []
        invariant Valid() && Repr == old(Repr)
        invariant 0 <= remaining <= len && |result| == len - remaining && result + Contents() == q
        decreases |blocks|, remaining
      {
        var copied := TakeFront(remaining);
        Regroup(result, copied, Contents());
        result := result + copied;
        remaining := remaining - |copied|;
      }
      NoBlocks(blocks);
    }

    method RetrieveAll()
      requires Valid()
      modifies this
      ensures Valid() && Repr == old(Repr) && Contents() == ""
    {
      blocks := [];
      totalReadable := 0;
    }

    /** One gathered write that took `n` bytes, or failed. */
    method WriteFd(n: int) returns (written: string)
      requires Valid() && n <= totalReadable
      modifies this, Repr
      ensures Valid() && Repr == old(Repr)
      ensures written + Contents() == old(Contents()) && |written| == if n > 0 then n else 0
    {
      written := "";
      assert "" + Contents() == Contents();
      if totalReadable == 0 { return; }
      var gathered := Gather();
      if n > 0 {
        written := gathered[..n];
        Retrieve(n);
      }
    }

    /** The readable stretches of all blocks, in order. */
    method Gather() returns (all: string)
      requires Valid()
      ensures all == Contents()
    {
      all := "";
      NoBlocks(blocks[..0]);
      hide Texts;
      for i := 0 to |blocks|
        invariant AllValid(blocks[..i]) && all == Texts(blocks[..i])
      {
        assert blocks[..i + 1] == blocks[..i] + [blocks[i]];
        Pushed(blocks[..i], blocks[i]);
        if blocks[i].readable > 0 {
          var s := blocks[i].Read(blocks[i].readable);
          assert s == blocks[i].Contents();
          all := all + s;
        } else {
          assert all + blocks[i].Contents() == all;
        }
      }
      assert blocks[..|blocks|] == blocks;
    }

    method WritableBytes() returns (total: nat)
      ensures total == Writable(blocks)
    {
      total := 0;
      assert blocks[..0] == [];
      for i := 0 to |blocks|
        invariant total == Writable(blocks[..i])
      {
        assert blocks[..i + 1] == blocks[..i] + [blocks[i]];
        WritableJoin(blocks[..i], [blocks[i]]);
        assert [blocks[i]][1..] == [];
        total := total + blocks[i].writable;
      }
      assert blocks[..|blocks|] == blocks;
    }

    /** Without its empty blocks, and the others cut to size. */
    method Compact()
      requires Valid()
      modifies this, Repr
      ensures Valid() && Repr == old(Repr)
      ensures Contents() == old(Contents())
    {
      var i := 0;
      hide Texts;
      while i < |blocks|
        invariant 0 <= i <= |blocks|
        invariant Valid() && Repr == old(Repr)
        invariant Contents() == old(Contents())
        decreases |blocks| - i
      {
        if blocks[i].readable == 0 {
          DropEmpty(i);
        } else {
          ShrinkBlock(i);
          i := i + 1;
        }
      }
    }

    method DropEmpty(i: nat)
      requires Valid() && i < |blocks| && blocks[i].readable == 0
      modifies this`blocks
      ensures Valid() && blocks == old(blocks[..i] + blocks[i + 1..]) && Contents() == old(Contents())
    {
      hide Texts, Writable;
      SplitAt(blocks, i);
      TextsJoin(blocks[..i], blocks[i + 1..]);
      assert "" + Texts(blocks[i + 1..]) == Texts(blocks[i + 1..]);
      blocks := blocks[..i] + blocks[i + 1..];
    }

    /** A block is cut to size. */
    method ShrinkBlock(i: nat)
      requires Valid() && i < |blocks|
      modifies Repr
      ensures Valid() && Repr == old(Repr) && blocks == old(blocks) && Contents() == old(Contents())
    {
      hide Texts, Writable;
      SplitAt(blocks, i);
      ghost var left, right := Texts(blocks[..i]), Texts(blocks[i + 1..]);
      blocks[i].Shrink();
      assert AllValid(blocks);
      SplitAt(blocks, i);
      assert Texts(blocks[..i]) == left && Texts(blocks[i + 1..]) == right;
    }

    /** A block's memory is exchanged for one of another size. */
    method MoveBlock(i: nat, size: nat)
      requires Valid() && i < |blocks| && blocks[i].prependable + blocks[i].readable <= size
      modifies Repr
      ensures Valid() && Repr == old(Repr) && blocks == old(blocks) && Contents() == old(Contents())
      ensures Writable(blocks) == old(Writable(blocks)) - old(blocks[i].writable)
                                  + size - old(blocks[i].prependable + blocks[i].readable)
    {
      hide Texts, Writable;
      SplitAt(blocks, i);
      ghost var left, right := Texts(blocks[..i]), Texts(blocks[i + 1..]);
      ghost var w := Writable(blocks[..i]) + Writable(blocks[i + 1..]);
      blocks[i].Move(size);
      assert AllValid(blocks);
      SplitAt(blocks, i);
      assert Texts(blocks[..i]) == left && Texts(blocks[i + 1..]) == right;
      assert Writable(blocks[..i]) + Writable(blocks[i + 1..]) == w;
    }

    method Shrink(reserve: nat)
      requires Valid()
      modifies this, Repr
      ensures Valid() && Repr == old(Repr)
      ensures Contents() == old(Contents())
      ensures blocks != [] ==> Writable(blocks) >= reserve
    {
      hide Texts, Writable;
      Compact();
      var room := WritableBytes();
      if room < reserve && blocks != [] {
        var last := |blocks| - 1;
        MoveBlock(last, blocks[last].capacity + (reserve - room));
      }
    }
  }

  lemma NoBlocks(bs: seq<Block>)
    requires AllValid(bs)
    ensures bs == [] ==> Texts(bs) == ""
  {
  }

  lemma Regroup(a: string, b: string, c: string)
    ensures a + (b + c) == a + b + c
  {
  }

  lemma AppendStep(q: string, bytes: string, cur: nat, next: nat)
    requires cur <= next <= |bytes|
    ensures q + bytes[..cur] + bytes[cur..next] == q + bytes[..next]
  {
    assert bytes[..cur] + bytes[cur..next] == bytes[..next];
  }
}
