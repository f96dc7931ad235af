/**
 The contiguous byte buffer of the connections: one vector with two indices,
 readable bytes between them. Every operation is proved to be an operation on
 the queue of readable bytes.
 */
module NetBuffer {
  import opened Bytes

  const CHEAP_PREPEND: nat := 8
  const INITIAL_SIZE: nat := 1024
  const EXTRA_BUF: nat := 65536

  /** The outcome of one `readv`. */
  datatype ReadResult = Failed | Received(bytes: string)

  /** A vector's bytes after `bytes` was copied over those at `at`. */
  function Patched(d: string, bytes: string, at: nat): string
    requires at + |bytes| <= |d|
  {
    d[..at] + bytes + d[at + |bytes|..]
  }

  lemma PatchedBehind(d: string, bytes: string, at: nat, lo: nat)
    requires lo <= at && at + |bytes| <= |d|
    ensures Patched(d, bytes, at)[lo..at + |bytes|] == d[lo..at] + bytes
  {
  }

  lemma PatchedFront(d: string, bytes: string, at: nat, hi: nat)
    requires at + |bytes| <= hi <= |d|
    ensures Patched(d, bytes, at)[at..hi] == bytes + d[at + |bytes|..hi]
  {
  }

  /** The free bytes in front of the readable ones and behind them. */
  datatype Room = Room(front: nat, back: nat)

  /** The room after space for `len` more bytes was made, if need be. */
  function RoomFor(r: Room, len: nat): (s: Room)
    ensures s.back >= len
  {
    if r.back >= len then r
    else if r.back + r.front < len + CHEAP_PREPEND then Room(r.front, len)
    else Room(CHEAP_PREPEND, r.back + r.front - CHEAP_PREPEND)
  }

  /** ... and after the bytes were put there. */
  function RoomAfter(r: Room, len: nat): Room {
    Room(RoomFor(r, len).front, RoomFor(r, len).back - len)
  }

  class Buffer {
    var data: array<char>
    var readIndex: nat
    var writeIndex: nat

    ghost predicate Valid()
      reads this
    {
      readIndex <= writeIndex <= data.Length && CHEAP_PREPEND <= data.Length
    }

    /** The queue: what has been written and not yet retrieved. */
    ghost function Contents(): (s: string)
      requires Valid()
      reads this, data
      ensures |s| == ReadableBytes()
    {
      data[readIndex..writeIndex]
    }

    /** The bytes left in memory behind the readable ones. */
    ghost function Stale(): string
      requires Valid()
      reads this, data
    {
      data[writeIndex..]
    }

    ghost function Space(): Room
      requires Valid()
      reads this
    {
      Room(PrependableBytes(), WritableBytes())
    }

    function ReadableBytes(): (n: nat)
      requires Valid()
      reads this
    {
      writeIndex - readIndex
    }

    function WritableBytes(): (n: nat)
      requires Valid()
      reads this
    {
      data.Length - writeIndex
    }

    function PrependableBytes(): (n: nat)
      reads this
    {
      readIndex
    }

    constructor ()
      ensures Valid() && fresh(data) && Contents() == ""
      ensures Space() == Room(8, 1024)
    {
      data := new char[CHEAP_PREPEND + INITIAL_SIZE](_ => '\0');
      readIndex, writeIndex := CHEAP_PREPEND, CHEAP_PREPEND;
    }

    /** The first CRLF in the readable bytes, as an offset from the front. */
    method FindCRLF() returns (i: nat)
      requires Valid()
      ensures i == Search(Contents(), "\r\n")
    {
      i := Search(data[readIndex..writeIndex], "\r\n");
    }

    /** The first `n` readable bytes, left in place. */
    method Peek(n: nat) returns (s: string)
      requires Valid() && n <= ReadableBytes()
      ensures s == Contents()[..n]
    {
      s := data[readIndex..readIndex + n];
      assert s == data[readIndex..writeIndex][..n];
    }

    /** What a C function sees that starts reading at an offset from the front:
        the array does not end with the readable bytes. */
    method MemoryFrom(offset: nat) returns (s: string)
      requires Valid() && offset <= ReadableBytes()
      ensures s == (Contents() + Stale())[offset..]
    {
      s := data[readIndex + offset..];
    }

    method RetrieveAll()
      requires Valid()
      modifies this
      ensures Valid() && data == old(data) && Contents() == ""
      ensures Space() == Room(CHEAP_PREPEND, data.Length - CHEAP_PREPEND)
    {
      readIndex, writeIndex := CHEAP_PREPEND, CHEAP_PREPEND;
    }

    method Retrieve(n: nat)
      requires Valid() && n <= ReadableBytes()
      modifies this
      ensures Valid() && data == old(data)
      ensures Contents() == old(Contents())[n..]
      ensures Contents() != "" ==> writeIndex == old(writeIndex)
      ensures Space() == if n < old(ReadableBytes()) then Room(old(readIndex) + n, old(WritableBytes()))
                         else Room(CHEAP_PREPEND, data.Length - CHEAP_PREPEND)
    {
      if n < ReadableBytes() {
        readIndex := readIndex + n;
      } else {
        RetrieveAll();
      }
    }

    method RetrieveAsString(n: nat) returns (s: string)
      requires Valid() && n <= ReadableBytes()
      modifies this
      ensures Valid() && data == old(data)
      ensures s == old(Contents())[..n] && Contents() == old(Contents())[n..]
      ensures Space() == if n < old(ReadableBytes()) then Room(old(readIndex) + n, old(WritableBytes()))
                         else Room(CHEAP_PREPEND, data.Length - CHEAP_PREPEND)
    {
      s := Peek(n);
      Retrieve(n);
    }

    /** Room for `len` more bytes: by growing the vector, or, when the free space
        in front and behind is enough together, by moving the readable bytes to
        the front. */
    method MakeSpace(len: nat)
      requires Valid() && WritableBytes() < len
      modifies this, data
      ensures Valid() && (data == old(data) || fresh(data))
      ensures Contents() == old(Contents()) && WritableBytes() >= len && Space() == RoomFor(old(Space()), len)
      ensures old(PrependableBytes() + WritableBytes()) >= len + 8 ==> data == old(data)
    {
      if WritableBytes() + PrependableBytes() < len + CHEAP_PREPEND {
        Resize(writeIndex + len);
      } else {
        assert CHEAP_PREPEND < readIndex;
        var readable := ReadableBytes();
        ghost var was := data[..];
        var k := 0;
        while k < readable
          invariant k <= readable
          invariant data == old(data) && readIndex == old(readIndex) && writeIndex == old(writeIndex)
          invariant forall j :: CHEAP_PREPEND <= j < CHEAP_PREPEND + k ==> data[j] == was[readIndex - CHEAP_PREPEND + j]
          invariant forall j :: readIndex + k <= j < writeIndex ==> data[j] == was[j]
        {
          data[CHEAP_PREPEND + k] := data[readIndex + k];
          k := k + 1;
        }
        readIndex := CHEAP_PREPEND;
        writeIndex := readIndex + readable;
        assert readable == ReadableBytes();
        assert data[readIndex..writeIndex] == was[old(readIndex)..old(writeIndex)];
      }
    }

    /** `std::vector::resize` to a larger size. */
    method Resize(size: nat)
      requires Valid() && data.Length <= size
      modifies this
      ensures Valid() && fresh(data) && data.Length == size
      ensures readIndex == old(readIndex) && writeIndex == old(writeIndex)
      ensures Contents() == old(Contents())
    {
      var grown := new char[size](i requires 0 <= i reads this, data => if i < data.Length then data[i] else '\0');
      data := grown;
    }

    method CheckWritableSpace(len: nat)
      requires Valid()
      modifies this, data
      ensures Valid() && (data == old(data) || fresh(data))
      ensures Contents() == old(Contents()) && WritableBytes() >= len && Space() == RoomFor(old(Space()), len)
      ensures old(WritableBytes()) >= len ==>
                data == old(data) && readIndex == old(readIndex) && writeIndex == old(writeIndex)
      ensures old(PrependableBytes() + WritableBytes()) >= len + 8 ==> data == old(data)
    {
      if WritableBytes() < len {
        MakeSpace(len);
      }
      assert WritableBytes() >= len;
    }

    /** The next `len` bytes of the memory behind become readable. */
    method HasWritten(len: nat)
      requires Valid() && len <= WritableBytes()
      modifies this`writeIndex
      ensures Valid() && Contents() == old(Contents()) + old(Stale())[..len]
      ensures Space() == Room(readIndex, old(WritableBytes()) - len)
    {
      writeIndex := writeIndex + len;
    }

    /** Takes back the last `len` bytes written. */
    method UnWrite(len: nat)
      requires Valid() && len <= ReadableBytes()
      modifies this`writeIndex
      ensures Valid() && Contents() == old(Contents())[..|old(Contents())| - len]
      ensures Space() == Room(old(readIndex), old(WritableBytes()) + len)
    {
      writeIndex := writeIndex - len;
    }

    /** `std::copy` into the vector at `at`. */
    method CopyIn(bytes: string, at: nat)
      requires at + |bytes| <= data.Length
      modifies data
      ensures data[..] == Patched(old(data[..]), bytes, at)
    {
      var k := 0;
      while k < |bytes|
        invariant k <= |bytes|
        invariant forall j :: 0 <= j < data.Length ==>
                    data[j] == if at <= j < at + k then bytes[j - at] else old(data[j])
      {
        data[at + k] := bytes[k];
        k := k + 1;
      }
    }

    /** Bytes written into the free space behind, and the index moved over them. */
    method Fill(bytes: string)
      requires Valid() && |bytes| <= WritableBytes()
      modifies this`writeIndex, data
      ensures Valid() && Contents() == old(Contents()) + bytes
      ensures writeIndex == old(writeIndex) + |bytes|
    {
      PatchedBehind(data[..], bytes, writeIndex, readIndex);
      CopyIn(bytes, writeIndex);
      HasWritten(|bytes|);
    }

    method Append(bytes: string)
      requires Valid()
      modifies this, data
      ensures Valid() && (data == old(data) || fresh(data))
      ensures Contents() == old(Contents()) + bytes && Space() == RoomAfter(old(Space()), |bytes|)
      ensures |bytes| <= old(WritableBytes()) ==>
                data == old(data) && WritableBytes() == old(WritableBytes()) - |bytes|
      ensures old(PrependableBytes() + WritableBytes()) >= |bytes| + 8 ==> data == old(data)
    {
      CheckWritableSpace(|bytes|);
      Fill(bytes);
    }

    method Prepend(bytes: string)
      requires Valid() && |bytes| <= PrependableBytes()
      modifies this, data
      ensures Valid() && data == old(data)
      ensures Contents() == bytes + old(Contents())
      ensures Space() == Room(old(readIndex) - |bytes|, old(WritableBytes()))
    {
      readIndex := readIndex - |bytes|;
      PatchedFront(data[..], bytes, readIndex, writeIndex);
      CopyIn(bytes, readIndex);
    }

    /** The two buffers trade places: contents, memory behind them and room. */
    method Swap(that: Buffer)
      requires Valid() && that.Valid()
      modifies this, that
      ensures Valid() && that.Valid() && data == old(that.data) && that.data == old(data)
      ensures Contents() == old(that.Contents()) && that.Contents() == old(Contents())
      ensures Stale() == old(that.Stale()) && that.Stale() == old(Stale())
      ensures Space() == old(that.Space()) && that.Space() == old(Space())
    {
      data, that.data := that.data, data;
      readIndex, that.readIndex := that.readIndex, readIndex;
      writeIndex, that.writeIndex := that.writeIndex, writeIndex;
    }

    method Shrink(reserve: nat)
      requires Valid()
      modifies this
      ensures Valid() && fresh(data)
      ensures Contents() == old(Contents()) && WritableBytes() >= reserve
      ensures var size := |old(Contents())|;
              Space() == RoomAfter(RoomFor(Room(CHEAP_PREPEND, INITIAL_SIZE), size + reserve), size)
    {
      var other := new Buffer();
      other.CheckWritableSpace(ReadableBytes() + reserve);
      var bytes := Peek(ReadableBytes());
      other.Append(bytes);
      Swap(other);
    }

    /** One scattered read: into the free space behind, and what does not fit
        into a 64 KB array on the stack, from which it is appended. */
    method ReadFd(outcome: ReadResult)
      requires Valid()
      requires outcome.Received? ==>
                 |outcome.bytes| <= WritableBytes() + (if WritableBytes() < 65536 then 65536 else 0)
      modifies this, data
      ensures Valid() && (data == old(data) || fresh(data))
      ensures Contents() == old(Contents()) + (if outcome.Received? then outcome.bytes else "")
      ensures Space() == if outcome.Failed? then old(Space())
                         else if |outcome.bytes| <= old(WritableBytes()) then RoomAfter(old(Space()), |outcome.bytes|)
                         else RoomAfter(Room(old(readIndex), 0), |outcome.bytes| - old(WritableBytes()))
    {
      if outcome.Received? {
        var bytes, writable := outcome.bytes, WritableBytes();
        if |bytes| <= writable {
          Fill(bytes);
        } else {
          assert bytes == bytes[..writable] + bytes[writable..];
          Fill(bytes[..writable]);
          Append(bytes[writable..]);
        }
      }
    }
  }
}
