/** The sliding byte buffer of net/buffer.h and net/buffer.cpp. */
module BufferClass {
  import opened NetworkBytes

  const CHEAP_PREPEND := 8
  const INITIAL_SIZE := 1024
  const EXTRA_BUFFER := 65536

  /** What `readv` can deliver at most: the writable part, and the stack buffer when that part is small. */
  function ReadLimit(writable: nat): nat {
    if writable < EXTRA_BUFFER then writable + EXTRA_BUFFER else writable
  }

  class Buffer {
    var data: array<Byte>
    var readerIndex: nat
    var writerIndex: nat

    ghost predicate Valid()
      reads this
    {
      readerIndex <= writerIndex <= data.Length && CHEAP_PREPEND <= data.Length
    }

    /** The readable bytes: what the buffer is, as a plain sequence. */
    function Contents(): (s: seq<Byte>)
      reads this, data
      requires Valid()
      ensures |s| == writerIndex - readerIndex
    {
      data[readerIndex..writerIndex]
    }

    function Readable(): nat
      reads this
      requires Valid()
    {
      writerIndex - readerIndex
    }

    function Writable(): nat
      reads this
      requires Valid()
    {
      data.Length - writerIndex
    }

    constructor (initialSize: nat)
      ensures Valid() && fresh(data) && Contents() == []
      ensures Writable() == initialSize && readerIndex == CHEAP_PREPEND
    {
      data := new Byte[CHEAP_PREPEND + initialSize](_ => 0);
      readerIndex, writerIndex := CHEAP_PREPEND, CHEAP_PREPEND;
    }

    method RetrieveAll()
      requires Valid()
      modifies this`readerIndex, this`writerIndex
      ensures Valid() && Contents() == [] && readerIndex == CHEAP_PREPEND
    {
      readerIndex, writerIndex := CHEAP_PREPEND, CHEAP_PREPEND;
    }

    method Retrieve(len: nat)
      requires Valid() && len <= Readable()
      modifies this`readerIndex, this`writerIndex
      ensures Valid() && Contents() == old(Contents())[len..]
      ensures readerIndex == if len < old(Readable()) then old(readerIndex) + len else CHEAP_PREPEND
    {
      if len < Readable() {
        readerIndex := readerIndex + len;
      } else {
        RetrieveAll();
      }
    }

    method RetrieveAsString(len: nat) returns (s: seq<Byte>)
      requires Valid() && len <= Readable()
      modifies this`readerIndex, this`writerIndex
      ensures Valid() && old(Contents()) == s + Contents() && |s| == len
    {
      s := data[readerIndex..readerIndex + len];
      Retrieve(len);
    }

    method Unwrite(len: nat)
      requires Valid() && len <= Readable()
      modifies this`writerIndex
      ensures Valid() && Contents() == old(Contents())[..old(Readable()) - len]
    {
      ghost var was := Contents();
      writerIndex := writerIndex - len;
      assert data[readerIndex..writerIndex] == was[..|was| - len];
    }

    /** `buffer_.resize(n)`, growing. */
    method Resize(n: nat)
      requires Valid() && data.Length <= n
      modifies this`data
      ensures Valid() && fresh(data) && data.Length == n && Contents() == old(Contents())
    {
      var bigger := new Byte[n](_ => 0);
      forall i | 0 <= i < data.Length { bigger[i] := data[i]; }
      data := bigger;
    }

    /** The overlapping `std::copy` of the readable bytes to the front, in ascending order. */
    method SlideToFront()
      requires Valid() && CHEAP_PREPEND < readerIndex
      modifies this`readerIndex, this`writerIndex, data
      ensures Valid() && readerIndex == CHEAP_PREPEND && Contents() == old(Contents())
    {
      var readable := Readable();
      ghost var was := data[..];
      for i := 0 to readable
        invariant readerIndex + readable == writerIndex <= data.Length
        invariant Valid() && readerIndex == old(readerIndex) && writerIndex == old(writerIndex)
        invariant forall k :: CHEAP_PREPEND <= k < CHEAP_PREPEND + i ==> data[k] == was[k + readerIndex - CHEAP_PREPEND]
        invariant forall k :: readerIndex + i <= k < data.Length ==> data[k] == was[k]
      {
        data[CHEAP_PREPEND + i] := data[readerIndex + i];
      }
      assert data[CHEAP_PREPEND..CHEAP_PREPEND + readable] == was[readerIndex..writerIndex];
      readerIndex := CHEAP_PREPEND;
      writerIndex := readerIndex + readable;
    }

    /** `makeSpace`: grow, or slide when the slack in front makes room; the assert of the source holds,
        and growing is bounded. */
    method MakeSpace(len: nat)
      requires Valid() && Writable() < len
      modifies this, data
      ensures Valid() && (data == old(data) || fresh(data)) && Contents() == old(Contents()) && len <= Writable()
      ensures data != old(data) ==> data.Length < Readable() + 2 * len + CHEAP_PREPEND
      ensures data == old(data) <==> old(Writable() + readerIndex) >= len + CHEAP_PREPEND
      ensures data == old(data) ==> readerIndex == CHEAP_PREPEND
      ensures data != old(data) ==> readerIndex == old(readerIndex) && data.Length == writerIndex + len
    {
      if Writable() + readerIndex < len + CHEAP_PREPEND {
        Resize(writerIndex + len);
      } else {
        assert CHEAP_PREPEND < readerIndex;
        SlideToFront();
      }
    }

    method EnsureWritableBytes(len: nat)
      requires Valid()
      modifies this, data
      ensures Valid() && (data == old(data) || fresh(data)) && Contents() == old(Contents()) && len <= Writable()
      ensures data.Length <= old(data.Length) || data.Length < Readable() + 2 * len + CHEAP_PREPEND
      ensures old(Writable()) >= len ==> data == old(data) && readerIndex == old(readerIndex)
      ensures old(Writable()) < len && data == old(data) ==> CHEAP_PREPEND < old(readerIndex)
      ensures data != old(data) ==> readerIndex == old(readerIndex) && data.Length == writerIndex + len
    {
      if Writable() < len {
        MakeSpace(len);
      }
    }

    method Append(s: seq<Byte>)
      requires Valid()
      modifies this, data
      ensures Valid() && (data == old(data) || fresh(data)) && Contents() == old(Contents()) + s
      ensures old(Writable()) >= |s| ==> data == old(data)
    {
      EnsureWritableBytes(|s|);
      forall i | 0 <= i < |s| { data[writerIndex + i] := s[i]; }
      writerIndex := writerIndex + |s|;
    }

    method Prepend(s: seq<Byte>)
      requires Valid() && |s| <= readerIndex
      modifies this`readerIndex, data
      ensures Valid() && Contents() == s + old(Contents())
    {
      readerIndex := readerIndex - |s|;
      forall i | 0 <= i < |s| { data[readerIndex + i] := s[i]; }
    }

    /** `shrink`: the content moves to a buffer with just the reserve, or the initial size if that is more. */
    method Shrink(reserve: nat)
      requires Valid()
      modifies this
      ensures Valid() && fresh(data) && Contents() == old(Contents())
      ensures data.Length ==
        CHEAP_PREPEND + if |Contents()| + reserve <= INITIAL_SIZE then INITIAL_SIZE else |Contents()| + reserve
    {
      var other := new Buffer(INITIAL_SIZE);
      other.EnsureWritableBytes(Readable() + reserve);
      other.Append(Contents());
      data, readerIndex, writerIndex := other.data, other.readerIndex, other.writerIndex;
    }

    /** `readFd`: what the socket delivers lands behind the content, spilling over the stack buffer. */
    method ReadFd(input: seq<Byte>) returns (n: nat)
      requires Valid() && |input| <= ReadLimit(Writable())
      modifies this, data
      ensures Valid() && (data == old(data) || fresh(data)) && Contents() == old(Contents()) + input && n == |input|
    {
      n := |input|;
      var writable := Writable();
      var direct := if n <= writable then n else writable;
      forall i | 0 <= i < direct { data[writerIndex + i] := input[i]; }
      if n <= writable {
        writerIndex := writerIndex + n;
      } else {
        writerIndex := data.Length;
        assert Contents() == old(Contents()) + input[..writable];
        Append(input[writable..]);
        assert input == input[..writable] + input[writable..];
      }
    }

    // The integer codecs, for every width.

    method AppendInt(x: int, width: Width)
      requires Valid() && Fits(x, width)
      modifies this, data
      ensures Valid() && (data == old(data) || fresh(data)) && Contents() == old(Contents()) + Encode(x, width)
    {
      Append(Encode(x, width));
    }

    method PrependInt(x: int, width: Width)
      requires Valid() && Fits(x, width) && width <= readerIndex
      modifies this`readerIndex, data
      ensures Valid() && Contents() == Encode(x, width) + old(Contents())
    {
      Prepend(Encode(x, width));
    }

    function PeekInt(width: Width): int
      reads this, data
      requires Valid() && width <= Readable()
    {
      Decode(data[readerIndex..readerIndex + width])
    }

    method ReadInt(width: Width) returns (x: int)
      requires Valid() && width <= Readable()
      modifies this`readerIndex, this`writerIndex
      ensures Valid() && x == Decode(old(Contents())[..width]) && Contents() == old(Contents())[width..]
    {
      x := PeekInt(width);
      assert data[readerIndex..readerIndex + width] == Contents()[..width];
      Retrieve(width);
    }
  }

  method AppendFields(b: Buffer, fs: seq<Field>)
    requires b.Valid() && AllFit(fs)
    modifies b, b.data
    ensures b.Valid() && (b.data == old(b.data) || fresh(b.data)) && b.Contents() == old(b.Contents()) + EncodeAll(fs)
  {
    hide Encode, Fits;
    for i := 0 to |fs|
      invariant b.Valid() && (b.data == old(b.data) || fresh(b.data))
      invariant b.Contents() + EncodeAll(fs[i..]) == old(b.Contents()) + EncodeAll(fs)
    {
      ghost var was := b.Contents();
      assert fs[i..][1..] == fs[i + 1..] && fs[i..][0] == fs[i];
      b.AppendInt(fs[i].value, fs[i].width);
      assert b.Contents() + EncodeAll(fs[i + 1..]) == was + EncodeAll(fs[i..]);
    }
  }

  method ReadFields(b: Buffer, ws: seq<Width>) returns (fs: seq<Field>)
    requires b.Valid() && TotalWidth(ws) <= b.Readable()
    modifies b`readerIndex, b`writerIndex
    ensures b.Valid() && (fs, b.Contents()) == ReadAll(old(b.Contents()), ws)
    decreases |ws|
  {
    if ws == [] { return []; }
    var x := b.ReadInt(ws[0]);
    var rest := ReadFields(b, ws[1..]);
    fs := [Field(x, ws[0])] + rest;
  }

  /** Appending a list of integers and reading it back with the same widths returns it, and leaves what
      was behind it. */
  method AppendThenRead(b: Buffer, fs: seq<Field>, tail: seq<Byte>) returns (back: seq<Field>)
    requires b.Valid() && b.Contents() == [] && AllFit(fs)
    modifies b, b.data
    ensures b.Valid() && back == fs && b.Contents() == tail
  {
    AppendFields(b, fs);
    b.Append(tail);
    ReadAllEncodeAll(fs, tail);
    assert b.Contents() == EncodeAll(fs) + tail;
    back := ReadFields(b, Widths(fs));
  }

  /** Prepending into the headroom and reading is the identity on the rest. */
  method PrependThenRead(b: Buffer, x: int, width: Width) returns (y: int)
    requires b.Valid() && Fits(x, width) && width <= b.readerIndex
    modifies b, b.data
    ensures b.Valid() && y == x && b.Contents() == old(b.Contents())
  {
    b.PrependInt(x, width);
    DecodeEncode(x, width);
    assert b.Contents()[..width] == Encode(x, width);
    y := b.ReadInt(width);
  }
}
