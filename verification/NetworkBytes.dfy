/** The integer codecs of net/buffer.h over net/endian.h: a signed integer of 1, 2, 4 or 8 bytes is
    byte-swapped on a little-endian host and its memory image appended, so the wire is big-endian. */
module NetworkBytes {

  type Byte = b: int | 0 <= b < 256
  type Width = w: int | w > 0 witness 1

  function Modulus(width: nat): (m: nat)
    ensures m > 0
  {
    if width == 0 then 1 else 256 * Modulus(width - 1)
  }

  /** The range of `intN_t` for N = 8 * width. */
  predicate Fits(x: int, width: nat) {
    width > 0 && -(Modulus(width) / 2) <= x < Modulus(width) / 2
  }

  /** Conversion between a signed integer and its unsigned twin. */
  function ToUnsigned(x: int, width: nat): (u: nat)
    requires Fits(x, width)
    ensures u < Modulus(width)
  {
    if x < 0 then x + Modulus(width) else x
  }

  function ToSigned(u: nat, width: nat): int
    requires width > 0 && u < Modulus(width)
  {
    if u < Modulus(width) / 2 then u else u - Modulus(width)
  }

  /** Most significant byte first. */
  function BigEndian(u: nat, width: nat): (s: seq<Byte>)
    ensures |s| == width
  {
    if width == 0 then [] else BigEndian(u / 256, width - 1) + [u % 256]
  }

  /** Memory image of an unsigned integer on the host: least significant byte first. */
  function LittleEndian(u: nat, width: nat): (s: seq<Byte>)
    ensures |s| == width
  {
    if width == 0 then [] else [u % 256] + LittleEndian(u / 256, width - 1)
  }

  function FromBigEndian(s: seq<Byte>): (u: nat)
    ensures u < Modulus(|s|)
  {
    if s == [] then 0 else FromBigEndian(s[..|s| - 1]) * 256 + s[|s| - 1]
  }

  function FromLittleEndian(s: seq<Byte>): (u: nat)
    ensures u < Modulus(|s|)
  {
    if s == [] then 0 else s[0] + 256 * FromLittleEndian(s[1..])
  }

  /** `htonll`, `htonl`, `htons` on a little-endian host, and their inverses: the byte swap. */
  function HostToNetwork(u: nat, width: nat): (n: nat)
    ensures n < Modulus(width)
  {
    FromBigEndian(LittleEndian(u, width))
  }

  /** The bytes `appendIntN` and `prependIntN` store. */
  function Encode(x: int, width: nat): (s: seq<Byte>)
    requires Fits(x, width)
    ensures |s| == width
  {
    LittleEndian(HostToNetwork(ToUnsigned(x, width), width), width)
  }

  /** The integer `peekIntN` makes of the first bytes. */
  function Decode(s: seq<Byte>): int
    requires s != []
  {
    ToSigned(HostToNetwork(FromLittleEndian(s), |s|), |s|)
  }

  function Reverse<T>(s: seq<T>): (r: seq<T>)
    ensures |r| == |s|
  {
    if s == [] then [] else Reverse(s[1..]) + [s[0]]
  }

  lemma {:induction false} ReverseAppend<T>(s: seq<T>, x: T)
    ensures Reverse(s + [x]) == [x] + Reverse(s)
  {
    if s == [] {
      assert [x][1..] == [];
    } else {
      assert (s + [x])[1..] == s[1..] + [x];
      ReverseAppend(s[1..], x);
    }
  }

  lemma {:induction false} ReverseTwice<T>(s: seq<T>)
    ensures Reverse(Reverse(s)) == s
  {
    if s != [] {
      ReverseTwice(s[1..]);
      ReverseAppend(Reverse(s[1..]), s[0]);
    }
  }

  lemma {:induction false} LittleIsReversedBig(u: nat, width: nat)
    ensures LittleEndian(u, width) == Reverse(BigEndian(u, width))
  {
    if width > 0 {
      LittleIsReversedBig(u / 256, width - 1);
      var last: Byte := u % 256;
      ReverseAppend<Byte>(BigEndian(u / 256, width - 1), last);
    }
  }

  lemma {:induction false} BigEndianRoundTrip(u: nat, width: nat)
    requires u < Modulus(width)
    ensures FromBigEndian(BigEndian(u, width)) == u
  {
    if width > 0 {
      BigEndianRoundTrip(u / 256, width - 1);
    }
  }

  lemma {:induction false} FromBigEndianRoundTrip(s: seq<Byte>)
    ensures BigEndian(FromBigEndian(s), |s|) == s
  {
    if s != [] {
      FromBigEndianRoundTrip(s[..|s| - 1]);
    }
  }

  lemma {:induction false} LittleEndianRoundTrip(u: nat, width: nat)
    requires u < Modulus(width)
    ensures FromLittleEndian(LittleEndian(u, width)) == u
  {
    if width > 0 {
      LittleEndianRoundTrip(u / 256, width - 1);
    }
  }

  /** Swapping before storing puts big-endian bytes into memory. */
  lemma SwappedImageIsBigEndian(u: nat, width: nat)
    ensures LittleEndian(HostToNetwork(u, width), width) == BigEndian(u, width)
  {
    var le := LittleEndian(u, width);
    LittleIsReversedBig(HostToNetwork(u, width), width);
    FromBigEndianRoundTrip(le);
    LittleIsReversedBig(u, width);
    ReverseTwice(BigEndian(u, width));
  }

  /** Swapping twice is the identity on `width` bytes. */
  lemma SwapTwice(u: nat, width: nat)
    requires u < Modulus(width)
    ensures HostToNetwork(HostToNetwork(u, width), width) == u
  {
    SwappedImageIsBigEndian(u, width);
    BigEndianRoundTrip(u, width);
  }

  /** The wire carries big-endian two's complement. */
  lemma EncodeIsBigEndian(x: int, width: nat)
    requires Fits(x, width)
    ensures Encode(x, width) == BigEndian(ToUnsigned(x, width), width)
  {
    SwappedImageIsBigEndian(ToUnsigned(x, width), width);
  }

  lemma DecodeEncode(x: int, width: nat)
    requires Fits(x, width)
    ensures Decode(Encode(x, width)) == x
  {
    var u := ToUnsigned(x, width);
    LittleEndianRoundTrip(HostToNetwork(u, width), width);
    SwapTwice(u, width);
    assert Modulus(width) == 256 * Modulus(width - 1);
  }

  /** A signed integer with its width in bytes. */
  datatype Field = Field(value: int, width: Width)

  predicate AllFit(fs: seq<Field>) {
    forall f :: f in fs ==> Fits(f.value, f.width)
  }

  /** What appending the fields one after another writes. */
  function EncodeAll(fs: seq<Field>): seq<Byte>
    requires AllFit(fs)
  {
    if fs == [] then [] else Encode(fs[0].value, fs[0].width) + EncodeAll(fs[1..])
  }

  function Widths(fs: seq<Field>): seq<Width> {
    if fs == [] then [] else [fs[0].width] + Widths(fs[1..])
  }

  function TotalWidth(ws: seq<Width>): nat {
    if ws == [] then 0 else ws[0] + TotalWidth(ws[1..])
  }

  /** Reading fields of the given widths one after another: the fields and what is left. */
  function ReadAll(s: seq<Byte>, ws: seq<Width>): (seq<Field>, seq<Byte>)
    requires TotalWidth(ws) <= |s|
    decreases |ws|
  {
    if ws == [] then ([], s)
    else
      var (fs, rest) := ReadAll(s[ws[0]..], ws[1..]);
      ([Field(Decode(s[..ws[0]]), ws[0])] + fs, rest)
  }

  lemma ReadFirst(first: seq<Byte>, after: seq<Byte>, f: Field, ws: seq<Width>)
    requires |first| == f.width && Decode(first) == f.value && TotalWidth(ws) <= |after|
    ensures TotalWidth([f.width] + ws) == f.width + TotalWidth(ws)
    ensures ReadAll(first + after, [f.width] + ws) == ([f] + ReadAll(after, ws).0, ReadAll(after, ws).1)
  {
    assert ([f.width] + ws)[1..] == ws;
    assert (first + after)[..f.width] == first && (first + after)[f.width..] == after;
  }

  /** Reading back with the same widths returns the list, whatever follows it. */
  lemma {:induction false} ReadAllEncodeAll(fs: seq<Field>, rest: seq<Byte>)
    requires AllFit(fs)
    ensures TotalWidth(Widths(fs)) == |EncodeAll(fs)|
    ensures ReadAll(EncodeAll(fs) + rest, Widths(fs)) == (fs, rest)
    decreases |fs|
  {
    hide Encode, Decode, Fits;
    if fs == [] {
      assert EncodeAll(fs) + rest == rest;
    } else {
      var f, first := fs[0], Encode(fs[0].value, fs[0].width);
      ReadAllEncodeAll(fs[1..], rest);
      DecodeEncode(f.value, f.width);
      var after := EncodeAll(fs[1..]) + rest;
      ReadFirst(first, after, f, Widths(fs[1..]));
      assert EncodeAll(fs) + rest == first + after;
      assert fs == [f] + fs[1..];
    }
  }
}
