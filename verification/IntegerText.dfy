/** Integers as text (base/logStream.cpp): `convert`, `convertHex` and `formatInteger`. */
module IntegerText {
  import opened FixedBufferModule

  // ---------------------------------------------------------------------------------------------
  // Numerals, and what they denote

  function DigitChar(d: nat): char
    requires d < 16
  {
    if d < 10 then '0' + d as char else 'A' + (d - 10) as char
  }

  function DigitValue(c: char): int {
    if '0' <= c <= '9' then (c - '0') as int else if 'A' <= c <= 'F' then (c - 'A') as int + 10 else -1
  }

  lemma DigitInverts(d: nat)
    requires d < 16
    ensures DigitValue(DigitChar(d)) == d
  {}

  function Quot(n: nat, b: nat): (q: nat)
    requires b >= 2
    ensures (n < b <==> q == 0) && (n > 0 ==> q < n)
  {
    n / b
  }

  function Rem(n: nat, b: nat): (r: nat)
    requires b >= 2
    ensures r < b && (n < b ==> r == n)
  {
    n % b
  }

  lemma QuotRem(n: nat, b: nat)
    requires b >= 2
    ensures n == Quot(n, b) * b + Rem(n, b)
  {}

  /** The numeral of `n` in base `b`, most significant digit first. */
  function Numeral(n: nat, b: nat): string
    requires 2 <= b <= 16
  {
    if n < b then [DigitChar(n)] else Numeral(Quot(n, b), b) + [DigitChar(Rem(n, b))]
  }

  function ParseNumeral(s: string, b: nat): int {
    if s == "" then 0 else ParseNumeral(s[..|s| - 1], b) * b + DigitValue(s[|s| - 1])
  }

  function Text(v: int): string { if v < 0 then "-" + Numeral(-v, 10) else Numeral(v, 10) }

  function Parse(s: string): int {
    if s != "" && s[0] == '-' then -ParseNumeral(s[1..], 10) else ParseNumeral(s, 10)
  }

  lemma {:induction false} NumeralRoundTrip(n: nat, b: nat)
    requires 2 <= b <= 16
    ensures ParseNumeral(Numeral(n, b), b) == n
    decreases n
  {
    hide Quot, Rem, DigitValue;
    if n >= b {
      var init, d := Numeral(Quot(n, b), b), Rem(n, b);
      NumeralRoundTrip(Quot(n, b), b);
      DigitInverts(d);
      QuotRem(n, b);
      var s := Numeral(n, b);
      assert s == init + [DigitChar(d)] && s[..|s| - 1] == init;
    } else {
      DigitInverts(n);
      assert Numeral(n, b)[..0] == "";
    }
  }

  /** A numeral starts with a digit, and with `0` only if it is `0`. */
  lemma {:induction false} NoLeadingZero(n: nat, b: nat)
    requires 2 <= b <= 16
    ensures Numeral(n, b) != "" && DigitValue(Numeral(n, b)[0]) >= 0
    ensures Numeral(n, b)[0] == '0' <==> n == 0
    decreases n
  {
    hide Quot, Rem;
    if n >= b {
      NoLeadingZero(Quot(n, b), b);
    } else {
      DigitInverts(n);
    }
  }

  /** Reading the text back gives the value, for every integer. */
  lemma TextRoundTrip(v: int)
    ensures Parse(Text(v)) == v
    ensures Text(v) != "" && (v != 0 ==> Text(v)[if v < 0 then 1 else 0] != '0')
  {
    var n := if v < 0 then -v else v;
    NumeralRoundTrip(n, 10);
    NoLeadingZero(n, 10);
    if v < 0 {
      assert Text(v)[1..] == Numeral(n, 10);
    }
  }

  function Power(b: nat, k: nat): nat { if k == 0 then 1 else b * Power(b, k - 1) }

  lemma {:induction false} NumeralLength(n: nat, b: nat, k: nat)
    requires 2 <= b <= 16 && k > 0 && n < Power(b, k)
    ensures |Numeral(n, b)| <= k
    decreases k
  {
    hide Quot, Rem;
    if n >= b {
      assert k > 1 by { assert Power(b, 1) == b * Power(b, 0) == b; }
      QuotRem(n, b);
      QuotBelow(Quot(n, b), Rem(n, b), b, Power(b, k - 1));
      NumeralLength(Quot(n, b), b, k - 1);
    }
  }

  lemma QuotBelow(q: nat, r: nat, b: nat, p: nat)
    requires r < b && q * b + r < b * p
    ensures q < p
  {
    if q >= p {
      MulMonotone(p, q, b);
    }
  }

  lemma MulMonotone(p: nat, q: nat, b: nat)
    requires p <= q
    ensures b * p <= q * b
  {
    assert q * b == p * b + (q - p) * b;
  }

  const INT64_MIN := -0x8000_0000_0000_0000
  const UINT64_MAX := 0xFFFF_FFFF_FFFF_FFFF

  /** `kMaxNumericSize`. */
  const MAX_NUMERIC_SIZE := 48

  /** Every value of a 64-bit type, signed or not, takes at most 20 characters. */
  lemma TextLength(v: int)
    requires INT64_MIN <= v <= UINT64_MAX
    ensures |Text(v)| <= 20
  {
    if v < 0 {
      assert Power(10, 19) == 10_000_000_000_000_000_000 by { TenToThe19(); }
      NumeralLength(-v, 10, 19);
    } else {
      assert Power(10, 20) == 10 * Power(10, 19) by { TenToThe19(); }
      TenToThe19();
      NumeralLength(v, 10, 20);
    }
  }

  lemma TenToThe19()
    ensures Power(10, 19) == 10_000_000_000_000_000_000
  {
    assert Power(10, 4) == 10_000;
    assert Power(10, 8) == 100_000_000;
    assert Power(10, 12) == 1_000_000_000_000;
    assert Power(10, 16) == 10_000_000_000_000_000;
  }

  lemma HexLength(v: nat)
    requires v <= UINT64_MAX
    ensures |Numeral(v, 16)| <= 16
  {
    assert Power(16, 4) == 0x1_0000;
    assert Power(16, 8) == 0x1_0000_0000;
    assert Power(16, 12) == 0x1_0000_0000_0000;
    assert Power(16, 16) == 0x1_0000_0000_0000_0000;
    NumeralLength(v, 16, 16);
  }

  // ---------------------------------------------------------------------------------------------
  // The code

  /** `digits`; `zero` points at its middle, so that indexing works for a negative remainder, too. */
  const DIGITS := "9876543210123456789"

  const DIGITS_HEX := "0123456789ABCDEF"

  /** C division by ten truncates toward zero. */
  function TenthOf(i: int): int { if i >= 0 then i / 10 else -((-i) / 10) }

  function LastDigitOf(i: int): int { i - 10 * TenthOf(i) }

  function Abs(v: int): nat { if v < 0 then -v else v }

  /** `zero[lsd]` and `digitsHex[lsd]`. */
  function ZeroAt(lsd: int): char
    requires -9 <= lsd <= 9
  {
    DIGITS[9 + lsd]
  }

  function HexAt(lsd: nat): char
    requires lsd < 16
  {
    DIGITS_HEX[lsd]
  }

  lemma ZeroTable(lsd: int)
    requires -9 <= lsd <= 9
    ensures ZeroAt(lsd) == DigitChar(Abs(lsd))
  {
    assert forall k :: 0 <= k < 10 ==> DIGITS[9 + k] == DigitChar(k);
    assert forall k :: 0 <= k < 10 ==> DIGITS[9 - k] == DigitChar(k);
  }

  lemma HexTable(lsd: nat)
    requires lsd < 16
    ensures HexAt(lsd) == DigitChar(lsd)
  {
    assert forall k :: 0 <= k < 16 ==> DIGITS_HEX[k] == DigitChar(k);
  }

  /** Truncation splits off the last digit of the absolute value, whatever the sign. */
  lemma LastDigit(i: int)
    ensures Abs(TenthOf(i)) == Quot(Abs(i), 10) && Abs(LastDigitOf(i)) == Rem(Abs(i), 10)
    ensures -9 <= LastDigitOf(i) <= 9 && (TenthOf(i) == 0 <==> Abs(i) < 10)
  {}

  function Reversed(s: string): string {
    if s == "" then "" else [s[|s| - 1]] + Reversed(s[..|s| - 1])
  }

  lemma {:induction false} ReversedAt(s: string, k: nat)
    requires k < |s|
    ensures |Reversed(s)| == |s| && Reversed(s)[k] == s[|s| - 1 - k]
    decreases |s|
  {
    var init := s[..|s| - 1];
    if init == "" {
    } else {
      ReversedAt(init, if k == 0 then 0 else k - 1);
    }
  }

  lemma ReversedIs(s: string, r: string)
    requires |r| == |s| && forall k :: 0 <= k < |s| ==> r[k] == s[|s| - 1 - k]
    ensures r == Reversed(s)
  {
    if s != "" { ReversedAt(s, 0); }
    forall k | 0 <= k < |s| ensures r[k] == Reversed(s)[k] {
      ReversedAt(s, k);
    }
  }

  /** The digits as the loops produce them, least significant first. */
  function Backwards(n: nat, b: nat): string
    requires 2 <= b <= 16
  {
    if n < b then [DigitChar(n)] else [DigitChar(Rem(n, b))] + Backwards(Quot(n, b), b)
  }

  lemma {:induction false} ReversedPrepend(c: char, s: string)
    ensures Reversed([c] + s) == Reversed(s) + [c]
    decreases |s|
  {
    var t := [c] + s;
    if s == "" {
      assert t[..0] == "";
    } else {
      assert t[..|t| - 1] == [c] + s[..|s| - 1];
      ReversedPrepend(c, s[..|s| - 1]);
    }
  }

  lemma {:induction false} BackwardsReversed(n: nat, b: nat)
    requires 2 <= b <= 16
    ensures Reversed(Backwards(n, b)) == Numeral(n, b) && |Backwards(n, b)| == |Numeral(n, b)|
    decreases n
  {
    hide Quot, Rem;
    if n >= b {
      BackwardsReversed(Quot(n, b), b);
      ReversedPrepend(DigitChar(Rem(n, b)), Backwards(Quot(n, b), b));
    } else {
      assert Backwards(n, b)[..0] == "";
    }
  }

  lemma BackwardsUnfold(n: nat, b: nat)
    requires 2 <= b <= 16
    ensures Backwards(n, b) == [DigitChar(Rem(n, b))] + (if n < b then "" else Backwards(Quot(n, b), b))
  {
    hide Quot, Rem;
  }

  lemma ReversedSnoc(s: string, c: char)
    ensures Reversed(s + [c]) == [c] + Reversed(s)
  {
    assert (s + [c])[..|s|] == s;
  }

  ghost predicate SameOutside(was: string, now: string, lo: nat, hi: nat) {
    |was| == |now| && forall k :: 0 <= k < |was| && !(lo <= k < hi) ==> now[k] == was[k]
  }

  lemma SnocAssoc(s: string, c: char, t: string)
    ensures s + ([c] + t) == (s + [c]) + t
  {}

  /** `std::reverse` on `buf[lo..hi]`. */
  method ReverseRange(buf: array<char>, lo: nat, hi: nat)
    requires lo <= hi <= buf.Length
    modifies buf
    ensures buf[lo..hi] == Reversed(old(buf[lo..hi]))
    ensures SameOutside(old(buf[..]), buf[..], lo, hi)
  {
    var i, j := lo, hi;
    while j - i > 1
      invariant lo <= i <= j <= hi && i - lo == hi - j
      invariant forall k :: lo <= k < i || j <= k < hi ==> buf[k] == old(buf[lo + hi - 1 - k])
      invariant forall k :: 0 <= k < lo || i <= k < j || hi <= k < buf.Length ==> buf[k] == old(buf[k])
    {
      buf[i], buf[j - 1] := buf[j - 1], buf[i];
      i, j := i + 1, j - 1;
    }
    ghost var was := old(buf[lo..hi]);
    forall k | lo <= k < hi ensures buf[k] == old(buf[lo + hi - 1 - k]) {
      if i <= k < j { assert lo + hi - 1 - k == k; }
    }
    forall k | 0 <= k < hi - lo ensures buf[lo..hi][k] == was[hi - lo - 1 - k] {
      assert buf[lo + k] == old(buf[lo + hi - 1 - (lo + k)]);
    }
    ReversedIs(was, buf[lo..hi]);
  }

  /** `*p++ = c`, the text so far being `buf[at..p]`. */
  method PutChar(buf: array<char>, at: nat, p: nat, c: char)
    requires at <= p < buf.Length
    modifies buf
    ensures buf[at..p + 1] == old(buf[at..p]) + [c] && buf[p] == c
    ensures SameOutside(old(buf[..]), buf[..], p, p + 1)
  {
    buf[p] := c;
  }

  /** The loop of `convert`. */
  method PutDigits(buf: array<char>, at: nat, value: int) returns (p: nat)
    requires at + |Numeral(Abs(value), 10)| <= buf.Length
    modifies buf
    ensures at <= p <= buf.Length && buf[at..p] == Backwards(Abs(value), 10)
    ensures SameOutside(old(buf[..]), buf[..], at, p)
  {
    hide Quot, Rem, TenthOf, LastDigitOf, DigitChar, ZeroAt, Numeral, Backwards;
    BackwardsReversed(Abs(value), 10);
    ghost var all := Backwards(Abs(value), 10);
    var i := value;
    p := at;
    while true
      invariant at <= p <= buf.Length && all == buf[at..p] + Backwards(Abs(i), 10)
      invariant SameOutside(old(buf[..]), buf[..], at, p)
      decreases Abs(i)
    {
      LastDigit(i);
      ZeroTable(LastDigitOf(i));
      BackwardsUnfold(Abs(i), 10);
      var lsd := LastDigitOf(i);
      i := TenthOf(i);
      assert p < buf.Length;
      SnocAssoc(buf[at..p], ZeroAt(lsd), Backwards(Abs(i), 10));
      PutChar(buf, at, p, ZeroAt(lsd));
      p := p + 1;
      if i == 0 { break; }
    }
  }

  /** `convert`, for a signed or an unsigned 64-bit type. */
  method Convert(buf: array<char>, at: nat, value: int) returns (len: nat)
    requires INT64_MIN <= value <= UINT64_MAX && at + MAX_NUMERIC_SIZE <= buf.Length
    modifies buf
    ensures len < MAX_NUMERIC_SIZE && buf[at..at + len] == Text(value) && buf[at + len] == '\0'
    ensures SameOutside(old(buf[..]), buf[..], at, at + len + 1)
  {
    hide Numeral, Backwards, Reversed;
    TextLength(value);
    BackwardsReversed(Abs(value), 10);
    ghost var digits := Backwards(Abs(value), 10);
    var p := PutDigits(buf, at, value);
    if value < 0 {
      PutChar(buf, at, p, '-');
      p := p + 1;
      ReversedSnoc(digits, '-');
    }
    PutChar(buf, at, p, '\0');
    assert buf[at..p] == buf[at..p + 1][..p - at];
    ReverseRange(buf, at, p);
    len := p - at;
  }

  /** The loop of `convertHex`. */
  method PutHexDigits(buf: array<char>, at: nat, value: nat) returns (p: nat)
    requires at + |Numeral(value, 16)| <= buf.Length
    modifies buf
    ensures at <= p <= buf.Length && buf[at..p] == Backwards(value, 16)
    ensures SameOutside(old(buf[..]), buf[..], at, p)
  {
    hide Quot, Rem, DigitChar, HexAt, Numeral, Backwards;
    BackwardsReversed(value, 16);
    ghost var all := Backwards(value, 16);
    var i := value;
    p := at;
    while true
      invariant at <= p <= buf.Length && all == buf[at..p] + Backwards(i, 16)
      invariant SameOutside(old(buf[..]), buf[..], at, p)
      decreases i
    {
      HexTable(Rem(i, 16));
      BackwardsUnfold(i, 16);
      var lsd := Rem(i, 16);
      i := Quot(i, 16);
      assert p < buf.Length;
      SnocAssoc(buf[at..p], HexAt(lsd), Backwards(i, 16));
      PutChar(buf, at, p, HexAt(lsd));
      p := p + 1;
      if i == 0 { break; }
    }
  }

  /** `convertHex`. */
  method ConvertHex(buf: array<char>, at: nat, value: nat) returns (len: nat)
    requires value <= UINT64_MAX && at + MAX_NUMERIC_SIZE - 2 <= buf.Length
    modifies buf
    ensures len <= 16 && buf[at..at + len] == Numeral(value, 16) && buf[at + len] == '\0'
    ensures SameOutside(old(buf[..]), buf[..], at, at + len + 1)
  {
    hide Numeral, Backwards, Reversed;
    HexLength(value);
    BackwardsReversed(value, 16);
    var p := PutHexDigits(buf, at, value);
    PutChar(buf, at, p, '\0');
    assert buf[at..p] == buf[at..p + 1][..p - at];
    ReverseRange(buf, at, p);
    len := p - at;
  }

  lemma Appended(was: string, now: string, at: nat, len: nat, hi: nat)
    requires at + len <= |now| && SameOutside(was, now, at, hi)
    ensures now[..at + len] == was[..at] + now[at..at + len]
  {}

  /** `formatInteger`: the whole numeral, or, short of the reserve, nothing. */
  method FormatInteger(b: FixedBuffer, v: int)
    requires b.Valid() && INT64_MIN <= v <= UINT64_MAX
    modifies b, b.data
    ensures b.Valid()
    ensures b.Contents() == old(b.Contents()) + (if old(b.Avail()) >= MAX_NUMERIC_SIZE then Text(v) else "")
  {
    if b.Avail() >= MAX_NUMERIC_SIZE {
      var len := Convert(b.data, b.cur, v);
      Appended(old(b.data[..]), b.data[..], b.cur, len, b.cur + len + 1);
      b.cur := b.cur + len;
    }
  }

  /** The prefix of a pointer. */
  method PutPrefix(buf: array<char>, at: nat)
    requires at + 2 <= buf.Length
    modifies buf
    ensures buf[..at + 2] == old(buf[..at]) + "0x"
  {
    buf[at] := '0';
    buf[at + 1] := 'x';
  }

  /** `operator<<(const void*)`. */
  method FormatPointer(b: FixedBuffer, v: nat)
    requires b.Valid() && v <= UINT64_MAX
    modifies b, b.data
    ensures b.Valid()
    ensures b.Contents() == old(b.Contents()) +
      (if old(b.Avail()) >= MAX_NUMERIC_SIZE then "0x" + Numeral(v, 16) else "")
  {
    if b.Avail() >= MAX_NUMERIC_SIZE {
      PutPrefix(b.data, b.cur);
      ghost var was := b.data[..];
      var len := ConvertHex(b.data, b.cur + 2, v);
      Appended(was, b.data[..], b.cur + 2, len, b.cur + 2 + len + 1);
      b.cur := b.cur + (len + 2);
    }
  }
}
