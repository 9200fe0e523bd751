/** Fixed-width unsigned integers, their little-endian byte encodings, and
    the two buffer primitives every writer of the builder relies on:
    overwriting a range of a byte sequence, and rounding a length up to an
    alignment. */
module Bytes {

  type u8 = x: int | 0 <= x < 0x100
  type u16 = x: int | 0 <= x < 0x1_0000
  type u32 = x: int | 0 <= x < 0x1_0000_0000

  /** A value that may be missing: a null pointer, a failed step. */
  datatype Option<T> = None | Some(value: T)

  const TopBit: u32 := 0x8000_0000

  /** `x & 0x80000000` is non-zero. */
  predicate HasTopBit(x: u32) {
    x >= TopBit
  }

  /** `0x80000000 | x`, for a 32-bit `x`. */
  function SetTopBit(x: u32): (r: u32)
    ensures HasTopBit(r)
    ensures r % TopBit == x % TopBit
  {
    if HasTopBit(x) then x else x + TopBit
  }

  /** A `uint32_t` cast of a non-negative integer: the value modulo 2^32. */
  function Trunc32(x: nat): (r: u32)
    ensures x < 0x1_0000_0000 ==> r == x
  {
    x % 0x1_0000_0000
  }

  /** A `uint16_t` cast of a non-negative integer: the value modulo 2^16. */
  function Trunc16(x: nat): (r: u16)
    ensures x < 0x1_0000 ==> r == x
  {
    x % 0x1_0000
  }

  /** The two bytes of a host-order (x86, little-endian) `uint16_t`. */
  function LE16(x: u16): (r: seq<u8>)
    ensures |r| == 2
  {
    [x % 0x100, x / 0x100]
  }

  /** The four bytes of a host-order (x86, little-endian) `uint32_t`. */
  function LE32(x: u32): (r: seq<u8>)
    ensures |r| == 4
  {
    [x % 0x100, (x / 0x100) % 0x100, (x / 0x1_0000) % 0x100, x / 0x100_0000]
  }

  /** The value a little-endian reader sees in two bytes. */
  function ReadLE16(b: seq<u8>): (r: u16)
    requires |b| == 2
  {
    b[0] as int + 0x100 * b[1] as int
  }

  /** The value a little-endian reader sees in four bytes. */
  function ReadLE32(b: seq<u8>): (r: u32)
    requires |b| == 4
  {
    b[0] as int + 0x100 * b[1] as int + 0x1_0000 * b[2] as int + 0x100_0000 * b[3] as int
  }

  lemma LE16RoundTrip(x: u16)
    ensures ReadLE16(LE16(x)) == x
  {
  }

  lemma LE32RoundTrip(x: u32)
    ensures ReadLE32(LE32(x)) == x
  {
    var b := LE32(x);
    var lo := x % 0x1_0000;
    var hi := x / 0x1_0000;
    assert b[0] as int + 0x100 * b[1] as int == lo;
    assert b[2] as int + 0x100 * b[3] as int == hi;
  }

  /** 16-bit values, two little-endian bytes each, in order. */
  function LE16s(ws: seq<u16>): (r: seq<u8>)
    ensures |r| == 2 * |ws|
  {
    if ws == [] then [] else LE16(ws[0]) + LE16s(ws[1..])
  }

  lemma {:induction false} LE16sSnoc(ws: seq<u16>, w: u16)
    ensures LE16s(ws + [w]) == LE16s(ws) + LE16(w)
  {
    if ws != [] {
      assert (ws + [w])[1..] == ws[1..] + [w];
      LE16sSnoc(ws[1..], w);
    }
  }

  /** Value `k` is at bytes `2k..2k+2`. */
  lemma {:induction false} LE16sAt(ws: seq<u16>, k: nat)
    requires k < |ws|
    ensures LE16s(ws)[2 * k..2 * k + 2] == LE16(ws[k])
  {
    if k > 0 {
      LE16sAt(ws[1..], k - 1);
      assert LE16s(ws) == LE16(ws[0]) + LE16s(ws[1..]);
    }
  }

  lemma LE32Injective(x: u32, y: u32)
    requires LE32(x) == LE32(y)
    ensures x == y
  {
    LE32RoundTrip(x);
    LE32RoundTrip(y);
  }

  /** `n` zero bytes, as `std::vector::insert(end, n, 0)` produces. */
  function Zeros(n: nat): (r: seq<u8>)
    ensures |r| == n
    ensures forall i :: 0 <= i < n ==> r[i] == 0
  {
    seq(n, _ => 0)
  }

  /** Every byte of `s[lo..hi]` is zero. */
  predicate ZeroRange(s: seq<u8>, lo: nat, hi: nat)
    requires lo <= hi <= |s|
  {
    forall i :: lo <= i < hi ==> s[i] == 0
  }

  /** `std::copy(bytes, bytes + |bytes|, buf + off)` on a buffer that is
      large enough: the range `[off, off + |bytes|)` is replaced, every other
      byte is kept. */
  function Splice(buf: seq<u8>, off: nat, bytes: seq<u8>): (r: seq<u8>)
    requires off + |bytes| <= |buf|
    ensures |r| == |buf|
    ensures r[off..off + |bytes|] == bytes
    ensures forall i :: 0 <= i < |buf| && (i < off || off + |bytes| <= i) ==> r[i] == buf[i]
  {
    buf[..off] + bytes + buf[off + |bytes|..]
  }

  /** Two adjacent copies are one copy of the concatenation. */
  lemma SpliceConcat(buf: seq<u8>, off: nat, x: seq<u8>, y: seq<u8>)
    requires off + |x| + |y| <= |buf|
    ensures Splice(Splice(buf, off, x), off + |x|, y) == Splice(buf, off, x + y)
  {
    var a := Splice(Splice(buf, off, x), off + |x|, y);
    var b := Splice(buf, off, x + y);
    forall i | 0 <= i < |buf|
      ensures a[i] == b[i]
    {
      if off <= i < off + |x| {
        assert a[i] == Splice(buf, off, x)[i] == x[i - off];
        assert b[i] == b[off..off + |x| + |y|][i - off] == (x + y)[i - off];
      } else if off + |x| <= i < off + |x| + |y| {
        assert a[i] == a[off + |x|..off + |x| + |y|][i - off - |x|] == y[i - off - |x|];
        assert b[i] == b[off..off + |x| + |y|][i - off] == (x + y)[i - off];
      }
    }
  }

  /** LIEF's `align(value, align_on)`: `value` rounded up to the next
      multiple of `align_on`; an alignment of zero leaves `value` as is. */
  function Align(value: nat, alignOn: nat): (r: nat)
  {
    if alignOn > 0 && value % alignOn > 0 then value + (alignOn - value % alignOn) else value
  }

  /** What `Align` promises: the smallest multiple of the alignment that is
      not below the value. */
  lemma AlignIsLeastMultiple(value: nat, alignOn: nat)
    requires alignOn > 0
    ensures value <= Align(value, alignOn) < value + alignOn
    ensures Align(value, alignOn) % alignOn == 0
  {
    var q := value / alignOn;
    var m := value % alignOn;
    assert value == q * alignOn + m;
    if m > 0 {
      var r := (q + 1) * alignOn;
      assert r == value + (alignOn - m);
      MultipleMod(q + 1, alignOn);
    }
  }

  lemma MultipleMod(k: nat, a: nat)
    requires a > 0
    ensures (k * a) % a == 0
  {
    var r := k * a;
    var t := k - r / a;
    assert r == a * (r / a) + r % a;
    assert a * t == r % a;
  }

  lemma AlignOfMultiple(value: nat, alignOn: nat)
    requires alignOn > 0 && value % alignOn == 0
    ensures Align(value, alignOn) == value
  {
  }

  lemma AlignByZero(value: nat)
    ensures Align(value, 0) == value
  {
  }
}
