/** The growable, seekable byte stream the builder writes the image into:
    a byte sequence and a write position. Writing overwrites the bytes at
    the position and extends the sequence, zero-filled, when the write
    reaches past its end; the position then moves past what was written. */
module Sink {
  import opened Bytes

  /** The stream's state as a value. */
  datatype SinkState = SinkState(raw: seq<u8>, pos: nat)

  /** `raw` extended with zeros to at least `n` bytes. */
  function Grow(raw: seq<u8>, n: nat): (r: seq<u8>)
    ensures |r| == if n <= |raw| then |raw| else n
  {
    if n <= |raw| then raw else raw + Zeros(n - |raw|)
  }

  /** Growing twice is growing once to the larger size. */
  lemma GrowGrow(raw: seq<u8>, n: nat, m: nat)
    requires n <= m
    ensures Grow(Grow(raw, n), m) == Grow(raw, m)
  {
    if n > |raw| && m > n {
      assert Zeros(n - |raw|) + Zeros(m - n) == Zeros(m - |raw|);
    }
  }

  /** Growing commutes with a copy that stays inside the old bytes. */
  lemma GrowSplice(buf: seq<u8>, off: nat, bytes: seq<u8>, m: nat)
    requires off + |bytes| <= |buf|
    ensures Grow(Splice(buf, off, bytes), m) == Splice(Grow(buf, m), off, bytes)
  {
    if m > |buf| {
      var z := Zeros(m - |buf|);
      assert (buf + z)[..off] == buf[..off];
      assert (buf + z)[off + |bytes|..] == buf[off + |bytes|..] + z;
    }
  }

  /** `bytes` written at `pos` over `raw`. */
  function Written(raw: seq<u8>, pos: nat, bytes: seq<u8>): (r: seq<u8>)
    ensures |r| == if pos + |bytes| <= |raw| then |raw| else pos + |bytes|
    ensures pos + |bytes| <= |r| && |raw| <= |r|
    ensures r[pos..pos + |bytes|] == bytes
    ensures forall i :: 0 <= i < |raw| && (i < pos || pos + |bytes| <= i) ==> r[i] == raw[i]
    ensures forall i :: |raw| <= i < pos ==> r[i] == 0
  {
    Splice(Grow(raw, pos + |bytes|), pos, bytes)
  }

  /** `seekp(p)`. */
  function Seek(s: SinkState, p: nat): SinkState {
    s.(pos := p)
  }

  /** `write(bytes)` at the current position. */
  function Put(s: SinkState, bytes: seq<u8>): (r: SinkState)
    ensures r.pos == s.pos + |bytes| <= |r.raw|
    ensures r.raw[s.pos..s.pos + |bytes|] == bytes
  {
    SinkState(Written(s.raw, s.pos, bytes), s.pos + |bytes|)
  }

  /** Byte `i` after a write: the written byte, the old byte, or the zero
      filling the gap. */
  lemma WrittenAt(raw: seq<u8>, pos: nat, bytes: seq<u8>, i: nat)
    requires i < |Written(raw, pos, bytes)|
    ensures Written(raw, pos, bytes)[i]
            == if pos <= i < pos + |bytes| then bytes[i - pos] else if i < |raw| then raw[i] else 0
  {
    var r := Written(raw, pos, bytes);
    if pos <= i < pos + |bytes| {
      assert r[i] == r[pos..pos + |bytes|][i - pos];
    }
  }

  /** Two writes in a row are one write of both. */
  lemma PutConcat(s: SinkState, x: seq<u8>, y: seq<u8>)
    ensures Put(Put(s, x), y) == Put(s, x + y)
  {
    var n1, n := s.pos + |x|, s.pos + |x| + |y|;
    var g1 := Grow(s.raw, n1);
    GrowSplice(g1, s.pos, x, n);
    GrowGrow(s.raw, n1, n);
    SpliceConcat(Grow(s.raw, n), s.pos, x, y);
  }

  /** A later write that keeps clear of a range leaves it as it was. */
  lemma PutKeeps(s: SinkState, bytes: seq<u8>, lo: nat, hi: nat)
    requires lo <= hi <= |s.raw|
    requires hi <= s.pos || s.pos + |bytes| <= lo
    ensures Put(s, bytes).raw[lo..hi] == s.raw[lo..hi]
  {
    var r := Put(s, bytes).raw;
    forall i | lo <= i < hi
      ensures r[i] == s.raw[i]
    {
    }
  }

  /** `vector_iostream`: the stream object the builder owns. */
  class ByteSink {
    var raw: seq<u8>
    var pos: nat

    function State(): SinkState
      reads this
    {
      SinkState(raw, pos)
    }

    constructor ()
      ensures State() == SinkState([], 0)
    {
      raw := [];
      pos := 0;
    }

    /** `seekp(p)`: moves the position; the bytes stay. */
    method SeekP(p: nat)
      modifies this
      ensures State() == Seek(old(State()), p)
    {
      pos := p;
    }

    /** `tellp()`. */
    method TellP() returns (p: nat)
      ensures p == State().pos
    {
      p := pos;
    }

    /** `write(bytes)`. */
    method Write(bytes: seq<u8>)
      modifies this
      ensures State() == Put(old(State()), bytes)
    {
      if |raw| < pos + |bytes| {
        raw := raw + Zeros(pos + |bytes| - |raw|);
      }
      raw := Splice(raw, pos, bytes);
      pos := pos + |bytes|;
    }
  }
}
