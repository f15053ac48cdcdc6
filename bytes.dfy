/** Byte strings as the reader sees them: big-endian integers of fixed width,
    Python-style slicing, reads from a seekable byte source, and splitting on a
    separator byte. */
module Bytes {

  /** One octet; a Python 2 `str` is a sequence of these. */
  type byte = b: int | 0 <= b < 256

  type Bytes = seq<byte>

  /** 256 to the power `k`: one past the largest unsigned value of `k` bytes. */
  function Pow256(k: nat): (p: nat)
    ensures p >= 1
  {
    if k == 0 then 1 else 256 * Pow256(k - 1)
  }

  /** The unsigned big-endian value of `s`: how 2-, 4- and 8-byte big-endian fields are read. */
  function Unsigned(s: Bytes): (n: nat)
    ensures n < Pow256(|s|)
  {
    if s == [] then 0
    else
      var high := Unsigned(s[..|s| - 1]);
      assert high <= Pow256(|s| - 1) - 1;
      high * 256 + s[|s| - 1]
  }

  /** The `width`-byte big-endian encoding of `n`; defined for values that fit. */
  function Encode(n: nat, width: nat): (s: Bytes)
    requires n < Pow256(width)
    ensures |s| == width
    decreases width
  {
    if width == 0 then []
    else Encode(n / 256, width - 1) + [n % 256]
  }

  lemma {:induction false} DecodeEncode(n: nat, width: nat)
    requires n < Pow256(width)
    ensures Unsigned(Encode(n, width)) == n
    decreases width
  {
    if width > 0 {
      var s := Encode(n, width);
      assert s[..width - 1] == Encode(n / 256, width - 1);
      DecodeEncode(n / 256, width - 1);
    }
  }

  lemma {:induction false} EncodeDecode(s: Bytes)
    ensures Encode(Unsigned(s), |s|) == s
  {
    if s != [] {
      var init := s[..|s| - 1];
      EncodeDecode(init);
      assert Unsigned(s) / 256 == Unsigned(init);
      assert Unsigned(s) % 256 == s[|s| - 1];
    }
  }

  /** The value of a concatenation: the high part shifted past the low part's bytes. */
  lemma {:induction false} UnsignedAppend(hi: Bytes, lo: Bytes)
    ensures Unsigned(hi + lo) == Unsigned(hi) * Pow256(|lo|) + Unsigned(lo)
    decreases |lo|
  {
    if lo == [] {
      assert hi + lo == hi;
    } else {
      var init, last := lo[..|lo| - 1], lo[|lo| - 1];
      var whole := hi + lo;
      assert whole[..|whole| - 1] == hi + init;
      assert whole[|whole| - 1] == last;
      UnsignedAppend(hi, init);
      var h, p, u := Unsigned(hi), Pow256(|init|), Unsigned(init);
      assert Unsigned(whole) == Unsigned(hi + init) * 256 + last;
      assert Unsigned(lo) == u * 256 + last;
      assert Pow256(|lo|) == 256 * p;
      Distribute(h, p, u);
    }
  }

  lemma Distribute(h: nat, p: nat, u: nat)
    ensures (h * p + u) * 256 == h * (256 * p) + u * 256
  {
  }

  /** A 64-bit field read as two 32-bit fields gives the high and the low half. */
  lemma Halves(s: Bytes)
    requires |s| == 8
    ensures Unsigned(s[..4]) == Unsigned(s) / 0x1_0000_0000
    ensures Unsigned(s[4..]) == Unsigned(s) % 0x1_0000_0000
  {
    assert s == s[..4] + s[4..];
    UnsignedAppend(s[..4], s[4..]);
    assert Pow256(4) == 0x1_0000_0000;
  }

  lemma U64Halves(n: nat)
    requires n < 0x1_0000_0000_0000_0000
    ensures Unsigned(U64(n)[..4]) == n / 0x1_0000_0000
    ensures Unsigned(U64(n)[4..]) == n % 0x1_0000_0000
  {
    Halves(U64(n));
  }

  /** A big-endian 16-bit two's-complement value. */
  function Signed16(s: Bytes): (v: int)
    requires |s| == 2
    ensures -0x8000 <= v < 0x8000
    ensures v >= 0 ==> v == Unsigned(s)
    ensures v < 0 ==> v + 0x1_0000 == Unsigned(s)
  {
    var u := Unsigned(s);
    if u < 0x8000 then u else u - 0x1_0000
  }

  function U16(n: nat): (s: Bytes)
    requires n < 0x1_0000
    ensures |s| == 2 && Unsigned(s) == n
  {
    DecodeEncode(n, 2);
    Encode(n, 2)
  }

  function U32(n: nat): (s: Bytes)
    requires n < 0x1_0000_0000
    ensures |s| == 4 && Unsigned(s) == n
  {
    DecodeEncode(n, 4);
    Encode(n, 4)
  }

  function U64(n: nat): (s: Bytes)
    requires n < 0x1_0000_0000_0000_0000
    ensures |s| == 8 && Unsigned(s) == n
  {
    DecodeEncode(n, 8);
    Encode(n, 8)
  }

  /** Python's `s[i:j]` for non-negative bounds: clipped to the string, empty when `i >= j`. */
  function Slice(s: Bytes, i: nat, j: nat): (r: Bytes)
    ensures |r| == (if i < j && i < |s| then (if j <= |s| then j else |s|) - i else 0)
  {
    var hi := if j <= |s| then j else |s|;
    if i < hi then s[i..hi] else []
  }

  /** Python's `s[i:]`. */
  function From(s: Bytes, i: nat): (r: Bytes)
    ensures |r| == (if i <= |s| then |s| - i else 0)
  {
    if i <= |s| then s[i..] else []
  }

  /** `read(n)` on a byte source positioned at `pos`: at most `n` bytes, fewer at the end,
      and everything up to the end when `n` is negative (both Python file objects and
      `StringIO` behave so). */
  function ReadAt(s: Bytes, pos: nat, n: int): (r: Bytes)
    ensures n >= 0 ==> |r| <= n
    ensures pos + |r| <= |s| || r == []
  {
    if n < 0 then From(s, pos) else Slice(s, pos, pos + n)
  }

  /** Index of the first `b` in `s`, or `|s|` when there is none. */
  function IndexOf(s: Bytes, b: byte): (i: nat)
    ensures i <= |s|
    ensures i < |s| ==> s[i] == b
    ensures forall k :: 0 <= k < i ==> s[k] != b
  {
    if s == [] then 0
    else if s[0] == b then 0
    else 1 + IndexOf(s[1..], b)
  }

  /** Python's `s.split(sep, maxsplit)` for a one-byte separator; a negative
      `maxsplit` splits at every separator. */
  function SplitN(s: Bytes, sep: byte, maxsplit: int): (parts: seq<Bytes>)
    ensures |parts| >= 1
    ensures maxsplit >= 0 ==> |parts| <= maxsplit + 1
    decreases |s|
  {
    var i := IndexOf(s, sep);
    if maxsplit == 0 || i == |s| then [s]
    else [s[..i]] + SplitN(s[i + 1..], sep, if maxsplit < 0 then maxsplit else maxsplit - 1)
  }

  /** Python's `sep.join(parts)`. */
  function Join(parts: seq<Bytes>, sep: byte): Bytes
  {
    if parts == [] then []
    else if |parts| == 1 then parts[0]
    else parts[0] + [sep] + Join(parts[1..], sep)
  }

  /** Splitting loses nothing: joining the parts gives the string back. */
  lemma {:induction false} SplitJoin(s: Bytes, sep: byte, maxsplit: int)
    ensures Join(SplitN(s, sep, maxsplit), sep) == s
    decreases |s|
  {
    var i := IndexOf(s, sep);
    if maxsplit != 0 && i != |s| {
      var m := if maxsplit < 0 then maxsplit else maxsplit - 1;
      var tail := s[i + 1..];
      SplitJoin(tail, sep, m);
      JoinCons(s[..i], SplitN(tail, sep, m), sep);
      Around(s, i);
    }
  }

  /** Joining a part in front of a non-empty list of parts. */
  lemma JoinCons(head: Bytes, rest: seq<Bytes>, sep: byte)
    requires rest != []
    ensures Join([head] + rest, sep) == head + [sep] + Join(rest, sep)
  {
    assert ([head] + rest)[1..] == rest;
  }

  /** A string is what comes before position `i`, the byte there, and what follows. */
  lemma Around(s: Bytes, i: nat)
    requires i < |s|
    ensures s == s[..i] + [s[i]] + s[i + 1..]
  {
  }

  /** Every part but the last is free of the separator, and the last too when the
      split is unbounded. */
  lemma {:induction false} SplitPartsFree(s: Bytes, sep: byte, maxsplit: int)
    ensures forall k :: 0 <= k < |SplitN(s, sep, maxsplit)| - 1 ==> sep !in SplitN(s, sep, maxsplit)[k]
    ensures maxsplit < 0 ==> forall k :: 0 <= k < |SplitN(s, sep, maxsplit)| ==> sep !in SplitN(s, sep, maxsplit)[k]
    decreases |s|
  {
    var i := IndexOf(s, sep);
    var parts := SplitN(s, sep, maxsplit);
    if maxsplit == 0 || i == |s| {
      assert parts == [s];
      if maxsplit < 0 {
        assert sep !in s;
      }
    } else {
      var m := if maxsplit < 0 then maxsplit else maxsplit - 1;
      var rest := SplitN(s[i + 1..], sep, m);
      SplitPartsFree(s[i + 1..], sep, m);
      assert parts == [s[..i]] + rest;
      assert sep !in s[..i];
      forall k | 0 <= k < |parts| ensures k < |parts| - 1 || maxsplit < 0 ==> sep !in parts[k] {
        if k > 0 { assert parts[k] == rest[k - 1]; }
      }
    }
  }

  /** Splitting a string built by joining separator-free parts gives those parts back. */
  lemma {:induction false} JoinSplit(parts: seq<Bytes>, sep: byte)
    requires parts != []
    requires forall k :: 0 <= k < |parts| ==> sep !in parts[k]
    ensures SplitN(Join(parts, sep), sep, -1) == parts
    decreases |parts|
  {
    var s := Join(parts, sep);
    if |parts| == 1 {
      assert IndexOf(s, sep) == |s|;
    } else {
      var tail := Join(parts[1..], sep);
      assert s == parts[0] + [sep] + tail;
      IndexAfterPrefix(parts[0], sep, tail);
      assert s[..|parts[0]|] == parts[0];
      assert s[|parts[0]| + 1..] == tail;
      JoinSplit(parts[1..], sep);
    }
  }

  /** The first separator of `p + [sep] + t` is the one after `p` when `p` has none. */
  lemma IndexAfterPrefix(p: Bytes, sep: byte, t: Bytes)
    requires sep !in p
    ensures IndexOf(p + [sep] + t, sep) == |p|
  {
    var s := p + [sep] + t;
    assert s[|p|] == sep;
  }
}
