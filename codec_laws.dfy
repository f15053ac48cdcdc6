/** What the tag codec guarantees: the layout of the `data` envelope, which rendered
    entries parse back to the value they were rendered from, and where the codec as
    written does not round-trip. */
module TagLaws {
  import opened Bytes
  import opened Failures
  import opened TagCodec

  const TWO32: nat := 0x1_0000_0000

  /** A read that fits inside the data takes exactly the bytes asked for. */
  lemma TakeExact(data: Bytes, pos: nat, n: nat)
    requires pos + n <= |data|
    ensures Take(data, pos, n) == Chunk(data[pos..pos + n], pos + n)
  {
    assert Slice(data, pos, pos + n) == data[pos..pos + n];
  }

  /** `a`, `b` and `rest` laid side by side. */
  lemma Pieces3(r: Bytes, a: Bytes, b: Bytes, rest: Bytes)
    requires r == a + b + rest
    ensures r[..|a|] == a && r[|a|..|a| + |b|] == b && r[|a| + |b|..] == rest
  {
  }

  /** Where each of three pieces sits in their concatenation. */
  lemma Laid3(r: Bytes, a: Bytes, b: Bytes, c: Bytes)
    requires r == a + b + c
    ensures |r| == |a| + |b| + |c|
    ensures r[0..|a|] == a && r[|a|..|a| + |b|] == b && r[|a| + |b|..|a| + |b| + |c|] == c
  {
    Pieces3(r, a, b, c);
  }

  /** Four 4-byte fields and the rest. */
  lemma Fields4(r: Bytes, a: Bytes, b: Bytes, c: Bytes, d: Bytes, rest: Bytes)
    requires |a| == 4 && |b| == 4 && |c| == 4 && |d| == 4
    requires r == a + b + (c + d + rest)
    ensures r[..4] == a && r[4..8] == b && r[8..12] == c && r[12..16] == d && r[16..] == rest
  {
    Pieces3(r, a, b, c + d + rest);
    Pieces3(c + d + rest, c, d, rest);
    assert r[8..] == c + d + rest;
  }

  /** Four 4-byte fields and the rest, grouped as the renderers group them. */
  lemma Header4(p: Bytes, l: Bytes, a: Bytes, b: Bytes, c: Bytes, v: Bytes)
    requires |l| == 4 && |a| == 4 && |b| == 4 && |c| == 4
    requires p == l + (a + b + c) + v
    ensures p[..4] == l && p[4..8] == a && p[8..12] == b && p[12..16] == c && p[16..] == v
  {
    Fields4(p, l, a, b, c, v);
  }

  /** Three 4-byte fields and the rest. */
  lemma Header3(p: Bytes, l: Bytes, a: Bytes, b: Bytes, t: Bytes)
    requires |l| == 4 && |a| == 4 && |b| == 4
    requires p == l + (a + b) + t
    ensures p[..4] == l && p[4..8] == a && p[8..12] == b && p[12..] == t
  {
    Pieces3(p, l, a + b, t);
    assert p[4..12] == a + b;
  }

  /** A `data` box as the renderers write it: a length field counting the 16-byte
      header, the name "data", the type flags, a zero reserved word, then the value. */
  ghost predicate DataSub(p: Bytes, flags: nat, v: Bytes)
  {
    && |p| == 16 + |v|
    && Unsigned(p[..4]) == |p| && p[4..8] == DATA
    && Unsigned(p[8..12]) == flags && Unsigned(p[12..16]) == 0
    && p[16..] == v
  }

  /** A `mean` or `name` sub-box of a free-form entry: a length field counting the
      12-byte header, the box name, a zero flags word, then the text. */
  ghost predicate Labelled(p: Bytes, boxName: Bytes, text: Bytes)
  {
    && |p| == 12 + |text|
    && Unsigned(p[..4]) == |p| && p[4..8] == boxName
    && Unsigned(p[8..12]) == 0
    && p[12..] == text
  }

  /** The payload of a free-form box: the `mean` sub-box, the `name` sub-box, and a
      `data` sub-box with type flag 1 holding the value. */
  ghost predicate FreeformBody(p: Bytes, mean: Bytes, name: Bytes, v: Bytes)
  {
    var m, n := 12 + |mean|, 12 + |name|;
    && |p| >= m + n
    && Labelled(p[..m], MEAN, mean)
    && Labelled(p[m..m + n], NAME, name)
    && DataSub(p[m + n..], 1, v)
  }

  /** A packed `mean` or `name` sub-box has the layout `Labelled` describes. */
  lemma SizedLabel(boxName: Bytes, text: Bytes)
    requires |boxName| == 4 && 12 + |text| < TWO32
    ensures Sized(boxName + U32(0), text).Ok?
    ensures Labelled(Sized(boxName + U32(0), text).value, boxName, text)
  {
    var p := Sized(boxName + U32(0), text).value;
    Header3(p, U32(|p|), boxName, U32(0), text);
  }

  /** A packed `data` sub-box has the layout `DataSub` describes. */
  lemma SizedData(flags: nat, v: Bytes)
    requires flags < TWO32 && 16 + |v| < TWO32
    ensures Sized(DATA + U32(flags) + U32(0), v).Ok?
    ensures DataSub(Sized(DATA + U32(flags) + U32(0), v).value, flags, v)
  {
    var p := Sized(DATA + U32(flags) + U32(0), v).value;
    Header4(p, U32(|p|), DATA, U32(flags), U32(0), v);
  }

  /** The type flag the renderer of each kind writes into its `data` box. Pairs would
      carry 0; the genre slot has no renderer, and 0 stands in for it. */
  function TypeFlag(k: Kind): nat
  {
    match k
    case Text => 1
    case Cover => 0xD
    case Tempo => 0x15
    case Compilation => 0x15
    case Freeform => 1
    case NumberPair => 0
    case Genre => 0
  }

  /** The bytes a value is written as behind its type flag: text and cover as they are,
      a tempo as an unsigned 16-bit number, a true compilation as the single byte 1. */
  function Stored(v: Value): Bytes
  {
    match v
    case Str(b) => b
    case Int(n) => if 0 <= n < 0x1_0000 then U16(n) else []
    case Flag(b) => if b then [1] else []
    case Pair(_, _) => []
  }

  /** The envelope: the rendered bytes are `|v| + 20 + |key|` long, start with the
      length field `|v| + 24` and the key, and the rest `p` is a `data` box: its size
      `|v| + 16`, its name, the flags, a zero word and, from offset 16 on, exactly `v`.
      For a 4-byte key the first field is the size of the whole box and `p` is its
      payload. Rendering fails only when the size does not fit 32 bits. */
  lemma RenderDataLayout(key: Bytes, flags: nat, v: Bytes)
    requires flags < TWO32
    ensures RenderData(key, flags, v).Ok? <==> |v| + 24 < TWO32
    ensures RenderData(key, flags, v).Ok? ==>
      var r := RenderData(key, flags, v).value;
      var p := r[4 + |key|..];
      && |r| == |key| + 20 + |v|
      && Unsigned(r[..4]) == |v| + 24
      && r[4..4 + |key|] == key
      && Unsigned(p[..4]) == |v| + 16
      && p[4..8] == DATA
      && Unsigned(p[8..12]) == flags
      && Unsigned(p[12..16]) == 0
      && p[16..] == v
  {
    if |v| + 24 < TWO32 {
      var box := Sized(DATA, U32(flags) + U32(0) + v).value;
      var r := U32(|box| + 8) + key + box;
      assert RenderData(key, flags, v) == Ok(r);
      Pieces3(r, U32(|box| + 8), key, box);
      Fields4(box, U32(|box|), DATA, U32(flags), U32(0), v);
    }
  }

  /** Keys and values whose entry parses back to itself. Text and cover keep any byte
      string; tempo only 0..32767, since it is read back signed; compilation only
      `true`; a free-form key must be "----:mean:name" with no ':' in `mean`. Pairs and
      genres never render. */
  ghost predicate RoundTrips(key: Bytes, v: Value)
  {
    match KindOf(Slice(key, 0, 4))
    case Text => |key| == 4 && v.Str? && |v.bytes| + 24 < TWO32
    case Cover => |key| == 4 && v.Str? && |v.bytes| + 24 < TWO32
    case Tempo => |key| == 4 && v.Int? && 0 <= v.n < 0x8000
    case Compilation => |key| == 4 && v == Flag(true)
    case Freeform =>
      var parts := SplitN(key, COLON, 2);
      && |parts| == 3 && parts[0] == FREEFORM && v.Str?
      && |parts[1]| + |parts[2]| + |v.bytes| + 48 < TWO32
    case NumberPair => false
    case Genre => false
  }

  /** The box name a rendered entry carries: the key, or "----" for a free-form key. */
  function BoxName(key: Bytes): Bytes
  {
    if KindOf(Slice(key, 0, 4)) == Freeform then FREEFORM else key
  }

  /** Rendering then parsing gives the entry back: the rendered bytes are one box whose
      length field is its size, named `BoxName(key)`, and its payload parses to
      `tags[key := v]` whatever the tags held before. */
  lemma EntryRoundTrip(tags: Tags, key: Bytes, v: Value, genres: seq<Bytes>)
    requires RoundTrips(key, v)
    ensures RenderEntry(key, v).Ok?
    ensures var r := RenderEntry(key, v).value;
      && |r| >= 8
      && Unsigned(r[..4]) == |r|
      && r[4..8] == BoxName(key)
      && Step(tags, r[4..8], r[8..], genres) == Ok(tags[key := v])
    ensures var r := RenderEntry(key, v).value;
      var k := KindOf(Slice(key, 0, 4));
      && (k != Freeform ==> DataSub(r[8..], TypeFlag(k), Stored(v)))
      && (k == Freeform ==>
            var parts := SplitN(key, COLON, 2);
            FreeformBody(r[8..], parts[1], parts[2], v.bytes))
  {
    if KindOf(Slice(key, 0, 4)) != Freeform {
      assert Slice(key, 0, 4) == key;
    }
    match KindOf(Slice(key, 0, 4))
    case Freeform => FreeformRoundTrip(tags, key, v, genres);
    case Text => DataRoundTrip(tags, key, v, genres);
    case Cover => DataRoundTrip(tags, key, v, genres);
    case Tempo => TempoRoundTrip(tags, key, v.n, genres);
    case Compilation => CompilationRoundTrip(tags, key, genres);
  }

  /** A rendered entry with a 4-byte key is one box whose length field is its size,
      named by the key, whose payload carries the value from offset 16 on. */
  lemma DataBox(key: Bytes, flags: nat, data: Bytes)
    requires |key| == 4 && flags < TWO32 && |data| + 24 < TWO32
    ensures RenderData(key, flags, data).Ok?
    ensures var r := RenderData(key, flags, data).value;
      && |r| >= 8 && Unsigned(r[..4]) == |r| && r[4..8] == key
      && From(r[8..], 16) == data && Slice(r[8..], 16, 16 + |data|) == data
      && DataSub(r[8..], flags, data)
  {
    RenderDataLayout(key, flags, data);
  }

  /** Text and cover: the bytes come back from payload offset 16. */
  lemma DataRoundTrip(tags: Tags, key: Bytes, v: Value, genres: seq<Bytes>)
    requires |key| == 4 && KindOf(key) in {Text, Cover} && v.Str? && |v.bytes| + 24 < TWO32
    ensures RenderEntry(key, v).Ok?
    ensures var r := RenderEntry(key, v).value;
      && |r| >= 8 && Unsigned(r[..4]) == |r| && r[4..8] == key == BoxName(key)
      && DataSub(r[8..], if KindOf(key) == Text then 1 else 0xD, v.bytes)
      && Step(tags, r[4..8], r[8..], genres) == Ok(tags[key := v])
  {
    var flags := if KindOf(key) == Text then TEXT_FLAGS else COVER_FLAGS;
    EntryIsData(key, v);
    PlainName(key);
    DataBox(key, flags, v.bytes);
    DataStep(tags, key, RenderData(key, flags, v.bytes).value, v.bytes, genres);
  }

  /** A 4-byte key that is not free-form names its own box. */
  lemma PlainName(key: Bytes)
    requires |key| == 4 && KindOf(key) != Freeform
    ensures BoxName(key) == key
  {
    assert Slice(key, 0, 4) == key;
  }

  /** Text and cover entries are rendered as a `data` box with their type flag. */
  lemma EntryIsData(key: Bytes, v: Value)
    requires |key| == 4 && KindOf(key) in {Text, Cover} && v.Str?
    ensures RenderEntry(key, v) == RenderData(key, if KindOf(key) == Text then TEXT_FLAGS else COVER_FLAGS, v.bytes)
  {
    assert Slice(key, 0, 4) == key;
  }

  /** A text or cover box named by its key is read back as the bytes of its payload
      from offset 16 on. */
  lemma DataStep(tags: Tags, key: Bytes, r: Bytes, data: Bytes, genres: seq<Bytes>)
    requires KindOf(key) in {Text, Cover} && |r| >= 8 && r[4..8] == key && From(r[8..], 16) == data
    ensures Step(tags, r[4..8], r[8..], genres) == Ok(tags[key := Str(data)])
  {
    TextStep(tags, key, r[8..], genres);
  }

  /** Text and cover payloads are read as the bytes from offset 16 on. */
  lemma TextStep(tags: Tags, name: Bytes, p: Bytes, genres: seq<Bytes>)
    requires KindOf(name) in {Text, Cover}
    ensures Step(tags, name, p, genres) == Ok(tags[name := Str(From(p, 16))])
  {
  }

  /** Tempo: a number below 32768 comes back unchanged. */
  lemma TempoRoundTrip(tags: Tags, key: Bytes, n: int, genres: seq<Bytes>)
    requires |key| == 4 && KindOf(key) == Tempo && 0 <= n < 0x8000
    ensures RenderEntry(key, Int(n)).Ok?
    ensures var r := RenderEntry(key, Int(n)).value;
      && |r| >= 8 && Unsigned(r[..4]) == |r| && r[4..8] == key == BoxName(key)
      && DataSub(r[8..], 0x15, U16(n))
      && Step(tags, r[4..8], r[8..], genres) == Ok(tags[key := Int(n)])
  {
    assert Slice(key, 0, 4) == key;
    assert RenderEntry(key, Int(n)) == RenderData(key, INT_FLAGS, U16(n));
    DataBox(key, INT_FLAGS, U16(n));
    var r := RenderEntry(key, Int(n)).value;
    ShortFromPayload(r[8..], U16(n));
  }

  /** A payload whose bytes from 16 on are two bytes below 0x8000 unpacks to them. */
  lemma ShortFromPayload(p: Bytes, a: Bytes)
    requires |a| == 2 && Unsigned(a) < 0x8000 && |p| >= 16 && p[16..] == a
    ensures Short16(p) == Ok(Unsigned(a))
  {
    assert Slice(p, 16, 18) == a;
  }

  /** Compilation: `true` is stored as the byte 1 and read back as true. */
  lemma CompilationRoundTrip(tags: Tags, key: Bytes, genres: seq<Bytes>)
    requires |key| == 4 && KindOf(key) == Compilation
    ensures RenderEntry(key, Flag(true)).Ok?
    ensures var r := RenderEntry(key, Flag(true)).value;
      && |r| >= 8 && Unsigned(r[..4]) == |r| && r[4..8] == key == BoxName(key)
      && DataSub(r[8..], 0x15, [1])
      && Step(tags, r[4..8], r[8..], genres) == Ok(tags[key := Flag(true)])
  {
    assert Slice(key, 0, 4) == key;
    assert RenderEntry(key, Flag(true)) == RenderData(key, INT_FLAGS, [1]);
    DataBox(key, INT_FLAGS, [1]);
    var r := RenderEntry(key, Flag(true)).value;
    assert CompilationValue(r[8..]) == Flag(true);
  }

  /** Splitting at the first separator, when it comes right after `p`. */
  lemma SplitFirst(p: Bytes, t: Bytes, maxsplit: int)
    requires COLON !in p && maxsplit >= 1
    ensures SplitN(p + [COLON] + t, COLON, maxsplit) == [p] + SplitN(t, COLON, maxsplit - 1)
  {
    var s := p + [COLON] + t;
    IndexAfterPrefix(p, COLON, t);
    assert s[..|p|] == p;
    assert s[|p| + 1..] == t;
  }

  /** Splitting "----:mean:name" at its first two ':' gives the three parts when `mean`
      has no ':'. */
  lemma FreeformKeySplits(mean: Bytes, name: Bytes)
    requires COLON !in mean
    ensures SplitN(FreeformKey(FREEFORM, mean, name), COLON, 2) == [FREEFORM, mean, name]
  {
    assert FreeformKey(FREEFORM, mean, name) == FREEFORM + [COLON] + (mean + [COLON] + name);
    SplitFirst(FREEFORM, mean + [COLON] + name, 2);
    SplitFirst(mean, name, 1);
  }

  /** A free-form key with both parts recovered is the key built back from them. */
  lemma FreeformKeyRebuilt(key: Bytes)
    requires |SplitN(key, COLON, 2)| == 3
    ensures var parts := SplitN(key, COLON, 2);
      key == FreeformKey(parts[0], parts[1], parts[2]) && COLON !in parts[1]
  {
    var parts := SplitN(key, COLON, 2);
    SplitJoin(key, COLON, 2);
    SplitPartsFree(key, COLON, 2);
    assert parts[1..][1..] == [parts[2]];
    assert Join(parts[1..][1..], COLON) == parts[2];
    assert Join(parts[1..], COLON) == parts[1] + [COLON] + parts[2];
    assert Join(parts, COLON) == parts[0] + [COLON] + (parts[1] + [COLON] + parts[2]);
  }

  /** One sub-box read at `pos`: the whole box after its length field, from which the
      parser drops the `|head|` bytes of name and flags. */
  lemma ReadSubBox(data: Bytes, pos: nat, box: Bytes, head: Bytes, body: Bytes)
    requires 4 <= |box| < TWO32 && box == U32(|box|) + head + body
    requires pos + |box| <= |data| && data[pos..pos + |box|] == box
    ensures SubBox(data, pos) == Ok(Chunk(head + body, pos + |box|))
    ensures From(head + body, |head|) == body
  {
    LengthField(box, U32(|box|), head + body);
    Within(data, pos, box, 0, 4);
    Within(data, pos, box, 4, |box|);
    TakeExact(data, pos, 4);
    assert TakeU32(data, pos) == Ok(Field(|box|, pos + 4));
    TakeExact(data, pos + 4, |box| - 4);
    assert (head + body)[|head|..] == body;
  }

  /** A 4-byte field in front of the rest of a box. */
  lemma LengthField(box: Bytes, field: Bytes, rest: Bytes)
    requires |field| == 4 && box == field + rest
    ensures box[0..4] == field && box[4..|box|] == rest
  {
  }

  /** A piece of `box`, laid out in `data` from `pos`, read from `data` directly. */
  lemma Within(data: Bytes, pos: nat, box: Bytes, i: nat, j: nat)
    requires pos + |box| <= |data| && data[pos..pos + |box|] == box && i <= j <= |box|
    ensures data[pos + i..pos + j] == box[i..j]
  {
    forall k | 0 <= k < j - i
      ensures data[pos + i..pos + j][k] == box[i..j][k]
    {
      assert data[pos + i + k] == data[pos..pos + |box|][i + k];
    }
  }

  /** The free-form parser in terms of what its three sub-box reads return. */
  lemma FreeformEntryOf(boxName: Bytes, data: Bytes, p1: Bytes, n1: nat, p2: Bytes, n2: nat, p3: Bytes, n3: nat)
    requires SubBox(data, 0) == Ok(Chunk(p1, n1))
    requires SubBox(data, n1) == Ok(Chunk(p2, n2))
    requires SubBox(data, n2) == Ok(Chunk(p3, n3))
    ensures FreeformEntry(boxName, data)
            == Ok(Entry(FreeformKey(boxName, From(p1, 8), From(p2, 8)), Str(From(p3, 12))))
  {
  }

  /** The free-form parser reads three sub-boxes laid side by side. */
  lemma ReadThreeBoxes(data: Bytes, a: Bytes, mh: Bytes, mean: Bytes, b: Bytes, nh: Bytes, name: Bytes,
                       c: Bytes, vh: Bytes, value: Bytes)
    requires |mh| == 8 && |nh| == 8 && |vh| == 12
    requires |a| < TWO32 && |b| < TWO32 && |c| < TWO32
    requires a == U32(|a|) + mh + mean && b == U32(|b|) + nh + name && c == U32(|c|) + vh + value
    requires data == a + b + c
    ensures FreeformEntry(FREEFORM, data) == Ok(Entry(FreeformKey(FREEFORM, mean, name), Str(value)))
  {
    Laid3(data, a, b, c);
    ReadSubBox(data, 0, a, mh, mean);
    ReadSubBox(data, |a|, b, nh, name);
    ReadSubBox(data, |a| + |b|, c, vh, value);
    FreeformEntryOf(FREEFORM, data, mh + mean, |a|, nh + name, |a| + |b|, vh + value, |a| + |b| + |c|);
  }

  /** The rendered free-form box: its length field is its size, it is named "----", and
      its payload parses to the key built from the parts of `key` and the value. */
  lemma FreeformBox(key: Bytes, v: Value)
    requires |SplitN(key, COLON, 2)| == 3 && v.Str?
    requires |SplitN(key, COLON, 2)[1]| + |SplitN(key, COLON, 2)[2]| + |v.bytes| + 48 < TWO32
    ensures RenderFreeform(key, v).Ok?
    ensures var r := RenderFreeform(key, v).value;
      var parts := SplitN(key, COLON, 2);
      && |r| == 8 + (|parts[1]| + 12) + (|parts[2]| + 12) + (|v.bytes| + 16)
      && Unsigned(r[..4]) == |r|
      && r[4..8] == FREEFORM
      && FreeformBody(r[8..], parts[1], parts[2], v.bytes)
      && FreeformEntry(FREEFORM, r[8..]) == Ok(Entry(FreeformKey(FREEFORM, parts[1], parts[2]), v))
  {
    var parts := SplitN(key, COLON, 2);
    var mean, name, value := parts[1], parts[2], v.bytes;
    var mh, nh, vh := MEAN + U32(0), NAME + U32(0), DATA + U32(1) + U32(0);
    var a := Sized(mh, mean).value;
    var b := Sized(nh, name).value;
    var c := Sized(vh, value).value;
    var r := Sized(FREEFORM, a + b + c).value;
    assert RenderFreeform(key, v) == Ok(r);
    Pieces3(r, U32(|r|), FREEFORM, a + b + c);
    SizedLabel(MEAN, mean);
    SizedLabel(NAME, name);
    SizedData(1, value);
    Pieces3(r[8..], a, b, c);
    ReadThreeBoxes(r[8..], a, mh, mean, b, nh, name, c, vh, value);
  }

  /** The free-form entry round trip: `8 + (|mean| + 12) + (|name| + 12) + (|v| + 16)`
      bytes whose payload parses back to the same key and value. */
  lemma FreeformRoundTrip(tags: Tags, key: Bytes, v: Value, genres: seq<Bytes>)
    requires KindOf(Slice(key, 0, 4)) == Freeform && RoundTrips(key, v)
    ensures RenderEntry(key, v).Ok?
    ensures var r := RenderEntry(key, v).value;
      var parts := SplitN(key, COLON, 2);
      && |r| == 8 + (|parts[1]| + 12) + (|parts[2]| + 12) + (|v.bytes| + 16)
      && Unsigned(r[..4]) == |r|
      && r[4..8] == FREEFORM == BoxName(key)
      && FreeformBody(r[8..], parts[1], parts[2], v.bytes)
      && Step(tags, r[4..8], r[8..], genres) == Ok(tags[key := v])
  {
    FreeformKeyRebuilt(key);
    assert RenderEntry(key, v) == RenderFreeform(key, v);
    FreeformBox(key, v);
  }

  /** Tempo is read back signed: a value from 32768 up comes back 65536 lower. */
  lemma TempoReadSigned(tags: Tags, n: int, genres: seq<Bytes>)
    requires 0x8000 <= n < 0x1_0000
    ensures RenderEntry(TMPO, Int(n)).Ok?
    ensures var r := RenderEntry(TMPO, Int(n)).value;
      Step(tags, r[4..8], r[8..], genres) == Ok(tags[TMPO := Int(n - 0x1_0000)])
  {
    assert Slice(TMPO, 0, 4) == TMPO;
    assert RenderEntry(TMPO, Int(n)) == RenderData(TMPO, INT_FLAGS, U16(n));
    DataBox(TMPO, INT_FLAGS, U16(n));
    var r := RenderEntry(TMPO, Int(n)).value;
    assert Short16(r[8..]) == Ok(n - 0x1_0000);
  }

  /** A false compilation renders to nothing, so the key is simply absent afterwards;
      a payload too short to hold byte 16 parses as false. */
  lemma CompilationFalse(tags: Tags, key: Bytes, v: Value, data: Bytes, genres: seq<Bytes>)
    requires KindOf(Slice(key, 0, 4)) == Compilation
    ensures !Truthy(v) ==> RenderEntry(key, v) == Ok([])
    ensures |data| <= 16 ==> Step(tags, CPIL, data, genres) == Ok(tags[CPIL := Flag(false)])
  {
  }

  /** The partner of the pair parser: a track or disc box whose `data` box holds the four
      16-bit fields empty, number, total, empty (the layout the parser reads, and what
      the four-field format of the pair renderer describes) parses to the number and
      the total. */
  lemma PairRead(tags: Tags, name: Bytes, t: nat, n: nat, genres: seq<Bytes>)
    requires name in {TRKN, DISK} && t < 0x1_0000 && n < 0x1_0000
    ensures RenderData(name, 0, U16(0) + U16(t) + U16(n) + U16(0)).Ok?
    ensures var r := RenderData(name, 0, U16(0) + U16(t) + U16(n) + U16(0)).value;
      && |r| >= 8 && Unsigned(r[..4]) == |r| && r[4..8] == name
      && Step(tags, r[4..8], r[8..], genres) == Ok(tags[name := Pair(t, n)])
  {
    var d := U16(0) + U16(t) + U16(n) + U16(0);
    DataBox(name, 0, d);
    var r := RenderData(name, 0, d).value;
    PairFromPayload(r[8..], U16(0), U16(t), U16(n), U16(0));
  }

  /** A payload whose bytes 16..24 are four 16-bit fields unpacks to the middle two. */
  lemma PairFromPayload(p: Bytes, a: Bytes, b: Bytes, c: Bytes, e: Bytes)
    requires |a| == |b| == |c| == |e| == 2 && |p| >= 24 && p[16..] == a + b + c + e
    ensures PairValue(p) == Ok(Pair(Unsigned(b), Unsigned(c)))
  {
    var s := Slice(p, 18, 22);
    assert s == p[16..][2..6] == b + c;
    assert s[..2] == b && s[2..] == c;
  }

  /** Track and disc values never render: the pair renderer always fails. Genre has no
      renderer at all. */
  lemma PairAndGenreNeverRender(key: Bytes, v: Value)
    requires KindOf(Slice(key, 0, 4)) in {NumberPair, Genre}
    ensures RenderEntry(key, v).Err?
  {
  }

  /** A key with fewer than two ':' cannot be rendered as free-form. */
  lemma FreeformNeedsTwoColons(key: Bytes, v: Value)
    requires KindOf(Slice(key, 0, 4)) == Freeform
    requires COLON !in key || COLON !in key[IndexOf(key, COLON) + 1..]
    ensures RenderEntry(key, v) == Err(BadFreeformKey)
  {
    var i := IndexOf(key, COLON);
    if i < |key| {
      var rest := key[i + 1..];
      assert IndexOf(rest, COLON) == |rest|;
      assert SplitN(rest, COLON, 1) == [rest];
    }
  }

  /** The colon in a free-form key is ambiguous: a `mean` holding ':' is cut at its first
      ':' when the parsed key is rendered again, and the rest moves into `name`. */
  lemma FreeformColonInMean(mean: Bytes, name: Bytes)
    requires COLON in mean
    ensures var parts := SplitN(FreeformKey(FREEFORM, mean, name), COLON, 2);
      |parts| == 3 && parts[1] == mean[..IndexOf(mean, COLON)] && parts[1] != mean
  {
    var i := IndexOf(mean, COLON);
    var rest := mean[i + 1..] + [COLON] + name;
    assert mean == mean[..i] + [COLON] + mean[i + 1..];
    assert FreeformKey(FREEFORM, mean, name) == FREEFORM + [COLON] + (mean[..i] + [COLON] + rest);
    SplitFirst(FREEFORM, mean[..i] + [COLON] + rest, 2);
    SplitFirst(mean[..i], rest, 1);
  }

  /** A numeric genre never writes a `gnre` key and only ever touches the text genre:
      with a text genre present it changes nothing; without one it adds the name that
      Python's list indexing gives for `index - 1`, or nothing when that index raises.
      It fails only when the payload is too short for the 16-bit index. */
  lemma GenreStep(tags: Tags, data: Bytes, genres: seq<Bytes>)
    ensures Step(tags, GNRE, data, genres).Ok? <==> |data| >= 18
    ensures Step(tags, GNRE, data, genres).Ok? ==>
      var after := Step(tags, GNRE, data, genres).value;
      var index := Signed16(data[16..18]) - 1;
      && (GEN in tags ==> after == tags)
      && (GEN !in tags && -|genres| <= index < |genres| ==>
            after == tags[GEN := Str(genres[if index < 0 then |genres| + index else index])])
      && (GEN !in tags && !(-|genres| <= index < |genres|) ==> after == tags)
  {
    if |data| >= 18 {
      assert Slice(data, 16, 18) == data[16..18];
    }
  }

  /** Genre index 1 is the first name of the table, and 0 wraps round to the last. */
  lemma GenreIndexing(tags: Tags, data: Bytes, genres: seq<Bytes>)
    requires GEN !in tags && |data| >= 18 && genres != []
    ensures Unsigned(data[16..18]) == 1 ==> Step(tags, GNRE, data, genres) == Ok(tags[GEN := Str(genres[0])])
    ensures Unsigned(data[16..18]) == 0 ==> Step(tags, GNRE, data, genres) == Ok(tags[GEN := Str(genres[|genres| - 1])])
  {
    GenreStep(tags, data, genres);
  }

  /** Parsing one child never introduces a `gnre` key. */
  lemma StepNoGnre(tags: Tags, name: Bytes, data: Bytes, genres: seq<Bytes>)
    requires GNRE !in tags && Step(tags, name, data, genres).Ok?
    ensures GNRE !in Step(tags, name, data, genres).value
  {
    if KindOf(name) == Freeform {
      var e := FreeformEntry(name, data).value;
      assert |e.key| >= 6;
    }
  }
}
