/** The `ilst` tag codec: how each child box of `ilst` becomes an entry of the tag
    mapping, and how an entry is rendered back into a box.

    A table keyed by the 4-byte box name picks the parser and the renderer; names
    not in the table are text. Every parser is given the box's payload (the bytes
    after its 8-byte header); the simple kinds find their value at payload offset 16,
    behind a nested `data` box header and its flags. */
module TagCodec {
  import opened Bytes
  import opened Failures

  const FREEFORM: Bytes := [0x2D, 0x2D, 0x2D, 0x2D]  // "----"
  const TRKN: Bytes := [0x74, 0x72, 0x6B, 0x6E]      // "trkn"
  const DISK: Bytes := [0x64, 0x69, 0x73, 0x6B]      // "disk"
  const GNRE: Bytes := [0x67, 0x6E, 0x72, 0x65]      // "gnre"
  const TMPO: Bytes := [0x74, 0x6D, 0x70, 0x6F]      // "tmpo"
  const CPIL: Bytes := [0x63, 0x70, 0x69, 0x6C]      // "cpil"
  const COVR: Bytes := [0x63, 0x6F, 0x76, 0x72]      // "covr"
  const GEN: Bytes := [0xA9, 0x67, 0x65, 0x6E]       // "\xa9gen", the text genre
  const DATA: Bytes := [0x64, 0x61, 0x74, 0x61]      // "data"
  const MEAN: Bytes := [0x6D, 0x65, 0x61, 0x6E]      // "mean"
  const NAME: Bytes := [0x6E, 0x61, 0x6D, 0x65]      // "name"
  const COLON: byte := 0x3A                          // ':'

  /** Type flags of the `data` envelope. */
  const TEXT_FLAGS: nat := 0x1
  const COVER_FLAGS: nat := 0xD
  const INT_FLAGS: nat := 0x15

  /** A tag value. Text is kept as the bytes it is stored as. */
  datatype Value =
    | Str(bytes: Bytes)               // text, cover art, free-form data
    | Int(n: int)                     // tempo
    | Flag(on: bool)                  // compilation
    | Pair(first: int, second: int)   // track or disc: number and total

  /** The tag mapping: key to value. */
  type Tags = map<Bytes, Value>

  /** The parser/renderer pair the table selects. */
  datatype Kind = Freeform | NumberPair | Genre | Tempo | Compilation | Cover | Text

  /** The `atoms` table of M4ATags; every other name falls back to text. */
  function KindOf(name: Bytes): (k: Kind)
    ensures k == Text <==> name !in {FREEFORM, TRKN, DISK, GNRE, TMPO, CPIL, COVR}
  {
    if name == FREEFORM then Freeform
    else if name == TRKN || name == DISK then NumberPair
    else if name == GNRE then Genre
    else if name == TMPO then Tempo
    else if name == CPIL then Compilation
    else if name == COVR then Cover
    else Text
  }

  // ---------------------------------------------------------------------------
  // Parsing

  /** One `read(n)` on a StringIO over `data`: the bytes and where the cursor is after. */
  datatype Chunk = Chunk(bytes: Bytes, next: nat)

  function Take(data: Bytes, pos: nat, n: int): Chunk
  {
    var r := ReadAt(data, pos, n);
    Chunk(r, pos + |r|)
  }

  /** A 32-bit big-endian number read at the cursor, and where the cursor is after. */
  datatype Field = Field(value: nat, next: nat)

  /** A 32-bit big-endian number read at the cursor; fails when fewer than 4 bytes are left. */
  function TakeU32(data: Bytes, pos: nat): Result<Field>
  {
    var c := Take(data, pos, 4);
    if |c.bytes| != 4 then Err(Truncated) else Ok(Field(Unsigned(c.bytes), c.next))
  }

  /** The composite key of a free-form entry: the box name, `mean` and `name`, each pair
      separated by ':'. */
  function FreeformKey(boxName: Bytes, mean: Bytes, name: Bytes): Bytes
  {
    boxName + [COLON] + mean + [COLON] + name
  }

  /** One sub-box of a free-form entry at the cursor: its 32-bit length field, then the
      rest of the box (`length - 4` bytes, fewer at the end of the data). */
  function SubBox(data: Bytes, pos: nat): Result<Chunk>
  {
    var length :- TakeU32(data, pos);
    Ok(Take(data, length.next, length.value - 4))
  }

  /** A free-form entry, key and value: three sub-boxes read one after another; 8 bytes
      of name and flags are dropped from `mean` and `name`, 12 bytes of name, flags and
      reserved from `data`. */
  datatype Entry = Entry(key: Bytes, value: Value)

  function FreeformEntry(boxName: Bytes, data: Bytes): Result<Entry>
  {
    var mean :- SubBox(data, 0);
    var name :- SubBox(data, mean.next);
    var value :- SubBox(data, name.next);
    Ok(Entry(FreeformKey(boxName, From(mean.bytes, 8), From(name.bytes, 8)), Str(From(value.bytes, 12))))
  }

  /** Track or disc: two unsigned 16-bit numbers at payload bytes 18..22; a shorter
      payload leaves too few bytes to unpack. */
  function PairValue(data: Bytes): (r: Result<Value>)
    ensures r.Ok? <==> |data| >= 22
    ensures r.Ok? ==> r.value.Pair? && r.value.first < 0x1_0000 && r.value.second < 0x1_0000
    ensures r.Err? ==> r.error == Truncated
  {
    var s := Slice(data, 18, 22);
    assert Pow256(2) == 0x1_0000;
    if |s| != 4 then Err(Truncated) else Ok(Pair(Unsigned(s[..2]), Unsigned(s[2..])))
  }

  /** The signed 16-bit big-endian number at payload bytes 16..18; a shorter payload
      leaves too few bytes to unpack. */
  function Short16(data: Bytes): (r: Result<int>)
    ensures r.Ok? <==> |data| >= 18
    ensures r.Ok? ==> -0x8000 <= r.value < 0x8000 && r.value % 0x1_0000 == Unsigned(data[16..18])
    ensures r.Err? ==> r.error == Truncated
  {
    var s := Slice(data, 16, 18);
    if |s| != 2 then Err(Truncated) else Ok(Signed16(s))
  }

  /** `genres[index]` with Python's list indexing: negative indices count from the end,
      and anything outside `-|genres| .. |genres|-1` is an IndexError (`None`). */
  function PyIndex(genres: seq<Bytes>, index: int): Option<Bytes>
  {
    if 0 <= index < |genres| then Some(genres[index])
    else if -|genres| <= index < 0 then Some(genres[|genres| + index])
    else None
  }

  /** Compilation: the truth of payload byte 16; a payload too short to have it is false. */
  function CompilationValue(data: Bytes): Value
  {
    var s := Slice(data, 16, 17);
    if s == [] then Flag(false) else Flag(s[0] != 0)
  }

  /** What parsing one `ilst` child named `name` with payload `data` does to the tags:
      the dispatch of M4ATags.__init__ and the `__parse_*` methods. A numeric genre
      only fills in the text genre, and only when that is absent. */
  function Step(tags: Tags, name: Bytes, data: Bytes, genres: seq<Bytes>): Result<Tags>
  {
    match KindOf(name)
    case Freeform =>
      var e :- FreeformEntry(name, data);
      Ok(tags[e.key := e.value])
    case NumberPair =>
      var v :- PairValue(data);
      Ok(tags[name := v])
    case Genre =>
      var g :- Short16(data);
      if GEN in tags then Ok(tags)
      else (match PyIndex(genres, g - 1)
            case None => Ok(tags)
            case Some(s) => Ok(tags[GEN := Str(s)]))
    case Tempo =>
      var n :- Short16(data);
      Ok(tags[name := Int(n)])
    case Compilation => Ok(tags[name := CompilationValue(data)])
    case Cover => Ok(tags[name := Str(From(data, 16))])
    case Text => Ok(tags[name := Str(From(data, 16))])
  }

  // ---------------------------------------------------------------------------
  // Rendering

  /** A big-endian 32-bit field: fails for numbers that do not fit 32 bits. */
  function Field32(n: nat): (r: Result<Bytes>)
    ensures r.Ok? <==> n < 0x1_0000_0000
    ensures r.Ok? ==> |r.value| == 4 && Unsigned(r.value) == n
  {
    if n < 0x1_0000_0000 then Ok(U32(n)) else Err(OutOfRange)
  }

  /** A box as the renderers pack it: a 32-bit length field counting itself, then `head`
      (the box name and any flags), then `body`. Fails when the size does not fit the
      field. */
  function Sized(head: Bytes, body: Bytes): (r: Result<Bytes>)
    ensures r.Ok? <==> 4 + |head| + |body| < 0x1_0000_0000
    ensures r.Ok? ==> |r.value| == 4 + |head| + |body| && r.value == U32(|r.value|) + head + body
  {
    var length :- Field32(4 + |head| + |body|);
    Ok(length + head + body)
  }

  /** __render_data: the value behind `flags` and a zero reserved word, inside a `data`
      box, inside a box named `key`. The outer length field is the `data` box's size
      plus 8, whatever the length of `key`. */
  function RenderData(key: Bytes, flags: nat, data: Bytes): Result<Bytes>
    requires flags < 0x1_0000_0000
  {
    var box :- Sized(DATA, U32(flags) + U32(0) + data);
    var length :- Field32(|box| + 8);
    Ok(length + key + box)
  }

  /** Python truthiness of a value (`if value:`). */
  predicate Truthy(v: Value)
  {
    match v
    case Str(s) => s != []
    case Int(n) => n != 0
    case Flag(b) => b
    case Pair(_, _) => true
  }

  /** __render_freeform: the key split at its first two ':' must give three parts; the
      first is dropped and the box is always named "----". The `mean` and `name`
      sub-boxes carry a zero flags word, the `data` sub-box the type flag 1. */
  function RenderFreeform(key: Bytes, value: Value): Result<Bytes>
  {
    var parts := SplitN(key, COLON, 2);
    if |parts| != 3 then Err(BadFreeformKey)
    else if !value.Str? then Err(WrongType)
    else
      var mean :- Sized(MEAN + U32(0), parts[1]);
      var name :- Sized(NAME + U32(0), parts[2]);
      var data :- Sized(DATA + U32(1) + U32(0), value.bytes);
      Sized(FREEFORM, mean + name + data)
  }

  /** __render_tempo: the value packed as an unsigned 16-bit number (a bool counts as 0 or 1). */
  function RenderTempo(key: Bytes, value: Value): Result<Bytes>
  {
    match value
    case Int(n) => if 0 <= n < 0x1_0000 then RenderData(key, INT_FLAGS, U16(n)) else Err(OutOfRange)
    case Flag(b) => RenderData(key, INT_FLAGS, U16(if b then 1 else 0))
    case _ => Err(WrongType)
  }

  /** The renderer the table picks for the first four bytes of the key. A pair always
      fails: its renderer packs six numbers into a format of four 16-bit fields. The genre slot has no renderer.
      A false compilation renders to nothing. */
  function RenderEntry(key: Bytes, value: Value): Result<Bytes>
  {
    match KindOf(Slice(key, 0, 4))
    case Freeform => RenderFreeform(key, value)
    case NumberPair => if value.Pair? then Err(PackMismatch) else Err(WrongType)
    case Genre => Err(NoRenderer)
    case Tempo => RenderTempo(key, value)
    case Compilation => if Truthy(value) then RenderData(key, INT_FLAGS, [1]) else Ok([])
    case Cover => if value.Str? then RenderData(key, COVER_FLAGS, value.bytes) else Err(WrongType)
    case Text => if value.Str? then RenderData(key, TEXT_FLAGS, value.bytes) else Err(WrongType)
  }

  /** `order` lists every key of `tags` once: the order the mapping iterates in,
      which the model does not fix. */
  ghost predicate IsOrder(order: seq<Bytes>, tags: Tags)
  {
    && (forall i, j :: 0 <= i < j < |order| ==> order[i] != order[j])
    && (forall k :: k in tags <==> k in order)
  }

  /** __render: the rendered entries concatenated in iteration order; the first entry
      that fails to render fails the whole. */
  function RenderItems(tags: Tags, order: seq<Bytes>): Result<Bytes>
    requires forall k :: k in order ==> k in tags
  {
    if order == [] then Ok([])
    else
      var head :- RenderEntry(order[0], tags[order[0]]);
      var rest :- RenderItems(tags, order[1..]);
      Ok(head + rest)
  }
}
