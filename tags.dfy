/** M4ATags: the tag mapping read from the children of `moov.udta.meta.ilst`.

    `DecodeChildren` and `Decode` say what the reader computes, as functions of the
    file's bytes and its box tree; the class `M4ATags` is the reader itself, a mapping
    its methods update in place one child at a time, proved to end where the
    functions say. */
module TagReader {
  import opened Bytes
  import opened Failures
  import opened AtomTree
  import opened AtomPaths
  import opened TagCodec
  import opened TagLaws

  /** "moov.udta.meta.ilst" */
  const ILST_PATH: Bytes := [0x6D, 0x6F, 0x6F, 0x76, 0x2E, 0x75, 0x64, 0x74, 0x61, 0x2E,
                             0x6D, 0x65, 0x74, 0x61, 0x2E, 0x69, 0x6C, 0x73, 0x74]

  /** The names ILST_PATH splits into. */
  const ILST_NAMES: seq<Bytes> := [MOOV, UDTA, META, ILST]

  /** Looking up the dotted path is resolving its list of names. */
  lemma IlstPathSplits(atoms: seq<Atom>)
    ensures SplitN(ILST_PATH, DOT, -1) == ILST_NAMES
    ensures Lookup(atoms, ILST_PATH) == Resolve(atoms, ILST_NAMES)
  {
    var names := ILST_NAMES;
    assert Join(names[3..], DOT) == ILST;
    assert Join(names[2..], DOT) == META + [DOT] + ILST;
    assert Join(names[1..], DOT) == UDTA + [DOT] + (META + [DOT] + ILST);
    assert Join(names, DOT) == ILST_PATH;
    LookupDotted([], names);
    forall k | 0 <= k < |names| ensures DOT !in names[k] {
    }
    JoinSplit(names, DOT);
  }

  /** What reading `length - 8` bytes after the box's 8-byte header returns: the
      box's payload, or everything to the end of the file when the length field is
      below 8 (a negative read). */
  function Payload(f: Bytes, a: Atom): Bytes
  {
    ReadAt(f, a.offset + 8, a.length - 8)
  }

  /** The children of `ilst` parsed in order into `tags`; the first child whose parser
      fails fails the whole. */
  function DecodeChildren(tags: Tags, f: Bytes, cs: seq<Atom>, genres: seq<Bytes>): Result<Tags>
    decreases |cs|
  {
    if cs == [] then Ok(tags)
    else
      var next :- Step(tags, cs[0].name, Payload(f, cs[0]), genres);
      DecodeChildren(next, f, cs[1..], genres)
  }

  /** The children of the box at "moov.udta.meta.ilst": the lookup's own errors, and a leaf
      `ilst` has no children to iterate. The dotted path is resolved as its list of
      names (`IlstPathSplits`). */
  function IlstChildren(atoms: seq<Atom>): Result<seq<Atom>>
  {
    var ilst :- Resolve(atoms, ILST_NAMES);
    if ilst.Leaf? then Err(NotContainer) else Ok(ilst.children)
  }

  /** The whole of M4ATags.__init__, starting from `tags`. */
  function DecodeInto(tags: Tags, f: Bytes, atoms: seq<Atom>, genres: seq<Bytes>): Result<Tags>
  {
    var cs :- IlstChildren(atoms);
    DecodeChildren(tags, f, cs, genres)
  }

  /** The tags of a file: decoding into the empty mapping. */
  function Decode(f: Bytes, atoms: seq<Atom>, genres: seq<Bytes>): Result<Tags>
  {
    DecodeInto(map[], f, atoms, genres)
  }

  /** A parsed free-form entry stored under its key. */
  function Store(tags: Tags, e: Result<Entry>): Result<Tags>
  {
    match e
    case Ok(entry) => Ok(tags[entry.key := entry.value])
    case Err(x) => Err(x)
  }

  /** The result of a step as the methods report it: no error and the new mapping, or
      the error and the mapping unchanged. */
  ghost predicate Reports(r: Result<Tags>, before: Tags, after: Tags, err: Option<Error>)
  {
    match r
    case Ok(t) => err == None && after == t
    case Err(e) => err == Some(e) && after == before
  }

  /** One sub-box read through a cursor at `pos`: a 32-bit big-endian length, then
      `length - 4` more bytes (fewer at the end of the data). */
  method ReadSubBoxAt(data: Bytes, pos: nat) returns (r: Result<Chunk>)
    ensures r == SubBox(data, pos)
  {
    var cursor := pos;
    var lengthField := ReadAt(data, cursor, 4);
    cursor := cursor + |lengthField|;
    if |lengthField| != 4 {
      return Err(Truncated);
    }
    var box := ReadAt(data, cursor, Unsigned(lengthField) - 4);
    cursor := cursor + |box|;
    return Ok(Chunk(box, cursor));
  }

  class M4ATags {
    /** The tag mapping (the Metadata dictionary). */
    var items: Tags

    constructor()
      ensures items == map[]
    {
      items := map[];
    }

    /** __parse_freeform: three sub-boxes read one after another through a cursor
        over the payload. */
    method ParseFreeform(name: Bytes, data: Bytes) returns (err: Option<Error>)
      modifies this
      ensures Reports(Store(old(items), FreeformEntry(name, data)), old(items), items, err)
    {
      var mean := ReadSubBoxAt(data, 0);
      if mean.Err? {
        return Some(mean.error);
      }
      var nameBox := ReadSubBoxAt(data, mean.value.next);
      if nameBox.Err? {
        return Some(nameBox.error);
      }
      var value := ReadSubBoxAt(data, nameBox.value.next);
      if value.Err? {
        return Some(value.error);
      }
      items := items[FreeformKey(name, From(mean.value.bytes, 8), From(nameBox.value.bytes, 8))
                     := Str(From(value.value.bytes, 12))];
      return None;
    }

    /** One child of `ilst`: the table picks the parser by the child's name. */
    method Parse(name: Bytes, data: Bytes, genres: seq<Bytes>) returns (err: Option<Error>)
      modifies this
      ensures Reports(Step(old(items), name, data, genres), old(items), items, err)
    {
      match KindOf(name)
      case Freeform =>
        assert Step(old(items), name, data, genres) == Store(old(items), FreeformEntry(name, data));
        err := ParseFreeform(name, data);
      case NumberPair =>
        var s := Slice(data, 18, 22);
        if |s| != 4 {
          return Some(Truncated);
        }
        items := items[name := Pair(Unsigned(s[..2]), Unsigned(s[2..]))];
        return None;
      case Genre =>
        var s := Slice(data, 16, 18);
        if |s| != 2 {
          return Some(Truncated);
        }
        var index := Signed16(s) - 1;
        if GEN !in items {
          match PyIndex(genres, index)
          case Some(g) => items := items[GEN := Str(g)];
          case None =>
        }
        return None;
      case Tempo =>
        var s := Slice(data, 16, 18);
        if |s| != 2 {
          return Some(Truncated);
        }
        items := items[name := Int(Signed16(s))];
        return None;
      case Compilation =>
        items := items[name := CompilationValue(data)];
        return None;
      case Cover =>
        items := items[name := Str(From(data, 16))];
        return None;
      case Text =>
        items := items[name := Str(From(data, 16))];
        return None;
    }

    /** M4ATags.__init__: every child of `ilst`, in file order, read from its payload
        and parsed into the mapping. */
    method Load(f: array<byte>, atoms: seq<Atom>, genres: seq<Bytes>) returns (err: Option<Error>)
      modifies this
      ensures var d := DecodeInto(old(items), f[..], atoms, genres);
        (d.Ok? ==> err == None && items == d.value) && (d.Err? ==> err == Some(d.error))
    {
      var children := IlstChildren(atoms);
      if children.Err? {
        return Some(children.error);
      }
      var cs := children.value;
      var bytes := f[..];
      ghost var d := DecodeChildren(old(items), bytes, cs, genres);
      assert DecodeInto(old(items), bytes, atoms, genres) == d;
      var i := 0;
      while i < |cs|
        invariant 0 <= i <= |cs|
        invariant DecodeChildren(items, bytes, cs[i..], genres) == d
      {
        var data := ReadAt(bytes, cs[i].offset + 8, cs[i].length - 8);
        ghost var before := items;
        err := Parse(cs[i].name, data, genres);
        DecodeAdvance(before, items, err, bytes, cs, i, genres);
        if err.Some? {
          return;
        }
        i := i + 1;
      }
      assert cs[i..] == [];
      return None;
    }
  }

  // ---------------------------------------------------------------------------
  // What decoding guarantees

  /** Decoding the first child, then the rest. */
  lemma DecodeFirst(tags: Tags, f: Bytes, cs: seq<Atom>, genres: seq<Bytes>)
    requires cs != []
    ensures Step(tags, cs[0].name, Payload(f, cs[0]), genres).Err? ==>
      DecodeChildren(tags, f, cs, genres) == Err(Step(tags, cs[0].name, Payload(f, cs[0]), genres).error)
    ensures Step(tags, cs[0].name, Payload(f, cs[0]), genres).Ok? ==>
      DecodeChildren(tags, f, cs, genres)
      == DecodeChildren(Step(tags, cs[0].name, Payload(f, cs[0]), genres).value, f, cs[1..], genres)
  {
  }

  /** One pass of the reading loop: a child parsed without error leaves the rest to
      decode; a child whose parser fails is the failure of the whole. */
  lemma DecodeAdvance(before: Tags, after: Tags, err: Option<Error>, f: Bytes, cs: seq<Atom>, i: nat, genres: seq<Bytes>)
    requires i < |cs|
    requires Reports(Step(before, cs[i].name, Payload(f, cs[i]), genres), before, after, err)
    ensures err.None? ==> DecodeChildren(before, f, cs[i..], genres) == DecodeChildren(after, f, cs[i + 1..], genres)
    ensures err.Some? ==> DecodeChildren(before, f, cs[i..], genres) == Err(err.value)
  {
    assert cs[i..][0] == cs[i] && cs[i..][1..] == cs[i + 1..];
    DecodeFirst(before, f, cs[i..], genres);
  }

  /** Keys come only from the children: each key of the result was there before, is the
      text genre, or starts with the name of one of the children (the name itself, or
      a free-form "----:mean:name"). */
  lemma {:induction false} DecodeKeys(tags: Tags, f: Bytes, cs: seq<Atom>, genres: seq<Bytes>)
    requires DecodeChildren(tags, f, cs, genres).Ok?
    ensures forall k :: k in DecodeChildren(tags, f, cs, genres).value ==>
      k in tags || k == GEN || exists c :: c in cs && c.name <= k
    decreases |cs|
  {
    if cs != [] {
      var next := Step(tags, cs[0].name, Payload(f, cs[0]), genres).value;
      StepKeys(tags, cs[0].name, Payload(f, cs[0]), genres);
      DecodeKeys(next, f, cs[1..], genres);
      forall k | k in DecodeChildren(tags, f, cs, genres).value
        ensures k in tags || k == GEN || exists c :: c in cs && c.name <= k
      {
        if k !in next && k != GEN {
          var c :| c in cs[1..] && c.name <= k;
          assert c in cs;
        } else if k in next && k !in tags && k != GEN {
          assert cs[0] in cs && cs[0].name <= k;
        }
      }
    }
  }

  /** One step adds at most the child's own key, a free-form key starting with its
      name, or the text genre. */
  lemma StepKeys(tags: Tags, name: Bytes, data: Bytes, genres: seq<Bytes>)
    requires Step(tags, name, data, genres).Ok?
    ensures forall k :: k in Step(tags, name, data, genres).value ==> k in tags || k == GEN || name <= k
  {
    if KindOf(name) == Freeform {
      var e := FreeformEntry(name, data).value;
      assert name <= e.key;
    }
  }

  /** Decoding never produces a numeric-genre key: `gnre` is translated into the text genre. */
  lemma {:induction false} DecodeNoGnre(tags: Tags, f: Bytes, cs: seq<Atom>, genres: seq<Bytes>)
    requires GNRE !in tags && DecodeChildren(tags, f, cs, genres).Ok?
    ensures GNRE !in DecodeChildren(tags, f, cs, genres).value
    decreases |cs|
  {
    if cs != [] {
      var next := Step(tags, cs[0].name, Payload(f, cs[0]), genres).value;
      StepNoGnre(tags, cs[0].name, Payload(f, cs[0]), genres);
      DecodeNoGnre(next, f, cs[1..], genres);
    }
  }

  /** A text genre wins over a numeric one in either order: after it, the numeric genre
      is skipped; before it, its name is overwritten. */
  lemma TextGenreWins(tags: Tags, f: Bytes, g: Atom, t: Atom, genres: seq<Bytes>)
    requires g.name == GNRE && t.name == GEN && |Payload(f, g)| >= 18
    ensures DecodeChildren(tags, f, [t, g], genres) == Ok(tags[GEN := Str(From(Payload(f, t), 16))])
    ensures var r := DecodeChildren(tags, f, [g, t], genres);
      r.Ok? && GEN in r.value && r.value[GEN] == Str(From(Payload(f, t), 16))
  {
    var text := Str(From(Payload(f, t), 16));
    assert KindOf(GEN) == Text && KindOf(GNRE) == Genre;
    assert [t, g][1..] == [g] && [g, t][1..] == [t] && [g][1..] == [] && [t][1..] == [];
    GenreStep(tags[GEN := text], Payload(f, g), genres);
    GenreStep(tags, Payload(f, g), genres);
    DecodeFirst(tags, f, [t, g], genres);
    DecodeFirst(tags[GEN := text], f, [g], genres);
    var afterG := Step(tags, GNRE, Payload(f, g), genres).value;
    DecodeFirst(tags, f, [g, t], genres);
    DecodeFirst(afterG, f, [t], genres);
  }

  /** A file whose `ilst` is missing, or is not a container, has no tags at all:
      the reader fails rather than returning an empty mapping. */
  lemma NoIlstFails(f: Bytes, atoms: seq<Atom>, genres: seq<Bytes>)
    ensures Lookup(atoms, ILST_PATH).Err? ==> Decode(f, atoms, genres) == Err(Lookup(atoms, ILST_PATH).error)
    ensures Lookup(atoms, ILST_PATH).Ok? && Lookup(atoms, ILST_PATH).value.Leaf? ==> Decode(f, atoms, genres) == Err(NotContainer)
  {
    IlstPathSplits(atoms);
  }
}
