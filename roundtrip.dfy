/** Writing then reading the tag list: the bytes M4ATags renders for a mapping, placed
    in a file as the body of an `ilst` box, are read back by the box reader as one leaf
    per entry, and decoding those leaves gives the mapping back. */
module TagRoundTrip {
  import opened Bytes
  import opened Failures
  import opened AtomTree
  import opened TagCodec
  import opened TagLaws
  import opened TagReader

  /** `m` with the entries of `tags` named in `order` stored into it one by one. */
  ghost function Assign(m: Tags, tags: Tags, order: seq<Bytes>): Tags
    requires forall k :: k in order ==> k in tags
    decreases |order|
  {
    if order == [] then m else Assign(m[order[0] := tags[order[0]]], tags, order[1..])
  }

  /** Storing the entries named in `order`: a key is present when it was before or is
      named, and a named key holds its value from `tags`. */
  lemma {:induction false} AssignContents(m: Tags, tags: Tags, order: seq<Bytes>)
    requires forall k :: k in order ==> k in tags
    ensures forall k :: k in Assign(m, tags, order) <==> k in m || k in order
    ensures forall k :: k in order ==> Assign(m, tags, order)[k] == tags[k]
    ensures forall k :: k in m && k !in order ==> Assign(m, tags, order)[k] == m[k]
    decreases |order|
  {
    if order != [] {
      var m' := m[order[0] := tags[order[0]]];
      AssignContents(m', tags, order[1..]);
      assert forall k :: k in order <==> k == order[0] || k in order[1..];
    }
  }

  /** Storing the first named entry, then the rest. */
  lemma AssignStep(m: Tags, tags: Tags, order: seq<Bytes>, key: Bytes, v: Value)
    requires order != [] && forall k :: k in order ==> k in tags
    requires key == order[0] && v == tags[key]
    ensures Assign(m, tags, order) == Assign(m[key := v], tags, order[1..])
  {
  }

  /** Storing every key of `tags` into the empty mapping gives `tags`. */
  lemma AssignAll(tags: Tags, order: seq<Bytes>)
    requires IsOrder(order, tags)
    ensures Assign(map[], tags, order) == tags
  {
    AssignContents(map[], tags, order);
  }

  /** What is assumed of an entry: it round-trips through the codec, and the name of
      its box does not make the reader descend into it. */
  ghost predicate Writable(key: Bytes, v: Value)
  {
    RoundTrips(key, v) && BoxName(key) !in CONTAINERS
  }

  /** Every entry of the mapping is writable. */
  ghost predicate AllWritable(tags: Tags)
  {
    forall k :: k in tags ==> Writable(k, tags[k])
  }

  /** Bytes `a + b` laid at `at` are `a` laid at `at` followed by `b`. */
  lemma SplitLaid(f: Bytes, at: nat, a: Bytes, b: Bytes)
    requires at + |a| + |b| <= |f| && f[at..at + |a| + |b|] == a + b
    ensures f[at..at + |a|] == a
    ensures f[at + |a|..at + |a| + |b|] == b
  {
    assert f[at..at + |a|] == (a + b)[..|a|];
    assert f[at + |a|..at + |a| + |b|] == (a + b)[|a|..];
  }

  /** Boxes written one after another. */
  function Concat(boxes: seq<Bytes>): Bytes
  {
    if boxes == [] then [] else boxes[0] + Concat(boxes[1..])
  }

  /** Each box is at least a header long, its length field counts the whole box, and
      its name is not one the reader descends into. */
  ghost predicate LeafBoxes(boxes: seq<Bytes>)
  {
    forall i :: 0 <= i < |boxes| ==>
      |boxes[i]| >= 8 && Unsigned(boxes[i][..4]) == |boxes[i]| && boxes[i][4..8] !in CONTAINERS
  }

  /** The leaves the reader should find for `boxes` laid out from `at`. */
  function Leaves(at: nat, boxes: seq<Bytes>): (r: seq<Atom>)
    requires LeafBoxes(boxes)
    ensures |r| == |boxes| && forall a :: a in r ==> a.Leaf?
    decreases |boxes|
  {
    if boxes == [] then []
    else [Leaf(at, |boxes[0]|, boxes[0][4..8])] + Leaves(at + |boxes[0]|, boxes[1..])
  }

  /** Boxes laid back to back from `at` are read as one leaf each, up to their end. */
  lemma {:induction false} BoxesRead(f: Bytes, at: nat, boxes: seq<Bytes>)
    requires LeafBoxes(boxes)
    requires at + |Concat(boxes)| <= |f| && f[at..at + |Concat(boxes)|] == Concat(boxes)
    ensures ChildrenAt(f, at + |Concat(boxes)|, at) == Ok(Run(Leaves(at, boxes), at + |Concat(boxes)|))
    decreases |boxes|
  {
    if boxes != [] {
      var r := boxes[0];
      var rest := Concat(boxes[1..]);
      SplitLaid(f, at, r, rest);
      LeafAt(f, at, r);
      assert LeafBoxes(boxes[1..]) by {
        forall i | 0 <= i < |boxes[1..]| ensures boxes[1..][i] == boxes[i + 1] { }
      }
      BoxesRead(f, at + |r|, boxes[1..]);
    }
  }

  /** A container box of kind `name` whose body is `boxes` is read as the container
      of their leaves. */
  lemma ContainerRead(f: Bytes, pos: nat, name: Bytes, boxes: seq<Bytes>)
    requires LeafBoxes(boxes) && name in CONTAINERS && Skip(name) == 0
    requires var n := |Concat(boxes)|;
      && pos + 8 + n <= |f| && n + 8 < 0x1_0000_0000
      && f[pos..pos + 4] == U32(n + 8) && f[pos + 4..pos + 8] == name
      && f[pos + 8..pos + 8 + n] == Concat(boxes)
    ensures var n := |Concat(boxes)|;
      AtomAt(f, pos) == Ok(Parsed(Container(pos, n + 8, name, Leaves(pos + 8, boxes)), pos + 8 + n))
  {
    var n := |Concat(boxes)|;
    BoxesRead(f, pos + 8, boxes);
    ContainerAt(f, pos, n + 8, name, pos + 8 + n, pos + 8, Leaves(pos + 8, boxes), pos + 8 + n);
  }

  /** The boxes the entries of `order` render to, one per entry, while they render. */
  function Boxes(tags: Tags, order: seq<Bytes>): seq<Bytes>
    requires forall k :: k in order ==> k in tags
  {
    if order == [] then []
    else
      match RenderEntry(order[0], tags[order[0]])
      case Ok(r) => [r] + Boxes(tags, order[1..])
      case Err(_) => []
  }

  /** `boxes` are what the entries of `order` render to, one each. */
  ghost predicate Renders(tags: Tags, order: seq<Bytes>, boxes: seq<Bytes>)
  {
    && |boxes| == |order|
    && forall i :: 0 <= i < |order| ==> order[i] in tags && RenderEntry(order[i], tags[order[i]]) == Ok(boxes[i])
  }

  /** When the whole list renders, every entry renders, and the list is the entries'
      boxes written one after another. */
  lemma {:induction false} BoxesRender(tags: Tags, order: seq<Bytes>)
    requires forall k :: k in order ==> k in tags
    requires RenderItems(tags, order).Ok?
    ensures Renders(tags, order, Boxes(tags, order))
    ensures RenderItems(tags, order).value == Concat(Boxes(tags, order))
    decreases |order|
  {
    if order != [] {
      var r := RenderEntry(order[0], tags[order[0]]).value;
      var rest := Boxes(tags, order[1..]);
      BoxesRender(tags, order[1..]);
      var boxes := Boxes(tags, order);
      assert boxes == [r] + rest;
      forall i | 0 <= i < |order|
        ensures order[i] in tags && RenderEntry(order[i], tags[order[i]]) == Ok(boxes[i])
      {
        if i > 0 { assert order[i] == order[1..][i - 1] && boxes[i] == rest[i - 1]; }
      }
    }
  }

  /** The payload of box `r` decodes, into any mapping, to the entry `key: v`. */
  ghost predicate Stores(key: Bytes, v: Value, r: Bytes)
  {
    |r| >= 8 && forall mm: Tags, g: seq<Bytes> :: Step(mm, r[4..8], r[8..], g) == Ok(mm[key := v])
  }

  /** Each of `boxes` decodes to the entry of `order` it stands for. */
  ghost predicate Decodable(tags: Tags, order: seq<Bytes>, boxes: seq<Bytes>)
  {
    && |boxes| == |order|
    && forall i :: 0 <= i < |order| ==> order[i] in tags && Stores(order[i], tags[order[i]], boxes[i])
  }

  /** The boxes of writable entries are leaf boxes, and each decodes to its entry. */
  lemma RenderedDecodable(tags: Tags, order: seq<Bytes>, boxes: seq<Bytes>)
    requires Renders(tags, order, boxes)
    requires forall k :: k in order ==> k in tags && Writable(k, tags[k])
    ensures LeafBoxes(boxes) && Decodable(tags, order, boxes)
  {
    forall i | 0 <= i < |boxes|
      ensures |boxes[i]| >= 8 && Unsigned(boxes[i][..4]) == |boxes[i]| && boxes[i][4..8] !in CONTAINERS
      ensures Stores(order[i], tags[order[i]], boxes[i])
    {
      assert order[i] in order;
      EntryRoundTrip(map[], order[i], tags[order[i]], []);
      forall mm: Tags, g: seq<Bytes>
        ensures Step(mm, boxes[i][4..8], boxes[i][8..], g) == Ok(mm[order[i] := tags[order[i]]])
      {
        EntryRoundTrip(mm, order[i], tags[order[i]], g);
      }
    }
  }

  /** The payload of the leaf read from box `r` laid at `at` is what follows its header. */
  lemma LeafPayload(f: Bytes, at: nat, r: Bytes)
    requires at + |r| <= |f| && f[at..at + |r|] == r && |r| >= 8
    ensures Payload(f, Leaf(at, |r|, r[4..8])) == r[8..]
  {
    assert Slice(f, at + 8, at + |r|) == f[at..at + |r|][8..];
  }

  /** The leaves of a box followed by more boxes. */
  lemma LeavesCons(at: nat, boxes: seq<Bytes>)
    requires boxes != [] && LeafBoxes(boxes)
    ensures LeafBoxes(boxes[1..])
    ensures Leaves(at, boxes) == [Leaf(at, |boxes[0]|, boxes[0][4..8])] + Leaves(at + |boxes[0]|, boxes[1..])
  {
    forall i | 0 <= i < |boxes[1..]| ensures boxes[1..][i] == boxes[i + 1] { }
  }

  /** Splitting the first box off laid-out decodable leaf boxes: the first stores the
      first entry, and the rest are laid out right after it and stand for the rest. */
  lemma RestLaid(f: Bytes, at: nat, tags: Tags, order: seq<Bytes>, boxes: seq<Bytes>)
    requires order != [] && Decodable(tags, order, boxes) && LeafBoxes(boxes)
    requires at + |Concat(boxes)| <= |f| && f[at..at + |Concat(boxes)|] == Concat(boxes)
    ensures order[0] in tags && Stores(order[0], tags[order[0]], boxes[0])
    ensures at + |boxes[0]| <= |f| && f[at..at + |boxes[0]|] == boxes[0]
    ensures Decodable(tags, order[1..], boxes[1..]) && LeafBoxes(boxes[1..])
    ensures at + |boxes[0]| + |Concat(boxes[1..])| <= |f|
    ensures f[at + |boxes[0]|..at + |boxes[0]| + |Concat(boxes[1..])|] == Concat(boxes[1..])
  {
    assert Concat(boxes) == boxes[0] + Concat(boxes[1..]);
    SplitLaid(f, at, boxes[0], Concat(boxes[1..]));
    forall i | 0 <= i < |order[1..]|
      ensures order[1..][i] in tags && Stores(order[1..][i], tags[order[1..][i]], boxes[1..][i])
    {
      assert order[1..][i] == order[i + 1] && boxes[1..][i] == boxes[i + 1];
    }
    forall i | 0 <= i < |boxes[1..]| ensures boxes[1..][i] == boxes[i + 1] { }
  }

  /** Children folded into a mapping one at a time by `step`; the first failure stops
      the fold. */
  function Fold(step: (Tags, Atom) -> Result<Tags>, m: Tags, cs: seq<Atom>): Result<Tags>
    decreases |cs|
  {
    if cs == [] then Ok(m)
    else
      var next :- step(m, cs[0]);
      Fold(step, next, cs[1..])
  }

  /** Parsing one child of `ilst` read from `f`. */
  function Decoder(f: Bytes, genres: seq<Bytes>): (Tags, Atom) -> Result<Tags>
  {
    (mm: Tags, a: Atom) => Step(mm, a.name, Payload(f, a), genres)
  }

  /** Decoding the children of `ilst` is folding the per-child parser over them. */
  lemma {:induction false} DecodeIsFold(f: Bytes, m: Tags, cs: seq<Atom>, genres: seq<Bytes>)
    ensures DecodeChildren(m, f, cs, genres) == Fold(Decoder(f, genres), m, cs)
    decreases |cs|
  {
    if cs != [] {
      DecodeFirst(m, f, cs, genres);
      var r := Step(m, cs[0].name, Payload(f, cs[0]), genres);
      assert Decoder(f, genres)(m, cs[0]) == r;
      if r.Ok? {
        DecodeIsFold(f, r.value, cs[1..], genres);
      }
    }
  }

  /** `step` on child `c` stores `key` with value `v` into any mapping. */
  ghost predicate ChildStores(step: (Tags, Atom) -> Result<Tags>, c: Atom, key: Bytes, v: Value)
  {
    forall mm: Tags :: step(mm, c) == Ok(mm[key := v])
  }

  /** `step` stores the entry of `order` each child stands for, into any mapping. */
  ghost predicate StepsStore(step: (Tags, Atom) -> Result<Tags>, cs: seq<Atom>, tags: Tags, order: seq<Bytes>)
    decreases |cs|
  {
    && |cs| == |order|
    && (forall k :: k in order ==> k in tags)
    && (cs != [] ==>
      && ChildStores(step, cs[0], order[0], tags[order[0]])
      && StepsStore(step, cs[1..], tags, order[1..]))
  }

  /** Folding children that each store one entry stores all of them in order. */
  lemma {:induction false} FoldStores(step: (Tags, Atom) -> Result<Tags>, m: Tags, cs: seq<Atom>, tags: Tags, order: seq<Bytes>)
    requires StepsStore(step, cs, tags, order)
    ensures Fold(step, m, cs) == Ok(Assign(m, tags, order))
    decreases |cs|
  {
    if cs != [] {
      var m' := m[order[0] := tags[order[0]]];
      assert step(m, cs[0]) == Ok(m');
      FoldStores(step, m', cs[1..], tags, order[1..]);
      AssignStep(m, tags, order, order[0], tags[order[0]]);
    }
  }

  /** The leaves read from `boxes` laid out from `at` each store, under the per-child
      parser, the entry their box stands for. */
  lemma {:induction false} LeavesStore(f: Bytes, at: nat, tags: Tags, order: seq<Bytes>, boxes: seq<Bytes>, genres: seq<Bytes>)
    requires Decodable(tags, order, boxes) && LeafBoxes(boxes)
    requires at + |Concat(boxes)| <= |f| && f[at..at + |Concat(boxes)|] == Concat(boxes)
    ensures StepsStore(Decoder(f, genres), Leaves(at, boxes), tags, order)
    decreases |order|
  {
    if order != [] {
      RestLaid(f, at, tags, order, boxes);
      LeavesStore(f, at + |boxes[0]|, tags, order[1..], boxes[1..], genres);
      LeavesCons(at, boxes);
      LeafStores(f, at, order[0], tags[order[0]], boxes[0], genres);
      StepsStoreCons(Decoder(f, genres), Leaf(at, |boxes[0]|, boxes[0][4..8]),
        Leaves(at + |boxes[0]|, boxes[1..]), tags, order);
    }
  }

  /** A leaf laid out at `at` whose box stores an entry decodes to that entry. */
  lemma LeafStores(f: Bytes, at: nat, key: Bytes, v: Value, r: Bytes, genres: seq<Bytes>)
    requires Stores(key, v, r) && at + |r| <= |f| && f[at..at + |r|] == r
    ensures ChildStores(Decoder(f, genres), Leaf(at, |r|, r[4..8]), key, v)
  {
    LeafPayload(f, at, r);
  }

  /** A child storing the first entry, followed by children storing the rest. */
  lemma StepsStoreCons(step: (Tags, Atom) -> Result<Tags>, c: Atom, cs: seq<Atom>, tags: Tags, order: seq<Bytes>)
    requires order != [] && order[0] in tags
    requires ChildStores(step, c, order[0], tags[order[0]])
    requires StepsStore(step, cs, tags, order[1..])
    ensures StepsStore(step, [c] + cs, tags, order)
  {
    assert ([c] + cs)[1..] == cs;
    assert forall k :: k in order ==> k == order[0] || k in order[1..];
  }

  /** An `ilst` box whose body is leaf boxes each decoding to one entry of `tags`, one
      per key, is read as a container of those leaves, and they decode to `tags`. */
  lemma IlstBoxes(f: Bytes, pos: nat, tags: Tags, order: seq<Bytes>, boxes: seq<Bytes>, genres: seq<Bytes>)
    requires IsOrder(order, tags) && Decodable(tags, order, boxes) && LeafBoxes(boxes)
    requires var n := |Concat(boxes)|;
      && pos + 8 + n <= |f| && n + 8 < 0x1_0000_0000
      && f[pos..pos + 4] == U32(n + 8) && f[pos + 4..pos + 8] == ILST
      && f[pos + 8..pos + 8 + n] == Concat(boxes)
    ensures var n := |Concat(boxes)|;
      && AtomAt(f, pos) == Ok(Parsed(Container(pos, n + 8, ILST, Leaves(pos + 8, boxes)), pos + 8 + n))
      && |Leaves(pos + 8, boxes)| == |tags|
      && DecodeChildren(map[], f, Leaves(pos + 8, boxes), genres) == Ok(tags)
  {
    LeavesStore(f, pos + 8, tags, order, boxes, genres);
    FoldStores(Decoder(f, genres), map[], Leaves(pos + 8, boxes), tags, order);
    DecodeIsFold(f, map[], Leaves(pos + 8, boxes), genres);
    assert Skip(ILST) == 0;
    ContainerRead(f, pos, ILST, boxes);
    AssignAll(tags, order);
    OrderCountsKeys(order, tags);
  }

  /** The round trip of the tag list: an `ilst` box whose body is `body`, the bytes
      `__render` gives for a writable mapping (it always gives some, by
      `WritableRenders`), is read as a container of one leaf per entry, and decoding
      its children gives the mapping back, whatever order the entries were rendered in. */
  lemma IlstRoundTrip(f: Bytes, pos: nat, tags: Tags, order: seq<Bytes>, body: Bytes, genres: seq<Bytes>)
    requires IsOrder(order, tags)
    requires AllWritable(tags)
    requires RenderItems(tags, order) == Ok(body)
    requires && pos + 8 + |body| <= |f|
      && |body| + 8 < 0x1_0000_0000
      && f[pos..pos + 4] == U32(|body| + 8)
      && f[pos + 4..pos + 8] == ILST
      && f[pos + 8..pos + 8 + |body|] == body
    ensures var p := AtomAt(f, pos);
      && p.Ok?
      && p.value.end == pos + 8 + |body|
      && p.value.atom.Container? && p.value.atom.name == ILST
      && p.value.atom.length == |body| + 8
      && |p.value.atom.children| == |tags|
      && (forall c :: c in p.value.atom.children ==> c.Leaf?)
      && DecodeChildren(map[], f, p.value.atom.children, genres) == Ok(tags)
  {
    var boxes := Boxes(tags, order);
    RenderedBoxes(tags, order);
    IlstBodyReads(f, pos, tags, order, boxes, body, genres);
  }

  /** `IlstBoxes` restated for a body known to be the boxes written back to back. */
  lemma IlstBodyReads(f: Bytes, pos: nat, tags: Tags, order: seq<Bytes>, boxes: seq<Bytes>, body: Bytes, genres: seq<Bytes>)
    requires IsOrder(order, tags) && Decodable(tags, order, boxes) && LeafBoxes(boxes)
    requires body == Concat(boxes)
    requires && pos + 8 + |body| <= |f|
      && |body| + 8 < 0x1_0000_0000
      && f[pos..pos + 4] == U32(|body| + 8)
      && f[pos + 4..pos + 8] == ILST
      && f[pos + 8..pos + 8 + |body|] == body
    ensures var p := AtomAt(f, pos);
      && p.Ok?
      && p.value.end == pos + 8 + |body|
      && p.value.atom.Container? && p.value.atom.name == ILST
      && p.value.atom.length == |body| + 8
      && |p.value.atom.children| == |tags|
      && (forall c :: c in p.value.atom.children ==> c.Leaf?)
      && DecodeChildren(map[], f, p.value.atom.children, genres) == Ok(tags)
  {
    IlstBoxes(f, pos, tags, order, boxes, genres);
  }

  /** A mapping of writable entries renders to leaf boxes, one per key of the order,
      each decoding to its entry. */
  lemma RenderedBoxes(tags: Tags, order: seq<Bytes>)
    requires IsOrder(order, tags)
    requires AllWritable(tags)
    requires RenderItems(tags, order).Ok?
    ensures var boxes := Boxes(tags, order);
      && RenderItems(tags, order).value == Concat(boxes)
      && LeafBoxes(boxes) && Decodable(tags, order, boxes)
  {
    BoxesRender(tags, order);
    RenderedDecodable(tags, order, Boxes(tags, order));
  }

  /** Rendering never fails for a mapping of writable entries, whatever the order:
      `IlstRoundTrip`'s requirement that rendering succeed holds for every mapping it
      speaks of. */
  lemma WritableRenders(tags: Tags, order: seq<Bytes>)
    requires IsOrder(order, tags) && AllWritable(tags)
    ensures RenderItems(tags, order).Ok?
  {
    EntriesRender(tags, order);
  }

  lemma {:induction false} EntriesRender(tags: Tags, order: seq<Bytes>)
    requires forall k :: k in order ==> k in tags && Writable(k, tags[k])
    ensures RenderItems(tags, order).Ok?
    decreases |order|
  {
    if order != [] {
      assert order[0] in order;
      EntryRoundTrip(map[], order[0], tags[order[0]], []);
      EntriesRender(tags, order[1..]);
    }
  }

  /** One entry that fails to render fails the whole of `__render`, whatever the order. */
  lemma {:induction false} EntryFailureFails(tags: Tags, order: seq<Bytes>, key: Bytes)
    requires forall k :: k in order ==> k in tags
    requires key in order && RenderEntry(key, tags[key]).Err?
    ensures RenderItems(tags, order).Err?
    decreases |order|
  {
    if order[0] != key {
      assert order == [order[0]] + order[1..];
      EntryFailureFails(tags, order[1..], key);
    }
  }

  /** A tempo read back negative, as one stored from 32768 up is (`TempoReadSigned`),
      cannot be packed again: its entry fails with OutOfRange, and so does rendering any
      mapping that holds it. */
  lemma NegativeTempoBlocksRender(tags: Tags, order: seq<Bytes>)
    requires IsOrder(order, tags) && TMPO in tags && tags[TMPO].Int? && tags[TMPO].n < 0
    ensures RenderEntry(TMPO, tags[TMPO]) == Err(OutOfRange)
    ensures RenderItems(tags, order).Err?
  {
    assert Slice(TMPO, 0, 4) == TMPO;
    EntryFailureFails(tags, order, TMPO);
  }

  /** An order lists as many keys as the mapping has. */
  lemma OrderCountsKeys(order: seq<Bytes>, tags: Tags)
    requires IsOrder(order, tags)
    ensures |order| == |tags|
  {
    var keys := set i | 0 <= i < |order| :: order[i];
    assert keys == tags.Keys;
    DistinctCount(order);
  }

  /** A list without repeats has as many distinct elements as entries. */
  lemma {:induction false} DistinctCount(s: seq<Bytes>)
    requires forall i, j :: 0 <= i < j < |s| ==> s[i] != s[j]
    ensures |set i | 0 <= i < |s| :: s[i]| == |s|
  {
    if s != [] {
      var rest := s[1..];
      DistinctCount(rest);
      var all := set i | 0 <= i < |s| :: s[i];
      var tail := set i | 0 <= i < |rest| :: rest[i];
      assert all == {s[0]} + tail by {
        forall x | x in all ensures x in {s[0]} + tail {
          var i :| 0 <= i < |s| && s[i] == x;
          if i > 0 { assert rest[i - 1] == x; }
        }
        forall x | x in tail ensures x in all {
          var i :| 0 <= i < |rest| && rest[i] == x;
          assert s[i + 1] == x;
        }
      }
      forall i | 0 <= i < |rest| ensures rest[i] != s[0] {
        assert rest[i] == s[i + 1];
      }
    }
  }
}
