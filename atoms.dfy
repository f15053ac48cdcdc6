/** The box ("atom") tree of an MPEG-4 file.

    Every box starts with an 8-byte header: a big-endian 32-bit length that counts
    the header itself, then a 4-byte name (the box header of ISO/IEC 14496-12,
    section 4.2, without the `size == 1` largesize form). Boxes whose name is in
    `CONTAINERS` hold child boxes (after a 4-byte version/flags field for `meta`);
    every other box is a leaf whose payload is skipped.

    The reader is given here twice: as functions over the file's bytes (`AtomAt`,
    `ChildrenAt`, `ParseFile`), which the lemmas are about, and as the cursor-driven
    methods the module actually runs (`ReadAtom`, `ReadAtoms`), proved to compute
    the same thing. */
module AtomTree {
  import opened Bytes
  import opened Failures

  const MOOV: Bytes := [0x6D, 0x6F, 0x6F, 0x76]  // "moov"
  const UDTA: Bytes := [0x75, 0x64, 0x74, 0x61]  // "udta"
  const TRAK: Bytes := [0x74, 0x72, 0x61, 0x6B]  // "trak"
  const MDIA: Bytes := [0x6D, 0x64, 0x69, 0x61]  // "mdia"
  const META: Bytes := [0x6D, 0x65, 0x74, 0x61]  // "meta"
  const ILST: Bytes := [0x69, 0x6C, 0x73, 0x74]  // "ilst"

  /** The box kinds the reader looks inside; not every container kind of the format. */
  const CONTAINERS: set<Bytes> := {MOOV, UDTA, TRAK, MDIA, META, ILST}

  /** Bytes between a container's header and its first child. */
  function Skip(name: Bytes): (n: nat)
    ensures n == 4 <==> name == META
    ensures n == 0 || n == 4
  {
    if name == META then 4 else 0
  }

  /** One parsed box: where its header starts, its length field and name, and for a
      container the boxes read inside it, in file order. */
  datatype Atom =
    | Leaf(offset: nat, length: nat, name: Bytes)
    | Container(offset: nat, length: nat, name: Bytes, children: seq<Atom>)

  /** A parsed box and the cursor position the reader is left at. */
  datatype Parsed = Parsed(atom: Atom, end: nat)

  /** Boxes read one after another, and the cursor position after the last. */
  datatype Run = Run(atoms: seq<Atom>, end: nat)

  /** How far a cursor at `pos` is from the end of `f`: every successful read moves it closer. */
  function Rank(f: Bytes, pos: nat): nat
  {
    if pos <= |f| then |f| - pos else 0
  }

  /** The box whose header starts at `pos` (Atom.__init__). A length field of 1 is
      refused; a zero-length leaf, on which the source seeks back to its own start
      and loops forever, is reported as `Stalls`. */
  function AtomAt(f: Bytes, pos: nat): (r: Result<Parsed>)
    ensures r.Ok? ==> pos + 8 <= |f| && r.value.end > pos
    decreases Rank(f, pos), 0
  {
    if pos + 8 > |f| then Err(Truncated)
    else
      var length := Unsigned(f[pos..pos + 4]);
      var name := f[pos + 4..pos + 8];
      if length == 1 then Err(LargeSize)
      else if name in CONTAINERS then
        match ChildrenAt(f, pos + length, pos + 8 + Skip(name))
        case Err(e) => Err(e)
        case Ok(run) => Ok(Parsed(Container(pos, length, name, run.atoms), run.end))
      else if length == 0 then Err(Stalls)
      else Ok(Parsed(Leaf(pos, length, name), pos + length))
  }

  /** Boxes read back to back from `cur` for as long as the cursor is below `limit`. */
  function ChildrenAt(f: Bytes, limit: nat, cur: nat): (r: Result<Run>)
    ensures r.Ok? ==> r.value.end >= cur
    decreases Rank(f, cur), 1
  {
    if cur >= limit then Ok(Run([], cur))
    else
      match AtomAt(f, cur)
      case Err(e) => Err(e)
      case Ok(p) =>
        match ChildrenAt(f, limit, p.end)
        case Err(e) => Err(e)
        case Ok(rest) => Ok(Run([p.atom] + rest.atoms, rest.end))
  }

  /** The top-level boxes of a whole file (Atoms.__init__). */
  function ParseFile(f: Bytes): Result<seq<Atom>>
  {
    match ChildrenAt(f, |f|, 0)
    case Err(e) => Err(e)
    case Ok(run) => Ok(run.atoms)
  }

  /** `r` with `done` put in front of the boxes it read. */
  function Prepend(done: seq<Atom>, r: Result<Run>): Result<Run>
  {
    match r
    case Err(e) => Err(e)
    case Ok(run) => Ok(Run(done + run.atoms, run.end))
  }

  lemma PrependNothing(r: Result<Run>)
    ensures Prepend([], r) == r
  {
    if r.Ok? {
      assert [] + r.value.atoms == r.value.atoms;
    }
  }

  /** One more box read below `limit` moves from the pending run to the boxes done. */
  lemma PrependStep(done: seq<Atom>, f: Bytes, limit: nat, cur: nat)
    requires cur < limit
    ensures AtomAt(f, cur).Err? ==> Prepend(done, ChildrenAt(f, limit, cur)) == Err(AtomAt(f, cur).error)
    ensures AtomAt(f, cur).Ok? ==>
      Prepend(done, ChildrenAt(f, limit, cur))
      == Prepend(done + [AtomAt(f, cur).value.atom], ChildrenAt(f, limit, AtomAt(f, cur).value.end))
  {
    if AtomAt(f, cur).Ok? {
      var p := AtomAt(f, cur).value;
      var rest := ChildrenAt(f, limit, p.end);
      if rest.Ok? {
        assert done + ([p.atom] + rest.value.atoms) == (done + [p.atom]) + rest.value.atoms;
      }
    }
  }

  /** Atom.__init__ driving a cursor over the file's bytes. */
  method ReadAtom(f: array<byte>, pos: nat) returns (r: Result<Parsed>)
    ensures r == AtomAt(f[..], pos)
    decreases Rank(f[..], pos)
  {
    if pos + 8 > f.Length {
      return Err(Truncated);
    }
    var length := Unsigned(f[pos..pos + 4]);
    var name := f[pos + 4..pos + 8];
    if length == 1 {
      return Err(LargeSize);
    }
    if name in CONTAINERS {
      ghost var bytes := f[..];
      var limit := pos + length;
      var children: seq<Atom> := [];
      var cur := pos + 8 + Skip(name);
      PrependNothing(ChildrenAt(bytes, limit, cur));
      while cur < limit
        invariant cur >= pos + 8
        invariant ChildrenAt(bytes, limit, pos + 8 + Skip(name))
               == Prepend(children, ChildrenAt(bytes, limit, cur))
        decreases Rank(bytes, cur)
      {
        var child := ReadAtom(f, cur);
        PrependStep(children, bytes, limit, cur);
        if child.Err? {
          return Err(child.error);
        }
        children := children + [child.value.atom];
        cur := child.value.end;
      }
      assert children + [] == children;
      return Ok(Parsed(Container(pos, length, name, children), cur));
    }
    if length == 0 {
      return Err(Stalls);
    }
    return Ok(Parsed(Leaf(pos, length, name), pos + length));
  }

  /** Atoms.__init__: top-level boxes from offset 0 while the cursor is before the end. */
  method ReadAtoms(f: array<byte>) returns (r: Result<seq<Atom>>)
    ensures r == ParseFile(f[..])
  {
    var atoms: seq<Atom> := [];
    var cur: nat := 0;
    PrependNothing(ChildrenAt(f[..], f.Length, cur));
    while cur < f.Length
      invariant ChildrenAt(f[..], f.Length, 0) == Prepend(atoms, ChildrenAt(f[..], f.Length, cur))
      decreases Rank(f[..], cur)
    {
      var next := ReadAtom(f, cur);
      PrependStep(atoms, f[..], f.Length, cur);
      if next.Err? {
        return Err(next.error);
      }
      atoms := atoms + [next.value.atom];
      cur := next.value.end;
    }
    assert atoms + [] == atoms;
    return Ok(atoms);
  }

  // ---------------------------------------------------------------------------
  // What a successful read means

  /** Where the cursor is after reading `a`: the end of a leaf, the end of a
      container's last child, or the start of an empty container's children. */
  function End(a: Atom): nat
  {
    match a
    case Leaf(offset, length, _) => offset + length
    case Container(offset, _, name, cs) =>
      if cs == [] then offset + 8 + Skip(name) else End(cs[|cs| - 1])
  }

  /** Boxes laid back to back from `start`: each begins where the previous one ended. */
  ghost predicate Chained(cs: seq<Atom>, start: nat)
  {
    forall i :: 0 <= i < |cs| ==> cs[i].offset == (if i == 0 then start else End(cs[i - 1]))
  }

  /** The shape every box the reader returns has. A leaf is not a container kind and
      its length is at least 2; a container's children start right after its header
      (and skip), follow one another, each starts before the container's end, and the
      reader stops at or after that end. */
  ghost predicate Laid(a: Atom)
  {
    && |a.name| == 4
    && match a
       case Leaf(_, length, name) => name !in CONTAINERS && length >= 2
       case Container(offset, length, name, cs) =>
         && name in CONTAINERS
         && End(a) >= offset + length
         && End(a) >= offset + 8 + Skip(name)
         && Chained(cs, offset + 8 + Skip(name))
         && (forall i :: 0 <= i < |cs| ==> cs[i].offset < offset + length && Laid(cs[i]))
  }

  /** A box read at `pos` has the length and name its header holds, starts at `pos`,
      has the shape `Laid` describes, and leaves the cursor at `End` of it: for a leaf,
      exactly `offset + length`. */
  lemma {:induction false} AtomAtLaid(f: Bytes, pos: nat)
    requires AtomAt(f, pos).Ok?
    ensures var p := AtomAt(f, pos).value;
      && p.atom.offset == pos
      && p.atom.length == Unsigned(f[pos..pos + 4])
      && p.atom.name == f[pos + 4..pos + 8]
      && p.end == End(p.atom)
      && Laid(p.atom)
      && (p.atom.Leaf? ==> p.end == pos + p.atom.length)
    decreases Rank(f, pos), 0
  {
    var length := Unsigned(f[pos..pos + 4]);
    var name := f[pos + 4..pos + 8];
    if name in CONTAINERS {
      var start := pos + 8 + Skip(name);
      ChildrenAtLaid(f, pos + length, start);
    }
  }

  /** Boxes read while the cursor is below `limit` are chained from `cur`, each starts
      below `limit`, each has the `Laid` shape, and the cursor ends at or past `limit`
      (at the end of the last box, or at `cur` when none was read). */
  lemma {:induction false} ChildrenAtLaid(f: Bytes, limit: nat, cur: nat)
    requires ChildrenAt(f, limit, cur).Ok?
    ensures var run := ChildrenAt(f, limit, cur).value;
      && Chained(run.atoms, cur)
      && run.end >= limit
      && run.end == (if run.atoms == [] then cur else End(run.atoms[|run.atoms| - 1]))
      && (forall i :: 0 <= i < |run.atoms| ==> run.atoms[i].offset < limit && Laid(run.atoms[i]))
    decreases Rank(f, cur), 1
  {
    if cur < limit {
      var p := AtomAt(f, cur).value;
      AtomAtLaid(f, cur);
      ChildrenAtLaid(f, limit, p.end);
      var rest := ChildrenAt(f, limit, p.end).value;
      var run := ChildrenAt(f, limit, cur).value;
      assert run.atoms == [p.atom] + rest.atoms;
      forall i | 0 <= i < |run.atoms|
        ensures run.atoms[i].offset == (if i == 0 then cur else End(run.atoms[i - 1]))
      {
        if i > 0 {
          assert run.atoms[i] == rest.atoms[i - 1];
          if i > 1 { assert run.atoms[i - 1] == rest.atoms[i - 2]; }
        }
      }
    }
  }

  /** A header whose length field is 1, or that runs past the end of the file, fails
      the read; so does a leaf whose length field is 0 (where the source never returns). */
  lemma HeaderFailures(f: Bytes, pos: nat)
    ensures pos + 8 > |f| ==> AtomAt(f, pos) == Err(Truncated)
    ensures pos + 8 <= |f| && Unsigned(f[pos..pos + 4]) == 1 ==> AtomAt(f, pos) == Err(LargeSize)
    ensures pos + 8 <= |f| && Unsigned(f[pos..pos + 4]) == 0 && f[pos + 4..pos + 8] !in CONTAINERS
            ==> AtomAt(f, pos) == Err(Stalls)
  {
  }

  /** A box `r` laid at `pos` whose length field counts the whole box and whose name is
      not a container kind is read as one leaf spanning it. */
  lemma LeafAt(f: Bytes, pos: nat, r: Bytes)
    requires pos + |r| <= |f| && f[pos..pos + |r|] == r
    requires |r| >= 8 && Unsigned(r[..4]) == |r| && r[4..8] !in CONTAINERS
    ensures AtomAt(f, pos) == Ok(Parsed(Leaf(pos, |r|, r[4..8]), pos + |r|))
  {
    var w := f[pos..pos + |r|];
    assert w == r;
    assert f[pos..pos + 4] == w[..4];
    forall i | 0 <= i < 4 ensures f[pos + 4..pos + 8][i] == w[4..8][i] {
      assert w[4 + i] == f[pos + 4 + i];
    }
    assert f[pos + 4..pos + 8] == w[4..8];
  }

  /** A container header whose children read, from after the header and any skipped
      bytes up to the box's end, as `run`, is read as that container. */
  lemma ContainerAt(f: Bytes, pos: nat, length: nat, name: Bytes, limit: nat, cur: nat, kids: seq<Atom>, end: nat)
    requires pos + 8 <= |f| && Unsigned(f[pos..pos + 4]) == length && f[pos + 4..pos + 8] == name
    requires length != 1 && name in CONTAINERS
    requires limit == pos + length && cur == pos + 8 + Skip(name)
    requires ChildrenAt(f, limit, cur) == Ok(Run(kids, end))
    ensures AtomAt(f, pos) == Ok(Parsed(Container(pos, length, name, kids), end))
  {
  }

  // ---------------------------------------------------------------------------
  // Well-formed files are read exhaustively

  /** `f[lo..hi]` is a sequence of boxes that tile it exactly: each box at least as long
      as its header (and skip), inside the region, and for a container, children that
      tile its body exactly. */
  ghost predicate Tight(f: Bytes, lo: nat, hi: nat)
    decreases hi - lo
  {
    if lo == hi then true
    else
      && lo + 8 <= hi <= |f|
      && var length := Unsigned(f[lo..lo + 4]);
         var name := f[lo + 4..lo + 8];
         && 8 + Skip(name) <= length <= hi - lo
         && (name in CONTAINERS ==> Tight(f, lo + 8 + Skip(name), lo + length))
         && Tight(f, lo + length, hi)
  }

  function SumLengths(atoms: seq<Atom>): nat
  {
    if atoms == [] then 0 else atoms[0].length + SumLengths(atoms[1..])
  }

  /** The first box of a tight region is read with the cursor left exactly at
      `offset + length`. */
  lemma {:induction false} TightAtom(f: Bytes, lo: nat, hi: nat)
    requires Tight(f, lo, hi) && lo < hi
    ensures AtomAt(f, lo).Ok?
    ensures AtomAt(f, lo).value.atom.length == Unsigned(f[lo..lo + 4])
    ensures AtomAt(f, lo).value.end == lo + Unsigned(f[lo..lo + 4])
    decreases hi - lo, 0
  {
    var length := Unsigned(f[lo..lo + 4]);
    var name := f[lo + 4..lo + 8];
    if name in CONTAINERS {
      TightRun(f, lo + 8 + Skip(name), lo + length);
    }
  }

  /** A tight region is read completely: the reader stops exactly at its end and the
      lengths of the boxes read add up to its size. */
  lemma {:induction false} TightRun(f: Bytes, lo: nat, hi: nat)
    requires Tight(f, lo, hi)
    ensures ChildrenAt(f, hi, lo).Ok?
    ensures ChildrenAt(f, hi, lo).value.end == hi
    ensures SumLengths(ChildrenAt(f, hi, lo).value.atoms) == hi - lo
    decreases hi - lo, 1
  {
    if lo < hi {
      TightAtom(f, lo, hi);
      var p := AtomAt(f, lo).value;
      TightRun(f, p.end, hi);
      var rest := ChildrenAt(f, hi, p.end).value;
      assert ChildrenAt(f, hi, lo).value.atoms == [p.atom] + rest.atoms;
      assert ([p.atom] + rest.atoms)[1..] == rest.atoms;
    }
  }

  /** For a well-formed file the top-level boxes' lengths add up to the file size. */
  lemma ExhaustiveParse(f: Bytes)
    requires Tight(f, 0, |f|)
    ensures ParseFile(f).Ok?
    ensures SumLengths(ParseFile(f).value) == |f|
  {
    TightRun(f, 0, |f|);
  }
}
