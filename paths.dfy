/** Looking boxes up by a path of names, and listing the paths of the leaves. */
module AtomPaths {
  import opened Bytes
  import opened Failures
  import opened AtomTree

  const DOT: byte := 0x2E  // '.'

  /** Atom.__getitem__: an empty path is the box itself; otherwise the first child
      named like the next segment is searched for the rest. A leaf has no children to
      search, and a segment no child matches is a KeyError. */
  function Get(a: Atom, path: seq<Bytes>): Result<Atom>
    decreases |path|, 1, 0
  {
    if path == [] then Ok(a)
    else
      match a
      case Leaf(_, _, _) => Err(KeyNotFound)
      case Container(_, _, _, cs) => FirstMatch(cs, path)
  }

  /** The for/else loop of the lookups: the first box named `path[0]` resolves the rest. */
  function FirstMatch(cs: seq<Atom>, path: seq<Bytes>): Result<Atom>
    requires path != []
    decreases |path|, 0, |cs|
  {
    if cs == [] then Err(KeyNotFound)
    else if cs[0].name == path[0] then Get(cs[0], path[1..])
    else FirstMatch(cs[1..], path)
  }

  /** Atoms.__getitem__ given a list of names; indexing the first name of an empty
      list is an IndexError. */
  function Resolve(atoms: seq<Atom>, names: seq<Bytes>): Result<Atom>
  {
    if names == [] then Err(IndexOutOfRange) else FirstMatch(atoms, names)
  }

  /** Atoms.__getitem__ given a string: the names are the string split at every '.'. */
  function Lookup(atoms: seq<Atom>, dotted: Bytes): Result<Atom>
  {
    Resolve(atoms, SplitN(dotted, DOT, -1))
  }

  /** Resolving the rest of a path from the result of its first part. */
  function Then(r: Result<Atom>, rest: seq<Bytes>): Result<Atom>
  {
    match r
    case Err(e) => Err(e)
    case Ok(b) => Get(b, rest)
  }

  /** Position of the first box named `name`, or `|cs|` when there is none. */
  function FirstNamed(cs: seq<Atom>, name: Bytes): (k: nat)
    ensures k <= |cs|
    ensures k < |cs| ==> cs[k].name == name
    ensures forall j :: 0 <= j < k ==> cs[j].name != name
  {
    if cs == [] then 0
    else if cs[0].name == name then 0
    else 1 + FirstNamed(cs[1..], name)
  }

  /** First match wins: the lookup descends into the earliest box with the segment's
      name and fails only when no box has it. */
  lemma {:induction false} FirstMatchWins(cs: seq<Atom>, path: seq<Bytes>)
    requires path != []
    ensures var k := FirstNamed(cs, path[0]);
      FirstMatch(cs, path) == if k == |cs| then Err(KeyNotFound) else Get(cs[k], path[1..])
  {
    if cs != [] && cs[0].name != path[0] {
      FirstMatchWins(cs[1..], path);
      assert FirstNamed(cs, path[0]) == 1 + FirstNamed(cs[1..], path[0]);
    }
  }

  /** Path lookup is compositional: resolving `p + q` is resolving `p`, then `q` from there. */
  lemma {:induction false} GetCompose(a: Atom, p: seq<Bytes>, q: seq<Bytes>)
    ensures Get(a, p + q) == Then(Get(a, p), q)
    decreases |p|, 1, 0
  {
    if p == [] {
      assert p + q == q;
    } else if a.Container? {
      FirstMatchCompose(a.children, p, q);
    }
  }

  lemma {:induction false} FirstMatchCompose(cs: seq<Atom>, p: seq<Bytes>, q: seq<Bytes>)
    requires p != []
    ensures FirstMatch(cs, p + q) == Then(FirstMatch(cs, p), q)
    decreases |p|, 0, |cs|
  {
    assert (p + q)[0] == p[0];
    if cs != [] {
      if cs[0].name == p[0] {
        assert (p + q)[1..] == p[1..] + q;
        GetCompose(cs[0], p[1..], q);
      } else {
        FirstMatchCompose(cs[1..], p, q);
      }
    }
  }

  /** A box found by a non-empty path carries the path's last name. */
  lemma {:induction false} GetName(a: Atom, path: seq<Bytes>)
    requires path != [] && Get(a, path).Ok?
    ensures Get(a, path).value.name == path[|path| - 1]
    decreases |path|
  {
    var cs := a.children;
    var k := FirstNamed(cs, path[0]);
    FirstMatchWins(cs, path);
    if |path| > 1 {
      GetName(cs[k], path[1..]);
    }
  }

  /** A leaf cannot resolve a non-empty path; an empty one is the box itself. */
  lemma GetFailures(a: Atom, path: seq<Bytes>)
    ensures path == [] ==> Get(a, path) == Ok(a)
    ensures a.Leaf? && path != [] ==> Get(a, path) == Err(KeyNotFound)
    ensures a.Container? && path != [] && (forall c :: c in a.children ==> c.name != path[0])
            ==> Get(a, path) == Err(KeyNotFound)
  {
    if a.Container? && path != [] {
      FirstMatchWins(a.children, path);
    }
  }

  /** A dotted string resolves the same as the list of its '.'-free names. */
  lemma LookupDotted(atoms: seq<Atom>, names: seq<Bytes>)
    requires names != []
    requires forall k :: 0 <= k < |names| ==> DOT !in names[k]
    ensures Lookup(atoms, Join(names, DOT)) == Resolve(atoms, names)
  {
    JoinSplit(names, DOT);
  }

  // ---------------------------------------------------------------------------
  // keys

  /** `[name] + k` for every path `k`. */
  function Prefixed(name: Bytes, ks: seq<seq<Bytes>>): (r: seq<seq<Bytes>>)
    ensures |r| == |ks|
    ensures forall i :: 0 <= i < |ks| ==> r[i] == [name] + ks[i]
  {
    if ks == [] then [] else [[name] + ks[0]] + Prefixed(name, ks[1..])
  }

  /** Atom.keys: one path per leaf below the box, each starting with the box's own name;
      a leaf or an empty container has none. */
  function Keys(a: Atom): seq<seq<Bytes>>
  {
    match a
    case Leaf(_, _, _) => []
    case Container(_, _, name, cs) => if cs == [] then [] else Prefixed(name, ChildKeys(cs))
  }

  /** The paths the children contribute: a leaf child its own name, a container child its keys. */
  function ChildKeys(cs: seq<Atom>): seq<seq<Bytes>>
  {
    if cs == [] then []
    else
      (match cs[0]
       case Leaf(_, _, name) => [[name]]
       case Container(_, _, _, _) => Keys(cs[0]))
      + ChildKeys(cs[1..])
  }

  /** Atoms.keys: the keys of the top-level boxes, concatenated (a top-level leaf adds none). */
  function FileKeys(atoms: seq<Atom>): seq<seq<Bytes>>
  {
    if atoms == [] then [] else Keys(atoms[0]) + FileKeys(atoms[1..])
  }

  /** The paths one child contributes. */
  function OwnKeys(a: Atom): seq<seq<Bytes>>
  {
    match a
    case Leaf(_, _, name) => [[name]]
    case Container(_, _, _, _) => Keys(a)
  }

  lemma ChildKeysUnfold(cs: seq<Atom>)
    requires cs != []
    ensures ChildKeys(cs) == OwnKeys(cs[0]) + ChildKeys(cs[1..])
  {
  }

  /** No two boxes side by side share a name, at any depth. */
  ghost predicate UniqueNames(cs: seq<Atom>)
  {
    && (forall i, j :: 0 <= i < j < |cs| ==> cs[i].name != cs[j].name)
    && (forall i :: 0 <= i < |cs| ==> cs[i].Container? ==> UniqueNames(cs[i].children))
  }

  // ---------------------------------------------------------------------------
  // What keys lists, whatever the names

  /** `path` names a leaf through `a`: its first name is `a`'s, and either `a` is a leaf
      and the path ends there, or the rest names a leaf among `a`'s children. */
  ghost predicate LeafPathVia(a: Atom, path: seq<Bytes>)
    decreases |path|, 0
  {
    && path != [] && path[0] == a.name
    && (if a.Leaf? then |path| == 1 else LeafPath(a.children, path[1..]))
  }

  /** `path` names a leaf through some box among `cs`: any box with the name, not only
      the first one a lookup would descend into. */
  ghost predicate LeafPath(cs: seq<Atom>, path: seq<Bytes>)
    decreases |path|, 1
  {
    exists i :: 0 <= i < |cs| && LeafPathVia(cs[i], path)
  }

  lemma LeafPathCons(cs: seq<Atom>, path: seq<Bytes>)
    requires cs != []
    ensures LeafPath(cs, path) <==> LeafPathVia(cs[0], path) || LeafPath(cs[1..], path)
  {
    if LeafPath(cs, path) {
      var i :| 0 <= i < |cs| && LeafPathVia(cs[i], path);
      if i > 0 {
        assert cs[1..][i - 1] == cs[i];
      }
    }
    if LeafPath(cs[1..], path) {
      var i :| 0 <= i < |cs| - 1 && LeafPathVia(cs[1..][i], path);
      assert cs[i + 1] == cs[1..][i];
    }
  }

  lemma LeafPathNonEmpty(cs: seq<Atom>, path: seq<Bytes>)
    requires LeafPath(cs, path)
    ensures path != []
  {
    var i :| 0 <= i < |cs| && LeafPathVia(cs[i], path);
  }

  /** Atom.keys lists exactly the leaf paths through a container, whatever the names of
      its boxes: a listed path may run through a box that a lookup, taking the first
      box of a name, never reaches. */
  lemma {:induction false} KeysLeafPaths(a: Atom, key: seq<Bytes>)
    requires a.Container?
    ensures key in Keys(a) <==> LeafPathVia(a, key)
    decreases |key|, 0
  {
    var cs := a.children;
    if cs == [] {
      if key != [] {
        assert !LeafPath(cs, key[1..]);
      }
    } else {
      var ks := ChildKeys(cs);
      if key in Keys(a) {
        var i :| 0 <= i < |ks| && Prefixed(a.name, ks)[i] == key;
        assert key == [a.name] + ks[i] && key[1..] == ks[i];
        ChildKeysLeafPaths(cs, ks[i]);
      }
      if LeafPathVia(a, key) {
        ChildKeysLeafPaths(cs, key[1..]);
        var i :| 0 <= i < |ks| && ks[i] == key[1..];
        assert Prefixed(a.name, ks)[i] == [a.name] + key[1..] == key;
      }
    }
  }

  /** The paths the children contribute are exactly the leaf paths through them. */
  lemma {:induction false} ChildKeysLeafPaths(cs: seq<Atom>, k: seq<Bytes>)
    ensures k in ChildKeys(cs) <==> LeafPath(cs, k)
    decreases |k|, 1, |cs|
  {
    if cs != [] {
      ChildKeysUnfold(cs);
      LeafPathCons(cs, k);
      ChildKeysLeafPaths(cs[1..], k);
      if cs[0].Leaf? {
        if k in OwnKeys(cs[0]) {
          assert k == [cs[0].name];
        }
        if LeafPathVia(cs[0], k) {
          assert k == [cs[0].name];
        }
      } else {
        KeysLeafPaths(cs[0], k);
      }
    }
  }

  /** Atoms.keys lists exactly the leaf paths of two or more names through the
      top-level boxes. */
  lemma {:induction false} FileKeysLeafPaths(atoms: seq<Atom>, key: seq<Bytes>)
    ensures key in FileKeys(atoms) <==> |key| >= 2 && LeafPath(atoms, key)
  {
    if atoms != [] {
      assert FileKeys(atoms) == Keys(atoms[0]) + FileKeys(atoms[1..]);
      FileKeysLeafPaths(atoms[1..], key);
      LeafPathCons(atoms, key);
      if atoms[0].Container? {
        KeysLeafPaths(atoms[0], key);
        if LeafPathVia(atoms[0], key) {
          LeafPathNonEmpty(atoms[0].children, key[1..]);
        }
      }
    }
  }

  // ---------------------------------------------------------------------------
  // How many paths keys lists: one per leaf

  /** The leaves below `a`, counting `a` itself when it is a leaf. */
  function LeafCount(a: Atom): nat
  {
    match a
    case Leaf(_, _, _) => 1
    case Container(_, _, _, cs) => ChildLeafCount(cs)
  }

  function ChildLeafCount(cs: seq<Atom>): nat
  {
    if cs == [] then 0 else LeafCount(cs[0]) + ChildLeafCount(cs[1..])
  }

  /** The leaves below the top-level containers (a top-level leaf is not counted). */
  function FileLeafCount(atoms: seq<Atom>): nat
  {
    if atoms == [] then 0
    else (if atoms[0].Container? then LeafCount(atoms[0]) else 0) + FileLeafCount(atoms[1..])
  }

  /** The number of leaves `path` names through `a`: how many boxes it can end at. */
  function PathLeavesVia(a: Atom, path: seq<Bytes>): nat
    decreases |path|, 0
  {
    if path == [] || path[0] != a.name then 0
    else if a.Leaf? then (if |path| == 1 then 1 else 0)
    else PathLeaves(a.children, path[1..])
  }

  /** The number of leaves `path` names through the boxes `cs`, summed over them. */
  function PathLeaves(cs: seq<Atom>, path: seq<Bytes>): nat
    decreases |path|, 1, |cs|
  {
    if cs == [] then 0 else PathLeavesVia(cs[0], path) + PathLeaves(cs[1..], path)
  }

  /** Atom.keys lists one path per leaf below a container. */
  lemma {:induction false} KeysCount(a: Atom)
    requires a.Container?
    ensures |Keys(a)| == LeafCount(a)
  {
    ChildKeysCount(a.children);
  }

  lemma {:induction false} ChildKeysCount(cs: seq<Atom>)
    ensures |ChildKeys(cs)| == ChildLeafCount(cs)
  {
    if cs != [] {
      ChildKeysUnfold(cs);
      ChildKeysCount(cs[1..]);
      if cs[0].Container? {
        KeysCount(cs[0]);
      }
    }
  }

  /** Atoms.keys lists one path per leaf below the top-level containers. */
  lemma {:induction false} FileKeysCount(atoms: seq<Atom>)
    ensures |FileKeys(atoms)| == FileLeafCount(atoms)
  {
    if atoms != [] {
      FileKeysCount(atoms[1..]);
      if atoms[0].Container? {
        KeysCount(atoms[0]);
      }
    }
  }

  /** How often a path occurs among the name-prefixed paths. */
  lemma {:induction false} PrefixedCount(name: Bytes, ks: seq<seq<Bytes>>, key: seq<Bytes>)
    ensures multiset(Prefixed(name, ks))[key]
            == if key != [] && key[0] == name then multiset(ks)[key[1..]] else 0
  {
    if ks != [] {
      CountCons([name] + ks[0], Prefixed(name, ks[1..]), key);
      PrefixedCount(name, ks[1..], key);
      PrefixMatch(name, ks[0], key);
      if key != [] && key[0] == name {
        CountFirst(ks, key[1..]);
      }
    }
  }

  /** How often `x` occurs in a sequence that starts with `h`. */
  lemma CountCons<T>(h: T, r: seq<T>, x: T)
    ensures multiset([h] + r)[x] == (if h == x then 1 else 0) + multiset(r)[x]
  {
  }

  /** How often `x` occurs in a non-empty sequence, counted from its first element. */
  lemma CountFirst<T>(s: seq<T>, x: T)
    requires s != []
    ensures multiset(s)[x] == (if s[0] == x then 1 else 0) + multiset(s[1..])[x]
  {
    assert s == [s[0]] + s[1..];
  }

  /** A path is `name` followed by `t` exactly when it starts with `name` and goes on as `t`. */
  lemma PrefixMatch(name: Bytes, t: seq<Bytes>, key: seq<Bytes>)
    ensures [name] + t == key <==> key != [] && key[0] == name && key[1..] == t
  {
    if key != [] && key[0] == name && key[1..] == t {
      assert key == [key[0]] + key[1..];
    }
  }

  /** Atom.keys lists each path once for every leaf it names: a path leading to two
      leaves through two boxes of the same name is listed twice. */
  lemma {:induction false} KeysCountsLeaves(a: Atom, key: seq<Bytes>)
    requires a.Container?
    ensures multiset(Keys(a))[key] == PathLeavesVia(a, key)
    decreases |key|, 0
  {
    if a.children != [] {
      PrefixedCount(a.name, ChildKeys(a.children), key);
      if key != [] && key[0] == a.name {
        ChildKeysCountsLeaves(a.children, key[1..]);
      }
    }
  }

  lemma {:induction false} ChildKeysCountsLeaves(cs: seq<Atom>, k: seq<Bytes>)
    ensures multiset(ChildKeys(cs))[k] == PathLeaves(cs, k)
    decreases |k|, 1, |cs|
  {
    if cs != [] {
      ChildKeysUnfold(cs);
      ChildKeysCountsLeaves(cs[1..], k);
      if cs[0].Leaf? {
        assert ([cs[0].name] == k) == (k != [] && k[0] == cs[0].name && |k| == 1);
      } else {
        KeysCountsLeaves(cs[0], k);
      }
    }
  }

  /** Atoms.keys lists each path of two or more names once for every leaf it names. */
  lemma {:induction false} FileKeysCountsLeaves(atoms: seq<Atom>, key: seq<Bytes>)
    ensures multiset(FileKeys(atoms))[key] == if |key| >= 2 then PathLeaves(atoms, key) else 0
  {
    if atoms != [] {
      FileKeysCountsLeaves(atoms[1..], key);
      var a := atoms[0];
      if a.Container? {
        KeysCountsLeaves(a, key);
        if |key| == 1 && key[0] == a.name {
          assert key[1..] == [];
          EmptyPathLeaves(a.children);
        }
      }
    }
  }

  /** The empty path names no leaf. */
  lemma {:induction false} EmptyPathLeaves(cs: seq<Atom>)
    ensures PathLeaves(cs, []) == 0
  {
    if cs != [] {
      EmptyPathLeaves(cs[1..]);
    }
  }

  const TKHD: Bytes := [0x74, 0x6B, 0x68, 0x64]  // "tkhd"
  const MDHD_LEAF: Bytes := [0x6D, 0x64, 0x68, 0x64]  // "mdhd"

  /** With two `trak` boxes side by side, `keys` lists the leaf under the second one,
      yet looking that path up descends into the first `trak` and fails. */
  lemma ShadowedKey()
    ensures var moov := Container(0, 40, MOOV, [Container(8, 16, TRAK, [Leaf(16, 8, TKHD)]),
                                                Container(24, 16, TRAK, [Leaf(32, 8, MDHD_LEAF)])]);
      && [MOOV, TRAK, MDHD_LEAF] in FileKeys([moov])
      && Resolve([moov], [MOOV, TRAK, MDHD_LEAF]) == Err(KeyNotFound)
  {
    var t1 := Container(8, 16, TRAK, [Leaf(16, 8, TKHD)]);
    var t2 := Container(24, 16, TRAK, [Leaf(32, 8, MDHD_LEAF)]);
    var moov := Container(0, 40, MOOV, [t1, t2]);
    var path := [MOOV, TRAK, MDHD_LEAF];
    assert path[1..] == [TRAK, MDHD_LEAF] && path[1..][1..] == [MDHD_LEAF];
    assert LeafPathVia(t2.children[0], [MDHD_LEAF]);
    assert LeafPath(t2.children, [MDHD_LEAF]);
    assert LeafPathVia(moov.children[1], [TRAK, MDHD_LEAF]);
    assert LeafPath(moov.children, [TRAK, MDHD_LEAF]);
    assert LeafPathVia([moov][0], path);
    FileKeysLeafPaths([moov], path);
    assert TKHD != MDHD_LEAF;
    assert FirstMatch(t1.children, [MDHD_LEAF]) == Err(KeyNotFound);
    assert Get(t1, [MDHD_LEAF]) == FirstMatch(t1.children, [MDHD_LEAF]);
    assert FirstMatch(moov.children, [TRAK, MDHD_LEAF]) == Get(t1, [MDHD_LEAF]);
    assert Get(moov, [TRAK, MDHD_LEAF]) == FirstMatch(moov.children, [TRAK, MDHD_LEAF]);
    assert FirstMatch([moov], path) == Get(moov, [TRAK, MDHD_LEAF]);
  }

  /** When no two sibling boxes share a name, a listed key is also what a lookup finds:
      it leads to a leaf; its first name is the box's own. */
  lemma {:induction false} KeysSound(a: Atom, key: seq<Bytes>)
    requires a.Container? && UniqueNames(a.children)
    requires key in Keys(a)
    ensures |key| >= 2 && key[0] == a.name
    ensures Get(a, key[1..]).Ok? && Get(a, key[1..]).value.Leaf?
  {
    var cs := a.children;
    var i :| 0 <= i < |Prefixed(a.name, ChildKeys(cs))| && Prefixed(a.name, ChildKeys(cs))[i] == key;
    var k := ChildKeys(cs)[i];
    assert key == [a.name] + k && key[1..] == k;
    ChildKeysSound(cs, k);
  }

  lemma {:induction false} ChildKeysSound(cs: seq<Atom>, k: seq<Bytes>)
    requires UniqueNames(cs)
    requires k in ChildKeys(cs)
    ensures k != [] && FirstMatch(cs, k).Ok? && FirstMatch(cs, k).value.Leaf?
  {
    ChildKeysUnfold(cs);
    if k in OwnKeys(cs[0]) {
      if cs[0].Leaf? {
        assert k == [cs[0].name];
      } else {
        KeysSound(cs[0], k);
      }
    } else {
      assert UniqueNames(cs[1..]) by {
        forall i | 0 <= i < |cs| - 1 && cs[1..][i].Container? ensures UniqueNames(cs[1..][i].children) {
          assert cs[1..][i] == cs[i + 1];
        }
      }
      ChildKeysSound(cs[1..], k);
      FirstMatchWins(cs[1..], k);
      var j := FirstNamed(cs[1..], k[0]);
      assert cs[j + 1].name == k[0];
      assert cs[0].name != k[0];
    }
  }

  /** Every leaf a non-empty path resolves to is listed among the keys. */
  lemma {:induction false} KeysComplete(a: Atom, path: seq<Bytes>)
    requires path != [] && Get(a, path).Ok? && Get(a, path).value.Leaf?
    ensures [a.name] + path in Keys(a)
    decreases |path|
  {
    var cs := a.children;
    ChildKeysComplete(cs, path);
    var ks := ChildKeys(cs);
    var i :| 0 <= i < |ks| && ks[i] == path;
    assert Prefixed(a.name, ks)[i] == [a.name] + path;
  }

  lemma {:induction false} ChildKeysComplete(cs: seq<Atom>, path: seq<Bytes>)
    requires path != [] && FirstMatch(cs, path).Ok? && FirstMatch(cs, path).value.Leaf?
    ensures path in ChildKeys(cs)
    decreases |path|, |cs|
  {
    ChildKeysUnfold(cs);
    if cs[0].name == path[0] {
      OwnKeysComplete(cs[0], path);
    } else {
      ChildKeysComplete(cs[1..], path);
    }
  }

  /** A path through the first child is among that child's own keys. */
  lemma {:induction false} OwnKeysComplete(a: Atom, path: seq<Bytes>)
    requires path != [] && a.name == path[0]
    requires Get(a, path[1..]).Ok? && Get(a, path[1..]).value.Leaf?
    ensures path in OwnKeys(a)
    decreases |path|, 0
  {
    if path[1..] == [] {
      assert path == [a.name];
    } else {
      KeysComplete(a, path[1..]);
      assert path == [a.name] + path[1..];
    }
  }

  /** Atoms.keys lists exactly the leaves at depth two or more that lookups reach; a
      top-level leaf is never listed. */
  lemma {:induction false} FileKeysComplete(atoms: seq<Atom>, path: seq<Bytes>)
    requires |path| >= 2 && Resolve(atoms, path).Ok? && Resolve(atoms, path).value.Leaf?
    ensures path in FileKeys(atoms)
  {
    if atoms[0].name == path[0] {
      KeysComplete(atoms[0], path[1..]);
      assert path == [atoms[0].name] + path[1..];
    } else {
      FileKeysComplete(atoms[1..], path);
    }
  }

  lemma {:induction false} FileKeysSound(atoms: seq<Atom>, key: seq<Bytes>)
    requires UniqueNames(atoms)
    requires key in FileKeys(atoms)
    ensures |key| >= 2
    ensures Resolve(atoms, key).Ok? && Resolve(atoms, key).value.Leaf?
  {
    assert FileKeys(atoms) == Keys(atoms[0]) + FileKeys(atoms[1..]);
    if key in Keys(atoms[0]) {
      assert atoms[0].Container?;
      KeysSound(atoms[0], key);
    } else {
      assert UniqueNames(atoms[1..]) by {
        forall i | 0 <= i < |atoms| - 1 && atoms[1..][i].Container? ensures UniqueNames(atoms[1..][i].children) {
          assert atoms[1..][i] == atoms[i + 1];
        }
      }
      FileKeysSound(atoms[1..], key);
      FirstMatchWins(atoms[1..], key);
      var j := FirstNamed(atoms[1..], key[0]);
      assert atoms[j + 1].name == key[0];
    }
  }
}
