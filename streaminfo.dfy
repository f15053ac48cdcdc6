/** The media header: M4AInfo finds `moov.trak.mdia.mdhd` and reads the time scale
    (`unit`, clock ticks per second) and the duration (`length`, in ticks) from it.
    The `mdhd` box of ISO/IEC 14496-12 section 8.4.2 comes in two layouts, chosen by
    its version byte: version 0 holds 32-bit times, version 1 holds 64-bit creation,
    modification and duration times around a 32-bit time scale.

    The reader as written takes the version from byte 9 of the box, which is the first
    flags byte; the version is byte 8 (`MdhdTimesAsWritten` against `MdhdTimes`). */
module StreamInfo {
  import opened Bytes
  import opened Failures
  import opened AtomTree
  import opened AtomPaths

  const MDHD: Bytes := [0x6D, 0x64, 0x68, 0x64]  // "mdhd"

  /** "moov.trak.mdia.mdhd" */
  const MDHD_PATH: Bytes := [0x6D, 0x6F, 0x6F, 0x76, 0x2E, 0x74, 0x72, 0x61, 0x6B, 0x2E,
                             0x6D, 0x64, 0x69, 0x61, 0x2E, 0x6D, 0x64, 0x68, 0x64]

  /** The names MDHD_PATH splits into. */
  const MDHD_NAMES: seq<Bytes> := [MOOV, TRAK, MDIA, MDHD]

  /** Looking up the dotted path is resolving its list of names. */
  lemma MdhdPathSplits(atoms: seq<Atom>)
    ensures SplitN(MDHD_PATH, DOT, -1) == MDHD_NAMES
    ensures Lookup(atoms, MDHD_PATH) == Resolve(atoms, MDHD_NAMES)
  {
    var names := MDHD_NAMES;
    assert Join(names[3..], DOT) == MDHD;
    assert Join(names[2..], DOT) == MDIA + [DOT] + MDHD;
    assert Join(names[1..], DOT) == TRAK + [DOT] + (MDIA + [DOT] + MDHD);
    assert Join(names, DOT) == MDHD_PATH;
    LookupDotted([], names);
    forall k | 0 <= k < |names| ensures DOT !in names[k] {
    }
    JoinSplit(names, DOT);
  }

  /** The stream length as the header states it: `length` ticks of a clock running at
      `unit` ticks per second, so `length / unit` seconds. */
  datatype Duration = Duration(unit: nat, length: nat)

  /** Where the time scale sits in each layout, and how many bytes it and the duration
      after it take: two 32-bit fields at offset 20 for version 0, a 32-bit time scale
      and a 64-bit duration at offset 28 otherwise. */
  function TimesOffset(version: byte): nat
  {
    if version == 0 then 20 else 28
  }

  function TimesSize(version: byte): nat
  {
    if version == 0 then 8 else 12
  }

  /** The time scale and duration of header bytes `data` in the layout `version`
      selects. Too few bytes fail the unpacking; a zero time scale fails the division. */
  function TimesFor(data: Bytes, version: byte): (r: Result<Duration>)
    ensures r.Err? ==> r.error == Truncated || r.error == ZeroUnit
    ensures r.Err? && r.error == Truncated <==> |data| < TimesOffset(version) + TimesSize(version)
    ensures r.Ok? ==> 0 < r.value.unit < 0x1_0000_0000
    ensures r.Ok? ==> r.value.length < (if version == 0 then 0x1_0000_0000 else 0x1_0000_0000_0000_0000)
  {
    var offset, size := TimesOffset(version), TimesSize(version);
    var s := Slice(data, offset, offset + size);
    if |s| != size then Err(Truncated)
    else
      var unit := Unsigned(s[..4]);
      assert Pow256(4) == 0x1_0000_0000 && Pow256(8) == 0x1_0000_0000_0000_0000;
      if unit == 0 then Err(ZeroUnit) else Ok(Duration(unit, Unsigned(s[4..])))
  }

  /** M4AInfo.__init__ on the box's bytes as written: the layout is chosen by byte 9. */
  function MdhdTimesAsWritten(data: Bytes): (r: Result<Duration>)
    ensures |data| <= 9 <==> r == Err(IndexOutOfRange)
  {
    if |data| <= 9 then Err(IndexOutOfRange) else TimesFor(data, data[9])
  }

  /** The header's times with the layout chosen by the version, byte 8. */
  function MdhdTimes(data: Bytes): (r: Result<Duration>)
    ensures |data| <= 8 <==> r == Err(IndexOutOfRange)
  {
    if |data| <= 8 then Err(IndexOutOfRange) else TimesFor(data, data[8])
  }

  /** The `mdhd` box's own bytes, header included, read from its offset. */
  function MdhdBytes(f: Bytes, atoms: seq<Atom>): Result<Bytes>
  {
    var atom :- Resolve(atoms, MDHD_NAMES);
    Ok(ReadAt(f, atom.offset, atom.length))
  }

  /** M4AInfo.__init__ as written. */
  function InfoAsWritten(f: Bytes, atoms: seq<Atom>): Result<Duration>
  {
    var data :- MdhdBytes(f, atoms);
    MdhdTimesAsWritten(data)
  }

  /** M4AInfo.__init__ reading the version from byte 8. */
  function Info(f: Bytes, atoms: seq<Atom>): Result<Duration>
  {
    var data :- MdhdBytes(f, atoms);
    MdhdTimes(data)
  }

  // ---------------------------------------------------------------------------
  // The box layout

  /** Which times fit the layout of a version: 32 bits each in version 0; 64 bits for
      the three times and 32 for the time scale in version 1. */
  predicate Fits(version: byte, creation: nat, modification: nat, timescale: nat, duration: nat)
  {
    && (version == 0 || version == 1)
    && timescale < 0x1_0000_0000
    && (if version == 0
        then creation < 0x1_0000_0000 && modification < 0x1_0000_0000 && duration < 0x1_0000_0000
        else creation < 0x1_0000_0000_0000_0000 && modification < 0x1_0000_0000_0000_0000
             && duration < 0x1_0000_0000_0000_0000)
  }

  /** The times of a box, in the widths its version gives them. */
  function Times(version: byte, creation: nat, modification: nat, timescale: nat, duration: nat): (s: Bytes)
    requires Fits(version, creation, modification, timescale, duration)
    ensures |s| == TimesOffset(version) + TimesSize(version) - 12
  {
    if version == 0 then U32(creation) + U32(modification) + U32(timescale) + U32(duration)
    else U64(creation) + U64(modification) + U32(timescale) + U64(duration)
  }

  /** An `mdhd` box as ISO/IEC 14496-12 section 8.4.2 lays it out: size, name, version,
      three flags bytes, the times, and four bytes of language and reserved bits. */
  function MdhdBox(version: byte, flags: Bytes, creation: nat, modification: nat, timescale: nat,
                   duration: nat, trailer: Bytes): (box: Bytes)
    requires |flags| == 3 && |trailer| == 4
    requires Fits(version, creation, modification, timescale, duration)
    ensures |box| == (if version == 0 then 32 else 44)
    ensures Unsigned(box[..4]) == |box| && box[4..8] == MDHD
    ensures box[8] == version && box[9..12] == flags
  {
    var times := Times(version, creation, modification, timescale, duration);
    var size := 12 + |times| + 4;
    var box := U32(size) + MDHD + [version] + flags + (times + trailer);
    HeaderLayout(U32(size), MDHD, version, flags, times + trailer);
    box
  }

  /** Where the fields of a full box header sit. */
  lemma HeaderLayout(size: Bytes, name: Bytes, version: byte, flags: Bytes, rest: Bytes)
    requires |size| == 4 && |name| == 4 && |flags| == 3
    ensures var box := size + name + [version] + flags + rest;
            box[..4] == size && box[4..8] == name && box[8] == version && box[9..12] == flags
  {
  }

  /** TimesFor given the bytes its layout covers: a 32-bit time scale, then the duration. */
  lemma TimesAt(data: Bytes, version: byte, unit: Bytes, length: Bytes)
    requires |unit| == 4 && |length| == TimesSize(version) - 4
    requires TimesOffset(version) + TimesSize(version) <= |data|
    requires data[TimesOffset(version)..TimesOffset(version) + TimesSize(version)] == unit + length
    ensures TimesFor(data, version)
            == if Unsigned(unit) == 0 then Err(ZeroUnit) else Ok(Duration(Unsigned(unit), Unsigned(length)))
  {
    var s := unit + length;
    assert s[..4] == unit && s[4..] == length;
  }

  /** The bytes of a box after its 12-byte full box header: the times, then the trailer. */
  lemma BoxBody(version: byte, flags: Bytes, creation: nat, modification: nat, timescale: nat,
                duration: nat, trailer: Bytes)
    requires |flags| == 3 && |trailer| == 4
    requires Fits(version, creation, modification, timescale, duration)
    ensures var box := MdhdBox(version, flags, creation, modification, timescale, duration, trailer);
            box[12..] == Times(version, creation, modification, timescale, duration) + trailer
  {
  }

  /** Where the four times of a box body `a + b + e1 + e2 + trailer` sit, behind the
      12-byte full box header. */
  lemma Layout(box: Bytes, a: Bytes, b: Bytes, e1: Bytes, e2: Bytes, trailer: Bytes)
    requires |box| >= 12 && box[12..] == a + b + e1 + e2 + trailer
    ensures var at := 12 + |a| + |b|;
            at + |e1| + |e2| <= |box| && box[at..at + |e1| + |e2|] == e1 + e2
    ensures box[12 + |a|..12 + |a| + |b|] == b
  {
    var body := a + b + e1 + e2 + trailer;
    assert |box| == 12 + |body|;
    var at := |a| + |b|;
    assert body[at..at + |e1| + |e2|] == e1 + e2;
    assert body[|a|..at] == b;
    Within(box, 12, at, at + |e1| + |e2|);
    Within(box, 12, |a|, at);
  }

  /** A slice of the bytes from `i` on is a slice of the whole. */
  lemma Within(s: Bytes, i: nat, j: nat, k: nat)
    requires i + k <= |s| && j <= k
    ensures s[i..][j..k] == s[i + j..i + k]
  {
  }

  /** Reading a box's times back, version from byte 8, gives the time scale and the
      duration it was built with; a zero time scale fails the division. */
  lemma MdhdRoundTrip(version: byte, flags: Bytes, creation: nat, modification: nat, timescale: nat,
                      duration: nat, trailer: Bytes)
    requires |flags| == 3 && |trailer| == 4
    requires Fits(version, creation, modification, timescale, duration)
    ensures MdhdTimes(MdhdBox(version, flags, creation, modification, timescale, duration, trailer))
            == if timescale == 0 then Err(ZeroUnit) else Ok(Duration(timescale, duration))
  {
    var box := MdhdBox(version, flags, creation, modification, timescale, duration, trailer);
    BoxBody(version, flags, creation, modification, timescale, duration, trailer);
    if version == 0 {
      Layout(box, U32(creation), U32(modification), U32(timescale), U32(duration), trailer);
      TimesAt(box, 0, U32(timescale), U32(duration));
    } else {
      Layout(box, U64(creation), U64(modification), U32(timescale), U64(duration), trailer);
      TimesAt(box, 1, U32(timescale), U64(duration));
    }
  }

  /** The byte the reader as written takes for the version is the first flags byte. When
      that byte and the version are zero together, the two readers agree. */
  lemma AsWrittenAgrees(data: Bytes)
    requires |data| > 9 && (data[8] == 0 <==> data[9] == 0)
    ensures MdhdTimesAsWritten(data) == MdhdTimes(data)
  {
  }

  /** A version 1 box whose first flags byte is zero, as flags are: the reader as written
      takes the version 0 layout and reads the two halves of the 64-bit modification
      time as time scale and duration. A modification time below 2^32 makes the time
      scale zero and the division fails, where the box's own time scale is read back. */
  lemma VersionByteMisread(creation: nat, modification: nat, timescale: nat, duration: nat, trailer: Bytes)
    requires |trailer| == 4
    requires Fits(1, creation, modification, timescale, duration)
    ensures var box := MdhdBox(1, [0, 0, 0], creation, modification, timescale, duration, trailer);
            MdhdTimesAsWritten(box)
            == if modification < 0x1_0000_0000 then Err(ZeroUnit)
               else Ok(Duration(modification / 0x1_0000_0000, modification % 0x1_0000_0000))
  {
    var box := MdhdBox(1, [0, 0, 0], creation, modification, timescale, duration, trailer);
    BoxBody(1, [0, 0, 0], creation, modification, timescale, duration, trailer);
    Layout(box, U64(creation), U64(modification), U32(timescale), U64(duration), trailer);
    var m := U64(modification);
    assert m == m[..4] + m[4..];
    TimesAt(box, 0, m[..4], m[4..]);
    U64Halves(modification);
  }

  /** A version 1 header with time scale 600 and duration 6000, created and modified
      at time 0: the reader as written fails on it, the version byte reads it back. */
  lemma MisreadExample()
    ensures var box := MdhdBox(1, [0, 0, 0], 0, 0, 600, 6000, [0, 0, 0, 0]);
            MdhdTimesAsWritten(box) == Err(ZeroUnit) && MdhdTimes(box) == Ok(Duration(600, 6000))
  {
    VersionByteMisread(0, 0, 600, 6000, [0, 0, 0, 0]);
    MdhdRoundTrip(1, [0, 0, 0], 0, 0, 600, 6000, [0, 0, 0, 0]);
  }

  /** A version 0 box with a non-zero first flags byte: the reader as written takes the
      version 1 layout, which runs past the end of the 32-byte box. */
  lemma FlagsMisread(flags: Bytes, creation: nat, modification: nat, timescale: nat, duration: nat, trailer: Bytes)
    requires |flags| == 3 && flags[0] != 0 && |trailer| == 4
    requires Fits(0, creation, modification, timescale, duration)
    ensures MdhdTimesAsWritten(MdhdBox(0, flags, creation, modification, timescale, duration, trailer)) == Err(Truncated)
  {
    var box := MdhdBox(0, flags, creation, modification, timescale, duration, trailer);
    assert box[9] == flags[0];
  }

  /** The stream info needs the `mdhd` path to resolve: its lookup error is the info's. */
  lemma InfoNeedsMdhd(f: Bytes, atoms: seq<Atom>)
    ensures Lookup(atoms, MDHD_PATH).Err? ==> Info(f, atoms) == Err(Lookup(atoms, MDHD_PATH).error)
    ensures Lookup(atoms, MDHD_PATH).Err? ==> InfoAsWritten(f, atoms) == Err(Lookup(atoms, MDHD_PATH).error)
    ensures Lookup(atoms, MDHD_PATH).Ok? ==>
              var a := Lookup(atoms, MDHD_PATH).value;
              Info(f, atoms) == MdhdTimes(ReadAt(f, a.offset, a.length))
  {
    MdhdPathSplits(atoms);
  }
}
