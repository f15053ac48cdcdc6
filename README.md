# A verified model of mutagen's MPEG-4 (M4A) reader

This project models `mutagen/mutagen/m4a.py`. That module is the MPEG-4 audio reader the Quod Libet player bundles. It has five parts:

- **The box ("atom") reader.** Every box starts with a 32-bit big-endian length and a 4-byte name (ISO/IEC 14496-12 section 4.2). Six names (`moov`, `udta`, `trak`, `mdia`, `meta`, `ilst`) hold child boxes. `meta` first skips a 4-byte version and flags field. Every other box is skipped as a leaf.
- **Path lookup and key listing.** The first child whose name matches each path segment wins. A dotted path is split at `.`. `keys` lists one name path per leaf.
- **The `ilst` tag codec.**
  - Each child of `moov.udta.meta.ilst` is parsed by a table keyed on its 4-byte name into an entry of the tag mapping. Free-form `----` boxes carry `mean`/`name`/`data` sub-boxes; the other kinds carry a value behind a `data` envelope.
  - Rendering turns each entry back into a box and concatenates the boxes.
- **The media header reader.** It reads the time scale and the duration from `moov.trak.mdia.mdhd`. The `mdhd` box is laid out as in ISO/IEC 14496-12 section 8.4.2.
- **The `score` sniffer.** It counts the markers "ftyp" and "mp4" in a file header.

Bytes are `seq<byte>` with `byte = 0..255`. Every exception the code raises or lets escape is a constructor of `Failures.Error`, returned through `Result`.

The model follows the source's own form:
- The box reader is given twice:
  - as functions over the file's bytes (`AtomTree.AtomAt`, `ChildrenAt`, `ParseFile`);
  - as the cursor-driven loops that run over a byte array (`ReadAtom`, `ReadAtoms`), each proved to compute the function.
- The tag reader is a class `M4ATags` whose `items` mapping its methods update in place. Its methods are proved to end where the functions `DecodeChildren`/`DecodeInto` say.
- The media header and the sniffer are pure functions.

The central results are:
- **`TagRoundTrip.IlstRoundTrip`.** Take a mapping whose entries are all writable (`TagRoundTrip.Writable`: each round-trips through the codec and its box is not read as a container). Rendering it always succeeds (`WritableRenders`). Place the bytes `__render` produces as the body of an `ilst` box anywhere in a file. The box reader then reads one leaf per entry, and decoding them gives the mapping back. Being renderable is not enough: `{tmpo: Int(40000)}` renders, but reads back as -25536.
- **`AtomTree.ExhaustiveParse`.** A file whose boxes tile it exactly is parsed without error, and its top-level lengths sum to the file size.
- **`AtomPaths.KeysLeafPaths` and `FileKeysLeafPaths`.** `keys` lists exactly the name paths that lead to a leaf through boxes of those names, whatever the names. It lists one path per leaf (`KeysCount`, `FileKeysCount`), so a path is listed once for every leaf it leads to (`KeysCountsLeaves`, `FileKeysCountsLeaves`). When no two sibling boxes share a name, these are exactly the paths a lookup resolves to a leaf (`KeysSound`, `KeysComplete`). With two `trak` boxes, `keys` lists a leaf under the second `trak` that a lookup, which takes the first, cannot reach (`AtomPaths.ShadowedKey`).
- **`StreamInfo.MdhdRoundTrip`, together with the Findings row below.** Reading the version from byte 8 gives back the time scale and duration of every `mdhd` box.

Two places where the code does something a reader of the format might not expect:
- A container's children are read while the cursor is *below* the container's end. The cursor therefore stops at or after that end, not exactly at it (`AtomTree.ChildrenAtLaid`).
- The tag mapping's iteration order is not fixed. `__render` is modelled for any order of the keys (`TagCodec.IsOrder`).

## Model

| member | source | states |
|---|---|---|
| AtomTree.Skip | mutagen/mutagen/m4a.py:40 | Skips exactly 4 bytes for `meta` and none for any other name. |
| AtomTree.AtomAt | mutagen/mutagen/m4a.py:42-56 | A box that reads without error had a full 8-byte header in the file, and the cursor moved forward past its start. |
| AtomTree.ChildrenAt | mutagen/mutagen/m4a.py:50-54 | The children loop: boxes read one after another while the cursor is below the limit. The cursor never moves back; its shape is stated by `ChildrenAtLaid`, `TightRun` and `PrependStep`. |
| AtomTree.ParseFile | mutagen/mutagen/m4a.py:92-99 | Atoms.__init__: the top-level boxes read from offset 0 to the file's end. `ReadAtoms` computes it, and `ExhaustiveParse` states when it succeeds. |
| AtomTree.ReadAtom | mutagen/mutagen/m4a.py:42-56 | The cursor-driven reader over the byte array returns exactly the box `AtomAt` gives, or the same error. |
| AtomTree.ReadAtoms | mutagen/mutagen/m4a.py:92-99 | Reading top-level boxes from offset 0 while the cursor is below the file's end returns exactly `ParseFile`. |
| AtomTree.PrependStep | mutagen/mutagen/m4a.py:53-54 | One turn of the children loop: the box at the cursor is appended and the loop resumes where it ended, or its error ends the loop. |
| AtomTree.AtomAtLaid | mutagen/mutagen/m4a.py:44-56 | A box read at `pos` starts at `pos`, has the header's length and name, and leaves the cursor at its end. A leaf is not a container kind, has length at least 2, and ends at exactly offset + length. A container's children are chained from offset + 8 + skip and each starts before the container's end; the reader stops at or after that end. |
| AtomTree.ChildrenAtLaid | mutagen/mutagen/m4a.py:50-54 | The children read are chained from the start cursor and each starts below the limit. The cursor ends at or past the limit, at the end of the last child. |
| AtomTree.HeaderFailures | mutagen/mutagen/m4a.py:45-47 | Fewer than 8 bytes give Truncated. A length field of 1 gives LargeSize. A zero-length leaf gives Stalls, because the source would seek back to the box start forever. |
| AtomTree.LeafAt | mutagen/mutagen/m4a.py:45-56 | A leaf box laid at `pos` whose length field is its size is read as one leaf spanning exactly its bytes. |
| AtomTree.TightAtom | mutagen/mutagen/m4a.py:44-56 | In a region tiled by boxes, the box at the start reads without error, has its length field, and ends exactly at offset + length. |
| AtomTree.TightRun | mutagen/mutagen/m4a.py:53-54 | Boxes that tile a region read without error, end exactly at the region's end, and have lengths that sum to its size. |
| AtomTree.ExhaustiveParse | mutagen/mutagen/m4a.py:93-99 | A file tiled by boxes parses without error, and its top-level lengths sum to the file size. |
| AtomPaths.FirstNamed | mutagen/mutagen/m4a.py:63-64 | The index of the first child with the name; no child before it has that name. |
| AtomPaths.Get | mutagen/mutagen/m4a.py:58-67 | Atom.__getitem__: descends segment by segment into the first child of each name. Its behaviour is stated by `GetFailures`, `GetName`, `GetCompose` and `FirstMatchWins`. |
| AtomPaths.Resolve | mutagen/mutagen/m4a.py:101-108 | Atoms.__getitem__ on a list of names: the first top-level box of the first name, then `Get`. An empty list is IndexOutOfRange. Stated by `FirstMatchCompose` and `FileKeysComplete`. |
| AtomPaths.Lookup | mutagen/mutagen/m4a.py:101-108 | Atoms.__getitem__ on a dotted string: split at every '.', then `Resolve`. `LookupDotted` states the split. |
| AtomPaths.FirstMatchWins | mutagen/mutagen/m4a.py:63-67 | Lookup among children descends into the first child named by the path's head, and KeyNotFound when there is none. |
| AtomPaths.GetCompose | mutagen/mutagen/m4a.py:58-67 | Resolving `p + q` from an atom is resolving `p` and then `q` from the result. |
| AtomPaths.FirstMatchCompose | mutagen/mutagen/m4a.py:101-108 | The same composition for lookups that start from the top-level list. |
| AtomPaths.GetName | mutagen/mutagen/m4a.py:58-67 | A non-empty path resolves to an atom named by its last segment. |
| AtomPaths.GetFailures | mutagen/mutagen/m4a.py:58-67 | An empty path returns the atom itself. A non-empty path on a leaf, or on a container with no child of that name, is KeyNotFound. |
| AtomPaths.LookupDotted | mutagen/mutagen/m4a.py:101-103 | Looking up names joined with '.' (none containing '.') is looking up the list of names. |
| AtomPaths.Prefixed | mutagen/mutagen/m4a.py:79 | Each listed path gets the atom's name in front, and the count is kept. |
| AtomPaths.Keys | mutagen/mutagen/m4a.py:69-79 | Atom.keys: one name path per leaf below a container, each led by the container's name. `KeysCount` states how many paths it lists, `KeysCountsLeaves` how often each one, and `KeysLeafPaths` which. |
| AtomPaths.FileKeys | mutagen/mutagen/m4a.py:110-111 | Atoms.keys: the keys of the top-level boxes, concatenated. `FileKeysLeafPaths` states exactly which paths it lists. |
| AtomPaths.KeysCount | mutagen/mutagen/m4a.py:69-79 | A container's `keys` has exactly as many paths as there are leaves below it. |
| AtomPaths.ChildKeysCount | mutagen/mutagen/m4a.py:73-78 | The paths a list of children contributes number exactly the leaves below them, a leaf child counting one. |
| AtomPaths.FileKeysCount | mutagen/mutagen/m4a.py:110-111 | `Atoms.keys` has exactly as many paths as there are leaves inside the top-level containers. A top-level leaf contributes none. |
| AtomPaths.KeysCountsLeaves | mutagen/mutagen/m4a.py:69-79 | Each path occurs in a container's `keys` exactly as often as there are leaves it leads to through boxes of its names. A path reaching two leaves through two same-named boxes is listed twice. |
| AtomPaths.ChildKeysCountsLeaves | mutagen/mutagen/m4a.py:73-78 | Each path occurs among a child list's contributions exactly as often as there are leaves it leads to through those children. |
| AtomPaths.FileKeysCountsLeaves | mutagen/mutagen/m4a.py:110-111 | Each path occurs in `Atoms.keys` exactly as often as it leads to a leaf from the top level, and never when it has fewer than two names. |
| AtomPaths.KeysLeafPaths | mutagen/mutagen/m4a.py:69-79 | For every container and every path: the path is listed by `keys` exactly when it starts with the container's name and leads to a leaf through children of those names. No condition on the names. |
| AtomPaths.ChildKeysLeafPaths | mutagen/mutagen/m4a.py:73-78 | A path is contributed by a list of children exactly when it leads to a leaf through some child of its first name, not only the first such child. |
| AtomPaths.FileKeysLeafPaths | mutagen/mutagen/m4a.py:110-111 | `Atoms.keys` lists a path exactly when it has two or more names and leads to a leaf through top-level boxes of those names. |
| AtomPaths.ShadowedKey | mutagen/mutagen/m4a.py:58-79 | With two `trak` boxes under `moov`, the path moov.trak.mdhd to a leaf of the second `trak` is listed by `keys`, yet looking it up descends into the first `trak` and fails with KeyNotFound. |
| AtomPaths.KeysSound | mutagen/mutagen/m4a.py:69-79 | When no two sibling boxes share a name, at any depth: every path `keys` lists for a container has two or more names, starts with the container's name, and the rest resolves to a leaf. |
| AtomPaths.ChildKeysSound | mutagen/mutagen/m4a.py:73-78 | When no two sibling boxes share a name: every path listed for a child list resolves to a leaf among those children. |
| AtomPaths.KeysComplete | mutagen/mutagen/m4a.py:69-79 | Every non-empty path that resolves to a leaf is listed, prefixed with the atom's name. |
| AtomPaths.ChildKeysComplete | mutagen/mutagen/m4a.py:73-78 | Every path that resolves to a leaf among the children is listed. |
| AtomPaths.OwnKeysComplete | mutagen/mutagen/m4a.py:74-78 | A child's own contribution lists every leaf path under it, a leaf child contributing its one-name path. |
| AtomPaths.FileKeysComplete | mutagen/mutagen/m4a.py:110-111 | Every path of two or more names that resolves to a leaf from the top level is listed by `Atoms.keys`. |
| AtomPaths.FileKeysSound | mutagen/mutagen/m4a.py:110-111 | When no two sibling boxes share a name: every path `Atoms.keys` lists has two or more names and resolves to a leaf. |
| TagCodec.KindOf | mutagen/mutagen/m4a.py:193-201 | Text is the kind exactly for names outside the table's seven entries. |
| TagCodec.Field32 | mutagen/mutagen/m4a.py:133-134 | Packing a 32-bit field succeeds exactly when the number fits, and the 4 bytes read back as the number. |
| TagCodec.Sized | mutagen/mutagen/m4a.py:149-153 | A packed box succeeds exactly when its size fits 32 bits, and its length field is its own size. |
| TagCodec.FreeformEntry | mutagen/mutagen/m4a.py:136-146 | __parse_freeform: three sub-boxes read through a cursor, with headers of 8, 8 and 12 bytes dropped. The key is the box name, `mean` and `name` joined by ':'. `ReadThreeBoxes` and `FreeformRoundTrip` state what it reads. |
| TagCodec.PairValue | mutagen/mutagen/m4a.py:155-156 | Succeeds exactly when the payload reaches byte 22, giving two unsigned 16-bit numbers; a shorter payload is Truncated. |
| TagCodec.Short16 | mutagen/mutagen/m4a.py:163-171 | Succeeds exactly when the payload reaches byte 18, giving a number in −32768..32767 that agrees with the unsigned bytes 16..18 modulo 65536; a shorter payload is Truncated. |
| TagCodec.CompilationValue | mutagen/mutagen/m4a.py:175-177 | The truth of payload byte 16, false when the payload is too short. Stated by `CompilationRoundTrip` and `CompilationFalse`. |
| TagCodec.Step | mutagen/mutagen/m4a.py:122-189 | One `ilst` child through the parser table. Stated by `EntryRoundTrip`, `GenreStep`, `StepKeys`, `StepNoGnre` and `PairRead`. |
| TagCodec.RenderData | mutagen/mutagen/m4a.py:131-134 | __render_data. `RenderDataLayout` states its whole byte layout. |
| TagCodec.RenderFreeform | mutagen/mutagen/m4a.py:147-153 | __render_freeform. `FreeformBox` states its layout, and `FreeformNeedsTwoColons` states its failure. |
| TagCodec.RenderTempo | mutagen/mutagen/m4a.py:172-173 | __render_tempo. `TempoRoundTrip` and `TempoReadSigned` state what it writes. |
| TagCodec.RenderEntry | mutagen/mutagen/m4a.py:124-191 | The renderer the table picks for each key. `EntryRoundTrip` and `PairAndGenreNeverRender` state it per kind. |
| TagCodec.RenderItems | mutagen/mutagen/m4a.py:124-129 | __render: the entries rendered in iteration order and concatenated. Stated by `BoxesRender`, `WritableRenders`, `EntryFailureFails` and `IlstRoundTrip`. |
| TagLaws.RenderDataLayout | mutagen/mutagen/m4a.py:131-134 | The `data` envelope fails only when too large. Its outer length field is the value's size plus 24. The key comes next, then a `data` box of size value + 16 holding the flags and a zero word, with the value from offset 16 on. |
| TagLaws.DataBox | mutagen/mutagen/m4a.py:131-134 | With a 4-byte key the envelope is one box whose length field is its size. Its payload is a `data` box: a length field counting the 16-byte header, the name `data`, the flags, a zero word, then the value. |
| TagLaws.DataRoundTrip | mutagen/mutagen/m4a.py:183-191 | A text value is written behind type flag 1 and a cover behind 0xD, in a `data` box. It parses back to the same byte string under its key, whatever the mapping held. |
| TagLaws.TempoRoundTrip | mutagen/mutagen/m4a.py:170-173 | A tempo of 0..32767 is written behind type flag 0x15 as an unsigned 16-bit number, and parses back to itself. |
| TagLaws.TempoReadSigned | mutagen/mutagen/m4a.py:171-173 | A tempo of 32768..65535 parses back 65536 lower, because it is written unsigned and read signed. |
| TagLaws.CompilationRoundTrip | mutagen/mutagen/m4a.py:175-181 | A true compilation is written behind type flag 0x15 as the single byte 1, in one box whose length field is its size, and parses back true. |
| TagLaws.CompilationFalse | mutagen/mutagen/m4a.py:175-181 | A false value renders to nothing, and a payload too short for byte 16 parses as false. |
| TagLaws.FreeformKeySplits | mutagen/mutagen/m4a.py:146-148 | The key the parser builds, split at its first two ':', gives back "----", `mean` and `name` when `mean` has no ':'. |
| TagLaws.FreeformKeyRebuilt | mutagen/mutagen/m4a.py:148 | A key that splits into three parts is those parts joined with ':', and the middle part holds no ':'. |
| TagLaws.ReadSubBox | mutagen/mutagen/m4a.py:138-145 | A sub-box whose length field is its size is read whole through the cursor, and the cursor ends after it. |
| TagLaws.ReadThreeBoxes | mutagen/mutagen/m4a.py:136-146 | Three sub-boxes back to back parse to the key "----:mean:name" and the data value, with 8, 8 and 12 header bytes dropped. |
| TagLaws.FreeformBox | mutagen/mutagen/m4a.py:147-153 | A free-form key renders to one `----` box whose length field is its size. It holds a `mean` and a `name` sub-box with zero flags, then a `data` sub-box with type flag 1 and the value, and its payload parses to the key rebuilt from the parts. |
| TagLaws.FreeformRoundTrip | mutagen/mutagen/m4a.py:136-153 | A rendered free-form entry has the `mean`/`name`/`data` layout and parses back to the same key and value. |
| TagLaws.EntryRoundTrip | mutagen/mutagen/m4a.py:122-191 | Every entry that satisfies `RoundTrips` renders to one box whose length field is its size. A non-free-form entry carries a `data` box with its kind's type flag (1 text, 0xD cover, 0x15 tempo and compilation) and its stored bytes, and a free-form entry has the `mean`/`name`/`data` layout. Parsing the payload under the box name stores exactly that key and value. |
| TagLaws.PairRead | mutagen/mutagen/m4a.py:155-161 | A track or disc box whose `data` box holds the four 16-bit fields empty, number, total, empty parses to that number and total. |
| TagLaws.PairAndGenreNeverRender | mutagen/mutagen/m4a.py:157-161 | Track, disc and genre entries always fail to render: the pair renderer packs six numbers into four fields, and genre has no renderer (line 197). |
| TagLaws.FreeformNeedsTwoColons | mutagen/mutagen/m4a.py:148 | A free-form key with fewer than two ':' fails to render with BadFreeformKey. |
| TagLaws.FreeformColonInMean | mutagen/mutagen/m4a.py:146-148 | A `mean` holding ':' is cut at that ':' when the key is split again, so such entries do not round-trip. |
| TagLaws.GenreStep | mutagen/mutagen/m4a.py:163-168 | A numeric genre fails only on a payload shorter than 18 bytes. It changes nothing when a text genre is present. Otherwise it adds the text genre that Python indexing gives for index − 1, or nothing on IndexError. |
| TagLaws.GenreIndexing | mutagen/mutagen/m4a.py:167 | Genre 1 is the first table name, and genre 0 wraps to the last. |
| TagLaws.StepNoGnre | mutagen/mutagen/m4a.py:163-168 | No parse step ever creates a `gnre` key. |
| TagReader.IlstPathSplits | mutagen/mutagen/m4a.py:118 | "moov.udta.meta.ilst" splits into its four names, and looking it up is resolving them. |
| TagReader.DecodeChildren | mutagen/mutagen/m4a.py:119-122 | The loop over the children of `ilst`: each child's payload goes through `Step`. Stated by `DecodeFirst`, `DecodeKeys` and `IlstRoundTrip`, and computed by `M4ATags.Load`. |
| TagReader.DecodeInto | mutagen/mutagen/m4a.py:117-122 | M4ATags.__init__ from a given mapping: look up moov.udta.meta.ilst, then decode its children. Stated by `NoIlstFails`, and computed by `M4ATags.Load`. |
| TagReader.Decode | mutagen/mutagen/m4a.py:116-122 | The tags of a file: `DecodeInto` from the empty mapping. |
| TagReader.Store | mutagen/mutagen/m4a.py:146 | A parsed free-form entry stored under its key. `M4ATags.ParseFreeform` is proved to do the same. |
| TagReader.ReadSubBoxAt | mutagen/mutagen/m4a.py:138-140 | Reading a length field and then `length - 4` bytes through the cursor returns the sub-box `SubBox` specifies. |
| TagReader.M4ATags.ParseFreeform | mutagen/mutagen/m4a.py:136-146 | Stores the free-form entry under its composite key, or reports the sub-box error and leaves the mapping unchanged. |
| TagReader.M4ATags.Parse | mutagen/mutagen/m4a.py:122 | The table picks the parser by name. The mapping becomes what `Step` gives, or the error is reported and the mapping is unchanged. |
| TagReader.M4ATags.Load | mutagen/mutagen/m4a.py:117-122 | Parsing every `ilst` child in file order leaves the mapping that `DecodeInto` gives, or reports its error. |
| TagReader.DecodeFirst | mutagen/mutagen/m4a.py:118-122 | Decoding a child list is parsing the first child, then the rest from the updated mapping. |
| TagReader.DecodeAdvance | mutagen/mutagen/m4a.py:118-122 | A step the method reports without error advances decoding by one child, and an error ends it. |
| TagReader.DecodeKeys | mutagen/mutagen/m4a.py:117-122 | Every decoded key was already present, is the text genre, or extends the name of some child. |
| TagReader.StepKeys | mutagen/mutagen/m4a.py:122 | One parse step adds only the child's name, a key extending it, or the text genre. |
| TagReader.DecodeNoGnre | mutagen/mutagen/m4a.py:163-168 | Decoding never produces a `gnre` key. |
| TagReader.TextGenreWins | mutagen/mutagen/m4a.py:166-168 | A text genre wins over a numeric one whichever comes first: after it the numeric genre is ignored, and before it the text genre overwrites it. |
| TagReader.NoIlstFails | mutagen/mutagen/m4a.py:118 | A missing `ilst` path fails decoding with the lookup's error, and a leaf `ilst` fails with NotContainer. |
| TagRoundTrip.AssignContents | mutagen/mutagen/m4a.py:126 | Storing the entries named in a key order gives every named key its value and leaves every other key as it was. |
| TagRoundTrip.AssignAll | mutagen/mutagen/m4a.py:126 | Storing every entry of a mapping, in any order of its keys, into an empty mapping gives the mapping. |
| TagRoundTrip.BoxesRead | mutagen/mutagen/m4a.py:53-54 | Leaf boxes laid back to back are read as one leaf per box, and the cursor ends at their end. |
| TagRoundTrip.ContainerRead | mutagen/mutagen/m4a.py:50-54 | A container without skip whose length field counts its leaf children is read with exactly those leaves. |
| TagRoundTrip.BoxesRender | mutagen/mutagen/m4a.py:124-129 | A successful render is the concatenation of each entry's rendered box, in key order. |
| TagRoundTrip.RenderedDecodable | mutagen/mutagen/m4a.py:124-134 | Each rendered box of a writable entry is a leaf box whose payload parses back to its entry. |
| TagRoundTrip.LeafPayload | mutagen/mutagen/m4a.py:120-121 | Reading a leaf's `length - 8` bytes after its header gives exactly its payload. |
| TagRoundTrip.DecodeIsFold | mutagen/mutagen/m4a.py:118-122 | Decoding is a left fold of the per-child parse step. |
| TagRoundTrip.FoldStores | mutagen/mutagen/m4a.py:118-122 | A fold whose steps each store one entry of the order stores them all. |
| TagRoundTrip.LeavesStore | mutagen/mutagen/m4a.py:118-122 | Each leaf read from the rendered boxes parses to the entry it was rendered from. |
| TagRoundTrip.IlstBoxes | mutagen/mutagen/m4a.py:117-122 | An `ilst` box around such boxes is read as a container of one leaf per entry, and decoding those leaves gives the mapping back. |
| TagRoundTrip.IlstRoundTrip | mutagen/mutagen/m4a.py:117-129 | Take a mapping of writable entries, rendered in any order to `body`. An `ilst` box holding `body` is read back as one leaf per key, and decoding the leaves gives exactly that mapping. |
| TagRoundTrip.RenderedBoxes | mutagen/mutagen/m4a.py:124-129 | The rendering of writable entries is the concatenation of one leaf box per entry, each of which decodes to its entry. |
| TagRoundTrip.WritableRenders | mutagen/mutagen/m4a.py:124-129 | Rendering a mapping of writable entries never fails, whatever the order. |
| TagRoundTrip.EntryFailureFails | mutagen/mutagen/m4a.py:124-129 | When any one entry fails to render, rendering the whole mapping fails, whatever the order. |
| TagRoundTrip.NegativeTempoBlocksRender | mutagen/mutagen/m4a.py:172-173 | A negative tempo, as a tempo stored from 32768 up is read back, fails to pack with OutOfRange, and rendering any mapping that holds it fails. |
| TagRoundTrip.OrderCountsKeys | mutagen/mutagen/m4a.py:126 | An iteration order lists as many keys as the mapping has. |
| StreamInfo.MdhdPathSplits | mutagen/mutagen/m4a.py:209 | "moov.trak.mdia.mdhd" splits into its four names, and looking it up is resolving them. |
| StreamInfo.TimesFor | mutagen/mutagen/m4a.py:212-220 | Unpacking fails exactly when the bytes end before offset + size. A zero time scale fails the division. A result has a non-zero 32-bit time scale and a 32-bit (layout 0) or 64-bit duration. |
| StreamInfo.MdhdTimesAsWritten | mutagen/mutagen/m4a.py:211-212 | Header bytes of 9 or fewer fail with IndexOutOfRange, as indexing byte 9 does. |
| StreamInfo.MdhdTimes | mutagen/mutagen/m4a.py:211-219 | The corrected reader fails with IndexOutOfRange exactly when the version byte 8 is missing. |
| StreamInfo.TimesAt | mutagen/mutagen/m4a.py:218-220 | The bytes at the layout's offset read as a 32-bit time scale followed by the duration, and a zero time scale is ZeroUnit. |
| StreamInfo.MdhdRoundTrip | mutagen/mutagen/m4a.py:212-220 | Every version 0 or 1 `mdhd` box reads back its own time scale and duration through the corrected reader, and a zero time scale gives ZeroUnit. |
| StreamInfo.AsWrittenAgrees | mutagen/mutagen/m4a.py:212 | When byte 8 and byte 9 are zero together, the reader as written and the corrected one agree. |
| StreamInfo.VersionByteMisread | mutagen/mutagen/m4a.py:212-219 | A version 1 box with zero flags is read in the version 0 layout, giving the two halves of the modification time. A modification time below 2^32 gives ZeroUnit. |
| StreamInfo.MisreadExample | mutagen/mutagen/m4a.py:212-220 | A concrete version 1 box on which the reader as written fails and the corrected one returns 600 and 6000. |
| StreamInfo.FlagsMisread | mutagen/mutagen/m4a.py:212-219 | A version 0 box with a non-zero first flags byte is read in the version 1 layout, which runs past its end: Truncated. |
| StreamInfo.InfoNeedsMdhd | mutagen/mutagen/m4a.py:209-211 | A missing `mdhd` path fails the stream info with the lookup's error. Otherwise the info is read from the atom's own bytes. |
| StreamInfo.MdhdBytes | mutagen/mutagen/m4a.py:209-211 | The `mdhd` box's own bytes, read from its offset. `InfoNeedsMdhd` states it. |
| StreamInfo.InfoAsWritten | mutagen/mutagen/m4a.py:207-220 | M4AInfo.__init__ as written, with the version read from byte 9. `InfoNeedsMdhd` states it. |
| StreamInfo.Info | mutagen/mutagen/m4a.py:207-220 | M4AInfo.__init__ with the version read from byte 8. `InfoNeedsMdhd` and `MdhdRoundTrip` state it. |
| Sniff.ContainsIff | mutagen/mutagen/m4a.py:234 | The substring search succeeds exactly when the marker occurs at some position. |
| Sniff.Contains | mutagen/mutagen/m4a.py:234 | A substring test. `ContainsIff` states it. |
| Sniff.Score | mutagen/mutagen/m4a.py:233-234 | M4A.score: one point for each marker found. `ScoreCounts` and `FtypScores` state it. |
| Sniff.ScoreCounts | mutagen/mutagen/m4a.py:233-234 | The score is at most 2. It is 2 exactly when both markers occur and 0 exactly when neither does. |
| Sniff.FtypScores | mutagen/mutagen/m4a.py:233-234 | A header with an `ftyp` box name at bytes 4..8 scores at least 1, and 2 when the brand starts with "mp4". |
| Bytes.DecodeEncode | mutagen/mutagen/m4a.py:133-134 | A number packed big-endian into a width it fits reads back as itself. |
| Bytes.EncodeDecode | mutagen/mutagen/m4a.py:45 | Bytes read as a number and packed again in the same width are the same bytes. |
| Bytes.Signed16 | mutagen/mutagen/m4a.py:165 | The signed 16-bit value is in −32768..32767 and agrees with the unsigned one modulo 65536. |
| Bytes.U64Halves | mutagen/mutagen/m4a.py:213-219 | A 64-bit field read as two 32-bit fields gives its high and low halves. |
| Bytes.SplitJoin | mutagen/mutagen/m4a.py:148 | Joining the parts of a split gives the string back. |
| Bytes.SplitPartsFree | mutagen/mutagen/m4a.py:103 | Every part of a split except a bounded split's last one is free of the separator. |
| Bytes.JoinSplit | mutagen/mutagen/m4a.py:103 | Splitting names joined by a separator they do not contain gives the names back. |

## Left out

- File handling in `M4A.__init__` (lines 225-231) is not modelled. Opening, seeking, reading and telling become pure functions over the file's bytes, and the box loops become methods over a byte array. Composing the three readers is left to the caller of `ParseFile`, `StreamInfo.Info` and `TagReader.Decode`.
- The duration is kept as the integer pair (time scale, duration). The floating-point `float(length) / unit` is not modelled, and a zero time scale is the error ZeroUnit.
- Text is kept as the bytes it is stored as. The UTF-8 decoding with replacement on parse and the encoding on render are library code outside this module.
- The genre name table `GENRES` comes from another module. It is a parameter.
- `cdata` is not part of this model. `uint_be`, `short_be`, `to_uint_be` and `to_ushort_be` are taken to be big-endian unsigned 32-bit, signed 16-bit, unsigned 32-bit and unsigned 16-bit, as their names say.
- `__repr__` and both `pprint` methods are display code and are not modelled.
- The mapping class `Metadata` is not part of this model, so its iteration order is unknown. `__render` takes the key order as a parameter (`TagCodec.IsOrder`), and every result holds for any order.
- AtomTree.AtomAt: a zero-length leaf makes the source seek back to the box start and loop forever. The model returns the error Stalls instead.
- TagReader.M4ATags.Load: when a child fails to parse, the entries stored before the failure stay in the mapping. The contract says only which error is reported, not which entries were stored.
- TagRoundTrip.IlstRoundTrip: covers only entries that satisfy `Writable`. Track and disc numbers never render (`TagLaws.PairAndGenreNeverRender`). A free-form `mean` holding ':' does not round-trip (`TagLaws.FreeformColonInMean`). Tempo round-trips only for 0..32767 (`TagLaws.TempoReadSigned`). A false compilation renders to nothing.
- TagRoundTrip.IlstRoundTrip: `Writable` also excludes three keys that render but do not read back. A key that is not free-form must be exactly 4 bytes long, because the outer length field of `__render_data` does not count the key's length. A free-form key's first part must be exactly `----`: the key `----x:a:b` is read back as `----:a:b`. A key named like a container (`moov`, `udta`, `trak`, `mdia`, `meta`, `ilst`) is read back as a container, not as an entry.
- TagCodec.RenderTempo and TagCodec.Field32: the model takes packing a number that is too large or negative to fail with OutOfRange, as `struct` does from Python 2.7 on. Before Python 2.7, packing with a standard size truncated the number to the field width, and Python 2.5 and 2.6 also warned. Because a tempo stored as 0x8000..0xFFFF is read back negative (`TagLaws.TempoReadSigned`), and `RenderTempo(k, Int(-1)) == Err(OutOfRange)`, rendering any mapping read from such a file fails as a whole (`TagRoundTrip.NegativeTempoBlocksRender`).
- The player's song list columns (`quodlibet/qltk/songlistcolumns.py`) only display what this reader produces. They are not part of this model.

## Findings

| source | as written | input that shows it | evidently intended | confidence | as-written member | corrected member |
|---|---|---|---|---|---|---|
| mutagen/mutagen/m4a.py:212 | The layout is chosen by `data[9]`, the first flags byte of the `mdhd` box, and not by its version byte `data[8]`. | A version 1 `mdhd` box with flags 0 and a modification time below 2^32: the reader takes the version 0 layout, reads a zero time scale and divides by zero. Example: time scale 600, duration 6000, times 0. | Choose the layout by the version byte, index 8, as in ISO/IEC 14496-12 section 8.4.2. | not executed | StreamInfo.MdhdTimesAsWritten (StreamInfo.VersionByteMisread, StreamInfo.MisreadExample) | StreamInfo.MdhdTimes (StreamInfo.MdhdRoundTrip) |

`StreamInfo.Info` reads the media header with the corrected `MdhdTimes`. `StreamInfo.InfoAsWritten` is the code as written.
