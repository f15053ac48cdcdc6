/** M4A.score: how strongly the first bytes of a file suggest an MPEG-4 audio file.
    Each of the substrings "ftyp" and "mp4" found anywhere in the header adds one. */
module Sniff {
  import opened Bytes

  const FTYP: Bytes := [0x66, 0x74, 0x79, 0x70]  // "ftyp"
  const MP4: Bytes := [0x6D, 0x70, 0x34]          // "mp4"

  /** Python's `p in h` on strings, searching from the front. The empty string is in
      every string. */
  function Contains(h: Bytes, p: Bytes): bool
    decreases |h|
  {
    if |h| < |p| then false
    else if h[..|p|] == p then true
    else Contains(h[1..], p)
  }

  /** `p` occurs in `h` at position `i`. */
  ghost predicate OccursAt(h: Bytes, p: Bytes, i: int)
  {
    0 <= i && i + |p| <= |h| && h[i..i + |p|] == p
  }

  /** The search finds `p` exactly when it occurs somewhere. */
  lemma {:induction false} ContainsIff(h: Bytes, p: Bytes)
    ensures Contains(h, p) <==> exists i :: OccursAt(h, p, i)
    decreases |h|
  {
    if |h| < |p| {
      forall i ensures !OccursAt(h, p, i) {
      }
    } else if h[..|p|] == p {
      assert OccursAt(h, p, 0);
    } else {
      var t := h[1..];
      ContainsIff(t, p);
      if Contains(t, p) {
        var i :| OccursAt(t, p, i);
        assert h[i + 1..i + 1 + |p|] == t[i..i + |p|];
        assert OccursAt(h, p, i + 1);
      }
      if exists i :: OccursAt(h, p, i) {
        var i :| OccursAt(h, p, i);
        assert i != 0;
        assert t[i - 1..i - 1 + |p|] == h[i..i + |p|];
        assert OccursAt(t, p, i - 1);
      }
    }
  }

  /** One point for each of the two markers found in the header. */
  function Score(header: Bytes): nat
  {
    (if Contains(header, FTYP) then 1 else 0) + (if Contains(header, MP4) then 1 else 0)
  }

  /** The score counts which of the two markers occur in the header. */
  lemma ScoreCounts(header: Bytes)
    ensures Score(header) <= 2
    ensures Score(header) == 2 <==> (exists i :: OccursAt(header, FTYP, i)) && (exists j :: OccursAt(header, MP4, j))
    ensures Score(header) == 0 <==> (forall i :: !OccursAt(header, FTYP, i)) && (forall j :: !OccursAt(header, MP4, j))
  {
    ContainsIff(header, FTYP);
    ContainsIff(header, MP4);
  }

  /** A file starting with an ISO base media `ftyp` box (ISO/IEC 14496-12 section 4.3)
      scores at least one, and two when its major brand starts with "mp4". */
  lemma FtypScores(header: Bytes)
    requires |header| >= 8 && header[4..8] == FTYP
    ensures Score(header) >= 1
    ensures |header| >= 11 && header[8..11] == MP4 ==> Score(header) == 2
  {
    assert OccursAt(header, FTYP, 4);
    ContainsIff(header, FTYP);
    if |header| >= 11 && header[8..11] == MP4 {
      assert OccursAt(header, MP4, 8);
      ContainsIff(header, MP4);
    }
  }
}
