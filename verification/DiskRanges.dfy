/** Reading the dirty ranges of a disk, and why the delta suffices to rebuild the disk. */
module DiskRanges {
  import opened Bytes
  import opened Slices
  import opened Sorting

  datatype Range = Range(offset: nat, length: nat)

  function Start(r: Range): nat {
    r.offset
  }

  // The slices of `full` at `rs`, one after the other.
  function Extract(full: bytes, rs: seq<Range>): bytes {
    if rs == [] then [] else
      var r := rs[|rs| - 1];
      Extract(full, rs[..|rs| - 1]) + PySlice(full, r.offset, r.offset + r.length)
  }

  lemma ExtractNone(full: bytes, rs: seq<Range>)
    ensures Extract(full, rs[..0]) == []
  {
  }

  lemma ExtractOneMore(full: bytes, rs: seq<Range>, i: nat)
    requires i < |rs|
    ensures Extract(full, rs[..i + 1]) == Extract(full, rs[..i]) + PySlice(full, rs[i].offset, rs[i].offset + rs[i].length)
  {
    hide PySlice;
    TakeOneMore(rs, i);
  }

  /** An empty list of ranges means the whole disk. */
  method ReadDiskRanges(full: bytes, ranges: seq<Range>) returns (result: bytes)
    ensures result == if ranges == [] then full else Extract(full, SortBy(Start, ranges))
  {
    if ranges == [] {
      return full;
    }
    hide SortBy, PySlice, Extract, Start;
    result := [];
    var sorted := SortBy(Start, ranges);
    ExtractNone(full, sorted);
    TakeAll(sorted);
    for i := 0 to |sorted|
      invariant result == Extract(full, sorted[..i])
    {
      ExtractOneMore(full, sorted, i);
      result := result + PySlice(full, sorted[i].offset, sorted[i].offset + sorted[i].length);
    }
  }

  predicate Covers(r: Range, k: nat) {
    r.offset <= k < r.offset + r.length
  }

  predicate Covered(rs: seq<Range>, k: nat) {
    exists i :: 0 <= i < |rs| && Covers(rs[i], k)
  }

  ghost predicate InBounds(rs: seq<Range>, n: nat) {
    forall i :: 0 <= i < |rs| ==> rs[i].offset + rs[i].length <= n
  }

  /** No byte lies in two of the ranges. */
  ghost predicate Disjoint(rs: seq<Range>) {
    forall a, b, k :: a in multiset(rs) && b in multiset(rs) && Covers(a, k) && Covers(b, k)
      ==> a == b && multiset(rs)[a] == 1
  }

  /** The bytes of `full` below `hi` at covered positions, in ascending position. */
  function CoveredBytes(full: bytes, rs: seq<Range>, hi: nat): bytes
    requires hi <= |full|
  {
    if hi == 0 then []
    else CoveredBytes(full, rs, hi - 1) + (if Covered(rs, hi - 1) then [full[hi - 1]] else [])
  }

  lemma {:induction false} CoveredSame(full: bytes, rs: seq<Range>, qs: seq<Range>, hi: nat)
    requires hi <= |full| && forall k :: 0 <= k < hi ==> (Covered(rs, k) <==> Covered(qs, k))
    ensures CoveredBytes(full, rs, hi) == CoveredBytes(full, qs, hi)
  {
    hide Covered;
    if hi > 0 {
      CoveredSame(full, rs, qs, hi - 1);
    }
  }

  lemma {:induction false} CoveredNone(full: bytes, rs: seq<Range>, lo: nat, hi: nat)
    requires lo <= hi <= |full| && forall k :: lo <= k < hi ==> !Covered(rs, k)
    ensures CoveredBytes(full, rs, hi) == CoveredBytes(full, rs, lo)
  {
    hide Covered;
    if lo < hi {
      CoveredNone(full, rs, lo, hi - 1);
    }
  }

  lemma {:induction false} CoveredAll(full: bytes, rs: seq<Range>, lo: nat, hi: nat)
    requires lo <= hi <= |full| && forall k :: lo <= k < hi ==> Covered(rs, k)
    ensures CoveredBytes(full, rs, hi) == CoveredBytes(full, rs, lo) + full[lo..hi]
  {
    hide Covered;
    if lo < hi {
      CoveredAll(full, rs, lo, hi - 1);
      assert full[lo..hi] == full[lo..hi - 1] + [full[hi - 1]];
    }
  }

  lemma CoveredAppend(front: seq<Range>, r: Range, k: nat)
    ensures Covered(front + [r], k) <==> Covered(front, k) || Covers(r, k)
  {
    var rs := front + [r];
    if Covered(front, k) {
      var i :| 0 <= i < |front| && Covers(front[i], k);
      assert Covers(rs[i], k);
    }
    if Covers(r, k) {
      assert Covers(rs[|front|], k);
    }
  }

  // Ranges that start earlier and overlap no byte of `r` end before it.
  lemma EarlierRangesEnd(rs: seq<Range>, r: Range, k: nat)
    requires Disjoint(rs + [r]) && Ascending(Start, rs + [r]) && r.length > 0 && Covered(rs, k)
    ensures k < r.offset
  {
    var all := rs + [r];
    var i :| 0 <= i < |rs| && Covers(rs[i], k);
    assert all[i] == rs[i] && all[|rs|] == r;
    assert Start(all[i]) <= Start(all[|rs|]);
    assert multiset(all)[rs[i]] == multiset(rs)[rs[i]] + (if r == rs[i] then 1 else 0);
    assert Covers(r, r.offset);
    assert k < r.offset || Covers(rs[i], r.offset);
  }

  // What Python's slice takes from `r` on a disk of `n` bytes.
  function Lo(r: Range, n: nat): nat {
    Min(r.offset, n)
  }

  function Hi(r: Range, n: nat): (hi: nat)
    ensures Lo(r, n) <= hi <= n
  {
    Min(r.offset + r.length, n)
  }

  // A range that starts last and overlaps none of the others adds its slice at the end.
  lemma CoveredOneMore(full: bytes, rs: seq<Range>, r: Range)
    requires Disjoint(rs + [r]) && Ascending(Start, rs + [r])
    ensures CoveredBytes(full, rs + [r], |full|)
         == CoveredBytes(full, rs, |full|) + full[Lo(r, |full|)..Hi(r, |full|)]
  {
    hide Disjoint, Ascending, Covered, CoveredBytes;
    var all, lo, hi := rs + [r], Lo(r, |full|), Hi(r, |full|);
    forall k: nat
      ensures Covered(all, k) <==> Covered(rs, k) || Covers(r, k)
    {
      CoveredAppend(rs, r, k);
    }
    if lo == hi {
      CoveredSame(full, all, rs, |full|);
    } else {
      forall k: nat | Covered(rs, k)
        ensures k < lo
      {
        EarlierRangesEnd(rs, r, k);
      }
      CoveredSame(full, all, rs, lo);
      CoveredAll(full, all, lo, hi);
      CoveredNone(full, all, hi, |full|);
      CoveredNone(full, rs, lo, |full|);
    }
  }

  lemma {:induction false} ExtractSorted(full: bytes, rs: seq<Range>)
    requires Disjoint(rs) && Ascending(Start, rs)
    ensures Extract(full, rs) == CoveredBytes(full, rs, |full|)
  {
    if rs == [] {
      CoveredNone(full, rs, 0, |full|);
    } else {
      hide Disjoint, Ascending, CoveredBytes, Extract, Start;
      var front, r := rs[..|rs| - 1], rs[|rs| - 1];
      assert front + [r] == rs;
      FrontRanges(front, r);
      ExtractSorted(full, front);
      ExtractStep(full, front, r);
    }
  }

  lemma ExtractStep(full: bytes, front: seq<Range>, r: Range)
    requires Disjoint(front + [r]) && Ascending(Start, front + [r])
    requires Extract(full, front) == CoveredBytes(full, front, |full|)
    ensures Extract(full, front + [r]) == CoveredBytes(full, front + [r], |full|)
  {
    hide Disjoint, Ascending, PySlice, Start, Covered;
    CoveredOneMore(full, front, r);
    SliceClamps(full, r);
    ExtractAppend(full, front, r);
  }

  lemma ExtractAppend(full: bytes, front: seq<Range>, r: Range)
    ensures Extract(full, front + [r]) == Extract(full, front) + PySlice(full, r.offset, r.offset + r.length)
  {
    hide PySlice;
    UndoAppend(front, [r]);
  }

  lemma SliceClamps(full: bytes, r: Range)
    ensures PySlice(full, r.offset, r.offset + r.length) == full[Lo(r, |full|)..Hi(r, |full|)]
  {
  }

  lemma SliceInside(full: bytes, r: Range)
    requires r.offset + r.length <= |full|
    ensures PySlice(full, r.offset, r.offset + r.length) == full[r.offset..r.offset + r.length]
  {
  }

  lemma FrontRanges(front: seq<Range>, r: Range)
    requires Disjoint(front + [r]) && Ascending(Start, front + [r])
    ensures Disjoint(front) && Ascending(Start, front)
  {
    var rs := front + [r];
    assert rs[|front|] == r && forall i :: 0 <= i < |front| ==> rs[i] == front[i];
    FrontDisjoint(front, r);
  }

  lemma FrontDisjoint(front: seq<Range>, r: Range)
    requires Disjoint(front + [r])
    ensures Disjoint(front)
  {
    assert multiset(front + [r]) == multiset(front) + multiset{r};
  }

  lemma PermutedRanges(rs: seq<Range>, qs: seq<Range>, n: nat)
    requires multiset(rs) == multiset(qs)
    ensures InBounds(rs, n) ==> InBounds(qs, n)
    ensures forall k: nat :: Covered(rs, k) <==> Covered(qs, k)
  {
    forall i | 0 <= i < |qs|
      ensures qs[i] in rs
    {
      assert qs[i] in multiset(qs);
    }
    forall i | 0 <= i < |rs|
      ensures rs[i] in qs
    {
      assert rs[i] in multiset(rs);
    }
  }

  /**
   * Disjoint ranges, listed in any order, yield exactly the covered bytes of the disk in ascending
   * position, also when they reach beyond its end.
   */
  lemma DeltaIsCoveredBytes(full: bytes, ranges: seq<Range>)
    requires Disjoint(ranges)
    ensures Extract(full, SortBy(Start, ranges)) == CoveredBytes(full, ranges, |full|)
  {
    hide SortBy, Extract, CoveredBytes, Covered, Disjoint, Ascending, InBounds, Start;
    var sorted := SortBy(Start, ranges);
    SortBySorts(Start, ranges);
    DisjointPermuted(ranges, sorted);
    PermutedRanges(ranges, sorted, |full|);
    ExtractSorted(full, sorted);
    CoveredSame(full, sorted, ranges, |full|);
  }

  lemma DisjointPermuted(rs: seq<Range>, qs: seq<Range>)
    requires multiset(rs) == multiset(qs) && Disjoint(rs)
    ensures Disjoint(qs)
  {
  }

  lemma {:induction false} CoveredLength(full: bytes, rs: seq<Range>, hi: nat)
    requires hi <= |full|
    ensures |CoveredBytes(full, rs, hi)| <= hi
    ensures (exists k: nat :: k < hi && !Covered(rs, k)) ==> |CoveredBytes(full, rs, hi)| < hi
  {
    hide Covered;
    if hi > 0 {
      CoveredLength(full, rs, hi - 1);
    }
  }

  /** The covered bytes are the whole disk exactly when every byte is covered. */
  lemma CoveredIsAllIff(full: bytes, rs: seq<Range>)
    ensures CoveredBytes(full, rs, |full|) == full <==> forall k: nat :: k < |full| ==> Covered(rs, k)
  {
    hide Covered;
    CoveredLength(full, rs, |full|);
    if forall k: nat :: k < |full| ==> Covered(rs, k) {
      CoveredAll(full, rs, 0, |full|);
      assert [] + full[0..|full|] == full;
    }
  }

  function TotalLength(rs: seq<Range>): nat {
    if rs == [] then 0 else TotalLength(rs[..|rs| - 1]) + rs[|rs| - 1].length
  }

  /** The lengths of the ranges as far as they lie on a disk of `n` bytes. */
  function LengthWithin(rs: seq<Range>, n: nat): nat {
    if rs == [] then 0 else
      var r := rs[|rs| - 1];
      LengthWithin(rs[..|rs| - 1], n) + (Hi(r, n) - Lo(r, n))
  }

  lemma {:induction false} InsertWithin(x: Range, s: seq<Range>, n: nat)
    ensures LengthWithin(Insert(Start, x, s), n) == LengthWithin(s, n) + (Hi(x, n) - Lo(x, n))
  {
    hide Lo, Hi;
    if s == [] || Start(s[|s| - 1]) <= Start(x) {
      assert (s + [x])[..|s|] == s;
    } else {
      InsertWithin(x, s[..|s| - 1], n);
      var t := Insert(Start, x, s[..|s| - 1]);
      assert (t + [s[|s| - 1]])[..|t|] == t;
    }
  }

  lemma {:induction false} SortWithin(rs: seq<Range>, n: nat)
    ensures LengthWithin(SortBy(Start, rs), n) == LengthWithin(rs, n)
  {
    hide Lo, Hi;
    if rs != [] {
      SortWithin(rs[..|rs| - 1], n);
      InsertWithin(rs[|rs| - 1], SortBy(Start, rs[..|rs| - 1]), n);
    }
  }

  lemma {:induction false} ExtractWithin(full: bytes, rs: seq<Range>)
    ensures |Extract(full, rs)| == LengthWithin(rs, |full|)
  {
    hide PySlice;
    if rs != [] {
      ExtractWithin(full, rs[..|rs| - 1]);
      SliceClamps(full, rs[|rs| - 1]);
    }
  }

  lemma {:induction false} WithinInBounds(rs: seq<Range>, n: nat)
    requires InBounds(rs, n)
    ensures LengthWithin(rs, n) == TotalLength(rs)
  {
    if rs != [] {
      WithinInBounds(rs[..|rs| - 1], n);
    }
  }

  lemma ExtractLength(full: bytes, rs: seq<Range>)
    requires InBounds(rs, |full|)
    ensures |Extract(full, rs)| == TotalLength(rs)
  {
    ExtractWithin(full, rs);
    WithinInBounds(rs, |full|);
  }

  /** Ranges read as many bytes as their lengths on the disk add up to, overlapping or not. */
  lemma DeltaLength(full: bytes, ranges: seq<Range>)
    ensures |Extract(full, SortBy(Start, ranges))| == LengthWithin(ranges, |full|)
    ensures InBounds(ranges, |full|) ==> LengthWithin(ranges, |full|) == TotalLength(ranges)
  {
    ExtractWithin(full, SortBy(Start, ranges));
    SortWithin(ranges, |full|);
    if InBounds(ranges, |full|) {
      WithinInBounds(ranges, |full|);
    }
  }

  /** Writing a delta back, range by range in the order it was read. */
  function PatchBack(disk: bytes, rs: seq<Range>, delta: bytes): bytes
    requires |delta| == TotalLength(rs)
  {
    if rs == [] then disk else
      var front, r := rs[..|rs| - 1], rs[|rs| - 1];
      PyPatch(PatchBack(disk, front, delta[..TotalLength(front)]), r.offset, delta[TotalLength(front)..])
  }

  // How the last range is patched in.
  lemma PatchBackLast(prior: bytes, full: bytes, rs: seq<Range>)
    requires InBounds(rs, |full|) && rs != []
    ensures var front, r := rs[..|rs| - 1], rs[|rs| - 1];
            && r.offset + r.length <= |full| && InBounds(front, |full|)
            && |Extract(full, front)| == TotalLength(front) && |Extract(full, rs)| == TotalLength(rs)
            && PatchBack(prior, rs, Extract(full, rs))
            == PyPatch(PatchBack(prior, front, Extract(full, front)), r.offset, full[r.offset..r.offset + r.length])
  {
    hide PyPatch, PySlice, PatchBack, Extract, TotalLength;
    var front, r := rs[..|rs| - 1], rs[|rs| - 1];
    ExtractLength(full, rs);
    ExtractLength(full, front);
    SliceInside(full, r);
    ExtractLast(full, rs);
    PatchBackUnfold(prior, rs, Extract(full, front), full[r.offset..r.offset + r.length]);
  }

  lemma ExtractLast(full: bytes, rs: seq<Range>)
    requires rs != []
    ensures var r := rs[|rs| - 1];
            Extract(full, rs) == Extract(full, rs[..|rs| - 1]) + PySlice(full, r.offset, r.offset + r.length)
  {
    hide PySlice;
  }

  lemma PatchBackUnfold(prior: bytes, rs: seq<Range>, delta: bytes, slice: bytes)
    requires rs != [] && |delta| == TotalLength(rs[..|rs| - 1]) && |slice| == rs[|rs| - 1].length
    ensures |delta + slice| == TotalLength(rs)
    ensures PatchBack(prior, rs, delta + slice) == PyPatch(PatchBack(prior, rs[..|rs| - 1], delta), rs[|rs| - 1].offset, slice)
  {
    hide PyPatch;
    UndoAppend(delta, slice);
  }

  lemma PatchAt(buf: bytes, at: nat, d: bytes)
    requires at + |d| <= |buf|
    ensures |PyPatch(buf, at, d)| == |buf|
    ensures forall k :: 0 <= k < |buf| ==> PyPatch(buf, at, d)[k] == if at <= k < at + |d| then d[k - at] else buf[k]
  {
  }

  lemma {:induction false} PatchBackLength(prior: bytes, full: bytes, rs: seq<Range>)
    requires InBounds(rs, |full|) && |prior| == |full|
    ensures |Extract(full, rs)| == TotalLength(rs) && |PatchBack(prior, rs, Extract(full, rs))| == |full|
  {
    ExtractLength(full, rs);
    if rs != [] {
      PatchBackLength(prior, full, rs[..|rs| - 1]);
      PatchBackLast(prior, full, rs);
    }
  }

  // The last range decides its own positions and leaves the others alone.
  lemma PatchBackStep(prior: bytes, full: bytes, rs: seq<Range>, k: nat)
    requires InBounds(rs, |full|) && |prior| == |full| && k < |full| && rs != []
    ensures var front, r := rs[..|rs| - 1], rs[|rs| - 1];
            && InBounds(front, |full|)
            && |Extract(full, front)| == TotalLength(front) && |PatchBack(prior, front, Extract(full, front))| == |full|
            && |Extract(full, rs)| == TotalLength(rs) && |PatchBack(prior, rs, Extract(full, rs))| == |full|
            && PatchBack(prior, rs, Extract(full, rs))[k]
            == if Covers(r, k) then full[k] else PatchBack(prior, front, Extract(full, front))[k]
  {
    hide PatchBack, Extract, TotalLength, InBounds, PyPatch;
    PatchBackLast(prior, full, rs);
    PatchBackLength(prior, full, rs);
    PatchBackLength(prior, full, rs[..|rs| - 1]);
    var r := rs[|rs| - 1];
    PatchAt(PatchBack(prior, rs[..|rs| - 1], Extract(full, rs[..|rs| - 1])), r.offset, full[r.offset..r.offset + r.length]);
  }

  lemma {:induction false} PatchBackAt(prior: bytes, full: bytes, rs: seq<Range>, k: nat)
    requires InBounds(rs, |full|) && |prior| == |full| && k < |full|
    ensures |Extract(full, rs)| == TotalLength(rs) && |PatchBack(prior, rs, Extract(full, rs))| == |full|
    ensures PatchBack(prior, rs, Extract(full, rs))[k] == if Covered(rs, k) then full[k] else prior[k]
  {
    if rs == [] {
      PatchBackLength(prior, full, rs);
    } else {
      var front, r := rs[..|rs| - 1], rs[|rs| - 1];
      assert rs == front + [r];
      PatchBackStep(prior, full, rs, k);
      PatchBackAt(prior, full, front, k);
      hide PatchBack, Extract, TotalLength, Covered;
      CoveredAppend(front, r, k);
    }
  }

  /**
   * The delta suffices: patched over an old disk that differs from the new one only inside the
   * ranges, it gives the new disk.
   */
  lemma DeltaRebuildsDisk(prior: bytes, full: bytes, ranges: seq<Range>)
    requires InBounds(ranges, |full|) && |prior| == |full|
    requires forall k :: 0 <= k < |full| && !Covered(ranges, k) ==> prior[k] == full[k]
    ensures var sorted := SortBy(Start, ranges);
            |Extract(full, sorted)| == TotalLength(sorted) && PatchBack(prior, sorted, Extract(full, sorted)) == full
  {
    var sorted := SortBy(Start, ranges);
    SortBySorts(Start, ranges);
    PermutedRanges(ranges, sorted, |full|);
    ExtractLength(full, sorted);
    PatchBackLength(prior, full, sorted);
    forall k | 0 <= k < |full|
      ensures PatchBack(prior, sorted, Extract(full, sorted))[k] == full[k]
    {
      PatchBackAt(prior, full, sorted, k);
    }
  }
}
