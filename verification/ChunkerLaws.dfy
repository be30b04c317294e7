/** Laws of the cuts: partition, size bounds, append stability, resynchronisation, uniform runs. */
module ChunkerLaws {
  import opened Bytes
  import opened Fingerprint
  import opened Chunker
  import opened Slices

  function Contents(ps: seq<Piece>): bytes {
    if ps == [] then [] else ps[0].data + Contents(ps[1..])
  }

  function Shifted(ps: seq<Piece>, delta: nat): (r: seq<Piece>)
    ensures |r| == |ps|
  {
    seq(|ps|, i requires 0 <= i < |ps| => Piece(ps[i].offset + delta, ps[i].data))
  }

  /** The pieces lie end to end from `at`, none is empty, and each shows its stretch of `d`. */
  ghost predicate Tiles(ps: seq<Piece>, d: bytes, at: nat)
    decreases |ps|
  {
    if ps == [] then d == [] else
      var n := |ps[0].data|;
      && ps[0].offset == at
      && 0 < n <= |d|
      && ps[0].data == d[..n]
      && Tiles(ps[1..], d[n..], at + n)
  }

  /** The i-th tile: where it lies, what it shows, where the next one starts. */
  lemma {:induction false} TileAt(ps: seq<Piece>, d: bytes, at: nat, i: nat)
    requires Tiles(ps, d, at) && i < |ps|
    ensures at <= ps[i].offset && ps[i].offset + |ps[i].data| <= at + |d|
    ensures ps[i].data == d[ps[i].offset - at..ps[i].offset - at + |ps[i].data|]
    ensures (if i + 1 < |ps| then ps[i + 1].offset else at + |d|) == ps[i].offset + |ps[i].data|
    ensures Tiles(ps[i..], d[ps[i].offset - at..], ps[i].offset)
  {
    var n := |ps[0].data|;
    if i > 0 {
      TileAt(ps[1..], d[n..], at + n, i - 1);
      assert ps[1..][i - 1..] == ps[i..];
      assert d[n..][ps[i].offset - at - n..] == d[ps[i].offset - at..];
    } else {
      assert ps[0..] == ps && d[0..] == d;
      if |ps| > 1 {
        assert Tiles(ps[1..], d[n..], at + n);
      }
    }
  }

  lemma {:induction false} TileNotEmpty(ps: seq<Piece>, d: bytes, at: nat, i: nat)
    requires Tiles(ps, d, at) && i < |ps|
    ensures ps[i].data != []
  {
    if i > 0 {
      TileNotEmpty(ps[1..], d[|ps[0].data|..], at + |ps[0].data|, i - 1);
    }
  }

  // ---- the cut test ----

  lemma {:induction false} BitLengthBounds(n: nat)
    ensures n < Pow2(BitLength(n))
    ensures n > 0 ==> Pow2(BitLength(n)) <= 2 * n
  {
    if n > 0 {
      BitLengthBounds(n / 2);
    }
  }

  /**
   * The mask is one less than a power of two: the least one that is not below the target size.
   * (A target below 1 counts as the one that lies as far above 1.)
   */
  lemma MaskIsNextPowerOfTwo(p: Params)
    ensures exists k: nat :: Mask(p) + 1 == Pow2(k)
    ensures var target := if p.targetSize >= 1 then p.targetSize else 2 - p.targetSize;
            forall k: nat :: Pow2(k) >= target <==> Pow2(k) >= Mask(p) + 1
  {
    var n := if p.targetSize >= 1 then p.targetSize - 1 else 1 - p.targetSize;
    BitLengthBounds(n);
    forall k: nat
      ensures Pow2(k) >= n + 1 <==> Pow2(k) >= Mask(p) + 1
    {
      if k < BitLength(n) {
        Pow2Grows(k, BitLength(n));
      } else {
        Pow2Monotone(BitLength(n), k);
      }
    }
  }

  lemma {:induction false} Pow2Monotone(j: nat, k: nat)
    requires j <= k
    ensures Pow2(j) <= Pow2(k)
    decreases k
  {
    if j < k {
      Pow2Monotone(j, k - 1);
    }
  }

  lemma Pow2Grows(j: nat, k: nat)
    requires j < k
    ensures 2 * Pow2(j) <= Pow2(k)
  {
    Pow2Monotone(j, k - 1);
  }

  lemma {:induction false} AndLowOnes(x: nat, n: nat)
    ensures And(x, Pow2(n) - 1) == x % Pow2(n)
    decreases n
  {
    if n == 0 {
      assert x % 1 == 0;
    } else {
      var half := Pow2(n - 1);
      AndLowOnes(x / 2, n - 1);
      hide And;
      assert Pow2(n) == 2 * half;
      AndUnfold(x, half - 1);
      HalfRemainder(x, half);
    }
  }

  lemma AndUnfold(x: nat, y: nat)
    ensures And(x, 2 * y + 1) == 2 * And(x / 2, y) + x % 2
  {
    assert (2 * y + 1) / 2 == y && (2 * y + 1) % 2 == 1;
  }

  lemma HalfRemainder(x: nat, m: nat)
    requires m > 0
    ensures x % (2 * m) == 2 * ((x / 2) % m) + x % 2
  {
    var q, r := x / 2 / m, x / 2 % m;
    assert x == 2 * (q * m + r) + x % 2;
    assert x == q * (2 * m) + (2 * r + x % 2);
    RemainderIs(x, 2 * m, q, 2 * r + x % 2);
  }

  lemma RemainderIs(x: nat, m: nat, q: nat, r: nat)
    requires r < m && x == q * m + r
    ensures x % m == r
  {
    var d := x / m - q;
    assert x == x / m * m + x % m;
    assert d * m == r - x % m;
    Multiples(d, m);
  }

  lemma Multiples(d: int, m: nat)
    ensures if d > 0 then d * m >= m else if d < 0 then d * m + m <= 0 else d * m == 0
  {
  }

  /** One of every `Mask + 1` fingerprints, evenly spaced, ends a chunk. */
  lemma HitsMagicIff(p: Params, fp: bv64)
    ensures HitsMagic(p, fp) <==> (fp as nat) % (Mask(p) + 1) == Mask(p) / 2
  {
    var t := p.targetSize - 1;
    AndLowOnes(fp as nat, BitLength(if t < 0 then -t else t));
  }

  // ---- where the first cut falls ----

  // `n` is the first length above `k` at which the test fires, or all of `d`.
  ghost predicate CutsFirstAt(p: Params, d: bytes, k: nat, n: nat) {
    && k < n <= |d|
    && (forall j :: k < j < n ==> !IsCut(p, d[..j]))
    && (n == |d| || IsCut(p, d[..n]))
  }

  lemma {:induction false} FirstCutIsFirst(p: Params, d: bytes, k: nat)
    requires k < |d|
    ensures CutsFirstAt(p, d, k, FirstCut(p, d, k))
    decreases |d| - k
  {
    hide IsCut;
    if !IsCut(p, d[..k + 1]) && k + 1 < |d| {
      FirstCutIsFirst(p, d, k + 1);
    }
  }

  lemma {:induction false} FirstCutUnique(p: Params, d: bytes, k: nat, n: nat)
    requires CutsFirstAt(p, d, k, n)
    ensures FirstCut(p, d, k) == n
    decreases n - k
  {
    hide IsCut;
    if k + 1 < n {
      FirstCutUnique(p, d, k + 1, n);
    }
  }

  // ---- partition ----

  lemma ChunksUnfold(p: Params, d: bytes, at: nat)
    requires d != []
    ensures var n := FirstCut(p, d, 0);
            var rest := Chunks(p, d[n..], at + n);
            0 < n <= |d| && Chunks(p, d, at) == [Piece(at, d[..n])] + rest && (rest == [] <==> n == |d|)
  {
    hide IsCut;
  }

  /** The chunks partition the stream: contiguous offsets from `at`, each showing its own bytes. */
  lemma {:induction false} ChunksTile(p: Params, d: bytes, at: nat)
    ensures Tiles(Chunks(p, d, at), d, at)
    ensures Contents(Chunks(p, d, at)) == d
    decreases |d|
  {
    hide IsCut;
    if d != [] {
      var n := FirstCut(p, d, 0);
      ChunksTile(p, d[n..], at + n);
      assert Chunks(p, d, at)[1..] == Chunks(p, d[n..], at + n);
      assert d == d[..n] + d[n..];
    }
  }

  lemma FirstCutBounds(p: Params, d: bytes)
    requires d != []
    ensures var n := FirstCut(p, d, 0); 0 < n <= p.Hi() && n <= |d| && (n < |d| ==> p.Lo() <= n)
  {
    hide HitsMagic;
    if p.Hi() <= |d| {
      assert IsCut(p, d[..p.Hi()]);
    }
    FirstCutIsFirst(p, d, 0);
  }

  /** Every chunk but the last has a length in [lo, hi]; the last has one in [1, hi]. */
  lemma {:induction false} ChunkSizes(p: Params, d: bytes, at: nat)
    ensures var ps := Chunks(p, d, at);
            forall i :: 0 <= i < |ps| ==>
              1 <= |ps[i].data| <= p.Hi() && (i < |ps| - 1 ==> p.Lo() <= |ps[i].data|)
    decreases |d|
  {
    if d == [] {
      assert Chunks(p, d, at) == [];
    } else {
      hide IsCut, Chunks;
      var n := FirstCut(p, d, 0);
      var ps, rest := Chunks(p, d, at), Chunks(p, d[n..], at + n);
      ChunksUnfold(p, d, at);
      FirstCutBounds(p, d);
      ChunkSizes(p, d[n..], at + n);
      forall i | 0 <= i < |ps|
        ensures 1 <= |ps[i].data| <= p.Hi() && (i < |ps| - 1 ==> p.Lo() <= |ps[i].data|)
      {
        if i > 0 {
          assert ps[i] == rest[i - 1];
        }
      }
    }
  }

  /** ceil(n / hi) <= number of chunks <= ceil(n / lo). */
  lemma {:induction false} ChunkCount(p: Params, d: bytes, at: nat)
    ensures var k := |Chunks(p, d, at)|;
            |d| <= k * p.Hi() && (k > 0 ==> (k - 1) * p.Lo() < |d|)
    decreases |d|
  {
    if d != [] {
      var n := FirstCut(p, d, 0);
      ChunksUnfold(p, d, at);
      FirstCutBounds(p, d);
      ChunkCount(p, d[n..], at + n);
      hide Chunks, FirstCut;
      CountStep(|Chunks(p, d[n..], at + n)|, p.Lo(), p.Hi(), n, |d[n..]|);
    }
  }

  lemma CountStep(k: nat, lo: nat, hi: nat, n: nat, rest: nat)
    requires rest <= k * hi && (k > 0 ==> (k - 1) * lo < rest)
    requires 0 < n <= hi && (k > 0 ==> lo <= n)
    ensures n + rest <= (k + 1) * hi && k * lo < n + rest
  {
    assert (k + 1) * hi == k * hi + hi;
    if k > 0 {
      assert k * lo == (k - 1) * lo + lo;
    }
  }

  // ---- content decides ----

  /** The fingerprint of `s`, by its closed form, lies in the one residue class that ends chunks. */
  predicate Selected(p: Params, s: bytes) {
    (ClosedForm(s, |s|) as nat) % (Mask(p) + 1) == Mask(p) / 2
  }

  /** Long enough, and selected or as long as the maximum. */
  predicate Closed(p: Params, s: bytes) {
    |s| >= p.minSize && (|s| >= p.maxSize || Selected(p, s))
  }

  /** No shorter start of `s` is closed. */
  ghost predicate OpenInside(p: Params, s: bytes) {
    forall n :: 1 <= n < |s| ==> !Closed(p, s[..n])
  }

  /** Each chunk is open inside, and closed at its end unless it is the last one. */
  ghost predicate ContentDecides(p: Params, ps: seq<Piece>) {
    forall i :: 0 <= i < |ps| ==> OpenInside(p, ps[i].data) && (i + 1 < |ps| ==> Closed(p, ps[i].data))
  }

  lemma CutIsClosed(p: Params, s: bytes)
    ensures IsCut(p, s) <==> Closed(p, s)
  {
    hide HitsMagic, Mask, Fp, ClosedForm;
    HitsMagicIff(p, Fp(s));
    FpClosedForm(s);
  }

  lemma FirstChunkDecides(p: Params, d: bytes)
    requires d != []
    ensures var n := FirstCut(p, d, 0);
            0 < n <= |d| && OpenInside(p, d[..n]) && (n < |d| ==> Closed(p, d[..n]))
  {
    hide IsCut, Closed, FirstCut;
    var n := FirstCut(p, d, 0);
    FirstCutIsFirst(p, d, 0);
    CutIsClosed(p, d[..n]);
    NoEarlierCut(p, d, n);
  }

  lemma NoEarlierCut(p: Params, d: bytes, n: nat)
    requires n <= |d| && forall j :: 0 < j < n ==> !IsCut(p, d[..j])
    ensures OpenInside(p, d[..n])
  {
    hide IsCut, Closed;
    forall j | 1 <= j < n
      ensures !Closed(p, d[..n][..j])
    {
      assert d[..n][..j] == d[..j];
      CutIsClosed(p, d[..j]);
    }
  }

  lemma {:induction false} ChunksDecided(p: Params, d: bytes, at: nat)
    ensures ContentDecides(p, Chunks(p, d, at))
    decreases |d|
  {
    if d == [] {
      assert Chunks(p, d, at) == [];
    } else {
      hide IsCut, Chunks, OpenInside, Closed, FirstCut;
      var n := FirstCut(p, d, 0);
      ChunksUnfold(p, d, at);
      FirstChunkDecides(p, d);
      ChunksDecided(p, d[n..], at + n);
      var ps, rest := Chunks(p, d, at), Chunks(p, d[n..], at + n);
      forall i | 0 < i < |ps|
        ensures ps[i] == rest[i - 1]
      {
      }
    }
  }

  // A first tile that meets the law ends where the first cut falls.
  lemma FirstTileIsFirstCut(p: Params, d: bytes, n: nat)
    requires 0 < n <= |d| && OpenInside(p, d[..n]) && (n < |d| ==> Closed(p, d[..n]))
    ensures FirstCut(p, d, 0) == n
  {
    hide IsCut, Closed, FirstCut;
    forall j | 0 < j < n
      ensures !IsCut(p, d[..j])
    {
      assert d[..n][..j] == d[..j];
      CutIsClosed(p, d[..j]);
    }
    CutIsClosed(p, d[..n]);
    FirstCutUnique(p, d, 0, n);
  }

  lemma {:induction false} DecidedIsChunks(p: Params, d: bytes, at: nat, ps: seq<Piece>)
    requires Tiles(ps, d, at) && ContentDecides(p, ps)
    ensures ps == Chunks(p, d, at)
    decreases |ps|
  {
    if ps == [] {
      assert Chunks(p, d, at) == [];
    } else {
      var n := |ps[0].data|;
      assert ps[0] == Piece(at, d[..n]) && Tiles(ps[1..], d[n..], at + n);
      assert ps == [ps[0]] + ps[1..];
      assert n < |d| ==> |ps| > 1;
      assert ContentDecides(p, ps[1..]) by { hide OpenInside, Closed; }
      hide OpenInside, Closed, Chunks, ContentDecides, Tiles;
      assert OpenInside(p, d[..n]) && (n < |d| ==> Closed(p, d[..n]));
      FirstTileIsFirstCut(p, d, n);
      ChunksUnfold(p, d, at);
      DecidedIsChunks(p, d[n..], at + n, ps[1..]);
    }
  }

  /**
   * The chunks of a stream are the one way to tile it in which every chunk ends at its first
   * length of at least the minimum that is selected by content or reaches the maximum.
   */
  lemma ChunksIff(p: Params, d: bytes, at: nat, ps: seq<Piece>)
    ensures ps == Chunks(p, d, at) <==> Tiles(ps, d, at) && ContentDecides(p, ps)
  {
    hide Chunks, Tiles, ContentDecides;
    ChunksTile(p, d, at);
    ChunksDecided(p, d, at);
    if Tiles(ps, d, at) && ContentDecides(p, ps) {
      DecidedIsChunks(p, d, at, ps);
    }
  }

  // ---- resynchronisation and append stability ----

  /** Offsets only name positions: they do not influence the cuts. */
  lemma {:induction false} ChunksShift(p: Params, d: bytes, at: nat, delta: nat)
    ensures Chunks(p, d, at + delta) == Shifted(Chunks(p, d, at), delta)
    decreases |d|
  {
    hide IsCut;
    if d != [] {
      ChunksShift(p, d[FirstCut(p, d, 0)..], at + FirstCut(p, d, 0), delta);
    }
  }

  // Where the i-th chunk starts, counted from the start of `d`.
  function CutPosition(p: Params, d: bytes, i: nat): (c: nat)
    ensures c <= |d|
  {
    if i == 0 || d == [] then 0 else
      var n := FirstCut(p, d, 0);
      n + CutPosition(p, d[n..], i - 1)
  }

  // From the i-th cut on, what is left is chunked as a stream of its own.
  ghost predicate ResumesAt(p: Params, d: bytes, at: nat, ps: seq<Piece>, i: nat, c: nat) {
    i < |ps| && c < |d| && ps[i].offset == at + c && ps[i..] == Chunks(p, d[c..], at + c)
  }

  lemma {:induction false} ResumeAtCut(p: Params, d: bytes, at: nat, i: nat)
    requires i < |Chunks(p, d, at)|
    ensures ResumesAt(p, d, at, Chunks(p, d, at), i, CutPosition(p, d, i))
  {
    assert d != [];
    var n := FirstCut(p, d, 0);
    ChunksUnfold(p, d, at);
    assert CutPosition(p, d, i) == if i == 0 then 0 else n + CutPosition(p, d[n..], i - 1);
    hide IsCut, FirstCut, CutPosition, ResumesAt;
    var rest := Chunks(p, d[n..], at + n);
    if i > 0 {
      ResumeAtCut(p, d[n..], at + n, i - 1);
      hide Chunks;
      ResumesOneLater(p, d, at, n, rest, i - 1, CutPosition(p, d[n..], i - 1));
    } else {
      ResumesAtStart(p, d, at);
    }
  }

  lemma ResumesAtStart(p: Params, d: bytes, at: nat)
    requires d != []
    ensures ResumesAt(p, d, at, Chunks(p, d, at), 0, 0)
  {
    ChunksUnfold(p, d, at);
    DropNone(d);
    DropNone(Chunks(p, d, at));
  }

  lemma ResumesOneLater(p: Params, d: bytes, at: nat, n: nat, rest: seq<Piece>, i: nat, c: nat)
    requires n <= |d| && ResumesAt(p, d[n..], at + n, rest, i, c)
    ensures ResumesAt(p, d, at, [Piece(at, d[..n])] + rest, i + 1, n + c)
  {
    hide Chunks;
    DropDrop(d, n, c);
    DropOfCons(Piece(at, d[..n]), rest, i + 1);
  }

  /** Chunking afresh from a produced boundary gives the remaining chunks. */
  lemma ResumeAtBoundary(p: Params, d: bytes, at: nat, i: nat)
    requires i < |Chunks(p, d, at)|
    ensures var b := Chunks(p, d, at)[i].offset;
            at <= b < at + |d| && Chunks(p, d, at)[i..] == Chunks(p, d[b - at..], b)
  {
    ResumeAtCut(p, d, at, i);
  }

  /** Two streams that each have a boundary where their remaining bytes are equal agree from there on. */
  lemma Resynchronise(p: Params, x: bytes, i: nat, y: bytes, j: nat)
    requires i < |Chunks(p, x, 0)| && j < |Chunks(p, y, 0)|
    requires Chunks(p, x, 0)[i].offset <= |x| && Chunks(p, y, 0)[j].offset <= |y|
    requires x[Chunks(p, x, 0)[i].offset..] == y[Chunks(p, y, 0)[j].offset..]
    ensures var a, b := Chunks(p, x, 0)[i..], Chunks(p, y, 0)[j..];
            |a| == |b| && forall k :: 0 <= k < |a| ==>
              a[k].data == b[k].data && a[k].offset + |y| == b[k].offset + |x|
  {
    hide IsCut;
    ResumeAtBoundary(p, x, 0, i);
    ResumeAtBoundary(p, y, 0, j);
    var startX, startY := Chunks(p, x, 0)[i].offset, Chunks(p, y, 0)[j].offset;
    var t := x[startX..];
    ChunksShift(p, t, 0, startX);
    ChunksShift(p, t, 0, startY);
  }

  /** `longer` is `cx` with its last chunk, left open, and the bytes `y` after it chunked again. */
  ghost predicate Extends(p: Params, cx: seq<Piece>, y: bytes, longer: seq<Piece>) {
    cx != [] && var last := cx[|cx| - 1]; longer == cx[..|cx| - 1] + Chunks(p, last.data + y, last.offset)
  }

  /** The chunks of a stream, the last one left open, do not change when bytes are appended. */
  lemma {:induction false} AppendStable(p: Params, x: bytes, y: bytes, at: nat)
    requires x != []
    ensures Extends(p, Chunks(p, x, at), y, Chunks(p, x + y, at))
    decreases |x|
  {
    var n := FirstCut(p, x, 0);
    FirstCutIsFirst(p, x, 0);
    ChunksUnfold(p, x, at);
    hide IsCut, Chunks, FirstCut, Extends;
    var first, rest := Piece(at, x[..n]), Chunks(p, x[n..], at + n);
    if n < |x| {
      AppendStable(p, x[n..], y, at + n);
      FirstCutExtends(p, x, y);
      SplitAppend(x, y, n);
      ChunksUnfold(p, x + y, at);
      ExtendsOneLater(p, first, rest, y, Chunks(p, x[n..] + y, at + n));
    } else {
      TakeAll(x);
      ExtendsOnly(p, first, y);
    }
  }

  lemma ExtendsOnly(p: Params, last: Piece, y: bytes)
    ensures Extends(p, [last] + [], y, Chunks(p, last.data + y, last.offset))
  {
    hide Chunks;
  }

  lemma ExtendsOneLater(p: Params, first: Piece, cx: seq<Piece>, y: bytes, longer: seq<Piece>)
    requires Extends(p, cx, y, longer)
    ensures Extends(p, [first] + cx, y, [first] + longer)
  {
    hide Chunks;
    var last := cx[|cx| - 1];
    FrontOfCons(first, cx, Chunks(p, last.data + y, last.offset));
  }

  // A cut is decided by the bytes before it.
  lemma FirstCutExtends(p: Params, x: bytes, y: bytes)
    requires x != []
    requires IsCut(p, x[..FirstCut(p, x, 0)])
    ensures FirstCut(p, x + y, 0) == FirstCut(p, x, 0)
  {
    hide IsCut;
    var n := FirstCut(p, x, 0);
    FirstCutIsFirst(p, x, 0);
    forall j | 0 < j <= n
      ensures (x + y)[..j] == x[..j]
    {
    }
    assert CutsFirstAt(p, x + y, 0, n);
    FirstCutUnique(p, x + y, 0, n);
  }

  /** `x` ends where the chunker cuts, so its last chunk is closed too. */
  ghost predicate EndsOnCut(p: Params, x: bytes) {
    x == [] || IsCut(p, Chunks(p, x, 0)[|Chunks(p, x, 0)| - 1].data)
  }

  lemma ClosedChunkStandsAlone(p: Params, d: bytes, y: bytes, at: nat)
    requires d != [] && FirstCut(p, d, 0) == |d| && IsCut(p, d)
    ensures Chunks(p, d + y, at) == [Piece(at, d)] + Chunks(p, y, at + |d|)
  {
    hide IsCut;
    assert d[..|d|] == d;
    FirstCutExtends(p, d, y);
    ChunksUnfold(p, d + y, at);
    assert (d + y)[..|d|] == d && (d + y)[|d|..] == y;
  }

  /** After a closed stream the next bytes are chunked as a stream of their own. */
  lemma ChunksAppendClosed(p: Params, x: bytes, y: bytes, at: nat)
    requires EndsOnCut(p, x)
    ensures Chunks(p, x + y, at) == Chunks(p, x, at) + Chunks(p, y, at + |x|)
  {
    if x == [] {
      assert x + y == y;
    } else {
      EndsOnCutAnywhere(p, x, at);
      AppendStable(p, x, y, at);
      LastChunkCutsWhole(p, x, at);
      LastChunkEnds(p, x, at);
      hide FirstCut, IsCut, Chunks;
      var cx := Chunks(p, x, at);
      var last := cx[|cx| - 1];
      ClosedChunkStandsAlone(p, last.data, y, last.offset);
      FrontAndLast(cx, Chunks(p, y, at + |x|));
    }
  }

  lemma EndsOnCutAnywhere(p: Params, x: bytes, at: nat)
    requires EndsOnCut(p, x) && x != []
    ensures Chunks(p, x, at) != [] && IsCut(p, Chunks(p, x, at)[|Chunks(p, x, at)| - 1].data)
  {
    hide IsCut;
    ChunksShift(p, x, 0, at);
  }

  lemma LastChunkEnds(p: Params, x: bytes, at: nat)
    requires x != []
    ensures var cx := Chunks(p, x, at);
            cx != [] && var last := cx[|cx| - 1];
            last.offset + |last.data| == at + |x|
  {
    ChunksUnfold(p, x, at);
    ChunksTile(p, x, at);
    TileAt(Chunks(p, x, at), x, at, |Chunks(p, x, at)| - 1);
  }

  // Chunking the last chunk by itself leaves it whole.
  lemma LastChunkCutsWhole(p: Params, x: bytes, at: nat)
    requires x != []
    ensures var cx := Chunks(p, x, at);
            cx != [] && var d := cx[|cx| - 1].data; d != [] && FirstCut(p, d, 0) == |d| && d[..|d|] == d
  {
    hide IsCut, FirstCut;
    var cx := Chunks(p, x, at);
    assert cx != [];
    var last := cx[|cx| - 1];
    ResumeAtBoundary(p, x, at, |cx| - 1);
    assert cx[|cx| - 1..] == [last];
    var t := x[last.offset - at..];
    var n := FirstCut(p, t, 0);
    assert Chunks(p, t, last.offset) == [Piece(last.offset, t[..n])] + Chunks(p, t[n..], last.offset + n);
    assert |Chunks(p, t[n..], last.offset + n)| == 0;
    assert t[n..] == [] && t[..n] == t;
  }

  /** An edit leaves alone every chunk that was closed before it. */
  lemma EditKeepsEarlierChunks(p: Params, x: bytes, u: bytes, v: bytes, k: nat)
    requires x != [] && k < |Chunks(p, x, 0)| - 1
    ensures k < |Chunks(p, x + u, 0)| && k < |Chunks(p, x + v, 0)|
    ensures Chunks(p, x + u, 0)[k] == Chunks(p, x + v, 0)[k]
  {
    hide IsCut;
    AppendStable(p, x, u, 0);
    AppendStable(p, x, v, 0);
  }

  // ---- uniform runs ----

  // The first cut of a run of one byte depends only on whether the run is long enough.
  lemma RunCut(p: Params, b: byte, long: nat, n: nat)
    requires 0 < n <= long
    ensures FirstCut(p, Fill(b, n), 0) == Min(n, FirstCut(p, Fill(b, long), 0))
  {
    hide IsCut;
    var c := FirstCut(p, Fill(b, long), 0);
    FirstCutIsFirst(p, Fill(b, long), 0);
    forall j | 0 < j <= n
      ensures Fill(b, n)[..j] == Fill(b, long)[..j]
    {
    }
    assert CutsFirstAt(p, Fill(b, n), 0, Min(n, c));
    FirstCutUnique(p, Fill(b, n), 0, Min(n, c));
  }

  /** Whatever its length, a disk of one repeated byte has at most two distinct chunks. */
  lemma {:induction false} UniformDiskChunks(p: Params, b: byte, long: nat, n: nat, at: nat)
    requires n <= long
    ensures var ps, size := Chunks(p, Fill(b, n), at), FirstCut(p, Fill(b, long), 0);
            && (forall i :: 0 <= i < |ps| - 1 ==> ps[i].data == Fill(b, size))
            && (ps != [] ==> |ps[|ps| - 1].data| <= size && ps[|ps| - 1].data == Fill(b, |ps[|ps| - 1].data|))
    decreases n
  {
    if n == 0 {
      assert Chunks(p, Fill(b, n), at) == [];
    } else {
      hide Chunks, FirstCut;
      var k := Min(n, FirstCut(p, Fill(b, long), 0));
      UniformHead(p, b, long, n, at);
      UniformDiskChunks(p, b, long, n - k, at + k);
    }
  }

  lemma UniformHead(p: Params, b: byte, long: nat, n: nat, at: nat)
    requires 0 < n <= long
    ensures var size := FirstCut(p, Fill(b, long), 0);
            var k := Min(n, size);
            var rest := Chunks(p, Fill(b, n - k), at + k);
            && 0 < k
            && Chunks(p, Fill(b, n), at) == [Piece(at, Fill(b, k))] + rest
            && (rest == [] <==> n == k)
  {
    hide IsCut;
    var k := FirstCut(p, Fill(b, n), 0);
    RunCut(p, b, long, n);
    ChunksUnfold(p, Fill(b, n), at);
    assert Fill(b, n)[k..] == Fill(b, n - k) && Fill(b, n)[..k] == Fill(b, k);
  }

  /** A disk of one byte is one chunk under any settings. */
  lemma OneByteDisk(p: Params, b: byte)
    ensures Chunks(p, [b], 0) == [Piece(0, [b])]
  {
    hide IsCut;
    assert FirstCut(p, [b], 0) == 1;
    assert [b][..1] == [b] && [b][1..] == [];
  }
}
