/** The content-defined chunker: the hot loop, its specification, and what the cuts guarantee. */
module Chunker {
  import opened Bytes
  import opened Fingerprint

  /** The three size settings; nothing is demanded of them. */
  datatype Params = Params(minSize: int, targetSize: int, maxSize: int) {
    // The shortest and the longest chunk that the loop can cut under these settings.
    function Lo(): nat { if minSize > 1 then minSize else 1 }
    function Hi(): nat { if maxSize > Lo() then maxSize else Lo() }
  }

  datatype Piece = Piece(offset: nat, data: bytes)

  function BitLength(n: nat): nat {
    if n == 0 then 0 else 1 + BitLength(n / 2)
  }

  function Pow2(n: nat): (r: nat)
    ensures r > 0
  {
    if n == 0 then 1 else 2 * Pow2(n - 1)
  }

  // `(1 << (target_size - 1).bit_length()) - 1`; Python takes the bit length of the magnitude.
  function Mask(p: Params): nat {
    var t := p.targetSize - 1;
    Pow2(BitLength(if t < 0 then -t else t)) - 1
  }

  // `mask >> 1`
  function Magic(p: Params): nat {
    Mask(p) / 2
  }

  // Python's `&` on integers of any width.
  function And(x: nat, y: nat): nat {
    if x == 0 || y == 0 then 0 else 2 * And(x / 2, y / 2) + (x % 2) * (y % 2)
  }

  // `(fp & mask) == magic`
  predicate HitsMagic(p: Params, fp: bv64) {
    And(fp as nat, Mask(p)) == Magic(p)
  }

  /** The cut test of the loop for a chunk that has grown to `s`. */
  predicate IsCut(p: Params, s: bytes) {
    |s| >= p.minSize && (HitsMagic(p, Fp(s)) || |s| >= p.maxSize)
  }

  // Length of the first chunk of `d`, given that no length up to `k` is a cut.
  function FirstCut(p: Params, d: bytes, k: nat): (n: nat)
    requires k <= |d|
    ensures k <= n <= |d| && (k < |d| ==> k < n)
    decreases |d| - k
  {
    if k == |d| then k
    else if IsCut(p, d[..k + 1]) then k + 1
    else FirstCut(p, d, k + 1)
  }

  /** The chunks of `d`, whose first byte lies at `at` in the stream. */
  function Chunks(p: Params, d: bytes, at: nat): seq<Piece>
    decreases |d|
  {
    if d == [] then [] else
      var n := FirstCut(p, d, 0);
      [Piece(at, d[..n])] + Chunks(p, d[n..], at + n)
  }

  // ---- the loop ----

  // The ring buffer after the bytes `s` since the last reset, `wPos` being the next slot.
  ghost predicate RingHolds(window: seq<byte>, wPos: nat, s: bytes) {
    && |window| == WINDOW_SIZE
    && wPos == |s| % WINDOW_SIZE
    && (forall i :: 0 <= i < |s| && i + WINDOW_SIZE >= |s| ==> window[i % WINDOW_SIZE] == s[i])
    && (forall j :: |s| <= j < WINDOW_SIZE ==> window[j] == 0)
  }

  lemma RingStep(window: seq<byte>, wPos: nat, s: bytes, b: byte)
    requires RingHolds(window, wPos, s)
    ensures window[wPos] == Evicted(s)
    ensures RingHolds(window[wPos := b], (wPos + 1) % WINDOW_SIZE, s + [b])
  {
    if |s| >= WINDOW_SIZE {
      assert window[(|s| - WINDOW_SIZE) % WINDOW_SIZE] == s[|s| - WINDOW_SIZE];
    }
  }

  lemma RingStart(window: seq<byte>)
    requires |window| == WINDOW_SIZE && forall j :: 0 <= j < WINDOW_SIZE ==> window[j] == 0
    ensures RingHolds(window, 0, [])
  {
  }

  // One more byte in the open chunk that started at `start`.
  lemma GrowChunk(p: Params, data: bytes, start: nat, pos: nat)
    requires start <= pos < |data|
    requires FirstCut(p, data[start..], 0) == FirstCut(p, data[start..], pos - start)
    ensures var chunk, longer := data[start..pos], data[start..pos + 1];
            && longer == chunk + [data[pos]]
            && Fp(longer) == Slide(Fp(chunk), Evicted(chunk), data[pos])
            && if IsCut(p, longer)
               then Chunks(p, data[start..], start) == [Piece(start, longer)] + Chunks(p, data[pos + 1..], pos + 1)
               else FirstCut(p, data[start..], 0) == FirstCut(p, data[start..], pos + 1 - start)
  {
    hide Slide, IsCut;
    var longer := data[start..pos + 1];
    assert longer[..|longer| - 1] == data[start..pos];
    assert data[start..][..pos + 1 - start] == longer;
    assert data[start..][pos + 1 - start..] == data[pos + 1..];
  }

  // The open chunk that is left when the data runs out.
  lemma LeftoverChunk(p: Params, data: bytes, start: nat)
    requires start <= |data|
    requires FirstCut(p, data[start..], 0) == FirstCut(p, data[start..], |data| - start)
    ensures Chunks(p, data[start..], start) == if start < |data| then [Piece(start, data[start..])] else []
  {
    hide IsCut;
    var d := data[start..];
    assert d[..|d|] == d && d[|d|..] == [];
  }

  method RabinCdcChunks(data: bytes, p: Params, out: array<bv64>) returns (pieces: seq<Piece>)
    requires TableReady(out)
    ensures pieces == Chunks(p, data, 0)
  {
    hide OutEntry, Xor64, Rotate, Widen, Fp, FirstCut, Chunks, RingHolds, And, Mask, Magic, Evicted;
    pieces := [];
    var mask, magic := Mask(p), Magic(p);
    var pos, chunkStart := 0, 0;
    var window := new byte[WINDOW_SIZE](_ => 0);
    var wPos: nat := 0;
    var fp: bv64 := 0;
    RingStart(window[..]);
    FpEmpty(data, 0);
    assert data[0..] == data;
    while pos < |data|
      invariant 0 <= chunkStart <= pos <= |data|
      invariant fresh(window) && window.Length == WINDOW_SIZE && wPos < WINDOW_SIZE
      invariant RingHolds(window[..], wPos, data[chunkStart..pos])
      invariant fp == Fp(data[chunkStart..pos])
      invariant Chunks(p, data, 0) == pieces + Chunks(p, data[chunkStart..], chunkStart)
      invariant FirstCut(p, data[chunkStart..], 0) == FirstCut(p, data[chunkStart..], pos - chunkStart)
    {
      ghost var chunk := data[chunkStart..pos];
      var b := data[pos];
      GrowChunk(p, data, chunkStart, pos);
      RingStep(window[..], wPos, chunk, b);
      var outgoing := window[wPos];
      fp := Xor64(Rotate(Xor64(fp, out[outgoing as int])), Widen(b));
      ghost var before := window[..];
      window[wPos] := b;
      assert window[..] == before[wPos := b];
      wPos := (wPos + 1) % WINDOW_SIZE;
      pos := pos + 1;
      var chunkLen := pos - chunkStart;
      if chunkLen < p.minSize {
        continue;
      }
      if And(fp as nat, mask) == magic || chunkLen >= p.maxSize {
        pieces := pieces + [Piece(chunkStart, data[chunkStart..pos])];
        chunkStart := pos;
        window := new byte[WINDOW_SIZE](_ => 0);
        wPos := 0;
        fp := 0;
        RingStart(window[..]);
        FpEmpty(data, pos);
      }
    }
    LeftoverChunk(p, data, chunkStart);
    if chunkStart < |data| {
      pieces := pieces + [Piece(chunkStart, data[chunkStart..])];
    }
  }

  lemma FpEmpty(data: bytes, pos: nat)
    requires pos <= |data|
    ensures data[pos..pos] == [] && Fp([]) == 0
  {
  }
}
