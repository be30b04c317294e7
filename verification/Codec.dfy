/** Hashing and compression: the parts of the store that the model takes as given functions. */
module Codec {
  import opened Bytes

  type Hash = string

  /**
   * `hash` is the SHA-256 hex digest, `lz4` and `unlz4` the frame functions (`None`: the
   * decoder raises), `enabled` the store's `compress` flag.  A host without the lz4 package
   * is `lz4 := x => x, unlz4 := _ => None`.
   */
  datatype Codec = Codec(hash: bytes -> Hash, lz4: bytes -> bytes, unlz4: bytes -> Option<bytes>, enabled: bool)

  /** What the store writes for the chunk `d`: the shorter of chunk and frame, and never a frame without the flag. */
  function Payload(c: Codec, d: bytes): (r: bytes)
    ensures |r| <= |d| && (c.enabled ==> |r| <= |c.lz4(d)|)
    ensures r == d || (c.enabled && r == c.lz4(d) && |r| < |d|)
  {
    if c.enabled && |c.lz4(d)| < |d| then c.lz4(d) else d
  }

  /** `_decompress`: bytes that do not decode are taken to be raw. */
  function Decompress(c: Codec, raw: bytes): bytes {
    match c.unlz4(raw)
    case Some(d) => d
    case None => raw
  }

  /** Decoding a frame that the encoder made gives back its input. */
  ghost predicate Lz4Inverse(c: Codec, chunks: set<bytes>) {
    forall d :: d in chunks ==> c.unlz4(c.lz4(d)) == Some(d)
  }

  // `d` is stored as it is, and the bytes happen to decode as a frame of something else.
  predicate RawIsFrame(c: Codec, d: bytes) {
    Payload(c, d) == d && c.unlz4(d).Some? && c.unlz4(d).value != d
  }

  ghost predicate NoCollisions(c: Codec, chunks: set<bytes>) {
    forall a, b :: a in chunks && b in chunks && c.hash(a) == c.hash(b) ==> a == b
  }

  /** What the store needs of its codec on the chunks that are ever written. */
  ghost predicate Sound(c: Codec, chunks: set<bytes>) {
    && NoCollisions(c, chunks)
    && Lz4Inverse(c, chunks)
    && forall d :: d in chunks ==> !RawIsFrame(c, d)
  }

  /** A chunk reads back as written exactly when it is not a raw-stored chunk that decodes as a frame. */
  lemma ReadBackIff(c: Codec, d: bytes)
    requires Lz4Inverse(c, {d})
    ensures Decompress(c, Payload(c, d)) == d <==> !RawIsFrame(c, d)
  {
    assert d in {d};
  }

  // A two-byte codec in which [1, 7] is the frame of [7].
  function ToyCodec(enabled: bool): Codec {
    Codec(d => seq(|d|, i => 'x'),
          (d: bytes) => [1] + d,
          (f: bytes) => if |f| > 0 && f[0] == 1 then Some(f[1..]) else None,
          enabled)
  }

  /** With compression on or off, a disk block that is itself a frame comes back decoded. */
  lemma RawFrameIsCorrupted(enabled: bool)
    ensures var c := ToyCodec(enabled);
            Lz4Inverse(c, {[1, 7]}) && Decompress(c, Payload(c, [1, 7])) == [7]
  {
    var c := ToyCodec(enabled);
    var d: bytes := [1, 7];
    assert c.lz4(d) == [1, 1, 7] && c.lz4(d)[1..] == d;
    assert Payload(c, d) == d && d[1..] == [7];
  }
}
