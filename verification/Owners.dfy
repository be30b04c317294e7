/** Who holds references: one entry for every backup ever started, and the sum of their claims. */
module Owners {
  import opened Bytes
  import opened Codec
  import opened Chunker
  import opened StoreSpec
  import opened Restore

  /**
   * `Looking` to `FileWritten` are the suspension points of a write: before the index lookup of
   * the next chunk, after a hit, after a miss, after the file is in place.  A finished write is
   * a `Live` manifest until its release starts; `Dead` is a call that will never go on.
   */
  datatype Phase = Looking | Found | Missed | FileWritten | Live | Releasing | Dead

  /** A backup of `data` that holds one reference on each of its pieces from `lo` to `hi`. */
  datatype Owner = Owner(data: bytes, lo: nat, hi: nat, phase: Phase)

  function Pieces(p: Params, o: Owner): seq<Piece> {
    Chunks(p, o.data, 0)
  }

  predicate MidChunk(o: Owner) {
    o.phase in {Found, Missed, FileWritten}
  }

  ghost predicate WellFormed(p: Params, chunks: set<bytes>, o: Owner) {
    var n := |Pieces(p, o)|;
    && PiecesIn(Pieces(p, o), chunks)
    && o.lo <= o.hi <= n
    && (o.phase == Looking || MidChunk(o) || o.phase == Live ==> o.lo == 0)
    && (MidChunk(o) ==> o.hi < n)
    && (o.phase == Live || o.phase == Releasing ==> o.hi == n)
  }

  function Claim(c: Codec, p: Params, o: Owner): multiset<Hash> {
    if o.lo <= o.hi <= |Pieces(p, o)| then Held(c, Pieces(p, o), o.lo, o.hi) else multiset{}
  }

  /** All references that should be counted in the index. */
  function Claims(c: Codec, p: Params, os: seq<Owner>): multiset<Hash> {
    if os == [] then multiset{} else Claims(c, p, os[..|os| - 1]) + Claim(c, p, os[|os| - 1])
  }

  /** The references of the manifests that have not been released. */
  function LiveClaims(c: Codec, p: Params, os: seq<Owner>): multiset<Hash> {
    if os == [] then multiset{} else
      var o := os[|os| - 1];
      LiveClaims(c, p, os[..|os| - 1]) + (if o.phase == Live then Claim(c, p, o) else multiset{})
  }

  lemma ClaimsAppend(c: Codec, p: Params, os: seq<Owner>, o: Owner)
    ensures Claims(c, p, os + [o]) == Claims(c, p, os) + Claim(c, p, o)
  {
    assert (os + [o])[..|os|] == os;
  }

  lemma {:induction false} ClaimsUpdate(c: Codec, p: Params, os: seq<Owner>, i: nat, o: Owner)
    requires i < |os|
    ensures Claims(c, p, os[i := o]) + Claim(c, p, os[i]) == Claims(c, p, os) + Claim(c, p, o)
  {
    hide Claim;
    var k := |os| - 1;
    if i < k {
      var a, b := Claims(c, p, os[..k]), Claims(c, p, os[..k][i := o]);
      assert os[i := o][..k] == os[..k][i := o];
      ClaimsUpdate(c, p, os[..k], i, o);
      assert (b + Claim(c, p, os[k])) + Claim(c, p, os[i]) == (b + Claim(c, p, os[i])) + Claim(c, p, os[k]);
      assert (a + Claim(c, p, os[k])) + Claim(c, p, o) == (a + Claim(c, p, o)) + Claim(c, p, os[k]);
    } else {
      assert os[i := o][..k] == os[..k];
    }
  }

  lemma {:induction false} ClaimWithin(c: Codec, p: Params, os: seq<Owner>, i: nat)
    requires i < |os|
    ensures Claim(c, p, os[i]) <= Claims(c, p, os)
  {
    hide Claim;
    if i < |os| - 1 {
      ClaimWithin(c, p, os[..|os| - 1], i);
    }
  }

  // The reference on piece `k` is part of what its holder claims.
  lemma ClaimsPiece(c: Codec, p: Params, os: seq<Owner>, i: nat, k: nat)
    requires i < |os| && os[i].lo <= k < os[i].hi <= |Pieces(p, os[i])|
    ensures c.hash(Pieces(p, os[i])[k].data) in Claims(c, p, os)
  {
    var o := os[i];
    var held := Hashes(c, Pieces(p, o))[o.lo..o.hi];
    assert held[k - o.lo] == c.hash(Pieces(p, o)[k].data);
    assert c.hash(Pieces(p, o)[k].data) in Claim(c, p, o);
    ClaimWithin(c, p, os, i);
  }

  /** Live manifests claim at most everything, and exactly everything when nothing died or is half released. */
  lemma {:induction false} LiveClaimsBound(c: Codec, p: Params, os: seq<Owner>)
    ensures LiveClaims(c, p, os) <= Claims(c, p, os)
    ensures (forall i :: 0 <= i < |os| ==> os[i].phase == Live || os[i].lo == os[i].hi)
            ==> LiveClaims(c, p, os) == Claims(c, p, os)
  {
    if os != [] {
      LiveClaimsBound(c, p, os[..|os| - 1]);
    }
  }
}
