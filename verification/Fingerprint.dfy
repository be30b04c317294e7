/**
 * The rolling fingerprint of the chunker: its table, one slide step, its closed form.
 *
 * Words are 64-bit vectors: the loop masks `fp` to 64 bits and every table entry fits, so the
 * unbounded integers of the program never hold more.  `Xor64` and `Rotate` carry names so that
 * the proofs can work with their algebra and leave the bits to the few lemmas marked below.
 */
module Fingerprint {
  import opened Bytes

  const WINDOW_SIZE: nat := 48
  const POLY: bv64 := 0x3DA3358B4DC173

  function Xor64(x: bv64, y: bv64): bv64 {
    x ^ y
  }

  function Rotate(x: bv64): bv64 {
    (x << 1) | (x >> 63)
  }

  function RotateBy(x: bv64, n: nat): bv64 {
    if n == 0 then x else Rotate(RotateBy(x, n - 1))
  }

  function Tap(x: bv64): bv64 {
    if x & 1 == 1 then POLY else 0
  }

  function Halve(x: bv64): bv64 {
    x >> 1
  }

  // One step of the linear shift register that fills the table.
  function ShiftOnce(x: bv64): bv64 {
    Xor64(Halve(x), Tap(x))
  }

  function ShiftTimes(x: bv64, n: nat): bv64 {
    if n == 0 then x else ShiftOnce(ShiftTimes(x, n - 1))
  }

  function Widen(b: byte): bv64 {
    b as bv64
  }

  function OutEntry(b: byte): bv64 {
    ShiftTimes(Widen(b), 8)
  }

  // What one iteration of the hot loop does to `fp`.
  function Slide(fp: bv64, outgoing: byte, incoming: byte): bv64 {
    Xor64(Rotate(Xor64(fp, OutEntry(outgoing))), Widen(incoming))
  }

  // The byte that a window filled with `s` since the last reset gives up next.
  function Evicted(s: bytes): byte {
    if |s| >= WINDOW_SIZE then s[|s| - WINDOW_SIZE] else 0
  }

  /** The fingerprint after the bytes `s` since the last cut. */
  function Fp(s: bytes): bv64 {
    if s == [] then 0 else
      var p := s[..|s| - 1];
      Slide(Fp(p), Evicted(p), s[|s| - 1])
  }

  ghost predicate TableReady(out: array<bv64>)
    reads out
  {
    out.Length == 256 && forall b: byte :: out[b as int] == OutEntry(b)
  }

  method InitTables() returns (out: array<bv64>)
    ensures fresh(out) && TableReady(out)
  {
    hide ShiftOnce;
    out := new bv64[256](_ => 0);
    var i := 0;
    while i < 256
      invariant 0 <= i <= 256
      invariant forall b: byte :: (b as int) < i ==> out[b as int] == OutEntry(b)
    {
      var entry := i as byte;
      out[i] := Widen(entry);
      var r := 0;
      while r < 8
        invariant 0 <= r <= 8
        invariant out[i] == ShiftTimes(Widen(entry), r)
        invariant forall b: byte :: (b as int) < i ==> out[b as int] == OutEntry(b)
      {
        out[i] := ShiftOnce(out[i]);
        r := r + 1;
      }
      forall b: byte | (b as int) < i + 1
        ensures out[b as int] == OutEntry(b)
      {
        if b as int == i {
          assert b == entry;
        }
      }
      i := i + 1;
    }
  }

  // ---- facts about bits ----

  lemma XorLaws(x: bv64, y: bv64, z: bv64, w: bv64)
    ensures Xor64(x, 0) == x && Xor64(0, x) == x
    ensures Xor64(x, y) == 0 <==> x == y
    ensures Xor64(Xor64(x, y), Xor64(z, w)) == Xor64(Xor64(x, z), Xor64(y, w))
  {
    XorZero(x);
    XorEqual(x, y);
    XorRegroup(x, y, z, w);
    hide Xor64;
  }

  lemma XorZero(x: bv64)
    ensures Xor64(x, 0) == x && Xor64(0, x) == x
  {
  }

  lemma XorEqual(x: bv64, y: bv64)
    ensures Xor64(x, y) == 0 <==> x == y
  {
    hide Xor64;
    XorSelf(y);
    XorAssociative(x, y, y);
    XorZero(x);
    XorZero(y);
  }

  lemma XorSelf(x: bv64)
    ensures Xor64(x, x) == 0
  {
  }

  lemma XorRegroup(x: bv64, y: bv64, z: bv64, w: bv64)
    ensures Xor64(Xor64(x, y), Xor64(z, w)) == Xor64(Xor64(x, z), Xor64(y, w))
  {
    hide Xor64;
    XorAssociative(x, y, Xor64(z, w));
    XorAssociative(y, z, w);
    XorCommutative(y, z);
    XorAssociative(z, y, w);
    XorAssociative(x, z, Xor64(y, w));
  }

  lemma XorCommutative(x: bv64, y: bv64)
    ensures Xor64(x, y) == Xor64(y, x)
  {
  }

  lemma XorAssociative(x: bv64, y: bv64, z: bv64)
    ensures Xor64(Xor64(x, y), z) == Xor64(x, Xor64(y, z))
  {
  }

  lemma RotateXor(x: bv64, y: bv64)
    ensures Rotate(Xor64(x, y)) == Xor64(Rotate(x), Rotate(y))
  {
  }

  lemma RotateZero(x: bv64)
    ensures Rotate(x) == 0 <==> x == 0
  {
  }

  lemma ShiftOnceXor(x: bv64, y: bv64)
    ensures ShiftOnce(Xor64(x, y)) == Xor64(ShiftOnce(x), ShiftOnce(y))
  {
    hide Xor64, Halve, Tap;
    HalveXor(x, y);
    TapXor(x, y);
    XorRegroup(Halve(x), Halve(y), Tap(x), Tap(y));
  }

  lemma HalveXor(x: bv64, y: bv64)
    ensures Halve(Xor64(x, y)) == Xor64(Halve(x), Halve(y))
  {
  }

  lemma TapXor(x: bv64, y: bv64)
    ensures Tap(Xor64(x, y)) == Xor64(Tap(x), Tap(y))
  {
  }

  lemma WidenXor(a: byte, b: byte)
    ensures Widen(a ^ b) == Xor64(Widen(a), Widen(b))
    ensures Widen(a) == 0 <==> a == 0
  {
  }

  /** The program's rotation, on wider words and masked to 64 bits, is the rotation of 64-bit words. */
  lemma MaskedRotation(x: bv64)
    ensures var w := x as bv72; ((w << 1) | (w >> 63)) & 0xFFFF_FFFF_FFFF_FFFF == Rotate(x) as bv72
  {
  }

  // ---- linearity over GF(2) ----

  lemma {:induction false} RotateByXor(x: bv64, y: bv64, n: nat)
    ensures RotateBy(Xor64(x, y), n) == Xor64(RotateBy(x, n), RotateBy(y, n))
  {
    hide Rotate, Xor64;
    if n > 0 {
      RotateByXor(x, y, n - 1);
      RotateXor(RotateBy(x, n - 1), RotateBy(y, n - 1));
    }
  }

  lemma {:induction false} RotateByAdd(x: bv64, m: nat, n: nat)
    ensures RotateBy(RotateBy(x, m), n) == RotateBy(x, m + n)
  {
    hide Rotate;
    if n > 0 {
      RotateByAdd(x, m, n - 1);
    }
  }

  lemma {:induction false} RotateByZero(x: bv64, n: nat)
    ensures RotateBy(x, n) == 0 <==> x == 0
  {
    hide Rotate;
    if n > 0 {
      RotateByZero(x, n - 1);
      RotateZero(RotateBy(x, n - 1));
    }
  }

  lemma {:induction false} ShiftTimesXor(x: bv64, y: bv64, n: nat)
    ensures ShiftTimes(Xor64(x, y), n) == Xor64(ShiftTimes(x, n), ShiftTimes(y, n))
  {
    hide ShiftOnce, Xor64;
    if n > 0 {
      ShiftTimesXor(x, y, n - 1);
      ShiftOnceXor(ShiftTimes(x, n - 1), ShiftTimes(y, n - 1));
    }
  }

  /** The table is linear because the register that fills it is. */
  lemma OutEntryXor(a: byte, b: byte)
    ensures OutEntry(a ^ b) == Xor64(OutEntry(a), OutEntry(b))
  {
    hide ShiftTimes, Widen, Xor64;
    WidenXor(a, b);
    ShiftTimesXor(Widen(a), Widen(b), 8);
  }

  lemma OutEntryZero()
    ensures OutEntry(0) == 0
  {
    hide OutEntry, Xor64;
    OutEntryXor(0, 0);
    XorLaws(OutEntry(0), OutEntry(0), 0, 0);
  }

  lemma XorBytes(a: byte, b: byte)
    ensures a ^ b == 0 <==> a == b
  {
  }

  function Xor(a: bytes, b: bytes): (c: bytes)
    requires |a| == |b|
    ensures |c| == |a| && forall i :: 0 <= i < |a| ==> c[i] == a[i] ^ b[i]
  {
    seq(|a|, i requires 0 <= i < |a| => a[i] ^ b[i])
  }

  lemma SlideXor(f: bv64, g: bv64, o: byte, q: byte, a: byte, b: byte)
    ensures Slide(Xor64(f, g), o ^ q, a ^ b) == Xor64(Slide(f, o, a), Slide(g, q, b))
  {
    hide OutEntry, Rotate, Xor64, Widen;
    OutEntryXor(o, q);
    WidenXor(a, b);
    XorLaws(f, g, OutEntry(o), OutEntry(q));
    RotateXor(Xor64(f, OutEntry(o)), Xor64(g, OutEntry(q)));
    XorLaws(Rotate(Xor64(f, OutEntry(o))), Rotate(Xor64(g, OutEntry(q))), Widen(a), Widen(b));
  }

  /** The fingerprint of the difference of two streams is the difference of their fingerprints. */
  lemma {:induction false} FpLinear(a: bytes, b: bytes)
    requires |a| == |b|
    ensures Fp(Xor(a, b)) == Xor64(Fp(a), Fp(b))
  {
    hide Slide, Xor64;
    if a == [] {
      XorLaws(0, 0, 0, 0);
    } else {
      var n := |a| - 1;
      var c := Xor(a, b);
      assert c[..n] == Xor(a[..n], b[..n]);
      FpLinear(a[..n], b[..n]);
      EvictedXor(a[..n], b[..n]);
      SlideXor(Fp(a[..n]), Fp(b[..n]), Evicted(a[..n]), Evicted(b[..n]), a[n], b[n]);
    }
  }

  lemma EvictedXor(a: bytes, b: bytes)
    requires |a| == |b|
    ensures Evicted(Xor(a, b)) == Evicted(a) ^ Evicted(b)
  {
  }

  // ---- closed form ----

  /** What a byte that entered `age` slides ago still contributes to the fingerprint. */
  function Trace(b: byte, age: nat): bv64 {
    if age < 48 then RotateBy(Widen(b), age)
    else Xor64(RotateBy(Widen(b), age), RotateBy(OutEntry(b), age - 47))
  }

  /** The xor of the traces of the first `n` bytes of `s`. */
  function ClosedForm(s: bytes, n: nat): bv64
    requires n <= |s|
  {
    if n == 0 then 0 else Xor64(ClosedForm(s, n - 1), Trace(s[n - 1], |s| - n))
  }

  // The table entry that a slide mixes in for a byte that is `age` slides old.
  function Eviction(b: byte, age: nat): bv64 {
    if age + 1 == WINDOW_SIZE then OutEntry(b) else 0
  }

  lemma TraceStep(b: byte, age: nat)
    ensures Trace(b, age + 1) == Rotate(Xor64(Trace(b, age), Eviction(b, age)))
  {
    hide OutEntry, Rotate, Xor64, Widen;
    var x := RotateBy(Widen(b), age);
    XorLaws(Trace(b, age), 0, 0, 0);
    if age + 1 == WINDOW_SIZE {
      RotateXor(x, OutEntry(b));
      assert RotateBy(OutEntry(b), 1) == Rotate(RotateBy(OutEntry(b), 0));
    } else if age >= WINDOW_SIZE {
      RotateXor(x, RotateBy(OutEntry(b), age - WINDOW_SIZE + 1));
    }
  }

  // The table entry mixed in by the slide after `p`, if its byte is among the first `n`.
  function EvictionOf(p: bytes, n: nat): bv64
    requires n <= |p|
  {
    if 0 <= |p| - WINDOW_SIZE < n then OutEntry(p[|p| - WINDOW_SIZE]) else 0
  }

  lemma {:induction false} ClosedFormStep(p: bytes, b: byte, n: nat)
    requires n <= |p|
    ensures ClosedForm(p + [b], n) == Rotate(Xor64(ClosedForm(p, n), EvictionOf(p, n)))
  {
    hide Trace, Rotate, OutEntry, Xor64;
    if n == 0 {
      XorLaws(0, 0, 0, 0);
      RotateZero(0);
    } else {
      var c, t := ClosedForm(p, n - 1), Trace(p[n - 1], |p| - n);
      var o, u := EvictionOf(p, n - 1), Eviction(p[n - 1], |p| - n);
      ClosedFormStep(p, b, n - 1);
      TraceStep(p[n - 1], |p| - n);
      assert (p + [b])[n - 1] == p[n - 1];
      RotateXor(Xor64(c, o), Xor64(t, u));
      XorLaws(c, t, o, u);
      XorLaws(o, u, 0, 0);
      XorLaws(u, 0, 0, 0);
      assert EvictionOf(p, n) == Xor64(o, u);
    }
  }

  /** The loop's fingerprint is the xor, over all bytes since the cut, of the traces they left. */
  lemma {:induction false} FpClosedForm(s: bytes)
    ensures Fp(s) == ClosedForm(s, |s|)
  {
    hide OutEntry, Rotate, Xor64, Widen;
    if s != [] {
      var p, b := s[..|s| - 1], s[|s| - 1];
      assert s == p + [b];
      FpClosedForm(p);
      ClosedFormStep(p, b, |p|);
      OutEntryZero();
      assert Trace(b, 0) == Widen(b);
    }
  }

  // ---- the window never forgets ----

  lemma {:induction false} ClosedFormSingle(s: bytes, at: nat, n: nat)
    requires at < |s| && n <= |s|
    requires forall i :: 0 <= i < |s| && i != at ==> s[i] == 0
    ensures ClosedForm(s, n) == if at < n then Trace(s[at], |s| - 1 - at) else 0
  {
    hide Trace, Xor64;
    if n > 0 {
      ClosedFormSingle(s, at, n - 1);
      if n - 1 != at {
        TraceZero(0, |s| - n);
      }
      XorLaws(ClosedForm(s, n - 1), 0, 0, 0);
      XorLaws(Trace(s[n - 1], |s| - n), 0, 0, 0);
    }
  }

  function Rotate8(x: bv64): bv64 {
    (x << 8) | (x >> 56)
  }

  lemma RotateByEight(x: bv64)
    ensures RotateBy(x, 8) == Rotate8(x)
  {
    hide Rotate, Rotate8;
    RotateByFour(x);
    RotateByFour(RotateBy(x, 4));
    RotateByAdd(x, 4, 4);
    RotateEightTimes(x);
  }

  lemma RotateEightTimes(x: bv64)
    ensures Rotate(Rotate(Rotate(Rotate(Rotate(Rotate(Rotate(Rotate(x)))))))) == Rotate8(x)
  {
  }

  lemma RotateByFour(x: bv64)
    ensures RotateBy(x, 4) == Rotate(Rotate(Rotate(Rotate(x))))
  {
    hide Rotate;
    assert RotateBy(x, 1) == Rotate(RotateBy(x, 0));
    assert RotateBy(x, 3) == Rotate(RotateBy(x, 2));
  }

  lemma ShiftTimesEight(x: bv64)
    ensures ShiftTimes(x, 8) == ShiftOnce(ShiftOnce(ShiftOnce(ShiftOnce(ShiftOnce(ShiftOnce(ShiftOnce(ShiftOnce(x))))))))
  {
    hide ShiftOnce;
    assert ShiftTimes(x, 1) == ShiftOnce(ShiftTimes(x, 0));
    assert ShiftTimes(x, 3) == ShiftOnce(ShiftTimes(x, 2));
    assert ShiftTimes(x, 5) == ShiftOnce(ShiftTimes(x, 4));
    assert ShiftTimes(x, 7) == ShiftOnce(ShiftTimes(x, 6));
  }

  // The table entries of single bits from the register's steps.
  lemma OutEntryFrom(b: byte, x: bv64, n: nat)
    requires n <= 8 && ShiftTimes(Widen(b), n) == x
    ensures OutEntry(b) == ShiftTimes(x, 8 - n)
  {
    hide ShiftOnce, Widen;
    ShiftTimesAdd(Widen(b), n, 8 - n);
  }

  lemma {:induction false} ShiftTimesAdd(x: bv64, m: nat, n: nat)
    ensures ShiftTimes(ShiftTimes(x, m), n) == ShiftTimes(x, m + n)
  {
    hide ShiftOnce;
    if n > 0 {
      ShiftTimesAdd(x, m, n - 1);
    }
  }

  // Where the register goes from the lowest bit.
  lemma RegisterFromOne()
    ensures ShiftTimes(1, 0) == 1 && ShiftTimes(1, 1) == 0x3D_A335_8B4D_C173
    ensures ShiftTimes(1, 2) == 0x23_72AF_4EEB_21CA && ShiftTimes(1, 3) == 0x11_B957_A775_90E5
    ensures ShiftTimes(1, 4) == 0x35_7F9E_58F7_0901 && ShiftTimes(1, 5) == 0x27_1CFA_A736_45F3
    ensures ShiftTimes(1, 6) == 0x2E_2D48_D8D6_E38A && ShiftTimes(1, 7) == 0x17_16A4_6C6B_71C5
    ensures ShiftTimes(1, 8) == 0x36_2867_BD78_7991
  {
    assert ShiftTimes(1, 1) == ShiftOnce(ShiftTimes(1, 0));
    assert ShiftTimes(1, 2) == ShiftOnce(ShiftTimes(1, 1));
    assert ShiftTimes(1, 3) == ShiftOnce(ShiftTimes(1, 2));
    assert ShiftTimes(1, 4) == ShiftOnce(ShiftTimes(1, 3));
    assert ShiftTimes(1, 5) == ShiftOnce(ShiftTimes(1, 4));
    assert ShiftTimes(1, 6) == ShiftOnce(ShiftTimes(1, 5));
    assert ShiftTimes(1, 7) == ShiftOnce(ShiftTimes(1, 6));
    assert ShiftTimes(1, 8) == ShiftOnce(ShiftTimes(1, 7));
  }

  // A bit travels down to the lowest place without touching the polynomial.
  lemma BitsTravelDown()
    ensures ShiftTimes(2, 1) == 1 && ShiftTimes(4, 2) == 1 && ShiftTimes(8, 3) == 1 && ShiftTimes(16, 4) == 1
    ensures ShiftTimes(32, 5) == 1 && ShiftTimes(64, 6) == 1 && ShiftTimes(128, 7) == 1
  {
    assert ShiftOnce(2) == 1 && ShiftOnce(4) == 2 && ShiftOnce(8) == 4 && ShiftOnce(16) == 8;
    assert ShiftOnce(32) == 16 && ShiftOnce(64) == 32 && ShiftOnce(128) == 64;
    hide ShiftOnce;
    TravelOne(4, 2, 1);
    TravelOne(8, 4, 2);
    TravelOne(16, 8, 3);
    TravelOne(32, 16, 4);
    TravelOne(64, 32, 5);
    TravelOne(128, 64, 6);
  }

  lemma TravelOne(x: bv64, y: bv64, n: nat)
    requires ShiftOnce(x) == y && ShiftTimes(y, n) == 1
    ensures ShiftTimes(x, n + 1) == 1
  {
    hide ShiftOnce;
    assert ShiftTimes(x, 1) == ShiftOnce(ShiftTimes(x, 0));
    ShiftTimesAdd(x, 1, n);
  }

  /** The entries of the eight single-bit bytes; by linearity they are the whole table. */
  lemma SingleBitEntries()
    ensures OutEntry(1) == 0x36_2867_BD78_7991 && OutEntry(2) == 0x17_16A4_6C6B_71C5
    ensures OutEntry(4) == 0x2E_2D48_D8D6_E38A && OutEntry(8) == 0x27_1CFA_A736_45F3
    ensures OutEntry(16) == 0x35_7F9E_58F7_0901 && OutEntry(32) == 0x11_B957_A775_90E5
    ensures OutEntry(64) == 0x23_72AF_4EEB_21CA && OutEntry(128) == 0x3D_A335_8B4D_C173
  {
    RegisterFromOne();
    BitsTravelDown();
    hide ShiftTimes, ShiftOnce, OutEntry;
    OutEntryFrom(1, 1, 0);
    OutEntryFrom(2, 1, 1);
    OutEntryFrom(4, 1, 2);
    OutEntryFrom(8, 1, 3);
    OutEntryFrom(16, 1, 4);
    OutEntryFrom(32, 1, 5);
    OutEntryFrom(64, 1, 6);
    OutEntryFrom(128, 1, 7);
  }

  // Evicting a nonzero byte leaves a residue: its table entry is not what would cancel it.
  lemma ResidueNonzero(d: byte)
    requires d != 0
    ensures Xor64(RotateBy(Widen(d), WINDOW_SIZE - 1), OutEntry(d)) != 0
  {
    var x := Widen(d);
    var r := RotateBy(x, 47);
    assert Rotate(r) == Rotate8(Rotate8(Rotate8(Rotate8(Rotate8(Rotate8(x)))))) by {
      hide Rotate, Rotate8, Widen;
      RotateByEight(x);
      RotateByAdd(x, 8, 8);
      RotateByEight(RotateBy(x, 8));
      RotateByAdd(x, 16, 8);
      RotateByEight(RotateBy(x, 16));
      RotateByAdd(x, 24, 8);
      RotateByEight(RotateBy(x, 24));
      RotateByAdd(x, 32, 8);
      RotateByEight(RotateBy(x, 32));
      RotateByAdd(x, 40, 8);
      RotateByEight(RotateBy(x, 40));
      assert RotateBy(x, 48) == Rotate(r);
    }
    ShiftTimesEight(x);
  }

  lemma TraceZero(d: byte, age: nat)
    ensures Trace(d, age) == 0 <==> d == 0
  {
    hide Rotate, Xor64, Widen, OutEntry;
    WidenXor(d, d);
    RotateByZero(Widen(d), age);
    if age >= WINDOW_SIZE {
      var left := age - WINDOW_SIZE + 1;
      var x := RotateBy(Widen(d), WINDOW_SIZE - 1);
      RotateByAdd(Widen(d), WINDOW_SIZE - 1, left);
      RotateByXor(x, OutEntry(d), left);
      RotateByZero(Xor64(x, OutEntry(d)), left);
      if d != 0 {
        ResidueNonzero(d);
      } else {
        OutEntryZero();
        RotateByZero(Widen(d), WINDOW_SIZE - 1);
        XorLaws(0, 0, 0, 0);
      }
    }
  }

  /**
   * Changing one byte anywhere since the last cut changes the fingerprint at every later
   * position of the chunk, however far the 48-byte window has moved past it.
   */
  lemma WindowNeverForgets(p: bytes, b: byte, c: byte, w: bytes)
    ensures Fp(p + [b] + w) == Fp(p + [c] + w) <==> b == c
  {
    hide Xor64, Trace, Fp;
    var x, y := p + [b] + w, p + [c] + w;
    var d := Xor(x, y);
    XorBytes(b, c);
    forall i | 0 <= i < |d| && i != |p|
      ensures d[i] == 0
    {
      assert x[i] == y[i];
      XorBytes(x[i], y[i]);
    }
    FpLinear(x, y);
    XorLaws(Fp(x), Fp(y), 0, 0);
    FpClosedForm(d);
    ClosedFormSingle(d, |p|, |d|);
    TraceZero(b ^ c, |w|);
  }
}
