/** Camellia with a 128-bit key, twice: as RFC 3713 describes it on the raw subkeys, and in the
    folded form the cipher runs, where whitening keys are absorbed, key additions are moved behind
    the round function and half of the linear layer is taken off the subkeys.

    The substitution tables are parameters: everything here holds for any tables.
 */
module Camellia {

  import opened Words

  /** 64 bits as two words, the left one more significant. */
  datatype Half = Half(l: bv32, r: bv32)

  /** The four tables combining a substitution with part of the linear layer, indexed by a byte. */
  datatype Tables = Tables(sp1110: bv32 -> bv32, sp0222: bv32 -> bv32, sp3033: bv32 -> bv32, sp4404: bv32 -> bv32)

  function Xor2(a: Half, b: Half): (c: Half) { Half(Xor(a.l, b.l), Xor(a.r, b.r)) }

  const ZERO := Half(0, 0)

  // ---- The macros of the cipher ----

  /** The table lookups on one word: a different table for each byte, from the top one down. */
  function Look(t: Tables, a: bv32, b: bv32, c: bv32, d: bv32): (y: bv32) {
    Xor(Xor(t.sp1110(a), t.sp0222(b)), Xor(t.sp3033(c), t.sp4404(d)))
  }

  /** `CAMELLIA_F`. */
  function F(t: Tables, x: Half, k: Half): (y: Half) {
    var il, ir := Xor(x.l, k.l), Xor(x.r, k.r);
    var t0, t1 := Hi(il), Hi(ir);
    var yl := Look(t, B0(ir), B8(t1), B0(t1), B8(ir));
    var yr := Look(t, B8(t0), B0(t0), B8(il), B0(il));
    Half(Xor(yl, yr), Xor(Rr8(yr), Xor(yl, yr)))
  }

  /** `CAMELLIA_ROUNDSM`: the new value of `y`. */
  function RoundSm(t: Tables, x: Half, k: Half, y: Half): (y': Half) {
    var ir := Look(t, B0(x.r), B24(x.r), B16(x.r), B8(x.r));
    var il := Look(t, B24(x.l), B16(x.l), B8(x.l), B0(x.l));
    var il' := Xor(il, k.l);
    var ir' := Xor(ir, Xor(il', k.r));
    Half(Xor(y.l, ir'), Xor(y.r, Xor(Rr8(il'), ir')))
  }

  /** The left part of `CAMELLIA_FLS`. */
  function Fl(x: Half, k: Half): (y: Half) {
    var r := Xor(x.r, Rl1(And(k.l, x.l)));
    Half(Xor(x.l, Or(k.r, r)), r)
  }

  /** The right part of `CAMELLIA_FLS`. */
  function FlInv(x: Half, k: Half): (y: Half) {
    var l := Xor(x.l, Or(k.r, x.r));
    Half(l, Xor(x.r, Rl1(And(k.l, l))))
  }

  /** How a key difference passes an FL layer: the assignments around `dw` in the key setup. */
  function Pass(m: Half, k: Half): (m': Half) {
    var l := Xor(m.l, And(m.r, Not(k.r)));
    Half(l, Xor(m.r, Rl1(And(l, k.l))))
  }

  /** The last half of the linear layer, taken off a subkey. */
  function UndoHalfP(k: Half): (k': Half) {
    var dw := Rl8(Xor(k.l, k.r));
    Half(dw, Xor(k.l, dw))
  }

  // ---- The cipher of RFC 3713, section 2.3.1, on its 26 raw subkeys ----
  // Subkey order: kw1 kw2, k1..k6, kl1 kl2, k7..k12, kl3 kl4, k13..k18, kw3 kw4.

  function Round(t: Tables, x: Half, k: Half, y: Half): (y': Half) {
    Xor2(y, F(t, x, k))
  }

  function SixRounds(t: Tables, s: seq<Half>, o: nat, a: Half, b: Half): (r: (Half, Half))
    requires o + 6 <= |s|
  {
    var b1 := Round(t, a, s[o], b);
    var a1 := Round(t, b1, s[o + 1], a);
    var b2 := Round(t, a1, s[o + 2], b1);
    var a2 := Round(t, b2, s[o + 3], a1);
    var b3 := Round(t, a2, s[o + 4], b2);
    (Round(t, b3, s[o + 5], a2), b3)
  }

  function Encrypt(t: Tables, s: seq<Half>, x: (Half, Half)): (y: (Half, Half))
    requires |s| == 26
  {
    var p := SixRounds(t, s, 2, Xor2(x.0, s[0]), Xor2(x.1, s[1]));
    var q := SixRounds(t, s, 10, Fl(p.0, s[8]), FlInv(p.1, s[9]));
    var r := SixRounds(t, s, 18, Fl(q.0, s[16]), FlInv(q.1, s[17]));
    (Xor2(r.1, s[24]), Xor2(r.0, s[25]))
  }

  // ---- The folded cipher on its 26-entry subkey table (entry 25 is unused) ----

  function SixFast(t: Tables, k: seq<Half>, o: nat, a: Half, b: Half): (r: (Half, Half))
    requires o + 6 <= |k|
  {
    var b1 := RoundSm(t, a, k[o], b);
    var a1 := RoundSm(t, b1, k[o + 1], a);
    var b2 := RoundSm(t, a1, k[o + 2], b1);
    var a2 := RoundSm(t, b2, k[o + 3], a1);
    var b3 := RoundSm(t, a2, k[o + 4], b2);
    (RoundSm(t, b3, k[o + 5], a2), b3)
  }

  /** `camellia_encrypt128`. */
  function FastEncrypt(t: Tables, k: seq<Half>, x: (Half, Half)): (y: (Half, Half))
    requires |k| == 26
  {
    var p := SixFast(t, k, 2, Xor2(x.0, k[0]), x.1);
    var q := SixFast(t, k, 10, Fl(p.0, k[8]), FlInv(p.1, k[9]));
    var r := SixFast(t, k, 18, Fl(q.0, k[16]), FlInv(q.1, k[17]));
    (Xor2(r.1, k[24]), r.0)
  }

  function SixBack(t: Tables, k: seq<Half>, o: nat, a: Half, b: Half): (r: (Half, Half))
    requires o + 6 <= |k|
  {
    var b1 := RoundSm(t, a, k[o + 5], b);
    var a1 := RoundSm(t, b1, k[o + 4], a);
    var b2 := RoundSm(t, a1, k[o + 3], b1);
    var a2 := RoundSm(t, b2, k[o + 2], a1);
    var b3 := RoundSm(t, a2, k[o + 1], b2);
    (RoundSm(t, b3, k[o], a2), b3)
  }

  /** `camellia_decrypt128`. */
  function FastDecrypt(t: Tables, k: seq<Half>, y: (Half, Half)): (x: (Half, Half))
    requires |k| == 26
  {
    var p := SixBack(t, k, 18, Xor2(y.0, k[24]), y.1);
    var q := SixBack(t, k, 10, Fl(p.0, k[17]), FlInv(p.1, k[16]));
    var r := SixBack(t, k, 2, Fl(q.0, k[9]), FlInv(q.1, k[8]));
    (Xor2(r.1, k[0]), r.0)
  }

  // ---- What the folding achieves ----

  /** The key material that ends up in each entry, before half of the linear layer is undone: the
      whitening keys show only at the two ends, everything else is a difference of neighbours,
      carried across an FL layer where one lies between them. */
  function Difference(s: seq<Half>, i: nat): (d: Half)
    requires |s| == 26 && i < 26
  {
    if i == 0 then Xor2(s[0], s[2])
    else if i == 2 then Xor2(s[3], s[1])
    else if i == 7 then Xor2(s[6], Pass(s[10], s[8]))
    else if i == 10 then Xor2(Pass(s[7], s[9]), s[11])
    else if i == 15 then Xor2(s[14], Pass(s[18], s[16]))
    else if i == 18 then Xor2(Pass(s[15], s[17]), s[19])
    else if i == 23 then Xor2(s[22], s[25])
    else if i == 24 then Xor2(s[24], s[23])
    else if i in {1, 8, 9, 16, 17, 25} then s[i]
    else Xor2(s[i - 1], s[i + 1])
  }

  predicate IsRoundKey(i: nat) {
    2 <= i < 8 || 10 <= i < 16 || 18 <= i < 24
  }

  /** `k` is the folded table of the raw subkeys `s`. */
  predicate Folded(s: seq<Half>, k: seq<Half>) {
    && |s| == 26 && |k| == 26
    && forall i :: 0 <= i < 25 && i != 1 ==>
         k[i] == if IsRoundKey(i) then UndoHalfP(Difference(s, i)) else Difference(s, i)
  }

  // ---- Algebra ----

  lemma Xor2Assoc(a: Half, b: Half, c: Half)
    ensures Xor2(Xor2(a, b), c) == Xor2(a, Xor2(b, c))
  {
    hide Xor;
    XorAssoc(a.l, b.l, c.l);
    XorAssoc(a.r, b.r, c.r);
  }

  lemma Xor2Basics(a: Half, b: Half)
    ensures Xor2(a, b) == Xor2(b, a) && Xor2(a, a) == ZERO && Xor2(a, ZERO) == a
    ensures Xor2(Xor2(a, b), b) == a
  {
    hide Xor;
    XorBasics(a.l, b.l); XorBasics(a.r, b.r);
    XorCancel(a.l, b.l); XorCancel(a.r, b.r);
  }

  lemma PassIsLinear(a: Half, b: Half, k: Half)
    ensures Pass(Xor2(a, b), k) == Xor2(Pass(a, k), Pass(b, k))
  {
    hide Xor, And, Not, Rl1;
    var n := Not(k.r);
    var l, m := Xor(a.l, And(a.r, n)), Xor(b.l, And(b.r, n));
    AndDistrib(a.r, b.r, n);
    XorSwap(a.l, b.l, And(a.r, n), And(b.r, n));
    AndDistrib(l, m, k.l);
    Rl1Xor(And(l, k.l), And(m, k.l));
    XorSwap(a.r, b.r, Rl1(And(l, k.l)), Rl1(And(m, k.l)));
  }

  /** FL takes off a carried difference. */
  lemma FlCarries(x: Half, m: Half, k: Half)
    ensures Fl(Xor2(x, Pass(m, k)), k) == Xor2(Fl(x, k), m)
  {
    hide Xor, And, Or, Not, Rl1;
    var p := Pass(m, k);
    var r := Xor(x.r, Rl1(And(k.l, x.l)));
    var d := Rl1(And(k.l, p.l));
    AndDistrib(x.l, p.l, k.l);
    Rl1Xor(And(k.l, x.l), And(k.l, p.l));
    XorSwap(x.r, p.r, Rl1(And(k.l, x.l)), d);
    AndComm(p.l, k.l);
    XorCancel(m.r, d);
    OrXor(k.r, r, m.r);
    XorSwap(x.l, p.l, Or(k.r, r), And(m.r, Not(k.r)));
    XorCancel(m.l, And(m.r, Not(k.r)));
  }

  /** The inverse of FL carries a difference. */
  lemma FlInvCarries(x: Half, m: Half, k: Half)
    ensures FlInv(Xor2(x, m), k) == Xor2(FlInv(x, k), Pass(m, k))
  {
    hide Xor, And, Or, Not, Rl1;
    var p := Pass(m, k);
    var l := Xor(x.l, Or(k.r, x.r));
    OrXor(k.r, x.r, m.r);
    XorSwap(x.l, m.l, Or(k.r, x.r), And(m.r, Not(k.r)));
    AndDistrib(l, p.l, k.l);
    AndComm(p.l, k.l);
    Rl1Xor(And(k.l, l), And(k.l, p.l));
    XorSwap(x.r, m.r, Rl1(And(k.l, l)), Rl1(And(k.l, p.l)));
  }

  lemma FlRoundTrip(x: Half, k: Half)
    ensures Fl(FlInv(x, k), k) == x
    ensures FlInv(Fl(x, k), k) == x
  {
    hide Xor, And, Or, Rl1;
    var y, z := FlInv(x, k), Fl(x, k);
    XorCancel(x.r, Rl1(And(k.l, y.l)));
    XorCancel(x.l, Or(k.r, x.r));
    XorCancel(x.l, Or(k.r, z.r));
    XorCancel(x.r, Rl1(And(k.l, x.l)));
  }

  lemma FKey(t: Tables, x: Half, k: Half)
    ensures F(t, x, k) == F(t, Xor2(x, k), ZERO)
  {
    hide Xor, Look, Rr8, B0, B8, B16, B24, Hi;
    var z := Xor2(x, k);
    XorBasics(z.l, z.r); XorBasics(z.r, z.l);
  }

  /** Round and key addition trade places: with half of the linear layer undone on the key, the
      fast round adds the plain key after the round function. */
  lemma RoundSmIs(t: Tables, x: Half, d: Half, y: Half)
    ensures RoundSm(t, x, UndoHalfP(d), y) == Xor2(Xor2(y, F(t, x, ZERO)), d)
  {
    hide Xor, Look, Rr8, Rl8, B0, B8, B16, B24, Hi;
    XorBasics(x.l, x.r); XorBasics(x.r, x.l);
    BytesOfHi(x.l); BytesOfHi(x.r);
    var k := UndoHalfP(d);
    var ir := Look(t, B0(x.r), B24(x.r), B16(x.r), B8(x.r));
    var il := Look(t, B24(x.l), B16(x.l), B8(x.l), B0(x.l));
    assert F(t, x, ZERO) == Half(Xor(ir, il), Xor(Rr8(il), Xor(ir, il)));
    HalfPBack(il, ir, d);
    Xor2Assoc(y, F(t, x, ZERO), d);
  }

  lemma HalfPBack(il: bv32, ir: bv32, d: Half)
    ensures var k := UndoHalfP(d); var i := Xor(il, k.l); var j := Xor(ir, Xor(i, k.r));
            && j == Xor(Xor(ir, il), d.l)
            && Xor(Rr8(i), j) == Xor(Xor(Rr8(il), Xor(ir, il)), d.r)
  {
    hide Xor, Rr8, Rl8;
    var e := Xor(d.l, d.r);
    var dw := Rl8(e);
    var i := Xor(il, dw);
    XorBasics(d.l, dw);
    XorSwap(il, dw, dw, d.l);
    XorAssoc(il, dw, Xor(d.l, dw));
    XorAssoc(dw, dw, d.l);
    XorBasics(dw, d.l);
    XorBasics(d.l, d.l);
    assert Xor(i, Xor(d.l, dw)) == Xor(il, d.l);
    XorAssoc(ir, il, d.l);
    Rr8Xor(il, dw);
    RotateBack(e);
    XorSwap(Rr8(il), e, Xor(ir, il), d.l);
    XorBasics(d.l, d.r);
    XorCancel(d.r, d.l);
  }

  // ---- The folded cipher computes the cipher ----

  /** One round under masks: if the fast input carries this round's key and the fast target the
      mask `m`, then the target leaves carrying `n`. */
  lemma MaskedRound(t: Tables, a: Half, b: Half, k: Half, m: Half, n: Half)
    ensures RoundSm(t, Xor2(a, k), UndoHalfP(Xor2(m, n)), Xor2(b, m)) == Xor2(Round(t, a, k, b), n)
  {
    hide RoundSm, UndoHalfP, Xor2, F;
    var f := F(t, a, k);
    FKey(t, a, k);
    RoundSmIs(t, Xor2(a, k), Xor2(m, n), Xor2(b, m));
    // (b + m + f) + (m + n) == (b + f) + n
    Xor2Assoc(b, m, f);
    Xor2Basics(m, f);
    Xor2Assoc(b, f, m);
    Xor2Assoc(Xor2(b, f), m, Xor2(m, n));
    Xor2Assoc(m, m, n);
    Xor2Basics(m, n);
    Xor2Basics(n, ZERO);
    Xor2Basics(ZERO, n);
  }

  /** Six rounds under masks. The masks come in as the first key and `m`, and leave as `n` and the
      last key. */
  lemma MaskedSix(t: Tables, s: seq<Half>, k: seq<Half>, o: nat, a: Half, b: Half, m: Half, n: Half)
    requires o + 6 <= |s| && |k| == |s|
    requires k[o] == UndoHalfP(Xor2(m, s[o + 1]))
    requires forall i :: o < i < o + 5 ==> k[i] == UndoHalfP(Xor2(s[i - 1], s[i + 1]))
    requires k[o + 5] == UndoHalfP(Xor2(s[o + 4], n))
    ensures var r := SixRounds(t, s, o, a, b);
            SixFast(t, k, o, Xor2(a, s[o]), Xor2(b, m)) == (Xor2(r.0, n), Xor2(r.1, s[o + 5]))
  {
    hide RoundSm, UndoHalfP, Xor2, Round;
    var b1 := Round(t, a, s[o], b);
    var a1 := Round(t, b1, s[o + 1], a);
    var b2 := Round(t, a1, s[o + 2], b1);
    var a2 := Round(t, b2, s[o + 3], a1);
    var b3 := Round(t, a2, s[o + 4], b2);
    MaskedRound(t, a, b, s[o], m, s[o + 1]);
    MaskedRound(t, b1, a, s[o + 1], s[o], s[o + 2]);
    MaskedRound(t, a1, b1, s[o + 2], s[o + 1], s[o + 3]);
    MaskedRound(t, b2, a1, s[o + 3], s[o + 2], s[o + 4]);
    MaskedRound(t, a2, b2, s[o + 4], s[o + 3], s[o + 5]);
    MaskedRound(t, b3, a2, s[o + 5], s[o + 4], n);
  }

  /** On the folded table of any raw subkeys, the fast cipher computes Camellia. */
  lemma FoldedComputesCamellia(t: Tables, s: seq<Half>, k: seq<Half>, x: (Half, Half))
    requires Folded(s, k)
    ensures FastEncrypt(t, k, x) == Encrypt(t, s, x)
  {
    hide SixRounds, SixFast, UndoHalfP, Xor2, Fl, FlInv, Pass;
    var a, b := Xor2(x.0, s[0]), Xor2(x.1, s[1]);
    var p := SixRounds(t, s, 2, a, b);
    var a1, b1 := Fl(p.0, s[8]), FlInv(p.1, s[9]);
    var q := SixRounds(t, s, 10, a1, b1);
    var a2, b2 := Fl(q.0, s[16]), FlInv(q.1, s[17]);
    var r := SixRounds(t, s, 18, a2, b2);
    Xor2Assoc(x.0, s[0], s[2]);
    Xor2Basics(x.1, s[1]);
    Xor2Basics(s[1], s[3]);
    MaskedSix(t, s, k, 2, a, b, s[1], Pass(s[10], s[8]));
    FlCarries(p.0, s[10], s[8]);
    FlInvCarries(p.1, s[7], s[9]);
    MaskedSix(t, s, k, 10, a1, b1, Pass(s[7], s[9]), Pass(s[18], s[16]));
    FlCarries(q.0, s[18], s[16]);
    FlInvCarries(q.1, s[15], s[17]);
    MaskedSix(t, s, k, 18, a2, b2, Pass(s[15], s[17]), s[25]);
    Xor2Basics(s[24], s[23]);
    Xor2Assoc(r.1, s[23], Xor2(s[23], s[24]));
    Xor2Assoc(s[23], s[23], s[24]);
    Xor2Basics(s[23], s[24]);
    Xor2Basics(s[24], ZERO);
  }

  // ---- Decryption ----

  lemma RoundTwice(t: Tables, x: Half, k: Half, y: Half)
    ensures RoundSm(t, x, k, RoundSm(t, x, k, y)) == y
  {
    hide Xor, Look, Rr8, B0, B8, B16, B24;
    var y' := RoundSm(t, x, k, y);
    var ir := Look(t, B0(x.r), B24(x.r), B16(x.r), B8(x.r));
    var il := Look(t, B24(x.l), B16(x.l), B8(x.l), B0(x.l));
    var il' := Xor(il, k.l);
    var ir' := Xor(ir, Xor(il', k.r));
    XorCancel(y.l, ir');
    XorCancel(y.r, Xor(Rr8(il'), ir'));
  }

  lemma SixThereAndBack(t: Tables, k: seq<Half>, o: nat, a: Half, b: Half)
    requires o + 6 <= |k|
    ensures var r := SixFast(t, k, o, a, b); SixBack(t, k, o, r.1, r.0) == (b, a)
  {
    hide RoundSm;
    var b1 := RoundSm(t, a, k[o], b);
    var a1 := RoundSm(t, b1, k[o + 1], a);
    var b2 := RoundSm(t, a1, k[o + 2], b1);
    var a2 := RoundSm(t, b2, k[o + 3], a1);
    var b3 := RoundSm(t, a2, k[o + 4], b2);
    RoundTwice(t, a, k[o], b);
    RoundTwice(t, b1, k[o + 1], a);
    RoundTwice(t, a1, k[o + 2], b1);
    RoundTwice(t, b2, k[o + 3], a1);
    RoundTwice(t, a2, k[o + 4], b2);
    RoundTwice(t, b3, k[o + 5], a2);
  }

  /** Decryption inverts encryption for every subkey table, folded or not. */
  lemma DecryptInvertsEncrypt(t: Tables, k: seq<Half>, x: (Half, Half))
    requires |k| == 26
    ensures FastDecrypt(t, k, FastEncrypt(t, k, x)) == x
  {
    hide SixFast, SixBack, Xor2, Fl, FlInv;
    var a := Xor2(x.0, k[0]);
    var p := SixFast(t, k, 2, a, x.1);
    var a1, b1 := Fl(p.0, k[8]), FlInv(p.1, k[9]);
    var q := SixFast(t, k, 10, a1, b1);
    var a2, b2 := Fl(q.0, k[16]), FlInv(q.1, k[17]);
    var r := SixFast(t, k, 18, a2, b2);
    Xor2Basics(r.1, k[24]);
    SixThereAndBack(t, k, 18, a2, b2);
    FlRoundTrip(q.1, k[17]);
    FlRoundTrip(q.0, k[16]);
    SixThereAndBack(t, k, 10, a1, b1);
    FlRoundTrip(p.1, k[9]);
    FlRoundTrip(p.0, k[8]);
    SixThereAndBack(t, k, 2, a, x.1);
    Xor2Basics(x.0, k[0]);
  }
}
