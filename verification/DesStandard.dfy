/** DES as FIPS 46-3 defines it, on single bits counted from zero, and the proof that the cipher of
    `Des` under the schedule of `DesKeys` is that, for every key and every block. */
module DesStandard {

  import opened Words
  import opened Des
  import opened DesBits
  import opened DesKeys
  import R = DesRound
  import S = DesSchedule

  type HalfBlock = bv5 -> bool
  type Block = bv6 -> bool

  // ---- The standard ----

  /** Row `j` of the expanded half. */
  function Expansion(h: HalfBlock, j: bv5): (x: bv32) {
    var n := 4 * j;
    R.Row(h(n - 1), h(n), h(n + 1), h(n + 2), h(n + 3), h(n + 4))
  }

  /** The six key bits of round `m` for box `j`. */
  function KeyBits(k: seq<bv32>, m: nat, j: bv5): (x: bv32)
    requires |k| == 8
  {
    R.Row(S.RoundKeyBit(k, m, j, 0), S.RoundKeyBit(k, m, j, 1), S.RoundKeyBit(k, m, j, 2),
          S.RoundKeyBit(k, m, j, 3), S.RoundKeyBit(k, m, j, 4), S.RoundKeyBit(k, m, j, 5))
  }

  /** The round function: expansion, key, boxes, permutation. */
  function StdF(s: R.Sboxes, k: seq<bv32>, m: nat, h: HalfBlock): (f: HalfBlock)
    requires |k| == 8
  {
    (i: bv5) => var j := R.BoxOf(i); R.OutBit(s.s(j)(Xor(KeyBits(k, m, j), Expansion(h, j))), R.Perm(i))
  }

  function Sum(a: HalfBlock, b: HalfBlock): (c: HalfBlock) {
    (i: bv5) => a(i) != b(i)
  }

  /** The halves after `m` rounds. */
  function StdRounds(s: R.Sboxes, k: seq<bv32>, m: nat, l: HalfBlock, r: HalfBlock): (p: (HalfBlock, HalfBlock))
    requires |k| == 8
  {
    if m == 0 then (l, r)
    else var p := StdRounds(s, k, m - 1, l, r); (p.1, Sum(p.0, StdF(s, k, m, p.1)))
  }

  /** The place in a block of bit `i` of its left half, and of its right half; and back. */
  function InLeft(i: bv5): (j: bv6) { i as bv6 }

  function InRight(i: bv5): (j: bv6) { 32 + (i as bv6) }

  function InHalf(j: bv6): (i: bv5) { (j & 31) as bv5 }

  /** The table of the inverse initial permutation. */
  function Inverse(j: bv6): (i: bv6) {
    var row, column := j >> 3, j & 7;
    (if column & 1 == 0 then 39 + 4 * column else 3 + 4 * column) - row
  }

  function StdDes(s: R.Sboxes, k: seq<bv32>, x: Block): (y: Block)
    requires |k| == 8
  {
    var l: HalfBlock := (i: bv5) => x(Standard(InLeft(i)));
    var r: HalfBlock := (i: bv5) => x(Standard(InRight(i)));
    var p := StdRounds(s, k, 16, l, r);
    (j: bv6) => var i := Inverse(j); if i < 32 then p.1(InHalf(i)) else p.0(InHalf(i))
  }

  // ---- The cipher computes it ----

  /** A half as the macros hold it, turned left by one. */
  ghost predicate Holds(w: bv32, h: HalfBlock) {
    forall i: bv5 :: Bit(w, R.Turned(i)) == h(i)
  }

  lemma ExpansionIs(w: bv32, h: HalfBlock, j: bv5)
    requires Holds(w, h)
    ensures R.Expanded(w, j) == Expansion(h, j)
  {
    hide Bit, R.Row, R.Turned;
    var n := 4 * j;
    Places(n);
    assert Bit(w, R.Turned(n - 1)) == h(n - 1) && Bit(w, R.Turned(n)) == h(n) && Bit(w, R.Turned(n + 1)) == h(n + 1);
    assert Bit(w, R.Turned(n + 2)) == h(n + 2) && Bit(w, R.Turned(n + 3)) == h(n + 3) &&
        Bit(w, R.Turned(n + 4)) == h(n + 4);
  }

  lemma Places(n: bv5)
    ensures R.Turned(n - 1) == 1 - n && R.Turned(n) == 1 - n - 1 && R.Turned(n + 1) == 1 - n - 2
    ensures R.Turned(n + 2) == 1 - n - 3 && R.Turned(n + 3) == 1 - n - 4 && R.Turned(n + 4) == 1 - n - 5
  {
  }

  lemma KeyBitsIs(t: KeyTables, k: seq<bv32>, m: nat, j: bv5)
    requires S.IsStandard(t) && S.IsKey(k) && 1 <= m <= 16 && j < 8
    ensures R.KeyRow(EncryptionSchedule(t, k)[m - 1], j) == KeyBits(k, m, j)
  {
    hide Bit, R.Row, S.IsStandard, S.RoundKeyBit, R.KeyRow, EncryptionSchedule;
    var x := R.KeyRow(EncryptionSchedule(t, k)[m - 1], j);
    SmallRow(EncryptionSchedule(t, k)[m - 1], j);
    R.SixBits(x);
    S.ScheduleIsStandard(t, k, m, j, 0);
    S.ScheduleIsStandard(t, k, m, j, 1);
    S.ScheduleIsStandard(t, k, m, j, 2);
    S.ScheduleIsStandard(t, k, m, j, 3);
    S.ScheduleIsStandard(t, k, m, j, 4);
    S.ScheduleIsStandard(t, k, m, j, 5);
  }

  lemma SmallRow(k: Key, j: bv5)
    ensures R.KeyRow(k, j) < 64
  {
    hide R.Six, Rol;
    var x := Rol(k.k1, 28);
    R.SmallSix(x, 0); R.SmallSix(x, 8); R.SmallSix(x, 16); R.SmallSix(x, 24);
    R.SmallSix(k.k0, 0); R.SmallSix(k.k0, 8); R.SmallSix(k.k0, 16); R.SmallSix(k.k0, 24);
  }

  /** One round. */
  lemma RoundIs(b: Boxes, s: R.Sboxes, t: KeyTables, k: seq<bv32>, m: nat, l: bv32, r: bv32, hl: HalfBlock,
                hr: HalfBlock)
    requires R.MadeFrom(b, s) && S.IsStandard(t) && S.IsKey(k) && 1 <= m <= 16 && Holds(l, hl) && Holds(r, hr)
    ensures Holds(Round(b, l, r, EncryptionSchedule(t, k)[m - 1]), Sum(hl, StdF(s, k, m, hr)))
  {
    hide Bit, Xor, F, R.MadeFrom, S.IsStandard, R.KeyRow, KeyBits, Expansion, R.Expanded, R.OutBit, R.Perm, R.BoxOf,
         R.Turned, EncryptionSchedule;
    var key := EncryptionSchedule(t, k)[m - 1];
    forall i: bv5 ensures Bit(Round(b, l, r, key), R.Turned(i)) == Sum(hl, StdF(s, k, m, hr))(i) {
      var j := R.BoxOf(i);
      R.BoxSmall(i);
      XorBit(l, F(b, r, key), R.Turned(i));
      R.FIsStandard(b, s, r, key, i);
      KeyBitsIs(t, k, m, j);
      ExpansionIs(r, hr, j);
    }
  }

  lemma {:induction false} RoundsIs(b: Boxes, s: R.Sboxes, t: KeyTables, k: seq<bv32>, m: nat, l: bv32, r: bv32,
                                    hl: HalfBlock, hr: HalfBlock)
    requires R.MadeFrom(b, s) && S.IsStandard(t) && S.IsKey(k) && m <= 16 && Holds(l, hl) && Holds(r, hr)
    ensures var p, q := Rounds(b, EncryptionSchedule(t, k)[..m], l, r), StdRounds(s, k, m, hl, hr);
            Holds(p.0, q.0) && Holds(p.1, q.1)
    decreases m
  {
    hide Holds, Round, R.MadeFrom, S.IsStandard, EncryptionSchedule, StdF, Sum;
    var ks := EncryptionSchedule(t, k);
    if m > 0 {
      RoundsIs(b, s, t, k, m - 1, l, r, hl, hr);
      var p, q := Rounds(b, ks[..m - 1], l, r), StdRounds(s, k, m - 1, hl, hr);
      assert ks[..m] == ks[..m - 1] + [ks[m - 1]];
      RoundsAppend(b, ks[..m - 1], [ks[m - 1]], l, r);
      OneRound(b, ks[m - 1], p.0, p.1);
      RoundIs(b, s, t, k, m, p.0, p.1, q.0, q.1);
    }
  }

  lemma OneRound(b: Boxes, key: Key, l: bv32, r: bv32)
    ensures Rounds(b, [key], l, r) == (r, Round(b, l, r, key))
  {
    hide Round;
    assert [key][1..] == [];
  }

  lemma InverseIs(j: bv6) ensures Standard(Inverse(j)) == j {}

  lemma HalvesAre(i: bv5)
    ensures InHalves(InLeft(i)) == Place(false, R.Turned(i)) && InHalves(InRight(i)) == Place(true, R.Turned(i))
  {
  }

  lemma WhichHalf(i: bv6)
    ensures i < 32 ==> InLeft(InHalf(i)) == i
    ensures i >= 32 ==> InRight(InHalf(i)) == i
  {
  }

  /** The cipher under the schedule is DES of FIPS 46-3, for every key, every block and every bit. */
  lemma DesIsStandard(b: Boxes, s: R.Sboxes, t: KeyTables, k: seq<bv32>, x: (bv32, bv32), j: bv6)
    requires R.MadeFrom(b, s) && S.IsStandard(t) && S.IsKey(k)
    ensures BitAt(DesWith(b, EncryptionSchedule(t, k), x), InBlock(j)) ==
            StdDes(s, k, (i: bv6) => BitAt(x, InBlock(i)))(j)
  {
    hide Bit, Ip, Fp, Rounds, R.MadeFrom, S.IsStandard, EncryptionSchedule, InBlock, InHalves, Standard, Inverse,
         StdRounds, R.Turned, InLeft, InRight, InHalf;
    var ks := EncryptionSchedule(t, k);
    var block: Block := (i: bv6) => BitAt(x, InBlock(i));
    var hl: HalfBlock := (i: bv5) => block(Standard(InLeft(i)));
    var hr: HalfBlock := (i: bv5) => block(Standard(InRight(i)));
    var w := Ip(x);
    forall i: bv5 ensures Bit(w.0, R.Turned(i)) == hl(i) && Bit(w.1, R.Turned(i)) == hr(i) {
      HalvesAre(i);
      IpIsStandard(x, InLeft(i));
      IpIsStandard(x, InRight(i));
    }
    RoundsIs(b, s, t, k, 16, w.0, w.1, hl, hr);
    assert ks[..16] == ks;
    var p := Rounds(b, ks, w.0, w.1);
    var q := StdRounds(s, k, 16, hl, hr);
    var i := Inverse(j);
    InverseIs(j);
    FpIsStandard((p.1, p.0), i);
    WhichHalf(i);
    HalvesAre(InHalf(i));
  }
}
