/** DES and triple DES: the permutations around the rounds, the rounds, and the two key expansions.
    The substitution and key tables are parameters: everything here holds for any tables. */
module Des {

  import opened Words

  // ---- The permutations ----

  function Rol(x: bv32, n: nat): (y: bv32)
    requires n <= 32
  {
    (x << n) | (x >> (32 - n))
  }

  /** One swap of bits between the halves, under a mask: five assignments through a temporary. */
  function Swap(l: bv32, r: bv32, mask: bv32): (p: (bv32, bv32)) {
    var m := And(Xor(l, r), mask);
    (Xor(m, l), Xor(r, m))
  }

  /** `IP`. */
  function Ip(x: (bv32, bv32)): (y: (bv32, bv32)) {
    var a := Swap(x.0, Rol(x.1, 4), 0xf0f0f0f0);
    var b := Swap(a.0, Rol(a.1, 12), 0xffff0000);
    var c := Swap(b.0, Rol(b.1, 18), 0xcccccccc);
    var d := Swap(c.0, Rol(c.1, 6), 0xff00ff00);
    var e := Swap(d.0, Rol(d.1, 25), 0xaaaaaaaa);
    (Rol(e.0, 1), e.1)
  }

  /** `FP`. */
  function Fp(x: (bv32, bv32)): (y: (bv32, bv32)) {
    var a := Swap(Rol(x.0, 31), x.1, 0xaaaaaaaa);
    var b := Swap(a.0, Rol(a.1, 7), 0xff00ff00);
    var c := Swap(b.0, Rol(b.1, 26), 0xcccccccc);
    var d := Swap(c.0, Rol(c.1, 14), 0xffff0000);
    var e := Swap(d.0, Rol(d.1, 20), 0xf0f0f0f0);
    (e.0, Rol(e.1, 28))
  }

  lemma SwapTwice(l: bv32, r: bv32, mask: bv32)
    ensures var p := Swap(l, r, mask); Swap(p.0, p.1, mask) == (l, r)
  {
    hide Xor, And;
    var m := And(Xor(l, r), mask);
    XorBasics(m, l);
    XorBasics(l, m);
    XorBasics(r, m);
    XorSwap(l, m, r, m);
    XorBasics(m, m);
    XorBasics(Xor(l, r), 0);
    assert Xor(Xor(m, l), Xor(r, m)) == Xor(l, r);
    XorCancel(l, m);
    XorCancel(r, m);
    XorBasics(m, Xor(m, l));
  }

  lemma Rol4(x: bv32) ensures Rol(x, 4) == (x << 4) | (x >> 28) {}

  lemma Raw4(x: bv32, y: bv32) requires y == (x << 4) | (x >> 28) ensures Rol(y, 28) == x {}

  lemma Back4(x: bv32)
    ensures Rol(Rol(x, 4), 28) == x
  {
    hide Rol;
    Rol4(x);
    Raw4(x, Rol(x, 4));
  }

  lemma Rol28(x: bv32) ensures Rol(x, 28) == (x << 28) | (x >> 4) {}

  lemma Raw28(x: bv32, y: bv32) requires y == (x << 28) | (x >> 4) ensures Rol(y, 4) == x {}

  lemma Back28(x: bv32)
    ensures Rol(Rol(x, 28), 4) == x
  {
    hide Rol;
    Rol28(x);
    Raw28(x, Rol(x, 28));
  }

  lemma Rol12(x: bv32) ensures Rol(x, 12) == (x << 12) | (x >> 20) {}

  lemma Raw12(x: bv32, y: bv32) requires y == (x << 12) | (x >> 20) ensures Rol(y, 20) == x {}

  lemma Back12(x: bv32)
    ensures Rol(Rol(x, 12), 20) == x
  {
    hide Rol;
    Rol12(x);
    Raw12(x, Rol(x, 12));
  }

  lemma Rol20(x: bv32) ensures Rol(x, 20) == (x << 20) | (x >> 12) {}

  lemma Raw20(x: bv32, y: bv32) requires y == (x << 20) | (x >> 12) ensures Rol(y, 12) == x {}

  lemma Back20(x: bv32)
    ensures Rol(Rol(x, 20), 12) == x
  {
    hide Rol;
    Rol20(x);
    Raw20(x, Rol(x, 20));
  }

  lemma Rol18(x: bv32) ensures Rol(x, 18) == (x << 18) | (x >> 14) {}

  lemma Raw18(x: bv32, y: bv32) requires y == (x << 18) | (x >> 14) ensures Rol(y, 14) == x {}

  lemma Back18(x: bv32)
    ensures Rol(Rol(x, 18), 14) == x
  {
    hide Rol;
    Rol18(x);
    Raw18(x, Rol(x, 18));
  }

  lemma Rol14(x: bv32) ensures Rol(x, 14) == (x << 14) | (x >> 18) {}

  lemma Raw14(x: bv32, y: bv32) requires y == (x << 14) | (x >> 18) ensures Rol(y, 18) == x {}

  lemma Back14(x: bv32)
    ensures Rol(Rol(x, 14), 18) == x
  {
    hide Rol;
    Rol14(x);
    Raw14(x, Rol(x, 14));
  }

  lemma Rol6(x: bv32) ensures Rol(x, 6) == (x << 6) | (x >> 26) {}

  lemma Raw6(x: bv32, y: bv32) requires y == (x << 6) | (x >> 26) ensures Rol(y, 26) == x {}

  lemma Back6(x: bv32)
    ensures Rol(Rol(x, 6), 26) == x
  {
    hide Rol;
    Rol6(x);
    Raw6(x, Rol(x, 6));
  }

  lemma Rol26(x: bv32) ensures Rol(x, 26) == (x << 26) | (x >> 6) {}

  lemma Raw26(x: bv32, y: bv32) requires y == (x << 26) | (x >> 6) ensures Rol(y, 6) == x {}

  lemma Back26(x: bv32)
    ensures Rol(Rol(x, 26), 6) == x
  {
    hide Rol;
    Rol26(x);
    Raw26(x, Rol(x, 26));
  }

  lemma Rol25(x: bv32) ensures Rol(x, 25) == (x << 25) | (x >> 7) {}

  lemma Raw25(x: bv32, y: bv32) requires y == (x << 25) | (x >> 7) ensures Rol(y, 7) == x {}

  lemma Back25(x: bv32)
    ensures Rol(Rol(x, 25), 7) == x
  {
    hide Rol;
    Rol25(x);
    Raw25(x, Rol(x, 25));
  }

  lemma Rol7(x: bv32) ensures Rol(x, 7) == (x << 7) | (x >> 25) {}

  lemma Raw7(x: bv32, y: bv32) requires y == (x << 7) | (x >> 25) ensures Rol(y, 25) == x {}

  lemma Back7(x: bv32)
    ensures Rol(Rol(x, 7), 25) == x
  {
    hide Rol;
    Rol7(x);
    Raw7(x, Rol(x, 7));
  }

  lemma Rol1(x: bv32) ensures Rol(x, 1) == (x << 1) | (x >> 31) {}

  lemma Raw1(x: bv32, y: bv32) requires y == (x << 1) | (x >> 31) ensures Rol(y, 31) == x {}

  lemma Back1(x: bv32)
    ensures Rol(Rol(x, 1), 31) == x
  {
    hide Rol;
    Rol1(x);
    Raw1(x, Rol(x, 1));
  }

  lemma Rol31(x: bv32) ensures Rol(x, 31) == (x << 31) | (x >> 1) {}

  lemma Raw31(x: bv32, y: bv32) requires y == (x << 31) | (x >> 1) ensures Rol(y, 1) == x {}

  lemma Back31(x: bv32)
    ensures Rol(Rol(x, 31), 1) == x
  {
    hide Rol;
    Rol31(x);
    Raw31(x, Rol(x, 31));
  }

  /** The two permutations undo each other. */
  lemma FpAfterIp(x: (bv32, bv32))
    ensures Fp(Ip(x)) == x
  {
    hide Rol, Swap;
    var a := Swap(x.0, Rol(x.1, 4), 0xf0f0f0f0);
    var b := Swap(a.0, Rol(a.1, 12), 0xffff0000);
    var c := Swap(b.0, Rol(b.1, 18), 0xcccccccc);
    var d := Swap(c.0, Rol(c.1, 6), 0xff00ff00);
    var e := Swap(d.0, Rol(d.1, 25), 0xaaaaaaaa);
    Back1(e.0);
    SwapTwice(d.0, Rol(d.1, 25), 0xaaaaaaaa);
    Back25(d.1);
    SwapTwice(c.0, Rol(c.1, 6), 0xff00ff00);
    Back6(c.1);
    SwapTwice(b.0, Rol(b.1, 18), 0xcccccccc);
    Back18(b.1);
    SwapTwice(a.0, Rol(a.1, 12), 0xffff0000);
    Back12(a.1);
    SwapTwice(x.0, Rol(x.1, 4), 0xf0f0f0f0);
    Back4(x.1);
  }

  lemma IpAfterFp(x: (bv32, bv32))
    ensures Ip(Fp(x)) == x
  {
    hide Rol, Swap;
    var a := Swap(Rol(x.0, 31), x.1, 0xaaaaaaaa);
    var b := Swap(a.0, Rol(a.1, 7), 0xff00ff00);
    var c := Swap(b.0, Rol(b.1, 26), 0xcccccccc);
    var d := Swap(c.0, Rol(c.1, 14), 0xffff0000);
    var e := Swap(d.0, Rol(d.1, 20), 0xf0f0f0f0);
    Back28(e.1);
    SwapTwice(d.0, Rol(d.1, 20), 0xf0f0f0f0);
    Back20(d.1);
    SwapTwice(c.0, Rol(c.1, 14), 0xffff0000);
    Back14(c.1);
    SwapTwice(b.0, Rol(b.1, 26), 0xcccccccc);
    Back26(b.1);
    SwapTwice(a.0, Rol(a.1, 7), 0xff00ff00);
    Back7(a.1);
    SwapTwice(Rol(x.0, 31), x.1, 0xaaaaaaaa);
    Back31(x.0);
  }

  // ---- Rounds ----

  datatype Boxes = Boxes(s1: bv32 -> bv32, s2: bv32 -> bv32, s3: bv32 -> bv32, s4: bv32 -> bv32,
                         s5: bv32 -> bv32, s6: bv32 -> bv32, s7: bv32 -> bv32, s8: bv32 -> bv32)

  /** The two words of a round key. */
  datatype Key = Key(k0: bv32, k1: bv32)

  function Masked(w: bv32): (x: bv32) { w & 0x3f3f3f3f }

  /** The byte of a word at place `n`. */
  function Field(w: bv32, n: bv5): (x: bv32) { 0xff & (w >> n) }

  /** What `ROUND` adds to one half, from the other and the round key. */
  function F(t: Boxes, r: bv32, k: Key): (f: bv32) {
    var b := Masked(Xor(k.k0, r));
    var a := Masked(Rol(Xor(k.k1, r), 28));
    var x := Xor(Xor(t.s8(Field(b, 0)), t.s6(Field(b, 8))), Xor(t.s7(Field(a, 0)), t.s5(Field(a, 8))));
    var y := Xor(Xor(t.s4(Field(b, 16)), t.s2(Field(b, 24))), Xor(t.s3(Field(a, 16)), t.s1(Field(a, 24))));
    Xor(x, y)
  }

  /** `ROUND(L, R, ...)`. */
  function Round(t: Boxes, l: bv32, r: bv32, k: Key): (l': bv32) {
    Xor(l, F(t, r, k))
  }

  lemma RoundTwice(t: Boxes, l: bv32, r: bv32, k: Key)
    ensures Round(t, Round(t, l, r, k), r, k) == l
  {
    hide Xor, F;
    XorCancel(l, F(t, r, k));
  }

  /** The rounds under a schedule, each acting on the half the previous one left alone. */
  function Rounds(t: Boxes, ks: seq<Key>, l: bv32, r: bv32): (p: (bv32, bv32)) {
    if ks == [] then (l, r) else Rounds(t, ks[1..], r, Round(t, l, r, ks[0]))
  }

  function Reversed(ks: seq<Key>): (rs: seq<Key>)
    ensures |rs| == |ks|
  {
    if ks == [] then [] else Reversed(ks[1..]) + [ks[0]]
  }

  lemma {:induction false} ReversedAt(ks: seq<Key>, i: nat)
    requires i < |ks|
    ensures Reversed(ks)[i] == ks[|ks| - 1 - i]
  {
    if i < |ks| - 1 { ReversedAt(ks[1..], i); }
  }

  lemma {:induction false} ReversedTwice(ks: seq<Key>)
    ensures Reversed(Reversed(ks)) == ks
  {
    forall i | 0 <= i < |ks| ensures Reversed(Reversed(ks))[i] == ks[i] {
      ReversedAt(Reversed(ks), i);
      ReversedAt(ks, |ks| - 1 - i);
    }
  }

  lemma {:induction false} RoundsAppend(t: Boxes, ks: seq<Key>, js: seq<Key>, l: bv32, r: bv32)
    ensures Rounds(t, ks + js, l, r) == var p := Rounds(t, ks, l, r); Rounds(t, js, p.0, p.1)
    decreases |ks|
  {
    hide Round;
    if ks == [] {
      assert ks + js == js;
    } else {
      assert (ks + js)[1..] == ks[1..] + js;
      RoundsAppend(t, ks[1..], js, r, Round(t, l, r, ks[0]));
    }
  }

  /** The same rounds backwards, with the halves exchanged, undo them. */
  lemma {:induction false} RoundsBack(t: Boxes, ks: seq<Key>, l: bv32, r: bv32)
    ensures var p := Rounds(t, ks, l, r); Rounds(t, Reversed(ks), p.1, p.0) == (r, l)
    decreases |ks|
  {
    hide Round;
    if ks != [] {
      var m := Round(t, l, r, ks[0]);
      var p := Rounds(t, ks, l, r);
      RoundsBack(t, ks[1..], r, m);
      RoundsAppend(t, Reversed(ks[1..]), [ks[0]], p.1, p.0);
      assert Rounds(t, [ks[0]], m, r) == Rounds(t, [], r, Round(t, m, r, ks[0]));
      RoundTwice(t, l, r, ks[0]);
    }
  }

  // ---- The ciphers by their definitions ----

  /** DES under a schedule of sixteen keys. */
  function DesWith(t: Boxes, ks: seq<Key>, x: (bv32, bv32)): (y: (bv32, bv32)) {
    var i := Ip(x);
    var p := Rounds(t, ks, i.0, i.1);
    Fp((p.1, p.0))
  }

  /** The reversed schedule decrypts. */
  lemma DesInverse(t: Boxes, ks: seq<Key>, x: (bv32, bv32))
    ensures DesWith(t, Reversed(ks), DesWith(t, ks, x)) == x
  {
    hide Ip, Fp, Rounds;
    var i := Ip(x);
    var p := Rounds(t, ks, i.0, i.1);
    IpAfterFp((p.1, p.0));
    RoundsBack(t, ks, i.0, i.1);
    FpAfterIp(x);
  }

  /** Encrypt, decrypt, encrypt: section 3.1 of NIST SP 800-67. */
  function Ede(t: Boxes, k1: seq<Key>, k2: seq<Key>, k3: seq<Key>, x: (bv32, bv32)): (y: (bv32, bv32)) {
    DesWith(t, k3, DesWith(t, Reversed(k2), DesWith(t, k1, x)))
  }

  // ---- The loops ----

  /** `des_encrypt` and, over the reversed table, `des_decrypt`: pairs of rounds, then `FP` on the
      exchanged halves. */
  method PairRounds(t: Boxes, ks: seq<Key>, from: nat, x: bv32, y: bv32) returns (l: bv32, r: bv32)
    requires from + 16 <= |ks|
    ensures (l, r) == Rounds(t, ks[from..from + 16], x, y)
  {
    hide Round;
    l, r := x, y;
    var k := from;
    var i := 0;
    while i < 8
      invariant 0 <= i <= 8 && k == from + 2 * i
      invariant Rounds(t, ks[k..from + 16], l, r) == Rounds(t, ks[from..from + 16], x, y)
    {
      ghost var rest := ks[k..from + 16];
      assert rest[1..] == ks[k + 1..from + 16] && rest[1..][1..] == ks[k + 2..from + 16];
      l := Round(t, l, r, ks[k]);
      k := k + 1;
      r := Round(t, r, l, ks[k]);
      k := k + 1;
      i := i + 1;
    }
    assert ks[k..from + 16] == [];
  }

  method DesEncrypt(t: Boxes, ks: seq<Key>, x: (bv32, bv32)) returns (y: (bv32, bv32))
    requires |ks| == 16
    ensures y == DesWith(t, ks, x)
  {
    hide Rounds, Ip, Fp;
    var i := Ip(x);
    assert ks[0..16] == ks;
    var l, r := PairRounds(t, ks, 0, i.0, i.1);
    y := Fp((r, l));
  }

  /** Walking the table backwards. */
  method PairRoundsBack(t: Boxes, ks: seq<Key>, to: nat, x: bv32, y: bv32) returns (l: bv32, r: bv32)
    requires to + 16 <= |ks|
    ensures (l, r) == Rounds(t, Reversed(ks[to..to + 16]), x, y)
  {
    hide Round;
    ghost var rs := Reversed(ks[to..to + 16]);
    l, r := x, y;
    var k := to + 15;
    var i := 0;
    while i < 8
      invariant 0 <= i <= 8 && k == to + 15 - 2 * i
      invariant Rounds(t, rs[2 * i..], l, r) == Rounds(t, rs, x, y)
    {
      ReversedAt(ks[to..to + 16], 2 * i);
      ReversedAt(ks[to..to + 16], 2 * i + 1);
      assert rs[2 * i..][1..] == rs[2 * i + 1..] && rs[2 * i + 1..][1..] == rs[2 * i + 2..];
      l := Round(t, l, r, ks[k]);
      k := k - 1;
      r := Round(t, r, l, ks[k]);
      k := k - 1;
      i := i + 1;
    }
    assert rs[16..] == [];
  }

  method DesDecrypt(t: Boxes, ks: seq<Key>, x: (bv32, bv32)) returns (y: (bv32, bv32))
    requires |ks| == 16
    ensures y == DesWith(t, Reversed(ks), x)
    ensures forall z :: x == DesWith(t, ks, z) ==> y == z
  {
    hide Rounds, Ip, Fp;
    var i := Ip(x);
    assert ks[0..16] == ks;
    var l, r := PairRoundsBack(t, ks, 0, i.0, i.1);
    y := Fp((r, l));
    forall z | x == DesWith(t, ks, z) ensures y == z { DesInverse(t, ks, z); }
  }

  /** `des3_ede_encrypt`: forty-eight rounds between one `IP` and one `FP`, the middle sixteen with
      the halves in each other's place. It is encryption, decryption and encryption by single DES. */
  method Des3Encrypt(t: Boxes, ks: seq<Key>, x: (bv32, bv32), ghost k2: seq<Key>) returns (y: (bv32, bv32))
    requires |ks| == 48 && |k2| == 16 && ks[16..32] == Reversed(k2)
    ensures y == Ede(t, ks[..16], k2, ks[32..], x)
  {
    hide Rounds, Ip, Fp, Reversed;
    var i := Ip(x);
    var l, r := PairRounds(t, ks, 0, i.0, i.1);
    assert ks[0..16] == ks[..16] && ks[32..48] == ks[32..];
    IpAfterFp((r, l));
    r, l := PairRounds(t, ks, 16, r, l);
    IpAfterFp((l, r));
    l, r := PairRounds(t, ks, 32, l, r);
    y := Fp((r, l));
  }

  /** `des3_ede_decrypt`. */
  method Des3Decrypt(t: Boxes, ks: seq<Key>, x: (bv32, bv32), ghost k2: seq<Key>) returns (y: (bv32, bv32))
    requires |ks| == 48 && |k2| == 16 && ks[16..32] == Reversed(k2)
    ensures y == DesWith(t, Reversed(ks[..16]), DesWith(t, k2, DesWith(t, Reversed(ks[32..]), x)))
    ensures forall z :: x == Ede(t, ks[..16], k2, ks[32..], z) ==> y == z
  {
    hide Rounds, Ip, Fp, Reversed;
    var i := Ip(x);
    var l, r := PairRoundsBack(t, ks, 32, i.0, i.1);
    assert ks[0..16] == ks[..16] && ks[32..48] == ks[32..];
    IpAfterFp((r, l));
    ReversedTwice(k2);
    r, l := PairRoundsBack(t, ks, 16, r, l);
    IpAfterFp((l, r));
    l, r := PairRoundsBack(t, ks, 0, l, r);
    y := Fp((r, l));
    forall z | x == Ede(t, ks[..16], k2, ks[32..], z) ensures y == z {
      EdeInverse(t, ks[..16], k2, ks[32..], z);
    }
  }

  lemma EdeInverse(t: Boxes, k1: seq<Key>, k2: seq<Key>, k3: seq<Key>, x: (bv32, bv32))
    ensures DesWith(t, Reversed(k1), DesWith(t, k2, DesWith(t, Reversed(k3), Ede(t, k1, k2, k3, x)))) == x
  {
    hide DesWith, Reversed;
    var a := DesWith(t, k1, x);
    var b := DesWith(t, Reversed(k2), a);
    DesInverse(t, k3, b);
    DesInverse(t, Reversed(k2), a);
    ReversedTwice(k2);
    DesInverse(t, k1, x);
  }

  /** The third key encrypts the block that the second key maps to what the first key makes of `x`. */
  lemma EdeIs(t: Boxes, k1: seq<Key>, k2: seq<Key>, k3: seq<Key>, x: (bv32, bv32), z: (bv32, bv32))
    requires DesWith(t, k2, z) == DesWith(t, k1, x)
    ensures Ede(t, k1, k2, k3, x) == DesWith(t, k3, z)
  {
    hide DesWith, Reversed;
    DesInverse(t, k2, z);
  }

  /** With one key three times it is single DES. */
  lemma EdeOfOneKey(t: Boxes, k: seq<Key>, x: (bv32, bv32))
    ensures Ede(t, k, k, k, x) == DesWith(t, k, x)
  {
    hide DesWith, Reversed;
    EdeIs(t, k, k, k, x, x);
  }
}
