/** What the permutation macros of DES compute, bit by bit: the standard's initial permutation, on words
    in memory order, with both halves of the result turned by one place. */
module DesBits {

  import opened Words
  import opened Des

  predicate Bit(w: bv32, p: bv5) {
    (w >> p) & 1 == 1
  }

  /** A place in a pair of words: in the second word or not, and where. */
  datatype Place = Place(second: bool, at: bv5)

  predicate BitAt(x: (bv32, bv32), c: Place) {
    Bit(if c.second then x.1 else x.0, c.at)
  }

  lemma Rolled(x: bv32, p: bv5)
    ensures Bit((x << 4) | (x >> 28), p) == Bit(x, p - 4)
    ensures Bit((x << 12) | (x >> 20), p) == Bit(x, p - 12)
    ensures Bit((x << 18) | (x >> 14), p) == Bit(x, p - 18)
  {
  }

  lemma RolledMore(x: bv32, p: bv5)
    ensures Bit((x << 6) | (x >> 26), p) == Bit(x, p - 6)
    ensures Bit((x << 25) | (x >> 7), p) == Bit(x, p - 25)
    ensures Bit((x << 1) | (x >> 31), p) == Bit(x, p - 1)
  {
  }

  lemma RolBit(x: bv32, p: bv5)
    ensures Bit(Rol(x, 4), p) == Bit(x, p - 4) && Bit(Rol(x, 12), p) == Bit(x, p - 12)
    ensures Bit(Rol(x, 18), p) == Bit(x, p - 18) && Bit(Rol(x, 6), p) == Bit(x, p - 6)
    ensures Bit(Rol(x, 25), p) == Bit(x, p - 25) && Bit(Rol(x, 1), p) == Bit(x, p - 1)
  {
    hide Bit, Rol;
    Rolled(x, p);
    RolledMore(x, p);
    Rol4(x); Rol12(x); Rol18(x); Rol6(x); Rol25(x); Rol1(x);
  }

  lemma BitXor(a: bv32, b: bv32, p: bv5) ensures Bit(a ^ b, p) <==> Bit(a, p) != Bit(b, p) {}

  lemma BitAnd(a: bv32, b: bv32, p: bv5) ensures Bit(a & b, p) <==> Bit(a, p) && Bit(b, p) {}

  lemma XorBit(a: bv32, b: bv32, p: bv5)
    ensures Bit(Xor(a, b), p) <==> Bit(a, p) != Bit(b, p)
  {
    hide Bit, Xor;
    XorDef(a, b);
    BitXor(a, b, p);
  }

  lemma AndBit(a: bv32, b: bv32, p: bv5)
    ensures Bit(And(a, b), p) <==> Bit(a, p) && Bit(b, p)
  {
    hide Bit, And;
    AndDef(a, b);
    BitAnd(a, b, p);
  }

  lemma SwapBit(l: bv32, r: bv32, mask: bv32, p: bv5)
    ensures var s := Swap(l, r, mask);
            && Bit(s.0, p) == (if Bit(mask, p) then Bit(r, p) else Bit(l, p))
            && Bit(s.1, p) == (if Bit(mask, p) then Bit(l, p) else Bit(r, p))
  {
    hide Bit, Xor, And;
    var m := And(Xor(l, r), mask);
    XorBit(l, r, p);
    AndBit(Xor(l, r), mask, p);
    XorBit(m, l, p);
    XorBit(r, m, p);
  }

  /** Where a bit comes from through a swap with the second word turned by `n`. */
  function Before(c: Place, n: bv5, mask: bv32): (b: Place) {
    if c.second != Bit(mask, c.at) then Place(true, c.at - n) else Place(false, c.at)
  }

  lemma StageBit(x: (bv32, bv32), turned: bv32, n: bv5, mask: bv32, c: Place)
    requires Bit(turned, c.at) == Bit(x.1, c.at - n)
    ensures BitAt(Swap(x.0, turned, mask), c) == BitAt(x, Before(c, n, mask))
  {
    hide Bit, Swap;
    SwapBit(x.0, turned, mask, c.at);
  }

  lemma Stage4(x: (bv32, bv32), c: Place)
    ensures BitAt(Swap(x.0, Rol(x.1, 4), 0xf0f0f0f0), c) == BitAt(x, Before(c, 4, 0xf0f0f0f0))
  {
    hide Bit, Swap, Rol, BitAt, Before;
    RolBit(x.1, c.at);
    StageBit(x, Rol(x.1, 4), 4, 0xf0f0f0f0, c);
  }

  lemma Stage12(x: (bv32, bv32), c: Place)
    ensures BitAt(Swap(x.0, Rol(x.1, 12), 0xffff0000), c) == BitAt(x, Before(c, 12, 0xffff0000))
  {
    hide Bit, Swap, Rol, BitAt, Before;
    RolBit(x.1, c.at);
    StageBit(x, Rol(x.1, 12), 12, 0xffff0000, c);
  }

  lemma Stage18(x: (bv32, bv32), c: Place)
    ensures BitAt(Swap(x.0, Rol(x.1, 18), 0xcccccccc), c) == BitAt(x, Before(c, 18, 0xcccccccc))
  {
    hide Bit, Swap, Rol, BitAt, Before;
    RolBit(x.1, c.at);
    StageBit(x, Rol(x.1, 18), 18, 0xcccccccc, c);
  }

  lemma Stage6(x: (bv32, bv32), c: Place)
    ensures BitAt(Swap(x.0, Rol(x.1, 6), 0xff00ff00), c) == BitAt(x, Before(c, 6, 0xff00ff00))
  {
    hide Bit, Swap, Rol, BitAt, Before;
    RolBit(x.1, c.at);
    StageBit(x, Rol(x.1, 6), 6, 0xff00ff00, c);
  }

  lemma Stage25(x: (bv32, bv32), c: Place)
    ensures BitAt(Swap(x.0, Rol(x.1, 25), 0xaaaaaaaa), c) == BitAt(x, Before(c, 25, 0xaaaaaaaa))
  {
    hide Bit, Swap, Rol, BitAt, Before;
    RolBit(x.1, c.at);
    StageBit(x, Rol(x.1, 25), 25, 0xaaaaaaaa, c);
  }

  /** The last step turns the first word alone. */
  function BeforeTurn(c: Place): (b: Place) {
    if c.second then c else Place(false, c.at - 1)
  }

  lemma TurnBit(x: (bv32, bv32), c: Place)
    ensures BitAt((Rol(x.0, 1), x.1), c) == BitAt(x, BeforeTurn(c))
  {
    hide Bit, Rol;
    RolBit(x.0, c.at);
  }

  /** Where a bit of the result of `IP` comes from. */
  function IpOrigin(c: Place): (b: Place) {
    var p := Before(Before(BeforeTurn(c), 25, 0xaaaaaaaa), 6, 0xff00ff00);
    Before(Before(Before(p, 18, 0xcccccccc), 12, 0xffff0000), 4, 0xf0f0f0f0)
  }

  lemma IpBit(x: (bv32, bv32), c: Place)
    ensures BitAt(Ip(x), c) == BitAt(x, IpOrigin(c))
  {
    hide BitAt, Before, BeforeTurn, Swap, Rol;
    var a := Swap(x.0, Rol(x.1, 4), 0xf0f0f0f0);
    var b := Swap(a.0, Rol(a.1, 12), 0xffff0000);
    var d := Swap(b.0, Rol(b.1, 18), 0xcccccccc);
    var e := Swap(d.0, Rol(d.1, 6), 0xff00ff00);
    var f := Swap(e.0, Rol(e.1, 25), 0xaaaaaaaa);
    var p0 := BeforeTurn(c);
    var p1 := Before(p0, 25, 0xaaaaaaaa);
    var p2 := Before(p1, 6, 0xff00ff00);
    var p3 := Before(p2, 18, 0xcccccccc);
    TurnBit(f, c);
    Stage25(e, p0);
    Stage6(d, p1);
    Stage18(b, p2);
    Stage12(a, p3);
    Stage4(x, Before(p3, 12, 0xffff0000));
  }

  // ---- The standard's numbering ----

  /** Bit `j` of a block, counted from zero at the first bit of the first byte, in little-endian words. */
  function InBlock(j: bv6): (c: Place) {
    Place(j >= 32, (8 * ((j >> 3) & 3) + (7 - (j & 7))) as bv5)
  }

  /** Bit `i` of the permuted block, as the macros leave it: each half turned left by one. */
  function InHalves(i: bv6): (c: Place) {
    Place(i >= 32, 0 - ((i & 31) as bv5))
  }

  /** The table of the initial permutation, rows of eight, counted from zero. */
  function Standard(i: bv6): (j: bv6) {
    var row, column := i >> 3, i & 7;
    (if row < 4 then 57 + 2 * row else 56 + 2 * (row - 4)) - 8 * column
  }

  lemma OriginIsStandard(i: bv6)
    ensures IpOrigin(InHalves(i)) == InBlock(Standard(i))
  {
  }

  /** `IP` is the initial permutation of FIPS 46-3, up to the turn of the halves. */
  lemma IpIsStandard(x: (bv32, bv32), i: bv6)
    ensures BitAt(Ip(x), InHalves(i)) == BitAt(x, InBlock(Standard(i)))
  {
    hide Ip, IpOrigin, BitAt, InHalves, InBlock, Standard;
    IpBit(x, InHalves(i));
    OriginIsStandard(i);
  }

  /** `FP` brings every bit back. */
  lemma FpIsStandard(y: (bv32, bv32), i: bv6)
    ensures BitAt(Fp(y), InBlock(Standard(i))) == BitAt(y, InHalves(i))
  {
    hide Ip, Fp, BitAt, InHalves, InBlock, Standard;
    IpAfterFp(y);
    IpIsStandard(Fp(y), i);
  }
}
