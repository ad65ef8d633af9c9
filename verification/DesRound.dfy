/** The round function of DES against the standard's: expansion, substitution boxes and permutation, bit
    by bit, on halves turned left by one as the initial permutation leaves them. */
module DesRound {

  import opened Words
  import opened Des
  import opened DesBits

  /** Where bit `i` of a half, counted from zero, stands in its word. */
  function Turned(i: bv5): (p: bv5) { 0 - i }

  /** The permutation P of FIPS 46-3, counted from zero. */
  function Perm(i: bv5): (j: bv5) {
    match i
    case 0 => 15 case 1 => 6 case 2 => 19 case 3 => 20 case 4 => 28 case 5 => 11 case 6 => 27 case 7 => 16
    case 8 => 0 case 9 => 14 case 10 => 22 case 11 => 25 case 12 => 4 case 13 => 17 case 14 => 30 case 15 => 9
    case 16 => 1 case 17 => 7 case 18 => 23 case 19 => 13 case 20 => 31 case 21 => 26 case 22 => 2 case 23 => 8
    case 24 => 18 case 25 => 12 case 26 => 29 case 27 => 5 case 28 => 21 case 29 => 10 case 30 => 3 case _ => 24
  }

  function One(b: bool, w: bv32): (x: bv32) { if b then w else 0 }

  /** Six bits, the first counted highest. */
  function Row(a: bool, b: bool, c: bool, d: bool, e: bool, f: bool): (x: bv32) {
    One(a, 32) | One(b, 16) | One(c, 8) | One(d, 4) | One(e, 2) | One(f, 1)
  }

  /** Row `j` of the expansion E: six neighbouring bits of the half, the first counted highest. */
  function Expanded(r: bv32, j: bv5): (x: bv32) {
    var p := 1 - 4 * j;
    Row(Bit(r, p), Bit(r, p - 1), Bit(r, p - 2), Bit(r, p - 3), Bit(r, p - 4), Bit(r, p - 5))
  }

  /** Six bits of a word from place `n` up. */
  function Six(w: bv32, n: bv5): (x: bv32) { (w >> n) & 0x3f }

  /** The six key bits for row `j`: the second word holds those of the odd boxes, turned, the first word
      those of the even ones. */
  function KeyRow(k: Key, j: bv5): (x: bv32) {
    match j
    case 0 => Six(Rol(k.k1, 28), 24)
    case 1 => Six(k.k0, 24)
    case 2 => Six(Rol(k.k1, 28), 16)
    case 3 => Six(k.k0, 16)
    case 4 => Six(Rol(k.k1, 28), 8)
    case 5 => Six(k.k0, 8)
    case 6 => Six(Rol(k.k1, 28), 0)
    case _ => Six(k.k0, 0)
  }

  /** The eight substitution boxes, from six bits to four. */
  datatype Sboxes = Sboxes(s: bv5 -> bv32 -> bv32)

  /** Bit `m` of a box's output, the first counted highest. */
  predicate OutBit(y: bv32, m: bv5) { (y >> (3 - (m & 3))) & 1 == 1 }

  function Box(t: Boxes, j: bv5): (b: bv32 -> bv32) {
    match j
    case 0 => t.s1 case 1 => t.s2 case 2 => t.s3 case 3 => t.s4
    case 4 => t.s5 case 5 => t.s6 case 6 => t.s7 case _ => t.s8
  }

  /** The tables are the boxes with their output spread by P and turned. */
  ghost predicate MadeFrom(t: Boxes, s: Sboxes) {
    forall j: bv5, x: bv32, i: bv5 :: j < 8 && x < 64 ==>
      (Bit(Box(t, j)(x), Turned(i)) <==> Perm(i) >> 2 == j && OutBit(s.s(j)(x), Perm(i)))
  }

  // ---- The inputs of the boxes ----

  lemma SixBit(w: bv32, n: bv5, q: bv5)
    requires q < 6 && n <= 24
    ensures Bit(Six(w, n), q) == Bit(w, n + q)
  {
  }

  lemma SixBits(x: bv32)
    requires x < 64
    ensures x == Row(Bit(x, 5), Bit(x, 4), Bit(x, 3), Bit(x, 2), Bit(x, 1), Bit(x, 0))
  {
  }

  lemma SmallSix(w: bv32, n: bv5) ensures Six(w, n) < 64 {}

  lemma SixIsRow(w: bv32, n: bv5)
    requires n <= 24
    ensures Six(w, n) == Row(Bit(w, n + 5), Bit(w, n + 4), Bit(w, n + 3), Bit(w, n + 2), Bit(w, n + 1), Bit(w, n))
  {
    hide Bit, Six, Row;
    SmallSix(w, n);
    SixBits(Six(w, n));
    SixBit(w, n, 5); SixBit(w, n, 4); SixBit(w, n, 3); SixBit(w, n, 2); SixBit(w, n, 1); SixBit(w, n, 0);
  }

  lemma ExpandedEven(r: bv32)
    ensures Expanded(r, 1) == Six(r, 24) && Expanded(r, 3) == Six(r, 16)
    ensures Expanded(r, 5) == Six(r, 8) && Expanded(r, 7) == Six(r, 0)
  {
    hide Bit, Six, Row;
    SixIsRow(r, 24); SixIsRow(r, 16); SixIsRow(r, 8); SixIsRow(r, 0);
  }

  lemma Rol28Bit(x: bv32, y: bv32, p: bv5)
    requires y == (x << 28) | (x >> 4)
    ensures Bit(y, p) == Bit(x, p - 28)
  {
  }

  lemma ExpandedOdd(r: bv32, a: bv32, j: bv5, n: bv5)
    requires a == (r << 28) | (r >> 4) && n <= 24 && n == 24 - 4 * j
    ensures Expanded(r, j) == Six(a, n)
  {
    hide Bit, Six, Row;
    SixIsRow(a, n);
    Rol28Bit(r, a, n + 5); Rol28Bit(r, a, n + 4); Rol28Bit(r, a, n + 3);
    Rol28Bit(r, a, n + 2); Rol28Bit(r, a, n + 1); Rol28Bit(r, a, n);
  }

  lemma Fields(w: bv32)
    ensures Field(Masked(w), 0) == Six(w, 0) && Field(Masked(w), 8) == Six(w, 8)
    ensures Field(Masked(w), 16) == Six(w, 16) && Field(Masked(w), 24) == Six(w, 24)
  {
  }

  lemma RawSix(a: bv32, b: bv32, c: bv32, n: bv5, x: bv32, y: bv32)
    requires c == a ^ b && x == (a >> n) & 0x3f && y == (b >> n) & 0x3f
    ensures Six(c, n) == x ^ y
  {
  }

  lemma SixDef(w: bv32, n: bv5) ensures Six(w, n) == (w >> n) & 0x3f {}

  lemma SixXorAt(a: bv32, b: bv32, n: bv5)
    ensures Six(Xor(a, b), n) == Xor(Six(a, n), Six(b, n))
  {
    hide Six, Xor;
    XorDef(a, b);
    SixDef(a, n);
    SixDef(b, n);
    RawSix(a, b, Xor(a, b), n, Six(a, n), Six(b, n));
    XorDef(Six(a, n), Six(b, n));
  }

  lemma SixXor(a: bv32, b: bv32)
    ensures Six(Xor(a, b), 0) == Xor(Six(a, 0), Six(b, 0)) && Six(Xor(a, b), 8) == Xor(Six(a, 8), Six(b, 8))
    ensures Six(Xor(a, b), 16) == Xor(Six(a, 16), Six(b, 16)) && Six(Xor(a, b), 24) == Xor(Six(a, 24), Six(b, 24))
  {
    hide Six, Xor;
    SixXorAt(a, b, 0);
    SixXorAt(a, b, 8);
    SixXorAt(a, b, 16);
    SixXorAt(a, b, 24);
  }

  lemma RawRol(a: bv32, b: bv32, c: bv32)
    requires c == a ^ b
    ensures (c << 28) | (c >> 4) == ((a << 28) | (a >> 4)) ^ ((b << 28) | (b >> 4))
  {
  }

  lemma RolXor(a: bv32, b: bv32)
    ensures Rol(Xor(a, b), 28) == Xor(Rol(a, 28), Rol(b, 28))
  {
    hide Rol, Xor;
    XorDef(a, b);
    RawRol(a, b, Xor(a, b));
    Rol28(a); Rol28(b); Rol28(Xor(a, b));
    XorDef(Rol(a, 28), Rol(b, 28));
  }

  /** What goes into box `j`: its row of the expanded half, added to its row of the key. */
  function Into(r: bv32, k: Key, j: bv5): (x: bv32) {
    Xor(KeyRow(k, j), Expanded(r, j))
  }

  lemma EvenInputs(r: bv32, k: Key)
    ensures var b := Masked(Xor(k.k0, r));
            && Field(b, 0) == Into(r, k, 7) && Field(b, 8) == Into(r, k, 5)
            && Field(b, 16) == Into(r, k, 3) && Field(b, 24) == Into(r, k, 1)
  {
    hide Six, Expanded, Xor, Masked, Field;
    Fields(Xor(k.k0, r));
    SixXor(k.k0, r);
    ExpandedEven(r);
  }

  lemma OddInputs(r: bv32, k: Key)
    ensures var a := Masked(Rol(Xor(k.k1, r), 28));
            && Field(a, 0) == Into(r, k, 6) && Field(a, 8) == Into(r, k, 4)
            && Field(a, 16) == Into(r, k, 2) && Field(a, 24) == Into(r, k, 0)
  {
    hide Six, Expanded, Xor, Rol, Masked, Field;
    RolXor(k.k1, r);
    Fields(Xor(Rol(k.k1, 28), Rol(r, 28)));
    SixXor(Rol(k.k1, 28), Rol(r, 28));
    OddRows(r);
  }

  lemma OddRows(r: bv32)
    ensures Expanded(r, 0) == Six(Rol(r, 28), 24) && Expanded(r, 2) == Six(Rol(r, 28), 16)
    ensures Expanded(r, 4) == Six(Rol(r, 28), 8) && Expanded(r, 6) == Six(Rol(r, 28), 0)
  {
    hide Six, Expanded, Rol;
    Rol28(r);
    ExpandedOdd(r, Rol(r, 28), 0, 24);
    ExpandedOdd(r, Rol(r, 28), 2, 16);
    ExpandedOdd(r, Rol(r, 28), 4, 8);
    ExpandedOdd(r, Rol(r, 28), 6, 0);
  }

  lemma SmallExpanded(r: bv32, j: bv5) ensures Expanded(r, j) < 64 {}

  lemma SmallSum(a: bv32, b: bv32)
    requires a < 64 && b < 64
    ensures Xor(a, b) < 64
  {
  }

  lemma SmallInput(r: bv32, k: Key, j: bv5)
    ensures Into(r, k, j) < 64
  {
    hide Xor, Rol, Six, Expanded;
    SmallExpanded(r, j);
    var x := Rol(k.k1, 28);
    SmallSix(x, 0); SmallSix(x, 8); SmallSix(x, 16); SmallSix(x, 24);
    SmallSix(k.k0, 0); SmallSix(k.k0, 8); SmallSix(k.k0, 16); SmallSix(k.k0, 24);
    SmallSum(KeyRow(k, j), Expanded(r, j));
  }

  // ---- The round function ----

  /** What box `j` adds at bit `i` of the half. */
  ghost predicate Adds(t: Boxes, r: bv32, k: Key, j: bv5, i: bv5) {
    Bit(Box(t, j)(Into(r, k, j)), Turned(i))
  }

  lemma SumOfBoxes(t: Boxes, r: bv32, k: Key, i: bv5)
    ensures Bit(F(t, r, k), Turned(i)) <==>
              (((Adds(t, r, k, 7, i) != Adds(t, r, k, 5, i)) != (Adds(t, r, k, 6, i) != Adds(t, r, k, 4, i))) !=
               ((Adds(t, r, k, 3, i) != Adds(t, r, k, 1, i)) != (Adds(t, r, k, 2, i) != Adds(t, r, k, 0, i))))
  {
    hide Bit, Xor, Rol, Masked, Field, Into, Turned;
    EvenInputs(r, k);
    OddInputs(r, k);
    var p := Turned(i);
    var a, b, c, d := t.s8(Into(r, k, 7)), t.s6(Into(r, k, 5)), t.s7(Into(r, k, 6)), t.s5(Into(r, k, 4));
    var e, f, g, h := t.s4(Into(r, k, 3)), t.s2(Into(r, k, 1)), t.s3(Into(r, k, 2)), t.s1(Into(r, k, 0));
    XorBit(a, b, p); XorBit(c, d, p); XorBit(e, f, p); XorBit(g, h, p);
    XorBit(Xor(a, b), Xor(c, d), p);
    XorBit(Xor(e, f), Xor(g, h), p);
    XorBit(Xor(Xor(a, b), Xor(c, d)), Xor(Xor(e, f), Xor(g, h)), p);
  }

  /** The box that bit `i` of the result belongs to. */
  function BoxOf(i: bv5): (j: bv5) { Perm(i) >> 2 }

  lemma EightBoxes(j: bv5)
    requires j < 8
    ensures j == 0 || j == 1 || j == 2 || j == 3 || j == 4 || j == 5 || j == 6 || j == 7
  {
  }

  lemma BoxSmall(i: bv5) ensures BoxOf(i) < 8 {}

  lemma BoxAdds(t: Boxes, s: Sboxes, r: bv32, k: Key, j: bv5, i: bv5)
    requires MadeFrom(t, s) && j < 8
    ensures Adds(t, r, k, j, i) <==> BoxOf(i) == j && OutBit(s.s(j)(Into(r, k, j)), Perm(i))
  {
    hide Bit, Into, Turned, Perm, OutBit, Box;
    SmallInput(r, k, j);
  }

  /** The round function is P(S(E(R) + K)): bit `i` is the bit P names, of the box it belongs to. */
  lemma FIsStandard(t: Boxes, s: Sboxes, r: bv32, k: Key, i: bv5)
    requires MadeFrom(t, s)
    ensures var j := BoxOf(i);
            Bit(F(t, r, k), Turned(i)) <==> OutBit(s.s(j)(Xor(KeyRow(k, j), Expanded(r, j))), Perm(i))
  {
    hide Bit, Xor, Turned, Perm, OutBit, F, Box, BoxOf, Adds, MadeFrom, KeyRow, Expanded;
    SumOfBoxes(t, r, k, i);
    BoxSmall(i);
    EightBoxes(BoxOf(i));
    BoxAdds(t, s, r, k, 0, i); BoxAdds(t, s, r, k, 1, i); BoxAdds(t, s, r, k, 2, i); BoxAdds(t, s, r, k, 3, i);
    BoxAdds(t, s, r, k, 4, i); BoxAdds(t, s, r, k, 5, i); BoxAdds(t, s, r, k, 6, i); BoxAdds(t, s, r, k, 7, i);
  }
}
