/** 32-bit words and the laws of their operations. The operations are named so that proofs about
    ciphers can use the laws without looking at single bits. */
module Words {

  function Xor(a: bv32, b: bv32): (c: bv32) { a ^ b }

  function And(a: bv32, b: bv32): (c: bv32) { a & b }

  function Or(a: bv32, b: bv32): (c: bv32) { a | b }

  function Not(a: bv32): (c: bv32) { !a }

  function Rl1(x: bv32): (y: bv32) { (x << 1) | (x >> 31) }

  function Rl8(x: bv32): (y: bv32) { (x << 8) | (x >> 24) }

  function Rr8(x: bv32): (y: bv32) { (x >> 8) | (x << 24) }

  /** The bytes of a word by their weight, and its upper half. */
  function B0(x: bv32): (y: bv32) { x & 0xff }

  function B8(x: bv32): (y: bv32) { (x >> 8) & 0xff }

  function B16(x: bv32): (y: bv32) { (x >> 16) & 0xff }

  function B24(x: bv32): (y: bv32) { (x >> 24) & 0xff }

  function Hi(x: bv32): (y: bv32) { x >> 16 }

  // ---- Each operation as the solver knows it ----

  lemma XorDef(a: bv32, b: bv32) ensures Xor(a, b) == a ^ b {}

  lemma AndDef(a: bv32, b: bv32) ensures And(a, b) == a & b {}

  lemma NotDef(a: bv32) ensures Not(a) == !a {}

  lemma RawAssoc(a: bv32, b: bv32, c: bv32) ensures (a ^ b) ^ c == a ^ (b ^ c) {}

  lemma RawDistrib(a: bv32, b: bv32, k: bv32) ensures (a ^ b) & k == (a & k) ^ (b & k) {}

  lemma RawAndNot(a: bv32, b: bv32) ensures And(a, !b) == a ^ (a & b) {}

  lemma RawOr(a: bv32, b: bv32) ensures Or(a, b) == And(a, !b) ^ b {}

  // ---- Laws ----

  lemma XorBasics(a: bv32, b: bv32)
    ensures Xor(a, b) == Xor(b, a) && Xor(a, a) == 0 && Xor(a, 0) == a && Xor(0, a) == a
  {
  }

  lemma XorAssoc(a: bv32, b: bv32, c: bv32)
    ensures Xor(Xor(a, b), c) == Xor(a, Xor(b, c))
  {
    hide Xor;
    RawAssoc(a, b, c);
    XorDef(a, b); XorDef(a ^ b, c); XorDef(b, c); XorDef(a, b ^ c);
  }

  lemma XorCancel(a: bv32, b: bv32)
    ensures Xor(Xor(a, b), b) == a
  {
    hide Xor;
    XorAssoc(a, b, b); XorBasics(b, b); XorBasics(a, a);
  }

  lemma XorSwap(a: bv32, b: bv32, c: bv32, d: bv32)
    ensures Xor(Xor(a, b), Xor(c, d)) == Xor(Xor(a, c), Xor(b, d))
  {
    hide Xor;
    XorAssoc(a, b, Xor(c, d)); XorAssoc(b, c, d); XorBasics(b, c);
    XorAssoc(c, b, d); XorAssoc(a, c, Xor(b, d));
  }

  lemma AndDistrib(a: bv32, b: bv32, k: bv32)
    ensures And(Xor(a, b), k) == Xor(And(a, k), And(b, k))
    ensures And(k, Xor(a, b)) == Xor(And(k, a), And(k, b))
  {
    hide Xor, And;
    RawDistrib(a, b, k);
    XorDef(a, b); AndDef(a, k); AndDef(b, k); AndDef(a ^ b, k); XorDef(a & k, b & k);
    AndComm(Xor(a, b), k); AndComm(a, k); AndComm(b, k);
  }

  lemma AndComm(a: bv32, b: bv32) ensures And(a, b) == And(b, a) {}

  lemma AndNot(a: bv32, b: bv32)
    ensures And(a, Not(b)) == Xor(a, And(a, b))
  {
    hide Xor, And, Not;
    RawAndNot(a, b);
    XorDef(a, a & b); AndDef(a, b); NotDef(b);
  }

  lemma OrIs(a: bv32, b: bv32)
    ensures Or(a, b) == Xor(Xor(a, And(a, b)), b)
  {
    hide Xor, And, Or, Not;
    RawOr(a, b);
    XorDef(And(a, !b), b); NotDef(b);
    AndNot(a, b);
  }

  lemma OrXor(k: bv32, a: bv32, d: bv32)
    ensures Or(k, Xor(a, d)) == Xor(Or(k, a), And(d, Not(k)))
  {
    hide Xor, And, Or, Not;
    OrIs(k, Xor(a, d));
    OrIs(k, a);
    AndNot(d, k);
    AndDistrib(a, d, k);
    AndComm(d, k);
    var p, q := And(k, a), And(k, d);
    XorAssoc(k, p, q);
    XorBasics(d, q);
    XorSwap(Xor(k, p), q, a, d);
  }

  lemma Rl1Xor(a: bv32, b: bv32) ensures Rl1(Xor(a, b)) == Xor(Rl1(a), Rl1(b)) {}

  lemma Rr8Xor(a: bv32, b: bv32) ensures Rr8(Xor(a, b)) == Xor(Rr8(a), Rr8(b)) {}

  /** The rotations are written as sums; the parts do not overlap. */
  lemma RotationsAsSums(x: bv32)
    ensures Rl1(x) == (x << 1) + (x >> 31) && Rl8(x) == (x << 8) + (x >> 24) && Rr8(x) == (x >> 8) + (x << 24)
  {
  }

  lemma BytesOfHi(x: bv32) ensures B8(Hi(x)) == B24(x) && B0(Hi(x)) == B16(x) {}

  lemma RotateBack(a: bv32)
    ensures Rr8(Rl8(a)) == a
  {
  }
}
