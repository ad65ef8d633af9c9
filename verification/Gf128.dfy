/** Multiplication in GF(2^128), as a sum of shifted factors taken bit by bit, in the two bit orders
    of the source; and the word-level steps that multiply by x and by x^8.

    A field element is 128 bits, the first eight bytes in memory more significant. In order `Bbe`
    the least significant bit is the coefficient of 1, in order `Lle` the most significant one. */
module Gf128 {

  datatype Order = Bbe | Lle

  function Xor(a: bv128, b: bv128): (c: bv128) { a ^ b }

  // ---- The field by its definition ----

  /** Multiplication by x modulo x^128 + x^7 + x^2 + x + 1. */
  function Times(o: Order, e: bv128): (r: bv128) {
    if o.Bbe? then TimesBbe(e) else TimesLle(e)
  }

  function TimesBbe(e: bv128): (r: bv128) {
    if e >> 127 == 1 then (e << 1) ^ 0x87 else e << 1
  }

  function TimesLle(e: bv128): (r: bv128) {
    if e & 1 == 1 then (e >> 1) ^ 0xe1000000_00000000_00000000_00000000 else e >> 1
  }

  /** Multiplication by x^k. */
  function Shift(o: Order, e: bv128, k: nat): (r: bv128)
    decreases k
  {
    if k == 0 then e else Shift(o, Times(o, e), k - 1)
  }

  /** The product of `e` and the polynomial whose coefficients are the binary digits of `n`, the
      lowest digit the coefficient of 1. */
  function Product(o: Order, e: bv128, n: nat): (r: bv128)
    decreases n
  {
    if n == 0 then 0
    else if n % 2 == 1 then Xor(e, Product(o, Times(o, e), n / 2))
    else Product(o, Times(o, e), n / 2)
  }

  // ---- The steps of the source, on two 64-bit words ----

  /** `xda_bbe` and `xda_lle`: what the byte shifted out of the element turns into. */
  function XdaBbe(i: bv64): (w: bv64) {
    (if i & 0x80 != 0 then 0x4380 else 0) ^ (if i & 0x40 != 0 then 0x21c0 else 0) ^
    (if i & 0x20 != 0 then 0x10e0 else 0) ^ (if i & 0x10 != 0 then 0x0870 else 0) ^
    (if i & 0x08 != 0 then 0x0438 else 0) ^ (if i & 0x04 != 0 then 0x021c else 0) ^
    (if i & 0x02 != 0 then 0x010e else 0) ^ (if i & 0x01 != 0 then 0x0087 else 0)
  }

  function XdaLle(i: bv64): (w: bv64) {
    (if i & 0x80 != 0 then 0xe100 else 0) ^ (if i & 0x40 != 0 then 0x7080 else 0) ^
    (if i & 0x20 != 0 then 0x3840 else 0) ^ (if i & 0x10 != 0 then 0x1c20 else 0) ^
    (if i & 0x08 != 0 then 0x0e10 else 0) ^ (if i & 0x04 != 0 then 0x0708 else 0) ^
    (if i & 0x02 != 0 then 0x0384 else 0) ^ (if i & 0x01 != 0 then 0x01c2 else 0)
  }

  // A step picks a table index from the element and assembles the new words around the table entry.

  function XBbeIndex(e: bv128): (i: bv64) { ((e >> 64) as bv64) >> 63 }

  function XBbeWith(e: bv128, w: bv64): (r: bv128) {
    ((((((e >> 64) as bv64) << 1) | (((e & 0xffffffff_ffffffff) as bv64) >> 63)) as bv128) << 64) |
        (((((e & 0xffffffff_ffffffff) as bv64) << 1) ^ w) as bv128)
  }

  /** `gf128mul_x_bbe`. */
  function XBbe(e: bv128): (r: bv128) { XBbeWith(e, XdaBbe(XBbeIndex(e))) }

  function X8BbeIndex(e: bv128): (i: bv64) { ((e >> 64) as bv64) >> 56 }

  function X8BbeWith(e: bv128, w: bv64): (r: bv128) {
    ((((((e >> 64) as bv64) << 8) | (((e & 0xffffffff_ffffffff) as bv64) >> 56)) as bv128) << 64) |
        (((((e & 0xffffffff_ffffffff) as bv64) << 8) ^ w) as bv128)
  }

  /** `gf128mul_x8_bbe`. */
  function X8Bbe(e: bv128): (r: bv128) { X8BbeWith(e, XdaBbe(X8BbeIndex(e))) }

  function XLleIndex(e: bv128): (i: bv64) { (((e & 0xffffffff_ffffffff) as bv64) << 7) & 0xff }

  function XLleWith(e: bv128, w: bv64): (r: bv128) {
    ((((((e >> 64) as bv64) >> 1) ^ (w << 48)) as bv128) << 64) |
        (((((e & 0xffffffff_ffffffff) as bv64) >> 1) | (((e >> 64) as bv64) << 63)) as bv128)
  }

  /** `gf128mul_x_lle`. */
  function XLle(e: bv128): (r: bv128) { XLleWith(e, XdaLle(XLleIndex(e))) }

  function X8LleIndex(e: bv128): (i: bv64) { ((e & 0xffffffff_ffffffff) as bv64) & 0xff }

  function X8LleWith(e: bv128, w: bv64): (r: bv128) {
    ((((((e >> 64) as bv64) >> 8) ^ (w << 48)) as bv128) << 64) |
        (((((e & 0xffffffff_ffffffff) as bv64) >> 8) | (((e >> 64) as bv64) << 56)) as bv128)
  }

  /** `gf128mul_x8_lle`. */
  function X8Lle(e: bv128): (r: bv128) { X8LleWith(e, XdaLle(X8LleIndex(e))) }

  // ---- Strides: multiplication by x^k for k up to 8, without a case split ----

  function Bbe1(e: bv128): (r: bv128) {
    (e << 1) ^ ((e >> 127) ^ ((e >> 127) << 1) ^ ((e >> 127) << 2) ^ ((e >> 127) << 7))
  }

  function Bbe2(e: bv128): (r: bv128) {
    (e << 2) ^ ((e >> 126) ^ ((e >> 126) << 1) ^ ((e >> 126) << 2) ^ ((e >> 126) << 7))
  }

  function Bbe4(e: bv128): (r: bv128) {
    (e << 4) ^ ((e >> 124) ^ ((e >> 124) << 1) ^ ((e >> 124) << 2) ^ ((e >> 124) << 7))
  }

  function Bbe8(e: bv128): (r: bv128) {
    (e << 8) ^ ((e >> 120) ^ ((e >> 120) << 1) ^ ((e >> 120) << 2) ^ ((e >> 120) << 7))
  }

  function Lle1(e: bv128): (r: bv128) {
    (e >> 1) ^ ((e << 127) ^ ((e << 127) >> 1) ^ ((e << 127) >> 2) ^ ((e << 127) >> 7))
  }

  function Lle2(e: bv128): (r: bv128) {
    (e >> 2) ^ ((e << 126) ^ ((e << 126) >> 1) ^ ((e << 126) >> 2) ^ ((e << 126) >> 7))
  }

  function Lle4(e: bv128): (r: bv128) {
    (e >> 4) ^ ((e << 124) ^ ((e << 124) >> 1) ^ ((e << 124) >> 2) ^ ((e << 124) >> 7))
  }

  function Lle8(e: bv128): (r: bv128) {
    (e >> 8) ^ ((e << 120) ^ ((e << 120) >> 1) ^ ((e << 120) >> 2) ^ ((e << 120) >> 7))
  }

  // ---- Each stride as the solver knows it, and how strides compose ----

  lemma Bbe1Def(e: bv128)
    ensures Bbe1(e) == (e << 1) ^ ((e >> 127) ^ ((e >> 127) << 1) ^ ((e >> 127) << 2) ^ ((e >> 127) << 7))
  {
  }

  lemma Bbe2Def(e: bv128)
    ensures Bbe2(e) == (e << 2) ^ ((e >> 126) ^ ((e >> 126) << 1) ^ ((e >> 126) << 2) ^ ((e >> 126) << 7))
  {
  }

  lemma Bbe4Def(e: bv128)
    ensures Bbe4(e) == (e << 4) ^ ((e >> 124) ^ ((e >> 124) << 1) ^ ((e >> 124) << 2) ^ ((e >> 124) << 7))
  {
  }

  lemma Bbe8Def(e: bv128)
    ensures Bbe8(e) == (e << 8) ^ ((e >> 120) ^ ((e >> 120) << 1) ^ ((e >> 120) << 2) ^ ((e >> 120) << 7))
  {
  }

  lemma RawBbe1(e: bv128, f: bv128)
    requires f == (e << 1) ^ ((e >> 127) ^ ((e >> 127) << 1) ^ ((e >> 127) << 2) ^ ((e >> 127) << 7))
    ensures Bbe1(f) == (e << 2) ^ ((e >> 126) ^ ((e >> 126) << 1) ^ ((e >> 126) << 2) ^ ((e >> 126) << 7))
  {
  }

  lemma Bbe1Twice(e: bv128)
    ensures Bbe1(Bbe1(e)) == Bbe2(e)
  {
    hide Bbe1, Bbe2;
    var f := Bbe1(e);
    Bbe1Def(e); Bbe2Def(e);
    RawBbe1(e, f);
  }

  lemma RawBbe2(e: bv128, f: bv128)
    requires f == (e << 2) ^ ((e >> 126) ^ ((e >> 126) << 1) ^ ((e >> 126) << 2) ^ ((e >> 126) << 7))
    ensures Bbe2(f) == (e << 4) ^ ((e >> 124) ^ ((e >> 124) << 1) ^ ((e >> 124) << 2) ^ ((e >> 124) << 7))
  {
  }

  lemma Bbe2Twice(e: bv128)
    ensures Bbe2(Bbe2(e)) == Bbe4(e)
  {
    hide Bbe2, Bbe4;
    var f := Bbe2(e);
    Bbe2Def(e); Bbe4Def(e);
    RawBbe2(e, f);
  }

  lemma RawBbe4(e: bv128, f: bv128)
    requires f == (e << 4) ^ ((e >> 124) ^ ((e >> 124) << 1) ^ ((e >> 124) << 2) ^ ((e >> 124) << 7))
    ensures Bbe4(f) == (e << 8) ^ ((e >> 120) ^ ((e >> 120) << 1) ^ ((e >> 120) << 2) ^ ((e >> 120) << 7))
  {
  }

  lemma Bbe4Twice(e: bv128)
    ensures Bbe4(Bbe4(e)) == Bbe8(e)
  {
    hide Bbe4, Bbe8;
    var f := Bbe4(e);
    Bbe4Def(e); Bbe8Def(e);
    RawBbe4(e, f);
  }

  lemma Lle1Def(e: bv128)
    ensures Lle1(e) == (e >> 1) ^ ((e << 127) ^ ((e << 127) >> 1) ^ ((e << 127) >> 2) ^ ((e << 127) >> 7))
  {
  }

  lemma Lle2Def(e: bv128)
    ensures Lle2(e) == (e >> 2) ^ ((e << 126) ^ ((e << 126) >> 1) ^ ((e << 126) >> 2) ^ ((e << 126) >> 7))
  {
  }

  lemma Lle4Def(e: bv128)
    ensures Lle4(e) == (e >> 4) ^ ((e << 124) ^ ((e << 124) >> 1) ^ ((e << 124) >> 2) ^ ((e << 124) >> 7))
  {
  }

  lemma Lle8Def(e: bv128)
    ensures Lle8(e) == (e >> 8) ^ ((e << 120) ^ ((e << 120) >> 1) ^ ((e << 120) >> 2) ^ ((e << 120) >> 7))
  {
  }

  lemma RawLle1(e: bv128, f: bv128)
    requires f == (e >> 1) ^ ((e << 127) ^ ((e << 127) >> 1) ^ ((e << 127) >> 2) ^ ((e << 127) >> 7))
    ensures Lle1(f) == (e >> 2) ^ ((e << 126) ^ ((e << 126) >> 1) ^ ((e << 126) >> 2) ^ ((e << 126) >> 7))
  {
  }

  lemma Lle1Twice(e: bv128)
    ensures Lle1(Lle1(e)) == Lle2(e)
  {
    hide Lle1, Lle2;
    var f := Lle1(e);
    Lle1Def(e); Lle2Def(e);
    RawLle1(e, f);
  }

  lemma RawLle2(e: bv128, f: bv128)
    requires f == (e >> 2) ^ ((e << 126) ^ ((e << 126) >> 1) ^ ((e << 126) >> 2) ^ ((e << 126) >> 7))
    ensures Lle2(f) == (e >> 4) ^ ((e << 124) ^ ((e << 124) >> 1) ^ ((e << 124) >> 2) ^ ((e << 124) >> 7))
  {
  }

  lemma Lle2Twice(e: bv128)
    ensures Lle2(Lle2(e)) == Lle4(e)
  {
    hide Lle2, Lle4;
    var f := Lle2(e);
    Lle2Def(e); Lle4Def(e);
    RawLle2(e, f);
  }

  lemma RawLle4(e: bv128, f: bv128)
    requires f == (e >> 4) ^ ((e << 124) ^ ((e << 124) >> 1) ^ ((e << 124) >> 2) ^ ((e << 124) >> 7))
    ensures Lle4(f) == (e >> 8) ^ ((e << 120) ^ ((e << 120) >> 1) ^ ((e << 120) >> 2) ^ ((e << 120) >> 7))
  {
  }

  lemma Lle4Twice(e: bv128)
    ensures Lle4(Lle4(e)) == Lle8(e)
  {
    hide Lle4, Lle8;
    var f := Lle4(e);
    Lle4Def(e); Lle8Def(e);
    RawLle4(e, f);
  }

  // ---- The source's steps are these strides ----

  lemma BbeTop(e: bv128)
    ensures e >> 127 == 1 ==> Bbe1(e) == (e << 1) ^ 0x87
    ensures e >> 127 != 1 ==> Bbe1(e) == e << 1
  {
  }

  lemma LleLow(e: bv128)
    ensures e & 1 == 1 ==> Lle1(e) == (e >> 1) ^ 0xe1000000_00000000_00000000_00000000
    ensures e & 1 != 1 ==> Lle1(e) == e >> 1
  {
  }

  // The table entries as sums of shifts.

  function FoldBbe(i: bv64): (w: bv64) { i ^ (i << 1) ^ (i << 2) ^ (i << 7) }

  function FoldLle(i: bv64): (w: bv64) { (i << 8) ^ (i << 7) ^ (i << 6) ^ (i << 1) }

  lemma XdaBbeIs(i: bv64) requires i <= 0xff ensures XdaBbe(i) == FoldBbe(i) {}

  lemma XdaLleIs(i: bv64) requires i <= 0xff ensures XdaLle(i) == FoldLle(i) {}

  lemma XBbeSmall(e: bv128) ensures XBbeIndex(e) <= 0xff {}

  lemma XBbeFold(e: bv128)
    ensures FoldBbe(XBbeIndex(e)) == (((e >> 64) as bv64) >> 63) ^ ((((e >> 64) as bv64) >> 63) << 1) ^
        ((((e >> 64) as bv64) >> 63) << 2) ^ ((((e >> 64) as bv64) >> 63) << 7)
  {
  }

  lemma XBbeRaw(e: bv128)
    ensures XBbeWith(e, (((e >> 64) as bv64) >> 63) ^ ((((e >> 64) as bv64) >> 63) << 1) ^
        ((((e >> 64) as bv64) >> 63) << 2) ^ ((((e >> 64) as bv64) >> 63) << 7)) == Bbe1(e)
  {
  }

  lemma XBbeIs(e: bv128)
    ensures XBbe(e) == Bbe1(e)
  {
    hide XBbeIndex, XBbeWith, XdaBbe, FoldBbe, Bbe1;
    XBbeSmall(e);
    XdaBbeIs(XBbeIndex(e));
    XBbeFold(e);
    XBbeRaw(e);
  }

  lemma X8BbeSmall(e: bv128) ensures X8BbeIndex(e) <= 0xff {}

  lemma X8BbeFold(e: bv128)
    ensures FoldBbe(X8BbeIndex(e)) == (((e >> 64) as bv64) >> 56) ^ ((((e >> 64) as bv64) >> 56) << 1) ^
        ((((e >> 64) as bv64) >> 56) << 2) ^ ((((e >> 64) as bv64) >> 56) << 7)
  {
  }

  lemma X8BbeRaw(e: bv128)
    ensures X8BbeWith(e, (((e >> 64) as bv64) >> 56) ^ ((((e >> 64) as bv64) >> 56) << 1) ^
        ((((e >> 64) as bv64) >> 56) << 2) ^ ((((e >> 64) as bv64) >> 56) << 7)) == Bbe8(e)
  {
  }

  lemma X8BbeIs(e: bv128)
    ensures X8Bbe(e) == Bbe8(e)
  {
    hide X8BbeIndex, X8BbeWith, XdaBbe, FoldBbe, Bbe8;
    X8BbeSmall(e);
    XdaBbeIs(X8BbeIndex(e));
    X8BbeFold(e);
    X8BbeRaw(e);
  }

  lemma XLleSmall(e: bv128) ensures XLleIndex(e) <= 0xff {}

  lemma XLleFold(e: bv128)
    ensures FoldLle(XLleIndex(e)) == (((((e & 0xffffffff_ffffffff) as bv64) << 7) & 0xff) << 8) ^
        (((((e & 0xffffffff_ffffffff) as bv64) << 7) & 0xff) << 7) ^
        (((((e & 0xffffffff_ffffffff) as bv64) << 7) & 0xff) << 6) ^
        (((((e & 0xffffffff_ffffffff) as bv64) << 7) & 0xff) << 1)
  {
  }

  lemma XLleRaw(e: bv128)
    ensures XLleWith(e, (((((e & 0xffffffff_ffffffff) as bv64) << 7) & 0xff) << 8) ^
        (((((e & 0xffffffff_ffffffff) as bv64) << 7) & 0xff) << 7) ^
        (((((e & 0xffffffff_ffffffff) as bv64) << 7) & 0xff) << 6) ^
        (((((e & 0xffffffff_ffffffff) as bv64) << 7) & 0xff) << 1)) == Lle1(e)
  {
  }

  lemma XLleIs(e: bv128)
    ensures XLle(e) == Lle1(e)
  {
    hide XLleIndex, XLleWith, XdaLle, FoldLle, Lle1;
    XLleSmall(e);
    XdaLleIs(XLleIndex(e));
    XLleFold(e);
    XLleRaw(e);
  }

  lemma X8LleSmall(e: bv128) ensures X8LleIndex(e) <= 0xff {}

  lemma X8LleFold(e: bv128)
    ensures FoldLle(X8LleIndex(e)) == ((((e & 0xffffffff_ffffffff) as bv64) & 0xff) << 8) ^
        ((((e & 0xffffffff_ffffffff) as bv64) & 0xff) << 7) ^ ((((e & 0xffffffff_ffffffff) as bv64) & 0xff) << 6) ^
        ((((e & 0xffffffff_ffffffff) as bv64) & 0xff) << 1)
  {
  }

  lemma X8LleRaw(e: bv128)
    ensures X8LleWith(e, ((((e & 0xffffffff_ffffffff) as bv64) & 0xff) << 8) ^
        ((((e & 0xffffffff_ffffffff) as bv64) & 0xff) << 7) ^ ((((e & 0xffffffff_ffffffff) as bv64) & 0xff) << 6) ^
        ((((e & 0xffffffff_ffffffff) as bv64) & 0xff) << 1)) == Lle8(e)
  {
  }

  lemma X8LleIs(e: bv128)
    ensures X8Lle(e) == Lle8(e)
  {
    hide X8LleIndex, X8LleWith, XdaLle, FoldLle, Lle8;
    X8LleSmall(e);
    XdaLleIs(X8LleIndex(e));
    X8LleFold(e);
    X8LleRaw(e);
  }

  // ---- Algebra ----

  lemma XorDef(a: bv128, b: bv128) ensures Xor(a, b) == a ^ b {}

  lemma RawLeft(a: bv128, b: bv128, c: bv128, p: bv128) requires p == a ^ b ensures Xor(p, c) == a ^ b ^ c {}

  lemma RawRight(a: bv128, b: bv128, c: bv128, q: bv128) requires q == b ^ c ensures Xor(a, q) == a ^ b ^ c {}

  lemma XorComm(a: bv128, b: bv128) ensures Xor(a, b) == Xor(b, a) {}

  lemma XorSelf(a: bv128) ensures Xor(a, a) == 0 {}

  lemma XorZero(a: bv128) ensures Xor(a, 0) == a {}

  lemma XorBasics(a: bv128, b: bv128)
    ensures Xor(a, b) == Xor(b, a) && Xor(a, a) == 0 && Xor(a, 0) == a && Xor(0, a) == a
  {
    hide Xor;
    XorComm(a, b); XorSelf(a); XorZero(a); XorComm(0, a);
  }

  lemma XorAssoc(a: bv128, b: bv128, c: bv128)
    ensures Xor(Xor(a, b), c) == Xor(a, Xor(b, c))
  {
    hide Xor;
    XorDef(a, b); XorDef(b, c);
    RawLeft(a, b, c, Xor(a, b));
    RawRight(a, b, c, Xor(b, c));
  }

  lemma XorSwap(a: bv128, b: bv128, c: bv128, d: bv128)
    ensures Xor(Xor(a, b), Xor(c, d)) == Xor(Xor(a, c), Xor(b, d))
  {
    hide Xor;
    XorAssoc(a, b, Xor(c, d)); XorAssoc(b, c, d); XorBasics(b, c);
    XorAssoc(c, b, d); XorAssoc(a, c, Xor(b, d));
  }

  lemma XorCancel(a: bv128, b: bv128)
    ensures Xor(Xor(a, b), b) == a
  {
    hide Xor;
    XorAssoc(a, b, b); XorBasics(b, b); XorBasics(a, a);
  }

  lemma RawBbeLinear(a: bv128, b: bv128)
    ensures Bbe1(a ^ b) == ((a << 1) ^ ((a >> 127) ^ ((a >> 127) << 1) ^ ((a >> 127) << 2) ^ ((a >> 127) << 7))) ^
        ((b << 1) ^ ((b >> 127) ^ ((b >> 127) << 1) ^ ((b >> 127) << 2) ^ ((b >> 127) << 7)))
  {
  }

  lemma RawBbeSum(a: bv128, b: bv128, p: bv128, q: bv128)
    requires p == (a << 1) ^ ((a >> 127) ^ ((a >> 127) << 1) ^ ((a >> 127) << 2) ^ ((a >> 127) << 7))
    requires q == (b << 1) ^ ((b >> 127) ^ ((b >> 127) << 1) ^ ((b >> 127) << 2) ^ ((b >> 127) << 7))
    ensures Xor(p, q) == ((a << 1) ^ ((a >> 127) ^ ((a >> 127) << 1) ^ ((a >> 127) << 2) ^ ((a >> 127) << 7))) ^
        ((b << 1) ^ ((b >> 127) ^ ((b >> 127) << 1) ^ ((b >> 127) << 2) ^ ((b >> 127) << 7)))
  {
  }

  lemma BbeLinear(a: bv128, b: bv128)
    ensures Bbe1(Xor(a, b)) == Xor(Bbe1(a), Bbe1(b))
  {
    hide Xor, Bbe1;
    Bbe1Def(a); Bbe1Def(b);
    XorDef(a, b);
    RawBbeLinear(a, b);
    RawBbeSum(a, b, Bbe1(a), Bbe1(b));
  }

  lemma RawLleLinear(a: bv128, b: bv128)
    ensures Lle1(a ^ b) == ((a >> 1) ^ ((a << 127) ^ ((a << 127) >> 1) ^ ((a << 127) >> 2) ^ ((a << 127) >> 7))) ^
        ((b >> 1) ^ ((b << 127) ^ ((b << 127) >> 1) ^ ((b << 127) >> 2) ^ ((b << 127) >> 7)))
  {
  }

  lemma RawLleSum(a: bv128, b: bv128, p: bv128, q: bv128)
    requires p == (a >> 1) ^ ((a << 127) ^ ((a << 127) >> 1) ^ ((a << 127) >> 2) ^ ((a << 127) >> 7))
    requires q == (b >> 1) ^ ((b << 127) ^ ((b << 127) >> 1) ^ ((b << 127) >> 2) ^ ((b << 127) >> 7))
    ensures Xor(p, q) == ((a >> 1) ^ ((a << 127) ^ ((a << 127) >> 1) ^ ((a << 127) >> 2) ^ ((a << 127) >> 7))) ^
        ((b >> 1) ^ ((b << 127) ^ ((b << 127) >> 1) ^ ((b << 127) >> 2) ^ ((b << 127) >> 7)))
  {
  }

  lemma LleLinear(a: bv128, b: bv128)
    ensures Lle1(Xor(a, b)) == Xor(Lle1(a), Lle1(b))
  {
    hide Xor, Lle1;
    Lle1Def(a); Lle1Def(b);
    XorDef(a, b);
    RawLleLinear(a, b);
    RawLleSum(a, b, Lle1(a), Lle1(b));
  }

  lemma TimesIs(e: bv128)
    ensures Times(Bbe, e) == Bbe1(e) && Times(Lle, e) == Lle1(e)
  {
    hide Bbe1, Lle1;
    BbeTop(e);
    LleLow(e);
  }

  lemma TimesLinear(o: Order, a: bv128, b: bv128)
    ensures Times(o, Xor(a, b)) == Xor(Times(o, a), Times(o, b))
    ensures Times(o, 0) == 0
  {
    hide Xor, Times, Bbe1, Lle1;
    TimesIs(a); TimesIs(b); TimesIs(Xor(a, b)); TimesIs(0);
    BbeLinear(a, b);
    LleLinear(a, b);
    ZeroStays();
  }

  lemma ZeroStays()
    ensures Bbe1(0) == 0 && Lle1(0) == 0
  {
  }

  lemma {:induction false} ShiftAdd(o: Order, e: bv128, j: nat, k: nat)
    ensures Shift(o, Shift(o, e, j), k) == Shift(o, e, j + k)
    decreases j
  {
    hide Times;
    if j > 0 { ShiftAdd(o, Times(o, e), j - 1, k); }
  }

  lemma EightBbe(e: bv128)
    ensures Shift(Bbe, e, 8) == Bbe8(e)
  {
    hide Times, Bbe1, Bbe2, Bbe4, Bbe8, Shift;
    TwoSteps(e); TwoSteps(Bbe2(e)); TwoSteps(Bbe4(e)); TwoSteps(Bbe2(Bbe4(e)));
    ShiftAdd(Bbe, e, 2, 2); ShiftAdd(Bbe, Bbe4(e), 2, 2); ShiftAdd(Bbe, e, 4, 4);
    Bbe2Twice(e); Bbe2Twice(Bbe4(e)); Bbe4Twice(e);
  }

  lemma EightLle(e: bv128)
    ensures Shift(Lle, e, 8) == Lle8(e)
  {
    hide Times, Lle1, Lle2, Lle4, Lle8, Shift;
    TwoSteps(e); TwoSteps(Lle2(e)); TwoSteps(Lle4(e)); TwoSteps(Lle2(Lle4(e)));
    ShiftAdd(Lle, e, 2, 2); ShiftAdd(Lle, Lle4(e), 2, 2); ShiftAdd(Lle, e, 4, 4);
    Lle2Twice(e); Lle2Twice(Lle4(e)); Lle4Twice(e);
  }

  /** The steps of the source multiply by x and by x^8. */
  lemma StepsAreShifts(e: bv128)
    ensures XBbe(e) == Times(Bbe, e) && XLle(e) == Times(Lle, e)
    ensures X8Bbe(e) == Shift(Bbe, e, 8) && X8Lle(e) == Shift(Lle, e, 8)
  {
    hide Times, Shift, XBbe, XLle, X8Bbe, X8Lle, Bbe1, Bbe8, Lle1, Lle8;
    XBbeIs(e); XLleIs(e); X8BbeIs(e); X8LleIs(e);
    TimesIs(e);
    EightBbe(e);
    EightLle(e);
  }

  lemma TwoSteps(f: bv128)
    ensures Shift(Bbe, f, 2) == Bbe2(f) && Shift(Lle, f, 2) == Lle2(f)
  {
    hide Times, Bbe1, Bbe2, Lle1, Lle2;
    TimesIs(f); TimesIs(Bbe1(f)); TimesIs(Lle1(f));
    Bbe1Twice(f); Lle1Twice(f);
    assert Shift(Bbe, f, 2) == Shift(Bbe, Bbe1(f), 1) == Times(Bbe, Bbe1(f));
    assert Shift(Lle, f, 2) == Shift(Lle, Lle1(f), 1) == Times(Lle, Lle1(f));
  }

  lemma {:induction false} TimesProduct(o: Order, e: bv128, n: nat)
    ensures Times(o, Product(o, e, n)) == Product(o, Times(o, e), n)
    decreases n
  {
    hide Times, Xor;
    TimesLinear(o, 0, 0);
    if n > 0 {
      TimesProduct(o, Times(o, e), n / 2);
      TimesLinear(o, e, Product(o, Times(o, e), n / 2));
    }
  }

  lemma {:induction false} ShiftProduct(o: Order, e: bv128, n: nat, k: nat)
    ensures Shift(o, Product(o, e, n), k) == Product(o, Shift(o, e, k), n)
    decreases k
  {
    hide Times, Xor, Product;
    if k > 0 {
      TimesProduct(o, e, n);
      ShiftProduct(o, Times(o, e), n, k - 1);
    }
  }

  function Pow2(s: nat): (p: nat)
    ensures p >= 1
  {
    if s == 0 then 1 else 2 * Pow2(s - 1)
  }

  lemma HalfOf(q: nat, p: nat, r: nat)
    ensures (q * (2 * p) + r) / 2 == q * p + r / 2 && (q * (2 * p) + r) % 2 == r % 2
  {
    assert q * (2 * p) == 2 * (q * p);
  }

  lemma Pow2Next(s: nat)
    requires s > 0
    ensures Pow2(s) == 2 * Pow2(s - 1)
  {
  }

  /** A product splits at any digit: the upper part acts on the shifted factor. */
  lemma {:induction false} ProductSplits(o: Order, e: bv128, q: nat, s: nat, r: nat)
    requires r < Pow2(s)
    ensures Product(o, e, q * Pow2(s) + r) == Xor(Product(o, Shift(o, e, s), q), Product(o, e, r))
    decreases s
  {
    hide Times, Xor, Product, Shift, Pow2;
    if s == 0 {
      SplitAtZero(o, e, q, r);
    } else {
      Pow2Next(s);
      var p := Pow2(s - 1);
      ProductSplits(o, Times(o, e), q, s - 1, r / 2);
      SplitStep(o, e, q, s, p, r);
    }
  }

  lemma SplitAtZero(o: Order, e: bv128, q: nat, r: nat)
    requires r < Pow2(0)
    ensures Product(o, e, q * Pow2(0) + r) == Xor(Product(o, Shift(o, e, 0), q), Product(o, e, r))
  {
    hide Times, Xor, Product;
    ProductZero(o, e);
    XorBasics(Product(o, e, q), 0);
  }

  lemma SplitStep(o: Order, e: bv128, q: nat, s: nat, p: nat, r: nat)
    requires s > 0
    requires Product(o, Times(o, e), q * p + r / 2)
             == Xor(Product(o, Shift(o, Times(o, e), s - 1), q), Product(o, Times(o, e), r / 2))
    ensures Product(o, e, q * (2 * p) + r) == Xor(Product(o, Shift(o, e, s), q), Product(o, e, r))
  {
    hide Times, Xor, Product;
    HalfOf(q, p, r);
    ProductStep(o, e, q * (2 * p) + r);
    ProductStep(o, e, r);
    var u, v := Product(o, Shift(o, e, s), q), Product(o, Times(o, e), r / 2);
    XorAssoc(e, u, v); XorBasics(e, u); XorAssoc(u, e, v);
  }

  lemma ProductZero(o: Order, e: bv128) ensures Product(o, e, 0) == 0 {}

  lemma ProductStep(o: Order, e: bv128, n: nat)
    ensures var p := Product(o, Times(o, e), n / 2); Product(o, e, n) == if n % 2 == 1 then Xor(e, p) else p
  {
    hide Times, Xor;
  }

  // ---- The two orders ----

  /** The bits in opposite order. */
  function Rev(e: bv128): (r: bv128) {
    var a := ((e >> 1) & 0x55555555_55555555_55555555_55555555) | ((e & 0x55555555_55555555_55555555_55555555) << 1);
    var b := ((a >> 2) & 0x33333333_33333333_33333333_33333333) | ((a & 0x33333333_33333333_33333333_33333333) << 2);
    var c := ((b >> 4) & 0x0f0f0f0f_0f0f0f0f_0f0f0f0f_0f0f0f0f) | ((b & 0x0f0f0f0f_0f0f0f0f_0f0f0f0f_0f0f0f0f) << 4);
    var d := ((c >> 8) & 0x00ff00ff_00ff00ff_00ff00ff_00ff00ff) | ((c & 0x00ff00ff_00ff00ff_00ff00ff_00ff00ff) << 8);
    var f := ((d >> 16) & 0x0000ffff_0000ffff_0000ffff_0000ffff) | ((d & 0x0000ffff_0000ffff_0000ffff_0000ffff) << 16);
    var g := ((f >> 32) & 0x00000000_ffffffff_00000000_ffffffff) | ((f & 0x00000000_ffffffff_00000000_ffffffff) << 32);
    (g >> 64) | (g << 64)
  }

  lemma RevTwice(e: bv128) ensures Rev(Rev(e)) == e {}

  lemma RevXor(a: bv128, b: bv128) ensures Rev(a ^ b) == Rev(a) ^ Rev(b) {}

  lemma RevZero() ensures Rev(0) == 0 {}

  lemma RevLeft1(e: bv128) ensures Rev(e << 1) == Rev(e) >> 1 {}

  lemma RevTop(e: bv128) ensures e >> 127 == 1 <==> Rev(e) & 1 == 1 {}

  lemma RevModulus() ensures Rev(0x87) == 0xe1000000_00000000_00000000_00000000 {}

  lemma RevSum(a: bv128, b: bv128)
    ensures Rev(Xor(a, b)) == Xor(Rev(a), Rev(b))
  {
    hide Rev, Xor;
    RevXor(a, b);
    XorDef(a, b); XorDef(Rev(a), Rev(b));
  }

  lemma TimesBbeCases(e: bv128)
    ensures TimesBbe(e) == if e >> 127 == 1 then Xor(e << 1, 0x87) else e << 1
  {
    hide Xor;
    XorDef(e << 1, 0x87);
  }

  lemma TimesLleCases(e: bv128)
    ensures TimesLle(e) == if e & 1 == 1 then Xor(e >> 1, 0xe1000000_00000000_00000000_00000000) else e >> 1
  {
    hide Xor;
    XorDef(e >> 1, 0xe1000000_00000000_00000000_00000000);
  }

  lemma RevTimes(e: bv128)
    ensures Rev(Times(Bbe, e)) == Times(Lle, Rev(e))
  {
    hide Rev, Xor, TimesBbe, TimesLle;
    TimesBbeCases(e);
    TimesLleCases(Rev(e));
    RevTop(e);
    RevLeft1(e);
    RevModulus();
    RevSum(e << 1, 0x87);
  }

  /** The two bit orders describe one field: reversing the bits turns one product into the other. */
  lemma {:induction false} OrdersCorrespond(e: bv128, n: nat)
    ensures Product(Lle, Rev(e), n) == Rev(Product(Bbe, e, n))
    decreases n
  {
    hide Rev, Times, Xor;
    RevZero();
    if n > 0 {
      RevTimes(e);
      OrdersCorrespond(Times(Bbe, e), n / 2);
      RevSum(e, Product(Bbe, Times(Bbe, e), n / 2));
    }
  }
}
