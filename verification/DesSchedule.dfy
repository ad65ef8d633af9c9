/** The key schedule of DES against the standard's: permuted choice 1, the shifts and permuted choice 2,
    bit by bit. Bits are counted from zero, the first one highest. */
module DesSchedule {

  import opened Words
  import opened Des
  import opened DesBits
  import opened DesKeys
  import R = DesRound

  // ---- The standard ----

  /** Permuted choice 1: the key bits in the registers C (28) and D (28). */
  function Choice1(i: nat): (n: nat) {
    match i
    case 0 => 56 case 1 => 48 case 2 => 40 case 3 => 32 case 4 => 24 case 5 => 16 case 6 => 8
    case 7 => 0 case 8 => 57 case 9 => 49 case 10 => 41 case 11 => 33 case 12 => 25 case 13 => 17
    case 14 => 9 case 15 => 1 case 16 => 58 case 17 => 50 case 18 => 42 case 19 => 34 case 20 => 26
    case 21 => 18 case 22 => 10 case 23 => 2 case 24 => 59 case 25 => 51 case 26 => 43 case 27 => 35
    case 28 => 62 case 29 => 54 case 30 => 46 case 31 => 38 case 32 => 30 case 33 => 22 case 34 => 14
    case 35 => 6 case 36 => 61 case 37 => 53 case 38 => 45 case 39 => 37 case 40 => 29 case 41 => 21
    case 42 => 13 case 43 => 5 case 44 => 60 case 45 => 52 case 46 => 44 case 47 => 36 case 48 => 28
    case 49 => 20 case 50 => 12 case 51 => 4 case 52 => 27 case 53 => 19 case 54 => 11 case _ => 3
  }

  /** How far the registers have been shifted left in round `m`, counted from one. */
  function Shifted(m: nat): (n: nat) {
    if m == 0 then 0 else Shifted(m - 1) + if m == 1 || m == 2 || m == 9 || m == 16 then 1 else 2
  }

  /** Permuted choice 2, a row of six for each substitution box. */
  function Choice2(j: bv5, b: bv5): (n: nat) {
    match j
    case 0 => (match b case 0 => 13 case 1 => 16 case 2 => 10 case 3 => 23 case 4 => 0 case _ => 4)
    case 1 => (match b case 0 => 2 case 1 => 27 case 2 => 14 case 3 => 5 case 4 => 20 case _ => 9)
    case 2 => (match b case 0 => 22 case 1 => 18 case 2 => 11 case 3 => 3 case 4 => 25 case _ => 7)
    case 3 => (match b case 0 => 15 case 1 => 6 case 2 => 26 case 3 => 19 case 4 => 12 case _ => 1)
    case 4 => (match b case 0 => 40 case 1 => 51 case 2 => 30 case 3 => 36 case 4 => 46 case _ => 54)
    case 5 => (match b case 0 => 29 case 1 => 39 case 2 => 50 case 3 => 44 case 4 => 32 case _ => 47)
    case 6 => (match b case 0 => 43 case 1 => 48 case 2 => 38 case 3 => 55 case 4 => 33 case _ => 52)
    case _ => (match b case 0 => 45 case 1 => 41 case 2 => 49 case 3 => 35 case 4 => 28 case _ => 31)
  }

  /** Bit `n` of a key of eight bytes. */
  predicate KeyBit(k: seq<bv32>, n: nat)
    requires |k| == 8
  {
    n < 64 && BitN(k[n / 8], 7 - n % 8)
  }

  /** Bit `b` of what box `j` gets of the key in round `m`. */
  predicate RoundKeyBit(k: seq<bv32>, m: nat, j: bv5, b: bv5)
    requires |k| == 8
  {
    var n := Choice2(j, b);
    KeyBit(k, Choice1(if n < 28 then (n + Shifted(m)) % 28 else 28 + (n - 28 + Shifted(m)) % 28))
  }

  // ---- What the tables hold ----

  predicate BitN(w: bv32, p: nat) {
    p < 32 && Bit(w, p as bv5)
  }

  predicate IsQuarter(x: bv32) {
    x < 256 && x & 1 == 0
  }

  /** Where the bits of a quarter of D, and of C, stand among the key bits collected for it. */
  function CollectedD(q: nat): (p: nat) {
    match q case 1 => 4 case 2 => 3 case 3 => 7 case 4 => 2 case 5 => 6 case 6 => 1 case _ => 5
  }

  function CollectedC(q: nat): (p: nat) {
    match q case 1 => 4 case 2 => 1 case 3 => 5 case 4 => 2 case 5 => 6 case 6 => 3 case _ => 7
  }

  /** Which quarter and which bit of it a bit of a half key comes from; bit zero stands for none. */
  function Feeds(second: bool, w: bv5): (f: (nat, nat)) {
    if second then
      match w
      case 2 => (3, 6) case 3 => (1, 1) case 4 => (3, 7) case 5 => (3, 5) case 6 => (2, 3)
      case 7 => (2, 2) case 10 => (0, 6) case 11 => (0, 7) case 12 => (3, 2) case 13 => (2, 5)
      case 14 => (0, 3) case 15 => (1, 4) case 16 => (1, 7) case 17 => (0, 4) case 18 => (3, 3)
      case 19 => (2, 1) case 20 => (2, 6) case 21 => (3, 4) case 24 => (1, 5) case 25 => (0, 2)
      case 26 => (1, 6) case 27 => (2, 4) case 28 => (3, 1) case 29 => (2, 7) case _ => (0, 0)
    else
      match w
      case 0 => (3, 7) case 1 => (0, 7) case 2 => (3, 6) case 3 => (1, 2) case 4 => (1, 4)
      case 5 => (1, 3) case 8 => (3, 3) case 9 => (0, 6) case 10 => (0, 3) case 11 => (2, 2)
      case 12 => (3, 5) case 13 => (1, 7) case 18 => (0, 1) case 19 => (1, 6) case 20 => (3, 1)
      case 21 => (2, 5) case 22 => (0, 2) case 23 => (3, 4) case 26 => (2, 1) case 27 => (2, 3)
      case 28 => (0, 5) case 29 => (2, 7) case 30 => (3, 2) case 31 => (0, 4) case _ => (0, 0)
  }

  ghost predicate IsPc1(t: KeyTables) {
    forall x :: IsQuarter(x) ==>
      && IsQuarter(t.pc1(x)) && IsQuarter(t.pc1(x + 1))
      && forall q :: 1 <= q <= 7 ==>
           (BitN(t.pc1(x), q) <==> BitN(x, CollectedD(q))) && (BitN(t.pc1(x + 1), q) <==> BitN(x, CollectedC(q)))
  }

  /** One rotation of a quarter. */
  ghost predicate IsRs(t: KeyTables) {
    forall x :: IsQuarter(x) ==>
      IsQuarter(t.rs(x)) && forall q :: 1 <= q <= 7 ==> (BitN(t.rs(x), q) <==> BitN(x, if q == 7 then 1 else q + 1))
  }

  ghost predicate Fed(y: bv32, x: bv32, second: bool, quarter: nat) {
    forall w: bv5 :: Bit(y, w) <==>
      Feeds(second, w).0 == quarter && Feeds(second, w).1 > 0 && BitN(x, Feeds(second, w).1)
  }

  ghost predicate IsPc2(t: KeyTables, second: bool) {
    var base: bv32 := if second then 512 else 0;
    forall x :: IsQuarter(x) ==>
      && Fed(Pc2Entry(t, base, x, 0), x, second, 0) && Fed(Pc2Entry(t, base, x, 1), x, second, 1)
      && Fed(Pc2Entry(t, base, x, 2), x, second, 2) && Fed(Pc2Entry(t, base, x, 3), x, second, 3)
  }

  ghost predicate IsStandard(t: KeyTables) {
    IsPc1(t) && IsRs(t) && IsPc2(t, false) && IsPc2(t, true)
  }

  ghost predicate IsKey(k: seq<bv32>) {
    |k| == 8 && forall i :: 0 <= i < 8 ==> k[i] < 256
  }

  // ---- Registers ----

  function Quarter(r: Register, q: nat): (x: bv32) {
    match q case 0 => r.a case 1 => r.b case 2 => r.c case _ => r.d
  }

  /** Bit `i` of a register: its quarters take turns. */
  predicate RegBit(r: Register, i: nat) {
    i < 28 && BitN(Quarter(r, i % 4), 7 - i / 4)
  }

  ghost predicate IsRegister(r: Register) {
    IsQuarter(r.a) && IsQuarter(r.b) && IsQuarter(r.c) && IsQuarter(r.d)
  }

  lemma RsBit(t: KeyTables, x: bv32, q: nat)
    requires IsRs(t) && IsQuarter(x) && 1 <= q <= 7
    ensures IsQuarter(t.rs(x)) && BitN(t.rs(x), q) == BitN(x, if q == 7 then 1 else q + 1)
  {
    hide BitN, IsQuarter;
  }

  lemma Turn1Is(t: KeyTables, r: Register, i: nat)
    requires IsRs(t) && IsRegister(r) && i < 28
    ensures IsRegister(Turn1(t, r)) && RegBit(Turn1(t, r), i) == RegBit(r, (i + 27) % 28)
  {
    hide BitN, IsQuarter, IsRs;
    var u, v := i / 4, i % 4;
    RsBit(t, r.d, 7 - u);
    var p := (i + 27) % 28;
    if i == 0 {
      assert p == 27;
    } else {
      assert p == i - 1;
      assert v > 0 ==> p / 4 == u && p % 4 == v - 1;
      assert v == 0 ==> p / 4 == u - 1 && p % 4 == 3;
    }
  }

  lemma Turn2Is(t: KeyTables, r: Register, i: nat)
    requires IsRs(t) && IsRegister(r) && i < 28
    ensures IsRegister(Turn2(t, r)) && RegBit(Turn2(t, r), i) == RegBit(r, (i + 26) % 28)
  {
    hide RegBit, IsQuarter, IsRs;
    Turn1Is(t, r, (i + 27) % 28);
    Turn1Is(t, Turn1(t, r), i);
    TwoTurns(t, r);
  }

  lemma TwoTurns(t: KeyTables, r: Register)
    ensures Turn2(t, r) == Turn1(t, Turn1(t, r))
  {
  }

  /** How far a register has been turned back. */
  function Back(n: nat): (k: nat) {
    if n == 0 then 0 else Back(n - 1) + if n == 1 || n == 8 || n == 15 then 1 else 2
  }

  lemma BackIsShifted(m: nat)
    requires 1 <= m <= 16
    ensures Back(16 - m) + Shifted(m) == 28
    decreases 16 - m
  {
    if m < 16 { BackIsShifted(m + 1); } else { AllShifts(); }
  }

  lemma AllShifts()
    ensures Shifted(16) == 28
  {
    assert Shifted(4) == 6;
    assert Shifted(8) == 14;
    assert Shifted(12) == 21;
  }

  lemma Wraps(i: nat, step: nat, back: nat)
    requires i < 28 && step + back <= 28
    ensures ((i + 28 - step) % 28 + 28 - back) % 28 == (i + 28 - (back + step)) % 28
  {
  }

  lemma {:induction false} TurnedIs(t: KeyTables, r: Register, n: nat, i: nat)
    requires IsRs(t) && IsRegister(r) && n <= 15 && i < 28
    ensures Back(n) <= 28 && IsRegister(DesKeys.Turned(t, r, n))
    ensures RegBit(DesKeys.Turned(t, r, n), i) == RegBit(r, (i + 28 - Back(n)) % 28)
    decreases n
  {
    hide RegBit, IsRs, IsRegister, Turn1, Turn2;
    BackSmall(n);
    if n > 0 {
      var step := if n == 1 || n == 8 || n == 15 then 1 else 2;
      var i' := (i + 28 - step) % 28;
      TurnedIs(t, r, n - 1, i');
      Wraps(i, step, Back(n - 1));
      if step == 1 { Turn1Is(t, DesKeys.Turned(t, r, n - 1), i); } else { Turn2Is(t, DesKeys.Turned(t, r, n - 1), i); }
    }
  }

  lemma {:induction false} BackSmall(n: nat)
    ensures Back(n) <= 2 * n && (n <= 15 ==> Back(n) <= 27)
  {
    if n == 15 {
      assert Back(7) == 13;
      assert Back(11) == 20;
      assert Back(14) == 26;
    } else if n > 0 {
      BackSmall(n - 1);
      if n == 14 { assert Back(7) == 13; assert Back(11) == 20; }
    }
  }

  // ---- Permuted choice 1 ----

  lemma BitNIs(w: bv32)
    ensures BitN(w, 1) == Bit(w, 1) && BitN(w, 2) == Bit(w, 2) && BitN(w, 3) == Bit(w, 3) && BitN(w, 4) == Bit(w, 4)
    ensures BitN(w, 5) == Bit(w, 5) && BitN(w, 6) == Bit(w, 6) && BitN(w, 7) == Bit(w, 7) && BitN(w, 0) == Bit(w, 0)
  {
  }

  lemma LowBits(hi: bv32, lo: bv32, x: bv32)
    requires x == Low(hi, lo)
    ensures IsQuarter(x)
    ensures Bit(x, 1) == Bit(lo, 1) && Bit(x, 2) == Bit(lo, 2) && Bit(x, 3) == Bit(lo, 3) && Bit(x, 4) == Bit(lo, 4)
    ensures Bit(x, 5) == Bit(hi, 1) && Bit(x, 6) == Bit(hi, 2) && Bit(x, 7) == Bit(hi, 3)
  {
  }

  lemma HighBits(hi: bv32, lo: bv32, x: bv32)
    requires hi < 256 && x == High(hi, lo) - 1
    ensures IsQuarter(x)
    ensures Bit(x, 1) == Bit(lo, 5) && Bit(x, 2) == Bit(lo, 6) && Bit(x, 3) == Bit(lo, 7)
    ensures Bit(x, 4) == Bit(hi, 4) && Bit(x, 5) == Bit(hi, 5) && Bit(x, 6) == Bit(hi, 6) && Bit(x, 7) == Bit(hi, 7)
  {
  }

  lemma EvenBit(t: KeyTables, x: bv32, q: nat)
    requires IsPc1(t) && IsQuarter(x) && 1 <= q <= 7
    ensures IsQuarter(t.pc1(x)) && BitN(t.pc1(x), q) == BitN(x, CollectedD(q))
  {
    hide BitN, IsQuarter, CollectedD, CollectedC;
  }

  lemma OddBit(t: KeyTables, x: bv32, y: bv32, q: nat)
    requires IsPc1(t) && IsQuarter(x) && 1 <= q <= 7 && y == x + 1
    ensures IsQuarter(t.pc1(y)) && BitN(t.pc1(y), q) == BitN(x, CollectedC(q))
  {
    hide BitN, IsQuarter, CollectedD, CollectedC;
  }

  /** A bit of a quarter of D, from the two key bytes it is made of. */
  predicate FromD(hi: bv32, lo: bv32, q: nat) {
    match q
    case 1 => BitN(lo, 4) case 2 => BitN(lo, 3) case 3 => BitN(hi, 3) case 4 => BitN(lo, 2)
    case 5 => BitN(hi, 2) case 6 => BitN(lo, 1) case _ => BitN(hi, 1)
  }

  predicate FromC(hi: bv32, lo: bv32, q: nat) {
    match q
    case 1 => BitN(hi, 4) case 2 => BitN(lo, 5) case 3 => BitN(hi, 5) case 4 => BitN(lo, 6)
    case 5 => BitN(hi, 6) case 6 => BitN(lo, 7) case _ => BitN(hi, 7)
  }

  lemma QuarterD(t: KeyTables, hi: bv32, lo: bv32, q: nat)
    requires IsPc1(t) && 1 <= q <= 7
    ensures IsQuarter(t.pc1(Low(hi, lo))) && BitN(t.pc1(Low(hi, lo)), q) == FromD(hi, lo, q)
  {
    hide Bit, BitN, IsQuarter, IsPc1, Low;
    var x := Low(hi, lo);
    LowBits(hi, lo, x);
    EvenBit(t, x, q);
    BitNIs(x); BitNIs(hi); BitNIs(lo);
  }

  lemma QuarterC(t: KeyTables, hi: bv32, lo: bv32, q: nat)
    requires IsPc1(t) && 1 <= q <= 7 && hi < 256
    ensures IsQuarter(t.pc1(High(hi, lo))) && BitN(t.pc1(High(hi, lo)), q) == FromC(hi, lo, q)
  {
    hide Bit, BitN, IsQuarter, IsPc1, High;
    var x := High(hi, lo) - 1;
    HighBits(hi, lo, x);
    OneLess(High(hi, lo));
    OddBit(t, x, High(hi, lo), q);
    BitNIs(x); BitNIs(hi); BitNIs(lo);
  }

  lemma OneLess(y: bv32) ensures y - 1 + 1 == y {}

  lemma NumbersD(u: nat, v: nat)
    requires u < 7 && v < 4
    ensures Choice1(28 + 4 * u + v) ==
            8 * (if u % 2 == 0 && u < 6 then 7 - v else 3 - v) + (if u < 6 then 6 - u / 2 else 3)
  {
  }

  lemma Choice1D(u: nat, v: nat)
    requires u < 7 && v < 4
    ensures var n := Choice1(28 + 4 * u + v);
            n / 8 == (if u % 2 == 0 && u < 6 then 7 - v else 3 - v) && 7 - n % 8 == (if u < 6 then u / 2 + 1 else 4)
  {
    hide Choice1;
    NumbersD(u, v);
  }

  lemma NumbersC(u: nat, v: nat)
    requires u < 7 && v < 4
    ensures Choice1(4 * u + v) == 8 * (if u % 2 == 0 then 7 - v else 3 - v) + u / 2
  {
  }

  lemma Choice1C(u: nat, v: nat)
    requires u < 7 && v < 4
    ensures var n := Choice1(4 * u + v);
            n / 8 == (if u % 2 == 0 then 7 - v else 3 - v) && 7 - n % 8 == 7 - u / 2
  {
    hide Choice1;
    NumbersC(u, v);
  }

  lemma Choice1Small(i: nat) ensures Choice1(i) < 64 {}

  lemma ByteD(k: seq<bv32>, u: nat, v: nat)
    requires IsKey(k) && u < 7 && v < 4
    ensures FromD(k[7 - v], k[3 - v], 7 - u) == KeyBit(k, Choice1(28 + 4 * u + v))
  {
    hide BitN, Choice1;
    Choice1D(u, v);
    Choice1Small(28 + 4 * u + v);
  }

  lemma ByteC(k: seq<bv32>, u: nat, v: nat)
    requires IsKey(k) && u < 7 && v < 4
    ensures FromC(k[7 - v], k[3 - v], 7 - u) == KeyBit(k, Choice1(4 * u + v))
  {
    hide BitN, Choice1;
    Choice1C(u, v);
    Choice1Small(4 * u + v);
  }

  lemma RegBitIs(r: Register, u: nat, v: nat)
    requires u < 7 && v < 4
    ensures RegBit(r, 4 * u + v) == BitN(Quarter(r, v), 7 - u)
  {
    hide BitN;
    assert (4 * u + v) / 4 == u && (4 * u + v) % 4 == v;
  }

  /** The first register computed is D. */
  lemma FirstIsD(t: KeyTables, k: seq<bv32>, i: nat)
    requires IsPc1(t) && IsKey(k) && i < 28
    ensures IsRegister(First(t, k)) && RegBit(First(t, k), i) == KeyBit(k, Choice1(28 + i))
  {
    hide BitN, IsQuarter, IsPc1, Low, Choice1, RegBit, KeyBit, FromD;
    var u, v := i / 4, i % 4;
    assert i == 4 * u + v && 28 + i == 28 + 4 * u + v;
    QuarterD(t, k[7], k[3], 7 - u);
    QuarterD(t, k[6], k[2], 7 - u);
    QuarterD(t, k[5], k[1], 7 - u);
    QuarterD(t, k[4], k[0], 7 - u);
    RegBitIs(First(t, k), u, v);
    ByteD(k, u, v);
  }

  /** The second is C. */
  lemma SecondIsC(t: KeyTables, k: seq<bv32>, i: nat)
    requires IsPc1(t) && IsKey(k) && i < 28
    ensures IsRegister(Second(t, k)) && RegBit(Second(t, k), i) == KeyBit(k, Choice1(i))
  {
    hide BitN, IsQuarter, IsPc1, High, Choice1, RegBit, KeyBit, FromC;
    var u, v := i / 4, i % 4;
    assert i == 4 * u + v;
    QuarterC(t, k[7], k[3], 7 - u);
    QuarterC(t, k[6], k[2], 7 - u);
    QuarterC(t, k[5], k[1], 7 - u);
    QuarterC(t, k[4], k[0], 7 - u);
    RegBitIs(Second(t, k), u, v);
    ByteC(k, u, v);
  }

  // ---- Permuted choice 2 ----

  lemma OrBit(a: bv32, b: bv32, p: bv5) ensures Bit(Or(a, b), p) <==> Bit(a, p) || Bit(b, p) {}

  /** One bit of a half key: from the quarter and the bit that feed it. */
  lemma Pc2Bit(t: KeyTables, second: bool, r: Register, w: bv5)
    requires IsPc2(t, second) && IsRegister(r)
    ensures var f := Feeds(second, w);
            Bit(Pc2(t, if second then 512 else 0, r.a, r.b, r.c, r.d), w) <==> f.1 > 0 && BitN(Quarter(r, f.0), f.1)
  {
    hide Bit, BitN, IsQuarter, Feeds, Or, Pc2Entry;
    var base: bv32 := if second then 512 else 0;
    var a, b, c, d := Pc2Entry(t, base, r.a, 0), Pc2Entry(t, base, r.b, 1), Pc2Entry(t, base, r.c, 2),
        Pc2Entry(t, base, r.d, 3);
    OrBit(d, c, w);
    OrBit(b, a, w);
    OrBit(Or(d, c), Or(b, a), w);
    FewQuarters(second, w);
  }

  lemma FewQuarters(second: bool, w: bv5)
    ensures Feeds(second, w).0 < 4 && Feeds(second, w).1 < 8
  {
  }

  /** Which of the two half keys, and which bit of it, box `j` gets at `b`. */
  function Wanted(j: bv5, b: bv5): (c: Place) {
    if j & 1 == 1 then var p := 4 * (7 - j) + 5 - b; Place(p >= 16, p)
    else var p := 4 * (6 - j) + 5 - b - 14; Place(p < 16, p)
  }

  /** The tables feed it from the register bit that permuted choice 2 names. */
  lemma FeedsIsChoice2(j: bv5, b: bv5)
    requires j < 8 && b < 6
    ensures var c, n := Wanted(j, b), Choice2(j, b);
            var i := if n < 28 then n else n - 28;
            && (c.second <==> n < 28) && i < 28
            && Feeds(c.second, c.at) == (i % 4, 7 - i / 4)
  {
  }

  lemma HalfMask(p: bv5) ensures Bit(0xffff0000, p) <==> p >= 16 {}

  /** The exchange of half words, and the turns of the second word. */
  lemma FixupBits(a: bv32, b: bv32, p: bv5)
    ensures var k := Fixup(a, b);
            && Bit(k.k0, p) == (if p >= 16 then Bit(b, p) else Bit(a, p))
            && Bit(Rol(k.k1, 28), p) == (if p - 14 >= 16 then Bit(a, p - 14) else Bit(b, p - 14))
  {
    hide Bit, Xor, And, Rol;
    var c := And(Xor(a, b), 0xffff0000);
    var k := Fixup(a, b);
    XorBit(a, b, p); AndBit(Xor(a, b), 0xffff0000, p); HalfMask(p); XorBit(a, c, p);
    var q := p - 14;
    XorBit(a, b, q); AndBit(Xor(a, b), 0xffff0000, q); HalfMask(q); XorBit(b, c, q);
    Rol28(k.k1);
    R.Rol28Bit(k.k1, Rol(k.k1, 28), p);
    RolBit(Xor(b, c), p - 28);
    Turns(p);
  }

  lemma Turns(p: bv5) ensures p - 28 - 18 == p - 14 {}

  lemma EvenRow(x: bv32, y: bv32, j: bv5, q: bv5)
    requires j < 8 && q < 6
    ensures j & 1 == 1 ==> 4 * (7 - j) <= 24 && R.KeyRow(Key(x, y), j) == R.Six(x, 4 * (7 - j))
    ensures j & 1 == 0 ==> 4 * (6 - j) <= 24 && R.KeyRow(Key(x, y), j) == R.Six(Rol(y, 28), 4 * (6 - j))
  {
    hide R.Six, Rol;
  }

  lemma Sums(j: bv5, b: bv5)
    requires j < 8 && b < 6
    ensures 5 - b < 6 && 4 * (7 - j) + (5 - b) == 4 * (7 - j) + 5 - b
    ensures 4 * (6 - j) + (5 - b) - 14 == 4 * (6 - j) + 5 - b - 14
    ensures j & 1 == 0 || j & 1 == 1
  {
  }

  lemma RowBit(a: bv32, b: bv32, j: bv5, c: bv5)
    requires j < 8 && c < 6
    ensures Bit(R.KeyRow(Fixup(a, b), j), 5 - c) == BitAt((a, b), Wanted(j, c))
  {
    hide Bit, R.Six, R.KeyRow, Rol, Fixup;
    var k := Fixup(a, b);
    Sums(j, c);
    EvenRow(k.k0, k.k1, j, 5 - c);
    if j & 1 == 1 {
      R.SixBit(k.k0, 4 * (7 - j), 5 - c);
      FixupBits(a, b, 4 * (7 - j) + (5 - c));
    } else {
      R.SixBit(Rol(k.k1, 28), 4 * (6 - j), 5 - c);
      FixupBits(a, b, 4 * (6 - j) + (5 - c));
    }
  }

  /** A half key's bit is the turned register's. */
  lemma ChosenBit(t: KeyTables, second: bool, r: Register, n: nat, w: bv5, i: nat)
    requires IsStandard(t) && IsRegister(r) && n <= 15 && i < 28 && Feeds(second, w) == (i % 4, 7 - i / 4)
    ensures Back(n) <= 28
    ensures Bit(Chosen(t, if second then 512 else 0, r, n), w) == RegBit(r, (i + 28 - Back(n)) % 28)
  {
    hide Bit, BitN, IsPc1, IsRs, IsPc2, IsRegister, Pc2, Feeds;
    TurnedIs(t, r, n, i);
    Pc2Bit(t, second, DesKeys.Turned(t, r, n), w);
  }

  /** Where a register bit of round `m` stood at the start. */
  lemma Turning(i: nat, m: nat)
    requires 1 <= m <= 16 && i < 28
    ensures Back(16 - m) <= 28 && (i + 28 - Back(16 - m)) % 28 == (i + Shifted(m)) % 28 < 28
  {
    hide Back, Shifted;
    BackIsShifted(m);
  }

  lemma KeyOfD(t: KeyTables, k: seq<bv32>, m: nat, w: bv5, i: nat)
    requires IsStandard(t) && IsKey(k) && 1 <= m <= 16 && i < 28 && Feeds(false, w) == (i % 4, 7 - i / 4)
    ensures Bit(Chosen(t, 0, First(t, k), 16 - m), w) == KeyBit(k, Choice1(28 + (i + Shifted(m)) % 28))
  {
    hide Bit, BitN, IsPc1, IsRs, IsPc2, IsRegister, Chosen, First, Choice1, KeyBit, Feeds, RegBit, Back, Shifted;
    Turning(i, m);
    FirstIsD(t, k, (i + Shifted(m)) % 28);
    ChosenBit(t, false, First(t, k), 16 - m, w, i);
  }

  lemma KeyOfC(t: KeyTables, k: seq<bv32>, m: nat, w: bv5, i: nat)
    requires IsStandard(t) && IsKey(k) && 1 <= m <= 16 && i < 28 && Feeds(true, w) == (i % 4, 7 - i / 4)
    ensures Bit(Chosen(t, 512, Second(t, k), 16 - m), w) == KeyBit(k, Choice1((i + Shifted(m)) % 28))
  {
    hide Bit, BitN, IsPc1, IsRs, IsPc2, IsRegister, Chosen, Second, Choice1, KeyBit, Feeds, RegBit, Back, Shifted;
    Turning(i, m);
    SecondIsC(t, k, (i + Shifted(m)) % 28);
    ChosenBit(t, true, Second(t, k), 16 - m, w, i);
  }

  /** The keys of encryption are the standard's, bit by bit, for every key and every round. */
  lemma ScheduleIsStandard(t: KeyTables, k: seq<bv32>, m: nat, j: bv5, b: bv5)
    requires IsStandard(t) && IsKey(k) && 1 <= m <= 16 && j < 8 && b < 6
    ensures Bit(R.KeyRow(EncryptionSchedule(t, k)[m - 1], j), 5 - b) <==> RoundKeyBit(k, m, j, b)
  {
    hide Bit, BitN, IsStandard, R.KeyRow, Fixup, Chosen, First, Second, Choice1, Choice2, Wanted, KeyBit, Feeds,
        Shifted;
    assert EncryptionSchedule(t, k)[m - 1] == KeyAt(t, k, 16 - m);
    RowBit(Chosen(t, 0, First(t, k), 16 - m), Chosen(t, 512, Second(t, k), 16 - m), j, b);
    FeedsIsChoice2(j, b);
    var c, e := Wanted(j, b), Choice2(j, b);
    if c.second { KeyOfC(t, k, m, c.at, e); } else { KeyOfD(t, k, m, c.at, e - 28); }
  }
}
