/** The table multipliers of GF(2^128): a 256-entry table per key (4k), and sixteen of them (64k).
    The other operand is its sixteen bytes in memory order. */
module Gf128Tables {

  import opened Gf128

  // ---- What the bytes of an operand stand for ----

  /** The `w` low binary digits of `n` in opposite order. */
  function RevBits(n: nat, w: nat): (r: nat)
    ensures r < Pow2(w)
  {
    if w == 0 then 0 else (n % 2) * Pow2(w - 1) + RevBits(n / 2, w - 1)
  }

  /** The eight coefficients a byte holds, the lowest power in the lowest digit. */
  function Coefficients(o: Order, byte: nat): (d: nat) {
    if o.Bbe? then byte else RevBits(byte, 8)
  }

  predicate IsBytes(ap: seq<nat>) {
    |ap| == 16 && forall i :: 0 <= i < 16 ==> ap[i] < 256
  }

  /** The byte that holds the coefficients of x^8i to x^(8i+7). */
  function ByteAt(o: Order, i: nat): (k: nat) {
    if o.Bbe? && i < 16 then 15 - i else i
  }

  /** The operand's coefficients, eight at a time, from the lowest powers. */
  function Digits(o: Order, ap: seq<nat>): (d: seq<nat>)
    requires |ap| == 16
    ensures |d| == 16
  {
    seq(16, i requires 0 <= i < 16 => Coefficients(o, ap[ByteAt(o, i)]))
  }

  function Value(d: seq<nat>): (v: nat) {
    if d == [] then 0 else d[0] + 256 * Value(d[1..])
  }

  /** The operand as a polynomial: its coefficients are the binary digits of this number. */
  function Polynomial(o: Order, ap: seq<nat>): (v: nat)
    requires |ap| == 16
  {
    Value(Digits(o, ap))
  }

  // ---- Arithmetic of digits ----

  lemma {:induction false} Pow2Add(j: nat, k: nat)
    ensures Pow2(j + k) == Pow2(j) * Pow2(k)
  {
    if j > 0 {
      Pow2Add(j - 1, k);
      assert 2 * (Pow2(j - 1) * Pow2(k)) == 2 * Pow2(j - 1) * Pow2(k);
    }
  }

  lemma Powers()
    ensures Pow2(0) == 1 && Pow2(1) == 2 && Pow2(2) == 4 && Pow2(3) == 8 && Pow2(4) == 16
    ensures Pow2(5) == 32 && Pow2(6) == 64 && Pow2(7) == 128 && Pow2(8) == 256
  {
    assert Pow2(1) == 2 && Pow2(2) == 4;
    assert Pow2(3) == 8 && Pow2(4) == 16;
    assert Pow2(5) == 32 && Pow2(6) == 64;
  }

  lemma {:induction false} RevZeros(w: nat)
    ensures RevBits(0, w) == 0
  {
    if w > 0 { RevZeros(w - 1); }
  }

  lemma RevStep(n: nat, w: nat)
    requires w > 0
    ensures RevBits(n, w) == (n % 2) * Pow2(w - 1) + RevBits(n / 2, w - 1)
  {
  }

  /** A digit above `k` adds the mirrored power. */
  lemma {:induction false} RevAdd(m: nat, k: nat, w: nat)
    requires m < w && k < Pow2(m)
    ensures RevBits(Pow2(m) + k, w) == RevBits(k, w) + Pow2(w - 1 - m)
    decreases m
  {
    hide RevBits, Pow2;
    RevStep(Pow2(m) + k, w);
    RevStep(k, w);
    if m == 0 {
      assert Pow2(0) == 1 by { Powers(); }
      RevZeros(w - 1);
    } else {
      Pow2Next(m);
      RevAdd(m - 1, k / 2, w - 1);
    }
  }

  /** A number below 2^m, mirrored, is a multiple of 2^(w-m). */
  lemma {:induction false} RevMultiple(m: nat, k: nat, w: nat) returns (q: nat)
    requires m <= w && k < Pow2(m)
    ensures RevBits(k, w) == q * Pow2(w - m)
    decreases m
  {
    if m == 0 {
      RevZeros(w);
      q := 0;
    } else {
      hide RevBits, Pow2;
      Pow2Next(m);
      var r := RevMultiple(m - 1, k / 2, w - 1);
      RevStep(k, w);
      Pow2Add(m - 1, w - m);
      q := (k % 2) * Pow2(m - 1) + r;
      Distribute(k % 2, Pow2(m - 1), r, Pow2(w - m));
    }
  }

  lemma Distribute(b: nat, p: nat, r: nat, z: nat)
    ensures (b * p + r) * z == b * (p * z) + r * z
  {
  }

  lemma {:induction false} ValueSnoc(d: seq<nat>, i: nat)
    requires i < |d| && forall j :: 0 <= j < |d| ==> d[j] < 256
    ensures Value(d[..i + 1]) == d[i] * Pow2(8 * i) + Value(d[..i])
    ensures Value(d[..i]) < Pow2(8 * i)
    decreases i
  {
    if i == 0 {
      assert d[..1] == [d[0]] && d[..0] == [];
      assert Value([d[0]]) == d[0] + 256 * Value([]);
    } else {
      var e := d[1..];
      assert d[..i + 1][1..] == e[..i] && d[..i][1..] == e[..i - 1] && e[i - 1] == d[i];
      ValueSnoc(e, i - 1);
      Powers();
      Pow2Add(8, 8 * (i - 1));
      assert Pow2(8 * i) == 256 * Pow2(8 * (i - 1));
      assert 256 * (d[i] * Pow2(8 * (i - 1))) == d[i] * (256 * Pow2(8 * (i - 1)));
    }
  }

  // ---- What the tables hold ----

  /** Entry `n` is the product of `h` and the byte `n`. */
  ghost predicate IsRow(o: Order, h: bv128, row: seq<bv128>) {
    |row| == 256 && forall n :: 0 <= n < 256 ==> row[n] == Product(o, h, Coefficients(o, n))
  }

  /** The entries at powers of two are in place. */
  ghost predicate HasPowers(o: Order, h: bv128, row: seq<bv128>) {
    && |row| == 256
    && row[0] == 0
    && forall m :: 0 <= m < 8 ==> Pow2(m) < 256 && row[Pow2(m)] == Product(o, h, Coefficients(o, Pow2(m)))
  }

  lemma ProductPow(o: Order, h: bv128, m: nat)
    ensures Product(o, h, Pow2(m)) == Shift(o, h, m)
  {
    hide Times, Xor, Product, Shift;
    ProductSplits(o, h, 1, m, 0);
    ProductZero(o, h);
    ProductOne(o, Shift(o, h, m));
    XorBasics(Shift(o, h, m), 0);
  }

  lemma ProductOne(o: Order, h: bv128)
    ensures Product(o, h, 1) == h
  {
    hide Times, Xor;
    ProductStep(o, h, 1);
    ProductZero(o, Times(o, h));
    XorBasics(h, 0);
  }

  lemma SumBbe(h: bv128, m: nat, k: nat)
    requires k < Pow2(m)
    ensures Product(Bbe, h, Pow2(m) + k) == Xor(Product(Bbe, h, Pow2(m)), Product(Bbe, h, k))
  {
    hide Times, Xor, Product, Shift;
    ProductSplits(Bbe, h, 1, m, k);
    ProductOne(Bbe, Shift(Bbe, h, m));
    ProductPow(Bbe, h, m);
  }

  lemma SumLle(h: bv128, q: nat, s: nat, p: nat)
    requires p < Pow2(s)
    ensures Product(Lle, h, q * Pow2(s) + p) == Xor(Product(Lle, h, p), Product(Lle, h, q * Pow2(s)))
  {
    hide Times, Xor, Product, Shift, Pow2;
    ProductSplits(Lle, h, q, s, p);
    ProductSplits(Lle, h, q, s, 0);
    ProductZero(Lle, h);
    var u := Product(Lle, Shift(Lle, h, s), q);
    XorBasics(u, 0);
    XorBasics(u, Product(Lle, h, p));
  }

  /** Adding a power of two to a smaller byte adds the products. */
  lemma ByteSum(o: Order, h: bv128, m: nat, k: nat)
    requires m < 8 && k < Pow2(m)
    ensures Product(o, h, Coefficients(o, Pow2(m) + k)) ==
            Xor(Product(o, h, Coefficients(o, Pow2(m))), Product(o, h, Coefficients(o, k)))
  {
    hide Times, Xor, Product, Shift, RevBits, Pow2;
    if o.Bbe? { SumBbe(h, m, k); } else { ByteSumLle(h, m, k); }
  }

  lemma ByteSumLle(h: bv128, m: nat, k: nat)
    requires m < 8 && k < Pow2(m)
    ensures Product(Lle, h, RevBits(Pow2(m) + k, 8)) ==
            Xor(Product(Lle, h, RevBits(Pow2(m), 8)), Product(Lle, h, RevBits(k, 8)))
  {
    hide Times, Xor, Product, Shift, RevBits, Pow2;
    RevAdd(m, k, 8);
    assert RevBits(Pow2(m), 8) == Pow2(7 - m) by {
      RevAdd(m, 0, 8);
      RevZeros(8);
    }
    var q := RevMultiple(m, k, 8);
    Doubles(7 - m);
    SumLle(h, q, 8 - m, Pow2(7 - m));
  }

  // ---- Building ----

  /** The sums of powers: every other entry from two smaller ones. */
  method FillSums(row: array<bv128>, ghost o: Order, ghost h: bv128)
    requires row.Length == 256 && HasPowers(o, h, row[..])
    modifies row
    ensures IsRow(o, h, row[..])
  {
    hide Product, Coefficients, Pow2;
    Powers();
    CoefficientsZero(o, h);
    ghost var was := row[..];
    var j := 2;
    ghost var m := 1;
    assert row[1] == Product(o, h, Coefficients(o, Pow2(0)));
    while j < 256
      invariant 1 <= m <= 8 && j == Pow2(m) && j <= 256
      invariant forall n :: 0 <= n < j ==> row[n] == Product(o, h, Coefficients(o, n))
      invariant forall n :: j <= n < 256 ==> row[n] == was[n]
      decreases 256 - j
    {
      Doubles(m);
      assert was[Pow2(m)] == Product(o, h, Coefficients(o, Pow2(m)));
      FillUpTo(row, j, m, o, h);
      j := j + j;
      m := m + 1;
    }
  }

  lemma Doubles(m: nat)
    ensures Pow2(m + 1) == 2 * Pow2(m)
    ensures m < 8 ==> Pow2(m + 1) <= 256
  {
    Powers();
  }

  lemma CoefficientsZero(o: Order, h: bv128)
    ensures Product(o, h, Coefficients(o, 0)) == 0
  {
    hide Product;
    RevZeros(8);
    ProductZero(o, h);
  }

  /** The inner loop: the entries between one power of two and the next. */
  method FillUpTo(row: array<bv128>, j: nat, ghost m: nat, ghost o: Order, ghost h: bv128)
    requires row.Length == 256 && m < 8 && j == Pow2(m) && 2 * j <= 256
    requires forall n :: 0 <= n <= j ==> row[n] == Product(o, h, Coefficients(o, n))
    modifies row
    ensures forall n :: 0 <= n < 2 * j ==> row[n] == Product(o, h, Coefficients(o, n))
    ensures forall n :: 2 * j <= n < 256 ==> row[n] == old(row[n])
  {
    hide Product, Coefficients, Xor, Pow2;
    var k := 1;
    while k < j
      invariant 1 <= k <= j
      invariant forall n :: 0 <= n < j + k ==> row[n] == Product(o, h, Coefficients(o, n))
      invariant forall n :: 2 * j <= n < 256 ==> row[n] == old(row[n])
    {
      ByteSum(o, h, m, k);
      row[j + k] := Xor(row[j], row[k]);
      k := k + 1;
    }
  }

  /** Shifts of the key at the powers of two are what the sums need. */
  lemma PowersReady(o: Order, g: bv128, row: seq<bv128>)
    requires |row| == 256 && row[0] == 0
    requires forall l :: 0 <= l < 8 ==> Pow2(l) < 256 && row[Pow2(l)] == Shift(o, g, if o.Bbe? then l else 7 - l)
    ensures HasPowers(o, g, row)
  {
    hide Product, Shift, Pow2, RevBits;
    forall l | 0 <= l < 8 ensures Product(o, g, Coefficients(o, Pow2(l))) == Shift(o, g, if o.Bbe? then l else 7 - l) {
      RevAdd(l, 0, 8);
      RevZeros(8);
      ProductPow(o, g, if o.Bbe? then l else 7 - l);
    }
  }

  /** The first row of a table: the key times each power of x, then the sums. */
  method FirstRow(o: Order, g: bv128) returns (row: array<bv128>)
    ensures fresh(row) && row.Length == 256 && IsRow(o, g, row[..])
  {
    hide Product, Shift;
    row := new bv128[256](_ => 0);
    if o.Bbe? {
      PowersBbe(row, g);
    } else {
      PowersLle(row, g);
    }
    PowersReady(o, g, row[..]);
    FillSums(row, o, g);
  }

  lemma Bound(m: nat)
    requires m <= 7
    ensures Pow2(m) < 256 && (Pow2(m) <= 64 <==> m < 7) && (m == 0 <==> Pow2(m) == 1) && (m == 7 <==> Pow2(m) == 128)
  {
    Powers();
  }

  method PowersBbe(row: array<bv128>, g: bv128)
    requires row.Length == 256 && row[0] == 0
    modifies row
    ensures row[0] == 0 && forall l :: 0 <= l < 8 ==> Pow2(l) < 256 && row[Pow2(l)] == Shift(Bbe, g, l)
  {
    hide Shift, XBbe, XLle, Pow2;
    Bound(0);
    row[1] := g;
    ShiftZero(Bbe, g);
    var j := 1;
    ghost var m := 0;
    while j <= 64
      invariant 0 <= m <= 7 && j == Pow2(m) && j < 256 && (j <= 64 <==> m < 7)
      invariant row[0] == 0
      invariant forall l :: 0 <= l <= m ==> Pow2(l) <= j && row[Pow2(l)] == Shift(Bbe, g, l)
      decreases 128 - j
    {
      Doubles(m);
      Bound(m + 1);
      NextPower(Bbe, g, m, row[j]);
      row[j + j] := XBbe(row[j]);
      j := j + j;
      m := m + 1;
    }
  }

  lemma ShiftZero(o: Order, g: bv128) ensures Shift(o, g, 0) == g {}

  lemma ShiftNext(o: Order, g: bv128, m: nat)
    ensures Times(o, Shift(o, g, m)) == Shift(o, g, m + 1)
  {
    hide Times;
    ShiftAdd(o, g, m, 1);
    assert Shift(o, Shift(o, g, m), 1) == Shift(o, Times(o, Shift(o, g, m)), 0);
  }

  lemma NextPower(o: Order, g: bv128, m: nat, e: bv128)
    requires e == Shift(o, g, m)
    ensures (if o.Bbe? then XBbe(e) else XLle(e)) == Shift(o, g, m + 1)
  {
    hide Shift, Times, XBbe, XLle, X8Bbe, X8Lle;
    StepsAreShifts(e);
    ShiftNext(o, g, m);
  }

  /** The entries for the powers from 2^m up are in place. */
  ghost predicate LleFrom(row: seq<bv128>, g: bv128, m: nat) {
    |row| == 256 && row[0] == 0 && forall l :: m <= l <= 7 ==> 0 < Pow2(l) < 256 && row[Pow2(l)] == Shift(Lle, g, 7 - l)
  }

  lemma LleNext(row: seq<bv128>, g: bv128, m: nat)
    requires 0 < m <= 7 && LleFrom(row, g, m)
    ensures var j := Below(m);
            j > 0 && 2 * j < 256 && j / 2 == Below(m - 1) < j && LleFrom(row[j := XLle(row[j + j])], g, m - 1)
  {
    hide Shift, XBbe, XLle, Pow2, Below;
    var j := Below(m);
    BelowHalves(m);
    BelowHalves(m + 1);
    assert row[j + j] == Shift(Lle, g, 7 - m);
    NextPower(Lle, g, 7 - m, row[j + j]);
    var row' := row[j := XLle(row[j + j])];
    forall l | m - 1 <= l <= 7 ensures 0 < Pow2(l) < 256 && row'[Pow2(l)] == Shift(Lle, g, 7 - l) {
      if l >= m { PowerAbove(m, l); }
    }
  }

  lemma PowerAbove(m: nat, l: nat)
    requires 0 < m <= l <= 7
    ensures Pow2(l) > Below(m)
  {
    Powers();
  }

  method PowersLle(row: array<bv128>, g: bv128)
    requires row.Length == 256 && row[0] == 0
    modifies row
    ensures row[0] == 0 && forall l :: 0 <= l < 8 ==> Pow2(l) < 256 && row[Pow2(l)] == Shift(Lle, g, 7 - l)
  {
    hide Shift, XBbe, XLle, Pow2, Below;
    Bound(7);
    BelowHalves(7); BelowHalves(8);
    row[128] := g;
    ShiftZero(Lle, g);
    var j := 64;
    ghost var m := 7;
    while j > 0
      invariant 0 <= m <= 7 && j == Below(m) && LleFrom(row[..], g, m)
      decreases j
    {
      BelowZero(m);
      LleNext(row[..], g, m);
      ghost var was := row[..];
      row[j] := XLle(row[j + j]);
      assert row[..] == was[j := XLle(was[j + j])];
      j := j / 2;
      m := m - 1;
    }
    BelowZero(m);
    assert row[..][0] == 0;
    assert forall l :: 0 <= l < 8 ==> row[..][Pow2(l)] == row[Pow2(l)];
  }

  lemma EightFurther(o: Order, h: bv128, d: nat, e: bv128)
    requires e == Product(o, h, d)
    ensures (if o.Bbe? then X8Bbe(e) else X8Lle(e)) == Product(o, Shift(o, h, 8), d)
  {
    hide Product, Shift, Times, XBbe, XLle, X8Bbe, X8Lle;
    StepsAreShifts(e);
    ShiftProduct(o, h, d, 8);
  }

  /** The next lower power of two, halving. */
  function Below(m: nat): (j: nat) { if m == 0 then 0 else Pow2(m - 1) }

  lemma BelowHalves(m: nat)
    requires 0 < m <= 8
    ensures Below(m) / 2 == Below(m - 1) && 0 < Below(m) == Pow2(m - 1) <= 128 && Below(m - 1) < Below(m)
    ensures m > 1 ==> Below(m) == 2 * Below(m - 1)
  {
    Bound(m - 1);
    if m > 1 { Doubles(m - 2); }
  }

  method ShiftPowers(o: Order, prev: array<bv128>, row: array<bv128>, ghost h: bv128)
    requires prev.Length == 256 && IsRow(o, h, prev[..])
    requires row != prev && row.Length == 256 && row[0] == 0
    modifies row
    ensures HasPowers(o, Shift(o, h, 8), row[..])
  {
    hide Product, Shift, Pow2, Coefficients, X8Bbe, X8Lle, Below;
    BelowHalves(8);
    Bound(7);
    var j := 128;
    ghost var m := 8;
    while j > 0
      invariant 0 <= m <= 8 && j == Below(m) && (m == 0 ==> j == 0)
      invariant row[0] == 0
      invariant forall l :: m <= l < 8 ==>
                  j < Pow2(l) < 256 && row[Pow2(l)] == Product(o, Shift(o, h, 8), Coefficients(o, Pow2(l)))
      decreases j
    {
      BelowHalves(m);
      EightFurther(o, h, Coefficients(o, j), prev[j]);
      row[j] := prev[j];
      row[j] := if o.Bbe? then X8Bbe(row[j]) else X8Lle(row[j]);
      j := j / 2;
      m := m - 1;
      BelowZero(m);
    }
    BelowZero(m);
  }

  lemma BelowZero(m: nat) ensures m == 0 <==> Below(m) == 0 {}

  /** The next row of a 64k table: the powers of the row before, times x^8, then the sums. */
  method NextRow(o: Order, prev: array<bv128>, ghost h: bv128) returns (row: array<bv128>)
    requires prev.Length == 256 && IsRow(o, h, prev[..])
    ensures fresh(row) && row.Length == 256 && IsRow(o, Shift(o, h, 8), row[..])
  {
    hide IsRow, HasPowers, Shift;
    row := new bv128[256](_ => 0);
    ShiftPowers(o, prev, row, h);
    FillSums(row, o, Shift(o, h, 8));
  }

  /** `gf128mul_init_4k_bbe` and `gf128mul_init_4k_lle`. */
  method Init4k(o: Order, g: bv128) returns (row: array<bv128>)
    ensures fresh(row) && row.Length == 256 && IsRow(o, g, row[..])
  {
    row := FirstRow(o, g);
  }

  /** Row `i` is the table of the key times x^8i. */
  ghost predicate Is64k(o: Order, g: bv128, rows: seq<array<bv128>>)
    reads rows
  {
    |rows| == 16 && forall i :: 0 <= i < 16 ==> rows[i].Length == 256 && IsRow(o, Shift(o, g, 8 * i), rows[i][..])
  }

  /** `gf128mul_init_64k_bbe` and `gf128mul_init_64k_lle`. */
  method Init64k(o: Order, g: bv128) returns (rows: seq<array<bv128>>)
    ensures Is64k(o, g, rows)
    ensures forall i :: 0 <= i < |rows| ==> fresh(rows[i])
  {
    hide IsRow, Shift;
    ShiftZero(o, g);
    var row := FirstRow(o, g);
    rows := [row];
    var i := 1;
    while i < 16
      invariant 1 <= i <= 16 && |rows| == i && row == rows[i - 1]
      invariant forall k :: 0 <= k < i ==>
                  fresh(rows[k]) && rows[k].Length == 256 && IsRow(o, Shift(o, g, 8 * k), rows[k][..])
    {
      ShiftAdd(o, g, 8 * (i - 1), 8);
      row := NextRow(o, row, Shift(o, g, 8 * (i - 1)));
      rows := rows + [row];
      i := i + 1;
    }
  }

  // ---- Multiplying ----

  lemma DigitIs(o: Order, ap: seq<nat>, i: nat)
    requires IsBytes(ap) && i < 16
    ensures ByteAt(o, i) < 16 && Digits(o, ap)[i] == Coefficients(o, ap[ByteAt(o, i)])
    ensures forall k :: 0 <= k < 16 ==> Digits(o, ap)[k] < 256
  {
    Powers();
  }

  /** `gf128mul_64k_bbe` and `gf128mul_64k_lle`: the product in the field. */
  method Mul64k(o: Order, ap: seq<nat>, rows: seq<array<bv128>>, ghost g: bv128) returns (r: bv128)
    requires IsBytes(ap) && Is64k(o, g, rows)
    ensures r == Product(o, g, Polynomial(o, ap))
  {
    hide Product, Shift, Digits, Coefficients, ByteAt, Xor, Times, XBbe, XLle, X8Bbe, X8Lle;
    ghost var d := Digits(o, ap);
    DigitIs(o, ap, 0);
    r := rows[0][ap[ByteAt(o, 0)]];
    OneDigit(o, g, d);
    var i := 1;
    while i < 16
      invariant 1 <= i <= 16 && r == Product(o, g, Value(d[..i]))
    {
      DigitIs(o, ap, i);
      ValueSnoc(d, i);
      ProductSplits(o, g, d[i], 8 * i, Value(d[..i]));
      r := Xor(r, rows[i][ap[ByteAt(o, i)]]);
      XorBasics(Product(o, g, Value(d[..i])), Product(o, Shift(o, g, 8 * i), d[i]));
      i := i + 1;
    }
    assert d[..16] == d;
  }

  lemma OneDigit(o: Order, g: bv128, d: seq<nat>)
    requires |d| == 16
    ensures Value(d[..1]) == d[0] && Shift(o, g, 8 * 0) == g
  {
    assert d[..1] == [d[0]] && d[..1][1..] == [];
  }

  /** `gf128mul_4k_bbe` and `gf128mul_4k_lle`: the product in the field. */
  method Mul4k(o: Order, ap: seq<nat>, row: array<bv128>, ghost g: bv128) returns (r: bv128)
    requires IsBytes(ap) && row.Length == 256 && IsRow(o, g, row[..])
    ensures r == Product(o, g, Polynomial(o, ap))
  {
    hide Product, Shift, Digits, Coefficients, ByteAt, Xor, Times, XBbe, XLle, X8Bbe, X8Lle;
    ghost var d := Digits(o, ap);
    DigitIs(o, ap, 15);
    r := row[ap[ByteAt(o, 15)]];
    assert d[15..] == [d[15]] && [d[15]][1..] == [];
    var i := 15;
    while i > 0
      invariant 0 <= i <= 15 && r == Product(o, g, Value(d[i..]))
    {
      DigitIs(o, ap, i - 1);
      HornerStep(o, g, d, i - 1);
      StepsAreShifts(r);
      r := if o.Bbe? then X8Bbe(r) else X8Lle(r);
      i := i - 1;
      r := Xor(r, row[ap[ByteAt(o, i)]]);
    }
    assert d[0..] == d;
  }

  lemma HornerStep(o: Order, g: bv128, d: seq<nat>, i: nat)
    requires i < |d| && d[i] < 256
    ensures Product(o, g, Value(d[i..])) == Xor(Shift(o, Product(o, g, Value(d[i + 1..])), 8), Product(o, g, d[i]))
  {
    hide Product, Shift, Xor;
    var v := Value(d[i + 1..]);
    assert d[i..][1..] == d[i + 1..];
    Powers();
    ProductSplits(o, g, v, 8, d[i]);
    ShiftProduct(o, g, v, 8);
  }

  // ---- The two orders on bytes ----

  lemma {:induction false} RevWiden(n: nat, w: nat)
    requires w > 0 && n < Pow2(w - 1)
    ensures RevBits(n, w) == 2 * RevBits(n, w - 1)
    decreases w
  {
    hide RevBits, Pow2;
    RevStep(n, w);
    if w == 1 {
      Powers();
      RevZeros(1);
      RevZeros(0);
    } else {
      RevStep(n, w - 1);
      Pow2Next(w - 1);
      RevWiden(n / 2, w - 1);
      Twice(n % 2, Pow2(w - 2));
    }
  }

  lemma Twice(b: nat, p: nat)
    ensures b * (2 * p) == 2 * (b * p)
  {
  }

  /** A number and the digit above it, reversed. */
  lemma RevHigh(b: nat, r: nat, w: nat)
    requires w > 0 && b < 2 && r < Pow2(w - 1)
    ensures RevBits(b * Pow2(w - 1) + r, w) == b + 2 * RevBits(r, w - 1)
  {
    hide RevBits, Pow2;
    RevWiden(r, w);
    if b == 1 {
      RevAdd(w - 1, r, w);
      assert Pow2(0) == 1 by { Powers(); }
    }
  }

  /** Reversing the digits twice changes nothing. */
  lemma {:induction false} RevBitsTwice(n: nat, w: nat)
    requires n < Pow2(w)
    ensures RevBits(RevBits(n, w), w) == n
    decreases w
  {
    hide RevBits, Pow2;
    if w == 0 {
      assert Pow2(0) == 1 by { Powers(); }
      RevZeros(0);
    } else {
      Pow2Next(w);
      RevStep(n, w);
      RevSmall(n / 2, w - 1);
      RevBitsTwice(n / 2, w - 1);
      RevHigh(n % 2, RevBits(n / 2, w - 1), w);
    }
  }

  lemma RevSmall(n: nat, w: nat)
    ensures RevBits(n, w) < Pow2(w)
  {
  }

  /** The sixteen bytes with all their bits in opposite order. */
  function Mirrored(ap: seq<nat>): (bp: seq<nat>)
    requires |ap| == 16
    ensures |bp| == 16
  {
    seq(16, k requires 0 <= k < 16 => RevBits(ap[15 - k], 8))
  }

  /** Mirrored bytes, read in the other order, are the same polynomial. */
  lemma MirroredPolynomial(ap: seq<nat>)
    requires IsBytes(ap)
    ensures IsBytes(Mirrored(ap)) && Mirrored(Mirrored(ap)) == ap
    ensures Polynomial(Lle, Mirrored(ap)) == Polynomial(Bbe, ap)
  {
    hide RevBits, Pow2;
    var bp := Mirrored(ap);
    forall i | 0 <= i < 16 ensures RevBits(bp[i], 8) == ap[15 - i] && bp[i] < 256 {
      Powers();
      RevSmall(ap[15 - i], 8);
      RevBitsTwice(ap[15 - i], 8);
    }
    assert Digits(Lle, bp) == Digits(Bbe, ap);
  }

  /** The multipliers of the two orders correspond: with key and operand mirrored, the one returns the
      mirror image of what the other does. */
  lemma MultipliersCorrespond(g: bv128, ap: seq<nat>)
    requires IsBytes(ap)
    ensures IsBytes(Mirrored(ap))
    ensures Product(Lle, Rev(g), Polynomial(Lle, Mirrored(ap))) == Rev(Product(Bbe, g, Polynomial(Bbe, ap)))
    ensures Product(Bbe, g, Polynomial(Bbe, ap)) == Rev(Product(Lle, Rev(g), Polynomial(Lle, Mirrored(ap))))
  {
    hide Product, Rev, Polynomial, Mirrored;
    MirroredPolynomial(ap);
    OrdersCorrespond(g, Polynomial(Bbe, ap));
    RevTwice(Product(Bbe, g, Polynomial(Bbe, ap)));
  }
}
