/** The LRW mode: each block is masked with the product of its index and a second key. The product
    for the next index is found by adding one entry of a table of 128 products. */
module Lrw {

  import opened Gf128
  import opened Gf128Tables

  // ---- Numbers, their low ones and their bytes ----

  /** How many consecutive ones `n` ends in. */
  function Ones(n: nat): (t: nat) {
    if n % 2 == 1 then 1 + Ones(n / 2) else 0
  }

  lemma {:induction false} OnesShape(n: nat) returns (q: nat)
    ensures n == q * Pow2(Ones(n) + 1) + Pow2(Ones(n)) - 1
    decreases n
  {
    hide Pow2;
    if n % 2 == 1 {
      var t := Ones(n / 2);
      q := OnesShape(n / 2);
      Pow2Next(t + 1);
      Pow2Next(t + 2);
      DoubleShape(q, Pow2(t), n / 2);
    } else {
      q := n / 2;
      assert Pow2(0) == 1 && Pow2(1) == 2 by { Powers(); }
    }
  }

  lemma DoubleShape(q: nat, p: nat, h: nat)
    requires h == q * (2 * p) + p - 1
    ensures 2 * h + 1 == q * (2 * (2 * p)) + 2 * p - 1
  {
    assert 2 * (q * (2 * p)) == q * (2 * (2 * p));
  }

  lemma {:induction false} OnesSkip(q: nat, s: nat)
    ensures Ones(q * Pow2(s) + Pow2(s) - 1) == s + Ones(q)
    decreases s
  {
    if s > 0 {
      hide Pow2;
      Pow2Next(s);
      OnesSkip(q, s - 1);
      OnesHalf(q, Pow2(s - 1));
    }
  }

  lemma OnesHalf(q: nat, p: nat)
    requires p >= 1
    ensures q * (2 * p) + 2 * p - 1 >= 0 && Ones(q * (2 * p) + 2 * p - 1) == 1 + Ones(q * p + p - 1)
  {
    HalfOf(q, p, 2 * p - 1);
    assert (2 * p - 1) / 2 == p - 1 && (2 * p - 1) % 2 == 1;
  }

  lemma {:induction false} OnesLow(q: nat, s: nat, w: nat)
    requires w < Pow2(s) - 1
    ensures Ones(q * Pow2(s) + w) == Ones(w) < s
    decreases s
  {
    if s > 0 {
      var p := Pow2(s - 1);
      HalfOf(q, p, w);
      if w % 2 == 1 {
        assert w / 2 < p - 1;
        OnesLow(q, s - 1, w / 2);
      }
    }
  }

  /** A 128-bit counter in two 64-bit words. */
  datatype Iv = Iv(a: nat, b: nat)

  ghost predicate IsIv(v: Iv) { v.a < Pow2(64) && v.b < Pow2(64) }

  ghost function Num(v: Iv): (n: nat) { v.a * Pow2(64) + v.b }

  lemma NumBound(v: Iv)
    requires IsIv(v)
    ensures Num(v) < Pow2(128)
    ensures Num(v) == Pow2(128) - 1 <==> v.a == Pow2(64) - 1 && v.b == Pow2(64) - 1
  {
    hide Pow2;
    Pow2Add(64, 64);
    TwoDigits(v.a, v.b, Pow2(64));
  }

  lemma TwoDigits(a: nat, b: nat, p: nat)
    requires a < p && b < p
    ensures a * p + b < p * p
    ensures a * p + b == p * p - 1 <==> a == p - 1 && b == p - 1
  {
    if a == p - 1 {
      assert a * p == p * p - p;
    } else {
      assert (a + 2) * p <= p * p;
      assert (a + 2) * p == a * p + 2 * p;
    }
  }

  const WORD: nat := 0x1_0000_0000_0000_0000

  lemma WordIs()
    ensures Pow2(64) == WORD && Pow2(32) == 0x1_0000_0000
  {
    Powers();
    Pow2Add(8, 8);
    Pow2Add(16, 16);
    Pow2Add(32, 32);
  }

  /** `inc`: the low word with carry into the high one. */
  function Inc(v: Iv): (v': Iv) {
    var b := (v.b + 1) % WORD;
    if b == 0 then Iv((v.a + 1) % WORD, b) else Iv(v.a, b)
  }

  /** The increment adds one to the counter, and wraps only from all ones to zero. */
  lemma IncAdds(v: Iv)
    requires IsIv(v)
    ensures IsIv(Inc(v))
    ensures Num(Inc(v)) == if Num(v) == Pow2(128) - 1 then 0 else Num(v) + 1
  {
    hide Pow2;
    WordIs();
    NumBound(v);
    var p := Pow2(64);
    if v.b == p - 1 {
      assert (v.a + 1) * p == v.a * p + p;
      if v.a < p - 1 { assert Inc(v) == Iv(v.a + 1, 0); }
    }
  }

  // ---- The next tweak ----

  /** Adding one to the index adds, in the field, the product with a run of ones. */
  lemma NextTweak(g: bv128, n: nat)
    ensures Product(Bbe, g, n + 1) == Xor(Product(Bbe, g, n), Product(Bbe, g, Pow2(Ones(n) + 1) - 1))
  {
    hide Product, Shift, Xor, Ones, Pow2;
    var t := Ones(n);
    var q := OnesShape(n);
    Doubles(t);
    var h := Product(Bbe, Shift(Bbe, g, t + 1), q);
    var low := Product(Bbe, g, Pow2(t) - 1);
    var top := Shift(Bbe, g, t);
    ProductSplits(Bbe, g, q, t + 1, Pow2(t) - 1);
    ProductSplits(Bbe, g, q, t + 1, Pow2(t));
    ProductPow(Bbe, g, t);
    ProductSplits(Bbe, g, 1, t, Pow2(t) - 1);
    ProductOne(Bbe, top);
    assert Product(Bbe, g, n) == Xor(h, low);
    assert Product(Bbe, g, n + 1) == Xor(h, top);
    XorSwap(h, low, top, low);
    XorBasics(low, low);
    XorBasics(Xor(h, top), 0);
  }

  /** `mulinc[i]` is the key times a run of i + 1 ones. */
  ghost predicate IsMulInc(g: bv128, mulinc: seq<bv128>) {
    |mulinc| == 128 && forall i :: 0 <= i < 128 ==> mulinc[i] == Product(Bbe, g, Pow2(i + 1) - 1)
  }

  // ---- get_index128 ----

  /** Word `i` of the counter, the lowest first. */
  function WordOf(v: Iv, i: nat): (w: nat) {
    var half := if i < 2 then v.b else v.a;
    if i % 2 == 0 then half % 0x1_0000_0000 else half / 0x1_0000_0000
  }

  /** `ffz`: the position of the lowest zero bit. */
  method FirstZero(val: nat) returns (k: nat)
    requires val < Pow2(32) - 1
    ensures k == Ones(val) < 32
  {
    OnesLow(0, 32, val);
    k := 0;
    var v := val;
    while v % 2 == 1
      invariant k + Ones(v) == Ones(val)
      decreases v
    {
      v := v / 2;
      k := k + 1;
    }
  }

  /** The counter above its lowest `i` words. */
  ghost function Upper(v: Iv, i: nat): (n: nat) {
    hide Pow2;
    if i == 0 then Num(v) else if i == 1 then v.a * Pow2(32) + v.b / Pow2(32)
    else if i == 2 then v.a else if i == 3 then v.a / Pow2(32) else 0
  }

  lemma UpperWord(v: Iv, i: nat)
    requires IsIv(v) && i < 4
    ensures Upper(v, i) == Upper(v, i + 1) * Pow2(32) + WordOf(v, i) && WordOf(v, i) < Pow2(32)
  {
    hide Pow2;
    WordIs();
    Pow2Add(32, 32);
    var p := Pow2(32);
    if i == 0 {
      assert (v.a * p + v.b / p) * p == v.a * (p * p) + (v.b / p) * p;
    }
  }

  /** The number of ones the counter ends in; 128, one past the table, exactly when it is all ones. */
  method GetIndex(v: Iv) returns (x: nat)
    requires IsIv(v)
    ensures x == 128 <==> Num(v) == Pow2(128) - 1
    ensures Num(v) != Pow2(128) - 1 ==> x == Ones(Num(v)) < 128
  {
    hide Pow2, Ones, Upper, WordOf;
    UpperEnds(v);
    x := 0;
    var i := 0;
    while x < 128
      invariant 0 <= i <= 4 && x == 32 * i
      invariant Num(v) == Upper(v, i) * Pow2(x) + Pow2(x) - 1
      decreases 128 - x
    {
      var val := WordOf(v, i);
      WordIs();
      UpperWord(v, i);
      ghost var u := Upper(v, i + 1);
      Pow2Add(32, x);
      NumBound(v);
      if val == 0xffff_ffff {
        Carry(u, Pow2(32), Pow2(x));
        x := x + 32;
        i := i + 1;
        continue;
      }
      var z := FirstZero(val);
      OnesLow(u, 32, val);
      OnesSkip(Upper(v, i), x);
      AllOnesSplit(v, i, val);
      return x + z;
    }
    assert Upper(v, 4) == 0 by { UpperEnds(v); }
  }

  /** The counter from which no further tweak can be reached: its index is one past the table. */
  method LastCounter() returns (v: Iv, x: nat)
    ensures IsIv(v) && v == Iv(0xffff_ffff_ffff_ffff, 0xffff_ffff_ffff_ffff) && x == 128
    ensures forall g, mulinc :: IsMulInc(g, mulinc) ==> x == |mulinc|
  {
    hide Pow2, Product;
    WordIs();
    v := Iv(0xffff_ffff_ffff_ffff, 0xffff_ffff_ffff_ffff);
    NumBound(v);
    x := GetIndex(v);
  }

  lemma UpperEnds(v: Iv)
    ensures Upper(v, 0) == Num(v) && Upper(v, 4) == 0 && Pow2(0) == 1
  {
  }

  lemma Carry(u: nat, p: nat, z: nat)
    requires p > 0 && z > 0
    ensures (u * p + p - 1) * z + z - 1 == u * (p * z) + p * z - 1
  {
  }

  /** All ones has all ones in every word. */
  lemma AllOnesSplit(v: Iv, i: nat, val: nat)
    requires IsIv(v) && i < 4 && val == WordOf(v, i) && val != 0xffff_ffff
    ensures Num(v) != Pow2(128) - 1
  {
    hide Pow2;
    WordIs();
    NumBound(v);
  }

  // ---- Keys ----

  /** `setbit128_bbe` on sixteen bytes: bit `bit ^ 0x78` in little-endian bit numbering. */
  method SetBit(tmp: array<nat>, bit: nat)
    requires tmp.Length == 16 && bit < 128
    modifies tmp
    ensures var k := 15 - bit / 8;
            && tmp[k] == WithBit(old(tmp[k]), bit % 8)
            && forall j :: 0 <= j < 16 && j != k ==> tmp[j] == old(tmp[j])
  {
    FlipBit(bit);
    var c := ((bit as bv8) ^ 0x78) as nat;
    tmp[c / 8] := WithBit(tmp[c / 8], c % 8);
  }

  lemma FlipBit(bit: nat)
    requires bit < 128
    ensures ((bit as bv8) ^ 0x78) as nat == 8 * (15 - bit / 8) + bit % 8
  {
  }

  /** A byte with bit `b` set. */
  function WithBit(byte: nat, b: nat): (r: nat) {
    if (byte / Pow2(b)) % 2 == 1 then byte else byte + Pow2(b)
  }

  /** Digits, lowest first, of a number of `i` ones. */
  ghost predicate OnesDigits(d: seq<nat>, i: nat) {
    forall j :: 0 <= j < |d| ==> d[j] == if j < i / 8 then 255 else if j == i / 8 then Pow2(i % 8) - 1 else 0
  }

  lemma {:induction false} OnesValue(d: seq<nat>, i: nat)
    requires OnesDigits(d, i) && i <= 8 * |d|
    ensures Value(d) == Pow2(i) - 1
  {
    hide Pow2;
    Powers();
    if d != [] {
      var e := d[1..];
      if i < 8 {
        assert OnesDigits(e, 0);
        OnesValue(e, 0);
      } else {
        assert (i - 8) / 8 == i / 8 - 1 && (i - 8) % 8 == i % 8;
        assert OnesDigits(e, i - 8);
        OnesValue(e, i - 8);
        Pow2Add(8, i - 8);
      }
    }
  }

  lemma SetNext(v: nat, b: nat)
    requires v == Pow2(b) - 1
    ensures WithBit(v, b) == Pow2(b + 1) - 1
  {
  }

  lemma MoreOnes(d: seq<nat>, e: seq<nat>, i: nat)
    requires OnesDigits(d, i) && |e| == |d| && i / 8 < |d|
    requires e[i / 8] == WithBit(d[i / 8], i % 8)
    requires forall j :: 0 <= j < |d| && j != i / 8 ==> e[j] == d[j]
    ensures OnesDigits(e, i + 1)
  {
    hide Pow2, WithBit;
    Powers();
    SetNext(d[i / 8], i % 8);
    if i % 8 == 7 {
      assert (i + 1) / 8 == i / 8 + 1 && (i + 1) % 8 == 0;
    } else {
      assert (i + 1) / 8 == i / 8 && (i + 1) % 8 == i % 8 + 1;
    }
  }

  lemma OnesAreBytes(tmp: seq<nat>, i: nat)
    requires |tmp| == 16 && i <= 128 && OnesDigits(Digits(Bbe, tmp), i)
    ensures IsBytes(tmp) && Polynomial(Bbe, tmp) == Pow2(i) - 1
  {
    hide Pow2;
    var d := Digits(Bbe, tmp);
    OnesValue(d, i);
    forall k | 0 <= k < 16 ensures tmp[k] < 256 {
      assert d[15 - k] == tmp[k];
      if i % 8 > 0 { Bound(i % 8); } else { Bound(0); }
    }
  }

  /** `setkey`: the 64k table of the second key, and its products with runs of ones. */
  method SetKey(g: bv128) returns (rows: seq<array<bv128>>, mulinc: array<bv128>)
    ensures fresh(mulinc) && Is64k(Bbe, g, rows) && IsMulInc(g, mulinc[..])
    ensures mulinc !in rows
  {
    hide Product, Pow2, IsRow, OnesDigits, WithBit, Polynomial, Is64k;
    rows := Init64k(Bbe, g);
    mulinc := new bv128[128](_ => 0);
    var tmp := new nat[16](_ => 0);
    NoOnes(tmp[..]);
    var i := 0;
    while i < 128
      invariant 0 <= i <= 128 && Is64k(Bbe, g, rows)
      invariant OnesDigits(Digits(Bbe, tmp[..]), i)
      invariant forall k :: 0 <= k < i ==> mulinc[k] == Product(Bbe, g, Pow2(k + 1) - 1)
    {
      ghost var d := Digits(Bbe, tmp[..]);
      SetBit(tmp, i);
      MoreOnes(d, Digits(Bbe, tmp[..]), i);
      OnesAreBytes(tmp[..], i + 1);
      mulinc[i] := Mul64k(Bbe, tmp[..], rows, g);
      i := i + 1;
    }
  }

  lemma NoOnes(tmp: seq<nat>)
    requires |tmp| == 16 && forall k :: 0 <= k < 16 ==> tmp[k] == 0
    ensures OnesDigits(Digits(Bbe, tmp), 0)
  {
    assert Pow2(0) == 1;
  }

  // ---- The mode ----

  /** The counter's sixteen bytes in memory order. */
  ghost predicate IsBytesOf(ap: seq<nat>, v: Iv) {
    IsBytes(ap) && Polynomial(Bbe, ap) == Num(v)
  }

  /** `lrw_round`: mask, cipher, mask. */
  function Masked(cipher: bv128 -> bv128, t: bv128, x: bv128): (y: bv128) {
    Xor(cipher(Xor(t, x)), t)
  }

  /** Block `n` of a message that starts at counter value `start`. */
  ghost function BlockAt(cipher: bv128 -> bv128, g: bv128, start: nat, n: nat, x: bv128): (y: bv128) {
    Masked(cipher, Product(Bbe, g, start + n), x)
  }

  /** The first `n` blocks are done, the others still as they were. */
  ghost predicate Progress(cipher: bv128 -> bv128, g: bv128, start: nat, was: seq<bv128>, src: seq<bv128>,
                           dst: seq<bv128>, n: nat) {
    && |src| == |was| == |dst| && n <= |was|
    && (forall k :: 0 <= k < n ==> dst[k] == BlockAt(cipher, g, start, k, was[k]))
    && (forall k :: n <= k < |was| ==> src[k] == was[k])
  }

  /** The tweak and the counter between blocks: those of the last block done, or of the first. */
  ghost predicate InStep(g: bv128, start: nat, t: bv128, v: Iv, n: nat) {
    IsIv(v) && t == Product(Bbe, g, Num(v)) && Num(v) == start + if n == 0 then 0 else n - 1
  }

  /** The inner loop of `crypt`: the blocks of one chunk. */
  method CryptChunk(cipher: bv128 -> bv128, g: bv128, mulinc: array<bv128>, t: bv128, v: Iv, done: nat, avail: nat,
                    src: array<bv128>, dst: array<bv128>, ghost start: nat, ghost was: seq<bv128>)
    returns (t': bv128, v': Iv)
    requires IsMulInc(g, mulinc[..]) && dst != mulinc
    requires done + avail <= src.Length && start + src.Length <= Pow2(128)
    requires Progress(cipher, g, start, was, src[..], dst[..], done) && InStep(g, start, t, v, done)
    modifies dst
    ensures Progress(cipher, g, start, was, src[..], dst[..], done + avail) && InStep(g, start, t', v', done + avail)
  {
    hide Product, Pow2, Xor, Inc, Ones, IsIv, Masked;
    t', v' := t, v;
    var n := done;
    while n < done + avail
      invariant done <= n <= done + avail
      invariant Progress(cipher, g, start, was, src[..], dst[..], n) && InStep(g, start, t', v', n)
    {
      if n > 0 { t', v' := Advance(g, mulinc, t', v'); }
      dst[n] := Masked(cipher, t', src[n]);
      n := n + 1;
    }
  }

  /** `crypt` over a walk that delivers `chunks[0]`, `chunks[1]`, ... whole blocks at a time, in place
      or not. While the counter does not wrap, block n is masked with the product of the second key
      and the counter's start plus n, whatever the chunks; the counter is left at the last block. */
  method Crypt(cipher: bv128 -> bv128, g: bv128, rows: seq<array<bv128>>, mulinc: array<bv128>,
               iv: Iv, ap: seq<nat>, chunks: seq<nat>, src: array<bv128>, dst: array<bv128>)
    returns (end: Iv)
    requires Is64k(Bbe, g, rows) && IsMulInc(g, mulinc[..]) && IsIv(iv) && IsBytesOf(ap, iv)
    requires dst != mulinc && src.Length == dst.Length
    requires Total(chunks) == src.Length
    requires Num(iv) + src.Length <= Pow2(128)
    modifies dst
    ensures forall n :: 0 <= n < dst.Length ==> dst[n] == BlockAt(cipher, g, Num(iv), n, old(src[n]))
    ensures forall n :: 0 <= n < dst.Length ==>
              var tweak := Product(Bbe, g, Num(iv) + n);
              dst[n] == Xor(cipher(Xor(old(src[n]), tweak)), tweak)
    ensures IsIv(end) && Num(end) == Num(iv) + if src.Length == 0 then 0 else src.Length - 1
  {
    hide Product, Pow2, IsRow, IsMulInc, Polynomial, BlockAt, Progress, InStep;
    end := iv;
    ghost var start: nat := Num(iv);
    ghost var was := src[..];
    var t := Mul64k(Bbe, ap, rows, g);
    Started(cipher, g, start, was, dst[..], t, iv);
    var n: nat, c: nat := 0, 0;
    while c < |chunks|
      invariant c <= |chunks| && n + Total(chunks[c..]) == src.Length
      invariant IsMulInc(g, mulinc[..])
      invariant Progress(cipher, g, start, was, src[..], dst[..], n) && InStep(g, start, t, end, n)
    {
      assert chunks[c..][1..] == chunks[c + 1..];
      t, end := CryptChunk(cipher, g, mulinc, t, end, n, chunks[c], src, dst, start, was);
      n := n + chunks[c];
      c := c + 1;
    }
    Finished(cipher, g, start, was, src[..], dst[..], t, end);
    forall n | 0 <= n < dst.Length
      ensures var tweak := Product(Bbe, g, start + n);
              BlockAt(cipher, g, start, n, was[n]) == Xor(cipher(Xor(was[n], tweak)), tweak)
    {
      TwoSums(cipher, g, start, n, was[n]);
    }
  }

  lemma TwoSums(cipher: bv128 -> bv128, g: bv128, start: nat, n: nat, x: bv128)
    ensures var tweak := Product(Bbe, g, start + n);
            BlockAt(cipher, g, start, n, x) == Xor(cipher(Xor(x, tweak)), tweak)
  {
    hide Product, Xor;
    XorComm(x, Product(Bbe, g, start + n));
  }

  lemma Started(cipher: bv128 -> bv128, g: bv128, start: nat, was: seq<bv128>, dst: seq<bv128>, t: bv128, v: Iv)
    requires |dst| == |was| && IsIv(v) && Num(v) == start && t == Product(Bbe, g, start)
    ensures Progress(cipher, g, start, was, was, dst, 0) && InStep(g, start, t, v, 0)
  {
    hide BlockAt, Product;
  }

  lemma Finished(cipher: bv128 -> bv128, g: bv128, start: nat, was: seq<bv128>, src: seq<bv128>, dst: seq<bv128>,
                 t: bv128, v: Iv)
    requires Progress(cipher, g, start, was, src, dst, |was|) && InStep(g, start, t, v, |was|)
    ensures |dst| == |was| && forall n :: 0 <= n < |was| ==> dst[n] == BlockAt(cipher, g, start, n, was[n])
    ensures IsIv(v) && Num(v) == start + if |was| == 0 then 0 else |was| - 1
  {
    hide BlockAt, Product;
  }

  lemma MulIncStep(g: bv128, mulinc: seq<bv128>, n: nat, x: nat)
    requires IsMulInc(g, mulinc) && x == Ones(n) < 128
    ensures |mulinc| == 128 && Product(Bbe, g, n + 1) == Xor(Product(Bbe, g, n), mulinc[x])
  {
    hide Product, Pow2, Xor, Ones;
    NextTweak(g, n);
  }

  /** The step between two blocks: one table entry onto the tweak, one onto the counter. */
  method Advance(g: bv128, mulinc: array<bv128>, t: bv128, v: Iv) returns (t': bv128, v': Iv)
    requires IsMulInc(g, mulinc[..]) && IsIv(v) && Num(v) != Pow2(128) - 1
    requires t == Product(Bbe, g, Num(v))
    ensures IsIv(v') && Num(v') == Num(v) + 1
    ensures t' == Product(Bbe, g, Num(v) + 1)
  {
    hide Product, Pow2, Xor, Inc, Ones, IsMulInc, Num;
    var x := GetIndex(v);
    MulIncStep(g, mulinc[..], Num(v), x);
    t' := Xor(t, mulinc[..][x]);
    IncAdds(v);
    v' := Inc(v);
  }

  function Total(chunks: seq<nat>): (n: nat) {
    if chunks == [] then 0 else chunks[0] + Total(chunks[1..])
  }

  /** Decryption undoes encryption block by block, for any cipher and its inverse. */
  lemma DecryptInvertsEncrypt(enc: bv128 -> bv128, dec: bv128 -> bv128, g: bv128, start: nat, n: nat, x: bv128)
    requires forall z :: dec(enc(z)) == z
    ensures BlockAt(dec, g, start, n, BlockAt(enc, g, start, n, x)) == x
  {
    hide Product, Xor;
    var t := Product(Bbe, g, start + n);
    var y := enc(Xor(t, x));
    XorBasics(t, Xor(y, t));
    XorBasics(y, t);
    XorCancel(y, t);
    XorBasics(t, x);
    XorCancel(x, t);
    assert dec(enc(Xor(t, x))) == Xor(t, x);
  }
}
