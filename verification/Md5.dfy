/** MD5's buffering and padding around an arbitrary compression function: blocks of 64 bytes, a byte
    count of 64 bits. Whatever the split of the message into updates, the digest is the fold of the
    compression over the padded message (sections 3.1 to 3.3 of RFC 1321). */
module Md5 {

  type Byte = bv8

  /** Initial state, compression of one block, and the digest bytes of a state. */
  datatype Core<!H> = Core(init: H, compress: (H, seq<Byte>) -> H, encode: H -> seq<Byte>, size: nat)

  const BLOCK: nat := 64
  const WRAP: nat := 0x1_0000_0000_0000_0000

  // ---- The definition ----

  /** The compression over whole blocks. */
  function Fold<H>(c: Core<H>, h: H, x: seq<Byte>): (r: H)
    decreases |x|
  {
    if |x| < BLOCK then h else Fold(c, c.compress(h, x[..BLOCK]), x[BLOCK..])
  }

  function Zeros(n: nat): (z: seq<Byte>)
    ensures |z| == n && forall i :: 0 <= i < n ==> z[i] == 0
  {
    seq(n, _ => 0)
  }

  function ByteOf(n: nat): (b: Byte)
    requires n < 256
  {
    n as Byte
  }

  /** A number below 2^32 as four bytes, the lowest first. */
  function Le32(n: nat): (b: seq<Byte>)
    ensures |b| == 4
  {
    [ByteOf(n % 256), ByteOf(n / 0x100 % 256), ByteOf(n / 0x1_0000 % 256), ByteOf(n / 0x100_0000 % 256)]
  }

  function Val(b: Byte): (n: nat) { b as nat }

  /** The number the bytes stand for, the lowest first. */
  function Digits(b: seq<Byte>): (n: nat) {
    if b == [] then 0 else Val(b[0]) + 256 * Digits(b[1..])
  }

  lemma ValBack(b: Byte) ensures Val(b) < 256 && ByteOf(Val(b)) == b {}

  lemma Digits4(b: seq<Byte>)
    requires |b| == 4
    ensures Digits(b) == Val(b[0]) + 256 * (Val(b[1]) + 256 * (Val(b[2]) + 256 * Val(b[3])))
  {
    hide Val;
    assert b[1..] == [b[1], b[2], b[3]] && b[1..][1..] == [b[2], b[3]] && b[1..][1..][1..] == [b[3]];
    assert Digits([b[3]]) == Val(b[3]);
    assert Digits([b[2], b[3]]) == Val(b[2]) + 256 * Digits([b[3]]);
    assert Digits([b[1], b[2], b[3]]) == Val(b[1]) + 256 * Digits([b[2], b[3]]);
  }

  lemma FourDigits(a: nat, b: nat, c: nat, d: nat)
    requires a < 256 && b < 256 && c < 256 && d < 256
    ensures var n := a + 256 * (b + 256 * (c + 256 * d));
            n % 256 == a && n / 0x100 % 256 == b && n / 0x1_0000 % 256 == c && n / 0x100_0000 % 256 == d &&
                n < 0x1_0000_0000
  {
  }

  /** Writing a number as four bytes inverts reading it. */
  lemma Le32Inverse(b: seq<Byte>)
    requires |b| == 4
    ensures Digits(b) < 0x1_0000_0000 && Le32(Digits(b)) == b
  {
    hide Digits, Val, ByteOf;
    Digits4(b);
    ValBack(b[0]); ValBack(b[1]); ValBack(b[2]); ValBack(b[3]);
    FourDigits(Val(b[0]), Val(b[1]), Val(b[2]), Val(b[3]));
    assert Le32(Digits(b)) == [b[0], b[1], b[2], b[3]];
  }

  /** The low 64 bits of a number, the lowest byte first. */
  function Le64(n: nat): (b: seq<Byte>)
    ensures |b| == 8
  {
    Le32(n % 0x1_0000_0000) + Le32(n / 0x1_0000_0000 % 0x1_0000_0000)
  }

  lemma {:induction false} DigitsAppend(a: seq<Byte>, b: seq<Byte>)
    requires |a| == 4
    ensures Digits(a + b) == Digits(a) + 0x1_0000_0000 * Digits(b)
  {
    var c := a + b;
    assert c[1..] == a[1..] + b && c[1..][1..] == a[2..] + b && c[1..][1..][1..] == a[3..] + b &&
        c[1..][1..][1..][1..] == b;
    assert a[1..][1..] == a[2..] && a[2..][1..] == a[3..] && a[3..][1..] == [];
    assert Digits(a[3..]) == Val(a[3]) && Digits(a[3..] + b) == Val(a[3]) + 256 * Digits(b);
    assert Digits(a[2..]) == Val(a[2]) + 256 * Digits(a[3..]) &&
        Digits(a[2..] + b) == Val(a[2]) + 256 * Digits(a[3..] + b);
    assert Digits(a[1..]) == Val(a[1]) + 256 * Digits(a[2..]) &&
        Digits(a[1..] + b) == Val(a[1]) + 256 * Digits(a[2..] + b);
  }

  /** So for eight bytes, and any number modulo 2^64. */
  lemma Le64Inverse(b: seq<Byte>, n: nat)
    requires |b| == 8 && Digits(b) == n % WRAP
    ensures Le64(n) == b
  {
    hide Le32, Digits;
    var lo, hi := b[..4], b[4..];
    assert b == lo + hi;
    DigitsAppend(lo, hi);
    Le32Inverse(lo);
    Le32Inverse(hi);
    TwoWords(n, Digits(lo), Digits(hi));
  }

  lemma TwoWords(n: nat, lo: nat, hi: nat)
    requires lo < 0x1_0000_0000 && hi < 0x1_0000_0000 && lo + 0x1_0000_0000 * hi == n % WRAP
    ensures n % 0x1_0000_0000 == lo && n / 0x1_0000_0000 % 0x1_0000_0000 == hi
  {
  }

  /** The padding: a mark, zeros up to a whole number of blocks, and the length in bits modulo 2^64, the
      lowest byte first. */
  lemma PaddingIs(n: nat, length: seq<Byte>)
    requires |length| == 8 && Digits(length) == 8 * n % WRAP
    ensures var p := Padding(n);
            && 9 <= |p| <= BLOCK + 8 && (n + |p|) % BLOCK == 0
            && p[0] == 0x80 && (forall i :: 1 <= i < |p| - 8 ==> p[i] == 0) && p[|p| - 8..] == length
  {
    hide Le64, Digits;
    Le64Inverse(length, 8 * n);
  }

  /** How many zero bytes bring a message and the mark behind it to 56 modulo 64. */
  function ZerosAfter(n: nat): (z: nat)
    ensures z < BLOCK && (n + 1 + z + 8) % BLOCK == 0
  {
    (BLOCK + 55 - n % BLOCK) % BLOCK
  }

  function Padding(n: nat): (p: seq<Byte>) {
    [0x80] + Zeros(ZerosAfter(n)) + Le64(8 * n)
  }

  function Hash<H>(c: Core<H>, m: seq<Byte>): (d: seq<Byte>) {
    c.encode(Fold(c, c.init, m + Padding(|m|)))
  }

  // ---- Folding in pieces ----

  lemma {:induction false} FoldAppend<H>(c: Core<H>, h: H, x: seq<Byte>, y: seq<Byte>)
    requires |x| % BLOCK == 0
    ensures Fold(c, h, x + y) == Fold(c, Fold(c, h, x), y)
    decreases |x|
  {
    if |x| < BLOCK {
      assert x == [] && x + y == y;
    } else {
      assert (x + y)[..BLOCK] == x[..BLOCK] && (x + y)[BLOCK..] == x[BLOCK..] + y;
      FoldAppend(c, c.compress(h, x[..BLOCK]), x[BLOCK..], y);
    }
  }

  lemma FoldOne<H>(c: Core<H>, h: H, x: seq<Byte>)
    requires |x| == BLOCK
    ensures Fold(c, h, x) == c.compress(h, x)
  {
    assert x[..BLOCK] == x && x[BLOCK..] == [];
    assert Fold(c, c.compress(h, x), []) == c.compress(h, x);
  }

  // ---- The context ----

  /** `struct md5_ctx`. */
  datatype Ctx<H> = Ctx(hash: H, block: seq<Byte>, count: nat)

  /** How much of a message is in whole blocks. */
  function Whole(n: nat): (k: nat)
    ensures k <= n && k % BLOCK == 0 && n - k == n % BLOCK
  {
    n - n % BLOCK
  }

  /** The context after message `m`: whole blocks folded, the rest in the buffer, the count kept. */
  ghost predicate Absorbed<H>(c: Core<H>, x: Ctx<H>, m: seq<Byte>) {
    && |x.block| == BLOCK
    && x.count == |m| % WRAP
    && x.hash == Fold(c, c.init, m[..Whole(|m|)])
    && x.block[..|m| % BLOCK] == m[Whole(|m|)..]
  }

  lemma CountMod(n: nat)
    ensures (n % WRAP) % BLOCK == n % BLOCK
  {
  }

  lemma CountAdd(n: nat, k: nat)
    ensures (n % WRAP + k) % WRAP == (n + k) % WRAP
  {
  }

  /** Completing a block and folding it. */
  lemma {:induction false} FoldNext<H>(c: Core<H>, m: seq<Byte>, k: nat)
    requires k + BLOCK <= |m| && k % BLOCK == 0
    ensures Fold(c, c.init, m[..k + BLOCK]) == c.compress(Fold(c, c.init, m[..k]), m[k..k + BLOCK])
  {
    assert m[..k + BLOCK] == m[..k] + m[k..k + BLOCK];
    FoldAppend(c, c.init, m[..k], m[k..k + BLOCK]);
    FoldOne(c, Fold(c, c.init, m[..k]), m[k..k + BLOCK]);
  }

  /** A digest in progress. */
  class Digest<!H> {

    const c: Core<H>
    var x: Ctx<H>
    ghost var msg: seq<Byte>     // everything absorbed since the start

    ghost predicate Valid()
      reads this
    {
      Absorbed(c, x, msg)
    }

    /** `md5_init` on a new context. */
    constructor (core: Core<H>)
      ensures Valid() && msg == [] && c == core
    {
      c := core;
      x := Ctx(core.init, Zeros(BLOCK), 0);
      msg := [];
    }

    /** `md5_init` again; only the size of the buffer matters. */
    method Reset()
      requires |x.block| == BLOCK
      modifies this
      ensures Valid() && msg == []
    {
      x := x.(hash := c.init, count := 0);
      msg := [];
    }

    /** `md5_update`. */
    method Update(data: seq<Byte>)
      requires Valid()
      modifies this
      ensures Valid() && msg == old(msg) + data
    {
      hide Fold;
      ghost var m := msg + data;
      CountMod(|msg|);
      CountAdd(|msg|, |data|);
      var used := x.count % BLOCK;
      var avail := BLOCK - used;
      x := x.(count := (x.count + |data|) % WRAP);
      if avail > |data| {
        Rest(m, msg, data, x.block, used);
        x := x.(block := x.block[..used] + data + x.block[used + |data|..]);
        msg := m;
        return;
      }
      Filled(c, x.hash, m, msg, data, x.block, used);
      x := x.(block := x.block[..used] + data[..avail]);
      x := x.(hash := c.compress(x.hash, x.block));
      var pos := FoldBlocks(data, avail, m);
      Tail(m, msg, data, x.block, pos);
      x := x.(block := data[pos..] + x.block[|data| - pos..]);
      msg := m;
    }

    /** The loop over whole blocks of the new data. */
    method FoldBlocks(data: seq<Byte>, start: nat, ghost m: seq<Byte>) returns (pos: nat)
      requires m == msg + data && start <= |data| && (|msg| + start) % BLOCK == 0
      requires |x.block| == BLOCK && x.hash == Fold(c, c.init, m[..|msg| + start])
      modifies this`x
      ensures start <= pos <= |data| && (|msg| + pos) % BLOCK == 0 && |data| - pos < BLOCK
      ensures |x.block| == BLOCK && x.hash == Fold(c, c.init, m[..|msg| + pos]) && x.count == old(x).count
    {
      hide Fold;
      pos := start;
      while |data| - pos >= BLOCK
        invariant start <= pos <= |data| && (|msg| + pos) % BLOCK == 0
        invariant |x.block| == BLOCK && x.count == old(x).count
        invariant x.hash == Fold(c, c.init, m[..|msg| + pos])
      {
        assert data[pos..pos + BLOCK] == m[|msg| + pos..|msg| + pos + BLOCK];
        FoldNext(c, m, |msg| + pos);
        x := x.(block := data[pos..pos + BLOCK]);
        x := x.(hash := c.compress(x.hash, x.block));
        pos := pos + BLOCK;
      }
    }

    /** `md5_final`: the mark, zeros, and the length in bits, in one block or two. */
    method Final() returns (out: seq<Byte>)
      requires Valid()
      modifies this
      ensures out == Hash(c, old(msg)) && |x.block| == BLOCK
    {
      hide Fold, Le32;
      CountMod(|msg|);
      var offset := x.count % BLOCK;
      var block := x.block[..offset] + [0x80] + x.block[offset + 1..];
      var p := offset + 1;
      ghost var n := Whole(|msg|);
      ghost var padded := msg + Padding(|msg|);
      Lengths(|msg|);
      var hash := x.hash;
      if 56 - p < 0 {
        block := block[..p] + Zeros(BLOCK - p);
        ghost var first := block;
        hash := c.compress(hash, block);
        block := Zeros(56) + Le32(x.count * 8 % 0x1_0000_0000) + Le32(x.count / 0x2000_0000 % 0x1_0000_0000);
        TwoBlocks(c, msg, x.block, first, block);
      } else {
        block := block[..p] + Zeros(56 - p)
          + Le32(x.count * 8 % 0x1_0000_0000) + Le32(x.count / 0x2000_0000 % 0x1_0000_0000);
        OneBlock(c, msg, x.block, block);
      }
      hash := c.compress(hash, block);
      out := c.encode(hash);
      x := Ctx(hash, Zeros(BLOCK), 0);
    }
  }

  lemma {:induction false} Filled<H>(c: Core<H>, h: H, m: seq<Byte>, msg: seq<Byte>, data: seq<Byte>,
                                     block: seq<Byte>, used: nat)
    requires m == msg + data && |block| == BLOCK && used == |msg| % BLOCK && used + |data| >= BLOCK
    requires block[..used] == msg[Whole(|msg|)..] && h == Fold(c, c.init, msg[..Whole(|msg|)])
    ensures var avail := BLOCK - used;
            && (|msg| + avail) % BLOCK == 0
            && c.compress(h, block[..used] + data[..avail]) == Fold(c, c.init, m[..|msg| + avail])
  {
    hide Fold;
    var base := Whole(|msg|);
    var avail := BLOCK - used;
    assert msg[..base] == m[..base];
    assert block[..used] + data[..avail] == m[base..base + BLOCK];
    FoldNext(c, m, base);
  }

  lemma Rest(m: seq<Byte>, msg: seq<Byte>, data: seq<Byte>, block: seq<Byte>, used: nat)
    requires m == msg + data && |block| == BLOCK && used == |msg| % BLOCK && used + |data| < BLOCK
    requires block[..used] == msg[Whole(|msg|)..]
    ensures var b := block[..used] + data + block[used + |data|..];
            && |b| == BLOCK && Whole(|m|) == Whole(|msg|) && b[..|m| % BLOCK] == m[Whole(|m|)..]
            && m[..Whole(|m|)] == msg[..Whole(|msg|)]
  {
    assert |m| % BLOCK == used + |data|;
    var b := block[..used] + data + block[used + |data|..];
    assert b[..used + |data|] == block[..used] + data;
    assert m[Whole(|msg|)..] == msg[Whole(|msg|)..] + data;
  }

  lemma Tail(m: seq<Byte>, msg: seq<Byte>, data: seq<Byte>, block: seq<Byte>, pos: nat)
    requires m == msg + data && |block| == BLOCK && pos <= |data| && (|msg| + pos) % BLOCK == 0 && |data| - pos < BLOCK
    ensures var b := data[pos..] + block[|data| - pos..];
            |b| == BLOCK && Whole(|m|) == |msg| + pos && b[..|m| % BLOCK] == m[Whole(|m|)..]
  {
    var b := data[pos..] + block[|data| - pos..];
    assert |m| % BLOCK == |data| - pos;
    assert b[..|data| - pos] == data[pos..] == m[|msg| + pos..];
  }

  /** The length words of the code are the length in bits, modulo 2^64. */
  lemma Lengths(n: nat)
    ensures var k := n % WRAP;
            Le64(8 * n) == Le32(k * 8 % 0x1_0000_0000) + Le32(k / 0x2000_0000 % 0x1_0000_0000)
  {
    hide Le32;
    var k := n % WRAP;
    var q := n / WRAP;
    LengthWords(n, k, q);
  }

  lemma LengthWords(n: nat, k: nat, q: nat)
    requires n == k + q * WRAP
    ensures 8 * n % 0x1_0000_0000 == k * 8 % 0x1_0000_0000
    ensures 8 * n / 0x1_0000_0000 % 0x1_0000_0000 == k / 0x2000_0000 % 0x1_0000_0000
  {
    var z := q * 0x8_0000_0000;
    assert 8 * n == 8 * k + z * 0x1_0000_0000;
    assert 8 * n / 0x1_0000_0000 == 8 * k / 0x1_0000_0000 + z;
    assert 8 * k / 0x1_0000_0000 == k / 0x2000_0000;
    assert z == (q * 8) * 0x1_0000_0000;
  }

  lemma {:induction false} OneBlock<H>(c: Core<H>, msg: seq<Byte>, buf: seq<Byte>, block: seq<Byte>)
    requires |buf| == BLOCK && |msg| % BLOCK < 56 && buf[..|msg| % BLOCK] == msg[Whole(|msg|)..]
    requires block == buf[..|msg| % BLOCK] + [0x80] + Zeros(55 - |msg| % BLOCK) + Le64(8 * |msg|)
    ensures Fold(c, c.init, msg + Padding(|msg|)) == c.compress(Fold(c, c.init, msg[..Whole(|msg|)]), block)
  {
    hide Fold, Le64;
    var n := Whole(|msg|);
    var padded := msg + Padding(|msg|);
    assert padded == msg[..n] + block;
    FoldAppend(c, c.init, msg[..n], block);
    FoldOne(c, Fold(c, c.init, msg[..n]), block);
  }

  lemma {:induction false} TwoBlocks<H>(c: Core<H>, msg: seq<Byte>, buf: seq<Byte>, first: seq<Byte>, second: seq<Byte>)
    requires |buf| == BLOCK && |msg| % BLOCK >= 56 && buf[..|msg| % BLOCK] == msg[Whole(|msg|)..]
    requires first == buf[..|msg| % BLOCK] + [0x80] + Zeros(63 - |msg| % BLOCK)
    requires second == Zeros(56) + Le64(8 * |msg|)
    ensures Fold(c, c.init, msg + Padding(|msg|)) ==
            c.compress(c.compress(Fold(c, c.init, msg[..Whole(|msg|)]), first), second)
  {
    hide Fold, Le64;
    var n := Whole(|msg|);
    var padded := msg + Padding(|msg|);
    assert Zeros(ZerosAfter(|msg|)) == Zeros(63 - |msg| % BLOCK) + Zeros(56);
    assert padded == msg[..n] + (first + second);
    FoldAppend(c, c.init, msg[..n], first + second);
    var h := Fold(c, c.init, msg[..n]);
    FoldAppend(c, h, first, second);
    FoldOne(c, h, first);
    FoldOne(c, c.compress(h, first), second);
  }
}
