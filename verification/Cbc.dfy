/** Cipher block chaining on flat bytes (section 6.2 of NIST SP 800-38A), and the four loops that
    compute it on a stretch of memory: forward from one place to another, forward in place, and
    backward in place for decryption. */
module Cbc {

  import opened Scatterwalk

  datatype Cipher = Cipher(bs: nat, enc: seq<Byte> -> seq<Byte>, dec: seq<Byte> -> seq<Byte>)

  /** A block cipher: it maps blocks to blocks. */
  ghost predicate IsCipher(c: Cipher) {
    c.bs > 0 && forall x: seq<Byte> :: |x| == c.bs ==> |c.enc(x)| == c.bs && |c.dec(x)| == c.bs
  }

  /** `n` bytes make whole blocks. */
  predicate IsWhole(bs: nat, n: nat)
    decreases n
  {
    n == 0 || (0 < bs <= n && IsWhole(bs, n - bs))
  }

  lemma {:induction false} WholeIsMultiple(bs: nat, n: nat)
    requires bs > 0
    ensures IsWhole(bs, n) <==> n % bs == 0
    decreases n
  {
    if n >= bs {
      WholeIsMultiple(bs, n - bs);
      ModStep(n, bs);
    } else {
      SmallMod(n, bs);
    }
  }

  lemma SmallMod(n: nat, bs: nat)
    requires n < bs
    ensures n % bs == n
  {
    Quotient(n, bs, n / bs, n % bs, 0, n);
  }

  lemma ModStep(n: nat, bs: nat)
    requires 0 < bs <= n
    ensures n % bs == (n - bs) % bs
  {
    var q, r := (n - bs) / bs, (n - bs) % bs;
    assert (q + 1) * bs == q * bs + bs;
    Quotient(n, bs, n / bs, n % bs, q + 1, r);
  }

  lemma Quotient(n: nat, bs: nat, q: nat, r: nat, q': nat, r': nat)
    requires n == q * bs + r && n == q' * bs + r' && r < bs && r' < bs
    ensures r == r'
  {
    if q < q' { MulMono(q + 1, q', bs); } else if q' < q { MulMono(q' + 1, q, bs); }
  }

  lemma MulMono(a: nat, b: nat, k: nat)
    requires a <= b
    ensures a * k <= b * k
  {
  }

  function XorB(a: seq<Byte>, b: seq<Byte>): (x: seq<Byte>)
    requires |a| == |b|
    ensures |x| == |a|
  {
    seq(|a|, i requires 0 <= i < |a| => a[i] ^ b[i])
  }

  function Enc(c: Cipher, iv: seq<Byte>, x: seq<Byte>): (y: seq<Byte>)
    requires IsCipher(c) && |iv| == c.bs && IsWhole(c.bs, |x|)
    ensures |y| == |x|
    decreases |x|
  {
    if |x| < c.bs then [] else
      var y := c.enc(XorB(iv, x[..c.bs]));
      y + Enc(c, y, x[c.bs..])
  }

  function Dec(c: Cipher, iv: seq<Byte>, y: seq<Byte>): (x: seq<Byte>)
    requires IsCipher(c) && |iv| == c.bs && IsWhole(c.bs, |y|)
    ensures |x| == |y|
    decreases |y|
  {
    if |y| < c.bs then [] else
      XorB(c.dec(y[..c.bs]), iv) + Dec(c, y[..c.bs], y[c.bs..])
  }

  /** The chaining value after ciphertext `y`. */
  function LastIv(c: Cipher, iv: seq<Byte>, y: seq<Byte>): (v: seq<Byte>)
    requires |iv| == c.bs
    ensures |v| == c.bs
  {
    if |y| < c.bs then iv else y[|y| - c.bs..]
  }

  lemma XorTwice(a: seq<Byte>, b: seq<Byte>)
    requires |a| == |b|
    ensures XorB(XorB(a, b), a) == b && XorB(a, b) == XorB(b, a)
  {
    forall i | 0 <= i < |a| ensures XorB(XorB(a, b), a)[i] == b[i] && XorB(a, b)[i] == XorB(b, a)[i] {
      XorByte(a[i], b[i]);
    }
  }

  lemma XorByte(a: Byte, b: Byte) ensures (a ^ b) ^ a == b && a ^ b == b ^ a {}

  /** The first block and the rest. */
  lemma EncCons(c: Cipher, iv: seq<Byte>, h: seq<Byte>, t: seq<Byte>)
    requires IsCipher(c) && |iv| == c.bs == |h| && IsWhole(c.bs, |t|)
    ensures IsWhole(c.bs, |h + t|)
    ensures var y := c.enc(XorB(iv, h)); |y| == c.bs && Enc(c, iv, h + t) == y + Enc(c, y, t)
  {
    hide XorB;
    assert (h + t)[..c.bs] == h && (h + t)[c.bs..] == t;
  }

  lemma DecCons(c: Cipher, iv: seq<Byte>, h: seq<Byte>, t: seq<Byte>)
    requires IsCipher(c) && |iv| == c.bs == |h| && IsWhole(c.bs, |t|)
    ensures IsWhole(c.bs, |h + t|) && |c.dec(h)| == c.bs
    ensures Dec(c, iv, h + t) == XorB(c.dec(h), iv) + Dec(c, h, t)
  {
    hide XorB;
    assert (h + t)[..c.bs] == h && (h + t)[c.bs..] == t;
  }

  /** Decryption undoes encryption. */
  lemma {:induction false} DecInvertsEnc(c: Cipher, iv: seq<Byte>, x: seq<Byte>)
    requires IsCipher(c) && |iv| == c.bs && IsWhole(c.bs, |x|)
    requires forall z: seq<Byte> :: |z| == c.bs ==> c.dec(c.enc(z)) == z
    ensures Dec(c, iv, Enc(c, iv, x)) == x
    decreases |x|
  {
    hide XorB;
    if |x| >= c.bs {
      hide Enc, Dec;
      var h, t := x[..c.bs], x[c.bs..];
      var y := c.enc(XorB(iv, h));
      assert x == h + t;
      EncCons(c, iv, h, t);
      DecInvertsEnc(c, y, t);
      DecCons(c, iv, y, Enc(c, y, t));
      XorTwice(iv, h);
    }
  }

  lemma {:induction false} WholeFits(bs: nat, n: nat)
    requires IsWhole(bs, n) && n > 0
    ensures 0 < bs <= n && IsWhole(bs, n - bs)
  {
  }

  /** The block of a ciphertext before `p`, and in front of it all the initial value. */
  function BlockBefore(c: Cipher, iv: seq<Byte>, y: seq<Byte>, p: nat): (b: seq<Byte>)
    requires |iv| == c.bs && p <= |y|
    ensures |b| == c.bs
  {
    if p < c.bs then iv else y[p - c.bs..p]
  }

  lemma ShiftBlock(a: seq<Byte>, h: seq<Byte>, t: seq<Byte>, p: nat)
    requires a == h + t && |h| <= p && p + |h| <= |a|
    ensures t[p - |h|..p] == a[p..p + |h|]
  {
  }

  lemma ShiftBefore(c: Cipher, iv: seq<Byte>, h: seq<Byte>, t: seq<Byte>, p: nat)
    requires |iv| == c.bs == |h| && 0 < c.bs <= p <= |h + t|
    ensures p >= 2 * c.bs ==> BlockBefore(c, iv, h + t, p) == BlockBefore(c, h, t, p - c.bs)
    ensures p == c.bs ==> BlockBefore(c, iv, h + t, p) == h
  {
  }

  lemma {:induction false} EncAt(c: Cipher, iv: seq<Byte>, x: seq<Byte>, p: nat)
    requires IsCipher(c) && |iv| == c.bs && IsWhole(c.bs, |x|) && IsWhole(c.bs, p) && p + c.bs <= |x|
    ensures Enc(c, iv, x)[p..p + c.bs] == c.enc(XorB(BlockBefore(c, iv, Enc(c, iv, x), p), x[p..p + c.bs]))
    decreases p
  {
    hide XorB, Enc;
    var h, t := x[..c.bs], x[c.bs..];
    assert x == h + t;
    EncCons(c, iv, h, t);
    var y := c.enc(XorB(iv, h));
    var e := Enc(c, y, t);
    if p > 0 {
      hide BlockBefore;
      WholeFits(c.bs, p);
      if p - c.bs > 0 { WholeFits(c.bs, p - c.bs); }
      EncAt(c, y, t, p - c.bs);
      ShiftBlock(x, h, t, p);
      ShiftBlock(y + e, y, e, p);
      ShiftBefore(c, iv, y, e, p);
      FirstBefore(c, y, e);
    }
  }

  lemma FirstBefore(c: Cipher, iv: seq<Byte>, y: seq<Byte>)
    requires |iv| == c.bs > 0
    ensures BlockBefore(c, iv, y, 0) == iv
  {
  }

  lemma {:induction false} DecAt(c: Cipher, iv: seq<Byte>, y: seq<Byte>, p: nat)
    requires IsCipher(c) && |iv| == c.bs && IsWhole(c.bs, |y|) && IsWhole(c.bs, p) && p + c.bs <= |y|
    ensures Dec(c, iv, y)[p..p + c.bs] == XorB(c.dec(y[p..p + c.bs]), BlockBefore(c, iv, y, p))
    decreases p
  {
    hide XorB, Dec;
    var h, t := y[..c.bs], y[c.bs..];
    assert y == h + t;
    DecCons(c, iv, h, t);
    var x, d := XorB(c.dec(h), iv), Dec(c, h, t);
    if p > 0 {
      hide BlockBefore;
      WholeFits(c.bs, p);
      if p - c.bs > 0 { WholeFits(c.bs, p - c.bs); }
      DecAt(c, h, t, p - c.bs);
      ShiftBlock(y, h, t, p);
      ShiftBlock(x + d, x, d, p);
      ShiftBefore(c, iv, h, t, p);
      FirstBefore(c, h, t);
    }
  }

  /** The mode by its blocks, any of which may be singled out: the block at `p` of the ciphertext is the
      encryption of the block `z` that holds the plaintext there plus the ciphertext block before it,
      or plus the initial value in front. */
  lemma EncBlock(c: Cipher, iv: seq<Byte>, x: seq<Byte>, p: nat, z: seq<Byte>)
    requires IsCipher(c) && |iv| == c.bs && IsWhole(c.bs, |x|) && IsWhole(c.bs, p) && p + c.bs <= |x| && |z| == c.bs
    requires forall k :: 0 <= k < c.bs ==> z[k] == x[p..p + c.bs][k] ^ BlockBefore(c, iv, Enc(c, iv, x), p)[k]
    ensures Enc(c, iv, x)[p..p + c.bs] == c.enc(z)
  {
    hide BlockBefore, Enc, IsCipher, IsWhole;
    EncAt(c, iv, x, p);
    var b, v := x[p..p + c.bs], BlockBefore(c, iv, Enc(c, iv, x), p);
    XorTwice(v, b);
    assert z == XorB(b, v);
  }

  /** The block at `p` of the plaintext is the decryption of that of the ciphertext plus the one before. */
  lemma DecBlock(c: Cipher, iv: seq<Byte>, y: seq<Byte>, p: nat, k: nat)
    requires IsCipher(c) && |iv| == c.bs && IsWhole(c.bs, |y|) && IsWhole(c.bs, p) && p + c.bs <= |y| && k < c.bs
    ensures Dec(c, iv, y)[p + k] == c.dec(y[p..p + c.bs])[k] ^ BlockBefore(c, iv, y, p)[k]
  {
    hide BlockBefore, Dec, IsWhole;
    DecAt(c, iv, y, p);
    assert Dec(c, iv, y)[p..p + c.bs][k] == Dec(c, iv, y)[p + k];
  }

  lemma {:induction false} WholeSum(bs: nat, n: nat, k: nat)
    requires IsWhole(bs, n) && IsWhole(bs, k)
    ensures IsWhole(bs, n + k)
    decreases n
  {
    if n > 0 { WholeSum(bs, n - bs, k); }
  }

  lemma Assoc(a: seq<Byte>, b: seq<Byte>, d: seq<Byte>)
    ensures a + (b + d) == (a + b) + d
  {
  }

  lemma {:induction false} WholeBlock(bs: nat, n: nat)
    requires IsWhole(bs, n)
    ensures n == 0 || n >= bs
  {
  }

  lemma {:induction false} LastOfTail(c: Cipher, iv: seq<Byte>, y: seq<Byte>, e: seq<Byte>)
    requires |iv| == c.bs == |y| && c.bs > 0 && IsWhole(c.bs, |e|)
    ensures LastIv(c, iv, y + e) == LastIv(c, y, e)
  {
    hide IsWhole;
    assert e == [] || |e| >= c.bs by { WholeBlock(c.bs, |e|); }
    if e == [] { assert y + e == y; } else { assert (y + e)[|y + e| - c.bs..] == e[|e| - c.bs..]; }
  }

  lemma EncAppendBlock(c: Cipher, iv: seq<Byte>, h: seq<Byte>, t: seq<Byte>, z: seq<Byte>)
    requires IsCipher(c) && |iv| == c.bs == |h| && IsWhole(c.bs, |t|) && IsWhole(c.bs, |z|) && IsWhole(c.bs, |t + z|)
    requires var y := c.enc(XorB(iv, h));
             |y| == c.bs && Enc(c, y, t + z) == Enc(c, y, t) + Enc(c, LastIv(c, y, Enc(c, y, t)), z)
    ensures IsWhole(c.bs, |h + t|) && IsWhole(c.bs, |h + (t + z)|)
    ensures Enc(c, iv, h + (t + z)) == Enc(c, iv, h + t) + Enc(c, LastIv(c, iv, Enc(c, iv, h + t)), z)
  {
    hide XorB, Enc, LastIv, IsCipher, IsWhole;
    var y := c.enc(XorB(iv, h));
    EncCons(c, iv, h, t);
    EncCons(c, iv, h, t + z);
    CipherBlock(c);
    LastOfTail(c, iv, y, Enc(c, y, t));
    Assoc(y, Enc(c, y, t), Enc(c, LastIv(c, y, Enc(c, y, t)), z));
  }

  lemma DecAppendBlock(c: Cipher, iv: seq<Byte>, h: seq<Byte>, t: seq<Byte>, z: seq<Byte>)
    requires IsCipher(c) && |iv| == c.bs == |h| && IsWhole(c.bs, |t|) && IsWhole(c.bs, |z|) && IsWhole(c.bs, |t + z|)
    requires Dec(c, h, t + z) == Dec(c, h, t) + Dec(c, LastIv(c, h, t), z)
    ensures IsWhole(c.bs, |h + t|) && IsWhole(c.bs, |h + (t + z)|)
    ensures Dec(c, iv, h + (t + z)) == Dec(c, iv, h + t) + Dec(c, LastIv(c, iv, h + t), z)
  {
    hide XorB, Dec, LastIv, IsCipher, IsWhole;
    DecCons(c, iv, h, t);
    DecCons(c, iv, h, t + z);
    CipherBlock(c);
    LastOfTail(c, iv, h, t);
    Assoc(XorB(c.dec(h), iv), Dec(c, h, t), Dec(c, LastIv(c, h, t), z));
  }

  lemma EncNothing(c: Cipher, iv: seq<Byte>)
    requires IsCipher(c) && |iv| == c.bs
    ensures IsWhole(c.bs, 0) && Enc(c, iv, []) == [] && LastIv(c, iv, []) == iv
  {
  }

  lemma DecNothing(c: Cipher, iv: seq<Byte>)
    requires IsCipher(c) && |iv| == c.bs
    ensures IsWhole(c.bs, 0) && Dec(c, iv, []) == [] && LastIv(c, iv, []) == iv
  {
  }

  lemma CipherBlock(c: Cipher)
    requires IsCipher(c)
    ensures c.bs > 0
  {
  }

  /** Encryption and decryption of a concatenation, chained through the last ciphertext block. */
  lemma {:induction false} EncAppend(c: Cipher, iv: seq<Byte>, x: seq<Byte>, z: seq<Byte>)
    requires IsCipher(c) && |iv| == c.bs && IsWhole(c.bs, |x|) && IsWhole(c.bs, |z|)
    ensures IsWhole(c.bs, |x| + |z|)
    ensures Enc(c, iv, x + z) == Enc(c, iv, x) + Enc(c, LastIv(c, iv, Enc(c, iv, x)), z)
    decreases |x|
  {
    hide XorB, Enc, LastIv, IsWhole;
    WholeSum(c.bs, |x|, |z|);
    if x == [] {
      assert x + z == z;
      EncNothing(c, iv);
    } else {
      WholeFits(c.bs, |x|);
      var h, t := x[..c.bs], x[c.bs..];
      EncAppend(c, c.enc(XorB(iv, h)), t, z);
      EncAppendBlock(c, iv, h, t, z);
      assert x == h + t && x + z == h + (t + z);
    }
  }

  lemma {:induction false} DecAppend(c: Cipher, iv: seq<Byte>, x: seq<Byte>, z: seq<Byte>)
    requires IsCipher(c) && |iv| == c.bs && IsWhole(c.bs, |x|) && IsWhole(c.bs, |z|)
    ensures IsWhole(c.bs, |x| + |z|)
    ensures Dec(c, iv, x + z) == Dec(c, iv, x) + Dec(c, LastIv(c, iv, x), z)
    decreases |x|
  {
    hide Dec, LastIv, IsWhole;
    WholeSum(c.bs, |x|, |z|);
    if x == [] {
      assert x + z == z;
      DecNothing(c, iv);
    } else {
      WholeFits(c.bs, |x|);
      var h, t := x[..c.bs], x[c.bs..];
      DecAppend(c, h, t, z);
      DecAppendBlock(c, iv, h, t, z);
      assert x == h + t && x + z == h + (t + z);
    }
  }

  /** One more block at the end. */
  lemma {:induction false} EncSnoc(c: Cipher, iv: seq<Byte>, x: seq<Byte>, b: seq<Byte>)
    requires IsCipher(c) && |iv| == c.bs && IsWhole(c.bs, |x|) && |b| == c.bs
    ensures var v := LastIv(c, iv, Enc(c, iv, x)); var y := c.enc(XorB(v, b));
            && IsWhole(c.bs, |x| + |b|)
            && Enc(c, iv, x + b) == Enc(c, iv, x) + y
            && LastIv(c, iv, Enc(c, iv, x + b)) == y
  {
    hide XorB;
    EncAppend(c, iv, x, b);
    var v := LastIv(c, iv, Enc(c, iv, x));
    assert b[..c.bs] == b && b[c.bs..] == [];
    assert Enc(c, v, b) == c.enc(XorB(v, b)) + Enc(c, c.enc(XorB(v, b)), []);
  }

  lemma {:induction false} DecSnoc(c: Cipher, iv: seq<Byte>, x: seq<Byte>, b: seq<Byte>)
    requires IsCipher(c) && |iv| == c.bs && IsWhole(c.bs, |x|) && |b| == c.bs
    ensures && IsWhole(c.bs, |x| + |b|)
            && Dec(c, iv, x + b) == Dec(c, iv, x) + XorB(c.dec(b), LastIv(c, iv, x))
            && LastIv(c, iv, x + b) == b
  {
    hide XorB;
    DecAppend(c, iv, x, b);
    assert b[..c.bs] == b && b[c.bs..] == [];
    assert Dec(c, LastIv(c, iv, x), b) == XorB(c.dec(b), LastIv(c, iv, x)) + Dec(c, b, []);
  }

  lemma PutPut(m: seq<Byte>, o: nat, y: seq<Byte>, z: seq<Byte>)
    requires o + |y| + |z| <= |m|
    ensures Put(Put(m, o, y), o + |y|, z) == Put(m, o, y + z)
  {
  }

  /** The whole blocks in `n` bytes. */
  function Whole(bs: nat, n: nat): (k: nat)
    ensures k <= n && IsWhole(bs, k) && (0 < bs ==> n - k < bs)
    decreases n
  {
    if 0 < bs <= n then bs + Whole(bs, n - bs) else 0
  }

  lemma {:induction false} WholeOnce(bs: nat, n: nat, k: nat)
    requires IsWhole(bs, k) && k <= n < k + bs
    ensures k == Whole(bs, n)
    decreases k
  {
    if k > 0 { WholeOnce(bs, n - bs, k - bs); }
  }

  /** `crypto_cbc_encrypt_segment`. */
  method EncryptSegment(c: Cipher, m: seq<Byte>, src: nat, dst: nat, nbytes: nat, iv: seq<Byte>)
    returns (m': seq<Byte>, iv': seq<Byte>, left: nat)
    requires IsCipher(c) && |iv| == c.bs && src + nbytes <= |m| && dst + nbytes <= |m|
    requires src + nbytes <= dst || dst + nbytes <= src
    ensures left == nbytes - Whole(c.bs, nbytes)
    ensures var y := Enc(c, iv, m[src..src + Whole(c.bs, nbytes)]); m' == Put(m, dst, y) && iv' == LastIv(c, iv, y)
  {
    hide IsCipher, XorB, Enc, Put, IsWhole, Whole;
    HasBlocks(c);
    NoBlocks(c.bs);
    m', iv', left := m, iv, nbytes;
    ghost var k := 0;
    SegmentStart(c, m, src, dst, iv);
    while left >= c.bs
      invariant left == nbytes - k && 0 <= k <= nbytes && IsWhole(c.bs, k)
      invariant m' == Put(m, dst, Enc(c, iv, m[src..src + k])) && iv' == LastIv(c, iv, Enc(c, iv, m[src..src + k]))
      decreases left
    {
      var at := nbytes - left;
      SegmentStep(c, m, src, dst, k, nbytes, iv);
      iv' := XorB(iv', m'[src + at..src + at + c.bs]);
      var y := c.enc(iv');
      m' := Put(m', dst + at, y);
      iv' := y;
      left := left - c.bs;
      k := k + c.bs;
    }
    WholeOnce(c.bs, nbytes, k);
  }

  lemma {:induction false} NoBlocks(bs: nat) ensures IsWhole(bs, 0) {}

  lemma {:induction false} SegmentStart(c: Cipher, m: seq<Byte>, src: nat, dst: nat, iv: seq<Byte>)
    requires IsCipher(c) && |iv| == c.bs && src <= |m| && dst <= |m|
    ensures c.bs > 0 && m[src..src + 0] == [] && Enc(c, iv, []) == [] && Put(m, dst, []) == m && LastIv(c, iv, []) == iv
    ensures Dec(c, iv, []) == []
  {
  }

  lemma {:induction false} SegmentStep(c: Cipher, m: seq<Byte>, src: nat, dst: nat, k: nat, nbytes: nat, iv: seq<Byte>)
    requires IsCipher(c) && |iv| == c.bs && src + nbytes <= |m| && dst + nbytes <= |m|
    requires src + nbytes <= dst || dst + nbytes <= src
    requires IsWhole(c.bs, k) && k + c.bs <= nbytes
    ensures var y := Enc(c, iv, m[src..src + k]);
            var m' := Put(m, dst, y);
            var b := m'[src + k..src + k + c.bs];
            var z := c.enc(XorB(LastIv(c, iv, y), b));
            && IsWhole(c.bs, k + c.bs) && |z| == c.bs
            && Put(m', dst + k, z) == Put(m, dst, Enc(c, iv, m[src..src + k + c.bs]))
            && LastIv(c, iv, Enc(c, iv, m[src..src + k + c.bs])) == z
  {
    hide XorB, Enc, Put, IsWhole;
    var x := m[src..src + k];
    var y := Enc(c, iv, x);
    var b := m[src + k..src + k + c.bs];
    OneWhole(c.bs);
    WholeSum(c.bs, k, c.bs);
    PutAway(m, dst, y, src + k, src + k + c.bs);
    Adjacent(m, src, k, c.bs);
    EncSnoc(c, iv, x, b);
    PutPut(m, dst, y, c.enc(XorB(LastIv(c, iv, y), b)));
  }

  lemma {:induction false} OneWhole(bs: nat)
    requires bs > 0
    ensures IsWhole(bs, bs)
  {
    NoBlocks(bs);
  }

  lemma Adjacent(m: seq<Byte>, o: nat, n: nat, k: nat)
    requires o + n + k <= |m|
    ensures m[o..o + n] + m[o + n..o + n + k] == m[o..o + n + k]
  {
  }

  /** `crypto_cbc_encrypt_inplace`: the chaining value is the block just written. */
  method EncryptInplace(c: Cipher, m: seq<Byte>, src: nat, nbytes: nat, iv: seq<Byte>)
    returns (m': seq<Byte>, iv': seq<Byte>, left: nat)
    requires IsCipher(c) && |iv| == c.bs && src + nbytes <= |m|
    ensures left == nbytes - Whole(c.bs, nbytes)
    ensures var y := Enc(c, iv, m[src..src + Whole(c.bs, nbytes)]); m' == Put(m, src, y) && iv' == LastIv(c, iv, y)
  {
    hide IsCipher, XorB, Enc, Put, IsWhole, Whole;
    HasBlocks(c);
    NoBlocks(c.bs);
    m', iv', left := m, iv, nbytes;
    ghost var k := 0;
    SegmentStart(c, m, src, src, iv);
    while left >= c.bs
      invariant left == nbytes - k && 0 <= k <= nbytes && IsWhole(c.bs, k)
      invariant m' == Put(m, src, Enc(c, iv, m[src..src + k])) && iv' == LastIv(c, iv, Enc(c, iv, m[src..src + k]))
      decreases left
    {
      var at := src + nbytes - left;
      InplaceStep(c, m, src, k, nbytes, iv);
      m' := Put(m', at, XorB(m'[at..at + c.bs], iv'));
      m' := Put(m', at, c.enc(m'[at..at + c.bs]));
      iv' := m'[at..at + c.bs];
      left := left - c.bs;
      k := k + c.bs;
    }
    WholeOnce(c.bs, nbytes, k);
  }

  /** The next block of an encryption, from what memory holds before it. */
  lemma {:induction false} EncNext(c: Cipher, m: seq<Byte>, src: nat, k: nat, iv: seq<Byte>)
    requires IsCipher(c) && |iv| == c.bs && src + k + c.bs <= |m| && IsWhole(c.bs, k)
    ensures var y := Enc(c, iv, m[src..src + k]);
            var e := c.enc(XorB(m[src + k..src + k + c.bs], LastIv(c, iv, y)));
            && IsWhole(c.bs, k + c.bs) && |e| == c.bs
            && Enc(c, iv, m[src..src + k + c.bs]) == y + e && LastIv(c, iv, y + e) == e
  {
    hide XorB, Enc, IsWhole;
    var x, b := m[src..src + k], m[src + k..src + k + c.bs];
    OneWhole(c.bs);
    WholeSum(c.bs, k, c.bs);
    Adjacent(m, src, k, c.bs);
    EncSnoc(c, iv, x, b);
    XorTwice(LastIv(c, iv, Enc(c, iv, x)), b);
  }

  /** Two writes to the same place, behind what is written already. */
  lemma Rewrite(m: seq<Byte>, o: nat, y: seq<Byte>, z: seq<Byte>, e: seq<Byte>)
    requires o + |y| + |e| <= |m| && |z| == |e|
    ensures var m1 := Put(Put(m, o, y), o + |y|, z);
            && m1[o + |y|..o + |y| + |z|] == z
            && Put(m1, o + |y|, e) == Put(m, o, y + e)
            && Put(m, o, y + e)[o + |y|..o + |y| + |e|] == e
  {
    hide Put;
    PutTwice(Put(m, o, y), o + |y|, z, z);
    PutTwice(Put(m, o, y), o + |y|, z, e);
    PutPut(m, o, y, e);
  }

  lemma {:induction false} InplaceStep(c: Cipher, m: seq<Byte>, src: nat, k: nat, nbytes: nat, iv: seq<Byte>)
    requires IsCipher(c) && |iv| == c.bs && src + nbytes <= |m|
    requires IsWhole(c.bs, k) && k + c.bs <= nbytes
    ensures var y := Enc(c, iv, m[src..src + k]);
            var m0 := Put(m, src, y);
            var z := XorB(m0[src + k..src + k + c.bs], LastIv(c, iv, y));
            var m1 := Put(m0, src + k, z);
            var e := c.enc(z);
            && m1[src + k..src + k + c.bs] == z
            && IsWhole(c.bs, k + c.bs) && |e| == c.bs
            && Put(m1, src + k, e) == Put(m, src, Enc(c, iv, m[src..src + k + c.bs]))
            && Put(m1, src + k, e)[src + k..src + k + c.bs] == e
            && LastIv(c, iv, Enc(c, iv, m[src..src + k + c.bs])) == e
  {
    hide XorB, Enc, Put, IsWhole, LastIv, IsCipher;
    var y := Enc(c, iv, m[src..src + k]);
    PutAway(m, src, y, src + k, src + k + c.bs);
    EncNext(c, m, src, k, iv);
    var z := XorB(m[src + k..src + k + c.bs], LastIv(c, iv, y));
    Rewrite(m, src, y, z, c.enc(z));
  }

  lemma PutTwice(m: seq<Byte>, o: nat, y: seq<Byte>, z: seq<Byte>)
    requires o + |y| <= |m| && |y| == |z|
    ensures Put(Put(m, o, y), o, z) == Put(m, o, z)
    ensures Put(m, o, z)[o..o + |z|] == z
  {
  }

  /** `crypto_cbc_decrypt_segment`: the chaining value stays where the ciphertext is. */
  method DecryptSegment(c: Cipher, m: seq<Byte>, src: nat, dst: nat, nbytes: nat, iv: seq<Byte>)
    returns (m': seq<Byte>, iv': seq<Byte>, left: nat)
    requires IsCipher(c) && |iv| == c.bs && src + nbytes <= |m| && dst + nbytes <= |m|
    requires src + nbytes <= dst || dst + nbytes <= src
    ensures left == nbytes - Whole(c.bs, nbytes)
    ensures var y := m[src..src + Whole(c.bs, nbytes)]; m' == Put(m, dst, Dec(c, iv, y)) && iv' == LastIv(c, iv, y)
  {
    hide IsCipher, XorB, Dec, Put, IsWhole, Whole;
    HasBlocks(c);
    NoBlocks(c.bs);
    m', iv', left := m, iv, nbytes;
    ghost var k := 0;
    SegmentStart(c, m, src, dst, iv);
    while left >= c.bs
      invariant left == nbytes - k && 0 <= k <= nbytes && IsWhole(c.bs, k)
      invariant m' == Put(m, dst, Dec(c, iv, m[src..src + k])) && iv' == LastIv(c, iv, m[src..src + k])
      decreases left
    {
      var at := nbytes - left;
      DecryptStep(c, m, src, dst, k, nbytes, iv);
      m' := Put(m', dst + at, c.dec(m'[src + at..src + at + c.bs]));
      m' := Put(m', dst + at, XorB(m'[dst + at..dst + at + c.bs], iv'));
      iv' := m'[src + at..src + at + c.bs];
      left := left - c.bs;
      k := k + c.bs;
    }
    WholeOnce(c.bs, nbytes, k);
  }

  lemma {:induction false} DecryptStep(c: Cipher, m: seq<Byte>, src: nat, dst: nat, k: nat, nbytes: nat, iv: seq<Byte>)
    requires IsCipher(c) && |iv| == c.bs && src + nbytes <= |m| && dst + nbytes <= |m|
    requires src + nbytes <= dst || dst + nbytes <= src
    requires IsWhole(c.bs, k) && k + c.bs <= nbytes
    ensures var x := m[src..src + k];
            var m0 := Put(m, dst, Dec(c, iv, x));
            var d := c.dec(m0[src + k..src + k + c.bs]);
            && IsWhole(c.bs, k + c.bs) && |d| == c.bs
            && var m1 := Put(m0, dst + k, d);
            && var m2 := Put(m1, dst + k, XorB(m1[dst + k..dst + k + c.bs], LastIv(c, iv, x)));
            && m2 == Put(m, dst, Dec(c, iv, m[src..src + k + c.bs]))
            && m2[src + k..src + k + c.bs] == LastIv(c, iv, m[src..src + k + c.bs])
  {
    hide XorB, Dec, Put, IsWhole;
    var x, y := m[src..src + k], Dec(c, iv, m[src..src + k]);
    var b, v := m[src + k..src + k + c.bs], LastIv(c, iv, x);
    OneWhole(c.bs);
    WholeSum(c.bs, k, c.bs);
    PutAway(m, dst, y, src + k, src + k + c.bs);
    Adjacent(m, src, k, c.bs);
    DecSnoc(c, iv, x, b);
    var d := c.dec(b);
    TwoPuts(m, dst, y, d, XorB(d, v));
    PutAway(m, dst, y + XorB(d, v), src + k, src + k + c.bs);
  }

  /** A block written behind `y` and then written over. */
  lemma TwoPuts(m: seq<Byte>, o: nat, y: seq<Byte>, d: seq<Byte>, e: seq<Byte>)
    requires o + |y| + |d| <= |m| && |d| == |e|
    ensures var m1 := Put(Put(m, o, y), o + |y|, d);
            m1[o + |y|..o + |y| + |d|] == d && Put(m1, o + |y|, e) == Put(m, o, y + e)
  {
    hide Put;
    PutTwice(Put(m, o, y), o + |y|, d, d);
    PutTwice(Put(m, o, y), o + |y|, d, e);
    PutPut(m, o, y, e);
  }

  /** `crypto_cbc_decrypt_inplace`: from the last block back to the first, so that each block finds
      its predecessor still encrypted. It agrees with decryption from front to back. */
  method DecryptInplace(c: Cipher, m: seq<Byte>, start: nat, nbytes: nat, iv: seq<Byte>)
    returns (m': seq<Byte>, iv': seq<Byte>, left: nat)
    requires IsCipher(c) && |iv| == c.bs && start + nbytes <= |m| && nbytes >= c.bs
    ensures left == nbytes - Whole(c.bs, nbytes)
    ensures var y := m[start..start + Whole(c.bs, nbytes)];
            m' == Put(m, start, Dec(c, iv, y)) && iv' == LastIv(c, iv, y)
  {
    hide IsCipher, XorB, Dec, Put, IsWhole, Whole, LastIv;
    var firstIv := iv;
    left := nbytes;
    HasBlocks(c);
    LeftOver(c.bs, nbytes);
    WholeFacts(c.bs, nbytes);
    var src := start + nbytes - nbytes % c.bs - c.bs;
    iv' := m[src..src + c.bs];
    m' := m;
    ghost var y := m[start..start + Whole(c.bs, nbytes)];
    ghost var k := Whole(c.bs, nbytes) - c.bs;
    BackStart(c, m, start, y, k, iv);
    while true
      invariant k >= 0 && src == start + k && IsWhole(c.bs, k) && k + c.bs <= |y|
      invariant left == nbytes - (|y| - c.bs - k)
      invariant IsWhole(c.bs, |y| - k - c.bs)
      invariant m' == Put(m, src + c.bs, Dec(c, y[k..k + c.bs], y[k + c.bs..]))
      decreases k
    {
      BackStep(c, m, start, y, k);
      m' := Put(m', src, c.dec(m'[src..src + c.bs]));
      left := left - c.bs;
      if left < c.bs { break; }
      WholeLess(c.bs, k);
      BackDone(c, m, start, y, k, y[k - c.bs..k]);
      m' := Put(m', src, XorB(m'[src..src + c.bs], m'[src - c.bs..src]));
      src := src - c.bs;
      k := k - c.bs;
    }
    WholeLess(c.bs, k);
    BackDone(c, m, start, y, k, iv);
    assert y[0..] == y;
    m' := Put(m', src, XorB(m'[src..src + c.bs], firstIv));
  }

  lemma HasBlocks(c: Cipher) requires IsCipher(c) ensures c.bs > 0 {}

  lemma {:induction false} WholeFacts(bs: nat, n: nat)
    requires 0 < bs <= n
    ensures bs <= Whole(bs, n) <= n && IsWhole(bs, Whole(bs, n)) && n - Whole(bs, n) < bs
  {
  }

  lemma {:induction false} WholeLess(bs: nat, k: nat)
    requires IsWhole(bs, k)
    ensures k > 0 ==> k >= bs && IsWhole(bs, k - bs)
  {
  }

  lemma {:induction false} LeftOver(bs: nat, n: nat)
    requires bs > 0
    ensures n % bs == n - Whole(bs, n)
    decreases n
  {
    if n >= bs { LeftOver(bs, n - bs); ModStep(n, bs); } else { SmallMod(n, bs); }
  }

  lemma {:induction false} BackStart(c: Cipher, m: seq<Byte>, start: nat, y: seq<Byte>, k: nat, iv: seq<Byte>)
    requires IsCipher(c) && |iv| == c.bs && start + |y| <= |m| && y == m[start..start + |y|]
    requires IsWhole(c.bs, |y|) && k + c.bs == |y|
    ensures IsWhole(c.bs, k) && IsWhole(c.bs, |y| - k - c.bs)
    ensures m == Put(m, start + k + c.bs, Dec(c, y[k..k + c.bs], y[k + c.bs..]))
    ensures m[start + k..start + k + c.bs] == LastIv(c, iv, y)
  {
    assert y[k + c.bs..] == [];
  }

  lemma PutAway(m: seq<Byte>, o: nat, z: seq<Byte>, i: nat, j: nat)
    requires o + |z| <= |m| && i <= j <= |m| && (j <= o || o + |z| <= i)
    ensures Put(m, o, z)[i..j] == m[i..j]
  {
  }

  lemma SliceOfSlice(m: seq<Byte>, start: nat, n: nat, i: nat, j: nat)
    requires start + n <= |m| && i <= j <= n
    ensures m[start..start + n][i..j] == m[start + i..start + j]
  {
    var a := m[start..start + n];
    assert forall s :: 0 <= s < j - i ==> a[i..j][s] == m[start + i..start + j][s];
  }

  /** With everything behind block `k` done, the block itself and the one before are untouched. */
  lemma {:induction false} BackStep(c: Cipher, m: seq<Byte>, start: nat, y: seq<Byte>, k: nat)
    requires IsCipher(c) && start + |y| <= |m| && y == m[start..start + |y|]
    requires k + c.bs <= |y| && IsWhole(c.bs, |y| - k - c.bs)
    ensures var b := y[k..k + c.bs];
            var o := start + k;
            var m0 := Put(m, o + c.bs, Dec(c, b, y[k + c.bs..]));
            && m0[o..o + c.bs] == b && |c.dec(b)| == c.bs
            && var m1 := Put(m0, o, c.dec(b));
            && m1[o..o + c.bs] == c.dec(b)
            && (k >= c.bs ==> m1[o - c.bs..o] == y[k - c.bs..k])
  {
    hide Dec, Put;
    var b := y[k..k + c.bs];
    var o := start + k;
    var tail := Dec(c, b, y[k + c.bs..]);
    var m0 := Put(m, o + c.bs, tail);
    SliceOfSlice(m, start, |y|, k, k + c.bs);
    PutAway(m, o + c.bs, tail, o, o + c.bs);
    PutTwice(m0, o, c.dec(b), c.dec(b));
    if k >= c.bs {
      SliceOfSlice(m, start, |y|, k - c.bs, k);
      PutAway(m, o + c.bs, tail, o - c.bs, o);
      PutAway(m0, o, c.dec(b), o - c.bs, o);
    }
  }

  /** Adding a chaining value to the deciphered block extends the part that is done. */
  lemma {:induction false} BackDone(c: Cipher, m: seq<Byte>, start: nat, y: seq<Byte>, k: nat, v: seq<Byte>)
    requires IsCipher(c) && start + |y| <= |m| && y == m[start..start + |y|] && |v| == c.bs
    requires k + c.bs <= |y| && IsWhole(c.bs, |y| - k - c.bs)
    ensures var b := y[k..k + c.bs];
            var o := start + k;
            && IsWhole(c.bs, |y| - k) && |c.dec(b)| == c.bs
            && Put(Put(Put(m, o + c.bs, Dec(c, b, y[k + c.bs..])), o, c.dec(b)), o, XorB(c.dec(b), v))
               == Put(m, o, Dec(c, v, y[k..]))
  {
    hide XorB, Dec, Put;
    var b := y[k..k + c.bs];
    var o := start + k;
    var tail := Dec(c, b, y[k + c.bs..]);
    var x := XorB(c.dec(b), v);
    DecHead(c, v, y[k..]);
    assert y[k..][..c.bs] == b && y[k..][c.bs..] == y[k + c.bs..];
    PutTwice(Put(m, o + c.bs, tail), o, c.dec(b), x);
    PutBefore(m, o, x, tail);
  }

  lemma {:induction false} DecHead(c: Cipher, v: seq<Byte>, y: seq<Byte>)
    requires IsCipher(c) && |v| == c.bs <= |y| && IsWhole(c.bs, |y| - c.bs)
    ensures IsWhole(c.bs, |y|)
    ensures Dec(c, v, y) == XorB(c.dec(y[..c.bs]), v) + Dec(c, y[..c.bs], y[c.bs..])
  {
    hide XorB;
  }

  lemma PutBefore(m: seq<Byte>, o: nat, x: seq<Byte>, tail: seq<Byte>)
    requires o + |x| + |tail| <= |m|
    ensures Put(Put(m, o + |x|, tail), o, x) == Put(m, o, x + tail)
  {
  }
}
