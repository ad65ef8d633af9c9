/** What the key setup of 128-bit Camellia has to compute: the round function on bytes, the standard's
    raw subkeys, and the rotations of four words that produce them. */
module CamelliaKeys {

  import opened Words
  import opened Camellia

  // ---- The round function of RFC 3713, section 2.4 ----

  function Pack(a: bv8, b: bv8, c: bv8, d: bv8): (w: bv32) {
    ((a as bv32) << 24) | ((b as bv32) << 16) | ((c as bv32) << 8) | (d as bv32)
  }

  /** Tables made from four substitution boxes, each spread over three of four bytes. */
  ghost predicate MadeFrom(t: Tables, s1: bv32 -> bv8, s2: bv32 -> bv8, s3: bv32 -> bv8, s4: bv32 -> bv8) {
    forall x: bv32 ::
      && t.sp1110(x) == Pack(s1(x), s1(x), s1(x), 0)
      && t.sp0222(x) == Pack(0, s2(x), s2(x), s2(x))
      && t.sp3033(x) == Pack(s3(x), 0, s3(x), s3(x))
      && t.sp4404(x) == Pack(s4(x), s4(x), 0, s4(x))
  }

  function X8(a: bv8, b: bv8): (c: bv8) { a ^ b }

  function Sum3(a: bv8, b: bv8, c: bv8): (s: bv8) { a ^ b ^ c }

  function Sum5(a: bv8, b: bv8, c: bv8, d: bv8, e: bv8): (s: bv8) { a ^ b ^ c ^ d ^ e }

  function Sum6(a: bv8, b: bv8, c: bv8, d: bv8, e: bv8, f: bv8): (s: bv8) { a ^ b ^ c ^ d ^ e ^ f }

  /** The linear layer P. */
  function P(a: bv8, b: bv8, c: bv8, d: bv8, e: bv8, f: bv8, g: bv8, h: bv8): (y: Half) {
    Half(Pack(Sum6(a, c, d, f, g, h), Sum6(a, b, d, e, g, h), Sum6(a, b, c, e, f, h), Sum6(b, c, d, e, f, g)),
         Pack(Sum5(a, b, f, g, h), Sum5(b, c, e, g, h), Sum5(c, d, e, f, h), Sum5(a, d, e, f, g)))
  }

  lemma PackXor(a: bv8, b: bv8, c: bv8, d: bv8, e: bv8, f: bv8, g: bv8, h: bv8)
    ensures Xor(Pack(a, b, c, d), Pack(e, f, g, h)) == Pack(X8(a, e), X8(b, f), X8(c, g), X8(d, h))
  {
  }

  lemma PackRotate(a: bv8, b: bv8, c: bv8, d: bv8)
    ensures Rr8(Pack(a, b, c, d)) == Pack(d, a, b, c)
  {
  }

  lemma Zeros(a: bv8)
    ensures X8(a, 0) == a && X8(0, a) == a
  {
  }

  lemma Sum3Is(a: bv8, b: bv8, c: bv8)
    ensures X8(X8(a, b), c) == Sum3(a, b, c) && X8(a, X8(b, c)) == Sum3(a, b, c)
  {
  }

  lemma Sum6Is(a: bv8, b: bv8, c: bv8, d: bv8, e: bv8, f: bv8)
    ensures X8(Sum3(f, d, e), Sum3(a, b, c)) == Sum6(a, b, c, d, e, f)
  {
  }

  lemma Sum6As(a: bv8, b: bv8, c: bv8, d: bv8, e: bv8, f: bv8)
    ensures X8(Sum3(d, e, f), Sum3(a, b, c)) == Sum6(a, b, c, d, e, f)
  {
  }

  lemma Drop5(a: bv8, b: bv8, c: bv8, d: bv8, f: bv8, g: bv8, h: bv8)
    ensures X8(Sum3(b, c, d), Sum6(a, c, d, f, g, h)) == Sum5(a, b, f, g, h) {}

  lemma Drop6(a: bv8, b: bv8, c: bv8, d: bv8, e: bv8, g: bv8, h: bv8)
    ensures X8(Sum3(a, c, d), Sum6(a, b, d, e, g, h)) == Sum5(b, c, e, g, h) {}

  lemma Drop7(a: bv8, b: bv8, c: bv8, d: bv8, e: bv8, f: bv8, h: bv8)
    ensures X8(Sum3(a, b, d), Sum6(a, b, c, e, f, h)) == Sum5(c, d, e, f, h) {}

  lemma Drop8(a: bv8, b: bv8, c: bv8, d: bv8, e: bv8, f: bv8, g: bv8)
    ensures X8(Sum3(a, b, c), Sum6(b, c, d, e, f, g)) == Sum5(a, d, e, f, g) {}

  lemma LookBytes(a: bv8, b: bv8, c: bv8, d: bv8)
    ensures Xor(Xor(Pack(a, a, a, 0), Pack(0, b, b, b)), Xor(Pack(c, 0, c, c), Pack(d, d, 0, d)))
            == Pack(Sum3(a, c, d), Sum3(a, b, d), Sum3(a, b, c), Sum3(b, c, d))
  {
    hide Xor, Pack, X8, Sum3;
    Zeros(a); Zeros(b); Zeros(c); Zeros(d);
    PackXor(a, a, a, 0, 0, b, b, b);
    PackXor(c, 0, c, c, d, d, 0, d);
    PackXor(a, X8(a, b), X8(a, b), b, X8(c, d), d, c, X8(c, d));
    Sum3Is(a, c, d); Sum3Is(a, b, d); Sum3Is(a, b, c); Sum3Is(b, c, d);
  }

  lemma PBytes(a: bv8, b: bv8, c: bv8, d: bv8, e: bv8, f: bv8, g: bv8, h: bv8)
    ensures var yl := Pack(Sum3(h, f, g), Sum3(h, e, g), Sum3(h, e, f), Sum3(e, f, g));
            var yr := Pack(Sum3(a, c, d), Sum3(a, b, d), Sum3(a, b, c), Sum3(b, c, d));
            P(a, b, c, d, e, f, g, h) == Half(Xor(yl, yr), Xor(Rr8(yr), Xor(yl, yr)))
  {
    hide Xor, Pack, Rr8, X8, Sum3, Sum5, Sum6;
    PackXor(Sum3(h, f, g), Sum3(h, e, g), Sum3(h, e, f), Sum3(e, f, g),
            Sum3(a, c, d), Sum3(a, b, d), Sum3(a, b, c), Sum3(b, c, d));
    Sum6Is(a, c, d, f, g, h); Sum6Is(a, b, d, e, g, h); Sum6Is(a, b, c, e, f, h); Sum6As(b, c, d, e, f, g);
    PackRotate(Sum3(a, c, d), Sum3(a, b, d), Sum3(a, b, c), Sum3(b, c, d));
    PackXor(Sum3(b, c, d), Sum3(a, c, d), Sum3(a, b, d), Sum3(a, b, c),
            Sum6(a, c, d, f, g, h), Sum6(a, b, d, e, g, h), Sum6(a, b, c, e, f, h), Sum6(b, c, d, e, f, g));
    Drop5(a, b, c, d, f, g, h);
    Drop6(a, b, c, d, e, g, h);
    Drop7(a, b, c, d, e, f, h);
    Drop8(a, b, c, d, e, f, g);
  }

  /** On tables made from substitution boxes, the table form of the round function is the linear
      layer applied to the substituted bytes, in the order of boxes the standard prescribes. */
  lemma FIsStandard(t: Tables, s1: bv32 -> bv8, s2: bv32 -> bv8, s3: bv32 -> bv8, s4: bv32 -> bv8, x: Half, k: Half)
    requires MadeFrom(t, s1, s2, s3, s4)
    ensures var z := Xor2(x, k);
            F(t, x, k) == P(s1(B24(z.l)), s2(B16(z.l)), s3(B8(z.l)), s4(B0(z.l)),
                            s2(B24(z.r)), s3(B16(z.r)), s4(B8(z.r)), s1(B0(z.r)))
  {
    hide Xor, Pack, P, Rr8, B0, B8, B16, B24, Hi, Sum3;
    var z := Xor2(x, k);
    BytesOfHi(z.l);
    BytesOfHi(z.r);
    LookBytes(s1(B24(z.l)), s2(B16(z.l)), s3(B8(z.l)), s4(B0(z.l)));
    LookBytes(s1(B0(z.r)), s2(B24(z.r)), s3(B16(z.r)), s4(B8(z.r)));
    PBytes(s1(B24(z.l)), s2(B16(z.l)), s3(B8(z.l)), s4(B0(z.l)),
           s2(B24(z.r)), s3(B16(z.r)), s4(B8(z.r)), s1(B0(z.r)));
  }

  // ---- The key schedule of RFC 3713, section 2.2 ----

  function Join4(a: bv32, b: bv32, c: bv32, d: bv32): (x: bv128) {
    ((a as bv128) << 96) | ((b as bv128) << 64) | ((c as bv128) << 32) | (d as bv128)
  }

  function Join(p: (Half, Half)): (x: bv128) { Join4(p.0.l, p.0.r, p.1.l, p.1.r) }

  function Left(x: bv128): (h: Half) {
    Half(((x >> 96) & 0xffff_ffff) as bv32, ((x >> 64) & 0xffff_ffff) as bv32)
  }

  function Right(x: bv128): (h: Half) {
    Half(((x >> 32) & 0xffff_ffff) as bv32, (x & 0xffff_ffff) as bv32)
  }

  function Rotl(x: bv128, n: nat): (y: bv128)
    requires n <= 128
  {
    (x << n) | (x >> (128 - n))
  }

  const SIGMA1 := Half(0xA09E667F, 0x3BCC908B)
  const SIGMA2 := Half(0xB67AE858, 0x4CAA73B2)
  const SIGMA3 := Half(0xC6EF372F, 0xE94F82BE)
  const SIGMA4 := Half(0x54FF53A5, 0xF1D36F1C)

  function Number(h: Half): (n: nat) { h.l as nat * 0x1_0000_0000 + h.r as nat }

  /** `n`, behind the digits `lead`, is the square root of `p` to seventeen hexadecimal places. */
  ghost predicate IsRoot(lead: nat, n: nat, p: nat) {
    var r := lead * 0x1_0000_0000_0000_0000 + n;
    var one := 0x10_0000_0000_0000_0000;
    r * r <= p * one * one < (r + 1) * (r + 1)
  }

  /** The constants are the second to the seventeenth place of the square roots of the first four primes. */
  lemma SigmasAreRoots()
    ensures IsRoot(0x16, Number(SIGMA1), 2) && IsRoot(0x1B, Number(SIGMA2), 3)
    ensures IsRoot(0x23, Number(SIGMA3), 5) && IsRoot(0x2A, Number(SIGMA4), 7)
  {
  }

  /** KA from KL, with KR zero. */
  function Ka(t: Tables, k: (Half, Half)): (a: (Half, Half)) {
    var d2 := Xor2(k.1, F(t, k.0, SIGMA1));
    var d1 := Xor2(k.0, F(t, d2, SIGMA2));
    var e1 := Xor2(d1, k.0);
    var e2 := Xor2(d2, k.1);
    var f2 := Xor2(e2, F(t, e1, SIGMA3));
    (Xor2(e1, F(t, f2, SIGMA4)), f2)
  }

  /** The 26 raw subkeys: kw1 kw2, k1..k6, kl1 kl2, k7..k12, kl3 kl4, k13..k18, kw3 kw4, each a half of KL
      or KA rotated by the standard's amount. */
  ghost predicate IsRaw(t: Tables, key: (Half, Half), s: seq<Half>) {
    hide Left, Right, Rotl, Join, Ka;
    var kl, ka := Join(key), Join(Ka(t, key));
    && |s| == 26
    && s[0] == Left(kl) && s[1] == Right(kl)
    && s[2] == Left(ka) && s[3] == Right(ka)
    && s[4] == Left(Rotl(kl, 15)) && s[5] == Right(Rotl(kl, 15))
    && s[6] == Left(Rotl(ka, 15)) && s[7] == Right(Rotl(ka, 15))
    && s[8] == Left(Rotl(ka, 30)) && s[9] == Right(Rotl(ka, 30))
    && s[10] == Left(Rotl(kl, 45)) && s[11] == Right(Rotl(kl, 45))
    && s[12] == Left(Rotl(ka, 45))
    && s[13] == Right(Rotl(kl, 60))
    && s[14] == Left(Rotl(ka, 60)) && s[15] == Right(Rotl(ka, 60))
    && s[16] == Left(Rotl(kl, 77)) && s[17] == Right(Rotl(kl, 77))
    && s[18] == Left(Rotl(kl, 94)) && s[19] == Right(Rotl(kl, 94))
    && s[20] == Left(Rotl(ka, 94)) && s[21] == Right(Rotl(ka, 94))
    && s[22] == Left(Rotl(kl, 111)) && s[23] == Right(Rotl(kl, 111))
    && s[24] == Left(Rotl(ka, 111)) && s[25] == Right(Rotl(ka, 111))
  }

  // ---- The rotations of the key setup ----

  /** `n` bits further left, filled from the next word. */
  function Fill(a: bv32, b: bv32, n: nat): (c: bv32)
    requires n <= 32
  {
    (a << n) + (b >> (32 - n))
  }

  /** `CAMELLIA_ROLDQ`; the setup uses it with 15, 17 and 30 bits. */
  function Roldq(p: (Half, Half), n: nat): (q: (Half, Half))
    requires n <= 32
  {
    (Half(Fill(p.0.l, p.0.r, n), Fill(p.0.r, p.1.l, n)), Half(Fill(p.1.l, p.1.r, n), Fill(p.1.r, p.0.l, n)))
  }

  /** `CAMELLIA_ROLDQo32`; the setup uses it with 34 bits. */
  function Roldq32(p: (Half, Half), n: nat): (q: (Half, Half))
    requires 32 <= n <= 64
  {
    (Half(Fill(p.0.r, p.1.l, n - 32), Fill(p.1.l, p.1.r, n - 32)),
        Half(Fill(p.1.r, p.0.l, n - 32), Fill(p.0.l, p.0.r, n - 32)))
  }

  lemma JoinBack(p: (Half, Half))
    ensures Left(Join(p)) == p.0 && Right(Join(p)) == p.1
  {
  }

  lemma Raw15(a: bv32, b: bv32, c: bv32, d: bv32)
    ensures Join4((a << 15) | (b >> 17), (b << 15) | (c >> 17), (c << 15) | (d >> 17), (d << 15) | (a >> 17))
            == (Join4(a, b, c, d) << 15) | (Join4(a, b, c, d) >> 113)
  {
  }

  lemma Fill15(a: bv32, b: bv32) ensures Fill(a, b, 15) == (a << 15) | (b >> 17) {}

  lemma Rotl15(x: bv128) ensures Rotl(x, 15) == (x << 15) | (x >> 113) {}

  lemma Join15(a: bv32, b: bv32, c: bv32, d: bv32)
    ensures Join4(Fill(a, b, 15), Fill(b, c, 15), Fill(c, d, 15), Fill(d, a, 15)) == Rotl(Join4(a, b, c, d), 15)
  {
    hide Join4, Fill, Rotl;
    Raw15(a, b, c, d);
    Fill15(a, b); Fill15(b, c); Fill15(c, d); Fill15(d, a);
    Rotl15(Join4(a, b, c, d));
  }

  lemma Raw17(a: bv32, b: bv32, c: bv32, d: bv32)
    ensures Join4((a << 17) | (b >> 15), (b << 17) | (c >> 15), (c << 17) | (d >> 15), (d << 17) | (a >> 15))
            == (Join4(a, b, c, d) << 17) | (Join4(a, b, c, d) >> 111)
  {
  }

  lemma Fill17(a: bv32, b: bv32) ensures Fill(a, b, 17) == (a << 17) | (b >> 15) {}

  lemma Rotl17(x: bv128) ensures Rotl(x, 17) == (x << 17) | (x >> 111) {}

  lemma Join17(a: bv32, b: bv32, c: bv32, d: bv32)
    ensures Join4(Fill(a, b, 17), Fill(b, c, 17), Fill(c, d, 17), Fill(d, a, 17)) == Rotl(Join4(a, b, c, d), 17)
  {
    hide Join4, Fill, Rotl;
    Raw17(a, b, c, d);
    Fill17(a, b); Fill17(b, c); Fill17(c, d); Fill17(d, a);
    Rotl17(Join4(a, b, c, d));
  }

  lemma Raw30(a: bv32, b: bv32, c: bv32, d: bv32)
    ensures Join4((a << 30) | (b >> 2), (b << 30) | (c >> 2), (c << 30) | (d >> 2), (d << 30) | (a >> 2))
            == (Join4(a, b, c, d) << 30) | (Join4(a, b, c, d) >> 98)
  {
  }

  lemma Fill30(a: bv32, b: bv32) ensures Fill(a, b, 30) == (a << 30) | (b >> 2) {}

  lemma Rotl30(x: bv128) ensures Rotl(x, 30) == (x << 30) | (x >> 98) {}

  lemma Join30(a: bv32, b: bv32, c: bv32, d: bv32)
    ensures Join4(Fill(a, b, 30), Fill(b, c, 30), Fill(c, d, 30), Fill(d, a, 30)) == Rotl(Join4(a, b, c, d), 30)
  {
    hide Join4, Fill, Rotl;
    Raw30(a, b, c, d);
    Fill30(a, b); Fill30(b, c); Fill30(c, d); Fill30(d, a);
    Rotl30(Join4(a, b, c, d));
  }

  lemma Raw34(a: bv32, b: bv32, c: bv32, d: bv32)
    ensures Join4((b << 2) | (c >> 30), (c << 2) | (d >> 30), (d << 2) | (a >> 30), (a << 2) | (b >> 30))
            == (Join4(a, b, c, d) << 34) | (Join4(a, b, c, d) >> 94)
  {
  }

  lemma Fill2(a: bv32, b: bv32) ensures Fill(a, b, 2) == (a << 2) | (b >> 30) {}

  lemma Rotl34(x: bv128) ensures Rotl(x, 34) == (x << 34) | (x >> 94) {}

  lemma Join34(a: bv32, b: bv32, c: bv32, d: bv32)
    ensures Join4(Fill(b, c, 2), Fill(c, d, 2), Fill(d, a, 2), Fill(a, b, 2)) == Rotl(Join4(a, b, c, d), 34)
  {
    hide Join4, Fill, Rotl;
    Raw34(a, b, c, d);
    Fill2(b, c); Fill2(c, d); Fill2(d, a); Fill2(a, b);
    Rotl34(Join4(a, b, c, d));
  }

  lemma RoldqIs(p: (Half, Half))
    ensures Join(Roldq(p, 15)) == Rotl(Join(p), 15)
    ensures Join(Roldq(p, 17)) == Rotl(Join(p), 17)
    ensures Join(Roldq(p, 30)) == Rotl(Join(p), 30)
    ensures Join(Roldq32(p, 34)) == Rotl(Join(p), 34)
  {
    hide Join4, Fill, Rotl;
    Join15(p.0.l, p.0.r, p.1.l, p.1.r);
    Join17(p.0.l, p.0.r, p.1.l, p.1.r);
    Join30(p.0.l, p.0.r, p.1.l, p.1.r);
    Join34(p.0.l, p.0.r, p.1.l, p.1.r);
  }

  lemma Rotl15And15(x: bv128) ensures Rotl(Rotl(x, 15), 15) == Rotl(x, 30) {}

  lemma Rotl15And30(x: bv128) ensures Rotl(Rotl(x, 15), 30) == Rotl(x, 45) {}

  lemma Rotl30And15(x: bv128) ensures Rotl(Rotl(x, 30), 15) == Rotl(x, 45) {}

  lemma Rotl45And15(x: bv128) ensures Rotl(Rotl(x, 45), 15) == Rotl(x, 60) {}

  lemma Rotl60And17(x: bv128) ensures Rotl(Rotl(x, 60), 17) == Rotl(x, 77) {}

  lemma Rotl60And34(x: bv128) ensures Rotl(Rotl(x, 60), 34) == Rotl(x, 94) {}

  lemma Rotl77And17(x: bv128) ensures Rotl(Rotl(x, 77), 17) == Rotl(x, 94) {}

  lemma Rotl94And17(x: bv128) ensures Rotl(Rotl(x, 94), 17) == Rotl(x, 111) {}
}
