/** The two key expansions of DES: for encryption, and with the keys in opposite order. */
module DesKeys {

  import opened Words
  import opened Des

  /** Permuted choice 1, one rotation of a quarter register, and permuted choice 2 (two sets of four
      interleaved tables). */
  datatype KeyTables = KeyTables(pc1: bv32 -> bv32, rs: bv32 -> bv32, pc2: bv32 -> bv32)

  /** The four quarters of a 28-bit register. */
  datatype Register = Register(a: bv32, b: bv32, c: bv32, d: bv32)

  /** `PC2`, from the set of tables that starts at `base`. */
  function Pc2(t: KeyTables, base: bv32, a: bv32, b: bv32, c: bv32, d: bv32): (w: bv32) {
    Or(Or(Pc2Entry(t, base, d, 3), Pc2Entry(t, base, c, 2)), Or(Pc2Entry(t, base, b, 1), Pc2Entry(t, base, a, 0)))
  }

  /** The entry for `x` in the table with number `n` of four interleaved ones. */
  function Pc2Entry(t: KeyTables, base: bv32, x: bv32, n: bv32): (w: bv32) { t.pc2(base + 2 * x + n) }

  /** Where the table of permuted choice 1 is read for a quarter of the first register, and of the second:
      the even entries and the odd ones. */
  function Low(hi: bv32, lo: bv32): (x: bv32) { ((hi & 0x0e) << 4) | (lo & 0x1e) }

  function High(hi: bv32, lo: bv32): (x: bv32) { (((lo & 0xe0) >> 4) | (hi & 0xf0)) + 1 }

  function First(t: KeyTables, k: seq<bv32>): (r: Register)
    requires |k| == 8
  {
    Register(t.pc1(Low(k[7], k[3])), t.pc1(Low(k[6], k[2])), t.pc1(Low(k[5], k[1])), t.pc1(Low(k[4], k[0])))
  }

  function Second(t: KeyTables, k: seq<bv32>): (r: Register)
    requires |k| == 8
  {
    Register(t.pc1(High(k[7], k[3])), t.pc1(High(k[6], k[2])), t.pc1(High(k[5], k[1])), t.pc1(High(k[4], k[0])))
  }

  // ---- The schedule by its definition: rotate by one or two quarters, then choose ----

  function Turn1(t: KeyTables, r: Register): (r': Register) {
    Register(t.rs(r.d), r.a, r.b, r.c)
  }

  function Turn2(t: KeyTables, r: Register): (r': Register) {
    Register(t.rs(r.c), t.rs(r.d), r.a, r.b)
  }

  /** The register after `n` turns; only the first, the eighth and the fifteenth are single ones. */
  function Turned(t: KeyTables, r: Register, n: nat): (r': Register) {
    if n == 0 then r
    else if n == 1 || n == 8 || n == 15 then Turn1(t, Turned(t, r, n - 1))
    else Turn2(t, Turned(t, r, n - 1))
  }

  function Chosen(t: KeyTables, base: bv32, r: Register, n: nat): (w: bv32) {
    var q := Turned(t, r, n);
    Pc2(t, base, q.a, q.b, q.c, q.d)
  }

  /** The final exchange of half words between the two words of a key. */
  function Fixup(a: bv32, b: bv32): (k: Key) {
    var c := And(Xor(a, b), 0xffff0000);
    Key(Xor(a, c), Rol(Xor(b, c), 18))
  }

  /** The `n`-th key in order of computation. */
  function KeyAt(t: KeyTables, k: seq<bv32>, n: nat): (key: Key)
    requires |k| == 8
  {
    Fixup(Chosen(t, 0, First(t, k), n), Chosen(t, 512, Second(t, k), n))
  }

  function EncryptionSchedule(t: KeyTables, k: seq<bv32>): (ks: seq<Key>)
    requires |k| == 8
    ensures |ks| == 16
  {
    seq(16, i requires 0 <= i < 16 => KeyAt(t, k, 15 - i))
  }

  function DecryptionSchedule(t: KeyTables, k: seq<bv32>): (ks: seq<Key>)
    requires |k| == 8
    ensures |ks| == 16
  {
    seq(16, i requires 0 <= i < 16 => KeyAt(t, k, i))
  }

  lemma DecryptionIsReversed(t: KeyTables, k: seq<bv32>)
    requires |k| == 8
    ensures DecryptionSchedule(t, k) == Reversed(EncryptionSchedule(t, k))
  {
    hide KeyAt, Reversed;
    var e := EncryptionSchedule(t, k);
    forall i | 0 <= i < 16 ensures DecryptionSchedule(t, k)[i] == Reversed(e)[i] {
      ReversedAt(e, i);
    }
  }

  // ---- The expansions as they run ----

  /** Half of an expansion: the register's quarters stay where they are and change their parts. */
  method HalfKeys(t: KeyTables, base: bv32, r: Register) returns (s: seq<bv32>)
    ensures |s| == 16 && forall n :: 0 <= n < 16 ==> s[n] == Chosen(t, base, r, n)
  {
    hide Chosen, Turned;
    var s0, a, b, c, d := Keys0(t, base, r);
    var s1, s2, s3;
    s1, a, b, c, d := Keys4(t, base, r, a, b, c, d);
    s2, a, b, c, d := Keys8(t, base, r, a, b, c, d);
    s3 := Keys12(t, base, r, a, b, c, d);
    s := s0 + s1 + s2 + s3;
    forall n | 0 <= n < 16 ensures s[n] == Chosen(t, base, r, n) {
      if n < 4 { assert s[n] == s0[n]; }
      else if n < 8 { assert s[n] == s1[n - 4]; }
      else if n < 12 { assert s[n] == s2[n - 8]; }
      else { assert s[n] == s3[n - 12]; }
    }
  }

  method Keys0(t: KeyTables, base: bv32, r: Register) returns (s: seq<bv32>, a: bv32, b: bv32, c: bv32, d: bv32)
    ensures |s| == 4 && forall i :: 0 <= i < 4 ==> s[i] == Chosen(t, base, r, 0 + i)
    ensures Turned(t, r, 3) == Register(d, a, b, c)
  {
    hide Pc2, Chosen, Turned;
    Start(t, base, r);
    a, b, c, d := r.a, r.b, r.c, r.d;
    var p0 := Pc2(t, base, a, b, c, d);
    Next(t, base, r, 0);
    d := t.rs(d);
    var p1 := Pc2(t, base, d, a, b, c);
    Next(t, base, r, 1);
    c := t.rs(c); b := t.rs(b);
    var p2 := Pc2(t, base, b, c, d, a);
    Next(t, base, r, 2);
    a := t.rs(a); d := t.rs(d);
    var p3 := Pc2(t, base, d, a, b, c);
    s := [p0, p1, p2, p3];
  }

  method Keys4(t: KeyTables, base: bv32, r: Register, a0: bv32, b0: bv32, c0: bv32, d0: bv32)
    returns (s: seq<bv32>, a: bv32, b: bv32, c: bv32, d: bv32)
    requires Turned(t, r, 3) == Register(d0, a0, b0, c0)
    ensures |s| == 4 && forall i :: 0 <= i < 4 ==> s[i] == Chosen(t, base, r, 4 + i)
    ensures Turned(t, r, 7) == Register(d, a, b, c)
  {
    hide Pc2, Chosen, Turned;
    a, b, c, d := a0, b0, c0, d0;
    Next(t, base, r, 3);
    c := t.rs(c); b := t.rs(b);
    var p4 := Pc2(t, base, b, c, d, a);
    Next(t, base, r, 4);
    a := t.rs(a); d := t.rs(d);
    var p5 := Pc2(t, base, d, a, b, c);
    Next(t, base, r, 5);
    c := t.rs(c); b := t.rs(b);
    var p6 := Pc2(t, base, b, c, d, a);
    Next(t, base, r, 6);
    a := t.rs(a); d := t.rs(d);
    var p7 := Pc2(t, base, d, a, b, c);
    s := [p4, p5, p6, p7];
  }

  method Keys8(t: KeyTables, base: bv32, r: Register, a0: bv32, b0: bv32, c0: bv32, d0: bv32)
    returns (s: seq<bv32>, a: bv32, b: bv32, c: bv32, d: bv32)
    requires Turned(t, r, 7) == Register(d0, a0, b0, c0)
    ensures |s| == 4 && forall i :: 0 <= i < 4 ==> s[i] == Chosen(t, base, r, 8 + i)
    ensures Turned(t, r, 11) == Register(a, b, c, d)
  {
    hide Pc2, Chosen, Turned;
    a, b, c, d := a0, b0, c0, d0;
    Next(t, base, r, 7);
    c := t.rs(c);
    var p8 := Pc2(t, base, c, d, a, b);
    Next(t, base, r, 8);
    b := t.rs(b); a := t.rs(a);
    var p9 := Pc2(t, base, a, b, c, d);
    Next(t, base, r, 9);
    d := t.rs(d); c := t.rs(c);
    var p10 := Pc2(t, base, c, d, a, b);
    Next(t, base, r, 10);
    b := t.rs(b); a := t.rs(a);
    var p11 := Pc2(t, base, a, b, c, d);
    s := [p8, p9, p10, p11];
  }

  method Keys12(t: KeyTables, base: bv32, r: Register, a0: bv32, b0: bv32, c0: bv32, d0: bv32)
    returns (s: seq<bv32>)
    requires Turned(t, r, 11) == Register(a0, b0, c0, d0)
    ensures |s| == 4 && forall i :: 0 <= i < 4 ==> s[i] == Chosen(t, base, r, 12 + i)
  {
    hide Pc2, Chosen, Turned;
    var a, b, c, d := a0, b0, c0, d0;
    Next(t, base, r, 11);
    d := t.rs(d); c := t.rs(c);
    var p12 := Pc2(t, base, c, d, a, b);
    Next(t, base, r, 12);
    b := t.rs(b); a := t.rs(a);
    var p13 := Pc2(t, base, a, b, c, d);
    Next(t, base, r, 13);
    d := t.rs(d); c := t.rs(c);
    var p14 := Pc2(t, base, c, d, a, b);
    Next(t, base, r, 14);
    b := t.rs(b);
    var p15 := Pc2(t, base, b, c, d, a);
    s := [p12, p13, p14, p15];
  }

  lemma Start(t: KeyTables, base: bv32, r: Register)
    ensures Turned(t, r, 0) == r && Chosen(t, base, r, 0) == Pc2(t, base, r.a, r.b, r.c, r.d)
  {
  }

  lemma Next(t: KeyTables, base: bv32, r: Register, n: nat)
    ensures var q, q' := Turned(t, r, n), Turned(t, r, n + 1);
            && q' == (if n == 0 || n == 7 || n == 14 then Turn1(t, q) else Turn2(t, q))
            && Chosen(t, base, r, n + 1) == Pc2(t, base, q'.a, q'.b, q'.c, q'.d)
  {
    hide Pc2;
  }

  /** The keys, two words each, of a filled table. */
  function KeysOf(pe: seq<bv32>): (ks: seq<Key>)
    requires |pe| == 32
    ensures |ks| == 16
  {
    seq(16, i requires 0 <= i < 16 => Key(pe[2 * i], pe[2 * i + 1]))
  }

  /** The fixup loop at the end of both expansions. */
  method FixupAll(pe: array<bv32>)
    requires pe.Length == 32
    modifies pe
    ensures forall i :: 0 <= i < 16 ==> KeysOf(pe[..])[i] == Fixup(old(pe[2 * i]), old(pe[2 * i + 1]))
  {
    hide Fixup;
    var d := 0;
    while d < 16
      invariant 0 <= d <= 16
      invariant forall i :: 0 <= i < d ==> KeysOf(pe[..])[i] == Fixup(old(pe[2 * i]), old(pe[2 * i + 1]))
      invariant forall i :: 2 * d <= i < 32 ==> pe[i] == old(pe[i])
    {
      var k := FixOne(pe[2 * d], pe[2 * d + 1]);
      pe[2 * d] := k.k0;
      pe[2 * d + 1] := k.k1;
      d := d + 1;
    }
  }

  method FixOne(a0: bv32, b0: bv32) returns (k: Key)
    ensures k == Fixup(a0, b0)
  {
    hide Xor, And, Rol;
    var a, b := a0, b0;
    var c := Xor(a, b);
    c := And(c, 0xffff0000);
    a := Xor(a, c);
    b := Xor(b, c);
    k := Key(a, Rol(b, 18));
  }

  /** `ekey`. */
  method Ekey(t: KeyTables, k: seq<bv32>) returns (pe: array<bv32>)
    requires |k| == 8
    ensures fresh(pe) && pe.Length == 32 && KeysOf(pe[..]) == EncryptionSchedule(t, k)
  {
    hide Fixup, Chosen, First, Second, KeysOf;
    var f := HalfKeys(t, 0, First(t, k));
    var g := HalfKeys(t, 512, Second(t, k));
    pe := new bv32[32](i requires 0 <= i < 32 => if i % 2 == 0 then f[15 - i / 2] else g[15 - i / 2]);
    forall i | 0 <= i < 16 ensures pe[2 * i] == f[15 - i] && pe[2 * i + 1] == g[15 - i] {
      assert (2 * i) / 2 == i && (2 * i + 1) / 2 == i;
    }
    FixupAll(pe);
  }

  /** `dkey`: the same keys, stored in opposite order. */
  method Dkey(t: KeyTables, k: seq<bv32>) returns (pe: array<bv32>)
    requires |k| == 8
    ensures fresh(pe) && pe.Length == 32 && KeysOf(pe[..]) == DecryptionSchedule(t, k)
    ensures KeysOf(pe[..]) == Reversed(EncryptionSchedule(t, k))
  {
    hide Fixup, Chosen, Reversed;
    var f := HalfKeys(t, 0, First(t, k));
    var g := HalfKeys(t, 512, Second(t, k));
    pe := new bv32[32](i requires 0 <= i < 32 => if i % 2 == 0 then f[i / 2] else g[i / 2]);
    assert forall i :: 0 <= i < 16 ==> pe[2 * i] == f[i] && pe[2 * i + 1] == g[i];
    FixupAll(pe);
    DecryptionIsReversed(t, k);
  }

  /** Why `des3_ede_setkey` gives the middle key to `dkey`: with the three tables it builds, triple DES
      is encryption, decryption and encryption under the three keys' own schedules. */
  lemma TableOfThree(t: KeyTables, k1: seq<bv32>, k2: seq<bv32>, k3: seq<bv32>)
    requires |k1| == 8 && |k2| == 8 && |k3| == 8
    ensures var ks := EncryptionSchedule(t, k1) + DecryptionSchedule(t, k2) + EncryptionSchedule(t, k3);
            && |ks| == 48 && ks[..16] == EncryptionSchedule(t, k1) && ks[32..] == EncryptionSchedule(t, k3)
            && ks[16..32] == Reversed(EncryptionSchedule(t, k2))
  {
    hide EncryptionSchedule, DecryptionSchedule, Reversed;
    DecryptionIsReversed(t, k2);
  }

  /** `des3_ede_setkey`: keys whose first two or last two parts agree are refused; otherwise the table
      is the one `Des3Encrypt` and `Des3Decrypt` take, for the three keys' own schedules. */
  method Des3SetKey(t: KeyTables, k1: seq<bv32>, k2: seq<bv32>, k3: seq<bv32>) returns (ok: bool, ks: seq<Key>)
    requires |k1| == 8 && |k2| == 8 && |k3| == 8
    ensures ok <==> k1 != k2 && k2 != k3
    ensures ok ==> |ks| == 48 && ks[..16] == EncryptionSchedule(t, k1) && ks[32..] == EncryptionSchedule(t, k3)
    ensures ok ==> ks[16..32] == Reversed(EncryptionSchedule(t, k2))
  {
    hide EncryptionSchedule, DecryptionSchedule, Reversed, KeysOf;
    if k1 == k2 || k2 == k3 { return false, []; }
    TableOfThree(t, k1, k2, k3);
    var a := Ekey(t, k1);
    var b := Dkey(t, k2);
    var c := Ekey(t, k3);
    ok, ks := true, KeysOf(a[..]) + KeysOf(b[..]) + KeysOf(c[..]);
  }
}
