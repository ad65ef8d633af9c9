/** Key setup and the two ciphers as they run: subkey tables filled and folded in place, blocks
    transformed in place. */
module CamelliaSetup {

  import opened Words
  import opened Camellia
  import opened CamelliaKeys

  /** What absorbing kw2 leaves: it follows the right half through every second round, changed by
      each inverse FL layer, up to kw3. */
  function Kw2(s: seq<Half>, group: nat): (m: Half)
    requires |s| == 26
  {
    if group == 0 then s[1] else if group == 1 then Pass(s[1], s[9]) else Pass(Pass(s[1], s[9]), s[17])
  }

  /** What absorbing kw4 leaves: it follows the left half backwards through the other rounds,
      changed by each FL layer, down to kw1. */
  function Kw4(s: seq<Half>, group: nat): (m: Half)
    requires |s| == 26
  {
    if group == 0 then Pass(Pass(s[25], s[16]), s[8]) else if group == 1 then Pass(s[25], s[16]) else s[25]
  }

  /** The table after kw2 has been absorbed. */
  function Absorbed2(s: seq<Half>, i: nat): (h: Half)
    requires |s| == 26 && i < 26
  {
    if i == 1 then Kw2(s, 2)
    else if i in {3, 5, 7} then Xor2(s[i], Kw2(s, 0))
    else if i in {11, 13, 15} then Xor2(s[i], Kw2(s, 1))
    else if i in {19, 21, 23, 24} then Xor2(s[i], Kw2(s, 2))
    else s[i]
  }

  /** The table after kw4, too, has been absorbed. */
  function Absorbed(s: seq<Half>, i: nat): (h: Half)
    requires |s| == 26 && i < 26
  {
    if i in {0, 2, 4, 6} then Xor2(s[i], Kw4(s, 0))
    else if i in {10, 12, 14} then Xor2(s[i], Kw4(s, 1))
    else if i in {18, 20, 22} then Xor2(s[i], Kw4(s, 2))
    else Absorbed2(s, i)
  }

  /** One mask into every second of three round keys. */
  method AddMask(sub: array<Half>, i: nat, m: Half)
    requires i + 4 < sub.Length
    modifies sub
    ensures forall j :: 0 <= j < sub.Length ==>
        sub[j] == if j in {i, i + 2, i + 4} then Xor2(old(sub[j]), m) else old(sub[j])
  {
    hide Xor2;
    sub[i] := Xor2(sub[i], m);
    sub[i + 2] := Xor2(sub[i + 2], m);
    sub[i + 4] := Xor2(sub[i + 4], m);
  }

  method AbsorbKw2(sub: array<Half>)
    requires sub.Length == 26
    modifies sub
    ensures forall i :: 0 <= i < 26 ==> sub[i] == Absorbed2(old(sub[..]), i)
  {
    hide Xor2, Pass;
    AddMask(sub, 3, sub[1]);
    sub[1] := Pass(sub[1], sub[9]);
    AddMask(sub, 11, sub[1]);
    sub[1] := Pass(sub[1], sub[17]);
    AddMask(sub, 19, sub[1]);
    sub[24] := Xor2(sub[24], sub[1]);
  }

  lemma Untouched(s: seq<Half>)
    requires |s| == 26
    ensures forall i :: 0 <= i < 26 && (i % 2 == 0 || i in {9, 17, 25}) && i != 24 ==> Absorbed2(s, i) == s[i]
  {
    hide Xor2, Kw2;
  }

  method AbsorbKw4(sub: array<Half>, ghost s: seq<Half>)
    requires sub.Length == 26 && |s| == 26 && forall i :: 0 <= i < 26 ==> sub[i] == Absorbed2(s, i)
    modifies sub
    ensures forall i :: 0 <= i < 26 ==> sub[i] == Absorbed(s, i)
  {
    hide Xor2, Pass, Absorbed2;
    Untouched(s);
    var kw4 := sub[25];
    AddMask(sub, 18, kw4);
    kw4 := Pass(kw4, sub[16]);
    AddMask(sub, 10, kw4);
    kw4 := Pass(kw4, sub[8]);
    AddMask(sub, 2, kw4);
    sub[0] := Xor2(sub[0], kw4);
  }

  /** The same mask on both sides of a difference cancels. */
  lemma MaskCancels(a: Half, b: Half, m: Half)
    ensures Xor2(Xor2(a, m), Xor2(b, m)) == Xor2(a, b)
  {
    hide Xor2;
    Xor2Basics(b, m);
    Xor2Assoc(a, m, Xor2(m, b));
    Xor2Assoc(m, m, b);
    Xor2Basics(m, b);
    Xor2Basics(b, ZERO);
  }

  lemma MaskPasses(a: Half, b: Half, m: Half, k: Half)
    ensures Xor2(Pass(Xor2(a, m), k), Xor2(b, Pass(m, k))) == Xor2(Pass(a, k), b)
    ensures Xor2(Xor2(b, Pass(m, k)), Pass(Xor2(a, m), k)) == Xor2(b, Pass(a, k))
  {
    hide Xor2, Pass;
    PassIsLinear(a, m, k);
    MaskCancels(Pass(a, k), b, Pass(m, k));
    MaskCancels(b, Pass(a, k), Pass(m, k));
  }

  /** Differences of absorbed neighbours are differences of the raw ones: the whitening keys leave
      no trace inside. */
  lemma AbsorbedNeighbours(s: seq<Half>, u: seq<Half>, i: nat)
    requires |s| == 26 && |u| == 26 && forall j :: 0 <= j < 26 ==> u[j] == Absorbed(s, j)
    requires IsRoundKey(i) && i !in {2, 7, 10, 15, 18, 23}
    ensures Xor2(u[i - 1], u[i + 1]) == Difference(s, i)
  {
    hide Xor2, Pass, Kw2, Kw4;
    MaskCancels(s[i - 1], s[i + 1], if i % 2 == 0 then Kw2(s, (i - 2) / 8) else Kw4(s, (i - 2) / 8));
  }

  lemma AbsorbedAcross(s: seq<Half>, u: seq<Half>)
    requires |s| == 26 && |u| == 26 && forall j :: 0 <= j < 26 ==> u[j] == Absorbed(s, j)
    ensures Xor2(u[6], Pass(u[10], u[8])) == Difference(s, 7)
    ensures Xor2(Pass(u[7], u[9]), u[11]) == Difference(s, 10)
  {
    hide Xor2, Pass;
    MaskPasses(s[10], s[6], Kw4(s, 1), s[8]);
    MaskPasses(s[7], s[11], Kw2(s, 0), s[9]);
  }

  lemma AbsorbedAcrossNext(s: seq<Half>, u: seq<Half>)
    requires |s| == 26 && |u| == 26 && forall j :: 0 <= j < 26 ==> u[j] == Absorbed(s, j)
    ensures Xor2(u[14], Pass(u[18], u[16])) == Difference(s, 15)
    ensures Xor2(Pass(u[15], u[17]), u[19]) == Difference(s, 18)
  {
    hide Xor2, Pass;
    MaskPasses(s[18], s[14], Kw4(s, 2), s[16]);
    MaskPasses(s[15], s[19], Kw2(s, 1), s[17]);
  }

  lemma AbsorbedEnds(s: seq<Half>, u: seq<Half>)
    requires |s| == 26 && |u| == 26 && forall j :: 0 <= j < 26 ==> u[j] == Absorbed(s, j)
    ensures Xor2(u[0], u[2]) == Difference(s, 0)
    ensures u[3] == Difference(s, 2)
    ensures u[22] == Difference(s, 23)
    ensures Xor2(u[24], u[23]) == Difference(s, 24)
  {
    hide Xor2, Pass;
    MaskCancels(s[0], s[2], Kw4(s, 0));
    MaskCancels(s[24], s[23], Kw2(s, 2));
  }

  /** What the delayed key addition makes of an absorbed table. */
  function Delayed(u: seq<Half>, i: nat): (h: Half)
    requires |u| == 26 && i < 25
  {
    if i == 0 then Xor2(u[0], u[2])
    else if i == 2 then u[3]
    else if i == 7 || i == 15 then Xor2(u[i - 1], Pass(u[i + 3], u[i + 1]))
    else if i == 10 || i == 18 then Xor2(Pass(u[i - 3], u[i - 1]), u[i + 1])
    else if i == 23 then u[22]
    else if i == 24 then Xor2(u[24], u[23])
    else if i in {1, 8, 9, 16, 17} then u[i]
    else Xor2(u[i - 1], u[i + 1])
  }

  lemma DelayedIsDifference(s: seq<Half>, u: seq<Half>, i: nat)
    requires |s| == 26 && |u| == 26 && forall j :: 0 <= j < 26 ==> u[j] == Absorbed(s, j)
    requires i < 25 && i != 1
    ensures Delayed(u, i) == Difference(s, i)
  {
    if IsRoundKey(i) && i !in {2, 7, 10, 15, 18, 23} {
      hide Xor2, Pass, Absorbed, Difference;
      AbsorbedNeighbours(s, u, i);
    } else if i in {7, 10} {
      hide Xor2, Pass, Absorbed, Difference;
      AbsorbedAcross(s, u);
    } else if i in {15, 18} {
      hide Xor2, Pass, Absorbed, Difference;
      AbsorbedAcrossNext(s, u);
    } else if i in {0, 2, 23, 24} {
      hide Xor2, Pass, Absorbed, Difference;
      AbsorbedEnds(s, u);
    } else {
      hide Xor2, Pass, Kw2, Kw4;
    }
  }

  /** Four round keys inside a group become differences of their neighbours. */
  method InnerFour(sub: array<Half>, subkey: array<Half>, o: nat)
    requires o + 6 <= sub.Length && subkey.Length == sub.Length && sub != subkey
    modifies subkey
    ensures subkey[o + 1] == Xor2(sub[o], sub[o + 2]) && subkey[o + 2] == Xor2(sub[o + 1], sub[o + 3])
    ensures subkey[o + 3] == Xor2(sub[o + 2], sub[o + 4]) && subkey[o + 4] == Xor2(sub[o + 3], sub[o + 5])
    ensures forall j :: 0 <= j < subkey.Length && !(o < j < o + 5) ==> subkey[j] == old(subkey[j])
  {
    hide Xor2;
    subkey[o + 1] := Xor2(sub[o], sub[o + 2]);
    subkey[o + 2] := Xor2(sub[o + 1], sub[o + 3]);
    subkey[o + 3] := Xor2(sub[o + 2], sub[o + 4]);
    subkey[o + 4] := Xor2(sub[o + 3], sub[o + 5]);
  }

  /** Around an FL layer the difference is carried across it, one way on each half. */
  method AcrossFl(sub: array<Half>, subkey: array<Half>, o: nat)
    requires 2 <= o && o + 4 <= sub.Length && subkey.Length == sub.Length && sub != subkey
    modifies subkey
    ensures subkey[o - 1] == Xor2(sub[o - 2], Pass(sub[o + 2], sub[o]))
    ensures subkey[o] == sub[o] && subkey[o + 1] == sub[o + 1]
    ensures subkey[o + 2] == Xor2(Pass(sub[o - 1], sub[o + 1]), sub[o + 3])
    ensures forall j :: 0 <= j < subkey.Length && !(o - 1 <= j <= o + 2) ==> subkey[j] == old(subkey[j])
  {
    hide Xor2, Pass;
    subkey[o - 1] := Xor2(sub[o - 2], Pass(sub[o + 2], sub[o]));
    subkey[o] := sub[o];
    subkey[o + 1] := sub[o + 1];
    subkey[o + 2] := Xor2(Pass(sub[o - 1], sub[o + 1]), sub[o + 3]);
  }

  method DelayFirst(sub: array<Half>, subkey: array<Half>)
    requires sub.Length == 26 && subkey.Length == 26 && sub != subkey
    modifies subkey
    ensures forall i :: 0 <= i < 11 && i != 1 ==> subkey[i] == Delayed(sub[..], i)
  {
    hide Xor2, Pass, Delayed;
    subkey[0] := Xor2(sub[0], sub[2]);
    subkey[2] := sub[3];
    InnerFour(sub, subkey, 2);
    AcrossFl(sub, subkey, 8);
    FirstDelayed(sub[..], subkey[..]);
    assert forall i :: 0 <= i < 26 ==> subkey[..][i] == subkey[i];
  }

  lemma FirstDelayed(u: seq<Half>, k: seq<Half>)
    requires |u| == 26 && |k| == 26 && k[0] == Xor2(u[0], u[2]) && k[2] == u[3]
    requires k[3] == Xor2(u[2], u[4]) && k[4] == Xor2(u[3], u[5]) && k[5] == Xor2(u[4], u[6]) &&
        k[6] == Xor2(u[5], u[7])
    requires k[7] == Xor2(u[6], Pass(u[10], u[8])) && k[8] == u[8] && k[9] == u[9]
    requires k[10] == Xor2(Pass(u[7], u[9]), u[11])
    ensures forall i :: 0 <= i < 11 && i != 1 ==> k[i] == Delayed(u, i)
  {
    hide Xor2, Pass;
    forall i | 0 <= i < 11 && i != 1 ensures k[i] == Delayed(u, i) {
      if i < 3 {
      } else if i < 7 {
        assert Delayed(u, i) == Xor2(u[i - 1], u[i + 1]);
      }
    }
  }

  method DelayMiddle(sub: array<Half>, subkey: array<Half>)
    requires sub.Length == 26 && subkey.Length == 26 && sub != subkey
    modifies subkey
    ensures forall i :: 0 <= i < 11 ==> subkey[i] == old(subkey[i])
    ensures forall i :: 11 <= i < 19 ==> subkey[i] == Delayed(sub[..], i)
  {
    hide Xor2, Pass;
    InnerFour(sub, subkey, 10);
    AcrossFl(sub, subkey, 16);
  }

  method DelayLast(sub: array<Half>, subkey: array<Half>)
    requires sub.Length == 26 && subkey.Length == 26 && sub != subkey
    modifies subkey
    ensures forall i :: 0 <= i < 19 ==> subkey[i] == old(subkey[i])
    ensures forall i :: 19 <= i < 25 ==> subkey[i] == Delayed(sub[..], i)
  {
    hide Xor2, Pass;
    InnerFour(sub, subkey, 18);
    subkey[23] := sub[22];
    subkey[24] := Xor2(sub[24], sub[23]);
  }

  /** The key addition moves to the end of the round function. */
  method DelayKeys(sub: array<Half>) returns (subkey: array<Half>)
    requires sub.Length == 26
    ensures fresh(subkey) && subkey.Length == 26
    ensures forall i :: 0 <= i < 25 && i != 1 ==> subkey[i] == Delayed(sub[..], i)
  {
    hide Delayed;
    subkey := new Half[26](_ => ZERO);
    DelayFirst(sub, subkey);
    DelayMiddle(sub, subkey);
    DelayLast(sub, subkey);
  }

  method UndoThree(k: array<Half>, o: nat)
    requires o + 3 <= k.Length
    modifies k
    ensures forall i :: 0 <= i < k.Length ==> k[i] == if o <= i < o + 3 then UndoHalfP(old(k[i])) else old(k[i])
  {
    hide UndoHalfP;
    k[o] := UndoHalfP(k[o]);
    k[o + 1] := UndoHalfP(k[o + 1]);
    k[o + 2] := UndoHalfP(k[o + 2]);
  }

  /** Half of the linear layer is undone on six consecutive round keys. */
  method UndoSix(k: array<Half>, o: nat)
    requires o + 6 <= k.Length
    modifies k
    ensures forall i :: 0 <= i < k.Length ==> k[i] == if o <= i < o + 6 then UndoHalfP(old(k[i])) else old(k[i])
  {
    hide UndoHalfP;
    UndoThree(k, o);
    UndoThree(k, o + 3);
  }

  /** The folding of `camellia_setup128`: the table it leaves is the folded table of the raw keys. */
  method Fold(sub: array<Half>) returns (subkey: array<Half>)
    requires sub.Length == 26
    modifies sub
    ensures fresh(subkey) && Folded(old(sub[..]), subkey[..])
  {
    hide Xor2, Pass, Difference, UndoHalfP, Absorbed, Absorbed2, Delayed;
    ghost var s := sub[..];
    AbsorbKw2(sub);
    AbsorbKw4(sub, s);
    subkey := DelayKeys(sub);
    forall i | 0 <= i < 25 && i != 1 ensures subkey[i] == Difference(s, i) { DelayedIsDifference(s, sub[..], i); }
    UndoSix(subkey, 2);
    UndoSix(subkey, 10);
    UndoSix(subkey, 18);
  }

  // ---- Raw subkeys ----

  lemma KaShort(t: Tables, k: (Half, Half))
    ensures var w := F(t, k.0, SIGMA1);
            var l := F(t, Xor2(k.1, w), SIGMA2);
            var r := Xor2(F(t, l, SIGMA3), w);
            Ka(t, k) == (Xor2(l, F(t, r, SIGMA4)), r)
  {
    hide F, Xor2;
    var w := F(t, k.0, SIGMA1);
    var d2 := Xor2(k.1, w);
    var l := F(t, d2, SIGMA2);
    Xor2Basics(k.0, l);
    Xor2Basics(l, k.0);
    Xor2Basics(k.1, w);
    Xor2Basics(w, k.1);
    Xor2Basics(w, F(t, l, SIGMA3));
  }

  lemma Halves(p: (Half, Half), x: bv128)
    requires Join(p) == x
    ensures p.0 == Left(x) && p.1 == Right(x)
  {
    hide Join, Left, Right;
    JoinBack(p);
  }

  /** Two consecutive entries from the 128 bits at hand. */
  method Put(sub: array<Half>, i: nat, k: (Half, Half), ghost x: bv128)
    requires i + 1 < sub.Length && Join(k) == x
    modifies sub
    ensures sub[i] == Left(x) && sub[i + 1] == Right(x)
    ensures forall j :: 0 <= j < sub.Length && j != i && j != i + 1 ==> sub[j] == old(sub[j])
  {
    hide Join, Left, Right;
    Halves(k, x);
    sub[i] := k.0;
    sub[i + 1] := k.1;
  }

  method KlKeysFirst(sub: array<Half>, kl: (Half, Half)) returns (k: (Half, Half))
    requires sub.Length == 26
    modifies sub
    ensures var x := Join(kl);
            && Join(k) == Rotl(x, 60)
            && sub[0] == Left(x) && sub[1] == Right(x)
            && sub[4] == Left(Rotl(x, 15)) && sub[5] == Right(Rotl(x, 15))
            && sub[10] == Left(Rotl(x, 45)) && sub[11] == Right(Rotl(x, 45))
            && sub[13] == Right(Rotl(x, 60))
  {
    hide Left, Right, Rotl, Join, Roldq, Roldq32;
    ghost var x := Join(kl);
    k := kl;
    Put(sub, 0, k, x);
    RoldqIs(k);
    k := Roldq(k, 15);
    Put(sub, 4, k, Rotl(x, 15));
    RoldqIs(k); Rotl15And30(x);
    k := Roldq(k, 30);
    Put(sub, 10, k, Rotl(x, 45));
    RoldqIs(k); Rotl45And15(x);
    k := Roldq(k, 15);
    Halves(k, Rotl(x, 60));
    sub[13] := k.1;
  }

  method KlKeysRest(sub: array<Half>, kl60: (Half, Half), ghost x: bv128)
    requires sub.Length == 26 && Join(kl60) == Rotl(x, 60)
    modifies sub
    ensures && sub[16] == Left(Rotl(x, 77)) && sub[17] == Right(Rotl(x, 77))
            && sub[18] == Left(Rotl(x, 94)) && sub[19] == Right(Rotl(x, 94))
            && sub[22] == Left(Rotl(x, 111)) && sub[23] == Right(Rotl(x, 111))
    ensures forall i :: 0 <= i < 26 && i !in {16, 17, 18, 19, 22, 23} ==> sub[i] == old(sub[i])
  {
    hide Left, Right, Rotl, Join, Roldq, Roldq32;
    RoldqIs(kl60); Rotl60And17(x);
    var k := Roldq(kl60, 17);
    Put(sub, 16, k, Rotl(x, 77));
    RoldqIs(k); Rotl77And17(x);
    k := Roldq(k, 17);
    Put(sub, 18, k, Rotl(x, 94));
    RoldqIs(k); Rotl94And17(x);
    k := Roldq(k, 17);
    Put(sub, 22, k, Rotl(x, 111));
  }

  method KaKeysFirst(sub: array<Half>, ka: (Half, Half)) returns (k: (Half, Half))
    requires sub.Length == 26
    modifies sub
    ensures var x := Join(ka);
            && Join(k) == Rotl(x, 45)
            && sub[2] == Left(x) && sub[3] == Right(x)
            && sub[6] == Left(Rotl(x, 15)) && sub[7] == Right(Rotl(x, 15))
            && sub[8] == Left(Rotl(x, 30)) && sub[9] == Right(Rotl(x, 30))
            && sub[12] == Left(Rotl(x, 45))
    ensures forall i :: 0 <= i < 26 && i !in {2, 3, 6, 7, 8, 9, 12} ==> sub[i] == old(sub[i])
  {
    hide Left, Right, Rotl, Join, Roldq, Roldq32;
    ghost var x := Join(ka);
    k := ka;
    Put(sub, 2, k, x);
    RoldqIs(k);
    k := Roldq(k, 15);
    Put(sub, 6, k, Rotl(x, 15));
    RoldqIs(k); Rotl15And15(x);
    k := Roldq(k, 15);
    Put(sub, 8, k, Rotl(x, 30));
    RoldqIs(k); Rotl30And15(x);
    k := Roldq(k, 15);
    Halves(k, Rotl(x, 45));
    sub[12] := k.0;
  }

  method KaKeysRest(sub: array<Half>, ka45: (Half, Half), ghost x: bv128)
    requires sub.Length == 26 && Join(ka45) == Rotl(x, 45)
    modifies sub
    ensures && sub[14] == Left(Rotl(x, 60)) && sub[15] == Right(Rotl(x, 60))
            && sub[20] == Left(Rotl(x, 94)) && sub[21] == Right(Rotl(x, 94))
            && sub[24] == Left(Rotl(x, 111)) && sub[25] == Right(Rotl(x, 111))
    ensures forall i :: 0 <= i < 26 && i !in {14, 15, 20, 21, 24, 25} ==> sub[i] == old(sub[i])
  {
    hide Left, Right, Rotl, Join, Roldq, Roldq32;
    RoldqIs(ka45); Rotl45And15(x);
    var k := Roldq(ka45, 15);
    Put(sub, 14, k, Rotl(x, 60));
    RoldqIs(k); Rotl60And34(x);
    k := Roldq32(k, 34);
    Put(sub, 20, k, Rotl(x, 94));
    RoldqIs(k); Rotl94And17(x);
    k := Roldq(k, 17);
    Put(sub, 24, k, Rotl(x, 111));
  }

  /** KA with one temporary, skipping the sum that cancels. */
  method GenerateKa(t: Tables, key: (Half, Half)) returns (ka: (Half, Half))
    ensures ka == Ka(t, key)
  {
    hide F, Xor2, Ka;
    KaShort(t, key);
    var kl, kr := key.0, key.1;
    var w := F(t, kl, SIGMA1);
    kr := Xor2(kr, w);
    kl := F(t, kr, SIGMA2);
    kr := F(t, kl, SIGMA3);
    kr := Xor2(kr, w);
    w := F(t, kr, SIGMA4);
    kl := Xor2(kl, w);
    ka := (kl, kr);
  }

  /** The first part of `camellia_setup128`: rotations accumulate, KL first, then KA. */
  method RawKeys(t: Tables, key: (Half, Half)) returns (sub: array<Half>)
    ensures fresh(sub) && IsRaw(t, key, sub[..])
  {
    hide Left, Right, Rotl, Join, Ka;
    sub := new Half[26](_ => ZERO);
    var k := KlKeysFirst(sub, key);
    KlKeysRest(sub, k, Join(key));
    var ka := GenerateKa(t, key);
    k := KaKeysFirst(sub, ka);
    KaKeysRest(sub, k, Join(ka));
  }

  lemma RawLength(t: Tables, key: (Half, Half), s: seq<Half>)
    requires IsRaw(t, key, s)
    ensures |s| == 26
  {
  }

  /** `camellia_setup128`. */
  method Setup128(t: Tables, key: (Half, Half)) returns (subkey: array<Half>, ghost s: seq<Half>)
    ensures fresh(subkey) && IsRaw(t, key, s) && Folded(s, subkey[..])
  {
    hide IsRaw, Folded;
    var sub := RawKeys(t, key);
    s := sub[..];
    RawLength(t, key, s);
    subkey := Fold(sub);
  }

  // ---- The ciphers in place ----

  /** A block as four words. */
  function Block(io: seq<bv32>): (x: (Half, Half))
    requires |io| == 4
  {
    (Half(io[0], io[1]), Half(io[2], io[3]))
  }

  method SixRoundsFast(t: Tables, k: seq<Half>, o: nat, x: Half, y: Half) returns (a: Half, b: Half)
    requires o + 6 <= |k|
    ensures (a, b) == SixFast(t, k, o, x, y)
  {
    hide RoundSm;
    a, b := x, y;
    b := RoundSm(t, a, k[o], b);
    a := RoundSm(t, b, k[o + 1], a);
    b := RoundSm(t, a, k[o + 2], b);
    a := RoundSm(t, b, k[o + 3], a);
    b := RoundSm(t, a, k[o + 4], b);
    a := RoundSm(t, b, k[o + 5], a);
  }

  method SixRoundsBack(t: Tables, k: seq<Half>, o: nat, x: Half, y: Half) returns (a: Half, b: Half)
    requires o + 6 <= |k|
    ensures (a, b) == SixBack(t, k, o, x, y)
  {
    hide RoundSm;
    a, b := x, y;
    b := RoundSm(t, a, k[o + 5], b);
    a := RoundSm(t, b, k[o + 4], a);
    b := RoundSm(t, a, k[o + 3], b);
    a := RoundSm(t, b, k[o + 2], a);
    b := RoundSm(t, a, k[o + 1], b);
    a := RoundSm(t, b, k[o], a);
  }

  /** `camellia_encrypt128`: on the folded table of any raw subkeys, the standard's cipher on these. */
  method Encrypt128(t: Tables, subkey: array<Half>, io: array<bv32>)
    requires subkey.Length == 26 && io.Length == 4
    modifies io
    ensures Block(io[..]) == FastEncrypt(t, subkey[..], Block(old(io[..])))
    ensures forall s :: Folded(s, subkey[..]) ==> |s| == 26 && Block(io[..]) == Encrypt(t, s, Block(old(io[..])))
  {
    hide Folded, Encrypt, SixFast, Xor2, Fl, FlInv;
    ghost var x := Block(io[..]);
    var k := subkey[..];
    forall s | Folded(s, k) ensures |s| == 26 && FastEncrypt(t, k, x) == Encrypt(t, s, x) {
      FoldedLength(s, k);
      FoldedComputesCamellia(t, s, k, x);
    }
    var a, b := Half(io[0], io[1]), Half(io[2], io[3]);
    a := Xor2(a, k[0]);
    a, b := SixRoundsFast(t, k, 2, a, b);
    a, b := Fl(a, k[8]), FlInv(b, k[9]);
    a, b := SixRoundsFast(t, k, 10, a, b);
    a, b := Fl(a, k[16]), FlInv(b, k[17]);
    a, b := SixRoundsFast(t, k, 18, a, b);
    b := Xor2(b, k[24]);
    io[0], io[1], io[2], io[3] := b.l, b.r, a.l, a.r;
  }

  lemma FoldedLength(s: seq<Half>, k: seq<Half>)
    requires Folded(s, k)
    ensures |s| == 26 && |k| == 26
  {
  }

  /** `camellia_decrypt128`: for any table, gives back the block the encryption came from. */
  method Decrypt128(t: Tables, subkey: array<Half>, io: array<bv32>)
    requires subkey.Length == 26 && io.Length == 4
    modifies io
    ensures Block(io[..]) == FastDecrypt(t, subkey[..], Block(old(io[..])))
    ensures forall x :: Block(old(io[..])) == FastEncrypt(t, subkey[..], x) ==> Block(io[..]) == x
  {
    hide SixBack, FastEncrypt, Xor2, Fl, FlInv;
    var k := subkey[..];
    forall x | Block(io[..]) == FastEncrypt(t, k, x) ensures FastDecrypt(t, k, Block(io[..])) == x {
      DecryptInvertsEncrypt(t, k, x);
    }
    var a, b := Half(io[0], io[1]), Half(io[2], io[3]);
    a := Xor2(a, k[24]);
    a, b := SixRoundsBack(t, k, 18, a, b);
    a, b := Fl(a, k[17]), FlInv(b, k[16]);
    a, b := SixRoundsBack(t, k, 10, a, b);
    a, b := Fl(a, k[9]), FlInv(b, k[8]);
    a, b := SixRoundsBack(t, k, 2, a, b);
    b := Xor2(b, k[0]);
    io[0], io[1], io[2], io[3] := b.l, b.r, a.l, a.r;
  }
}
