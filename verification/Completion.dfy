/** Partial completion of a request: ending bytes over a chain of bios and their vectors. */
module Completion {

  /** A segment of a page. */
  datatype Vec = Vec(page: nat, offset: nat, len: nat)

  /** A bio: the vectors from `idx` on hold the `size` bytes that are still to be transferred. */
  datatype Bio = Bio(vecs: seq<Vec>, idx: nat, size: nat)

  /** One byte of memory. */
  type Byte = (nat, nat)

  const SECTOR := 512

  function Total(vs: seq<Vec>): (n: nat) {
    if vs == [] then 0 else vs[0].len + Total(vs[1..])
  }

  function VecData(v: Vec): (d: seq<Byte>)
    ensures |d| == v.len
  {
    seq(v.len, i requires 0 <= i => (v.page, v.offset + i))
  }

  function VecsData(vs: seq<Vec>): (d: seq<Byte>)
    ensures |d| == Total(vs)
  {
    if vs == [] then [] else VecData(vs[0]) + VecsData(vs[1..])
  }

  /** The bytes of a chain that have not been ended, in order. */
  function Data(bios: seq<Bio>): (d: seq<Byte>) {
    if bios == [] then [] else BioData(bios[0]) + Data(bios[1..])
  }

  function BioData(b: Bio): (d: seq<Byte>) {
    if b.idx <= |b.vecs| then VecsData(b.vecs[b.idx..]) else []
  }

  /** What `submit_bio` guarantees and completion keeps. */
  predicate ValidBio(b: Bio) {
    b.idx <= |b.vecs| && b.size == Total(b.vecs[b.idx..]) && b.size > 0
  }

  predicate Valid(bios: seq<Bio>) {
    forall i :: 0 <= i < |bios| ==> ValidBio(bios[i])
  }

  /** Ending `k` bytes from vector `i` on: the vector reached, and how far into it. */
  function Skip(vs: seq<Vec>, i: nat, k: nat): (r: (nat, nat))
    requires i <= |vs| && k < Total(vs[i..])
    ensures i <= r.0 < |vs| && r.1 <= vs[r.0].len && r.1 <= k
    decreases |vs| - i
  {
    if vs[i].len > k then (i, k)
    else
      assert vs[i..][1..] == vs[i + 1..];
      if k == vs[i].len then SkipEnd(vs, i); (i + 1, 0)
      else Skip(vs, i + 1, k - vs[i].len)
  }

  lemma SkipEnd(vs: seq<Vec>, i: nat)
    requires i < |vs| && vs[i].len < Total(vs[i..])
    ensures i + 1 < |vs|
  {
    assert vs[i..][1..] == vs[i + 1..];
  }

  function Trim(v: Vec, k: nat): (v': Vec)
    requires k <= v.len
  {
    Vec(v.page, v.offset + k, v.len - k)
  }

  /** End the first `k` bytes of a bio that has more. */
  function Advance(b: Bio, k: nat): (b': Bio)
    requires ValidBio(b) && k < b.size
  {
    if k == 0 then b
    else
      var (i, r) := Skip(b.vecs, b.idx, k);
      Bio(b.vecs[i := Trim(b.vecs[i], r)], i, b.size - k)
  }

  /** The chain after ending `k` bytes. */
  function Complete(bios: seq<Bio>, k: nat): (bios': seq<Bio>)
    requires Valid(bios)
  {
    if bios == [] then []
    else if k >= bios[0].size then Complete(bios[1..], k - bios[0].size)
    else [Advance(bios[0], k)] + bios[1..]
  }

  // ---- The live part of a bio ----

  function Live(b: Bio): (vs: seq<Vec>) {
    if b.idx <= |b.vecs| then b.vecs[b.idx..] else []
  }

  /** Ending `k` bytes seen from the live vectors alone. */
  function Eat(vs: seq<Vec>, k: nat): (vs': seq<Vec>)
    requires k < Total(vs)
  {
    if k == 0 then vs
    else if vs[0].len > k then [Trim(vs[0], k)] + vs[1..]
    else if vs[0].len == k then vs[1..]
    else Eat(vs[1..], k - vs[0].len)
  }

  lemma {:induction false} SkipIsEat(vs: seq<Vec>, i: nat, k: nat)
    requires i <= |vs| && 0 < k < Total(vs[i..])
    ensures var (j, r) := Skip(vs, i, k); vs[j := Trim(vs[j], r)][j..] == Eat(vs[i..], k)
    decreases |vs| - i
  {
    var (j, r) := Skip(vs, i, k);
    assert vs[i..][1..] == vs[i + 1..] && vs[i..][0] == vs[i];
    assert vs[j := Trim(vs[j], r)][j..] == [Trim(vs[j], r)] + vs[j + 1..];
    if vs[i].len == k {
      SkipEnd(vs, i);
      assert vs[j := Trim(vs[j], 0)] == vs;
    } else if vs[i].len < k {
      SkipIsEat(vs, i + 1, k - vs[i].len);
    }
  }

  lemma AdvanceIsEat(b: Bio, k: nat)
    requires ValidBio(b) && k < b.size
    ensures Live(Advance(b, k)) == Eat(Live(b), k) && |Advance(b, k).vecs| == |b.vecs|
    ensures Advance(b, k).idx == |b.vecs| - |Eat(Live(b), k)|
  {
    if k > 0 { SkipIsEat(b.vecs, b.idx, k); }
  }

  // ---- The bytes ended are exactly a prefix ----

  lemma {:induction false} EatData(vs: seq<Vec>, k: nat)
    requires k < Total(vs)
    ensures VecsData(Eat(vs, k)) == VecsData(vs)[k..] && Total(Eat(vs, k)) == Total(vs) - k
  {
    if 0 < k && vs[0].len > k {
      assert VecData(Trim(vs[0], k)) == VecData(vs[0])[k..];
    } else if 0 < k && vs[0].len < k {
      EatData(vs[1..], k - vs[0].len);
    }
  }

  lemma AdvanceData(b: Bio, k: nat)
    requires ValidBio(b) && k < b.size
    ensures ValidBio(Advance(b, k))
    ensures BioData(Advance(b, k)) == BioData(b)[k..] && |BioData(b)| == b.size
  {
    AdvanceIsEat(b, k);
    EatData(Live(b), k);
  }

  lemma ValidSize(b: Bio)
    requires ValidBio(b)
    ensures b.size > 0
  {
  }

  /** Conservation: what is left after ending `k` bytes is the request's data without its first
      `k` bytes, and nothing is left exactly when at least that many bytes were ended. */
  lemma {:induction false} CompleteData(bios: seq<Bio>, k: nat)
    requires Valid(bios)
    ensures Valid(Complete(bios, k))
    ensures Data(Complete(bios, k)) == if k <= |Data(bios)| then Data(bios)[k..] else []
    ensures Complete(bios, k) == [] <==> k >= |Data(bios)|
  {
    hide Advance, BioData, VecsData, Total, ValidBio, Complete;
    if bios == [] {
      CompleteNothing(k);
    } else {
      var b, rest := bios[0], bios[1..];
      CompleteStep(bios, k);
      ValidSize(b);
      AdvanceData(b, 0);
      if k >= b.size {
        CompleteData(rest, k - b.size);
        DropFirst(BioData(b), Data(rest), k);
      } else {
        AdvanceData(b, k);
        DataCons(Advance(b, k), rest);
        DropSome(BioData(b), Data(rest), k);
      }
    }
  }

  lemma DataCons(b: Bio, rest: seq<Bio>)
    ensures Data([b] + rest) == BioData(b) + Data(rest)
  {
    assert ([b] + rest)[1..] == rest;
  }

  lemma DropFirst(x: seq<Byte>, y: seq<Byte>, k: nat)
    requires |x| <= k
    ensures k <= |x + y| ==> (x + y)[k..] == y[k - |x|..]
  {
  }

  lemma DropSome(x: seq<Byte>, y: seq<Byte>, k: nat)
    requires k <= |x|
    ensures (x + y)[k..] == x[k..] + y
  {
  }

  // ---- Chunks do not matter ----

  lemma {:induction false} EatTwice(vs: seq<Vec>, k1: nat, k2: nat)
    requires k1 + k2 < Total(vs)
    ensures Total(Eat(vs, k1)) == Total(vs) - k1
    ensures Eat(Eat(vs, k1), k2) == Eat(vs, k1 + k2)
  {
    EatData(vs, k1);
    if 0 < k1 && 0 < k2 {
      if vs[0].len > k1 {
        assert Eat(vs, k1)[1..] == vs[1..];
      } else if vs[0].len < k1 {
        EatTwice(vs[1..], k1 - vs[0].len, k2);
      }
    }
  }

  /** Same bio for every reader: same index, same live vectors, same remaining size.  Vectors
      before the index have been ended and are not looked at again. */
  ghost predicate SameBio(a: Bio, b: Bio) {
    a.idx == b.idx && |a.vecs| == |b.vecs| && Live(a) == Live(b) && a.size == b.size
  }

  ghost predicate SameChain(xs: seq<Bio>, ys: seq<Bio>) {
    |xs| == |ys| && forall i :: 0 <= i < |xs| ==> SameBio(xs[i], ys[i])
  }

  lemma AdvanceTwice(b: Bio, k1: nat, k2: nat)
    requires ValidBio(b) && k1 + k2 < b.size
    ensures ValidBio(Advance(b, k1)) && k2 < Advance(b, k1).size
    ensures SameBio(Advance(Advance(b, k1), k2), Advance(b, k1 + k2))
  {
    hide Advance, Eat, BioData, VecsData;
    AdvanceData(b, k1);
    AdvanceSize(b, k1);
    AdvanceSize(Advance(b, k1), k2);
    AdvanceSize(b, k1 + k2);
    AdvanceIsEat(b, k1);
    AdvanceIsEat(Advance(b, k1), k2);
    AdvanceIsEat(b, k1 + k2);
    EatTwice(Live(b), k1, k2);
  }

  lemma SameChainSelf(bios: seq<Bio>)
    ensures SameChain(bios, bios)
  {
  }

  lemma AdvanceSize(b: Bio, k: nat)
    requires ValidBio(b) && k < b.size
    ensures Advance(b, k).size == b.size - k
  {
  }

  lemma CompleteStep(bios: seq<Bio>, k: nat)
    requires Valid(bios) && bios != []
    ensures Valid(bios[1..])
    ensures k >= bios[0].size ==> Complete(bios, k) == Complete(bios[1..], k - bios[0].size)
    ensures k < bios[0].size ==> Complete(bios, k) == [Advance(bios[0], k)] + bios[1..]
  {
  }

  lemma CompleteNothing(k: nat)
    ensures Complete([], k) == []
  {
  }

  lemma ChunksInOneBio(bios: seq<Bio>, k1: nat, k2: nat)
    requires Valid(bios) && bios != [] && k1 < bios[0].size
    ensures Valid(Complete(bios, k1))
    ensures SameChain(Complete(Complete(bios, k1), k2), Complete(bios, k1 + k2))
  {
    hide Advance, ValidBio, SameBio, Complete;
    var b1, bs1 := Advance(bios[0], k1), Complete(bios, k1);
    CompleteStep(bios, k1);
    CompleteStep(bios, k1 + k2);
    CompleteData(bios, k1);
    AdvanceSize(bios[0], k1);
    CompleteStep(bs1, k2);
    assert bs1[0] == b1 && bs1[1..] == bios[1..];
    if k1 + k2 < bios[0].size {
      AdvanceTwice(bios[0], k1, k2);
      SameChainSelf(bios[1..]);
    } else {
      SameChainSelf(Complete(bios, k1 + k2));
    }
  }

  /** Ending `k1` and then `k2` bytes leaves the same chain as ending them at once. */
  lemma {:induction false} ChunksDoNotMatter(bios: seq<Bio>, k1: nat, k2: nat)
    requires Valid(bios)
    ensures Valid(Complete(bios, k1))
    ensures SameChain(Complete(Complete(bios, k1), k2), Complete(bios, k1 + k2))
  {
    hide Advance, ValidBio, SameBio, Complete, Data;
    CompleteData(bios, k1);
    if bios == [] {
      CompleteNothing(k1);
      CompleteNothing(k2);
      CompleteNothing(k1 + k2);
    } else {
      if k1 >= bios[0].size {
        CompleteStep(bios, k1);
        CompleteStep(bios, k1 + k2);
        ChunksDoNotMatter(bios[1..], k1 - bios[0].size, k2);
      } else {
        ChunksInOneBio(bios, k1, k2);
      }
    }
  }

  /** The vectors before the index are the one thing that depends on the chunks: a vector that
      was ended in two parts stays trimmed.  The two bios are equal exactly when the first chunk
      stops at the edge of a vector or inside the vector where the second one stops too. */
  lemma {:induction false} EndedVectorsDiffer(vs: seq<Vec>, i: nat, k1: nat, k2: nat)
    requires i <= |vs| && k1 + k2 < Total(vs[i..]) && k1 > 0 && k2 > 0
    ensures var (j, r) := Skip(vs, i, k1);
      var vs1 := vs[j := Trim(vs[j], r)];
      && k2 < Total(vs1[j..])
      && var (j1, r1) := Skip(vs1, j, k2);
         var (m, s) := Skip(vs, i, k1 + k2);
         vs1[j1 := Trim(vs1[j1], r1)] == vs[m := Trim(vs[m], s)] <==> r == 0 || j == m
  {
    var (j, r) := Skip(vs, i, k1);
    var vs1 := vs[j := Trim(vs[j], r)];
    SkipIsEat(vs, i, k1);
    EatTwice(vs[i..], k1, k2);
    SkipIsEat(vs, i, k1 + k2);
    SkipIsEat(vs1, j, k2);
    var (j1, r1) := Skip(vs1, j, k2);
    var (m, s) := Skip(vs, i, k1 + k2);
    var a, b := vs1[j1 := Trim(vs1[j1], r1)], vs[m := Trim(vs[m], s)];
    assert |a[j1..]| == |b[m..]|;
    assert j1 == m;
    assert a[m..] == b[m..];
    hide Skip, Total, Eat;
    if j == m || r == 0 {
      SameEnds(a, b, m);
    } else {
      assert a[j] == Trim(vs[j], r) && b[j] == vs[j];
    }
  }

  lemma SameEnds(a: seq<Vec>, b: seq<Vec>, m: nat)
    requires |a| == |b| && m <= |a| && a[m..] == b[m..] && forall x :: 0 <= x < m ==> a[x] == b[x]
    ensures a == b
  {
    assert a == a[..m] + a[m..] && b == b[..m] + b[m..];
  }

  // ---- Sectors ----

  /** Whole sectors add up over two chunks exactly when the odd bytes do not make up a sector. */
  lemma SectorChunks(k1: nat, k2: nat)
    ensures k1 / SECTOR + k2 / SECTOR == (k1 + k2) / SECTOR <==> k1 % SECTOR + k2 % SECTOR < SECTOR
  {
  }

  lemma FirstVecInData(bios: seq<Bio>)
    requires Valid(bios) && bios != []
    ensures bios[0].idx < |bios[0].vecs| && bios[0].vecs[bios[0].idx].len <= |Data(bios)|
  {
    AdvanceData(bios[0], 0);
  }

  /** Where the loop over vectors stands in a bio: `done` bytes of it, in whole vectors, are
      behind, and `nr` bytes are still to be ended from vector `idx + n` on. */
  ghost predicate Inside(b: Bio, n: nat, done: nat, nr: nat) {
    && ValidBio(b) && b.idx + n <= |b.vecs| && done + nr < b.size
    && Total(b.vecs[b.idx + n..]) == b.size - done
    && (nr > 0 ==> Skip(b.vecs, b.idx, done + nr) == Skip(b.vecs, b.idx + n, nr))
    && (nr == 0 && done > 0 ==> Skip(b.vecs, b.idx, done) == (b.idx + n, 0))
  }

  lemma InsideStep(b: Bio, n: nat, done: nat, nr: nat)
    requires Inside(b, n, done, nr) && (nr == 0 ==> done == 0)
    ensures b.idx + n < |b.vecs|
    ensures var len := b.vecs[b.idx + n].len;
      if len <= nr then Inside(b, n + 1, done + len, nr - len)
      else nr > 0 ==> Skip(b.vecs, b.idx, done + nr) == (b.idx + n, nr)
  {
    assert b.vecs[b.idx + n..][1..] == b.vecs[b.idx + n + 1..];
  }

  lemma InsideBounds(b: Bio, n: nat, done: nat, nr: nat)
    requires Inside(b, n, done, nr)
    ensures done + nr < b.size && b.idx + n <= |b.vecs|
    ensures nr == 0 && done > 0 ==> Skip(b.vecs, b.idx, done) == (b.idx + n, 0)
  {
  }

  lemma AdvanceBySkip(b: Bio, i: nat, r: nat, k: nat)
    requires ValidBio(b) && 0 < k < b.size && Skip(b.vecs, b.idx, k) == (i, r)
    ensures i < |b.vecs| && r <= b.vecs[i].len
    ensures Advance(b, k) == Bio(b.vecs[i := Trim(b.vecs[i], r)], i, b.size - k)
  {
  }

  lemma InsideStart(b: Bio, nr: nat)
    requires ValidBio(b) && nr < b.size
    ensures Inside(b, 0, 0, nr)
  {
  }

  /** The loop of `__end_that_request_first`: whole bios, then whole vectors, then part of one. */
  method EndBytes(chain: seq<Bio>, bytes: nat) returns (bios: seq<Bio>, total: nat)
    requires Valid(chain)
    ensures bios == Complete(chain, bytes)
    ensures bios != [] ==> total == bytes
  {
    hide ValidBio, Inside, Advance, Skip, Complete;
    bios, total := chain, 0;
    var nr: nat, done: nat, n: nat := bytes, 0, 0;
    while bios != []
      invariant Valid(bios) && nr + total == bytes
      invariant n > 0 ==> bios != [] && nr > 0 && Inside(bios[0], n, done, nr)
      invariant n == 0 ==> done == 0
      invariant Complete(bios, done + nr) == Complete(chain, bytes)
      decreases |bios|, if bios != [] then |bios[0].vecs| - bios[0].idx - n else 0
    {
      var b := bios[0];
      CompleteStep(bios, done + nr);
      if n > 0 { InsideBounds(b, n, done, nr); }
      var len: nat;
      if nr >= b.size {
        bios, len := bios[1..], b.size;
      } else {
        if n == 0 { InsideStart(b, nr); }
        InsideStep(b, n, done, nr);
        InsideBounds(b, n, done, nr);
        len := b.vecs[b.idx + n].len;
        if len > nr {
          done, total := done + nr, total + nr;
          if done > 0 { AdvanceBySkip(b, b.idx + n, nr, done); }
          break;
        }
        n, done := n + 1, done + len;
        InsideBounds(b, n, done, nr - len);
      }
      total, nr := total + len, nr - len;
      if bios != [] && nr == 0 {
        if done > 0 { AdvanceBySkip(b, b.idx + n, 0, done); }
        ValidSize(bios[0]);
        CompleteStep(bios, done);
        break;
      }
    }
    if bios == [] {
      CompleteNothing(done + nr);
    } else if done > 0 {
      var b := bios[0];
      var i := b.idx + n;
      bios := [Bio(b.vecs[i := Trim(b.vecs[i], nr)], i, b.size - done)] + bios[1..];
    } else {
      AdvanceNothing(bios[0]);
      assert bios == [bios[0]] + bios[1..];
    }
  }

  lemma AdvanceNothing(b: Bio)
    requires ValidBio(b)
    ensures 0 < b.size && Advance(b, 0) == b
  {
  }

  /** The whole sectors of the first vector that is left. */
  ghost function FirstSectors(bios: seq<Bio>): (n: nat)
    requires Valid(bios) && bios != []
  {
    FirstVecInData(bios);
    bios[0].vecs[bios[0].idx].len / SECTOR
  }

  /** A file-system request in the driver's hands. */
  class Request {
    var bios: seq<Bio>
    var hardSector: nat
    var hardSectors: int
    var sector: nat
    var sectors: int
    var currentSectors: nat
    var botched: bool

    /** The counts agree with the data that is left, and the submission pointers with them. */
    ghost predicate SectorsAgree()
      reads this
    {
      && Valid(bios) && hardSectors * SECTOR == |Data(bios)| && sector == hardSector && sectors == hardSectors
      && (bios != [] ==> currentSectors == FirstSectors(bios))
    }

    /** `__end_that_request_first` */
    method End(bytes: nat) returns (more: bool)
      requires Valid(bios)
      modifies this
      ensures bios == Complete(old(bios), bytes) && Valid(bios)
      ensures more <==> bytes < |Data(old(bios))|
      ensures more ==> hardSector == old(hardSector) + bytes / SECTOR
      ensures more ==> hardSectors == old(hardSectors) - bytes / SECTOR
      ensures !more ==> hardSector == old(hardSector) && hardSectors == old(hardSectors)
      ensures old(SectorsAgree()) && more && bytes % SECTOR == 0 ==> SectorsAgree() && botched == old(botched)
      ensures more ==> bios != [] && sector >= old(sector) && sectors >= currentSectors
      ensures more && old(sectors) >= hardSectors && old(sector) <= hardSector ==>
                sector == hardSector && currentSectors == FirstSectors(bios)
      ensures !more ==> sector == old(sector) && sectors == old(sectors) && botched == old(botched)
    {
      hide Complete, Data, ValidBio;
      CompleteData(bios, bytes);
      var total;
      bios, total := EndBytes(bios, bytes);
      if bios == [] { return false; }
      more := true;
      Recalc(total / SECTOR);
    }

    /** `blk_recalc_rq_sectors` */
    method Recalc(n: nat)
      requires Valid(bios) && bios != []
      modifies this
      ensures bios == old(bios) && hardSector == old(hardSector) + n && hardSectors == old(hardSectors) - n
      ensures old(sector == hardSector && sectors == hardSectors) && hardSectors * SECTOR == |Data(bios)| ==>
                SectorsAgree() && botched == old(botched)
      ensures var ahead := old(sector) > hardSector || old(sectors) < hardSectors;
        && sector == (if ahead then old(sector) else hardSector)
        && currentSectors == (if ahead then old(currentSectors) else FirstSectors(bios))
        && var left := if ahead then old(sectors) else hardSectors;
           && (left >= currentSectors ==> sectors == left && botched == old(botched))
           && (left < currentSectors ==> sectors == currentSectors && botched)
    {
      hardSector, hardSectors := hardSector + n, hardSectors - n;
      FirstVecInData(bios);
      if sectors >= hardSectors && sector <= hardSector {
        sector, sectors := hardSector, hardSectors;
        currentSectors := bios[0].vecs[bios[0].idx].len / SECTOR;
      }
      if sectors < currentSectors {
        botched := true;
        sectors := currentSectors;
      }
    }
  }

  // ---- What does depend on the chunks ----

  const TWO_PAGES := Bio([Vec(0, 0, 1024), Vec(1, 0, 1024)], 0, 2048)

  lemma TwoPages()
    ensures Valid([TWO_PAGES]) && |Data([TWO_PAGES])| == 2048
  {
    var b := TWO_PAGES;
    assert b.vecs[1..] == [Vec(1, 0, 1024)] && b.vecs[1..][1..] == [];
    assert b.vecs[b.idx..] == b.vecs;
    AdvanceData(b, 0);
    DataCons(b, []);
  }

  /** Ended in two chunks, the first vector of this bio stays trimmed. */
  lemma TrimmedVectorStays()
    ensures var b := TWO_PAGES;
            && ValidBio(b) && ValidBio(Advance(b, 512)) && Advance(b, 512).size == 1536
            && Advance(Advance(b, 512), 1024).vecs[0] == Vec(0, 512, 512)
            && Advance(b, 1536).vecs[0] == Vec(0, 0, 1024)
  {
    var b := TWO_PAGES;
    TwoPages();
    assert b.vecs[0..] == b.vecs && b.vecs[1..] == [Vec(1, 0, 1024)];
    AdvanceData(b, 512);
    var c := Advance(b, 512);
    assert c == Bio([Vec(0, 512, 512), Vec(1, 0, 1024)], 0, 1536);
    assert c.vecs[0..] == c.vecs && c.vecs[1..] == [Vec(1, 0, 1024)];
  }

  /** The same request ended in two chunks and in one: the bios agree, and the sector counts do exactly
      when the odd bytes of the chunks do not make up a sector. */
  method EndInTwo(r: Request, s: Request, k1: nat, k2: nat)
    requires r != s && Valid(r.bios) && s.bios == r.bios && k1 + k2 < |Data(r.bios)|
    requires s.hardSector == r.hardSector && s.hardSectors == r.hardSectors
    modifies r, s
    ensures SameChain(r.bios, s.bios)
    ensures r.hardSector == s.hardSector <==> k1 % SECTOR + k2 % SECTOR < SECTOR
    ensures r.hardSectors == s.hardSectors <==> k1 % SECTOR + k2 % SECTOR < SECTOR
    ensures s.hardSector == old(s.hardSector) + (k1 + k2) / SECTOR
    ensures r.hardSector == old(r.hardSector) + k1 / SECTOR + k2 / SECTOR
  {
    hide Complete, Data, ValidBio, SameBio;
    ghost var chain := r.bios;
    CompleteData(chain, k1);
    ChunksDoNotMatter(chain, k1, k2);
    SectorChunks(k1, k2);
    var more := r.End(k1);
    more := r.End(k2);
    more := s.End(k1 + k2);
  }

  /** Two half sectors ended one by one count for no sector, ended at once for one. */
  method HalfSectorsLost() returns (inTwo: Request, atOnce: Request)
    ensures inTwo.hardSector == 0 && atOnce.hardSector == 1
  {
    inTwo, atOnce := new Request, new Request;
    inTwo.bios, inTwo.hardSector, inTwo.hardSectors := [TWO_PAGES], 0, 4;
    atOnce.bios, atOnce.hardSector, atOnce.hardSectors := [TWO_PAGES], 0, 4;
    TwoPages();
    EndInTwo(inTwo, atOnce, 256, 256);
  }
}
