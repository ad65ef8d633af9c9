/** CBC over scatterlists: the walk hands out whole stretches of one page, or copies where alignment
    or fragmentation forbid it, and the CBC loops run on what it hands out. */
module CbcWalk {

  import opened Scatterwalk
  import opened Cbc

  /** A request as the caller makes it: cipher, direction, source and destination lists, the
      alignment the cipher wants, the memory, the initial value and the number of bytes. */
  datatype Job = Job(c: Cipher, encrypt: bool, inl: seq<Entry>, outl: seq<Entry>, align: nat,
                     m0: seq<Byte>, iv0: seq<Byte>, total: nat)

  /** Source and destination may be the same bytes or different ones: a byte that is read at one
      position is not written at another. */
  ghost predicate IsJob(j: Job) {
    && IsCipher(j.c) && |j.iv0| == j.c.bs && j.align > 0
    && IsList(j.inl, |j.m0|) && IsList(j.outl, |j.m0|)
    && InMemory(j.m0, Flat(j.inl)) && InMemory(j.m0, Flat(j.outl))
    && j.total <= |Flat(j.inl)| && j.total <= |Flat(j.outl)|
    && Distinct(Flat(j.outl))
    && forall p, q :: 0 <= p < j.total && 0 <= q < j.total && Flat(j.inl)[p] == Flat(j.outl)[q] ==> p == q
  }

  /** The request's bytes, flattened. */
  ghost function Data(j: Job): (d: seq<Byte>)
    requires IsJob(j)
    ensures |d| == j.total
  {
    Gather(j.m0, Flat(j.inl)[..j.total])
  }

  /** CBC of the whole blocks of the flattened bytes. */
  ghost function Out(j: Job): (y: seq<Byte>)
    requires IsJob(j)
    ensures |y| == Whole(j.c.bs, j.total)
  {
    var x := Data(j)[..Whole(j.c.bs, j.total)];
    if j.encrypt then Enc(j.c, j.iv0, x) else Dec(j.c, j.iv0, x)
  }

  /** The chaining value after `p` bytes. */
  ghost function IvAt(j: Job, p: nat): (v: seq<Byte>)
    requires IsJob(j) && p <= |Out(j)|
    ensures |v| == j.c.bs
  {
    LastIv(j.c, j.iv0, if j.encrypt then Out(j)[..p] else Data(j)[..p])
  }

  datatype Mode = Fast | Copy | Slow

  /** `struct blkcipher_walk`; `page` is the bounce page, `buffer` the two spots of the slow path,
      destination first. */
  datatype Walk = Walk(mem: seq<Byte>, win: Cursor, wout: Cursor, total: nat, nbytes: nat, iv: seq<Byte>,
                       mode: Mode, page: seq<Byte>, buffer: seq<Byte>)

  /** Memory with the first `p` bytes of the output in place and nothing else touched. */
  ghost predicate Written(j: Job, m: seq<Byte>, p: nat)
    requires IsJob(j) && p <= |Out(j)|
  {
    && InMemory(j.m0, Flat(j.outl)[..p])
    && Scattered(j.m0, m, Flat(j.outl)[..p], Out(j)[..p])
  }

  /** Between steps, with `p` bytes done. */
  ghost predicate Pending(j: Job, w: Walk, p: nat) {
    && IsJob(j) && p <= |Out(j)| && IsWhole(j.c.bs, p)
    && w.total == j.total - p
    && At(j.inl, w.win, p) && At(j.outl, w.wout, p)
    && w.iv == IvAt(j, p)
    && Written(j, w.mem, p)
  }

  /** A step has been handed out: at least one block, readable where the mode says. */
  ghost predicate Ready(j: Job, w: Walk, p: nat) {
    && IsJob(j) && p + w.nbytes <= j.total && 0 < j.c.bs <= w.nbytes && |w.mem| == |j.m0|
    && InMemory(w.mem, Flat(j.inl)[p..p + w.nbytes])
    && match w.mode
       case Fast => Pending(j, w, p) && w.nbytes <= PageLen(j.inl, w.win) && w.nbytes <= PageLen(j.outl, w.wout)
       case Copy =>
         && Pending(j, w, p) && w.nbytes <= PageLen(j.inl, w.win) && w.nbytes <= PageLen(j.outl, w.wout)
         && w.page == Gather(w.mem, Flat(j.inl)[p..p + w.nbytes])
       case Slow =>
         && w.nbytes == j.c.bs && |w.buffer| == 2 * j.c.bs
         && w.buffer[j.c.bs..] == Gather(w.mem, Flat(j.inl)[p..p + w.nbytes])
         && At(j.inl, w.win, p + j.c.bs)
         && exists win :: Pending(j, w.(win := win), p)
  }

  // ---- Facts about a request ----

  lemma {:induction false} Room(j: Job, p: nat)
    requires IsJob(j) && p <= |Out(j)| && IsWhole(j.c.bs, p)
    ensures j.c.bs > 0 && |Out(j)| <= j.total
    ensures j.total - p < j.c.bs ==> p == |Out(j)|
    ensures forall n :: j.c.bs <= n <= j.total - p ==> p + Whole(j.c.bs, n) <= |Out(j)|
  {
    forall n: nat | j.c.bs <= n <= j.total - p ensures p + Whole(j.c.bs, n) <= |Out(j)| {
      WholeSum(j.c.bs, p, Whole(j.c.bs, n));
      WholeMost(j.c.bs, j.total, p + Whole(j.c.bs, n));
    }
    if j.total - p < j.c.bs { WholeOnce(j.c.bs, j.total, p); }
  }

  lemma {:induction false} WholeMost(bs: nat, n: nat, k: nat)
    requires IsWhole(bs, k) && k <= n
    ensures k <= Whole(bs, n)
    decreases k
  {
    if k > 0 { WholeMost(bs, n - bs, k - bs); }
  }

  /** What has been written has not touched what is still to be read. */
  lemma {:induction false} SourceIntact(j: Job, m: seq<Byte>, p: nat, n: nat)
    requires IsJob(j) && p <= |Out(j)| && p + n <= j.total && Written(j, m, p)
    ensures InMemory(m, Flat(j.inl)) && InMemory(m, Flat(j.inl)[p..p + n])
    ensures Gather(m, Flat(j.inl)[p..p + n]) == Data(j)[p..p + n]
  {
    hide Flat, Out, Enc, Dec;
    var ai := Flat(j.inl);
    var s := ai[p..p + n];
    assert InMemory(m, s);
    var d := Data(j)[p..p + n];
    forall i | 0 <= i < n ensures Gather(m, s)[i] == d[i] {
      NotYetWritten(j, p, p + i);
      assert s[i] == ai[p + i];
    }
    assert Gather(m, s) == d;
  }

  lemma NotYetWritten(j: Job, p: nat, q: nat)
    requires IsJob(j) && p <= q < j.total
    ensures Flat(j.inl)[q] !in Flat(j.outl)[..p]
  {
    hide Flat;
    var ao := Flat(j.outl);
    forall r | 0 <= r < p ensures ao[..p][r] != Flat(j.inl)[q] {
      assert ao[..p][r] == ao[r];
    }
  }

  /** The next chunk of the output, from the chaining value so far. */
  lemma {:induction false} ChunkOut(j: Job, p: nat, k: nat)
    requires IsJob(j) && IsWhole(j.c.bs, p) && IsWhole(j.c.bs, k) && p + k <= |Out(j)|
    ensures var x := Data(j)[p..p + k];
            var y := if j.encrypt then Enc(j.c, IvAt(j, p), x) else Dec(j.c, IvAt(j, p), x);
            && Out(j)[p..p + k] == y
            && IvAt(j, p + k) == LastIv(j.c, IvAt(j, p), if j.encrypt then y else x)
  {
    hide Flat, Enc, Dec, IsCipher, Gather, LastIv;
    var n := Whole(j.c.bs, j.total);
    var d := Data(j)[..n];
    HasBlocks(j.c);
    assert Data(j)[..p] == d[..p] && Data(j)[..p + k] == d[..p + k] && Data(j)[p..p + k] == d[p..p + k];
    if j.encrypt { EncChunk(j.c, j.iv0, d, p, k); } else { DecChunk(j.c, j.iv0, d, p, k); }
  }

  lemma {:induction false} EncCut(c: Cipher, iv: seq<Byte>, d: seq<Byte>, n: nat)
    requires IsCipher(c) && |iv| == c.bs && IsWhole(c.bs, |d|) && IsWhole(c.bs, n) && n <= |d|
    ensures IsWhole(c.bs, |d| - n)
    ensures var e := Enc(c, iv, d);
            e[..n] == Enc(c, iv, d[..n]) && e[n..] == Enc(c, LastIv(c, iv, e[..n]), d[n..])
  {
    hide Enc, IsCipher, IsWhole;
    Rest(c.bs, |d|, n);
    assert d == d[..n] + d[n..];
    EncAppend(c, iv, d[..n], d[n..]);
  }

  lemma {:induction false} DecCut(c: Cipher, iv: seq<Byte>, d: seq<Byte>, n: nat)
    requires IsCipher(c) && |iv| == c.bs && IsWhole(c.bs, |d|) && IsWhole(c.bs, n) && n <= |d|
    ensures IsWhole(c.bs, |d| - n)
    ensures var e := Dec(c, iv, d);
            e[..n] == Dec(c, iv, d[..n]) && e[n..] == Dec(c, LastIv(c, iv, d[..n]), d[n..])
  {
    hide Dec, IsCipher, IsWhole;
    Rest(c.bs, |d|, n);
    assert d == d[..n] + d[n..];
    DecAppend(c, iv, d[..n], d[n..]);
  }

  lemma Middle(e: seq<Byte>, p: nat, k: nat)
    requires p + k <= |e|
    ensures e[p..p + k] == e[p..][..k] && e[..p + k] == e[..p] + e[p..p + k]
  {
  }

  lemma {:induction false} EncChunk(c: Cipher, iv: seq<Byte>, d: seq<Byte>, p: nat, k: nat)
    requires IsCipher(c) && |iv| == c.bs && IsWhole(c.bs, |d|) && IsWhole(c.bs, p) && IsWhole(c.bs, k) && p + k <= |d|
    ensures var e := Enc(c, iv, d);
            var v := LastIv(c, iv, e[..p]);
            var y := Enc(c, v, d[p..p + k]);
            && e[p..p + k] == y
            && LastIv(c, iv, e[..p + k]) == LastIv(c, v, y)
  {
    hide Enc, IsCipher, IsWhole;
    var e := Enc(c, iv, d);
    EncCut(c, iv, d, p);
    EncCut(c, LastIv(c, iv, e[..p]), d[p..], k);
    Middle(e, p, k);
    Middle(d, p, k);
    HasBlocks(c);
    LastChain(c, iv, e[..p], e[p..p + k]);
  }

  lemma {:induction false} DecChunk(c: Cipher, iv: seq<Byte>, d: seq<Byte>, p: nat, k: nat)
    requires IsCipher(c) && |iv| == c.bs && IsWhole(c.bs, |d|) && IsWhole(c.bs, p) && IsWhole(c.bs, k) && p + k <= |d|
    ensures var v := LastIv(c, iv, d[..p]);
            && Dec(c, iv, d)[p..p + k] == Dec(c, v, d[p..p + k])
            && LastIv(c, iv, d[..p + k]) == LastIv(c, v, d[p..p + k])
  {
    hide Dec, IsCipher, IsWhole;
    var e := Dec(c, iv, d);
    DecCut(c, iv, d, p);
    DecCut(c, LastIv(c, iv, d[..p]), d[p..], k);
    Middle(e, p, k);
    Middle(d, p, k);
    HasBlocks(c);
    LastChain(c, iv, d[..p], d[p..p + k]);
  }

  lemma {:induction false} Rest(bs: nat, n: nat, k: nat)
    requires IsWhole(bs, n) && IsWhole(bs, k) && k <= n
    ensures IsWhole(bs, n - k)
    decreases k
  {
    if k > 0 { Rest(bs, n - bs, k - bs); }
  }

  lemma {:induction false} LastChain(c: Cipher, iv: seq<Byte>, y: seq<Byte>, z: seq<Byte>)
    requires |iv| == c.bs && c.bs > 0 && IsWhole(c.bs, |y|) && IsWhole(c.bs, |z|)
    ensures LastIv(c, iv, y + z) == LastIv(c, LastIv(c, iv, y), z)
  {
    hide IsWhole;
    WholeBlock(c.bs, |y|);
    WholeBlock(c.bs, |z|);
    if z == [] { assert y + z == y; }
    if y == [] { assert y + z == z; }
    if z != [] { assert (y + z)[|y + z| - c.bs..] == z[|z| - c.bs..]; }
  }

  /** Writing the next chunk in place extends what is written. */
  lemma {:induction false} WriteMore(j: Job, m: seq<Byte>, m': seq<Byte>, p: nat, k: nat)
    requires IsJob(j) && p + k <= |Out(j)| && Written(j, m, p) && |m| == |j.m0|
    requires InMemory(m, Flat(j.outl)[p..p + k]) && Scattered(m, m', Flat(j.outl)[p..p + k], Out(j)[p..p + k])
    ensures Written(j, m', p + k)
  {
    hide Flat, Out, Scattered;
    var a := Flat(j.outl);
    var b, d := a[..p], a[p..p + k];
    assert a[..p + k] == b + d && Out(j)[..p + k] == Out(j)[..p] + Out(j)[p..p + k];
    DistinctSlice(a, 0, p + k);
    assert a[0..p + k] == a[..p + k];
    ScatterAppend(j.m0, m, m', b, d, Out(j)[..p], Out(j)[p..p + k]);
  }

  /** The chunk the cipher makes of `x` from chaining value `v`, and the chaining value after it. */
  ghost function Chunk(j: Job, v: seq<Byte>, x: seq<Byte>): (y: seq<Byte>)
    requires IsCipher(j.c) && |v| == j.c.bs && IsWhole(j.c.bs, |x|)
    ensures |y| == |x|
  {
    if j.encrypt then Enc(j.c, v, x) else Dec(j.c, v, x)
  }

  ghost function ChunkIv(j: Job, v: seq<Byte>, x: seq<Byte>): (v': seq<Byte>)
    requires IsCipher(j.c) && |v| == j.c.bs && IsWhole(j.c.bs, |x|)
    ensures |v'| == j.c.bs
  {
    LastIv(j.c, v, if j.encrypt then Enc(j.c, v, x) else x)
  }

  /** The loop for source and destination at the same place. */
  method InPlace(j: Job, m: seq<Byte>, at: nat, nbytes: nat, iv: seq<Byte>)
    returns (m': seq<Byte>, iv': seq<Byte>, left: nat)
    requires IsCipher(j.c) && |iv| == j.c.bs && at + nbytes <= |m| && nbytes >= j.c.bs
    ensures left == nbytes - Whole(j.c.bs, nbytes)
    ensures var x := m[at..at + Whole(j.c.bs, nbytes)]; m' == Put(m, at, Chunk(j, iv, x)) && iv' == ChunkIv(j, iv, x)
  {
    hide Enc, Dec, Put, IsCipher, IsWhole, Whole;
    if j.encrypt {
      m', iv', left := EncryptInplace(j.c, m, at, nbytes, iv);
    } else {
      m', iv', left := DecryptInplace(j.c, m, at, nbytes, iv);
    }
  }

  /** The loop for source and destination apart. */
  method Apart(j: Job, m: seq<Byte>, src: nat, dst: nat, nbytes: nat, iv: seq<Byte>)
    returns (m': seq<Byte>, iv': seq<Byte>, left: nat)
    requires IsCipher(j.c) && |iv| == j.c.bs && src + nbytes <= |m| && dst + nbytes <= |m|
    requires src + nbytes <= dst || dst + nbytes <= src
    ensures left == nbytes - Whole(j.c.bs, nbytes)
    ensures var x := m[src..src + Whole(j.c.bs, nbytes)]; m' == Put(m, dst, Chunk(j, iv, x)) && iv' == ChunkIv(j, iv, x)
  {
    hide Enc, Dec, Put, IsCipher, IsWhole, Whole;
    if j.encrypt {
      m', iv', left := EncryptSegment(j.c, m, src, dst, nbytes, iv);
    } else {
      m', iv', left := DecryptSegment(j.c, m, src, dst, nbytes, iv);
    }
  }

  // ---- The walk ----

  lemma ListsBegin(j: Job)
    requires IsJob(j) && j.total > 0
    ensures |j.inl| > 0 && |j.outl| > 0
  {
  }

  lemma FirstBytes(j: Job)
    requires IsJob(j) && j.total > 0
    ensures |j.inl| > 0 && |j.outl| > 0
    ensures At(j.inl, Cursor(0, j.inl[0].addr), 0) && At(j.outl, Cursor(0, j.outl[0].addr), 0)
    ensures Written(j, j.m0, 0) && IvAt(j, 0) == j.iv0
  {
    ListsBegin(j);
    hide Out, Enc, Dec;
    HasBlocks(j.c);
    assert Flat(j.outl)[..0] == [] && Out(j)[..0] == [] && Data(j)[..0] == [];
  }

  lemma PendingFacts(j: Job, w: Walk, p: nat)
    requires Pending(j, w, p)
    ensures j.c.bs > 0 && |w.mem| == |j.m0|
    ensures InMemory(w.mem, Flat(j.inl)) && InMemory(w.mem, Flat(j.outl))
    ensures w.win.i < |j.inl| && w.win.addr <= j.inl[w.win.i].addr + j.inl[w.win.i].len <= |j.m0|
    ensures w.wout.i < |j.outl| && w.wout.addr <= j.outl[w.wout.i].addr + j.outl[w.wout.i].len <= |j.m0|
  {
    hide Flat, Out, IvAt, Start;
  }

  lemma GatherRange(m: seq<Byte>, a: seq<nat>, o: nat, n: nat)
    requires o + n <= |m| && a == Range(o, n)
    ensures InMemory(m, a) && Gather(m, a) == m[o..o + n]
  {
  }

  lemma PageFits(l: seq<Entry>, w: Cursor, n: nat)
    requires w.i < |l| && w.addr <= l[w.i].addr + l[w.i].len && n <= PageLen(l, w)
    ensures w.addr + n <= l[w.i].addr + l[w.i].len
  {
  }

  /** The chunk has been computed, and is where the mode says. */
  ghost predicate Processed(j: Job, w: Walk, p: nat, k: nat) {
    && IsJob(j) && 0 < j.c.bs <= w.nbytes && k == Whole(j.c.bs, w.nbytes) && p + k <= |Out(j)|
    && IsWhole(j.c.bs, p) && w.total == j.total - p && w.iv == IvAt(j, p + k) && |w.mem| == |j.m0|
    && At(j.outl, w.wout, p)
    && match w.mode
       case Fast =>
         && Written(j, w.mem, p + k)
         && At(j.inl, w.win, p) && w.nbytes <= PageLen(j.inl, w.win) && w.nbytes <= PageLen(j.outl, w.wout)
       case Copy =>
         && Written(j, w.mem, p) && |w.page| == w.nbytes && w.page[..k] == Out(j)[p..p + k]
         && At(j.inl, w.win, p) && w.nbytes <= PageLen(j.inl, w.win) && w.nbytes <= PageLen(j.outl, w.wout)
       case Slow =>
         && w.nbytes == j.c.bs && Written(j, w.mem, p) && |w.buffer| == 2 * j.c.bs &&
            w.buffer[..j.c.bs] == Out(j)[p..p + k]
         && At(j.inl, w.win, p + j.c.bs)
  }

  /** The walk is over: all whole blocks are written, and the chaining value is the last one. */
  ghost predicate Over(j: Job, w: Walk) {
    IsJob(j) && w.nbytes == 0 && Written(j, w.mem, |Out(j)|) && w.iv == IvAt(j, |Out(j)|)
  }

  lemma SlowReady(j: Job, was: Walk, w: Walk, p: nat)
    requires Pending(j, was, p) && was.total >= j.c.bs
    requires w.mode == Slow && w.nbytes == j.c.bs && |w.buffer| == 2 * j.c.bs && At(j.inl, w.win, p + j.c.bs)
    requires w.mem == was.mem && w.total == was.total && w.iv == was.iv && w.wout == was.wout
    requires InMemory(w.mem, Flat(j.inl)[p..p + j.c.bs]) &&
        w.buffer[j.c.bs..] == Gather(w.mem, Flat(j.inl)[p..p + j.c.bs])
    ensures Ready(j, w, p)
  {
    hide Flat, Out, IvAt, At, Gather, Written;
    PendingFacts(j, was, p);
    assert Pending(j, w.(win := was.win), p);
  }

  lemma PageReady(j: Job, w: Walk, p: nat)
    requires Pending(j, w, p) && j.c.bs <= w.nbytes <= w.total
    requires At(j.inl, w.win, p) && At(j.outl, w.wout, p)
    requires w.nbytes <= PageLen(j.inl, w.win) && w.nbytes <= PageLen(j.outl, w.wout)
    ensures w.win.addr + w.nbytes <= |w.mem| && Ready(j, w.(mode := Fast), p)
    ensures Ready(j, w.(mode := Copy, page := w.mem[w.win.addr..w.win.addr + w.nbytes]), p)
  {
    hide Flat, Out, IvAt, At, Gather, Written, PageLen, IsWhole;
    PendingFacts(j, w, p);
    PageLenFlat(j.inl, w.win, p, w.nbytes);
    GatherRange(w.mem, Flat(j.inl)[p..p + w.nbytes], w.win.addr, w.nbytes);
    assert Pending(j, w.(mode := Fast), p);
    assert Pending(j, w.(mode := Copy, page := w.mem[w.win.addr..w.win.addr + w.nbytes]), p);
  }

  /** What a chunk of the source turns into is the next chunk of the output. */
  lemma {:induction false} NextChunk(j: Job, w: Walk, p: nat, n: nat)
    requires Pending(j, w, p) && j.c.bs <= n <= w.total
    ensures var k := Whole(j.c.bs, n);
            && p + n <= j.total && p + k <= |Out(j)| && IsWhole(j.c.bs, k)
            && InMemory(w.mem, Flat(j.inl)[p..p + k])
            && var x := Gather(w.mem, Flat(j.inl)[p..p + k]);
            && Out(j)[p..p + k] == Chunk(j, w.iv, x) && IvAt(j, p + k) == ChunkIv(j, w.iv, x)
  {
    hide Flat, Enc, Dec, At, Gather, Written, Data, Whole, IsWhole;
    HasBlocks(j.c);
    WholeFacts(j.c.bs, n);
    var k := Whole(j.c.bs, n);
    Room(j, p);
    SourceIntact(j, w.mem, p, k);
    ChunkOut(j, p, k);
  }

  /** On the fast way, source and destination are the page stretches at the cursors; if they are not
      the same bytes they do not overlap. */
  lemma {:induction false} Stretches(j: Job, w: Walk, p: nat, k: nat)
    requires Pending(j, w, p) && p + k <= j.total && k <= PageLen(j.inl, w.win) && k <= PageLen(j.outl, w.wout)
    ensures w.win.addr + k <= |w.mem| && w.wout.addr + k <= |w.mem|
    ensures InMemory(w.mem, Flat(j.inl)[p..p + k]) &&
        Gather(w.mem, Flat(j.inl)[p..p + k]) == w.mem[w.win.addr..w.win.addr + k]
    ensures Flat(j.outl)[p..p + k] == Range(w.wout.addr, k)
    ensures w.win.addr == w.wout.addr || w.win.addr + k <= w.wout.addr || w.wout.addr + k <= w.win.addr
  {
    hide Flat, Out, IvAt, Written, PageLen;
    PendingFacts(j, w, p);
    PageFits(j.inl, w.win, k);
    PageFits(j.outl, w.wout, k);
    PageLenFlat(j.inl, w.win, p, k);
    PageLenFlat(j.outl, w.wout, p, k);
    GatherRange(w.mem, Flat(j.inl)[p..p + k], w.win.addr, k);
    NoPartialOverlap(j, w.win.addr, w.wout.addr, p, k);
  }

  lemma {:induction false} NoPartialOverlap(j: Job, a: nat, b: nat, p: nat, k: nat)
    requires IsJob(j) && p + k <= j.total && Flat(j.inl)[p..p + k] == Range(a, k) &&
        Flat(j.outl)[p..p + k] == Range(b, k)
    ensures a == b || a + k <= b || b + k <= a
  {
    if a < b < a + k {
      SamePosition(j, a, b, p, k, b - a, 0);
    } else if b < a < b + k {
      SamePosition(j, a, b, p, k, 0, a - b);
    }
  }

  lemma {:induction false} SamePosition(j: Job, a: nat, b: nat, p: nat, k: nat, i: nat, l: nat)
    requires IsJob(j) && p + k <= j.total && Flat(j.inl)[p..p + k] == Range(a, k) &&
        Flat(j.outl)[p..p + k] == Range(b, k)
    requires i < k && l < k && a + i == b + l
    ensures i == l
  {
    hide Flat;
    var ai, ao := Flat(j.inl), Flat(j.outl);
    assert ai[p..p + k][i] == ai[p + i] && ao[p..p + k][l] == ao[p + l];
  }

  lemma {:induction false} FastProcessed(j: Job, was: Walk, w: Walk, p: nat, k: nat)
    requires Ready(j, was, p) && was.mode == Fast && k == Whole(j.c.bs, was.nbytes) && p + k <= |Out(j)|
    requires was.wout.addr + k <= |was.mem| && Flat(j.outl)[p..p + k] == Range(was.wout.addr, k)
    requires w == was.(mem := Put(was.mem, was.wout.addr, Out(j)[p..p + k]), iv := IvAt(j, p + k))
    ensures Processed(j, w, p, k)
  {
    hide Flat, Out, IvAt, At, PageLen, Written, Scattered, Put, Whole, IsWhole;
    PutScatters(was.mem, Flat(j.outl)[p..p + k], was.wout.addr, Out(j)[p..p + k]);
    WriteMore(j, was.mem, w.mem, p, k);
  }

  lemma {:induction false} GatherPrefix(m: seq<Byte>, a: seq<nat>, p: nat, n: nat, k: nat)
    requires k <= n && p + n <= |a| && InMemory(m, a[p..p + n])
    ensures InMemory(m, a[p..p + k]) && Gather(m, a[p..p + k]) == Gather(m, a[p..p + n])[..k]
  {
    assert a[p..p + n][..k] == a[p..p + k];
  }

  lemma PutPrefix(m: seq<Byte>, y: seq<Byte>)
    requires |y| <= |m|
    ensures Put(m, 0, y)[..|y|] == y && |Put(m, 0, y)| == |m|
  {
  }

  lemma {:induction false} OneBlock(bs: nat)
    requires bs > 0
    ensures Whole(bs, bs) == bs && IsWhole(bs, bs)
  {
    assert Whole(bs, 0) == 0;
  }

  /** Less than a block left: everything whole is done, and the request was not whole. */
  lemma {:induction false} ShortRest(j: Job, p: nat)
    requires IsJob(j) && p <= |Out(j)| && IsWhole(j.c.bs, p) && 0 < j.total - p < j.c.bs
    ensures p == |Out(j)| && !IsWhole(j.c.bs, j.total)
  {
    hide Out;
    Room(j, p);
    if IsWhole(j.c.bs, j.total) { WholeMost(j.c.bs, j.total, j.total); }
  }

  lemma {:induction false} Complete(j: Job, p: nat)
    requires IsJob(j) && p <= |Out(j)| && IsWhole(j.c.bs, p) && p == j.total
    ensures p == |Out(j)| && IsWhole(j.c.bs, j.total)
  {
  }

  lemma SliceInMemory(m: seq<Byte>, a: seq<nat>, p: nat, k: nat)
    requires InMemory(m, a) && p + k <= |a|
    ensures InMemory(m, a[p..p + k])
  {
  }

  lemma {:induction false} ProcessedFacts(j: Job, w: Walk, p: nat, k: nat)
    requires Processed(j, w, p, k)
    ensures k <= w.nbytes && j.c.bs <= k && IsWhole(j.c.bs, p + k) && p + k <= j.total &&
        (w.mode == Slow ==> k == j.c.bs)
    ensures InMemory(w.mem, Flat(j.outl)) && IsList(j.outl, |w.mem|)
    ensures w.wout.i < |j.outl| && w.wout.addr <= j.outl[w.wout.i].addr + j.outl[w.wout.i].len
    ensures w.mode != Slow ==> w.wout.addr + k <= |w.mem| && k <= PageLen(j.inl, w.win) && k <= PageLen(j.outl, w.wout)
  {
    hide Flat, Out, IvAt, Written, PageLen, Start, Whole, IsWhole;
    WholeFacts(j.c.bs, w.nbytes);
    WholeSum(j.c.bs, p, k);
    OneBlock(j.c.bs);
    Room(j, p);
    if w.mode != Slow { PageFits(j.outl, w.wout, k); }
  }

  lemma {:induction false} CopiedOut(j: Job, m: seq<Byte>, m': seq<Byte>, o: nat, p: nat, k: nat)
    requires IsJob(j) && p + k <= |Out(j)| && Written(j, m, p) && |m| == |j.m0| && o + k <= |m|
    requires Flat(j.outl)[p..p + k] == Range(o, k) && p + k <= |Flat(j.outl)|
    requires m' == Put(m, o, Out(j)[p..p + k])
    ensures Written(j, m', p + k)
  {
    hide Flat, Out, Written, Scattered, Put;
    PutScatters(m, Flat(j.outl)[p..p + k], o, Out(j)[p..p + k]);
    WriteMore(j, m, m', p, k);
  }

  lemma {:induction false} NothingToDo(j: Job)
    requires IsJob(j) && j.total == 0
    ensures |Out(j)| == 0 && Written(j, j.m0, 0) && IvAt(j, 0) == j.iv0 && IsWhole(j.c.bs, j.total)
  {
    hide Enc, Dec, Flat;
    HasBlocks(j.c);
    assert Flat(j.outl)[..0] == [] && Out(j)[..0] == [] && Data(j)[..0] == [];
  }

  lemma {:induction false} TotalLeft(j: Job, w: Walk)
    requires IsJob(j) && Pending(j, w, 0)
    ensures w.total == j.total
  {
  }

  lemma {:induction false} OverAtOnce(j: Job, w: Walk)
    requires IsJob(j) && 0 < j.total < j.c.bs && w.nbytes == 0
    requires exists was :: Pending(j, was, 0) && w == was.(total := 0, nbytes := 0)
    ensures Over(j, w) && !IsWhole(j.c.bs, j.total)
  {
    hide Enc, Dec, Flat, At, Out, Written, IvAt;
    ShortRest(j, 0);
  }

  lemma {:induction false} Handed(j: Job, w: Walk, p: nat)
    requires Ready(j, w, p)
    ensures w.nbytes > 0 && 0 < Whole(j.c.bs, w.nbytes) <= w.nbytes && p + Whole(j.c.bs, w.nbytes) <= j.total
  {
    hide Flat, Out, IvAt, At, Gather, Written, Pending, PageLen, Whole, IsWhole;
    WholeFacts(j.c.bs, w.nbytes);
  }

  class BlkcipherWalk {

    const j: Job
    var w: Walk

    constructor (job: Job)
      requires IsJob(job) && job.total > 0
      ensures j == job && Pending(j, w, 0) && w.nbytes == 0
    {
      hide Flat, Enc, Dec, Start;
      ListsBegin(job);
      j := job;
      w := Walk(job.m0, Cursor(0, job.inl[0].addr), Cursor(0, job.outl[0].addr), job.total, 0, job.iv0, Fast, [], []);
      new;
      FirstBytes(j);
    }

    /** `blkcipher_walk_next`: choose the slow, the copying or the fast way; too short a rest ends the
        walk with an error. */
    method Next(ghost p: nat) returns (ok: bool)
      requires Pending(j, w, p) && w.total > 0
      modifies this
      ensures ok <==> old(w).total >= j.c.bs
      ensures ok ==> Ready(j, w, p)
      ensures !ok ==> w == old(w).(total := 0, nbytes := 0)
      ensures ok ==> (w.mode == Slow <==> PageLen(j.inl, old(w).win) < j.c.bs || PageLen(j.outl, old(w).wout) < j.c.bs)
      ensures ok && w.mode != Slow ==>
                (w.mode == Fast <==> old(w).win.addr % j.align == 0 && old(w).wout.addr % j.align == 0)
    {
      hide Flat, Enc, Dec, Start, PageLen, Gather, At, Written, Out, IvAt, Ready;
      PendingFacts(j, w, p);
      var n := w.total;
      if n < j.c.bs {
        w := w.(total := 0, nbytes := 0);
        return false;
      }
      var aligned := w.win.addr % j.align == 0 && w.wout.addr % j.align == 0;
      var len := PageLen(j.inl, w.win);
      if n > len { n := len; }
      len := PageLen(j.outl, w.wout);
      if n > len { n := len; }
      if n < j.c.bs {
        NextSlow(p);
        return true;
      }
      w := w.(nbytes := n);
      PageReady(j, w, p);
      if !aligned {
        w := w.(mode := Copy, page := w.mem[w.win.addr..w.win.addr + n]);
      } else {
        w := w.(mode := Fast);
      }
      return true;
    }

    /** `blkcipher_next_slow`: one block copied together from wherever it lies. */
    method NextSlow(ghost p: nat)
      requires Pending(j, w, p) && w.total >= j.c.bs
      modifies this
      ensures Ready(j, w, p) && w.mode == Slow
    {
      hide Flat, Enc, Dec, Start, Gather, At, Written, Out, IvAt;
      PendingFacts(j, w, p);
      ghost var was := w;
      var src, win := CopyIn(w.mem, j.inl, w.win, j.c.bs, p);
      var dst := seq(j.c.bs, _ => 0);
      w := w.(buffer := dst + src, win := win, nbytes := j.c.bs, mode := Slow);
      assert w.buffer[j.c.bs..] == src;
      SlowReady(j, was, w, p);
    }

    method ProcessInPlace(ghost p: nat) returns (left: nat)
      requires Ready(j, w, p) && w.mode == Fast && w.win.addr == w.wout.addr
      modifies this
      ensures Processed(j, w, p, Whole(j.c.bs, w.nbytes)) && left == w.nbytes - Whole(j.c.bs, w.nbytes)
      ensures w.nbytes == old(w).nbytes
    {
      hide Flat, Chunk, ChunkIv, Start, Gather, At, Written, Out, IvAt, PageLen, Put, Whole, IsWhole;
      ghost var k := Whole(j.c.bs, w.nbytes);
      WholeFacts(j.c.bs, w.nbytes);
      NextChunk(j, w, p, w.nbytes);
      Stretches(j, w, p, k);
      Stretches(j, w, p, w.nbytes);
      ghost var was := w;
      var mem, iv;
      mem, iv, left := InPlace(j, w.mem, w.win.addr, w.nbytes, w.iv);
      w := w.(mem := mem, iv := iv);
      FastProcessed(j, was, w, p, k);
    }

    method ProcessApart(ghost p: nat) returns (left: nat)
      requires Ready(j, w, p) && w.mode == Fast && w.win.addr != w.wout.addr
      modifies this
      ensures Processed(j, w, p, Whole(j.c.bs, w.nbytes)) && left == w.nbytes - Whole(j.c.bs, w.nbytes)
      ensures w.nbytes == old(w).nbytes
    {
      hide Flat, Chunk, ChunkIv, Start, Gather, At, Written, Out, IvAt, PageLen, Put, Whole, IsWhole;
      ghost var k := Whole(j.c.bs, w.nbytes);
      WholeFacts(j.c.bs, w.nbytes);
      NextChunk(j, w, p, w.nbytes);
      Stretches(j, w, p, k);
      Stretches(j, w, p, w.nbytes);
      ghost var was := w;
      var mem, iv;
      mem, iv, left := Apart(j, w.mem, w.win.addr, w.wout.addr, w.nbytes, w.iv);
      w := w.(mem := mem, iv := iv);
      FastProcessed(j, was, w, p, k);
    }

    method ProcessPage(ghost p: nat) returns (left: nat)
      requires Ready(j, w, p) && w.mode == Copy
      modifies this
      ensures Processed(j, w, p, Whole(j.c.bs, w.nbytes)) && left == w.nbytes - Whole(j.c.bs, w.nbytes)
      ensures w.nbytes == old(w).nbytes
    {
      hide Flat, Chunk, ChunkIv, Start, Gather, At, Written, Out, IvAt, PageLen, Put, Whole, IsWhole;
      ghost var k := Whole(j.c.bs, w.nbytes);
      WholeFacts(j.c.bs, w.nbytes);
      NextChunk(j, w, p, w.nbytes);
      GatherPrefix(w.mem, Flat(j.inl), p, w.nbytes, k);
      ghost var was := w;
      var page, iv;
      page, iv, left := InPlace(j, w.page, 0, w.nbytes, w.iv);
      PutPrefix(w.page, Out(j)[p..p + k]);
      w := w.(page := page, iv := iv);
    }

    method ProcessBuffer(ghost p: nat) returns (left: nat)
      requires Ready(j, w, p) && w.mode == Slow
      modifies this
      ensures Processed(j, w, p, Whole(j.c.bs, w.nbytes)) && left == w.nbytes - Whole(j.c.bs, w.nbytes)
      ensures w.nbytes == old(w).nbytes
    {
      hide Flat, Chunk, ChunkIv, Start, Gather, At, Written, Out, IvAt, PageLen, Put, Whole, IsWhole;
      ghost var win :| Pending(j, w.(win := win), p);
      OneBlock(j.c.bs);
      NextChunk(j, w.(win := win), p, w.nbytes);
      var buffer, iv;
      buffer, iv, left := Apart(j, w.buffer, j.c.bs, 0, w.nbytes, w.iv);
      assert w.buffer[j.c.bs..] == w.buffer[j.c.bs..j.c.bs + j.c.bs];
      PutPrefix(w.buffer, Out(j)[p..p + j.c.bs]);
      w := w.(buffer := buffer, iv := iv);
    }

    /** One turn of the CBC driver: in place where source and destination coincide, else from one to
        the other. */
    method Process(ghost p: nat) returns (left: nat)
      requires Ready(j, w, p)
      modifies this
      ensures Processed(j, w, p, Whole(j.c.bs, w.nbytes)) && left == w.nbytes - Whole(j.c.bs, w.nbytes)
      ensures w.nbytes == old(w).nbytes
    {
      hide Flat, Enc, Dec, Start, Gather, At, Written, Out, IvAt, PageLen, Put;
      match w.mode
      case Fast =>
        if w.win.addr == w.wout.addr {
          left := ProcessInPlace(p);
        } else {
          left := ProcessApart(p);
        }
      case Copy => left := ProcessPage(p);
      case Slow => left := ProcessBuffer(p);
    }

    method DeliverFast(left: nat, ghost p: nat)
      requires Processed(j, w, p, Whole(j.c.bs, w.nbytes)) && left == w.nbytes - Whole(j.c.bs, w.nbytes) &&
          w.mode != Slow
      modifies this
      ensures Pending(j, w, p + Whole(j.c.bs, old(w).nbytes))
    {
      hide Flat, Start, Gather, At, Written, Out, IvAt, PageLen, Put, Whole, IsWhole, Enc, Dec;
      ghost var k := Whole(j.c.bs, w.nbytes);
      ProcessedFacts(j, w, p, k);
      var n := w.nbytes - left;
      PageLenFlat(j.inl, w.win, p, k);
      PageLenFlat(j.outl, w.wout, p, k);
      if w.mode == Copy {
        ghost var was := w.mem;
        w := w.(mem := Put(w.mem, w.wout.addr, w.page[..n]));
        CopiedOut(j, was, w.mem, w.wout.addr, p, k);
      }
      w := w.(win := Advance(w.win, n), wout := Advance(w.wout, n), total := w.total - n);
    }

    method DeliverSlow(ghost p: nat)
      requires Processed(j, w, p, Whole(j.c.bs, w.nbytes)) && w.mode == Slow
      modifies this
      ensures Pending(j, w, p + Whole(j.c.bs, old(w).nbytes))
    {
      hide Flat, Start, Gather, At, Written, Out, IvAt, PageLen, Put, Whole, IsWhole, Enc, Dec, Scattered;
      ghost var k := Whole(j.c.bs, w.nbytes);
      ProcessedFacts(j, w, p, k);
      ghost var was := w.mem;
      var mem, wout := CopyOut(w.mem, j.outl, w.wout, w.buffer[..j.c.bs], p);
      SliceInMemory(w.mem, Flat(j.outl), p, k);
      w := w.(mem := mem, wout := wout, total := w.total - j.c.bs);
      WriteMore(j, was, w.mem, p, k);
    }

    /** `blkcipher_done_slow` and `blkcipher_done_fast`, and the end of the page for both cursors. */
    method Deliver(left: nat, ghost p: nat)
      requires Processed(j, w, p, Whole(j.c.bs, w.nbytes)) && left == w.nbytes - Whole(j.c.bs, w.nbytes)
      modifies this
      ensures Pending(j, w, p + Whole(j.c.bs, old(w).nbytes))
    {
      hide Flat, Start, Gather, At, Written, Out, IvAt, PageLen, Put, Whole, IsWhole, Enc, Dec;
      ghost var k := Whole(j.c.bs, w.nbytes);
      ghost var was := w;
      if w.mode == Slow {
        DeliverSlow(p);
      } else {
        DeliverFast(left, p);
      }
      PendingFacts(j, w, p + k);
      DoneKeeps(j.inl, w.win, p + k, w.total, |j.m0|);
      DoneKeeps(j.outl, w.wout, p + k, w.total, |j.m0|);
      w := w.(win := Scatterwalk.Done(j.inl, w.win, w.total), wout := Scatterwalk.Done(j.outl, w.wout, w.total));
    }

    /** `blkcipher_walk_done`: bring the chunk to its destination, advance, and go on. */
    method Done(left: nat, ghost p: nat) returns (ok: bool)
      requires Processed(j, w, p, Whole(j.c.bs, w.nbytes)) && left == w.nbytes - Whole(j.c.bs, w.nbytes)
      modifies this
      ensures w.nbytes == 0 ==> Over(j, w) && (ok <==> IsWhole(j.c.bs, j.total))
      ensures w.nbytes != 0 ==> ok && Ready(j, w, p + Whole(j.c.bs, old(w).nbytes))
    {
      hide Flat, Start, Gather, At, Written, Out, IvAt, PageLen, Put, Whole, IsWhole, Enc, Dec;
      ghost var k := Whole(j.c.bs, w.nbytes);
      Deliver(left, p);
      PendingFacts(j, w, p + k);
      ghost var q := p + k;
      if w.total > 0 {
        ok := Next(q);
        if !ok { ShortRest(j, q); }
      } else {
        w := w.(nbytes := 0);
        ok := true;
        Complete(j, q);
      }
    }
  }

  /** `crypto_cbc_encrypt` and `crypto_cbc_decrypt`. For any fragmentation, alignment and mix of ways,
      the destination gets CBC of the flattened source bytes, nothing else in memory changes, and the
      chaining value handed back is the last one; a rest shorter than a block is left alone and
      reported. */
  method Crypt(job: Job) returns (mem: seq<Byte>, iv: seq<Byte>, ok: bool)
    requires IsJob(job)
    ensures Written(job, mem, |Out(job)|)
    ensures iv == IvAt(job, |Out(job)|)
    ensures ok <==> IsWhole(job.c.bs, job.total)
  {
    hide Written, Out, IvAt, IsWhole, Whole, Pending, Processed, Ready, IsJob;
    if job.total == 0 {
      NothingToDo(job);
      return job.m0, job.iv0, true;
    }
    var walk := new BlkcipherWalk(job);
    ghost var p := 0;
    TotalLeft(job, walk.w);
    ok := walk.Next(p);
    if !ok { OverAtOnce(job, walk.w); }
    if ok { Handed(job, walk.w, p); }
    while walk.w.nbytes != 0
      invariant walk.j == job && 0 <= p
      invariant walk.w.nbytes == 0 ==> Over(job, walk.w) && (ok <==> IsWhole(job.c.bs, job.total))
      invariant walk.w.nbytes != 0 ==> Ready(job, walk.w, p) && p <= job.total
      decreases job.total - p, walk.w.nbytes
    {
      ghost var k := Whole(job.c.bs, walk.w.nbytes);
      Handed(job, walk.w, p);
      var left := walk.Process(p);
      ok := walk.Done(left, p);
      p := p + k;
      if walk.w.nbytes != 0 { Handed(job, walk.w, p); }
    }
    mem, iv := walk.w.mem, walk.w.iv;
  }

  /** Decrypting what was encrypted, wherever it went and wherever it goes, gives the bytes back. */
  lemma {:induction false} DecryptAfterEncrypt(j: Job, m: seq<Byte>, d: Job)
    requires IsJob(j) && j.encrypt && IsWhole(j.c.bs, j.total) && Written(j, m, |Out(j)|)
    requires IsJob(d) && !d.encrypt && d.c == j.c && d.inl == j.outl && d.m0 == m && d.iv0 == j.iv0 &&
        d.total == j.total
    requires forall z: seq<Byte> :: |z| == j.c.bs ==> j.c.dec(j.c.enc(z)) == z
    ensures Out(d) == Data(j)
  {
    hide Flat, Enc, Dec, IsCipher;
    HasBlocks(j.c);
    WholeOnce(j.c.bs, j.total, j.total);
    assert Data(j)[..j.total] == Data(j);
    var y := Out(j);
    assert Out(j)[..|Out(j)|] == y;
    assert Data(d) == y;
    assert y[..j.total] == y;
    DecInvertsEnc(j.c, j.iv0, Data(j));
  }
}
