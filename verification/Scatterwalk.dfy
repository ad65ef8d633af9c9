/** Walking a scatterlist: memory is one array of bytes, divided into pages; an entry is a contiguous
    stretch of it that may cross pages; a cursor stands in, or at the end of, one entry. */
module Scatterwalk {

  type Byte = bv8

  datatype Entry = Entry(addr: nat, len: nat)

  datatype Cursor = Cursor(i: nat, addr: nat)

  const PAGE: nat := 4096

  /** The list as the kernel accepts it: no empty entry, all of it in memory. */
  predicate IsList(l: seq<Entry>, size: nat) {
    forall i :: 0 <= i < |l| ==> l[i].len > 0 && l[i].addr + l[i].len <= size
  }

  /** The addresses an entry covers, in order, and those of a whole list. */
  function Range(addr: nat, len: nat): (r: seq<nat>)
    ensures |r| == len && forall j :: 0 <= j < len ==> r[j] == addr + j
  {
    seq(len, j requires 0 <= j < len => addr + j)
  }

  function Flat(l: seq<Entry>): (a: seq<nat>) {
    if l == [] then [] else Range(l[0].addr, l[0].len) + Flat(l[1..])
  }

  /** The flat position where entry `i` begins. */
  function Start(l: seq<Entry>, i: nat): (p: nat)
    requires i <= |l|
  {
    if i == 0 then 0 else l[0].len + Start(l[1..], i - 1)
  }

  lemma {:induction false} FlatAt(l: seq<Entry>, i: nat, j: nat)
    requires i < |l| && j < l[i].len
    ensures Start(l, i) + j < |Flat(l)| && Flat(l)[Start(l, i) + j] == l[i].addr + j
  {
    if i > 0 { FlatAt(l[1..], i - 1, j); }
  }

  lemma {:induction false} StartNext(l: seq<Entry>, i: nat)
    requires i < |l|
    ensures Start(l, i + 1) == Start(l, i) + l[i].len <= |Flat(l)|
  {
    if i > 0 { StartNext(l[1..], i - 1); }
  }

  lemma {:induction false} StartEnd(l: seq<Entry>)
    ensures Start(l, |l|) == |Flat(l)|
  {
    if l != [] { StartEnd(l[1..]); }
  }

  lemma {:induction false} FlatInMemory(l: seq<Entry>, size: nat, p: nat)
    requires IsList(l, size) && p < |Flat(l)|
    ensures Flat(l)[p] < size
  {
    if p < l[0].len {
    } else {
      FlatInMemory(l[1..], size, p - l[0].len);
    }
  }

  /** The cursor stands at flat position `p`: in the entry that holds it, or at the end of the one
      before. */
  predicate At(l: seq<Entry>, w: Cursor, p: nat) {
    && w.i < |l|
    && l[w.i].addr <= w.addr <= l[w.i].addr + l[w.i].len
    && p == Start(l, w.i) + (w.addr - l[w.i].addr)
  }

  /** `scatterwalk_pagelen`: what is left of the entry on this page. */
  function PageLen(l: seq<Entry>, w: Cursor): (n: nat)
    requires w.i < |l| && w.addr <= l[w.i].addr + l[w.i].len
  {
    var len := l[w.i].addr + l[w.i].len - w.addr;
    var page := PAGE - w.addr % PAGE;
    if page > len then len else page
  }

  /** `scatterwalk_advance`. */
  function Advance(w: Cursor, n: nat): (w': Cursor) {
    w.(addr := w.addr + n)
  }

  /** `scatterwalk_pagedone` with more to come: on to the next page, or to the next entry. */
  function PageDone(l: seq<Entry>, w: Cursor): (w': Cursor)
    requires w.i < |l|
  {
    var up := (w.addr + PAGE - 1) / PAGE * PAGE;
    if up >= l[w.i].addr + l[w.i].len then
      if w.i + 1 < |l| then Cursor(w.i + 1, l[w.i + 1].addr) else w
    else w.(addr := up)
  }

  /** `scatterwalk_done`. */
  function Done(l: seq<Entry>, w: Cursor, more: nat): (w': Cursor)
    requires w.i < |l|
  {
    if more > 0 && w.addr % PAGE == 0 then PageDone(l, w) else w
  }

  /** What is taken at a time lies on one page of 4096 bytes and stops only where the page or the entry
      does. */
  lemma OnePage(l: seq<Entry>, w: Cursor)
    requires w.i < |l| && w.addr <= l[w.i].addr + l[w.i].len
    ensures var n, end := PageLen(l, w), l[w.i].addr + l[w.i].len;
            && w.addr + n <= end && (w.addr + n == end || (w.addr + n) % 4096 == 0)
            && (n > 0 ==> (w.addr + n - 1) / 4096 == w.addr / 4096)
  {
  }

  /** What fits on the page is contiguous. */
  lemma PageLenFlat(l: seq<Entry>, w: Cursor, p: nat, n: nat)
    requires At(l, w, p) && n <= PageLen(l, w)
    ensures p + n <= |Flat(l)| && Flat(l)[p..p + n] == Range(w.addr, n)
    ensures At(l, Advance(w, n), p + n)
  {
    StartNext(l, w.i);
    var a := Flat(l);
    forall j | 0 <= j < n ensures a[p..p + n][j] == Range(w.addr, n)[j] {
      FlatAt(l, w.i, w.addr - l[w.i].addr + j);
    }
  }

  /** Leaving a page does not move the position, whether the page or the entry ended; afterwards
      there is something to take. */
  lemma PageDoneKeeps(l: seq<Entry>, w: Cursor, p: nat, size: nat)
    requires IsList(l, size) && At(l, w, p) && p < |Flat(l)|
    requires w.addr % PAGE == 0 || w.addr == l[w.i].addr + l[w.i].len
    ensures At(l, PageDone(l, w), p) && PageLen(l, PageDone(l, w)) > 0
  {
    StartNext(l, w.i);
    StartEnd(l);
    var end := l[w.i].addr + l[w.i].len;
    RoundUp(w.addr);
    assert w.addr == end ==> p == Start(l, w.i + 1);
  }

  lemma RoundUp(a: nat)
    ensures (a + PAGE - 1) / PAGE * PAGE >= a
    ensures a % PAGE == 0 ==> (a + PAGE - 1) / PAGE * PAGE == a
  {
  }

  /** Between two stretches the walk keeps its position; it is left with nothing to take on its page
      exactly when its entry has ended in the middle of a page. */
  lemma DoneKeeps(l: seq<Entry>, w: Cursor, p: nat, more: nat, size: nat)
    requires IsList(l, size) && At(l, w, p) && (more > 0 ==> p < |Flat(l)|)
    ensures At(l, Done(l, w, more), p)
    ensures more > 0 ==>
              (PageLen(l, Done(l, w, more)) == 0 <==> w.addr == l[w.i].addr + l[w.i].len && w.addr % 4096 != 0)
  {
    if more > 0 && w.addr % PAGE == 0 { PageDoneKeeps(l, w, p, size); }
  }

  // ---- Bytes through a list of addresses ----

  predicate InMemory(m: seq<Byte>, a: seq<nat>) {
    forall i :: 0 <= i < |a| ==> a[i] < |m|
  }

  /** The bytes at the given addresses. */
  function Gather(m: seq<Byte>, a: seq<nat>): (y: seq<Byte>)
    requires InMemory(m, a)
    ensures |y| == |a| && forall i :: 0 <= i < |a| ==> y[i] == m[a[i]]
  {
    seq(|a|, i requires 0 <= i < |a| => m[a[i]])
  }

  predicate Distinct(a: seq<nat>) {
    forall i, j :: 0 <= i < j < |a| ==> a[i] != a[j]
  }

  /** `m'` is `m` with the bytes `y` at the addresses `a`, and nothing else changed. */
  ghost predicate Scattered(m: seq<Byte>, m': seq<Byte>, a: seq<nat>, y: seq<Byte>)
    requires InMemory(m, a)
  {
    && |m'| == |m| && |y| == |a|
    && (forall i :: 0 <= i < |a| ==> m'[a[i]] == y[i])
    && (forall k :: 0 <= k < |m| && k !in a ==> m'[k] == m[k])
  }

  /** Memory with `y` written at `o`: `memcpy`. */
  function Put(m: seq<Byte>, o: nat, y: seq<Byte>): (m': seq<Byte>)
    requires o + |y| <= |m|
    ensures |m'| == |m|
    ensures forall k :: 0 <= k < |m| ==> m'[k] == if o <= k < o + |y| then y[k - o] else m[k]
  {
    m[..o] + y + m[o + |y|..]
  }

  lemma PutScatters(m: seq<Byte>, a: seq<nat>, o: nat, y: seq<Byte>)
    requires o + |y| <= |m| && a == Range(o, |y|)
    ensures InMemory(m, a) && Scattered(m, Put(m, o, y), a, y)
  {
    forall k | 0 <= k < |m| && k !in a ensures Put(m, o, y)[k] == m[k] {
      if o <= k < o + |y| { assert a[k - o] == k; }
    }
  }

  lemma ScatterAppend(m: seq<Byte>, m1: seq<Byte>, m2: seq<Byte>, a: seq<nat>, b: seq<nat>, y: seq<Byte>, z: seq<Byte>)
    requires InMemory(m, a + b) && InMemory(m, a) && Distinct(a + b)
    requires Scattered(m, m1, a, y) && InMemory(m1, b) && Scattered(m1, m2, b, z)
    ensures Scattered(m, m2, a + b, y + z)
  {
    var c, x := a + b, y + z;
    forall i | 0 <= i < |c| ensures m2[c[i]] == x[i] {
      if i < |a| {
        assert c[i] == a[i];
        forall j | 0 <= j < |b| ensures b[j] != a[i] { assert c[|a| + j] == b[j]; }
        assert a[i] < |m|;
      } else {
        assert c[i] == b[i - |a|];
      }
    }
    forall k | 0 <= k < |m| && k !in c ensures m2[k] == m[k] {
      assert k !in a && k !in b;
    }
  }

  /** `scatterwalk_copychunks` out of memory. */
  method CopyIn(m: seq<Byte>, l: seq<Entry>, w: Cursor, n: nat, ghost p: nat) returns (buf: seq<Byte>, w': Cursor)
    requires IsList(l, |m|) && At(l, w, p) && p + n <= |Flat(l)| && n > 0
    requires InMemory(m, Flat(l))
    ensures buf == Gather(m, Flat(l)[p..p + n]) && At(l, w', p + n)
  {
    hide Start, Flat;
    ghost var a := Flat(l);
    buf := [];
    w' := w;
    var left := n;
    while true
      invariant At(l, w', p + n - left) && 0 < left <= n && buf == Gather(m, a[p..p + n - left])
      decreases left, if At(l, w', p + n - left) && PageLen(l, w') > 0 then 0 else 1
    {
      ghost var q := p + n - left;
      var len := PageLen(l, w');
      if len > left { len := left; }
      PageLenFlat(l, w', q, len);
      ghost var was := w';
      buf := buf + m[w'.addr..w'.addr + len];
      assert buf == Gather(m, a[p..q + len]) by { GatherMore(m, a, p, q, w'.addr, len); }
      w' := Advance(w', len);
      if left == len { break; }
      left := left - len;
      PageEnds(l, was, len);
      PageDoneKeeps(l, w', q + len, |m|);
      w' := PageDone(l, w');
    }
  }

  lemma GatherMore(m: seq<Byte>, a: seq<nat>, p: nat, q: nat, addr: nat, len: nat)
    requires InMemory(m, a) && p <= q && q + len <= |a| && addr + len <= |m|
    requires a[q..q + len] == Range(addr, len)
    ensures Gather(m, a[p..q]) + m[addr..addr + len] == Gather(m, a[p..q + len])
  {
    assert a[p..q + len] == a[p..q] + a[q..q + len];
    assert Gather(m, a[q..q + len]) == m[addr..addr + len];
  }

  /** Taking all there is on the page ends at a page boundary or at the end of the entry. */
  lemma PageEnds(l: seq<Entry>, w: Cursor, len: nat)
    requires w.i < |l| && w.addr <= l[w.i].addr + l[w.i].len && len == PageLen(l, w)
    ensures (w.addr + len) % PAGE == 0 || w.addr + len == l[w.i].addr + l[w.i].len
  {
  }

  /** `scatterwalk_copychunks` into memory. */
  method CopyOut(m: seq<Byte>, l: seq<Entry>, w: Cursor, buf: seq<Byte>, ghost p: nat)
    returns (m': seq<Byte>, w': Cursor)
    requires IsList(l, |m|) && At(l, w, p) && p + |buf| <= |Flat(l)| && |buf| > 0
    requires InMemory(m, Flat(l)) && Distinct(Flat(l))
    ensures Scattered(m, m', Flat(l)[p..p + |buf|], buf) && At(l, w', p + |buf|)
  {
    hide Start, Flat, PageLen, PageDone, Scattered, Distinct, Range;
    ghost var a := Flat(l);
    m', w' := m, w;
    var n := 0;
    NothingScattered(m, a[p..p]);
    while true
      invariant n < |buf| && At(l, w', p + n) && Scattered(m, m', a[p..p + n], buf[..n])
      decreases |buf| - n, if At(l, w', p + n) && PageLen(l, w') > 0 then 0 else 1
    {
      var len := PageLen(l, w');
      if len > |buf| - n { len := |buf| - n; }
      PageLenFlat(l, w', p + n, len);
      ghost var was := w';
      m' := PutChunk(m, m', a, p, n, w'.addr, len, buf);
      w' := Advance(w', len);
      if n + len == |buf| { n := n + len; break; }
      n := n + len;
      PageEnds(l, was, len);
      PageDoneKeeps(l, w', p + n, |m|);
      w' := PageDone(l, w');
    }
    assert buf[..n] == buf;
  }

  lemma NothingScattered(m: seq<Byte>, a: seq<nat>)
    requires a == []
    ensures Scattered(m, m, a, [])
  {
  }

  method PutChunk(ghost m: seq<Byte>, m1: seq<Byte>, ghost a: seq<nat>, ghost p: nat, n: nat, addr: nat, len: nat,
                  buf: seq<Byte>)
    returns (m': seq<Byte>)
    requires InMemory(m, a) && Distinct(a) && p + n + len <= |a| && n + len <= |buf|
    requires Scattered(m, m1, a[p..p + n], buf[..n])
    requires a[p + n..p + n + len] == Range(addr, len)
    ensures Scattered(m, m', a[p..p + n + len], buf[..n + len])
  {
    hide Scattered, Put, Range, Distinct;
    if len == 0 {
      m' := m1;
      assert a[p..p + n + len] == a[p..p + n];
    } else {
      var y := buf[n..n + len];
      ChunkInMemory(m, m1, a, p, n, addr, len, buf[..n]);
      m' := Put(m1, addr, y);
      ChunkPut(m, m1, a, p, n, addr, len, buf);
    }
  }

  lemma ChunkInMemory(m: seq<Byte>, m1: seq<Byte>, a: seq<nat>, p: nat, n: nat, addr: nat, len: nat, x: seq<Byte>)
    requires InMemory(m, a) && p + n + len <= |a| && len > 0
    requires Scattered(m, m1, a[p..p + n], x)
    requires a[p + n..p + n + len] == Range(addr, len)
    ensures addr + len <= |m1| == |m|
  {
    assert a[p + n..p + n + len][len - 1] == addr + len - 1;
    assert a[p + n + len - 1] == addr + len - 1;
  }

  lemma ChunkPut(m: seq<Byte>, m1: seq<Byte>, a: seq<nat>, p: nat, n: nat, addr: nat, len: nat, buf: seq<Byte>)
    requires InMemory(m, a) && Distinct(a) && p + n + len <= |a| && n + len <= |buf|
    requires Scattered(m, m1, a[p..p + n], buf[..n]) && addr + len <= |m1| == |m|
    requires a[p + n..p + n + len] == Range(addr, len)
    ensures Scattered(m, Put(m1, addr, buf[n..n + len]), a[p..p + n + len], buf[..n + len])
  {
    hide Scattered, Put, Range;
    var y := buf[n..n + len];
    var b := a[p + n..p + n + len];
    PutScatters(m1, b, addr, y);
    assert a[p..p + n] + b == a[p..p + n + len] && buf[..n] + y == buf[..n + len];
    DistinctSlice(a, p, p + n + len);
    ScatterAppend(m, m1, Put(m1, addr, y), a[p..p + n], b, buf[..n], y);
  }

  lemma DistinctSlice(a: seq<nat>, p: nat, q: nat)
    requires Distinct(a) && p <= q <= |a|
    ensures Distinct(a[p..q])
  {
  }
}
