/** Feeding a digest from a scatterlist, and HMAC on top of a digest (section 2 of RFC 2104). */
module Hmac {

  import opened Md5
  import S = Scatterwalk

  // ---- Scatterlists with chaining ----

  /** A scatterlist in memory: entries, and a slot of length zero whose page field leads on to another
      list. */
  datatype Sg = Nil | Entry(addr: nat, len: nat, tail: Sg) | Chain(to: Sg)

  /** `sg_next`: the next slot, or the list it leads to. */
  function Next(sg: Sg): (n: Sg) {
    match sg
    case Entry(_, _, Chain(t)) => t
    case Entry(_, _, t) => t
    case _ => Nil
  }

  /** The bytes a list covers, from the entry it stands at. */
  function Bytes(m: seq<Byte>, sg: Sg): (b: seq<Byte>) {
    match sg
    case Nil => []
    case Entry(a, n, t) => (if a + n <= |m| then m[a..a + n] else []) + Bytes(m, t)
    case Chain(t) => Bytes(m, t)
  }

  /** Entries are not empty and lie in memory. */
  predicate IsSg(m: seq<Byte>, sg: Sg) {
    match sg
    case Nil => true
    case Entry(a, n, t) => n > 0 && a + n <= |m| && IsSg(m, t)
    case Chain(t) => IsSg(m, t) && !t.Chain?
  }

  lemma NextBytes(m: seq<Byte>, sg: Sg)
    requires sg.Entry? && IsSg(m, sg)
    ensures IsSg(m, Next(sg)) && !Next(sg).Chain? && Next(sg) < sg
    ensures Bytes(m, sg) == m[sg.addr..sg.addr + sg.len] + Bytes(m, Next(sg))
  {
  }

  /** What lies on one page, from `offset` on: up to the first aligned offset on its own. */
  method UpdatePage<H>(d: Digest<H>, m: seq<Byte>, page: nat, offset: nat, n: nat, align: nat)
    requires d.Valid() && S.PAGE * page + offset + n <= |m| && align > 0
    modifies d
    ensures d.Valid() && var start := S.PAGE * page + offset; d.msg == old(d.msg) + m[start..start + n]
  {
    hide Absorbed;
    var start := S.PAGE * page + offset;
    var addr, left := start, n;
    if offset % align != 0 {
      var k := align - offset % align;
      if k > left { k := left; }
      d.Update(m[addr..addr + k]);
      addr, left := addr + k, left - k;
      Joined(m, start, addr, addr + left);
    }
    d.Update(m[addr..addr + left]);
  }

  /** One entry, page by page. */
  method UpdateEntry<H>(d: Digest<H>, m: seq<Byte>, start: nat, len: nat, align: nat)
    requires d.Valid() && start + len <= |m| && align > 0
    modifies d
    ensures d.Valid() && d.msg == old(d.msg) + m[start..start + len]
  {
    hide Absorbed;
    var page: nat, offset: nat, l: nat := start / S.PAGE, start % S.PAGE, len;
    assert m[start..start] == [];
    while l > 0
      invariant l <= len && offset < S.PAGE && (l > 0 ==> S.PAGE * page + offset == start + len - l)
      invariant d.Valid() && d.msg == old(d.msg) + m[start..start + len - l]
      decreases l
    {
      var n: nat := S.PAGE - offset;
      if n > l { n := l; }
      Joined(m, start, start + len - l, start + len - l + n);
      UpdatePage(d, m, page, offset, n, align);
      page, offset, l := page + 1, 0, l - n;
    }
  }

  lemma Joined(m: seq<Byte>, i: nat, j: nat, k: nat)
    requires i <= j <= k <= |m|
    ensures m[i..j] + m[j..k] == m[i..k]
  {
  }

  /** `update2`: the first `nbytes` bytes of the list, however it is cut into entries, pages and
      chained lists. */
  method UpdateSg<H>(d: Digest<H>, m: seq<Byte>, list: Sg, nbytes: nat, align: nat)
    requires d.Valid() && IsSg(m, list) && !list.Chain? && nbytes <= |Bytes(m, list)| && align > 0
    modifies d
    ensures d.Valid() && d.msg == old(d.msg) + Bytes(m, list)[..nbytes]
  {
    hide Absorbed, Bytes, IsSg, Next;
    if nbytes == 0 { return; }
    var sg, left: nat := list, nbytes;
    ghost var all := Bytes(m, list);
    ghost var done: nat := 0;
    while true
      invariant IsSg(m, sg) && !sg.Chain? && 0 < left <= |Bytes(m, sg)| && done + left == nbytes
      invariant done + |Bytes(m, sg)| == |all| && all[done..] == Bytes(m, sg)
      invariant d.Valid() && d.msg == old(d.msg) + all[..done]
      decreases sg
    {
      StandsAtEntry(m, sg);
      NextBytes(m, sg);
      var l := sg.len;
      if l > left { l := left; }
      left := left - l;
      Piece(all, done, Bytes(m, sg), m[sg.addr..sg.addr + l]);
      UpdateEntry(d, m, sg.addr, l, align);
      if left == 0 { done := done + l; break; }
      After(all, done, m[sg.addr..sg.addr + l], Bytes(m, Next(sg)));
      done := done + l;
      sg := Next(sg);
    }
  }

  lemma StandsAtEntry(m: seq<Byte>, sg: Sg)
    requires IsSg(m, sg) && !sg.Chain? && |Bytes(m, sg)| > 0
    ensures sg.Entry? && sg.len > 0 && sg.addr + sg.len <= |m|
  {
  }

  lemma Piece(b: seq<Byte>, done: nat, rest: seq<Byte>, p: seq<Byte>)
    requires done <= |b| && b[done..] == rest && p <= rest
    ensures done + |p| <= |b| && b[..done] + p == b[..done + |p|]
  {
    assert b[done..done + |p|] == p;
  }

  lemma After(b: seq<Byte>, done: nat, p: seq<Byte>, rest: seq<Byte>)
    requires done <= |b| && b[done..] == p + rest
    ensures done + |p| <= |b| && b[done + |p|..] == rest
  {
    assert b[done + |p|..] == b[done..][|p|..];
  }

  // ---- HMAC by its definition ----

  function Xored(k: seq<Byte>, p: Byte): (x: seq<Byte>)
    ensures |x| == |k|
  {
    seq(|k|, i requires 0 <= i < |k| => k[i] ^ p)
  }

  /** The key as one block: hashed first if it is longer, then filled with zeros. */
  function KeyBlock<H>(c: Core<H>, key: seq<Byte>): (b: seq<Byte>) {
    var k := if |key| > BLOCK then Hash(c, key) else key;
    if |k| <= BLOCK then k + Zeros(BLOCK - |k|) else k
  }

  function HmacOf<H>(c: Core<H>, key: seq<Byte>, m: seq<Byte>): (d: seq<Byte>) {
    var k := KeyBlock(c, key);
    Hash(c, Xored(k, 0x5c) + Hash(c, Xored(k, 0x36) + m))
  }

  /** A digest of fixed size that fits into a block. */
  ghost predicate IsCore<H(!new)>(c: Core<H>) {
    c.size <= BLOCK && forall h :: |c.encode(h)| == c.size
  }

  /** Byte `i` of the key block of sixty-four bytes: of the key, or of its digest if the key is longer,
      and zero behind either. */
  function KeyByte<H>(c: Core<H>, key: seq<Byte>, i: nat): (b: Byte) {
    if |key| <= 64 then if i < |key| then key[i] else 0
    else if i < |Hash(c, key)| then Hash(c, key)[i] else 0
  }

  /** HMAC by its bytes: whatever two blocks hold the key block with each byte changed by the inner and
      by the outer pad are what goes before the message and before the inner digest. */
  lemma HmacIs<H(!new)>(c: Core<H>, key: seq<Byte>, m: seq<Byte>, inner: seq<Byte>, outer: seq<Byte>)
    requires IsCore(c) && |inner| == 64 && |outer| == 64
    requires forall i :: 0 <= i < 64 ==> inner[i] == KeyByte(c, key, i) ^ 0x36
    requires forall i :: 0 <= i < 64 ==> outer[i] == KeyByte(c, key, i) ^ 0x5c
    ensures HmacOf(c, key, m) == Hash(c, outer + Hash(c, inner + m))
  {
    hide Hash;
    HashSize(c, key);
    var k := KeyBlock(c, key);
    assert |k| == 64 && forall i :: 0 <= i < 64 ==> k[i] == KeyByte(c, key, i);
    assert inner == Xored(k, 0x36) && outer == Xored(k, 0x5c);
  }

  lemma HashSize<H(!new)>(c: Core<H>, m: seq<Byte>)
    requires IsCore(c)
    ensures |Hash(c, m)| == c.size
  {
  }

  lemma BlockSize<H>(c: Core<H>, x: Ctx<H>, m: seq<Byte>)
    requires Absorbed(c, x, m)
    ensures |x.block| == BLOCK
  {
  }

  /** An HMAC transform: its pads and the digest it drives. */
  class HmacCtx<!H(!new)> {

    const c: Core<H>
    const child: Digest<H>
    var ipad: seq<Byte>
    var opad: seq<Byte>

    /** The pads belong to this key. */
    ghost predicate Keyed(key: seq<Byte>)
      reads this, child
    {
      && IsCore(c) && child.c == c && |child.x.block| == BLOCK
      && ipad == Xored(KeyBlock(c, key), 0x36) && opad == Xored(KeyBlock(c, key), 0x5c) && |ipad| == BLOCK
    }

    constructor (core: Core<H>)
      requires IsCore(core)
      ensures c == core && fresh(child) && child.c == c && |child.x.block| == BLOCK
    {
      c := core;
      child := new Digest(core);
      ipad, opad := [], [];
    }

    /** `hmac_setkey`. */
    method SetKey(key: seq<Byte>)
      requires IsCore(c) && child.c == c && |child.x.block| == BLOCK
      modifies this, child
      ensures Keyed(key)
    {
      hide Hash, Absorbed;
      var k := key;
      if |key| > BLOCK {
        k := DigestOf(key);
        HashSize(c, key);
      }
      k := k + Zeros(BLOCK - |k|);
      ipad, opad := PadLoop(k);
    }

    static method PadLoop(k: seq<Byte>) returns (inner: seq<Byte>, outer: seq<Byte>)
      ensures inner == Xored(k, 0x36) && outer == Xored(k, 0x5c)
    {
      var i := 0;
      inner, outer := k, k;
      while i < |k|
        invariant 0 <= i <= |k| && |inner| == |k| && |outer| == |k|
        invariant forall j :: 0 <= j < |k| ==> inner[j] == if j < i then k[j] ^ 0x36 else k[j]
        invariant forall j :: 0 <= j < |k| ==> outer[j] == if j < i then k[j] ^ 0x5c else k[j]
      {
        inner, outer := inner[i := inner[i] ^ 0x36], outer[i := outer[i] ^ 0x5c];
        i := i + 1;
      }
    }

    /** `hmac_init`. */
    method Init(ghost key: seq<Byte>)
      requires Keyed(key)
      modifies child
      ensures Keyed(key) && child.Valid() && child.msg == ipad
    {
      hide KeyBlock, Absorbed, Xored;
      child.Reset();
      child.Update(ipad);
      assert [] + ipad == ipad;
      BlockSize(child.c, child.x, child.msg);
    }

    /** `hmac_update`. */
    method Update(m: seq<Byte>, sg: Sg, nbytes: nat, align: nat, ghost key: seq<Byte>)
      requires Keyed(key) && child.Valid() && IsSg(m, sg) && !sg.Chain? && nbytes <= |Bytes(m, sg)| && align > 0
      modifies child
      ensures Keyed(key) && child.Valid() && child.msg == old(child.msg) + Bytes(m, sg)[..nbytes]
    {
      hide KeyBlock, Absorbed, Xored, Bytes, IsSg;
      UpdateSg(child, m, sg, nbytes, align);
      BlockSize(child.c, child.x, child.msg);
    }

    /** `hmac_final`: after the inner pad and any updates that make up `m`. */
    method Final(ghost key: seq<Byte>, ghost m: seq<Byte>) returns (out: seq<Byte>)
      requires Keyed(key) && child.Valid() && child.msg == ipad + m
      modifies child
      ensures out == HmacOf(c, key, m) && Keyed(key)
    {
      hide Absorbed, KeyBlock, Hash;
      var digest := child.Final();
      out := DigestOf(opad + digest);
    }

    /** `crypto_hash_digest` of the child on one buffer. */
    method DigestOf(data: seq<Byte>) returns (out: seq<Byte>)
      requires child.c == c && |child.x.block| == BLOCK
      modifies child
      ensures out == Hash(c, data) && |child.x.block| == BLOCK
    {
      hide Absorbed, Hash;
      child.Reset();
      child.Update(data);
      assert [] + data == data;
      out := child.Final();
    }

    /** `hmac_digest`: the inner pad and the data as one list, the pad's entry followed by a chain slot;
        memory holds the pad at `pad`. */
    method HmacDigest(m: seq<Byte>, pad: nat, sg: Sg, nbytes: nat, align: nat, ghost key: seq<Byte>)
      returns (out: seq<Byte>)
      requires Keyed(key) && pad + BLOCK <= |m| && m[pad..pad + BLOCK] == ipad
      requires IsSg(m, sg) && !sg.Chain? && nbytes <= |Bytes(m, sg)| && align > 0
      modifies child
      ensures out == HmacOf(c, key, Bytes(m, sg)[..nbytes])
    {
      hide Absorbed, KeyBlock, Hash;
      var list := Entry(pad, BLOCK, Chain(sg));
      Chained(m, pad, sg, nbytes);
      child.Reset();
      UpdateSg(child, m, list, nbytes + BLOCK, align);
      assert [] + Bytes(m, list)[..nbytes + BLOCK] == Bytes(m, list)[..nbytes + BLOCK];
      var digest := child.Final();
      out := DigestOf(opad + digest);
    }
  }

  lemma Chained(m: seq<Byte>, pad: nat, sg: Sg, nbytes: nat)
    requires pad + BLOCK <= |m| && IsSg(m, sg) && !sg.Chain? && nbytes <= |Bytes(m, sg)|
    ensures var list := Entry(pad, BLOCK, Chain(sg));
            && IsSg(m, list) && nbytes + BLOCK <= |Bytes(m, list)|
            && Bytes(m, list)[..nbytes + BLOCK] == m[pad..pad + BLOCK] + Bytes(m, sg)[..nbytes]
  {
    var list := Entry(pad, BLOCK, Chain(sg));
    assert Bytes(m, list) == m[pad..pad + BLOCK] + Bytes(m, sg);
  }
}
