/** What CFQ's bookkeeping keeps over every run: membership in the service tree, the counters and
    the two caches agree with the requests that are queued, and no consistency check fires. */
module CfqSafety {

  import opened Collections
  import opened Cfq

  // ---- One queue ----

  ghost function SyncIds(rqs: map<nat, Info>, sync: bool): (s: set<nat>) {
    set id | id in rqs && rqs[id].sync == sync
  }

  ghost function MetaIds(rqs: map<nat, Info>): (s: set<nat>) {
    set id | id in rqs && rqs[id].meta
  }

  lemma CountsAdd(rqs: map<nat, Info>, id: nat, i: Info)
    requires id !in rqs
    ensures |SyncIds(rqs[id := i], i.sync)| == |SyncIds(rqs, i.sync)| + 1
    ensures |SyncIds(rqs[id := i], !i.sync)| == |SyncIds(rqs, !i.sync)|
    ensures |MetaIds(rqs[id := i])| == |MetaIds(rqs)| + if i.meta then 1 else 0
  {
    hide SyncIds, MetaIds;
    SyncAdd(rqs, id, i, i.sync);
    SyncAdd(rqs, id, i, !i.sync);
    MetaAdd(rqs, id, i);
  }

  lemma SyncAdd(rqs: map<nat, Info>, id: nat, i: Info, b: bool)
    requires id !in rqs
    ensures |SyncIds(rqs[id := i], b)| == |SyncIds(rqs, b)| + if i.sync == b then 1 else 0
  {
    var more := rqs[id := i];
    var s := SyncIds(rqs, b);
    assert id !in s;
    if i.sync == b {
      assert SyncIds(more, b) == s + {id};
    } else {
      assert SyncIds(more, b) == s;
    }
  }

  lemma MetaAdd(rqs: map<nat, Info>, id: nat, i: Info)
    requires id !in rqs
    ensures |MetaIds(rqs[id := i])| == |MetaIds(rqs)| + if i.meta then 1 else 0
  {
    var more := rqs[id := i];
    var s := MetaIds(rqs);
    assert id !in s;
    assert MetaIds(more) == if i.meta then s + {id} else s;
  }

  lemma CountsDrop(rqs: map<nat, Info>, id: nat)
    requires id in rqs
    ensures |SyncIds(rqs - {id}, rqs[id].sync)| == |SyncIds(rqs, rqs[id].sync)| - 1
    ensures |SyncIds(rqs - {id}, !rqs[id].sync)| == |SyncIds(rqs, !rqs[id].sync)|
    ensures |MetaIds(rqs - {id})| == |MetaIds(rqs)| - if rqs[id].meta then 1 else 0
  {
    CountsAdd(rqs - {id}, id, rqs[id]);
    assert (rqs - {id})[id := rqs[id]] == rqs;
  }

  ghost predicate SortOk(q: Queue) {
    && (forall s :: s in q.sort ==> q.sort[s] in q.rqs && q.rqs[q.sort[s]].sector == s)
    && (forall id :: id in q.rqs ==> q.rqs[id].sector in q.sort && q.sort[q.rqs[id].sector] == id)
  }

  ghost predicate FifoOk(q: Queue, limbo: Option<nat>) {
    && (forall id :: id in q.fifo <==> id in q.rqs || limbo == Some(id))
    && (forall i, j :: 0 <= i < j < |q.fifo| ==> q.fifo[i] != q.fifo[j])
    && (limbo.Some? ==> limbo.value !in q.rqs)
  }

  ghost predicate CountsOk(q: Queue, sync: int, async: int, meta: int) {
    && q.queuedSync == |SyncIds(q.rqs, true)| + sync
    && q.queuedAsync == |SyncIds(q.rqs, false)| + async
    && q.metaPending == |MetaIds(q.rqs)| + meta
  }

  ghost predicate NextIn(q: Queue, limbo: Option<nat>) {
    && (q.next.Some? ==> q.next.value in q.rqs || q.next == limbo)
    && (q.next.None? ==> q.rqs == map[])
  }

  /** A queue in the middle of an operation: one request may be out of the tree but still on the
      FIFO, and counters may be ahead by the given amounts. */
  ghost predicate MidOk(q: Queue, limbo: Option<nat>, sync: int, async: int, meta: int) {
    && SortOk(q) && FifoOk(q, limbo) && CountsOk(q, sync, async, meta) && NextIn(q, limbo)
    && (q.rqs != map[] ==> q.onRr)
  }

  /** A queue between operations. */
  ghost predicate QueueOk(q: Queue) {
    && MidOk(q, None, 0, 0, 0)
    && (q.onRr <==> q.rqs != map[])
    && (q.next.None? <==> q.rqs == map[])
  }

  lemma FindNextIn(t: Tuning, last: nat, q: Queue, id: nat)
    requires SortOk(q) && id in q.rqs
    ensures var r := FindNextRq(t, last, q, id);
            && (r.Some? ==> r.value in q.rqs && r.value != id)
            && (r.None? ==> q.rqs == map[id := q.rqs[id]])
  {
    hide First;
    var s := q.rqs[id].sector;
    var after, first, prev := Above(q.sort, s + 1), Above(q.sort, 0), Below(q.sort, s);
    var r := FindNextRq(t, last, q, id);
    if r.None? {
      forall x | x in q.rqs ensures x == id {
        var sx := q.rqs[x].sector;
        assert sx in q.sort && q.sort[sx] == x;
      }
    }
  }

  lemma TakeOutCounts(t: Tuning, last: nat, q: Queue, id: nat, a: int, b: int, c: int)
    requires id in q.rqs && CountsOk(q, a, b, c)
    ensures CountsOk(TakeOut(t, last, q, id), a, b, c)
  {
    hide FindNextRq, SyncIds, MetaIds, Without;
    CountsDrop(q.rqs, id);
  }

  lemma TakeOutShape(t: Tuning, last: nat, q: Queue, id: nat)
    requires id in q.rqs
    ensures var q' := TakeOut(t, last, q, id);
            && q'.rqs == q.rqs - {id} && q'.sort == q.sort - {q.rqs[id].sector} && q'.fifo == Without(q.fifo, id)
            && q'.next == (if q.next == Some(id) then FindNextRq(t, last, q, id) else q.next)
            && q'.onRr == q.onRr && q'.key == q.key && q'.rt == q.rt && q'.idle == q.idle
  {
    hide FindNextRq, Without;
  }

  lemma TakeOutSort(t: Tuning, last: nat, q: Queue, id: nat)
    requires id in q.rqs && SortOk(q)
    ensures var q' := TakeOut(t, last, q, id); SortOk(q') && (q'.sort == map[] <==> q'.rqs == map[])
  {
    hide TakeOut, FindNextRq, Without;
    TakeOutShape(t, last, q, id);
    var q' := TakeOut(t, last, q, id);
    forall s | s in q'.sort ensures q'.sort[s] in q'.rqs && q'.rqs[q'.sort[s]].sector == s { assert s in q.sort; }
    forall x | x in q'.rqs ensures q'.rqs[x].sector in q'.sort && q'.sort[q'.rqs[x].sector] == x { assert x in q.rqs; }
    SortEmpty(q');
  }

  lemma SortEmpty(q: Queue)
    requires SortOk(q)
    ensures q.sort == map[] <==> q.rqs == map[]
  {
    if q.rqs != map[] {
      var x :| x in q.rqs;
      assert q.rqs[x].sector in q.sort;
    }
    if q.sort != map[] {
      var s :| s in q.sort;
      assert q.sort[s] in q.rqs;
    }
  }

  lemma TakeOutNext(t: Tuning, last: nat, q: Queue, limbo: Option<nat>, id: nat)
    requires id in q.rqs && SortOk(q) && NextIn(q, limbo)
    ensures NextIn(TakeOut(t, last, q, id), limbo)
  {
    hide TakeOut, FindNextRq, Without, SortOk;
    TakeOutShape(t, last, q, id);
    FindNextIn(t, last, q, id);
    assert q.rqs == map[id := q.rqs[id]] ==> q.rqs - {id} == map[];
  }

  lemma TakeOutFifo(t: Tuning, last: nat, q: Queue, limbo: Option<nat>, id: nat)
    requires id in q.rqs && FifoOk(q, limbo)
    ensures FifoOk(TakeOut(t, last, q, id), limbo)
  {
    hide TakeOut, FindNextRq, Without;
    TakeOutShape(t, last, q, id);
    WithoutFacts(q.fifo, id);
  }

  lemma CountsPositive(q: Queue, id: nat, a: int, b: int, c: int)
    requires id in q.rqs && CountsOk(q, a, b, c) && a >= 0 && b >= 0 && c >= 0
    ensures (if q.rqs[id].sync then q.queuedSync else q.queuedAsync) > 0
    ensures q.rqs[id].meta ==> q.metaPending > 0
  {
    assert id in SyncIds(q.rqs, q.rqs[id].sync);
    assert q.rqs[id].meta ==> id in MetaIds(q.rqs);
  }

  lemma TakeOutOk(t: Tuning, last: nat, q: Queue, limbo: Option<nat>, id: nat, a: int, b: int, c: int)
    requires MidOk(q, limbo, a, b, c) && id in q.rqs
    ensures var q' := TakeOut(t, last, q, id);
            && SortOk(q') && FifoOk(q', limbo) && CountsOk(q', a, b, c) && NextIn(q', limbo)
            && q'.rqs == q.rqs - {id} && q'.onRr == q.onRr && q'.key == q.key && q'.rt == q.rt && q'.idle == q.idle
            && (q'.sort == map[] <==> q'.rqs == map[])
  {
    hide TakeOut, FindNextRq, Without, SortOk, FifoOk, CountsOk, NextIn;
    TakeOutShape(t, last, q, id);
    TakeOutSort(t, last, q, id);
    TakeOutFifo(t, last, q, limbo, id);
    TakeOutCounts(t, last, q, id, a, b, c);
    TakeOutNext(t, last, q, limbo, id);
  }

  lemma PutInOk(t: Tuning, last: nat, q: Queue, limbo: Option<nat>, id: nat, i: Info, a: int, b: int, c: int)
    requires SortOk(q) && FifoOk(q, limbo) && NextIn(q, limbo) && q.onRr
    requires CountsOk(q, if i.sync then a + 1 else a, if i.sync then b else b + 1, if i.meta then c + 1 else c)
    requires id !in q.rqs && i.sector !in q.sort && (limbo == None || limbo == Some(id))
    ensures var q' := PutIn(t, last, q, id, i);
            && SortOk(q') && CountsOk(q', a, b, c) && NextIn(q', None) && q'.next.Some? && q'.onRr
            && q'.rqs == q.rqs[id := i] && q'.fifo == q.fifo
            && (limbo == Some(id) ==> FifoOk(q', None))
  {
    hide First;
    var q' := PutIn(t, last, q, id, i);
    PutInCounts(t, last, q, id, i, a, b, c);
    PutInSort(t, last, q, id, i);
  }

  lemma PutInSort(t: Tuning, last: nat, q: Queue, id: nat, i: Info)
    requires SortOk(q) && id !in q.rqs && i.sector !in q.sort
    ensures SortOk(PutIn(t, last, q, id, i))
  {
    hide First, ChooseRq;
    var q' := PutIn(t, last, q, id, i);
    forall s | s in q'.sort ensures q'.sort[s] in q'.rqs && q'.rqs[q'.sort[s]].sector == s {
      if s != i.sector { assert s in q.sort && q.sort[s] != id; }
    }
    forall x | x in q'.rqs ensures q'.rqs[x].sector in q'.sort && q'.sort[q'.rqs[x].sector] == x {
      if x != id { assert x in q.rqs && q.rqs[x].sector != i.sector; }
    }
  }

  lemma PutInCounts(t: Tuning, last: nat, q: Queue, id: nat, i: Info, a: int, b: int, c: int)
    requires id !in q.rqs
    requires CountsOk(q, if i.sync then a + 1 else a, if i.sync then b else b + 1, if i.meta then c + 1 else c)
    ensures CountsOk(PutIn(t, last, q, id, i), a, b, c)
  {
    hide First, ChooseRq, SyncIds, MetaIds;
    CountsAdd(q.rqs, id, i);
  }

  // ---- The service tree ----

  /** The tree holds exactly the queues marked as being on it, once each; the count and the cached
      leftmost node agree with it. */
  ghost predicate TreeOk(d: CfqData) {
    && (forall q :: q in d.tree <==> q in d.queues && d.queues[q].onRr)
    && (forall i, j :: 0 <= i < j < |d.tree| ==> d.tree[i] != d.tree[j])
    && d.busy == |d.tree|
    && (d.left.Some? ==> d.tree != [] && d.left.value == d.tree[0])
  }

  lemma EraseOk(d: CfqData, q: nat)
    requires q in d.tree && (forall i, j :: 0 <= i < j < |d.tree| ==> d.tree[i] != d.tree[j])
    requires d.left.Some? ==> d.tree != [] && d.left.value == d.tree[0]
    ensures var d' := Erase(d, q);
            && (forall x :: x in d'.tree <==> x in d.tree && x != q)
            && (forall i, j :: 0 <= i < j < |d'.tree| ==> d'.tree[i] != d'.tree[j])
            && |d'.tree| == |d.tree| - 1
            && (d'.left.Some? ==> d'.tree != [] && d'.left.value == d'.tree[0])
            && d'.queues == d.queues && d'.busy == d.busy && d'.bug == d.bug && d'.dispatched == d.dispatched
            && d'.lastPosition == d.lastPosition
  {
    WithoutFacts(d.tree, q);
    var k := IndexOf(d.tree, q);
    assert d.left.Some? && d.left != Some(q) ==> k > 0;
  }

  lemma LinkOk(d: CfqData, q: nat, key: nat)
    requires q in d.queues && q !in d.tree && (forall i, j :: 0 <= i < j < |d.tree| ==> d.tree[i] != d.tree[j])
    requires d.left.Some? ==> d.tree != [] && d.left.value == d.tree[0]
    ensures var d' := Link(d, q, key);
            && (forall x :: x in d'.tree <==> x in d.tree || x == q)
            && (forall i, j :: 0 <= i < j < |d'.tree| ==> d'.tree[i] != d'.tree[j])
            && |d'.tree| == |d.tree| + 1
            && (d'.left.Some? ==> d'.tree != [] && d'.left.value == d'.tree[0])
            && d'.queues == d.queues[q := d.queues[q].(key := key)]
            && d'.busy == d.busy && d'.bug == d.bug
            && d'.dispatched == d.dispatched && d'.lastPosition == d.lastPosition
  {
    hide Place;
    var k := Place(d, q, key, d.tree);
    var tr := PutAt(d.tree, k, q);
    assert tr == d.tree[..k] + [q] + d.tree[k..];
    assert forall i :: 0 <= i < |tr| ==> tr[i] == if i < k then d.tree[i] else if i == k then q else d.tree[i - 1];
    forall x | x in d.tree ensures x in tr {
      var i :| 0 <= i < |d.tree| && d.tree[i] == x;
      assert if i < k then tr[i] == x else tr[i + 1] == x;
    }
    assert tr[k] == q;
  }

  /** What an operation on the service tree leaves alone. */
  ghost predicate SameBut(d: CfqData, d': CfqData, q: nat) {
    && q in d.queues && d'.queues.Keys == d.queues.Keys
    && (forall x :: x in d.queues && x != q ==> d'.queues[x] == d.queues[x])
    && d'.dispatched == d.dispatched && d'.lastPosition == d.lastPosition
  }

  lemma ServiceTreeAddOk(d: CfqData, q: nat, key: nat)
    requires q in d.queues && d.queues[q].onRr
    requires forall x :: x in d.tree <==> x in d.queues && d.queues[x].onRr && (x != q || x in d.tree)
    requires forall i, j :: 0 <= i < j < |d.tree| ==> d.tree[i] != d.tree[j]
    requires d.left.Some? ==> d.tree != [] && d.left.value == d.tree[0]
    requires d.busy == |d.tree| + (if q in d.tree then 0 else 1)
    ensures var d' := ServiceTreeAdd(d, q, key);
            && TreeOk(d') && SameBut(d, d', q) && d'.bug == d.bug
            && (exists k: nat :: d'.queues[q] == d.queues[q].(key := k))
  {
    hide Link, Erase;
    if q in d.tree {
      if d.queues[q].key == key {
        assert d.queues[q] == d.queues[q].(key := d.queues[q].key);
      } else {
        EraseOk(d, q);
        LinkOk(Erase(d, q), q, key);
      }
    } else {
      LinkOk(d, q, key);
    }
  }

  // ---- The order of service ----

  /** No queue in the tree stands behind one it should precede. */
  ghost predicate InServiceOrder(d: CfqData) {
    && (forall q :: q in d.tree ==> q in d.queues)
    && forall i, j :: 0 <= i < j < |d.tree| ==> !Goes(d, d.tree[j], d.tree[i])
  }

  ghost predicate Goes(d: CfqData, a: nat, b: nat) {
    a in d.queues && b in d.queues && Precedes(d.queues[a], d.queues[a].key, d.queues[b])
  }

  lemma {:induction false} PlaceIs(d: CfqData, q: nat, key: nat, tree: seq<nat>)
    requires q in d.queues && forall x :: x in tree ==> x in d.queues
    ensures var k := Place(d, q, key, tree);
            && (forall i :: 0 <= i < k ==> !Precedes(d.queues[q], key, d.queues[tree[i]]))
            && (k < |tree| ==> Precedes(d.queues[q], key, d.queues[tree[k]]))
    decreases |tree|
  {
    if tree != [] && !Precedes(d.queues[q], key, d.queues[tree[0]]) {
      PlaceIs(d, q, key, tree[1..]);
      assert forall i :: 0 < i < |tree| ==> tree[i] == tree[1..][i - 1];
    }
  }

  /** A queue put into the tree goes behind those it does not precede and before the rest: real-time
      queues first, idle queues last, earlier keys first. */
  lemma LinkKeepsOrder(d: CfqData, q: nat, key: nat)
    requires InServiceOrder(d) && q in d.queues && q !in d.tree
    ensures InServiceOrder(Link(d, q, key))
  {
    hide Place, Precedes;
    PlaceIs(d, q, key, d.tree);
    var k := Place(d, q, key, d.tree);
    var d' := Link(d, q, key);
    var tr := d'.tree;
    assert forall i :: 0 <= i < |tr| ==> tr[i] == if i < k then d.tree[i] else if i == k then q else d.tree[i - 1];
    forall x | x in tr ensures x in d'.queues {
      if x != q { assert x in d.tree; }
    }
    forall i, j | 0 <= i < j < |tr| ensures !Goes(d', tr[j], tr[i]) { LinkedPair(d, q, key, k, i, j); }
  }

  lemma LinkedPair(d: CfqData, q: nat, key: nat, k: nat, i: nat, j: nat)
    requires InServiceOrder(d) && q in d.queues && q !in d.tree && k <= |d.tree| && i < j <= |d.tree|
    requires forall l :: 0 <= l < k ==> !Precedes(d.queues[q], key, d.queues[d.tree[l]])
    requires k < |d.tree| ==> Precedes(d.queues[q], key, d.queues[d.tree[k]])
    ensures var tr := PutAt(d.tree, k, q);
            !Goes(d.(queues := d.queues[q := d.queues[q].(key := key)]), tr[j], tr[i])
  {
    var tr := PutAt(d.tree, k, q);
    if j == k {
      assert tr[i] == d.tree[i];
    } else if i == k {
      assert tr[j] == d.tree[j - 1];
      if j - 1 > k { assert !Goes(d, d.tree[j - 1], d.tree[k]); }
    } else {
      var a, b := if i < k then i else i - 1, if j < k then j else j - 1;
      assert tr[i] == d.tree[a] && tr[j] == d.tree[b] && !Goes(d, d.tree[b], d.tree[a]);
    }
  }

  lemma EraseKeepsOrder(d: CfqData, q: nat)
    requires InServiceOrder(d) && q in d.tree
    ensures InServiceOrder(Erase(d, q))
  {
    var k := IndexOf(d.tree, q);
    var d' := Erase(d, q);
    assert forall i :: 0 <= i < |d'.tree| ==> d'.tree[i] == d.tree[if i < k then i else i + 1];
    forall i, j | 0 <= i < j < |d'.tree| ensures !Goes(d', d'.tree[j], d'.tree[i]) {
      var a, b := if i < k then i else i + 1, if j < k then j else j + 1;
      assert !Goes(d, d.tree[b], d.tree[a]);
    }
  }

  // ---- The whole scheduler ----

  /** Everything agrees except, while `q` is in the middle of an operation, its own middle state. */
  ghost predicate Mid(d: CfqData, q: nat, limbo: Option<nat>, a: int, b: int, c: int) {
    && TreeOk(d)
    && q in d.queues && MidOk(d.queues[q], limbo, a, b, c)
    && forall x :: x in d.queues && x != q ==> QueueOk(d.queues[x])
  }

  ghost predicate Inv(d: CfqData) {
    TreeOk(d) && forall x :: x in d.queues ==> QueueOk(d.queues[x])
  }

  lemma DelRrOk(d: CfqData, q: nat)
    requires TreeOk(d) && q in d.queues && d.queues[q].onRr
    ensures var d' := DelRr(d, q);
            && TreeOk(d') && SameBut(d, d', q) && d'.bug == d.bug && d'.queues[q] == d.queues[q].(onRr := false)
  {
    hide Erase;
    assert q in d.tree;
    var e := d.(bug := d.bug || !d.queues[q].onRr || d.busy == 0, queues := d.queues[q := d.queues[q].(onRr := false)],
                busy := d.busy - 1);
    EraseOk(e, q);
  }

  lemma AddRrOk(d: CfqData, q: nat, key: nat)
    requires TreeOk(d) && q in d.queues && !d.queues[q].onRr
    ensures var d' := AddRr(d, q, key);
            && TreeOk(d') && SameBut(d, d', q) && d'.bug == d.bug
            && (exists k: nat :: d'.queues[q] == d.queues[q].(onRr := true, key := k))
  {
    hide ServiceTreeAdd;
    var e := d.(bug := d.bug || d.queues[q].onRr, queues := d.queues[q := d.queues[q].(onRr := true)],
        busy := d.busy + 1);
    ServiceTreeAddOk(e, q, key);
    var d' := AddRr(d, q, key);
    var k: nat :| d'.queues[q] == e.queues[q].(key := k);
    assert d'.queues[q] == d.queues[q].(onRr := true, key := k);
  }

  /** Taking a request out, in the middle of an operation or not, keeps all the books; no check
      fires. */
  lemma RemoveOk(t: Tuning, d: CfqData, q: nat, limbo: Option<nat>, id: nat, a: int, b: int, c: int)
    requires Mid(d, q, limbo, a, b, c) && id in d.queues[q].rqs && a >= 0 && b >= 0 && c >= 0
    ensures var d' := Remove(t, d, q, id);
            && Mid(d', q, limbo, a, b, c) && SameBut(d, d', q) && d'.bug == d.bug
            && d'.queues[q].rqs == d.queues[q].rqs - {id}
            && (d'.queues[q].rqs == map[] ==> !d'.queues[q].onRr)
            && NextIn(d'.queues[q], limbo)
  {
    hide TakeOut, DelRr, SortOk, FifoOk, CountsOk, NextIn, TreeOk, QueueOk;
    var was := d.queues[q];
    var now := TakeOut(t, d.lastPosition, was, id);
    TakeOutOk(t, d.lastPosition, was, limbo, id, a, b, c);
    CountsPositive(was, id, a, b, c);
    var i := was.rqs[id];
    var e := d.(queues := d.queues[q := now],
                bug := d.bug || (if i.sync then was.queuedSync else was.queuedAsync) == 0 ||
                    (i.meta && was.metaPending == 0));
    TreeSame(d, e, q);
    if now.onRr && now.sort == map[] {
      DelRrOk(e, q);
      var d' := DelRr(e, q);
      Unmarked(now, d'.queues[q], limbo, a, b, c);
    }
  }

  lemma TreeSame(d: CfqData, e: CfqData, q: nat)
    requires TreeOk(d) && q in d.queues && q in e.queues && e.queues == d.queues[q := e.queues[q]] &&
        e.queues[q].onRr == d.queues[q].onRr
    requires e.tree == d.tree && e.left == d.left && e.busy == d.busy
    ensures TreeOk(e)
  {
  }

  lemma Unmarked(q: Queue, q': Queue, limbo: Option<nat>, a: int, b: int, c: int)
    requires SortOk(q) && FifoOk(q, limbo) && CountsOk(q, a, b, c) && NextIn(q, limbo)
    requires q'.rqs == q.rqs && q'.sort == q.sort && q'.fifo == q.fifo && q'.next == q.next
    requires q'.queuedSync == q.queuedSync && q'.queuedAsync == q.queuedAsync && q'.metaPending == q.metaPending
    ensures SortOk(q') && FifoOk(q', limbo) && CountsOk(q', a, b, c) && NextIn(q', limbo)
  {
  }

  lemma CountedOk(d: CfqData, q: nat, limbo: Option<nat>, sync: bool, c: int)
    requires Mid(d, q, limbo, 0, 0, c)
    ensures var e := d.(queues := d.queues[q := Counted(d.queues[q], sync, 1)]);
            Mid(e, q, limbo, if sync then 1 else 0, if sync then 0 else 1, c)
  {
    hide SortOk, FifoOk, NextIn, TreeOk, QueueOk, CountsOk;
    var e := d.(queues := d.queues[q := Counted(d.queues[q], sync, 1)]);
    CountedQueue(d.queues[q], limbo, sync, c);
    TreeSame(d, e, q);
  }

  lemma CountedQueue(q: Queue, limbo: Option<nat>, sync: bool, c: int)
    requires MidOk(q, limbo, 0, 0, c)
    ensures MidOk(Counted(q, sync, 1), limbo, if sync then 1 else 0, if sync then 0 else 1, c)
  {
  }

  /** After the eviction the place is free; at most one request has been dispatched for it. */
  lemma EvictOk(t: Tuning, d: CfqData, q: nat, limbo: Option<nat>, sector: nat, a: int, b: int, c: int)
    requires Mid(d, q, limbo, a, b, c) && a >= 0 && b >= 0 && c >= 0
    ensures var d' := EvictAlias(t, d, q, sector);
            && Mid(d', q, limbo, a, b, c) && sector !in d'.queues[q].sort && d'.bug == d.bug
            && d'.queues.Keys == d.queues.Keys
            && (forall x :: x in d.queues && x != q ==> d'.queues[x] == d.queues[x])
            && Evicted(d, d', q, sector)
  {
    hide Remove, FifoOk, CountsOk, NextIn, TreeOk, QueueOk;
    var cq := d.queues[q];
    if sector in cq.sort {
      var id := cq.sort[sector];
      RemoveOk(t, d, q, limbo, id, a, b, c);
      var d' := EvictAlias(t, d, q, sector);
      var e := Remove(t, d, q, id);
      TreeSameTree(e, d');
      assert d'.queues == e.queues;
    }
  }

  lemma TreeSameTree(d: CfqData, e: CfqData)
    requires TreeOk(d) && e == d.(dispatched := e.dispatched)
    ensures TreeOk(e)
  {
  }

  ghost predicate Evicted(d: CfqData, d': CfqData, q: nat, sector: nat) {
    && q in d.queues && q in d'.queues
    && if sector in d.queues[q].sort
       then var id := d.queues[q].sort[sector];
            d'.queues[q].rqs == d.queues[q].rqs - {id} && d'.dispatched == d.dispatched + [id]
       else d'.queues[q].rqs == d.queues[q].rqs && d'.dispatched == d.dispatched
  }

  /** Counted, evicted and marked: ready for the request to go in. */
  ghost function Opened(t: Tuning, d: CfqData, q: nat, i: Info, key: nat): (f: CfqData)
    requires q in d.queues
    ensures f.queues.Keys == d.queues.Keys
  {
    var c := d.(queues := d.queues[q := Counted(d.queues[q], i.sync, 1)]);
    var e := EvictAlias(t, c, q, i.sector);
    if e.queues[q].onRr then e else AddRr(e, q, key)
  }

  lemma OpenedOk(t: Tuning, d: CfqData, q: nat, limbo: Option<nat>, i: Info, key: nat, m: int)
    requires Mid(d, q, limbo, 0, 0, m) && m >= 0
    ensures var f := Opened(t, d, q, i, key);
            && Mid(f, q, limbo, if i.sync then 1 else 0, if i.sync then 0 else 1, m)
            && f.queues[q].onRr && i.sector !in f.queues[q].sort && f.bug == d.bug
            && (forall x :: x in d.queues && x != q ==> f.queues[x] == d.queues[x])
            && Evicted(d, f, q, i.sector)
  {
    hide EvictAlias, AddRr, SortOk, FifoOk, CountsOk, NextIn, TreeOk, QueueOk;
    var a, b := if i.sync then 1 else 0, if i.sync then 0 else 1;
    var c := d.(queues := d.queues[q := Counted(d.queues[q], i.sync, 1)]);
    CountedOk(d, q, limbo, i.sync, m);
    var e := EvictAlias(t, c, q, i.sector);
    EvictOk(t, c, q, limbo, i.sector, a, b, m);
    Marked(e, q, key, limbo, a, b, m);
  }

  /** The insertion into the sorted tree. `limbo` is the request itself if it is already on the FIFO;
      its metadata mark is then still counted. */
  lemma AddRqRbOk(t: Tuning, d: CfqData, q: nat, limbo: Option<nat>, id: nat, i: Info, key: nat)
    requires Mid(d, q, limbo, 0, 0, if limbo.Some? && i.meta then 1 else 0)
    requires id !in d.queues[q].rqs && (limbo == None || limbo == Some(id))
    ensures var d' := AddRqRb(t, d, q, id, i, key);
            var q' := d'.queues[q];
            && TreeOk(d') && d'.bug == d.bug
            && (forall x :: x in d.queues && x != q ==> d'.queues[x] == d.queues[x])
            && SortOk(q') && CountsOk(q', 0, 0, if limbo.None? && i.meta then -1 else 0)
            && NextIn(q', None) && q'.next.Some? && q'.onRr && id in q'.rqs && q'.rqs[id] == i
            && (limbo.Some? ==> FifoOk(q', None))
            && (limbo.None? ==> FifoOk(q'.(rqs := q'.rqs - {id}), None))
            && Added(d, d', q, id, i)
  {
    hide Opened, PutIn, SortOk, FifoOk, CountsOk, NextIn, TreeOk, QueueOk, EvictAlias, AddRr;
    OpenedOk(t, d, q, limbo, i, key, if limbo.Some? && i.meta then 1 else 0);
    var f := Opened(t, d, q, i, key);
    AddIs(t, d, q, id, i, key);
    var d' := AddRqRb(t, d, q, id, i, key);
    PutInOk(t, f.lastPosition, f.queues[q], limbo, id, i, 0, 0, if limbo.None? && i.meta then -1 else 0);
    TreeSame(f, d', q);
    if limbo.None? { FifoSame(f.queues[q], d'.queues[q], id); }
  }

  lemma AddIs(t: Tuning, d: CfqData, q: nat, id: nat, i: Info, key: nat)
    requires q in d.queues
    ensures var f := Opened(t, d, q, i, key);
            AddRqRb(t, d, q, id, i, key) == f.(queues := f.queues[q := PutIn(t, f.lastPosition, f.queues[q], id, i)])
  {
    hide EvictAlias, AddRr, PutIn;
  }

  lemma FifoSame(q: Queue, q': Queue, id: nat)
    requires FifoOk(q, None) && id !in q.rqs && q'.fifo == q.fifo && q'.rqs.Keys == q.rqs.Keys + {id}
    ensures FifoOk(q'.(rqs := q'.rqs - {id}), None)
  {
  }

  ghost predicate Added(d: CfqData, d': CfqData, q: nat, id: nat, i: Info) {
    && q in d.queues && q in d'.queues
    && if i.sector in d.queues[q].sort
       then var x := d.queues[q].sort[i.sector];
            d'.queues[q].rqs == (d.queues[q].rqs - {x})[id := i] && d'.dispatched == d.dispatched + [x]
       else d'.queues[q].rqs == d.queues[q].rqs[id := i] && d'.dispatched == d.dispatched
  }

  lemma Marked(e: CfqData, q: nat, key: nat, limbo: Option<nat>, a: int, b: int, c: int)
    requires Mid(e, q, limbo, a, b, c)
    ensures var f := if e.queues[q].onRr then e else AddRr(e, q, key);
            && Mid(f, q, limbo, a, b, c) && f.queues[q].onRr && f.bug == e.bug
            && SameBut(e, f, q) && f.queues[q].rqs == e.queues[q].rqs && f.queues[q].sort == e.queues[q].sort
  {
    hide AddRr, SortOk, FifoOk, CountsOk, NextIn, TreeOk, QueueOk;
    if !e.queues[q].onRr {
      AddRrOk(e, q, key);
      var f := AddRr(e, q, key);
      Unmarked(e.queues[q], f.queues[q], limbo, a, b, c);
    }
  }

  // ---- Operations between consistent states ----

  lemma InvMid(d: CfqData, q: nat)
    requires Inv(d) && q in d.queues
    ensures Mid(d, q, None, 0, 0, 0)
  {
    hide TreeOk, MidOk;
  }

  /** A queue whose operation is over and agrees with the rest. */
  lemma MidInv(d: CfqData, q: nat)
    requires Mid(d, q, None, 0, 0, 0)
    requires d.queues[q].rqs == map[] ==> !d.queues[q].onRr && d.queues[q].next.None?
    ensures Inv(d)
  {
    hide TreeOk, SortOk, FifoOk, CountsOk;
  }

  lemma RemoveInv(t: Tuning, d: CfqData, q: nat, id: nat)
    requires Inv(d) && Cfq.Queued(d, q, id)
    ensures var d' := Remove(t, d, q, id);
            && Inv(d') && d'.bug == d.bug && SameBut(d, d', q) && d'.queues[q].rqs == d.queues[q].rqs - {id}
  {
    hide Remove, TreeOk, SortOk, FifoOk, CountsOk;
    InvMid(d, q);
    RemoveOk(t, d, q, None, id, 0, 0, 0);
    MidInv(Remove(t, d, q, id), q);
  }

  lemma DispatchInv(t: Tuning, d: CfqData, q: nat, id: nat)
    requires Inv(d) && Cfq.Queued(d, q, id)
    ensures var d' := DispatchInsert(t, d, q, id);
            && Inv(d') && d'.bug == d.bug && d'.queues == Remove(t, d, q, id).queues
            && d'.queues[q].rqs == d.queues[q].rqs - {id}
            && (forall x :: x in d.queues && x != q ==> d'.queues[x] == d.queues[x])
            && d'.dispatched == d.dispatched + [id]
  {
    hide Remove, TreeOk, QueueOk;
    RemoveInv(t, d, q, id);
    TreeSameTree(Remove(t, d, q, id), DispatchInsert(t, d, q, id));
  }

  lemma InsertInv(t: Tuning, d: CfqData, q: nat, id: nat, i: Info, key: nat)
    requires Inv(d) && q in d.queues && id !in d.queues[q].rqs
    ensures var d' := Insert(t, d, q, id, i, key);
            && Inv(d') && d'.bug == d.bug && Added(d, d', q, id, i)
            && (forall x :: x in d.queues && x != q ==> d'.queues[x] == d.queues[x])
  {
    hide AddRqRb, TreeOk, SortOk, FifoOk, CountsOk, NextIn;
    InvMid(d, q);
    AddRqRbOk(t, d, q, None, id, i, key);
    var e := AddRqRb(t, d, q, id, i, key);
    var d' := Insert(t, d, q, id, i, key);
    TreeSame(e, d', q);
    InsertedQueue(e.queues[q], d'.queues[q], id, i);
  }

  lemma InsertedQueue(q: Queue, q': Queue, id: nat, i: Info)
    requires SortOk(q) && CountsOk(q, 0, 0, if i.meta then -1 else 0) && NextIn(q, None) && q.next.Some? && q.onRr
    requires id in q.rqs && FifoOk(q.(rqs := q.rqs - {id}), None)
    requires q' == q.(fifo := q.fifo + [id], metaPending := q.metaPending + if i.meta then 1 else 0)
    ensures QueueOk(q')
  {
    hide SyncIds, MetaIds;
    assert id !in q.fifo;
    assert forall x :: x in q'.fifo <==> x in q.fifo || x == id;
    assert FifoOk(q', None);
  }

  lemma RepositionInv(t: Tuning, d: CfqData, q: nat, id: nat, sector: nat, sectors: nat, key: nat)
    requires Inv(d) && Cfq.Queued(d, q, id)
    ensures var d' := Reposition(t, d, q, id, sector, sectors, key);
            && Inv(d') && d'.bug == d.bug
            && (forall x :: x in d.queues && x != q ==> d'.queues[x] == d.queues[x])
            && id in d'.queues[q].rqs
            && d'.queues[q].rqs[id] == d.queues[q].rqs[id].(sector := sector, sectors := sectors)
            && d'.queues[q].rqs.Keys <= d.queues[q].rqs.Keys
  {
    hide AddRqRb, TreeOk, SortOk, FifoOk, CountsOk, NextIn;
    var was := d.queues[q];
    var i := was.rqs[id];
    var out := Counted(was, i.sync, -1).(rqs := was.rqs - {id}, sort := was.sort - {i.sector});
    var e := d.(queues := d.queues[q := out]);
    LimboOk(was, out, id);
    TreeSame(d, e, q);
    AddRqRbOk(t, e, q, Some(id), id, i.(sector := sector, sectors := sectors), key);
  }

  /** A request lifted out of the tree, its metadata mark still counted. */
  lemma LimboOk(q: Queue, out: Queue, id: nat)
    requires QueueOk(q) && id in q.rqs
    requires out == Counted(q, q.rqs[id].sync, -1).(rqs := q.rqs - {id}, sort := q.sort - {q.rqs[id].sector})
    ensures MidOk(out, Some(id), 0, 0, if q.rqs[id].meta then 1 else 0)
  {
    hide SyncIds, MetaIds;
    CountsDrop(q.rqs, id);
    assert SortOk(out) by {
      forall s | s in out.sort
        ensures out.sort[s] in out.rqs && out.rqs[out.sort[s]].sector == s
      {
        assert s in q.sort;
      }
      forall x | x in out.rqs
        ensures out.rqs[x].sector in out.sort && out.sort[out.rqs[x].sector] == x
      {
        assert x in q.rqs;
      }
    }
  }

  lemma ResortInv(d: CfqData, q: nat, key: nat)
    requires Inv(d) && q in d.queues
    ensures Inv(Resort(d, q, key)) && Resort(d, q, key).bug == d.bug && SameBut(d, Resort(d, q, key), q)
    ensures Resort(d, q, key).queues[q].rqs == d.queues[q].rqs
  {
    hide ServiceTreeAdd, SortOk, FifoOk, CountsOk, NextIn;
    if d.queues[q].onRr {
      ServiceTreeAddOk(d, q, key);
      var d' := ServiceTreeAdd(d, q, key);
      var k: nat :| d'.queues[q] == d.queues[q].(key := k);
      Unmarked(d.queues[q], d'.queues[q], None, 0, 0, 0);
    }
  }

  lemma RbFirstOk(d: CfqData)
    requires Inv(d)
    ensures var r := RbFirst(d);
            && Inv(r.0) && r.0 == d.(left := r.0.left)
            && r.1 == (if d.tree == [] then None else Some(d.tree[0]))
            && (r.1.Some? ==> r.1.value in d.queues && d.queues[r.1.value].rqs != map[])
            && (r.1.None? ==> d.busy == 0 && forall q :: q in d.queues ==> d.queues[q].rqs == map[])
  {
    hide SortOk, FifoOk, CountsOk, NextIn;
    if d.tree != [] { assert d.tree[0] in d.tree; }
  }

  // ---- Runs ----

  datatype Op =
    | NewQueue(q: nat, rt: bool, idle: bool)
    | Enqueue(q: nat, id: nat, i: Info, key: nat)
    | Dispatch(q: nat, id: nat)
    | Absorb(q: nat, id: nat)
    | FrontMerge(q: nat, id: nat, sector: nat, sectors: nat, key: nat)
    | Requeue(q: nat, key: nat)
    | Peek
    | Seek(position: nat)

  ghost predicate Enabled(d: CfqData, op: Op) {
    match op
    case NewQueue(q, _, _) => q !in d.queues
    case Enqueue(q, id, _, _) => q in d.queues && forall x :: !Cfq.Queued(d, x, id)
    case Dispatch(q, id) => Cfq.Queued(d, q, id)
    case Absorb(q, id) => Cfq.Queued(d, q, id)
    case FrontMerge(q, id, _, _, _) => Cfq.Queued(d, q, id)
    case Requeue(q, _) => q in d.queues
    case Peek => true
    case Seek(_) => true
  }

  ghost function Step(t: Tuning, d: CfqData, op: Op): (d': CfqData)
    requires Enabled(d, op)
  {
    match op
    case NewQueue(q, rt, idle) => d.(queues := d.queues[q := EmptyQueue(rt, idle)])
    case Enqueue(q, id, i, key) => Insert(t, d, q, id, i, key)
    case Dispatch(q, id) => DispatchInsert(t, d, q, id)
    case Absorb(q, id) => Remove(t, d, q, id)
    case FrontMerge(q, id, sector, sectors, key) => Reposition(t, d, q, id, sector, sectors, key)
    case Requeue(q, key) => Resort(d, q, key)
    case Peek => RbFirst(d).0
    case Seek(p) => d.(lastPosition := p)
  }

  const INIT := CfqData(map[], [], None, 0, 0, [], false)

  ghost predicate IsRun(t: Tuning, run: seq<CfqData>, ops: seq<Op>) {
    && |run| == |ops| + 1
    && run[0] == INIT
    && forall i :: 0 <= i < |ops| ==> Enabled(run[i], ops[i]) && run[i + 1] == Step(t, run[i], ops[i])
  }

  lemma StepInv(t: Tuning, d: CfqData, op: Op)
    requires Inv(d) && Enabled(d, op)
    ensures Inv(Step(t, d, op)) && Step(t, d, op).bug == d.bug
  {
    hide Remove, Insert, Reposition, Resort, DispatchInsert;
    match op
    case NewQueue(q, rt, idle) => NewQueueInv(d, q, rt, idle);
    case Enqueue(q, id, i, key) => assert !Cfq.Queued(d, q, id); InsertInv(t, d, q, id, i, key);
    case Dispatch(q, id) => DispatchInv(t, d, q, id);
    case Absorb(q, id) => RemoveInv(t, d, q, id);
    case FrontMerge(q, id, sector, sectors, key) => RepositionInv(t, d, q, id, sector, sectors, key);
    case Requeue(q, key) => ResortInv(d, q, key);
    case Peek => RbFirstOk(d);
    case Seek(p) =>
  }

  lemma NewQueueInv(d: CfqData, q: nat, rt: bool, idle: bool)
    requires Inv(d) && q !in d.queues
    ensures Inv(d.(queues := d.queues[q := EmptyQueue(rt, idle)]))
  {
    hide SortOk, FifoOk, CountsOk, NextIn, MidOk;
    EmptyOk(rt, idle);
  }

  lemma EmptyOk(rt: bool, idle: bool)
    ensures QueueOk(EmptyQueue(rt, idle))
  {
    assert SyncIds(map[], true) == {} && SyncIds(map[], false) == {} && MetaIds(map[]) == {};
  }

  /** Over every run the books agree and no check fires. */
  lemma {:induction false} RunInv(t: Tuning, run: seq<CfqData>, ops: seq<Op>, n: nat)
    requires IsRun(t, run, ops) && n < |run|
    ensures Inv(run[n]) && !run[n].bug
  {
    hide Inv, Enabled, Step;
    if n == 0 {
      InitInv();
    } else {
      RunInv(t, run, ops, n - 1);
      assert run[n - 1 + 1] == Step(t, run[n - 1], ops[n - 1]);
      StepInv(t, run[n - 1], ops[n - 1]);
    }
  }

  lemma InitInv()
    ensures Inv(INIT)
  {
  }

  /** What the books say: a queue is marked, has requests and is in the service tree all at once; the
      count of busy queues is their number; the counters add up to the size of the sorted tree. */
  lemma BooksAgree(d: CfqData, q: nat)
    requires Inv(d) && q in d.queues
    ensures var cq := d.queues[q];
            && (cq.onRr <==> cq.sort != map[]) && (cq.onRr <==> q in d.tree)
            && (cq.next.None? <==> cq.sort == map[])
            && cq.queuedSync + cq.queuedAsync == |cq.sort|
            && cq.queuedSync >= 0 && cq.queuedAsync >= 0
            && d.busy == |d.tree|
            && (d.left.Some? ==> d.tree != [] && d.left.value == d.tree[0])
  {
    var cq := d.queues[q];
    SortEmpty(cq);
    SortSize(cq);
  }

  lemma SortSize(q: Queue)
    requires SortOk(q)
    ensures |q.sort| == |SyncIds(q.rqs, true)| + |SyncIds(q.rqs, false)|
  {
    var a, b := SyncIds(q.rqs, true), SyncIds(q.rqs, false);
    assert a !! b;
    assert a + b == q.rqs.Keys;
    SameSize(q);
  }

  lemma DropSort(q: Queue, id: nat)
    requires SortOk(q) && id in q.rqs
    ensures q.rqs[id].sector in q.sort
    ensures SortOk(q.(rqs := q.rqs - {id}, sort := q.sort - {q.rqs[id].sector}))
  {
    var r := q.(rqs := q.rqs - {id}, sort := q.sort - {q.rqs[id].sector});
    forall x | x in r.sort ensures r.sort[x] in r.rqs && r.rqs[r.sort[x]].sector == x { assert x in q.sort; }
    forall x | x in r.rqs ensures r.rqs[x].sector in r.sort && r.sort[r.rqs[x].sector] == x { assert x in q.rqs; }
  }

  /** As many sectors as requests. */
  lemma {:induction false} SameSize(q: Queue)
    requires SortOk(q)
    ensures |q.sort| == |q.rqs|
    decreases |q.rqs|
  {
    hide SortOk;
    if q.rqs == map[] {
      SortEmpty(q);
    } else {
      var id :| id in q.rqs;
      var s := q.rqs[id].sector;
      DropSort(q, id);
      OneLess(q.rqs, id);
      OneLess(q.sort, s);
      SameSize(q.(rqs := q.rqs - {id}, sort := q.sort - {s}));
    }
  }

  lemma OneLess<T>(m: map<nat, T>, k: nat)
    requires k in m
    ensures |m - {k}| == |m| - 1
  {
    assert m.Keys == (m - {k}).Keys + {k};
  }
}
