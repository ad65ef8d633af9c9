/** The order of service over every run of CFQ: the queue at the head of the service tree is one that
    no queue with requests should precede. */
module CfqOrder {

  import opened Collections
  import opened Cfq
  import opened CfqSafety

  ghost predicate Ordered(d: CfqData) {
    InServiceOrder(d) && forall i, j :: 0 <= i < j < |d.tree| ==> d.tree[i] != d.tree[j]
  }

  /** The same tree, and nothing changed about its queues that their order depends on. */
  ghost predicate SameTree(d: CfqData, d': CfqData) {
    && d'.tree == d.tree
    && forall x :: x in d.queues ==> x in d'.queues && SameRank(d.queues[x], d'.queues[x])
  }

  ghost predicate SameRank(q: Queue, q': Queue) {
    q'.key == q.key && q'.rt == q.rt && q'.idle == q.idle
  }

  lemma SameOrder(d: CfqData, d': CfqData)
    requires Ordered(d) && SameTree(d, d')
    ensures Ordered(d')
  {
    forall i, j | 0 <= i < j < |d'.tree| ensures !Goes(d', d'.tree[j], d'.tree[i]) {
      var a, b := d.tree[j], d.tree[i];
      assert a in d.tree && b in d.tree && !Goes(d, a, b);
      assert SameRank(d.queues[a], d'.queues[a]) && SameRank(d.queues[b], d'.queues[b]);
    }
  }

  lemma LinkOrder(d: CfqData, q: nat, key: nat)
    requires Ordered(d) && q in d.queues && q !in d.tree
    ensures Ordered(Link(d, q, key))
  {
    hide Place;
    LinkKeepsOrder(d, q, key);
    var k := Place(d, q, key, d.tree);
    var tr := PutAt(d.tree, k, q);
    assert forall i :: 0 <= i < |tr| ==> tr[i] == if i < k then d.tree[i] else if i == k then q else d.tree[i - 1];
  }

  lemma EraseOrder(d: CfqData, q: nat)
    requires Ordered(d) && q in d.tree
    ensures Ordered(Erase(d, q)) && q !in Erase(d, q).tree
  {
    EraseKeepsOrder(d, q);
    WithoutFacts(d.tree, q);
  }

  lemma ServiceTreeAddOrder(d: CfqData, q: nat, key: nat)
    requires Ordered(d) && q in d.queues
    ensures Ordered(ServiceTreeAdd(d, q, key))
  {
    hide Link, Erase, Ordered;
    if q !in d.tree {
      LinkOrder(d, q, key);
    } else if d.queues[q].key != key {
      EraseOrder(d, q);
      LinkOrder(Erase(d, q), q, key);
    }
  }

  lemma AddRrOrder(d: CfqData, q: nat, key: nat)
    requires Ordered(d) && q in d.queues
    ensures Ordered(AddRr(d, q, key))
  {
    hide ServiceTreeAdd, Ordered;
    var e := d.(bug := d.bug || d.queues[q].onRr, queues := d.queues[q := d.queues[q].(onRr := true)],
        busy := d.busy + 1);
    SameOrder(d, e);
    ServiceTreeAddOrder(e, q, key);
  }

  lemma DelRrOrder(d: CfqData, q: nat)
    requires Ordered(d) && q in d.queues
    ensures Ordered(DelRr(d, q))
  {
    hide Erase, Ordered;
    var e := d.(bug := d.bug || !d.queues[q].onRr || d.busy == 0, queues := d.queues[q := d.queues[q].(onRr := false)],
                busy := d.busy - 1);
    SameOrder(d, e);
    if q in d.tree { EraseOrder(e, q); }
  }

  lemma RemoveOrder(t: Tuning, d: CfqData, q: nat, id: nat)
    requires Ordered(d) && Cfq.Queued(d, q, id)
    ensures Ordered(Remove(t, d, q, id)) && Ordered(DispatchInsert(t, d, q, id))
  {
    hide DelRr, Ordered, FindNextRq;
    var was := d.queues[q];
    var i := was.rqs[id];
    var now := TakeOut(t, d.lastPosition, was, id);
    var e := d.(queues := d.queues[q := now],
                bug := d.bug || (if i.sync then was.queuedSync else was.queuedAsync) == 0 ||
                    (i.meta && was.metaPending == 0));
    SameOrder(d, e);
    DelRrOrder(e, q);
    SameOrder(Remove(t, d, q, id), DispatchInsert(t, d, q, id));
  }

  lemma AddRqRbOrder(t: Tuning, d: CfqData, q: nat, id: nat, i: Info, key: nat)
    requires Ordered(d) && q in d.queues
    ensures Ordered(AddRqRb(t, d, q, id, i, key))
  {
    hide DispatchInsert, AddRr, Ordered, ChooseRq;
    var c := d.(queues := d.queues[q := Counted(d.queues[q], i.sync, 1)]);
    SameOrder(d, c);
    var cq := c.queues[q];
    if i.sector in cq.sort && cq.sort[i.sector] in cq.rqs { RemoveOrder(t, c, q, cq.sort[i.sector]); }
    var e := EvictAlias(t, c, q, i.sector);
    if !e.queues[q].onRr { AddRrOrder(e, q, key); }
    var f := if e.queues[q].onRr then e else AddRr(e, q, key);
    SameOrder(f, f.(queues := f.queues[q := PutIn(t, f.lastPosition, f.queues[q], id, i)]));
  }

  lemma InsertOrder(t: Tuning, d: CfqData, q: nat, id: nat, i: Info, key: nat)
    requires Ordered(d) && q in d.queues
    ensures Ordered(Insert(t, d, q, id, i, key))
  {
    hide AddRqRb, Ordered;
    AddRqRbOrder(t, d, q, id, i, key);
    SameOrder(AddRqRb(t, d, q, id, i, key), Insert(t, d, q, id, i, key));
  }

  lemma RepositionOrder(t: Tuning, d: CfqData, q: nat, id: nat, sector: nat, sectors: nat, key: nat)
    requires Ordered(d) && Cfq.Queued(d, q, id)
    ensures Ordered(Reposition(t, d, q, id, sector, sectors, key))
  {
    hide AddRqRb, Ordered;
    var was := d.queues[q];
    var i := was.rqs[id];
    var out := Counted(was, i.sync, -1).(rqs := was.rqs - {id}, sort := was.sort - {i.sector});
    var e := d.(queues := d.queues[q := out]);
    SameOrder(d, e);
    AddRqRbOrder(t, e, q, id, i.(sector := sector, sectors := sectors), key);
  }

  lemma StepOrder(t: Tuning, d: CfqData, op: Op)
    requires Ordered(d) && Enabled(d, op)
    ensures Ordered(Step(t, d, op))
  {
    hide Remove, Insert, Reposition, ServiceTreeAdd, DispatchInsert, Ordered;
    match op
    case NewQueue(q, rt, idle) => SameOrder(d, Step(t, d, op));
    case Enqueue(q, id, i, key) => InsertOrder(t, d, q, id, i, key);
    case Dispatch(q, id) => RemoveOrder(t, d, q, id);
    case Absorb(q, id) => RemoveOrder(t, d, q, id);
    case FrontMerge(q, id, sector, sectors, key) => RepositionOrder(t, d, q, id, sector, sectors, key);
    case Requeue(q, key) => ServiceTreeAddOrder(d, q, key);
    case Peek => SameOrder(d, Step(t, d, op));
    case Seek(p) => SameOrder(d, Step(t, d, op));
  }

  lemma {:induction false} RunOrder(t: Tuning, run: seq<CfqData>, ops: seq<Op>, n: nat)
    requires IsRun(t, run, ops) && n < |run|
    ensures Ordered(run[n])
  {
    hide Enabled, Step;
    if n > 0 {
      RunOrder(t, run, ops, n - 1);
      assert run[n - 1 + 1] == Step(t, run[n - 1], ops[n - 1]);
      StepOrder(t, run[n - 1], ops[n - 1]);
    }
  }

  /** In every state of every run, the first queue is missing only when no request is queued; no queue
      with requests is of a better class, or of the same class with an earlier key. */
  lemma FirstGoesFirst(t: Tuning, run: seq<CfqData>, ops: seq<Op>, n: nat, x: nat)
    requires IsRun(t, run, ops) && n < |run|
    requires x in run[n].queues && run[n].queues[x].rqs != map[]
    ensures var d, first := run[n], RbFirst(run[n]).1;
            && first.Some? && first.value in d.queues
            && var f, q := d.queues[first.value], d.queues[x];
               && (q.rt ==> f.rt)
               && (q.rt == f.rt && f.idle ==> q.idle)
               && (q.rt == f.rt && q.idle == f.idle ==> f.key <= q.key)
  {
    RunInv(t, run, ops, n);
    RunOrder(t, run, ops, n);
    var d := run[n];
    RbFirstOk(d);
    hide SortOk, FifoOk, CountsOk, NextIn;
    assert x in d.tree;
    var i :| 0 <= i < |d.tree| && d.tree[i] == x;
  }

  /** A queue with requests is put where its new key says; the others keep their order. */
  lemma ResortIs(d: CfqData, q: nat, key: nat)
    requires Inv(d) && Ordered(d) && q in d.queues
    ensures var d' := Resort(d, q, key);
            && Ordered(d') && SameBut(d, d', q) && Without(d'.tree, q) == Without(d.tree, q)
            && (d.queues[q].rqs != map[] ==> d'.queues[q] == d.queues[q].(key := key) && q in d'.tree)
            && (d.queues[q].rqs == map[] ==> d' == d)
  {
    hide SortOk, FifoOk, CountsOk, NextIn, Ordered, Link, Erase, Without;
    assert d.queues[q].rqs != map[] <==> q in d.tree;
    ServiceTreeAddOrder(d, q, key);
    ServiceTreeAddIs(d, q, key);
  }

  lemma ServiceTreeAddIs(d: CfqData, q: nat, key: nat)
    requires q in d.queues && Ordered(d)
    ensures var d' := ServiceTreeAdd(d, q, key);
            && SameBut(d, d', q) && Without(d'.tree, q) == Without(d.tree, q)
            && d'.queues[q] == d.queues[q].(key := key) && q in d'.tree
  {
    hide Place, Ordered, Without, PutAt;
    if q in d.tree {
      EraseOrder(d, q);
      LinkIs(Erase(d, q), q, key);
    } else {
      LinkIs(d, q, key);
      assert Without(d.tree, q) == d.tree by { NotThere(d.tree, q); }
    }
  }

  lemma NotThere(tree: seq<nat>, q: nat)
    requires q !in tree
    ensures Without(tree, q) == tree
  {
  }

  lemma LinkIs(d: CfqData, q: nat, key: nat)
    requires q in d.queues && q !in d.tree
    ensures var d' := Link(d, q, key);
            && SameBut(d, d', q) && Without(d'.tree, q) == d.tree && q in d'.tree
            && d'.queues[q] == d.queues[q].(key := key)
  {
    hide Place;
    var k := Place(d, q, key, d.tree);
    var tr := PutAt(d.tree, k, q);
    assert tr[k] == q && forall i :: 0 <= i < k ==> tr[i] == d.tree[i];
    assert IndexOf(tr, q) == k;
  }
}
