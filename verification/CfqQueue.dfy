/** CFQ's entry points, updating the scheduler's data in place. */
module CfqQueue {

  import opened Collections
  import opened Cfq
  import opened CfqSafety

  /** Every request is queued in one place only. */
  ghost predicate Once(d: CfqData) {
    forall p, q, id :: Cfq.Queued(d, p, id) && Cfq.Queued(d, q, id) ==> p == q
  }

  /** Everything queued was queued before. */
  ghost predicate NothingNew(d: CfqData, d': CfqData) {
    forall q, id :: Cfq.Queued(d', q, id) ==> Cfq.Queued(d, q, id)
  }

  lemma FewerOnce(d: CfqData, d': CfqData)
    requires Once(d) && NothingNew(d, d')
    ensures Once(d')
  {
    forall p, q, id | Cfq.Queued(d', p, id) && Cfq.Queued(d', q, id) ensures p == q {
      assert Cfq.Queued(d, p, id) && Cfq.Queued(d, q, id);
    }
  }

  lemma EnqueueOnce(t: Tuning, d: CfqData, q: nat, id: nat, i: Info, key: nat)
    requires Inv(d) && Once(d) && q in d.queues && forall x :: !Cfq.Queued(d, x, id)
    ensures Once(Insert(t, d, q, id, i, key))
  {
    hide Inv, Insert, Once;
    assert !Cfq.Queued(d, q, id);
    InsertInv(t, d, q, id, i, key);
    var d' := Insert(t, d, q, id, i, key);
    forall x, y | Cfq.Queued(d', x, y) ensures Cfq.Queued(d, x, y) || (x == q && y == id) {}
    OneMore(d, d', q, id);
  }

  lemma OneMore(d: CfqData, d': CfqData, q: nat, id: nat)
    requires Once(d) && forall x :: !Cfq.Queued(d, x, id)
    requires forall x, y :: Cfq.Queued(d', x, y) ==> Cfq.Queued(d, x, y) || (x == q && y == id)
    ensures Once(d')
  {
  }

  /** Every operation leaves each request queued in one place only. */
  lemma StepOnce(t: Tuning, d: CfqData, op: Op)
    requires Inv(d) && Once(d) && Enabled(d, op)
    ensures Once(Step(t, d, op))
  {
    hide Inv, Once, Remove, Insert, Reposition, Resort, DispatchInsert;
    var d' := Step(t, d, op);
    match op
    case Enqueue(q, id, i, key) => EnqueueOnce(t, d, q, id, i, key);
    case NewQueue(q, rt, idle) => FewerOnce(d, d');
    case Dispatch(q, id) => DispatchInv(t, d, q, id); FewerOnce(d, d');
    case Absorb(q, id) => RemoveInv(t, d, q, id); FewerOnce(d, d');
    case FrontMerge(q, id, sector, sectors, key) => RepositionInv(t, d, q, id, sector, sectors, key); FewerOnce(d, d');
    case Requeue(q, key) => ResortInv(d, q, key); FewerOnce(d, d');
    case Peek => FewerOnce(d, d');
    case Seek(p) => FewerOnce(d, d');
  }

  /** So it is in every state of every run: a forced dispatch may be made in any of them. */
  lemma {:induction false} RunOnce(t: Tuning, run: seq<CfqData>, ops: seq<Op>, n: nat)
    requires IsRun(t, run, ops) && n < |run|
    ensures Inv(run[n]) && Once(run[n])
  {
    hide Inv, Enabled, Step;
    RunInv(t, run, ops, n);
    if n > 0 {
      RunOnce(t, run, ops, n - 1);
      assert run[n - 1 + 1] == Step(t, run[n - 1], ops[n - 1]);
      StepOnce(t, run[n - 1], ops[n - 1]);
    }
  }

  /** The part of the dispatch list filled since `n` holds, once each, exactly the requests that were
      queued in `d0` and are no longer. */
  ghost predicate Moved(d0: CfqData, d: CfqData, n: nat) {
    && n <= |d.dispatched| && d.dispatched[..n] == d0.dispatched
    && (forall i, j :: n <= i < j < |d.dispatched| ==> d.dispatched[i] != d.dispatched[j])
    && (forall q, id :: Cfq.Queued(d, q, id) ==> Cfq.Queued(d0, q, id) && id !in d.dispatched[n..])
    && (forall q, id :: Cfq.Queued(d0, q, id) ==> Cfq.Queued(d, q, id) || id in d.dispatched[n..])
    && (forall id :: id in d.dispatched[n..] ==> exists q :: Cfq.Queued(d0, q, id))
  }

  lemma MovedOne(t: Tuning, d0: CfqData, d: CfqData, n: nat, q: nat, id: nat)
    requires Inv(d) && Once(d) && Moved(d0, d, n) && Cfq.Queued(d, q, id)
    ensures var d' := DispatchInsert(t, d, q, id); Moved(d0, d', n) && Once(d')
  {
    hide Inv, DispatchInsert;
    DispatchInv(t, d, q, id);
    var d' := DispatchInsert(t, d, q, id);
    assert d'.dispatched[..n] == d.dispatched[..n];
    assert d'.dispatched[n..] == d.dispatched[n..] + [id];
    assert forall x, y :: Cfq.Queued(d', x, y) <==> Cfq.Queued(d, x, y) && !(x == q && y == id);
    forall i | n <= i < |d.dispatched|
      ensures d.dispatched[i] != id
    {
      assert d.dispatched[i] == d.dispatched[n..][i - n];
    }
  }

  ghost function NonEmpty(d: CfqData): (s: set<nat>) {
    set q | q in d.queues && d.queues[q].rqs != map[]
  }

  lemma AliasQueued(d: CfqData, q: nat, sector: nat, a: int, b: int)
    requires Mid(d, q, None, a, b, 0) && sector in d.queues[q].sort
    ensures d.queues[q].sort[sector] in d.queues[q].rqs
  {
  }

  lemma NextQueued(d: CfqData, q: nat)
    requires Inv(d) && q in d.queues
    ensures d.queues[q].next.Some? ==> d.queues[q].next.value in d.queues[q].rqs
    ensures d.queues[q].next.None? ==> d.queues[q].rqs == map[] && d.queues[q].fifo == []
  {
    var cq := d.queues[q];
    assert cq.fifo != [] ==> cq.fifo[0] in cq.fifo;
  }

  lemma NothingMoved(d: CfqData)
    ensures Moved(d, d, |d.dispatched|)
  {
  }

  lemma SameCache(d0: CfqData, d: CfqData, e: CfqData, n: nat)
    requires Moved(d0, d, n) && Once(d) && e == d.(left := e.left)
    ensures Moved(d0, e, n) && Once(e)
  {
    assert forall x, y :: Cfq.Queued(e, x, y) <==> Cfq.Queued(d, x, y);
  }

  class CfqQueue {

    const t: Tuning
    var d: CfqData

    constructor (tuning: Tuning)
      ensures t == tuning && d == INIT && Inv(d) && Once(d)
    {
      t, d := tuning, INIT;
      new;
      InitInv();
    }

    /** `cfq_insert_request`, retrying the insertion until no request is in the way. */
    method InsertRequest(q: nat, id: nat, i: Info, key: nat)
      requires Inv(d) && q in d.queues && id !in d.queues[q].rqs
      modifies this`d
      ensures Inv(d) && d == Insert(t, old(d), q, id, i, key) && d.bug == old(d).bug
    {
      hide Inv, Mid, MidOk, TreeOk, QueueOk, Added, Evicted, Remove, DispatchInsert, AddRr, PutIn;
      InsertInv(t, d, q, id, i, key);
      InvMid(d, q);
      CountedOk(d, q, None, i.sync, 0);
      ghost var c := d.(queues := d.queues[q := Counted(d.queues[q], i.sync, 1)]);
      ghost var a, b := if i.sync then 1 else 0, if i.sync then 0 else 1;
      EvictOk(t, c, q, None, i.sector, a, b, 0);
      d := d.(queues := d.queues[q := Counted(d.queues[q], i.sync, 1)]);
      while i.sector in d.queues[q].sort
        invariant q in d.queues
        invariant d == c || (d == EvictAlias(t, c, q, i.sector) && i.sector !in d.queues[q].sort)
        invariant i.sector !in d.queues[q].sort ==> d == EvictAlias(t, c, q, i.sector)
        decreases i.sector in d.queues[q].sort
      {
        AliasQueued(c, q, i.sector, a, b);
        d := DispatchInsert(t, d, q, d.queues[q].sort[i.sector]);
      }
      if !d.queues[q].onRr {
        d := AddRr(d, q, key);
      }
      d := d.(queues := d.queues[q := PutIn(t, d.lastPosition, d.queues[q], id, i)]);
      var cq := d.queues[q];
      cq := cq.(fifo := cq.fifo + [id], metaPending := cq.metaPending + if i.meta then 1 else 0);
      d := d.(queues := d.queues[q := cq]);
    }

    /** `__cfq_forced_dispatch_cfqq`: everything in one queue, which thereby leaves the tree. */
    method ForceQueue(q: nat, ghost d0: CfqData, ghost n: nat) returns (dispatched: nat)
      requires Inv(d) && Once(d) && Moved(d0, d, n) && q in d.queues
      modifies this`d
      ensures Inv(d) && Once(d) && Moved(d0, d, n) && d.bug == old(d).bug
      ensures d.queues.Keys == old(d).queues.Keys && d.queues[q].rqs == map[] && d.queues[q].fifo == []
      ensures forall x :: x in d.queues && x != q ==> d.queues[x] == old(d).queues[x]
      ensures |d.dispatched| == |old(d).dispatched| + dispatched && dispatched == |old(d).queues[q].rqs|
    {
      hide Inv, Once, Moved;
      dispatched := 0;
      while d.queues[q].next.Some?
        invariant Inv(d) && Once(d) && Moved(d0, d, n) && d.bug == old(d).bug && d.queues.Keys == old(d).queues.Keys
        invariant forall x :: x in d.queues && x != q ==> d.queues[x] == old(d).queues[x]
        invariant |d.dispatched| == |old(d).dispatched| + dispatched
        invariant dispatched + |d.queues[q].rqs| == |old(d).queues[q].rqs|
        decreases |d.queues[q].rqs|
      {
        hide DispatchInsert;
        NextQueued(d, q);
        var id := d.queues[q].next.value;
        MovedOne(t, d0, d, n, q, id);
        DispatchInv(t, d, q, id);
        OneLess(d.queues[q].rqs, id);
        d := DispatchInsert(t, d, q, id);
        dispatched := dispatched + 1;
      }
      NextQueued(d, q);
    }

    /** `cfq_forced_dispatch`: it ends, having moved every request once, with nothing queued and no
        queue busy; its checks do not fire. */
    method ForcedDispatch() returns (dispatched: nat)
      requires Inv(d) && Once(d)
      modifies this`d
      ensures Inv(d) && d.bug == old(d).bug && d.busy == 0 && d.tree == []
      ensures forall q, id :: !Cfq.Queued(d, q, id)
      ensures Moved(old(d), d, |old(d).dispatched|)
      ensures |d.dispatched| == |old(d).dispatched| + dispatched
    {
      hide Inv, Moved, Once;
      NothingMoved(d);
      ghost var n := |d.dispatched|;
      dispatched := 0;
      RbFirstOk(d);
      var (e, first) := RbFirst(d);
      SameCache(old(d), d, e, n);
      d := e;
      while first.Some?
        invariant Inv(d) && Once(d) && Moved(old(d), d, n) && d.bug == old(d).bug
        invariant |d.dispatched| == |old(d).dispatched| + dispatched
        invariant first == if d.tree == [] then None else Some(d.tree[0])
        invariant first.Some? ==> first.value in d.queues && d.queues[first.value].rqs != map[]
        invariant first.None? ==> d.busy == 0 && forall q :: q in d.queues ==> d.queues[q].rqs == map[]
        decreases |NonEmpty(d)|
      {
        ghost var was := d;
        var k := ForceQueue(first.value, old(d), n);
        dispatched := dispatched + k;
        assert NonEmpty(d) == NonEmpty(was) - {first.value};
        RbFirstOk(d);
        SameCache(old(d), d, RbFirst(d).0, n);
        e, first := RbFirst(d).0, RbFirst(d).1;
        d := e;
      }
    }
  }
}
