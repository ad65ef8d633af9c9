/** Safety of the anticipatory scheduler: the neighbour search finds the best request of all, the
    cached next request stays best over every run, and batches of the two kinds never mix on the
    device.
 */
module AnticipatorySafety {

  import opened Collections
  import opened Anticipatory

  // ---- The order of as_choose_req ----

  /** More than 512 MiB behind the head. */
  ghost predicate FarBehind(last: nat, s: nat) {
    last - s > 1048576
  }

  /** How far away, a sector behind the head counting twice. */
  ghost function Away(last: nat, s: nat): (d: nat) {
    if s < last then 2 * (last - s) else s - last
  }

  /** An independent account of the order: by distance, of two as far the higher sector first; then those
      far behind, upwards. */
  ghost predicate Before(last: nat, a: nat, b: nat) {
    if FarBehind(last, a) then FarBehind(last, b) && a < b
    else FarBehind(last, b) || Away(last, a) < Away(last, b) || (Away(last, a) == Away(last, b) && b < a)
  }

  lemma ChooseIsTotalOrder(last: nat, a: nat, b: nat, c: nat)
    ensures Prefers(last, a, b) <==> a == b || Before(last, a, b)
    ensures !(Before(last, a, b) && Before(last, b, a))
    ensures Before(last, a, b) || Before(last, b, a) || a == b
    ensures Before(last, a, b) && Before(last, b, c) ==> Before(last, a, c)
  {
  }

  ghost predicate TreeOk(t: map<nat, Rq>) {
    forall k :: k in t ==> t[k].sector == k
  }

  /** `r` is in the tree and goes before everything else in it. */
  ghost predicate IsBest(last: nat, t: map<nat, Rq>, r: Rq) {
    r.sector in t && t[r.sector] == r && forall k :: k in t && k != r.sector ==> Before(last, r.sector, k)
  }

  ghost predicate NothingInside(t: map<nat, Rq>, rq: Rq) {
    forall k :: k in t && k > rq.sector ==> k >= rq.sector + rq.sectors
  }

  /** The best of what `rq` leaves behind, judged from its end; none only if nothing is left. */
  ghost predicate BestAfter(t: map<nat, Rq>, rq: Rq, r: Option<Rq>) {
    var rest := t - {rq.sector};
    match r
    case None => rest == map[]
    case Some(x) => IsBest(rq.sector + rq.sectors, rest, x)
  }

  lemma ChooseLeast(last: nat, a: Option<Rq>, b: Option<Rq>, k: nat)
    requires (a.Some? && AtOrBefore(last, a.value.sector, k)) || (b.Some? && AtOrBefore(last, b.value.sector, k))
    ensures var r := Choose(last, a, b); r.Some? && AtOrBefore(last, r.value.sector, k)
  {
    if a.Some? && b.Some? {
      hide Before, Prefers;
      ChooseIsTotalOrder(last, a.value.sector, b.value.sector, k);
      ChooseIsTotalOrder(last, b.value.sector, a.value.sector, k);
    }
  }

  ghost predicate AtOrBefore(last: nat, a: nat, k: nat) {
    a == k || Before(last, a, k)
  }

  lemma NeighbourIsBest(t: map<nat, Rq>, rq: Rq)
    requires TreeOk(t) && rq.sector in t && t[rq.sector] == rq
    requires NothingInside(t, rq)
    ensures BestAfter(t, rq, FindNext(t, rq.sector + rq.sectors, rq))
  {
    hide FindNext, Before;
    var last := rq.sector + rq.sectors;
    var rest := t - {rq.sector};
    var r := FindNext(t, last, rq);
    forall k | k in rest ensures r.Some? && AtOrBefore(last, r.value.sector, k) {
      NeighbourBeats(t, rq, k);
    }
    NeighbourIsOther(t, rq);
    if r.None? { assert rest == map[]; }
  }

  lemma NeighbourIsOther(t: map<nat, Rq>, rq: Rq)
    requires TreeOk(t) && rq.sector in t && t[rq.sector] == rq
    ensures var r := FindNext(t, rq.sector + rq.sectors, rq);
            r.Some? ==> r.value.sector in t && t[r.value.sector] == r.value && r.value.sector != rq.sector
  {
    hide Prefers;
  }

  /** The neighbour above, or from the start if there is none. */
  function NextOf(t: map<nat, Rq>, rq: Rq): (r: Option<Rq>) {
    var after, first := Above(t, rq.sector + 1), Above(t, 0);
    if after.Some? then after else if first == Some(rq) then None else first
  }

  lemma FindIs(t: map<nat, Rq>, rq: Rq)
    ensures FindNext(t, rq.sector + rq.sectors, rq) ==
            Choose(rq.sector + rq.sectors, NextOf(t, rq), Below(t, rq.sector))
  {
    hide Choose;
  }

  /** Whatever else is queued, one of the two neighbours goes before it. */
  lemma OneBeats(t: map<nat, Rq>, rq: Rq, k: nat)
    requires TreeOk(t) && rq.sector in t && t[rq.sector] == rq
    requires NothingInside(t, rq)
    requires k in t && k != rq.sector
    ensures var last, next, prev := rq.sector + rq.sectors, NextOf(t, rq), Below(t, rq.sector);
            || (next.Some? && AtOrBefore(last, next.value.sector, k))
            || (prev.Some? && AtOrBefore(last, prev.value.sector, k))
  {
    var last := rq.sector + rq.sectors;
    var after := Above(t, rq.sector + 1);
    var first := Above(t, 0);
    var prev := Below(t, rq.sector);
    assert after.Some? ==> after.value.sector in t && after.value.sector >= last;
    if k > rq.sector {
      assert after.Some? && after.value.sector <= k;
    } else if !Wraps(last, k) {
      assert prev.Some? && k <= prev.value.sector < last;
    } else if after.Some? {
      assert Before(last, after.value.sector, k);
    } else {
      assert first.Some? && first.value.sector <= k;
    }
  }

  lemma NeighbourBeats(t: map<nat, Rq>, rq: Rq, k: nat)
    requires TreeOk(t) && rq.sector in t && t[rq.sector] == rq
    requires NothingInside(t, rq)
    requires k in t && k != rq.sector
    ensures var r := FindNext(t, rq.sector + rq.sectors, rq);
            r.Some? && AtOrBefore(rq.sector + rq.sectors, r.value.sector, k)
  {
    hide FindNext, Choose, AtOrBefore, NextOf, TreeOk;
    OneBeats(t, rq, k);
    FindIs(t, rq);
    ChooseLeast(rq.sector + rq.sectors, NextOf(t, rq), Below(t, rq.sector), k);
  }

  /** One request starts inside `rq`, not too far back, and everything beyond the end is more than twice
      as far away. */
  ghost predicate OnlyInside(t: map<nat, Rq>, rq: Rq, a: nat) {
    var last := rq.sector + rq.sectors;
    && a in t && rq.sector < a < last && !Wraps(last, a)
    && forall k :: k in t && k > rq.sector && k != a ==> k > last + BACK_PENALTY * (last - a)
  }

  /** Everything else is too far back to be reached, and at most one request lies before `rq`. */
  ghost predicate AllBehind(t: map<nat, Rq>, rq: Rq) {
    && (forall k :: k in t && k != rq.sector ==> Wraps(rq.sector + rq.sectors, k))
    && (forall j, k :: j in t && k in t && j < rq.sector && k < rq.sector ==> j == k)
  }

  /** For a given sort list, the search from `rq` finds the best request exactly in these three cases. */
  lemma SearchIsExact(t: map<nat, Rq>, rq: Rq)
    requires TreeOk(t) && rq.sector in t && t[rq.sector] == rq
    ensures BestAfter(t, rq, FindNext(t, rq.sector + rq.sectors, rq))
            <==> NothingInside(t, rq) || (exists a :: OnlyInside(t, rq, a)) || AllBehind(t, rq)
  {
    if NothingInside(t, rq) {
      NeighbourIsBest(t, rq);
    } else {
      hide FindNext, BestAfter;
      var after := Above(t, rq.sector + 1);
      var a := after.value.sector;
      var last := rq.sector + rq.sectors;
      assert a in t && t[a] == after.value && rq.sector < a < last;
      if Wraps(last, a) { FoundBehind(t, rq, a); } else { FoundInside(t, rq, a); }
      forall x | OnlyInside(t, rq, x) ensures x == a && !Wraps(last, a) {}
    }
  }

  ghost predicate Follows(t: map<nat, Rq>, rq: Rq, a: nat) {
    a in t && rq.sector < a < rq.sector + rq.sectors && forall k :: k in t && k > rq.sector ==> a <= k
  }

  lemma FoundInside(t: map<nat, Rq>, rq: Rq, a: nat)
    requires TreeOk(t) && rq.sector in t && t[rq.sector] == rq
    requires Follows(t, rq, a) && !Wraps(rq.sector + rq.sectors, a)
    ensures BestAfter(t, rq, FindNext(t, rq.sector + rq.sectors, rq)) <==> OnlyInside(t, rq, a)
  {
    var last := rq.sector + rq.sectors;
    var rest := t - {rq.sector};
    assert Above(t, rq.sector + 1) == Some(t[a]);
    assert FindNext(t, last, rq) == Some(t[a]);
    forall k | k in rest && k != a
      ensures Before(last, a, k) <==> k < rq.sector || k > last + BACK_PENALTY * (last - a)
    {
    }
    if !OnlyInside(t, rq, a) {
      var k :| k in t && k > rq.sector && k != a && k <= last + BACK_PENALTY * (last - a);
      assert k in rest && !Before(last, a, k);
    }
  }

  lemma FoundBehind(t: map<nat, Rq>, rq: Rq, a: nat)
    requires TreeOk(t) && rq.sector in t && t[rq.sector] == rq
    requires Follows(t, rq, a) && Wraps(rq.sector + rq.sectors, a)
    ensures BestAfter(t, rq, FindNext(t, rq.sector + rq.sectors, rq)) <==> AllBehind(t, rq)
  {
    var last := rq.sector + rq.sectors;
    var rest := t - {rq.sector};
    var prev := Below(t, rq.sector);
    assert Above(t, rq.sector + 1) == Some(t[a]);
    var found := if prev.None? then t[a] else prev.value;
    assert FindNext(t, last, rq) == Some(found);
    var f := found.sector;
    assert f in rest && t[f] == found && Wraps(last, f);
    if AllBehind(t, rq) {
      forall k | k in rest && k != f ensures Before(last, f, k) {}
    } else if k :| k in t && k != rq.sector && !Wraps(last, k) {
      assert k in rest && !Before(last, f, k);
    } else {
      var j, k :| j in t && k in t && j < rq.sector && k < rq.sector && j != k;
      var x := if j == f then k else j;
      assert x in rest && x < f && !Before(last, f, x);
    }
  }

  /** With a request starting inside `rq`, the search can miss: it is right on every sort list
      exactly when `rq` has no inside, that is, covers at most one sector. */
  lemma OverlapDefeatsSearch(rq: Rq)
    ensures (forall t: map<nat, Rq> :: TreeOk(t) && rq.sector in t && t[rq.sector] == rq
              ==> BestAfter(t, rq, FindNext(t, rq.sector + rq.sectors, rq)))
            <==> rq.sectors <= 1
  {
    hide FindNext, BestAfter;
    if rq.sectors <= 1 {
      forall t: map<nat, Rq> | TreeOk(t) && rq.sector in t && t[rq.sector] == rq
        ensures BestAfter(t, rq, FindNext(t, rq.sector + rq.sectors, rq))
      {
        NeighbourIsBest(t, rq);
      }
    } else {
      var t := OverlapExample(rq);
      assert TreeOk(t) && !BestAfter(t, rq, FindNext(t, rq.sector + rq.sectors, rq));
    }
  }

  /** One request right inside `rq` and one right behind it. */
  lemma OverlapExample(rq: Rq) returns (t: map<nat, Rq>)
    requires rq.sectors > 1
    ensures TreeOk(t) && rq.sector in t && t[rq.sector] == rq
    ensures !BestAfter(t, rq, FindNext(t, rq.sector + rq.sectors, rq))
  {
    hide FindNext, BestAfter;
    var last := rq.sector + rq.sectors;
    var inside := Rq(rq.id + 1, rq.sync, rq.sector + 1, 1);
    var beyond := Rq(rq.id + 2, rq.sync, last, 1);
    t := map[rq.sector := rq, inside.sector := inside, last := beyond];
    assert inside.sector in t && last in t;
    SearchIsExact(t, rq);
  }

  // ---- What every direction keeps ----

  ghost predicate NoOverlap(t: map<nat, Rq>) {
    forall j, k :: j in t && k in t && j < k ==> j + t[j].sectors <= k
  }

  ghost predicate Listed(h: Half) {
    && (forall r :: r in h.fifo ==> Queued(h, r))
    && (forall k :: k in h.tree ==> h.tree[k] in h.fifo)
    && (forall i, j :: 0 <= i < j < |h.fifo| ==> h.fifo[i] != h.fifo[j])
  }

  ghost predicate NextOk(h: Half) {
    match h.next
    case None => h.tree == map[]
    case Some(x) => IsBest(h.last, h.tree, x)
  }

  ghost predicate HalfOk(h: Half, sync: bool) {
    && TreeOk(h.tree)
    && (forall k :: k in h.tree ==> h.tree[k].sync == sync)
    && NoOverlap(h.tree)
    && Listed(h)
    && NextOk(h)
  }

  lemma MoveHalfOk(h: Half, sync: bool, rq: Rq)
    requires HalfOk(h, sync) && Queued(h, rq)
    ensures HalfOk(MoveHalf(h, rq), sync)
    ensures MoveHalf(h, rq).tree == h.tree - {rq.sector}
  {
    hide FindNext, IsBest, Without;
    var h' := MoveHalf(h, rq);
    assert NothingInside(h.tree, rq);
    NeighbourIsBest(h.tree, rq);
    assert rq in h.fifo;
    WithoutFacts(h.fifo, rq);
    assert Listed(h') by {
      forall k | k in h'.tree ensures h'.tree[k] in h'.fifo { assert k in h.tree; }
    }
  }

  lemma AddHalfOk(h: Half, sync: bool, rq: Rq)
    requires HalfOk(h, sync) && rq.sync == sync && rq.sector !in h.tree
    requires NoOverlap(h.tree[rq.sector := rq])
    ensures HalfOk(AddHalf(h, rq), sync)
  {
    hide Before, Choose, IsBest;
    var h' := AddHalf(h, rq);
    assert Listed(h') by {
      assert rq !in h.fifo;
      assert forall r :: r in h'.fifo <==> r in h.fifo || r == rq;
      forall k | k in h'.tree ensures h'.tree[k] in h'.fifo { if k != rq.sector { assert k in h.tree; } }
    }
    AddNext(h, rq);
  }

  lemma AddNext(h: Half, rq: Rq)
    requires NextOk(h) && TreeOk(h.tree) && rq.sector !in h.tree
    ensures NextOk(AddHalf(h, rq))
  {
    hide Before, Prefers;
    var h' := AddHalf(h, rq);
    forall k | k in h'.tree ensures AtOrBefore(h.last, h'.next.value.sector, k) {
      ChooseLeast(h.last, Some(rq), h.next, k);
    }
  }

  // ---- The whole scheduler ----

  ghost predicate InQueue(d: AsData, rq: Rq) {
    Queued(HalfOf(d, rq.sync), rq)
  }

  /** The lists, the caches and the count of outstanding requests. */
  ghost predicate Inv(d: AsData) {
    && HalfOk(d.sy, true)
    && HalfOk(d.asy, false)
    && (forall r :: r in d.out ==> !InQueue(d, r))
    && d.active <= d.out
    && d.nrDispatched == |d.out|
  }

  /** Batches do not mix: everything outstanding is of the current kind, or, while a change of
      batch is pending, there is something outstanding and it is all of the other kind. */
  ghost predicate Unmixed(d: AsData) {
    && (!d.changed ==> forall r :: r in d.out ==> r.sync == d.batchSync)
    && (d.changed ==> d.out != {} && forall r :: r in d.out ==> r.sync != d.batchSync)
    && (d.newBatch ==> d.batchSync && !d.changed)
  }

  lemma MoveInv(d: AsData, rq: Rq)
    requires Inv(d) && InQueue(d, rq)
    ensures Inv(Move(d, rq))
    ensures var d' := Move(d, rq);
            && HalfOf(d', rq.sync).tree == HalfOf(d, rq.sync).tree - {rq.sector}
            && HalfOf(d', !rq.sync) == HalfOf(d, !rq.sync)
            && d'.out == d.out + {rq} && rq !in d.out
            && d' == d.(sy := d'.sy, asy := d'.asy, nrDispatched := d.nrDispatched + 1, out := d'.out)
            && forall r :: InQueue(d', r) <==> InQueue(d, r) && r != rq
  {
    hide HalfOk, MoveHalf;
    var h := HalfOf(d, rq.sync);
    MoveHalfOk(h, rq.sync, rq);
    HalfSectors(h, rq.sync);
    var d' := Move(d, rq);
    assert forall r :: InQueue(d', r) <==> InQueue(d, r) && r != rq;
  }

  lemma HalfSectors(h: Half, sync: bool)
    requires HalfOk(h, sync)
    ensures TreeOk(h.tree)
  {
  }

  /** A new request may share its start sector with a queued one, which is then dispatched; it
      overlaps no other of its kind. */
  ghost predicate MayAdd(d: AsData, rq: Rq) {
    && rq !in d.out
    && !InQueue(d, rq)
    && NoOverlap(HalfOf(d, rq.sync).tree[rq.sector := rq])
  }

  /** What a new request at `sector` displaces. */
  function Displaced(h: Half, sector: nat): (r: set<Rq>) {
    if sector in h.tree then {h.tree[sector]} else {}
  }

  lemma EvictInv(d: AsData, rq: Rq)
    requires Inv(d) && MayAdd(d, rq)
    ensures var e := Evict(d, rq);
            && Inv(e)
            && HalfOf(e, rq.sync).tree == HalfOf(d, rq.sync).tree - {rq.sector}
            && HalfOf(e, !rq.sync) == HalfOf(d, !rq.sync)
            && e.out == d.out + Displaced(HalfOf(d, rq.sync), rq.sector)
            && rq !in e.out
            && e == d.(sy := e.sy, asy := e.asy, nrDispatched := e.nrDispatched, out := e.out)
  {
    hide HalfOk, Move;
    var h := HalfOf(d, rq.sync);
    if rq.sector in h.tree {
      HalfRq(h, rq.sync, rq.sector);
      MoveInv(d, h.tree[rq.sector]);
    } else {
      assert h.tree - {rq.sector} == h.tree;
    }
  }

  lemma HalfRq(h: Half, sync: bool, k: nat)
    requires HalfOk(h, sync) && k in h.tree
    ensures h.tree[k].sector == k && h.tree[k].sync == sync
  {
  }

  lemma AddInv(d: AsData, rq: Rq)
    requires Inv(d) && MayAdd(d, rq)
    ensures Inv(AddRq(d, rq))
    ensures var d' := AddRq(d, rq);
            && d'.out == Evict(d, rq).out
            && HalfOf(d', rq.sync).tree == HalfOf(d, rq.sync).tree[rq.sector := rq]
            && HalfOf(d', !rq.sync) == HalfOf(d, !rq.sync)
            && d' == d.(sy := d'.sy, asy := d'.asy, nrDispatched := d'.nrDispatched, out := d'.out)
  {
    hide HalfOk, Evict;
    var e := Evict(d, rq);
    EvictInv(d, rq);
    var h := HalfOf(e, rq.sync);
    assert h.tree[rq.sector := rq] == HalfOf(d, rq.sync).tree[rq.sector := rq];
    AddHalfOk(h, rq.sync, rq);
    var d' := AddRq(d, rq);
    assert HalfOf(d', rq.sync).tree == h.tree[rq.sector := rq];
    forall r | r in d'.out ensures !InQueue(d', r) {
      assert !InQueue(e, r);
    }
  }

  /** An eviction keeps the batches apart exactly when the evicted request is of the kind now on
      the device: the current one, or the previous one while a change of batch is pending. */
  lemma EvictionKeepsBatches(d: AsData, rq: Rq)
    requires Inv(d) && MayAdd(d, rq) && Unmixed(d)
    ensures Unmixed(AddRq(d, rq)) <==> rq.sector !in HalfOf(d, rq.sync).tree || rq.sync == (d.batchSync != d.changed)
  {
    hide HalfOk, Evict, AddRq;
    AddInv(d, rq);
    EvictInv(d, rq);
    var h := HalfOf(d, rq.sync);
    if rq.sector in h.tree {
      HalfRq(h, rq.sync, rq.sector);
      assert h.tree[rq.sector] in AddRq(d, rq).out;
    }
  }

  lemma HeadQueued(h: Half, sync: bool)
    requires HalfOk(h, sync)
    ensures h.fifo == [] <==> h.tree == map[]
    ensures h.next.None? <==> h.tree == map[]
    ensures h.next.Some? ==> Queued(h, h.next.value) && h.next.value.sync == sync
    ensures h.fifo != [] ==> Queued(h, h.fifo[0]) && h.fifo[0].sync == sync
  {
    if h.fifo != [] {
      assert h.fifo[0] in h.fifo;
      assert h.fifo[0].sector in h.tree;
    }
    if h.tree != map[] {
      var k :| k in h.tree;
      assert h.tree[k] in h.fifo;
    }
  }

  /** What is chosen for the current batch: a queued request of its kind. */
  ghost predicate Chosen(d: AsData, rq: Option<Rq>) {
    rq.Some? && InQueue(d, rq.value) && rq.value.sync == d.batchSync
  }

  /** What one unforced dispatch leaves: nothing moved, or one queued request of the batch's kind,
      which then shares the device only with its own kind. */
  ghost predicate Served(d: AsData, r: (AsData, bool)) {
    && Inv(r.0)
    && Unmixed(r.0)
    && r.0.bug == d.bug
    && r.0.active == d.active
    && (!r.1 ==> r.0.sy == d.sy && r.0.asy == d.asy && r.0.out == d.out)
    && (r.1 ==> exists rq :: InQueue(d, rq) && rq.sync == r.0.batchSync && Moved(d, r.0, rq))
  }

  ghost predicate Moved(d: AsData, d': AsData, rq: Rq) {
    d'.out == d.out + {rq} && !d'.changed && forall r :: InQueue(d', r) <==> InQueue(d, r) && r != rq
  }

  /** The state in which a request has been chosen: the outstanding ones are of the batch's kind,
      or of the other kind and the change is still pending. */
  ghost predicate Turning(d: AsData) {
    && (!d.changed ==> forall r :: r in d.out ==> r.sync == d.batchSync)
    && (d.changed ==> !d.newBatch && forall r :: r in d.out ==> r.sync != d.batchSync)
    && (d.newBatch ==> d.batchSync)
  }

  lemma FinishInv(d: AsData, rq: Option<Rq>)
    requires Inv(d) && rq.Some? && InQueue(d, rq.value)
    ensures Inv(Finish(d, rq).0)
  {
    hide HalfOk, Move;
    if !(d.changed && d.nrDispatched != 0) {
      var e := if d.changed
        then d.(bug := d.bug || d.newBatch, changed := false, newBatch := d.newBatch || d.batchSync)
        else d;
      assert forall x :: InQueue(e, x) == InQueue(d, x);
      MoveInv(e, rq.value);
    }
  }

  lemma ServeInv(d: AsData, rq: Option<Rq>, o: Oracle)
    requires Inv(d) && rq.Some? && InQueue(d, rq.value)
    ensures Inv(Serve(d, rq, o).0)
  {
    hide Finish, HalfOk;
    HeadQueued(HalfOf(d, d.batchSync), d.batchSync);
    var h := HalfOf(d, d.batchSync);
    FinishInv(d, if o.fifoExpired && h.fifo != [] then Head(h) else rq);
  }

  lemma SelectInv(d: AsData, o: Oracle)
    requires Inv(d) && (d.sy.fifo != [] || d.asy.fifo != [])
    ensures Inv(Select(d, o).0)
  {
    hide Serve, HalfOk;
    HeadQueued(d.sy, true);
    HeadQueued(d.asy, false);
    if d.sy.fifo != [] && !(d.asy.fifo != [] && d.batchSync) {
      var e := if d.batchSync then d else d.(changed := true, bug := d.bug || d.newBatch);
      var f := e.(batchSync := true);
      assert forall x :: InQueue(f, x) == InQueue(d, x);
      ServeInv(f, Head(f.sy), o);
    } else {
      var e := if d.batchSync then d.(changed := true, newBatch := false) else d;
      var f := e.(batchSync := false);
      assert forall x :: InQueue(f, x) == InQueue(d, x);
      ServeInv(f, f.asy.next, o);
    }
  }

  lemma DispatchInv(d: AsData, o: Oracle)
    requires Inv(d)
    ensures Inv(DispatchOne(d, o).0)
  {
    hide Serve, Finish, Select, HalfOk;
    HeadQueued(d.sy, true);
    HeadQueued(d.asy, false);
    var h := HalfOf(d, d.batchSync);
    if d.sy.fifo != [] || d.asy.fifo != [] { SelectInv(d, o); }
    if h.fifo != [] { FinishInv(d, Head(h)); }
    if h.next.Some? { ServeInv(d, h.next, o); }
  }

  lemma FinishServes(d: AsData, rq: Option<Rq>)
    requires Inv(d) && Turning(d) && Chosen(d, rq)
    ensures Served(d, Finish(d, rq))
  {
    hide HalfOk, Move;
    if !(d.changed && d.nrDispatched != 0) {
      var e := if d.changed
        then d.(bug := d.bug || d.newBatch, changed := false, newBatch := d.newBatch || d.batchSync)
        else d;
      assert d.changed ==> d.out == {};
      assert InQueue(e, rq.value);
      MoveInv(e, rq.value);
      var r := Finish(d, rq);
      assert r.0 == Move(e, rq.value);
      assert forall x :: InQueue(e, x) == InQueue(d, x);
      assert Moved(d, r.0, rq.value);
    }
  }

  lemma ServeServes(d: AsData, rq: Option<Rq>, o: Oracle)
    requires Inv(d) && Turning(d) && Chosen(d, rq)
    ensures Served(d, Serve(d, rq, o))
  {
    hide Finish, Served, HalfOk;
    var h := HalfOf(d, d.batchSync);
    HeadQueued(h, d.batchSync);
    FinishServes(d, if o.fifoExpired && h.fifo != [] then Head(h) else rq);
  }

  lemma ServedFrom(d: AsData, e: AsData, r: (AsData, bool))
    requires Served(e, r)
    requires e.sy == d.sy && e.asy == d.asy && e.out == d.out && e.active == d.active && e.bug == d.bug
    ensures Served(d, r)
  {
    hide Inv, Unmixed;
    assert forall x :: InQueue(e, x) == InQueue(d, x);
    if r.1 {
      var rq :| InQueue(e, rq) && rq.sync == r.0.batchSync && Moved(e, r.0, rq);
      assert InQueue(d, rq) && Moved(d, r.0, rq);
    }
  }

  lemma SelectServes(d: AsData, o: Oracle)
    requires Inv(d) && Unmixed(d) && !d.changed
    requires d.sy.fifo != [] || d.asy.fifo != []
    requires d.batchSync && d.asy.fifo == [] ==> d.sy.next.None? || !d.newBatch
    ensures Served(d, Select(d, o))
  {
    hide Served, Serve, HalfOk;
    HeadQueued(d.sy, true);
    HeadQueued(d.asy, false);
    if d.sy.fifo != [] && !(d.asy.fifo != [] && d.batchSync) {
      var e := if d.batchSync then d else d.(changed := true, bug := d.bug || d.newBatch);
      var f := e.(batchSync := true);
      assert Inv(f);
      ServeServes(f, Head(f.sy), o);
      ServedFrom(d, f, Select(d, o));
    } else {
      var e := if d.batchSync then d.(changed := true, newBatch := false) else d;
      var f := e.(batchSync := false);
      assert Inv(f);
      ServeServes(f, f.asy.next, o);
      ServedFrom(d, f, Select(d, o));
    }
  }

  /** Every unforced dispatch keeps the lists and caches and never lets the two kinds meet on the
      device; no warning fires. */
  lemma DispatchServes(d: AsData, o: Oracle)
    requires Inv(d) && Unmixed(d)
    ensures Served(d, DispatchOne(d, o))
  {
    hide Serve, Finish, Select, HalfOk;
    HeadQueued(d.sy, true);
    HeadQueued(d.asy, false);
    var rds := d.sy.fifo != [];
    var wrs := d.asy.fifo != [];
    var h := HalfOf(d, d.batchSync);
    if !(rds || wrs) || o.waiting || d.changed {
    } else if rds && wrs && !d.newBatch && o.batchExpired {
      SelectServes(d, o);
    } else if d.batchSync && o.mayAnticipate && o.headExpired && rds {
      FinishServes(d, Head(h));
    } else if d.batchSync && o.mayAnticipate && o.anticipate {
    } else if h.next.Some? {
      ServeServes(d, h.next, o);
    } else {
      SelectServes(d, o);
    }
  }

  /** While a change of batch is pending something is outstanding, and the completion of the last
      of it ends the wait. */
  lemma CompletedKeeps(d: AsData, rq: Rq)
    requires Inv(d) && rq in d.active
    ensures Inv(Completed(d, rq))
    ensures Unmixed(d) ==> Unmixed(Completed(d, rq)) && Completed(d, rq).bug == d.bug
    ensures Unmixed(d) && d.out == {rq} ==> !Completed(d, rq).changed
  {
    hide HalfOk;
    var d' := Completed(d, rq);
    assert forall r :: InQueue(d', r) == InQueue(d, r);
    assert rq in d.out && d'.out == d.out - {rq};
    assert |d'.out| == d.nrDispatched - 1;
    assert d.nrDispatched == 1 <==> d'.out == {};
  }

  // ---- Runs ----

  datatype Op = Add(rq: Rq) | Dispatch(o: Oracle) | Activate(rq: Rq) | Deactivate(rq: Rq) | Complete(rq: Rq) | Force

  ghost predicate Enabled(d: AsData, op: Op) {
    match op
    case Add(rq) => MayAdd(d, rq)
    case Dispatch(_) => true
    case Activate(rq) => rq in d.out
    case Deactivate(rq) => rq in d.active
    case Complete(rq) => rq in d.active
    case Force => true
  }

  function Step(d: AsData, op: Op): (d': AsData) {
    match op
    case Add(rq) => AddRq(d, rq)
    case Dispatch(o) => DispatchOne(d, o).0
    case Activate(rq) => d.(active := d.active + {rq})
    case Deactivate(rq) => d.(active := d.active - {rq})
    case Complete(rq) => Completed(d, rq)
    case Force => ForceAll(d)
  }

  /** The operations that respect the batches: an addition that evicts only in phase, and a forced
      dispatch only when nothing asynchronous is queued or outstanding. */
  ghost predicate InPhase(d: AsData, op: Op) {
    match op
    case Add(rq) => rq.sector !in HalfOf(d, rq.sync).tree || rq.sync == (d.batchSync != d.changed)
    case Force => d.asy.tree == map[] && forall r :: r in d.out ==> r.sync
    case _ => true
  }

  ghost predicate IsRun(run: seq<AsData>, ops: seq<Op>) {
    && |run| == |ops| + 1
    && run[0] == InitAs()
    && forall i :: 0 <= i < |ops| ==> Enabled(run[i], ops[i]) && run[i + 1] == Step(run[i], ops[i])
  }

  lemma Removal(t: map<nat, Rq>, k: nat)
    requires k in t
    ensures |t - {k}| == |t| - 1
    ensures t.Values == {t[k]} + (t - {k}).Values
  {
    assert t.Keys == (t - {k}).Keys + {k};
    forall r | r in t.Values ensures r == t[k] || r in (t - {k}).Values {
      var j :| j in t && t[j] == r;
      if j != k { assert (t - {k})[j] == r; }
    }
  }

  lemma DrainUnfolds(d: AsData, sync: bool, n: nat)
    ensures var h := HalfOf(d, sync);
            DrainHalf(d, sync, n) == if n == 0 || h.next.None? then d else DrainHalf(Move(d, h.next.value), sync, n - 1)
  {
  }

  /** One step of draining a direction. */
  lemma DrainOne(d: AsData, sync: bool)
    requires Inv(d)
    ensures var h := HalfOf(d, sync);
            && (h.next.None? <==> h.tree == map[])
            && (h.next.Some? ==>
                  var e := Move(d, h.next.value);
                  && Inv(e) && InQueue(d, h.next.value)
                  && |HalfOf(e, sync).tree| == |h.tree| - 1
                  && HalfOf(e, !sync) == HalfOf(d, !sync)
                  && e.out + HalfOf(e, sync).tree.Values == d.out + h.tree.Values
                  && e == d.(sy := e.sy, asy := e.asy, nrDispatched := e.nrDispatched, out := e.out))
  {
    hide HalfOk, Move;
    var h := HalfOf(d, sync);
    HeadQueued(h, sync);
    if h.next.Some? {
      MoveInv(d, h.next.value);
      Removal(h.tree, h.next.value.sector);
    }
  }

  lemma {:induction false} DrainInv(d: AsData, sync: bool, n: nat)
    requires Inv(d) && n == |HalfOf(d, sync).tree|
    ensures var d' := DrainHalf(d, sync, n);
            && Inv(d')
            && HalfOf(d', sync).tree == map[]
            && HalfOf(d', !sync) == HalfOf(d, !sync)
            && d'.out == d.out + HalfOf(d, sync).tree.Values
            && d' == d.(sy := d'.sy, asy := d'.asy, nrDispatched := d'.nrDispatched, out := d'.out)
    decreases n
  {
    hide Inv, Move;
    var h := HalfOf(d, sync);
    DrainOne(d, sync);
    if h.next.Some? {
      DrainInv(Move(d, h.next.value), sync, n - 1);
    }
  }

  /** A forced dispatch empties both directions onto the device. */
  lemma ForceEmpties(d: AsData)
    requires Inv(d)
    ensures var d' := ForceAll(d);
            && Inv(d')
            && d'.sy.tree == map[] && d'.asy.tree == map[]
            && d'.out == d.out + d.sy.tree.Values + d.asy.tree.Values
            && d'.batchSync && !d'.changed && !d'.newBatch && d'.bug == d.bug && d'.active == d.active
  {
    hide HalfOk, DrainHalf;
    var r := d.(batchSync := true, changed := false, newBatch := false);
    assert forall x :: InQueue(r, x) == InQueue(d, x);
    DrainInv(r, true, |r.sy.tree|);
    var s := DrainHalf(r, true, |r.sy.tree|);
    DrainInv(s, false, |s.asy.tree|);
  }

  /** A forced dispatch keeps the batches apart exactly when all it can put on the device, and all
      that is there, is synchronous. */
  lemma ForceKeepsBatches(d: AsData)
    requires Inv(d)
    ensures Unmixed(ForceAll(d)) <==> InPhase(d, Force)
  {
    hide HalfOk, ForceAll;
    ForceEmpties(d);
    var d' := ForceAll(d);
    forall r | r in d.sy.tree.Values ensures r.sync {
      var k :| k in d.sy.tree && d.sy.tree[k] == r;
      HalfRq(d.sy, true, k);
    }
    forall r | r in d.asy.tree.Values ensures !r.sync {
      var k :| k in d.asy.tree && d.asy.tree[k] == r;
      HalfRq(d.asy, false, k);
    }
    if d.asy.tree != map[] {
      var k :| k in d.asy.tree;
      assert d.asy.tree[k] in d.asy.tree.Values;
      assert d.asy.tree[k] in d'.out;
    }
    assert d.out <= d'.out;
  }

  lemma StepInv(d: AsData, op: Op)
    requires Inv(d) && Enabled(d, op)
    ensures Inv(Step(d, op))
  {
    hide HalfOk, AddRq, DispatchOne, ForceAll;
    match op
    case Add(rq) => AddInv(d, rq);
    case Dispatch(o) => DispatchInv(d, o);
    case Activate(rq) => assert forall x :: InQueue(Step(d, op), x) == InQueue(d, x);
    case Deactivate(rq) => assert forall x :: InQueue(Step(d, op), x) == InQueue(d, x);
    case Complete(rq) => CompletedKeeps(d, rq);
    case Force => ForceEmpties(d);
  }

  /** Over every run, evictions and forced dispatches included, the cached next request of each
      direction is the best one queued, and is missing only when nothing is queued. */
  lemma {:induction false} NextIsBest(run: seq<AsData>, ops: seq<Op>, n: nat)
    requires IsRun(run, ops) && n < |run|
    ensures Inv(run[n])
    ensures NextOk(run[n].sy) && NextOk(run[n].asy)
  {
    hide HalfOk, Step;
    if n > 0 {
      NextIsBest(run, ops, n - 1);
      assert run[n - 1 + 1] == Step(run[n - 1], ops[n - 1]);
      StepInv(run[n - 1], ops[n - 1]);
    } else {
      InitInv();
    }
    HalfNext(run[n].sy, true);
    HalfNext(run[n].asy, false);
  }

  lemma HalfNext(h: Half, sync: bool)
    requires HalfOk(h, sync)
    ensures NextOk(h)
  {
  }

  lemma InitInv()
    ensures Inv(InitAs()) && Unmixed(InitAs())
  {
  }

  lemma StepUnmixed(d: AsData, op: Op)
    requires Inv(d) && Enabled(d, op) && Unmixed(d) && InPhase(d, op)
    ensures Unmixed(Step(d, op)) && Step(d, op).bug == d.bug
  {
    hide HalfOk, AddRq, DispatchOne, ForceAll;
    match op
    case Add(rq) => AddInv(d, rq); EvictionKeepsBatches(d, rq);
    case Dispatch(o) => DispatchServes(d, o);
    case Activate(rq) =>
    case Deactivate(rq) =>
    case Complete(rq) => CompletedKeeps(d, rq);
    case Force => ForceEmpties(d); ForceKeepsBatches(d);
  }

  /** Over every run whose evictions and forced dispatches are in phase, batches of the two kinds
      never meet on the device, a pending change always has something to wait for, and no warning
      fires. */
  lemma {:induction false} BatchesNeverMix(run: seq<AsData>, ops: seq<Op>, n: nat)
    requires IsRun(run, ops) && n < |run|
    requires forall i :: 0 <= i < |ops| ==> InPhase(run[i], ops[i])
    ensures Unmixed(run[n]) && !run[n].bug
  {
    hide Inv, Unmixed, Step, Enabled, InPhase;
    if n > 0 {
      BatchesNeverMix(run, ops, n - 1);
      NextIsBest(run, ops, n - 1);
      assert run[n - 1 + 1] == Step(run[n - 1], ops[n - 1]);
      StepUnmixed(run[n - 1], ops[n - 1]);
    } else {
      InitInv();
    }
  }

  /** The first operation out of phase mixes the batches: phase is not just enough, it is exact. */
  lemma PhaseIsExact(run: seq<AsData>, ops: seq<Op>)
    requires IsRun(run, ops)
    ensures (forall i :: 0 <= i < |run| ==> Unmixed(run[i])) <==>
        (forall i :: 0 <= i < |ops| ==> InPhase(run[i], ops[i]))
  {
    hide Inv, Unmixed, Step, Enabled, InPhase;
    if forall i :: 0 <= i < |ops| ==> InPhase(run[i], ops[i]) {
      forall i | 0 <= i < |run| ensures Unmixed(run[i]) { BatchesNeverMix(run, ops, i); }
    } else {
      var i :| 0 <= i < |ops| && !InPhase(run[i], ops[i]);
      NextIsBest(run, ops, i);
      assert run[i + 1] == Step(run[i], ops[i]);
      if Unmixed(run[i]) {
        OutOfPhaseMixes(run[i], ops[i]);
        assert !Unmixed(run[i + 1]);
      }
    }
  }

  lemma OutOfPhaseMixes(d: AsData, op: Op)
    requires Inv(d) && Enabled(d, op) && Unmixed(d) && !InPhase(d, op)
    ensures !Unmixed(Step(d, op))
  {
    hide HalfOk, AddRq, ForceAll, Unmixed, Inv;
    match op
    case Add(rq) => EvictionKeepsBatches(d, rq);
    case Force => ForceKeepsBatches(d);
  }

  // ---- Runs that mix the batches ----

  const WRITE := Rq(0, false, 8, 8)
  const SAME_PLACE := Rq(1, false, 8, 8)

  /** After one asynchronous request on an idle scheduler, whose batch is synchronous. */
  lemma OneWrite()
    ensures var d := InitAs(); Enabled(d, Add(WRITE)) && Inv(d) && Inv(AddRq(d, WRITE)) && Unmixed(AddRq(d, WRITE))
    ensures var d := AddRq(InitAs(), WRITE);
            d.asy.tree == map[8 := WRITE] && d.sy.tree == map[] && d.out == {} && d.batchSync && !d.changed
  {
    var d := InitAs();
    InitInv();
    assert MayAdd(d, WRITE);
    AddInv(d, WRITE);
    EvictionKeepsBatches(d, WRITE);
  }

  /** A second request at the same sector puts the first on the device in the wrong batch. */
  lemma EvictionMixes() returns (run: seq<AsData>, ops: seq<Op>)
    ensures IsRun(run, ops) && |ops| == 2 && ops[1] == Add(SAME_PLACE) && !Unmixed(run[2])
  {
    OneWrite();
    hide AddRq, Inv, Unmixed;
    var d := InitAs();
    var e := AddRq(d, WRITE);
    assert MayAdd(e, SAME_PLACE);
    EvictionKeepsBatches(e, SAME_PLACE);
    run, ops := [d, e, AddRq(e, SAME_PLACE)], [Add(WRITE), Add(SAME_PLACE)];
  }

  /** So does a forced dispatch. */
  lemma ForceMixes() returns (run: seq<AsData>, ops: seq<Op>)
    ensures IsRun(run, ops) && |ops| == 2 && ops[1] == Force && !Unmixed(run[2])
  {
    OneWrite();
    hide AddRq, Inv, Unmixed, ForceAll;
    var d := InitAs();
    var e := AddRq(d, WRITE);
    ForceKeepsBatches(e);
    assert 8 in e.asy.tree;
    run, ops := [d, e, ForceAll(e)], [Add(WRITE), Force];
  }
}
