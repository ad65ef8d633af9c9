/** Invariants, drain termination and the starvation bound of the deadline scheduler. */
module DeadlineSafety {
  import opened Collections
  import opened Deadline

  /** The tree of a direction holds exactly its queued requests but those in `out`, each under
      its start sector (so sectors are distinct). */
  ghost predicate TreeOk(attr: map<nat, Attr>, t: map<nat, nat>, write: bool, out: set<nat>) {
    && (forall k :: k in t ==> t[k] in attr && t[k] !in out && attr[t[k]].sector == k && attr[t[k]].write == write)
    && (forall id :: id in attr && attr[id].write == write && id !in out ==>
          attr[id].sector in t && t[attr[id].sector] == id)
  }

  ghost predicate FifoOk(attr: map<nat, Attr>, q: seq<nat>, write: bool) {
    && Distinct(q)
    && (forall id :: id in q <==> id in attr && attr[id].write == write)
  }

  /** Deadlines never decrease along the FIFO, and none lies further ahead than a new one would. */
  ghost predicate Timely(attr: map<nat, Attr>, q: seq<nat>, horizon: nat) {
    && (forall i, j :: 0 <= i < j < |q| && q[i] in attr && q[j] in attr ==> attr[q[i]].time <= attr[q[j]].time)
    && (forall i :: 0 <= i < |q| && q[i] in attr ==> attr[q[i]].time <= horizon)
  }

  ghost predicate SideFacts(attr: map<nat, Attr>, s: Side, write: bool, horizon: nat, out: set<nat>) {
    && TreeOk(attr, s.tree, write, out)
    && FifoOk(attr, s.fifo, write)
    && Timely(attr, s.fifo, horizon)
    && (s.next.Some? ==> s.next.value in attr && attr[s.next.value].write == write)
  }

  ghost predicate SideOk(d: Data, write: bool, now: nat, out: set<nat>) {
    SideFacts(d.attr, Get(d, write), write, now + Expire(d.cfg, write), out)
  }

  /** `now` is a time up to which every clock reading of the run has gone. */
  ghost predicate Inv(d: Data, now: nat) {
    && SideOk(d, false, now, {}) && SideOk(d, true, now, {})
    && !(d.rd.next.Some? && d.wr.next.Some?)
    && d.nrSorted == |d.rd.fifo| + |d.wr.fifo|
  }

  lemma InitInv(cfg: Tunables)
    ensures Inv(Init(cfg), 0)
  {
  }

  // ---- Lists ----

  lemma DropTimely(attr: map<nat, Attr>, q: seq<nat>, k: nat, horizon: nat)
    requires Timely(attr, q, horizon) && k < |q|
    ensures Timely(attr, DropAt(q, k), horizon)
  {
    var q' := DropAt(q, k);
    assert forall i :: 0 <= i < |q'| ==> q'[i] == if i < k then q[i] else q[i + 1];
  }

  lemma FewerTimely(attr: map<nat, Attr>, attr': map<nat, Attr>, q: seq<nat>, horizon: nat)
    requires Timely(attr, q, horizon)
    requires forall id :: id in attr' ==> id in attr && attr'[id].time == attr[id].time
    ensures Timely(attr', q, horizon)
  {
  }

  // ---- Removing, moving and adding ----

  lemma RemoveFifo(attr: map<nat, Attr>, q: seq<nat>, id: nat, horizon: nat)
    requires id in attr && FifoOk(attr, q, attr[id].write) && Timely(attr, q, horizon)
    ensures FifoOk(attr - {id}, Without(q, id), attr[id].write)
    ensures Timely(attr - {id}, Without(q, id), horizon)
    ensures |Without(q, id)| == |q| - 1
  {
    var k := IndexOf(q, id);
    DropFacts(q, k);
    DropTimely(attr, q, k, horizon);
    FewerTimely(attr, attr - {id}, DropAt(q, k), horizon);
  }

  lemma RemoveTree(attr: map<nat, Attr>, t: map<nat, nat>, id: nat, out: set<nat>)
    requires id in attr && id !in out && TreeOk(attr, t, attr[id].write, out)
    ensures TreeOk(attr - {id}, t - {attr[id].sector}, attr[id].write, out)
    ensures var n := NextRq(t, attr[id].sector);
      n.Some? ==> n.value in attr && n.value != id && attr[n.value].write == attr[id].write
  {
  }

  /** The side of a request without it. */
  function Shrunk(attr: map<nat, Attr>, s: Side, id: nat): (s': Side)
    requires id in attr
  {
    Side(s.tree - {attr[id].sector}, Without(s.fifo, id),
         if s.next == Some(id) then NextRq(s.tree, attr[id].sector) else s.next)
  }

  lemma RemoveSide(attr: map<nat, Attr>, s: Side, id: nat, horizon: nat, out: set<nat>)
    requires id in attr && id !in out && SideFacts(attr, s, attr[id].write, horizon, out)
    ensures SideFacts(attr - {id}, Shrunk(attr, s, id), attr[id].write, horizon, out)
    ensures |Shrunk(attr, s, id).fifo| == |s.fifo| - 1
  {
    RemoveFifo(attr, s.fifo, id, horizon);
    RemoveTree(attr, s.tree, id, out);
  }

  lemma OtherSide(attr: map<nat, Attr>, s: Side, id: nat, horizon: nat)
    requires id in attr && SideFacts(attr, s, !attr[id].write, horizon, {})
    ensures SideFacts(attr - {id}, s, !attr[id].write, horizon, {})
  {
    FewerTimely(attr, attr - {id}, s.fifo, horizon);
  }

  lemma RemoveShape(d: Data, id: nat)
    requires id in d.attr
    ensures var d', w := RemoveRq(d, id), d.attr[id].write;
      && d'.attr == d.attr - {id} && d'.cfg == d.cfg
      && Get(d', w) == Shrunk(d.attr, Get(d, w), id) && Get(d', !w) == Get(d, !w)
      && d' == d.(attr := d'.attr, rd := d'.rd, wr := d'.wr)
  {
  }

  lemma RemoveSides(d: Data, id: nat, w: bool, now: nat, out: set<nat>)
    requires SideOk(d, w, now, out) && SideOk(d, !w, now, {}) && id in d.attr && id !in out && w == d.attr[id].write
    ensures var d' := RemoveRq(d, id); SideOk(d', w, now, out) && SideOk(d', !w, now, {})
    ensures |Get(RemoveRq(d, id), w).fifo| == |Get(d, w).fifo| - 1
  {
    RemoveShape(d, id);
    RemoveSide(d.attr, Get(d, w), id, now + Expire(d.cfg, w), out);
    OtherSide(d.attr, Get(d, !w), id, now + Expire(d.cfg, !w));
  }

  /** The state from which `MoveRq` removes the request: the batch continues at its successor. */
  function Redirected(d: Data, id: nat): (d': Data)
    requires id in d.attr
  {
    var w := d.attr[id].write;
    var d1 := d.(rd := d.rd.(next := None), wr := d.wr.(next := None));
    Set(d1, w, Get(d1, w).(next := NextRq(Get(d, w).tree, d.attr[id].sector)))
      .(lastSector := d.attr[id].sector + d.attr[id].sectors)
  }

  lemma MoveShape(d: Data, id: nat, w: bool)
    requires id in d.attr && w == d.attr[id].write
    ensures var d', d1 := MoveRq(d, id), Redirected(d, id);
      && d1.attr == d.attr && d1.cfg == d.cfg
      && Get(d1, !w) == Get(d, !w).(next := None)
      && Get(d1, w) == Get(d, w).(next := NextRq(Get(d, w).tree, d.attr[id].sector))
      && d' == RemoveRq(d1, id).(nrSorted := d.nrSorted - 1, dispatched := d.dispatched + [id])
  {
    RemoveShape(Redirected(d, id), id);
  }

  lemma RedirectSides(d: Data, id: nat, w: bool, now: nat, out: set<nat>)
    requires SideOk(d, w, now, out) && SideOk(d, !w, now, {}) && id in d.attr && id !in out && w == d.attr[id].write
    ensures SideOk(Redirected(d, id), w, now, out) && SideOk(Redirected(d, id), !w, now, {})
    ensures Get(Redirected(d, id), w).next != Some(id)
  {
    MoveShape(d, id, w);
    RemoveTree(d.attr, Get(d, w).tree, id, out);
  }

  /** Moving a request to the dispatch list keeps both sides in order, leaves at most one cached
      next request, and changes neither counter of the batching logic. */
  lemma MoveInv(d: Data, id: nat, w: bool, now: nat, out: set<nat>)
    requires SideOk(d, w, now, out) && SideOk(d, !w, now, {}) && id in d.attr && id !in out && w == d.attr[id].write
    ensures var d' := MoveRq(d, id);
      && SideOk(d', w, now, out) && SideOk(d', !w, now, {})
      && Get(d', !w).next.None? && d'.nrSorted == d.nrSorted - 1 && d'.cfg == d.cfg
      && |Get(d', w).fifo| == |Get(d, w).fifo| - 1 && Get(d', !w).fifo == Get(d, !w).fifo
      && d'.attr == d.attr - {id} && d'.dispatched == d.dispatched + [id]
      && Get(d', w).tree == Get(d, w).tree - {d.attr[id].sector}
      && d'.batching == d.batching && d'.starved == d.starved
  {
    hide SideFacts;
    MoveShape(d, id, w);
    RedirectSides(d, id, w, now, out);
    RemoveShape(Redirected(d, id), id);
    RemoveSides(Redirected(d, id), id, w, now, out);
  }

  lemma Later(d: Data, now: nat, now': nat)
    requires Inv(d, now) && now <= now'
    ensures Inv(d, now')
  {
  }

  // Adding a request.

  lemma InsertTree(attr: map<nat, Attr>, t: map<nat, nat>, id: nat, a: Attr)
    requires TreeOk(attr, t, a.write, {}) && id !in attr && a.sector !in t
    ensures TreeOk(attr[id := a], t[a.sector := id], a.write, {})
  {
  }

  lemma InsertFifo(attr: map<nat, Attr>, q: seq<nat>, id: nat, a: Attr)
    requires FifoOk(attr, q, a.write) && id !in attr
    ensures FifoOk(attr[id := a], q + [id], a.write)
  {
    assert forall x :: x in q + [id] <==> x == id || x in q;
  }

  lemma InsertTimely(attr: map<nat, Attr>, q: seq<nat>, id: nat, a: Attr)
    requires Timely(attr, q, a.time) && id !in attr && (forall x :: x in q ==> x in attr)
    ensures Timely(attr[id := a], q + [id], a.time)
  {
    var q' := q + [id];
    assert forall i :: 0 <= i < |q| ==> q'[i] == q[i] && q[i] in q;
  }

  lemma InsertSide(attr: map<nat, Attr>, s: Side, id: nat, a: Attr)
    requires SideFacts(attr, s, a.write, a.time, {}) && id !in attr && a.sector !in s.tree
    ensures SideFacts(attr[id := a], Side(s.tree[a.sector := id], s.fifo + [id], s.next), a.write, a.time, {})
  {
    InsertTree(attr, s.tree, id, a);
    InsertFifo(attr, s.fifo, id, a);
    InsertTimely(attr, s.fifo, id, a);
  }

  lemma InsertOther(attr: map<nat, Attr>, s: Side, id: nat, a: Attr, horizon: nat)
    requires SideFacts(attr, s, !a.write, horizon, {}) && id !in attr
    ensures SideFacts(attr[id := a], s, !a.write, horizon, {})
  {
    assert forall i :: 0 <= i < |s.fifo| ==> s.fifo[i] in s.fifo && s.fifo[i] != id;
  }

  /** The state after a request at the same sector has been moved out of the way. */
  function Cleared(d: Data, w: bool, sector: nat): (d': Data)
  {
    var t := Get(d, w).tree;
    if sector in t && t[sector] in d.attr then MoveRq(d, t[sector]) else d
  }

  /** What `Cleared` and the batching logic have in common: nothing. */
  ghost predicate SameCounters(d: Data, d': Data) {
    d'.cfg == d.cfg && d'.batching == d.batching && d'.starved == d.starved
  }

  lemma TreeMembers(d: Data, w: bool, now: nat, out: set<nat>)
    requires SideOk(d, w, now, out)
    ensures var t := Get(d, w).tree;
      forall k :: k in t ==> t[k] in d.attr && t[k] !in out && d.attr[t[k]].sector == k && d.attr[t[k]].write == w
  {
  }

  lemma ClearedInv(d: Data, w: bool, sector: nat, now: nat, out: set<nat>)
    requires SideOk(d, w, now, out) && SideOk(d, !w, now, {})
    requires !(d.rd.next.Some? && d.wr.next.Some?)
    ensures var d' := Cleared(d, w, sector);
      && SideOk(d', w, now, out) && SideOk(d', !w, now, {})
      && !(d'.rd.next.Some? && d'.wr.next.Some?)
      && d'.nrSorted - |d'.rd.fifo| - |d'.wr.fifo| == d.nrSorted - |d.rd.fifo| - |d.wr.fifo|
      && sector !in Get(d', w).tree && SameCounters(d, d')
      && (forall id :: id in d'.attr ==> id in d.attr && d'.attr[id] == d.attr[id])
      && (forall id :: id in out && id in d.attr ==> id in d'.attr)
  {
    hide SideFacts;
    var t := Get(d, w).tree;
    TreeMembers(d, w, now, out);
    if sector in t {
      MoveInv(d, t[sector], w, now, out);
    }
  }

  lemma AddShape(d: Data, id: nat, w: bool, sector: nat, sectors: nat, now: nat)
    ensures var a := Attr(w, sector, sectors, now + Expire(d.cfg, w));
      var d0 := d.(nrSorted := d.nrSorted + 1);
      var d1, d' := Cleared(d0, w, sector), Add(d, id, w, sector, sectors, now);
      var s := Get(d1, w);
      && d'.attr == d1.attr[id := a]
      && Get(d', w) == Side(s.tree[sector := id], s.fifo + [id], s.next) && Get(d', !w) == Get(d1, !w)
      && d' == d1.(attr := d'.attr, rd := d'.rd, wr := d'.wr)
  {
  }

  /** Adding a request, with the eviction of a request at the same sector if there is one. */
  lemma AddInv(d: Data, id: nat, w: bool, sector: nat, sectors: nat, now: nat)
    requires Inv(d, now) && id !in d.attr
    ensures Inv(Add(d, id, w, sector, sectors, now), now)
    ensures SameCounters(d, Add(d, id, w, sector, sectors, now)) && id in Add(d, id, w, sector, sectors, now).attr
  {
    hide SideFacts, Add, Cleared, MoveRq, AddRb;
    var a := Attr(w, sector, sectors, now + Expire(d.cfg, w));
    var d0 := d.(nrSorted := d.nrSorted + 1);
    assert SideOk(d0, w, now, {}) && SideOk(d0, !w, now, {});
    TreeMembers(d, w, now, {});
    var d1 := Cleared(d0, w, sector);
    ClearedInv(d0, w, sector, now, {});
    AddShape(d, id, w, sector, sectors, now);
    InsertSide(d1.attr, Get(d1, w), id, a);
    InsertOther(d1.attr, Get(d1, !w), id, a, now + Expire(d1.cfg, !w));
  }

  // Merges.

  lemma TakeOut(attr: map<nat, Attr>, s: Side, id: nat, horizon: nat)
    requires id in attr && SideFacts(attr, s, attr[id].write, horizon, {})
    ensures SideFacts(attr, s.(tree := s.tree - {attr[id].sector}), attr[id].write, horizon, {id})
  {
  }

  lemma PutBack(attr: map<nat, Attr>, s: Side, id: nat, a: Attr, horizon: nat)
    requires id in attr && SideFacts(attr, s, a.write, horizon, {id}) && a.sector !in s.tree
    requires a.write == attr[id].write && a.time == attr[id].time
    ensures SideFacts(attr[id := a], s.(tree := s.tree[a.sector := id]), a.write, horizon, {})
  {
  }

  lemma ChangeOther(attr: map<nat, Attr>, s: Side, id: nat, a: Attr, horizon: nat)
    requires id in attr && a.write == attr[id].write && SideFacts(attr, s, !a.write, horizon, {})
    ensures SideFacts(attr[id := a], s, !a.write, horizon, {})
  {
    assert forall i :: 0 <= i < |s.fifo| ==> s.fifo[i] in s.fifo && s.fifo[i] != id;
  }

  lemma FrontMergeShape(d: Data, id: nat, w: bool, sector: nat)
    requires id in d.attr && sector <= d.attr[id].sector && w == d.attr[id].write
    ensures var a := d.attr[id];
      var d1 := Set(d, w, Get(d, w).(tree := Get(d, w).tree - {a.sector}));
      var d2, d' := Cleared(d1, w, sector), FrontMerge(d, id, sector);
      && d'.attr == d2.attr[id := a.(sector := sector, sectors := a.sectors + (a.sector - sector))]
      && Get(d', w) == Get(d2, w).(tree := Get(d2, w).tree[sector := id]) && Get(d', !w) == Get(d2, !w)
      && d' == d2.(attr := d'.attr, rd := d'.rd, wr := d'.wr)
      && Get(d1, !w) == Get(d, !w) && Get(d1, w) == Get(d, w).(tree := Get(d, w).tree - {a.sector})
      && d1 == d.(rd := d1.rd, wr := d1.wr)
  {
  }

  /** A front merge moves a request in the tree, evicting what it collides with. */
  lemma FrontMergeInv(d: Data, id: nat, w: bool, sector: nat, now: nat)
    requires Inv(d, now) && id in d.attr && sector <= d.attr[id].sector && w == d.attr[id].write
    ensures Inv(FrontMerge(d, id, sector), now)
    ensures SameCounters(d, FrontMerge(d, id, sector))
  {
    hide SideFacts, FrontMerge, Cleared, MoveRq, AddRb;
    var a := d.attr[id];
    var a' := a.(sector := sector, sectors := a.sectors + (a.sector - sector));
    assert SideOk(d, w, now, {}) && SideOk(d, !w, now, {});
    TreeMembers(d, w, now, {});
    FrontMergeShape(d, id, w, sector);
    TakeOut(d.attr, Get(d, w), id, now + Expire(d.cfg, w));
    var d1 := Set(d, w, Get(d, w).(tree := Get(d, w).tree - {a.sector}));
    ClearedInv(d1, w, sector, now, {id});
    var d2 := Cleared(d1, w, sector);
    PutBack(d2.attr, Get(d2, w), id, a', now + Expire(d.cfg, w));
    ChangeOther(d2.attr, Get(d2, !w), id, a', now + Expire(d.cfg, !w));
  }

  lemma BackMergeInv(d: Data, id: nat, more: nat, now: nat)
    requires Inv(d, now) && id in d.attr
    ensures Inv(BackMerge(d, id, more), now)
  {
    hide SideFacts;
    var d' := BackMerge(d, id, more);
    SameButSectors(d.attr, d'.attr, d.rd, false, now + Expire(d.cfg, false));
    SameButSectors(d.attr, d'.attr, d.wr, true, now + Expire(d.cfg, true));
  }

  lemma SameButSectors(attr: map<nat, Attr>, attr': map<nat, Attr>, s: Side, w: bool, horizon: nat)
    requires SideFacts(attr, s, w, horizon, {}) && attr'.Keys == attr.Keys
    requires forall id :: id in attr ==> attr'[id] == attr[id].(sectors := attr'[id].sectors)
    ensures SideFacts(attr', s, w, horizon, {})
  {
  }

  /** Behind `after` and with its deadline, a request is in its place in the FIFO. */
  lemma PutTimely(attr: map<nat, Attr>, q: seq<nat>, k: nat, id: nat, a: Attr, horizon: nat)
    requires Timely(attr, q, horizon) && 0 < k <= |q| && id !in q
    requires q[k - 1] in attr && a.time == attr[q[k - 1]].time
    ensures Timely(attr[id := a], PutAt(q, k, id), horizon)
  {
    var q' := PutAt(q, k, id);
    assert forall i :: 0 <= i < |q'| ==> q'[i] == if i < k then q[i] else if i == k then id else q[i - 1];
  }

  lemma InheritFifo(attr: map<nat, Attr>, q: seq<nat>, id: nat, gone: nat, horizon: nat)
    requires id in attr && gone in attr && id != gone && attr[gone].write == attr[id].write
    requires FifoOk(attr, q, attr[id].write) && Timely(attr, q, horizon)
    ensures var attr' := attr[id := attr[id].(time := attr[gone].time)];
      FifoOk(attr', MoveBehind(q, id, gone), attr[id].write) && Timely(attr', MoveBehind(q, id, gone), horizon)
    ensures |MoveBehind(q, id, gone)| == |q|
  {
    var k := IndexOf(q, id);
    var r := DropAt(q, k);
    DropFacts(q, k);
    DropTimely(attr, q, k, horizon);
    assert gone in q && gone in r && id !in r;
    var m := IndexOf(r, gone) + 1;
    PutFacts(r, m, id);
    PutTimely(attr, r, m, id, attr[id].(time := attr[gone].time), horizon);
  }

  lemma InheritTree(attr: map<nat, Attr>, t: map<nat, nat>, id: nat, time: nat)
    requires id in attr && TreeOk(attr, t, attr[id].write, {})
    ensures TreeOk(attr[id := attr[id].(time := time)], t, attr[id].write, {})
  {
  }

  lemma InheritSide(attr: map<nat, Attr>, s: Side, id: nat, gone: nat, horizon: nat)
    requires id in attr && gone in attr && id != gone && attr[gone].write == attr[id].write
    requires SideFacts(attr, s, attr[id].write, horizon, {})
    ensures SideFacts(attr[id := attr[id].(time := attr[gone].time)], s.(fifo := MoveBehind(s.fifo, id, gone)),
                      attr[id].write, horizon, {})
    ensures |MoveBehind(s.fifo, id, gone)| == |s.fifo|
  {
    InheritFifo(attr, s.fifo, id, gone, horizon);
    InheritTree(attr, s.tree, id, attr[gone].time);
  }

  /** The surviving request takes over the deadline and the place of the absorbed one, if earlier. */
  function Inherited(d: Data, id: nat, gone: nat): (d': Data)
    requires id in d.attr && gone in d.attr
  {
    var a, g := d.attr[id], d.attr[gone];
    var s := Get(d, a.write);
    if g.time < a.time
    then Set(d, a.write, s.(fifo := MoveBehind(s.fifo, id, gone))).(attr := d.attr[id := a.(time := g.time)])
    else d
  }

  lemma InheritedInv(d: Data, id: nat, gone: nat, w: bool, now: nat)
    requires Inv(d, now) && id in d.attr && gone in d.attr && id != gone
    requires d.attr[id].write == d.attr[gone].write == w
    ensures Inv(Inherited(d, id, gone), now) && SameCounters(d, Inherited(d, id, gone))
  {
    hide SideFacts;
    var a, g, s := d.attr[id], d.attr[gone], Get(d, w);
    assert SideOk(d, w, now, {}) && SideOk(d, !w, now, {});
    if g.time < a.time {
      InheritSide(d.attr, s, id, gone, now + Expire(d.cfg, w));
      ChangeOther(d.attr, Get(d, !w), id, a.(time := g.time), now + Expire(d.cfg, !w));
    }
  }

  lemma MergeRqsInv(d: Data, id: nat, gone: nat, w: bool, now: nat)
    requires Inv(d, now) && id in d.attr && gone in d.attr && id != gone
    requires d.attr[id].write == d.attr[gone].write == w
    ensures Inv(MergeRqs(d, id, gone), now)
    ensures SameCounters(d, MergeRqs(d, id, gone))
  {
    hide SideFacts, Inv;
    InheritedInv(d, id, gone, w, now);
    var d1 := Inherited(d, id, gone);
    BackMergeInv(d1, id, d.attr[gone].sectors, now);
    var d2 := BackMerge(d1, id, d.attr[gone].sectors);
    GoneInv(d2, gone, w, now);
  }

  lemma GoneInv(d: Data, gone: nat, w: bool, now: nat)
    requires Inv(d, now) && gone in d.attr && w == d.attr[gone].write
    ensures Inv(RemoveRq(d, gone).(nrSorted := d.nrSorted - 1), now)
  {
    hide SideFacts;
    assert SideOk(d, w, now, {}) && SideOk(d, !w, now, {});
    RemoveShape(d, gone);
    RemoveSides(d, gone, w, now, {});
  }

  // ---- Dispatch ----

  /** Looking at the head of the FIFO alone finds out whether any request has expired. */
  lemma HeadDetectsExpiry(d: Data, w: bool, now: nat, t: nat)
    requires Inv(d, t)
    ensures HeadExpired(d, w, now) <==> exists id :: id in d.attr && d.attr[id].write == w && now > d.attr[id].time
  {
    assert SideOk(d, w, t, {});
    var q := Get(d, w).fifo;
    assert forall id :: id in q <==> id in d.attr && d.attr[id].write == w;
    if q != [] { assert q[0] in q; }
    forall id | id in d.attr && d.attr[id].write == w && now > d.attr[id].time ensures HeadExpired(d, w, now) {
      var i :| 0 <= i < |q| && q[i] == id;
      assert i == 0 || d.attr[q[0]].time <= d.attr[q[i]].time;
    }
  }

  lemma FindFacts(d: Data, w: bool, now: nat, t: nat)
    requires Inv(d, t) && Get(d, w).fifo != []
    ensures var r := Find(d, w, now).0; r.Some? && r.value in d.attr && d.attr[r.value].write == w
    ensures Get(d, w).fifo[0] in d.attr && LeastFrom(Get(d, w).tree, 0).Some?
    ensures Find(d, w, now).1 == 0 || (Get(d, w).next.Some? && Find(d, w, now).1 == d.batching)
  {
    assert SideOk(d, w, t, {});
    var s := Get(d, w);
    assert s.fifo[0] in s.fifo;
    assert d.attr[s.fifo[0]].sector in s.tree;
  }

  lemma IssueInv(d: Data, id: nat, now: nat)
    requires Inv(d, now) && id in d.attr
    ensures var d' := Issue(d, Some(id)).0;
      && Inv(d', now) && d'.attr == d.attr - {id} && d'.dispatched == d.dispatched + [id]
      && d'.cfg == d.cfg && d'.batching == d.batching + 1 && d'.starved == d.starved
  {
    hide SideFacts, MoveRq;
    var w, d1 := d.attr[id].write, d.(batching := d.batching + 1);
    assert SideOk(d1, w, now, {}) && SideOk(d1, !w, now, {});
    MoveInv(d1, id, w, now, {});
  }

  /** What one call of the dispatch function decides: the counters and the request, if any. */
  ghost predicate Decided(d: Data, now: nat, batching: nat, starved: nat, id: nat) {
    && id in d.attr
    && Dispatch(d, now) == Issue(d.(batching := batching, starved := starved), Some(id))
    && (if d.attr[id].write then true
        else if starved == d.starved then
          (batching == d.batching && batching < d.cfg.fifoBatch) || d.wr.fifo == []
        else starved == d.starved + 1 <= d.cfg.writesStarved && (batching == 0 || batching >= d.cfg.fifoBatch))
  }

  lemma DispatchDecides(d: Data, now: nat) returns (batching: nat, starved: nat, id: nat)
    requires Inv(d, now) && (d.rd.fifo != [] || d.wr.fifo != [])
    ensures Decided(d, now, batching, starved, id)
  {
    hide SideFacts, Issue;
    NextQueued(d, now);
    var rq := if d.wr.next.Some? then d.wr.next else d.rd.next;
    batching := if rq.Some? && d.lastSector != d.attr[rq.value].sector then d.batching + d.cfg.fifoBatch
        else d.batching;
    starved := d.starved;
    if rq.Some? && batching < d.cfg.fifoBatch {
      id := rq.value;
    } else {
      var w := d.rd.fifo == [] || (d.wr.fifo != [] && d.starved >= d.cfg.writesStarved);
      starved := if w then 0 else if d.wr.fifo != [] then d.starved + 1 else d.starved;
      var d1 := d.(batching := batching, starved := starved);
      assert Inv(d1, now);
      FindFacts(d1, w, now, now);
      id := Find(d1, w, now).0.value;
      batching := Find(d1, w, now).1;
    }
  }

  lemma NextQueued(d: Data, now: nat)
    requires Inv(d, now)
    ensures d.rd.next.Some? ==> d.rd.next.value in d.attr && !d.attr[d.rd.next.value].write && d.rd.fifo != []
    ensures d.wr.next.Some? ==> d.wr.next.value in d.attr && d.attr[d.wr.next.value].write && d.wr.fifo != []
  {
  }

  /** Dispatch issues exactly one queued request, and only an empty scheduler issues none. */
  lemma DispatchIssuesOne(d: Data, now: nat)
    requires Inv(d, now)
    ensures var (d', r) := Dispatch(d, now);
      && Inv(d', now) && d'.cfg == d.cfg
      && (r.Some? <==> d.attr != map[])
      && (r.Some? ==> r.value in d.attr && d'.attr == d.attr - {r.value} && d'.dispatched == d.dispatched + [r.value])
      && (r.None? ==> d'.attr == d.attr && d'.dispatched == d.dispatched)
  {
    hide SideFacts, Dispatch, Issue;
    EmptyIffNoFifo(d, now);
    if d.attr != map[] {
      var b, st, id := DispatchDecides(d, now);
      assert Inv(d.(batching := b, starved := st), now);
      IssueInv(d.(batching := b, starved := st), id, now);
      IssueResult(d.(batching := b, starved := st), id);
    } else {
      EmptyDispatch(d, now);
    }
  }

  lemma EmptyDispatch(d: Data, now: nat)
    requires Inv(d, now) && d.rd.fifo == [] && d.wr.fifo == []
    ensures Dispatch(d, now) == (d, None)
  {
    NextQueued(d, now);
  }

  lemma IssueResult(d: Data, id: nat)
    requires id in d.attr
    ensures Issue(d, Some(id)).1 == Some(id)
  {
  }

  lemma EmptyIffNoFifo(d: Data, now: nat)
    requires Inv(d, now)
    ensures d.attr == map[] <==> d.rd.fifo == [] && d.wr.fifo == []
    ensures d.attr == map[] ==> d.nrSorted == 0
  {
    if d.rd.fifo != [] { assert d.rd.fifo[0] in d.rd.fifo; }
    if d.wr.fifo != [] { assert d.wr.fifo[0] in d.wr.fifo; }
    if d.attr != map[] {
      var id :| id in d.attr;
      assert id in d.rd.fifo || id in d.wr.fifo;
    }
  }

  // ---- Starvation ----

  function Max(a: nat, b: nat): (m: nat) {
    if a < b then b else a
  }

  /** How many more reads may be issued before a write: the rest of the running batch, and one
      batch for each time that reads may still be preferred. */
  function Patience(d: Data): (n: nat) {
    var c := d.cfg;
    (if d.batching < c.fifoBatch then c.fifoBatch - d.batching else 0) +
    Max(c.fifoBatch, 1) * (if d.starved < c.writesStarved then c.writesStarved - d.starved else 0)
  }

  function Bound(c: Tunables): (n: nat) {
    c.fifoBatch + Max(c.fifoBatch, 1) * c.writesStarved
  }

  lemma PatienceBounded(d: Data)
    ensures Patience(d) <= Bound(d.cfg)
    ensures d.cfg.fifoBatch >= 1 ==> Bound(d.cfg) == d.cfg.fifoBatch * (d.cfg.writesStarved + 1)
  {
    var m, w := Max(d.cfg.fifoBatch, 1), d.cfg.writesStarved;
    var k := if d.starved < w then w - d.starved else 0;
    MulMonotone(m, k, w);
  }

  lemma MulMonotone(m: nat, k: nat, n: nat)
    requires k <= n
    ensures m * k <= m * n
  {
  }

  /** While writes are queued, each read that is issued uses up patience. */
  lemma ReadUsesPatience(d: Data, now: nat)
    requires Inv(d, now) && d.wr.fifo != []
    ensures var (d', r) := Dispatch(d, now);
      r.Some? && r.value in d.attr && (!d.attr[r.value].write ==> Patience(d') < Patience(d))
  {
    hide SideFacts, Dispatch, Issue;
    var b, st, id := DispatchDecides(d, now);
    var d1 := d.(batching := b, starved := st);
    assert Inv(d1, now);
    IssueInv(d1, id, now);
    IssueResult(d1, id);
    var m, w := Max(d.cfg.fifoBatch, 1), d.cfg.writesStarved;
    if !d.attr[id].write && st == d.starved + 1 {
      assert m * (w - d.starved) == m * (w - st) + m;
    }
  }

  // ---- Whole runs ----

  datatype Op =
    | Arrive(id: nat, write: bool, sector: nat, sectors: nat, at: nat)
    | MergeFront(id: nat, sector: nat)
    | MergeBack(id: nat, more: nat)
    | Absorb(id: nat, gone: nat)
    | Request(at: nat)

  /** The scheduler together with the last clock reading. */
  datatype Snap = Snap(d: Data, now: nat)

  ghost predicate Enabled(s: Snap, op: Op) {
    match op
    case Arrive(id, _, _, _, at) => id !in s.d.attr && s.now <= at
    case MergeFront(id, sector) => id in s.d.attr && sector <= s.d.attr[id].sector
    case MergeBack(id, _) => id in s.d.attr
    case Absorb(id, gone) =>
      id in s.d.attr && gone in s.d.attr && id != gone && s.d.attr[id].write == s.d.attr[gone].write
    case Request(at) => s.now <= at
  }

  ghost function Step(s: Snap, op: Op): Snap
    requires Enabled(s, op)
  {
    match op
    case Arrive(id, w, sector, sectors, at) => Snap(Add(s.d, id, w, sector, sectors, at), at)
    case MergeFront(id, sector) => s.(d := FrontMerge(s.d, id, sector))
    case MergeBack(id, more) => s.(d := BackMerge(s.d, id, more))
    case Absorb(id, gone) => s.(d := MergeRqs(s.d, id, gone))
    case Request(at) => Snap(Dispatch(s.d, at).0, at)
  }

  ghost predicate IsRun(cfg: Tunables, ss: seq<Snap>, ops: seq<Op>) {
    && |ss| == |ops| + 1 && ss[0] == Snap(Init(cfg), 0)
    && forall i :: 0 <= i < |ops| ==> Enabled(ss[i], ops[i]) && ss[i + 1] == Step(ss[i], ops[i])
  }

  lemma StepInv(s: Snap, op: Op)
    requires Inv(s.d, s.now) && Enabled(s, op)
    ensures Inv(Step(s, op).d, Step(s, op).now)
    ensures Step(s, op).d.cfg == s.d.cfg
    ensures !op.Request? ==> SameCounters(s.d, Step(s, op).d)
  {
    hide Inv, Add, FrontMerge, MergeRqs, Dispatch;
    match op
    case Arrive(id, w, sector, sectors, at) =>
      Later(s.d, s.now, at);
      AddInv(s.d, id, w, sector, sectors, at);
    case MergeFront(id, sector) => FrontMergeInv(s.d, id, s.d.attr[id].write, sector, s.now);
    case MergeBack(id, more) => BackMergeInv(s.d, id, more, s.now);
    case Absorb(id, gone) => MergeRqsInv(s.d, id, gone, s.d.attr[id].write, s.now);
    case Request(at) =>
      Later(s.d, s.now, at);
      DispatchIssuesOne(s.d, at);
  }

  /** Structure invariant over every run: both lists of a direction hold the same requests with
      distinct sectors, the cached next request is queued, at most one direction has one, the
      FIFO is ordered by deadline and the elevator's count is exact. */
  lemma {:induction false} RunInv(cfg: Tunables, ss: seq<Snap>, ops: seq<Op>, n: nat)
    requires IsRun(cfg, ss, ops) && n < |ss|
    ensures Inv(ss[n].d, ss[n].now) && ss[n].d.cfg == cfg
  {
    if n == 0 {
      InitInv(cfg);
    } else {
      RunInv(cfg, ss, ops, n - 1);
      StepInv(ss[n - 1], ops[n - 1]);
    }
  }

  /** The number of requests the block layer asked for. */
  function Requests(ops: seq<Op>): (n: nat) {
    if ops == [] then 0 else Requests(ops[..|ops| - 1]) + if ops[|ops| - 1].Request? then 1 else 0
  }

  /** A dispatch that issues a read although writes are queued. */
  ghost predicate Bypasses(s: Snap, op: Op) {
    && op.Request? && s.d.wr.fifo != []
    && var r := Dispatch(s.d, op.at).1; r.Some? && r.value in s.d.attr && !s.d.attr[r.value].write
  }

  lemma StepPatience(s: Snap, op: Op)
    requires Inv(s.d, s.now) && Enabled(s, op) && (op.Request? ==> Bypasses(s, op))
    ensures Patience(Step(s, op).d) + (if op.Request? then 1 else 0) <= Patience(s.d)
  {
    hide Inv, Dispatch, Add, FrontMerge, MergeRqs;
    StepInv(s, op);
    if op.Request? {
      Later(s.d, s.now, op.at);
      ReadUsesPatience(s.d, op.at);
    }
  }

  lemma {:induction false} PatienceRunsOut(cfg: Tunables, ss: seq<Snap>, ops: seq<Op>, i: nat, j: nat)
    requires IsRun(cfg, ss, ops) && i <= j < |ss|
    requires forall k :: i <= k < j && ops[k].Request? ==> Bypasses(ss[k], ops[k])
    ensures Requests(ops[i..j]) + Patience(ss[j].d) <= Patience(ss[i].d)
  {
    hide Inv, Step, Bypasses, Patience, Enabled;
    if i < j {
      PatienceRunsOut(cfg, ss, ops, i, j - 1);
      RunInv(cfg, ss, ops, j - 1);
      assert ops[i..j][..j - i - 1] == ops[i..j - 1];
      StepPatience(ss[j - 1], ops[j - 1]);
    }
  }

  /** The starvation bound: in every stretch of every run in which each dispatch passes over
      queued writes, the number of reads issued is at most fifo_batch * (writes_starved + 1),
      whatever arrives, is merged or is evicted meanwhile. */
  lemma StarvationBound(cfg: Tunables, ss: seq<Snap>, ops: seq<Op>, i: nat, j: nat)
    requires IsRun(cfg, ss, ops) && i <= j < |ss|
    requires forall k :: i <= k < j && ops[k].Request? ==> Bypasses(ss[k], ops[k])
    ensures Requests(ops[i..j]) <= Bound(cfg)
    ensures cfg.fifoBatch >= 1 ==> Requests(ops[i..j]) <= cfg.fifoBatch * (cfg.writesStarved + 1)
  {
    PatienceRunsOut(cfg, ss, ops, i, j);
    RunInv(cfg, ss, ops, i);
    PatienceBounded(ss[i].d);
  }
}
