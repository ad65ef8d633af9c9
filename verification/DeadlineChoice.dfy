/** Which request the deadline scheduler issues, by deadlines and sectors alone, and what each of its
    operations does to the set of queued requests. */
module DeadlineChoice {
  import opened Collections
  import opened Deadline
  import opened DeadlineSafety

  ghost predicate InDir(d: Data, w: bool, id: nat) {
    id in d.attr && d.attr[id].write == w
  }

  ghost predicate LeastTime(d: Data, w: bool, id: nat) {
    InDir(d, w, id) && forall x :: InDir(d, w, x) ==> d.attr[id].time <= d.attr[x].time
  }

  ghost predicate LeastSector(d: Data, w: bool, id: nat) {
    InDir(d, w, id) && forall x :: InDir(d, w, x) ==> d.attr[id].sector <= d.attr[x].sector
  }

  ghost predicate LeastAbove(d: Data, w: bool, sector: nat, id: nat) {
    && InDir(d, w, id) && d.attr[id].sector > sector
    && forall x :: InDir(d, w, x) && d.attr[x].sector > sector ==> d.attr[id].sector <= d.attr[x].sector
  }

  ghost predicate NothingAbove(d: Data, w: bool, sector: nat) {
    forall x :: InDir(d, w, x) ==> d.attr[x].sector <= sector
  }

  ghost predicate SomeExpired(d: Data, w: bool, now: nat) {
    exists x :: InDir(d, w, x) && now > d.attr[x].time
  }

  ghost predicate SomeQueued(d: Data, w: bool) {
    exists x :: InDir(d, w, x)
  }

  /** The request a running batch would go on with. */
  function Cached(d: Data): (rq: Option<nat>) {
    if d.wr.next.Some? then d.wr.next else d.rd.next
  }

  /** A batch goes on: its next request is cached, starts where the last one ended, and the batch is not
      used up. */
  ghost predicate Continues(d: Data) {
    && Cached(d).Some? && Cached(d).value in d.attr
    && d.attr[Cached(d).value].sector == d.lastSector && d.batching < d.cfg.fifoBatch
  }

  /** The direction taken when no batch goes on: reads, unless there are none or writes have been passed
      over often enough. */
  ghost predicate TakesWrites(d: Data) {
    !SomeQueued(d, false) || (SomeQueued(d, true) && d.starved >= d.cfg.writesStarved)
  }

  /** Without a batch going on: an expired request first, by deadline; then the cached one; then the
      lowest sector. */
  ghost predicate Picks(d: Data, now: nat, w: bool, id: nat, batching: nat) {
    if SomeExpired(d, w, now) then LeastTime(d, w, id) && batching == 1
    else if Get(d, w).next.Some? then
      && Get(d, w).next == Some(id) && InDir(d, w, id)
      && batching == 1 + d.batching + if d.attr[id].sector == d.lastSector then 0 else d.cfg.fifoBatch
    else LeastSector(d, w, id) && batching == 1
  }

  /** What is cached after issuing `id`: the next request of its direction in order of sectors. */
  ghost predicate CachesSuccessor(d: Data, d': Data, id: nat)
    requires id in d.attr
  {
    var a := d.attr[id];
    && Get(d', !a.write).next == None
    && (match Get(d', a.write).next
        case Some(x) => LeastAbove(d', a.write, a.sector, x)
        case None => NothingAbove(d', a.write, a.sector))
    && d'.lastSector == a.sector + a.sectors
  }

  lemma QueuedIsFifo(d: Data, w: bool, now: nat)
    requires Inv(d, now)
    ensures SomeQueued(d, w) <==> Get(d, w).fifo != []
    ensures SomeExpired(d, w, now) <==> HeadExpired(d, w, now)
    ensures Get(d, w).fifo != [] ==> LeastTime(d, w, Get(d, w).fifo[0])
  {
    assert SideOk(d, w, now, {});
    HeadDetectsExpiry(d, w, now, now);
    var q := Get(d, w).fifo;
    if q != [] { assert q[0] in q && InDir(d, w, q[0]); }
    forall x | InDir(d, w, x) ensures q != [] && d.attr[q[0]].time <= d.attr[x].time {
      var i :| 0 <= i < |q| && q[i] == x;
    }
  }

  lemma FirstIsLeast(d: Data, w: bool, now: nat)
    requires Inv(d, now) && Get(d, w).fifo != []
    ensures var k := LeastFrom(Get(d, w).tree, 0); k.Some? && LeastSector(d, w, Get(d, w).tree[k.value])
  {
    FindFacts(d, w, now, now);
    assert SideOk(d, w, now, {});
  }

  /** The request to go on with in a direction: the one that expires first if one has expired, else the
      one after the last, else the one at the lowest sector. */
  ghost predicate FoundIn(d: Data, w: bool, now: nat, id: nat, batching: nat) {
    && InDir(d, w, id)
    && if SomeExpired(d, w, now) then LeastTime(d, w, id) && batching == 0
       else if Get(d, w).next.Some? then Get(d, w).next == Some(id) && batching == d.batching
       else LeastSector(d, w, id) && batching == 0
  }

  lemma FifoFound(d: Data, w: bool, now: nat)
    requires Inv(d, now) && Get(d, w).fifo != []
    ensures var (r, b) := Find(d, w, now); r.Some? && FoundIn(d, w, now, r.value, b)
  {
    hide Find, FoundIn, SideFacts;
    QueuedIsFifo(d, w, now);
    FindPicks(d, w, now);
  }

  lemma FindPicks(d: Data, w: bool, now: nat)
    requires Inv(d, now) && SomeQueued(d, w)
    ensures var (r, b) := Find(d, w, now); r.Some? && FoundIn(d, w, now, r.value, b)
  {
    hide SideFacts;
    QueuedIsFifo(d, w, now);
    FindFacts(d, w, now, now);
    FirstIsLeast(d, w, now);
  }

  lemma MoveCaches(d: Data, id: nat, now: nat)
    requires Inv(d, now) && id in d.attr
    ensures CachesSuccessor(d, MoveRq(d, id), id)
  {
    hide SideFacts, NextRq, MoveRq, RemoveRq;
    var a := d.attr[id];
    assert SideOk(d, a.write, now, {});
    SuccessorIs(d, a.write, a.sector, now);
    MoveShape(d, id, a.write);
    RemoveShape(Redirected(d, id), id);
    var d' := MoveRq(d, id);
    assert forall x :: InDir(d', a.write, x) <==> InDir(d, a.write, x) && x != id;
  }

  lemma SuccessorIs(d: Data, w: bool, sector: nat, now: nat)
    requires SideOk(d, w, now, {})
    ensures match NextRq(Get(d, w).tree, sector)
            case Some(x) => LeastAbove(d, w, sector, x)
            case None => NothingAbove(d, w, sector)
  {
    var t := Get(d, w).tree;
    forall x | InDir(d, w, x) ensures d.attr[x].sector in t && t[d.attr[x].sector] == x {}
  }

  lemma IssueCaches(d: Data, batching: nat, starved: nat, id: nat, now: nat)
    requires Inv(d, now) && id in d.attr
    ensures var (d', r) := Issue(d.(batching := batching, starved := starved), Some(id));
            && r == Some(id) && CachesSuccessor(d, d', id) && Inv(d', now)
            && d'.attr == d.attr - {id} && d'.batching == batching + 1 && d'.starved == starved
  {
    hide SideFacts, MoveRq;
    var d1 := d.(batching := batching, starved := starved);
    var d2 := d1.(batching := batching + 1);
    assert Inv(d1, now) && Inv(d2, now);
    IssueInv(d1, id, now);
    MoveCaches(d2, id, now);
  }

  /** What a dispatch issues and what it leaves behind. */
  ghost predicate Chosen(d: Data, now: nat, d': Data, id: nat) {
    && id in d.attr && CachesSuccessor(d, d', id) && d'.attr == d.attr - {id}
    && if Continues(d) then Cached(d) == Some(id) && d'.batching == d.batching + 1 && d'.starved == d.starved
       else
         var w := d.attr[id].write;
         && (w <==> TakesWrites(d)) && Picks(d, now, w, id, d'.batching)
         && d'.starved == if w then 0 else if SomeQueued(d, true) then d.starved + 1 else d.starved
  }

  lemma DispatchChooses(d: Data, now: nat)
    requires Inv(d, now) && d.attr != map[]
    ensures var (d', r) := Dispatch(d, now); r.Some? && Chosen(d, now, d', r.value)
  {
    hide SideFacts, Issue, Find, CachesSuccessor, SomeQueued, SomeExpired, LeastTime, LeastSector;
    NextQueued(d, now);
    EmptyIffNoFifo(d, now);
    QueuedIsFifo(d, false, now);
    QueuedIsFifo(d, true, now);
    var c := Cached(d);
    if Continues(d) {
      IssueCaches(d, d.batching, d.starved, c.value, now);
    } else {
      var b := if c.Some? && d.attr[c.value].sector != d.lastSector then d.batching + d.cfg.fifoBatch else d.batching;
      var w := d.rd.fifo == [] || (d.wr.fifo != [] && d.starved >= d.cfg.writesStarved);
      var st := if w then 0 else if d.wr.fifo != [] then d.starved + 1 else d.starved;
      TurnsTo(d, b, st, w, now);
    }
  }

  /** A dispatch issues a request whenever one is queued, and chooses it by the rules. */
  ghost predicate Law(d: Data, now: nat, d': Data, issued: bool) {
    && (issued <==> d.attr != map[])
    && (issued ==> exists id :: Chosen(d, now, d', id))
    && (!issued ==> d' == d)
  }

  lemma DispatchIs(d: Data, now: nat)
    requires Inv(d, now)
    ensures Law(d, now, Dispatch(d, now).0, Dispatch(d, now).1.Some?)
  {
    hide Chosen, SideFacts, Issue, Find;
    if d.attr == map[] {
      EmptyIffNoFifo(d, now);
      NextQueued(d, now);
    } else {
      DispatchChooses(d, now);
    }
  }

  /** The part without a batch going on. */
  lemma TurnsTo(d: Data, b: nat, st: nat, w: bool, now: nat)
    requires Inv(d, now) && SomeQueued(d, w)
    requires Get(d, w).next.Some? ==>
               b == d.batching + if d.attr[Get(d, w).next.value].sector == d.lastSector then 0 else d.cfg.fifoBatch
    ensures var d1 := d.(batching := b, starved := st);
            var found := Find(d1, w, now);
            var (d', r) := Issue(d1.(batching := found.1), found.0);
            && r.Some? && InDir(d, w, r.value) && CachesSuccessor(d, d', r.value) && d'.attr == d.attr - {r.value}
            && d'.starved == st && Picks(d, now, w, r.value, d'.batching)
  {
    hide SideFacts, Issue, Find, CachesSuccessor;
    var d1 := d.(batching := b, starved := st);
    assert Inv(d1, now);
    SameQueued(d, d1, w, now);
    FindPicks(d1, w, now);
    var found := Find(d1, w, now);
    IssueCaches(d, found.1, st, found.0.value, now);
  }

  /** The choice looks at the queued requests and the cache. */
  lemma SameQueued(d: Data, e: Data, w: bool, now: nat)
    requires e.attr == d.attr
    ensures SomeQueued(e, w) == SomeQueued(d, w) && SomeExpired(e, w, now) == SomeExpired(d, w, now)
    ensures forall x :: InDir(e, w, x) == InDir(d, w, x)
    ensures forall x :: LeastTime(e, w, x) == LeastTime(d, w, x) && LeastSector(e, w, x) == LeastSector(d, w, x)
  {
    assert forall x :: InDir(e, w, x) == InDir(d, w, x);
    if SomeQueued(d, w) { var x :| InDir(d, w, x); assert InDir(e, w, x); }
    if SomeQueued(e, w) { var x :| InDir(e, w, x); assert InDir(d, w, x); }
    if SomeExpired(d, w, now) { var x :| InDir(d, w, x) && now > d.attr[x].time; assert InDir(e, w, x); }
    if SomeExpired(e, w, now) { var x :| InDir(e, w, x) && now > e.attr[x].time; assert InDir(d, w, x); }
  }

  /** Two dispatches in a row in one direction, the second without an expired request: it issues the
      next request in order of sectors, and goes back to the lowest when there is none above. */
  lemma SweepsUp(d: Data, t1: nat, t2: nat)
    requires Inv(d, t1) && t1 <= t2 && d.attr != map[]
    ensures var (d1, r1) := Dispatch(d, t1);
            d1.attr != map[] && r1.Some? && r1.value in d.attr ==>
              var (d2, r2) := Dispatch(d1, t2);
              && r2.Some? && r2.value in d1.attr
              && var a := d.attr[r1.value];
                 (d1.attr[r2.value].write == a.write && (Continues(d1) || !SomeExpired(d1, a.write, t2)) ==>
                    if NothingAbove(d1, a.write, a.sector) then LeastSector(d1, a.write, r2.value)
                    else LeastAbove(d1, a.write, a.sector, r2.value))
  {
    hide SideFacts, Dispatch, Inv, SomeExpired, SomeQueued, LeastTime;
    DispatchChooses(d, t1);
    DispatchIssuesOne(d, t1);
    var (d1, r1) := Dispatch(d, t1);
    Later(d1, t1, t2);
    if d1.attr != map[] {
      DispatchChooses(d1, t2);
    }
  }

  // ---- What the other operations do ----

  /** A queued request of this direction that starts at this sector. */
  ghost predicate Alias(d: Data, w: bool, sector: nat, x: nat) {
    InDir(d, w, x) && d.attr[x].sector == sector
  }

  lemma AliasIs(d: Data, w: bool, sector: nat, x: nat, now: nat, out: set<nat>)
    requires SideOk(d, w, now, out)
    ensures Alias(d, w, sector, x) && x !in out ==> sector in Get(d, w).tree && Get(d, w).tree[sector] == x
    ensures sector in Get(d, w).tree ==> Alias(d, w, sector, Get(d, w).tree[sector]) && Get(d, w).tree[sector] !in out
  {
  }

  lemma MoveIs(d: Data, id: nat)
    requires id in d.attr
    ensures var d' := MoveRq(d, id);
            && d'.attr == d.attr - {id} && d'.dispatched == d.dispatched + [id]
            && d'.lastSector == d.attr[id].sector + d.attr[id].sectors
  {
    MoveShape(d, id, d.attr[id].write);
  }

  /** What making room at a sector does. */
  ghost predicate Cleared1(d: Data, d': Data, w: bool, sector: nat, out: set<nat>) {
    && ((forall x: nat :: Alias(d, w, sector, x) ==> x in out) ==> d' == d)
    && forall x: nat :: Alias(d, w, sector, x) && x !in out ==>
         && d'.attr == d.attr - {x} && d'.dispatched == d.dispatched + [x]
         && d'.lastSector == d.attr[x].sector + d.attr[x].sectors
  }

  lemma ClearedIs(d: Data, w: bool, sector: nat, now: nat, out: set<nat>)
    requires SideOk(d, w, now, out)
    ensures Cleared1(d, Cleared(d, w, sector), w, sector, out)
  {
    hide SideFacts, MoveRq;
    var t := Get(d, w).tree;
    TreeMembers(d, w, now, out);
    forall x: nat ensures Alias(d, w, sector, x) && x !in out ==> sector in t && t[sector] == x {
      AliasIs(d, w, sector, x, now, out);
    }
    if sector in t {
      AliasIs(d, w, sector, t[sector], now, out);
      MoveIs(d, t[sector]);
    }
  }

  /** A new request gets the deadline of its direction and goes to the end of its FIFO; one at the same
      sector, and nothing else, is moved to the dispatch list. */
  lemma AddIs(d: Data, id: nat, w: bool, sector: nat, sectors: nat, now: nat)
    requires Inv(d, now) && id !in d.attr
    ensures var d' := Add(d, id, w, sector, sectors, now);
            var a := Attr(w, sector, sectors, now + if w then d.cfg.writeExpire else d.cfg.readExpire);
            && Get(d', w).fifo != [] && Get(d', w).fifo[|Get(d', w).fifo| - 1] == id
            && ((forall x: nat :: !Alias(d, w, sector, x)) ==>
                  && d'.attr == d.attr[id := a] && d'.dispatched == d.dispatched && d'.lastSector == d.lastSector
                  && d'.rd.next == d.rd.next && d'.wr.next == d.wr.next)
            && (forall x: nat :: Alias(d, w, sector, x) ==>
                  && d'.attr == (d.attr - {x})[id := a] && d'.dispatched == d.dispatched + [x]
                  && d'.lastSector == d.attr[x].sector + d.attr[x].sectors)
  {
    hide SideFacts, Cleared, Add;
    AddShape(d, id, w, sector, sectors, now);
    var d0 := d.(nrSorted := d.nrSorted + 1);
    assert SideOk(d0, w, now, {});
    ClearedIs(d0, w, sector, now, {});
    forall x: nat ensures Alias(d0, w, sector, x) == Alias(d, w, sector, x) {}
  }

  /** A front merge lowers the start of a request and leaves its end, its deadline and everything else,
      but for a request in its new place. */
  lemma FrontMergeIs(d: Data, id: nat, sector: nat, now: nat)
    requires Inv(d, now) && id in d.attr && sector <= d.attr[id].sector
    ensures var d', a := FrontMerge(d, id, sector), d.attr[id];
            var a' := Attr(a.write, sector, a.sector + a.sectors - sector, a.time);
            && ((forall x: nat :: Alias(d, a.write, sector, x) ==> x == id) ==>
                  d'.attr == d.attr[id := a'] && d'.dispatched == d.dispatched)
            && (forall x: nat :: Alias(d, a.write, sector, x) && x != id ==>
                  d'.attr == (d.attr - {x})[id := a'] && d'.dispatched == d.dispatched + [x])
  {
    hide SideFacts, Cleared, FrontMerge;
    var a := d.attr[id];
    var w := a.write;
    FrontMergeShape(d, id, w, sector);
    assert SideOk(d, w, now, {});
    TakeOut(d.attr, Get(d, w), id, now + Expire(d.cfg, w));
    var d1 := Set(d, w, Get(d, w).(tree := Get(d, w).tree - {a.sector}));
    ClearedIs(d1, w, sector, now, {id});
    forall x: nat ensures Alias(d1, w, sector, x) == Alias(d, w, sector, x) {}
  }

  /** `id` in the place of `gone`. */
  function InPlaceOf(q: seq<nat>, id: nat, gone: nat): (q': seq<nat>) {
    var r := Without(q, id);
    if gone in r then r[IndexOf(r, gone) := id] else r
  }

  /** Put behind entry `k`, which is then taken out. */
  lemma Swapped(r: seq<nat>, k: nat, id: nat)
    requires Distinct(r) && k < |r| && id !in r
    ensures Without(PutAt(r, k + 1, id), r[k]) == r[k := id]
  {
    var m := PutAt(r, k + 1, id);
    PutIs(r, k + 1, id);
    PutFacts(r, k + 1, id);
    IndexIs(m, k);
    DropIs(m, k);
    assert DropAt(m, k) == r[k := id];
  }

  lemma TakesPlace(q: seq<nat>, id: nat, gone: nat)
    requires Distinct(q) && id in q && gone in q && id != gone
    ensures Without(MoveBehind(q, id, gone), gone) == InPlaceOf(q, id, gone)
  {
    var r := Without(q, id);
    WithoutFacts(q, id);
    assert gone in r && id !in r;
    Swapped(r, IndexOf(r, gone), id);
  }

  /** A request that absorbs another has the earlier deadline and both lengths; nothing else changes. It
      takes the other's place in the FIFO exactly when that one's deadline was earlier. */
  lemma MergeIs(d: Data, id: nat, gone: nat, now: nat)
    requires Inv(d, now) && id in d.attr && gone in d.attr && id != gone && d.attr[id].write == d.attr[gone].write
    ensures var d', a, g := MergeRqs(d, id, gone), d.attr[id], d.attr[gone];
            && d'.attr == (d.attr - {gone})[id := Attr(a.write, a.sector, a.sectors + g.sectors,
                                                     if g.time < a.time then g.time else a.time)]
            && d'.dispatched == d.dispatched && d'.lastSector == d.lastSector
            && var q := Get(d, a.write).fifo;
               Get(d', a.write).fifo == if g.time < a.time then InPlaceOf(q, id, gone) else Without(q, gone)
  {
    hide SideFacts, MoveBehind, Without, InPlaceOf, RemoveRq, NextRq;
    var a, g := d.attr[id], d.attr[gone];
    var d1 := Inherited(d, id, gone);
    var d2 := BackMerge(d1, id, g.sectors);
    RemoveShape(d2, gone);
    InFifo(d, id, now);
    InFifo(d, gone, now);
    TakesPlace(Get(d, a.write).fifo, id, gone);
    assert MergeRqs(d, id, gone) == RemoveRq(d2, gone).(nrSorted := d.nrSorted - 1);
  }

  /** If the absorbed request was the cached one, its successor in order of sectors is cached instead. */
  lemma MergeCaches(d: Data, id: nat, gone: nat, now: nat)
    requires Inv(d, now) && id in d.attr && gone in d.attr && id != gone && d.attr[id].write == d.attr[gone].write
    ensures var d', g := MergeRqs(d, id, gone), d.attr[gone];
            && Get(d', !g.write).next == Get(d, !g.write).next
            && (Get(d, g.write).next != Some(gone) ==> Get(d', g.write).next == Get(d, g.write).next)
            && (Get(d, g.write).next == Some(gone) ==>
                  match Get(d', g.write).next
                  case Some(x) => LeastAbove(d, g.write, g.sector, x)
                  case None => NothingAbove(d, g.write, g.sector))
  {
    hide SideFacts, MoveBehind, Without, RemoveRq, NextRq;
    var g := d.attr[gone];
    var d1 := Inherited(d, id, gone);
    var d2 := BackMerge(d1, id, g.sectors);
    RemoveShape(d2, gone);
    assert SideOk(d, g.write, now, {});
    SuccessorIs(d, g.write, g.sector, now);
    assert MergeRqs(d, id, gone) == RemoveRq(d2, gone).(nrSorted := d.nrSorted - 1);
  }

  lemma InFifo(d: Data, id: nat, now: nat)
    requires Inv(d, now) && id in d.attr
    ensures var q := Get(d, d.attr[id].write).fifo; id in q && Distinct(q)
  {
    assert SideOk(d, d.attr[id].write, now, {});
  }

  // ---- Arrivals between two dispatches ----

  /** The cached request is issued whatever has arrived since: it is the next in order of sectors exactly
      when nothing has arrived in the gap. */
  lemma GapDecides(d: Data, w: bool, last: nat, now: nat)
    requires Inv(d, now) && Get(d, w).next.Some? && !Continues(d) && !SomeExpired(d, w, now)
    requires d.attr[Get(d, w).next.value].sector > last
    ensures var (d', r) := Dispatch(d, now);
            r.Some? && r.value in d.attr && (d.attr[r.value].write == w ==>
              (LeastAbove(d, w, last, r.value) <==>
                 forall x :: InDir(d, w, x) ==> !(last < d.attr[x].sector < d.attr[Get(d, w).next.value].sector)))
  {
    hide SideFacts, Dispatch;
    assert SideOk(d, w, now, {});
    NextInDir(d, w, now);
    DispatchChooses(d, now);
  }

  lemma NextInDir(d: Data, w: bool, now: nat)
    requires Inv(d, now) && Get(d, w).next.Some?
    ensures InDir(d, w, Get(d, w).next.value)
  {
    assert SideOk(d, w, now, {});
  }

  const DEFAULTS := Tunables(500, 5000, 16, 2)

  /** Reads at sectors 10 and 30 with a dispatch between them and a late one at 20: the late one is passed
      over, although it is next in order of sectors. */
  lemma LateArrivalPassed() returns (ss: seq<Snap>, ops: seq<Op>)
    ensures ops == [Arrive(0, false, 10, 1, 0), Arrive(1, false, 30, 1, 0), Request(0), Arrive(2, false, 20, 1, 1)]
    ensures IsRun(DEFAULTS, ss, ops)
    ensures var d := ss[4].d; InDir(d, false, 2) && d.attr[2].sector == 20 && Dispatch(d, 1).1 == Some(1)
  {
    hide Add, Dispatch, Inv;
    var d0 := Init(DEFAULTS);
    InitInv(DEFAULTS);
    var d1 := Add(d0, 0, false, 10, 1, 0);
    AddIs(d0, 0, false, 10, 1, 0); AddInv(d0, 0, false, 10, 1, 0);
    var d2 := Add(d1, 1, false, 30, 1, 0);
    AddIs(d1, 1, false, 30, 1, 0); AddInv(d1, 1, false, 30, 1, 0);
    assert d2.attr == map[0 := Attr(false, 10, 1, 500), 1 := Attr(false, 30, 1, 500)];
    FirstOfTwo(d2);
    var d3 := Dispatch(d2, 0).0;
    Later(d3, 0, 1);
    var d4 := Add(d3, 2, false, 20, 1, 1);
    AddIs(d3, 2, false, 20, 1, 1); AddInv(d3, 2, false, 20, 1, 1);
    assert d4.attr == map[1 := Attr(false, 30, 1, 500), 2 := Attr(false, 20, 1, 501)];
    SecondOfTwo(d4);
    ss := [Snap(d0, 0), Snap(d1, 0), Snap(d2, 0), Snap(d3, 0), Snap(d4, 1)];
    ops := [Arrive(0, false, 10, 1, 0), Arrive(1, false, 30, 1, 0), Request(0), Arrive(2, false, 20, 1, 1)];
  }

  lemma FirstOfTwo(d: Data)
    requires Inv(d, 0) && d.attr == map[0 := Attr(false, 10, 1, 500), 1 := Attr(false, 30, 1, 500)]
    requires Cached(d) == None && d.cfg == DEFAULTS
    ensures var (d', r) := Dispatch(d, 0);
            && r == Some(0) && d'.attr == map[1 := Attr(false, 30, 1, 500)] && Inv(d', 0) && d'.cfg == DEFAULTS
            && d'.rd.next == Some(1) && d'.wr.next == None && d'.lastSector == 11
  {
    hide Dispatch, Inv;
    assert 0 in d.attr;
    DispatchChooses(d, 0);
    DispatchIssuesOne(d, 0);
    assert InDir(d, false, 0) && InDir(d, false, 1);
    assert !SomeExpired(d, false, 0);
    var (d', r) := Dispatch(d, 0);
    assert r == Some(0);
    assert InDir(d', false, 1);
  }

  lemma SecondOfTwo(d: Data)
    requires Inv(d, 1) && d.attr == map[1 := Attr(false, 30, 1, 500), 2 := Attr(false, 20, 1, 501)]
    requires d.rd.next == Some(1) && d.wr.next == None && d.lastSector == 11 && d.cfg == DEFAULTS
    ensures Dispatch(d, 1).1 == Some(1)
  {
    hide Dispatch, Inv;
    assert 1 in d.attr;
    DispatchChooses(d, 1);
    assert InDir(d, false, 1) && InDir(d, false, 2);
    assert !SomeExpired(d, false, 1);
  }
}
