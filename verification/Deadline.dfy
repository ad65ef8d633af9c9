/** The deadline I/O scheduler: two directions, each with a tree by sector and a FIFO by deadline,
    batching with a cached next request, and a counter of how often reads starved writes.

    A red-black tree is modelled by what it represents: a finite map from start sector to request.
 */
module Deadline {

  import opened Collections

  /** What the scheduler reads of a request while it is queued. */
  datatype Attr = Attr(write: bool, sector: nat, sectors: nat, time: nat)

  /** One data direction. */
  datatype Side = Side(tree: map<nat, nat>, fifo: seq<nat>, next: Option<nat>)

  datatype Tunables = Tunables(readExpire: nat, writeExpire: nat, fifoBatch: nat, writesStarved: nat)

  datatype Data = Data(
    attr: map<nat, Attr>,      // the queued requests, by identity
    rd: Side,
    wr: Side,
    batching: nat,
    lastSector: nat,
    starved: nat,
    nrSorted: int,             // kept by the elevator core
    dispatched: seq<nat>,      // the dispatch list, in the order of `elv_dispatch_add_tail`
    cfg: Tunables)

  const EMPTY_SIDE := Side(map[], [], None)

  function Init(cfg: Tunables): (d: Data) {
    Data(map[], EMPTY_SIDE, EMPTY_SIDE, 0, 0, 0, 0, [], cfg)
  }

  function Get(d: Data, write: bool): (s: Side) {
    if write then d.wr else d.rd
  }

  function Set(d: Data, write: bool, s: Side): (d': Data) {
    if write then d.(wr := s) else d.(rd := s)
  }

  function Expire(cfg: Tunables, write: bool): (t: nat) {
    if write then cfg.writeExpire else cfg.readExpire
  }

  /** The request after `sector` in tree order. */
  function NextRq(t: map<nat, nat>, sector: nat): (id: Option<nat>)
    ensures id.Some? ==>
              exists k :: k in t && k > sector && t[k] == id.value && forall j :: j in t && j > sector ==> k <= j
    ensures id.None? ==> forall j :: j in t ==> j <= sector
  {
    var k := LeastFrom(t, sector + 1);
    if k.None? then None else Some(t[k.value])
  }

  // ---- Operations ----

  /** `deadline_remove_request`: off the FIFO and the tree, moving the cached next request on. */
  function RemoveRq(d: Data, id: nat): (d': Data)
    requires id in d.attr
  {
    var a := d.attr[id];
    var s := Get(d, a.write);
    var next := if s.next == Some(id) then NextRq(s.tree, a.sector) else s.next;
    Set(d, a.write, Side(s.tree - {a.sector}, Without(s.fifo, id), next)).(attr := d.attr - {id})
  }

  /** `deadline_move_request`: to the dispatch list; the batch goes on from its successor. */
  function MoveRq(d: Data, id: nat): (d': Data)
    requires id in d.attr
  {
    var a := d.attr[id];
    var d1 := d.(rd := d.rd.(next := None), wr := d.wr.(next := None));
    var d2 := Set(d1, a.write, Get(d1, a.write).(next := NextRq(Get(d, a.write).tree, a.sector)));
    var d3 := RemoveRq(d2.(lastSector := a.sector + a.sectors), id);
    d3.(nrSorted := d3.nrSorted - 1, dispatched := d3.dispatched + [id])
  }

  /** `deadline_add_rq_rb`: a queued request at the same sector is moved to the dispatch list first. */
  function AddRb(d: Data, id: nat, a: Attr): (d': Data)
  {
    var t := Get(d, a.write).tree;
    var d1 := if a.sector in t && t[a.sector] in d.attr then MoveRq(d, t[a.sector]) else d;
    var s := Get(d1, a.write);
    Set(d1, a.write, s.(tree := s.tree[a.sector := id])).(attr := d1.attr[id := a])
  }

  /** `elv_insert` with `deadline_add_request` at time `now`. */
  function Add(d: Data, id: nat, write: bool, sector: nat, sectors: nat, now: nat): (d': Data)
  {
    var d1 := AddRb(d.(nrSorted := d.nrSorted + 1), id, Attr(write, sector, sectors, now + Expire(d.cfg, write)));
    var s := Get(d1, write);
    Set(d1, write, s.(fifo := s.fifo + [id]))
  }

  /** A bio is merged in front of `id`, which then starts at `sector`. */
  function FrontMerge(d: Data, id: nat, sector: nat): (d': Data)
    requires id in d.attr && sector <= d.attr[id].sector
  {
    var a := d.attr[id];
    var s := Get(d, a.write);
    var d1 := Set(d, a.write, s.(tree := s.tree - {a.sector}));
    AddRb(d1, id, a.(sector := sector, sectors := a.sectors + (a.sector - sector)))
  }

  function BackMerge(d: Data, id: nat, more: nat): (d': Data)
    requires id in d.attr
  {
    d.(attr := d.attr[id := d.attr[id].(sectors := d.attr[id].sectors + more)])
  }

  /** `list_move`: take `id` out and put it right behind `after`. */
  function MoveBehind(q: seq<nat>, id: nat, after: nat): (q': seq<nat>) {
    var r := Without(q, id);
    PutAt(r, if after in r then IndexOf(r, after) + 1 else |r|, id)
  }

  /** `deadline_merged_requests`: `id` absorbs `gone` and inherits an earlier deadline. */
  function MergeRqs(d: Data, id: nat, gone: nat): (d': Data)
    requires id in d.attr && gone in d.attr
  {
    var a, g := d.attr[id], d.attr[gone];
    var s := Get(d, a.write);
    var d1 := if g.time < a.time
      then Set(d, a.write, s.(fifo := MoveBehind(s.fifo, id, gone))).(attr := d.attr[id := a.(time := g.time)])
      else d;
    var d2 := BackMerge(d1, id, g.sectors);
    var d3 := RemoveRq(d2, gone);
    d3.(nrSorted := d3.nrSorted - 1)
  }

  /** `deadline_check_fifo`: only the head of the FIFO is looked at. */
  predicate HeadExpired(d: Data, write: bool, now: nat) {
    var q := Get(d, write).fifo;
    q != [] && q[0] in d.attr && now > d.attr[q[0]].time
  }

  /** The request chosen in a direction once no batch is running, and the batch counter then. */
  function Find(d: Data, write: bool, now: nat): (res: (Option<nat>, nat)) {
    var s := Get(d, write);
    if HeadExpired(d, write, now) then (Some(s.fifo[0]), 0)
    else if s.next.Some? then (s.next, d.batching)
    else
      var k := LeastFrom(s.tree, 0);
      (if k.None? then None else Some(s.tree[k.value]), 0)
  }

  /** `deadline_dispatch_requests` */
  function Dispatch(d: Data, now: nat): (res: (Data, Option<nat>)) {
    var haveReads, haveWrites := d.rd.fifo != [], d.wr.fifo != [];
    var rq := if d.wr.next.Some? then d.wr.next else d.rd.next;
    var batching := if rq.Some? && rq.value in d.attr && d.lastSector != d.attr[rq.value].sector
                    then d.batching + d.cfg.fifoBatch else d.batching;
    if rq.Some? && batching < d.cfg.fifoBatch then Issue(d.(batching := batching), rq)
    else if !haveReads && !haveWrites then (d.(batching := batching), None)
    else
      var toWrites := !haveReads || (haveWrites && d.starved >= d.cfg.writesStarved);
      var starved := if toWrites then 0 else if haveWrites then d.starved + 1 else d.starved;
      var d1 := d.(batching := batching, starved := starved);
      var found := Find(d1, toWrites, now);
      Issue(d1.(batching := found.1), found.0)
  }

  function Issue(d: Data, rq: Option<nat>): (res: (Data, Option<nat>)) {
    if rq.None? || rq.value !in d.attr then (d, None)
    else (MoveRq(d.(batching := d.batching + 1), rq.value), rq)
  }
}
