/** The anticipatory I/O scheduler: the choice of the next request from the disk head, and
    alternating batches of synchronous and asynchronous requests.

    A red-black tree is modelled by what it represents: a finite map from start sector to request.
    Clocks and the anticipation heuristics are inputs of a dispatch (`Oracle`): what is proved
    holds for every answer they may give.
 */
module Anticipatory {

  import opened Collections

  datatype Rq = Rq(id: nat, sync: bool, sector: nat, sectors: nat)

  /** One data direction: sort list, FIFO, cached next request and last sector served. */
  datatype Half = Half(tree: map<nat, Rq>, fifo: seq<Rq>, next: Option<Rq>, last: nat)

  datatype AsData = AsData(
    sy: Half,
    asy: Half,
    batchSync: bool,       // batch_data_dir == REQ_SYNC
    changed: bool,         // changed_batch
    newBatch: bool,        // new_batch
    nrDispatched: int,
    out: set<Rq>,          // dispatched and not completed
    active: set<Rq>,       // of those, the ones the driver has been handed
    bug: bool)             // some BUG, BUG_ON or WARN_ON has fired

  /** What the clocks, the tunables and the anticipation heuristics answer during one dispatch. */
  datatype Oracle = Oracle(waiting: bool, batchExpired: bool, mayAnticipate: bool, headExpired: bool,
                           anticipate: bool, fifoExpired: bool)

  const MAXBACK := 1024 * 1024
  const BACK_PENALTY := 2
  const EMPTY_HALF := Half(map[], [], None, 0)

  /** `as_init_queue`: the first batch is a synchronous one. */
  function InitAs(): (d: AsData) {
    AsData(EMPTY_HALF, EMPTY_HALF, true, false, false, 0, {}, {}, false)
  }

  function HalfOf(d: AsData, sync: bool): (h: Half) {
    if sync then d.sy else d.asy
  }

  function SetHalf(d: AsData, sync: bool, h: Half): (d': AsData) {
    if sync then d.(sy := h) else d.(asy := h)
  }

  predicate Queued(h: Half, rq: Rq) {
    rq.sector in h.tree && h.tree[rq.sector] == rq
  }

  // ---- Choosing ----

  predicate Wraps(last: nat, s: nat) {
    s < last && s + MAXBACK < last
  }

  function Distance(last: nat, s: nat): (d: nat) {
    if s >= last then s - last else (last - s) * BACK_PENALTY
  }

  /** Whether `as_choose_req` returns its first request when both start at the given sectors. */
  predicate Prefers(last: nat, s1: nat, s2: nat) {
    if !Wraps(last, s1) && Wraps(last, s2) then true
    else if !Wraps(last, s2) && Wraps(last, s1) then false
    else if Wraps(last, s1) then s1 <= s2
    else if Distance(last, s1) < Distance(last, s2) then true
    else if Distance(last, s2) < Distance(last, s1) then false
    else s1 >= s2
  }

  /** `as_choose_req`. */
  function Choose(last: nat, a: Option<Rq>, b: Option<Rq>): (c: Option<Rq>) {
    if a.None? || a == b then b
    else if b.None? then a
    else if Prefers(last, a.value.sector, b.value.sector) then a else b
  }

  /** `as_find_next_rq`: the better of the two neighbours of `rq`, wrapping to the first request. */
  function FindNext(t: map<nat, Rq>, last: nat, rq: Rq): (r: Option<Rq>) {
    var after := Above(t, rq.sector + 1);
    var first := Above(t, 0);
    var next := if after.Some? then after else if first == Some(rq) then None else first;
    Choose(last, next, Below(t, rq.sector))
  }

  // ---- Operations ----

  /** The direction's part of `as_move_to_dispatch`: head position, next request, lists. */
  function MoveHalf(h: Half, rq: Rq): (h': Half) {
    var last := rq.sector + rq.sectors;
    Half(h.tree - {rq.sector}, Without(h.fifo, rq), FindNext(h.tree, last, rq), last)
  }

  /** `as_move_to_dispatch`. */
  function Move(d: AsData, rq: Rq): (d': AsData) {
    var h := HalfOf(d, rq.sync);
    if !Queued(h, rq) then d.(bug := true)
    else SetHalf(d, rq.sync, MoveHalf(h, rq)).(nrDispatched := d.nrDispatched + 1, out := d.out + {rq})
  }

  /** A request already at the same sector is dispatched first: `as_add_rq_rb`. */
  function Evict(d: AsData, rq: Rq): (d': AsData) {
    var h := HalfOf(d, rq.sync);
    if rq.sector in h.tree then Move(d, h.tree[rq.sector]) else d
  }

  function AddHalf(h: Half, rq: Rq): (h': Half) {
    h.(tree := h.tree[rq.sector := rq], fifo := h.fifo + [rq], next := Choose(h.last, Some(rq), h.next))
  }

  /** `as_add_request`. */
  function AddRq(d: AsData, rq: Rq): (d': AsData) {
    var e := Evict(d, rq);
    SetHalf(e, rq.sync, AddHalf(HalfOf(e, rq.sync), rq))
  }

  /** From the label `dispatch_request` on: a batch that has just changed waits for the old one. */
  function Finish(d: AsData, rq: Option<Rq>): (r: (AsData, bool)) {
    if d.changed && d.nrDispatched != 0 then (d.(bug := d.bug || d.newBatch), false)
    else
      var e := if d.changed
        then d.(bug := d.bug || d.newBatch, changed := false, newBatch := d.newBatch || d.batchSync)
        else d;
      if rq.None? then (e.(bug := true), true) else (Move(e, rq.value), true)
  }

  function Head(h: Half): (rq: Option<Rq>) {
    if h.fifo == [] then None else Some(h.fifo[0])
  }

  /** The expired head of the batch's FIFO goes before the chosen request. */
  function Serve(d: AsData, rq: Option<Rq>, o: Oracle): (r: (AsData, bool)) {
    var h := HalfOf(d, d.batchSync);
    Finish(d, if o.fifoExpired && h.fifo != [] then Head(h) else rq)
  }

  function SelectWrites(d: AsData, o: Oracle): (r: (AsData, bool)) {
    var e := if d.batchSync then d.(changed := true, newBatch := false) else d;
    Serve(e.(batchSync := false), e.asy.next, o)
  }

  function SelectReads(d: AsData, o: Oracle): (r: (AsData, bool)) {
    var e := if d.batchSync then d else d.(changed := true, bug := d.bug || d.newBatch);
    Serve(e.(batchSync := true), Head(e.sy), o)
  }

  /** Not running a batch: pick a direction. */
  function Select(d: AsData, o: Oracle): (r: (AsData, bool)) {
    if d.sy.fifo != [] then
      if d.asy.fifo != [] && d.batchSync then SelectWrites(d, o) else SelectReads(d, o)
    else SelectWrites(d, o)
  }

  /** `as_dispatch_request` without force; the flag tells whether a request was found. */
  function DispatchOne(d: AsData, o: Oracle): (r: (AsData, bool)) {
    var rds := d.sy.fifo != [];
    var wrs := d.asy.fifo != [];
    if !(rds || wrs) || o.waiting || d.changed then (d, false)
    else if rds && wrs && !d.newBatch && o.batchExpired then Select(d, o)
    else
      var h := HalfOf(d, d.batchSync);
      if d.batchSync && o.mayAnticipate && o.headExpired && rds then Finish(d, Head(h))
      else if d.batchSync && o.mayAnticipate && o.anticipate then (d, false)
      else if h.next.Some? then Serve(d, h.next, o)
      else Select(d, o)
  }

  /** `as_completed_request`; a request the driver was not handed only draws the warning. */
  function Completed(d: AsData, rq: Rq): (d': AsData) {
    if rq !in d.active then d.(bug := true)
    else
      var last := d.changed && d.nrDispatched == 1;
      var newBatch := d.newBatch || (last && d.batchSync);
      d.(changed := d.changed && !last,
         newBatch := newBatch && d.batchSync != rq.sync,
         bug := d.bug || d.nrDispatched == 0,
         nrDispatched := d.nrDispatched - 1,
         out := d.out - {rq}, active := d.active - {rq})
  }

  /** Dispatch of everything in one direction, in the order of the cached next request. */
  function DrainHalf(d: AsData, sync: bool, n: nat): (d': AsData)
    decreases n
  {
    var h := HalfOf(d, sync);
    if n == 0 || h.next.None? then d else DrainHalf(Move(d, h.next.value), sync, n - 1)
  }

  /** `as_dispatch_request` with force: accounting is reset and both directions are emptied. */
  function ForceAll(d: AsData): (d': AsData) {
    var r := d.(batchSync := true, changed := false, newBatch := false);
    var s := DrainHalf(r, true, |r.sy.tree|);
    DrainHalf(s, false, |s.asy.tree|)
  }
}
