/** The CFQ I/O scheduler's bookkeeping: per-process queues of requests, each with a sorted tree, a
    FIFO, a cached next request and counters; and the service tree of the queues that have requests,
    with its cached leftmost node.

    A red-black tree is modelled by its in-order sequence of nodes (queues) or as a finite map from
    start sector (requests). Clocks enter as the keys given to the queues. */
module Cfq {

  import opened Collections

  /** What the scheduler reads of a request. */
  datatype Info = Info(sync: bool, meta: bool, sector: nat, sectors: nat)

  /** `struct cfq_queue`. */
  datatype Queue = Queue(
    rqs: map<nat, Info>,     // the requests in the sorted tree, by identity
    sort: map<nat, nat>,     // the sorted tree
    fifo: seq<nat>,
    next: Option<nat>,
    queuedSync: int,
    queuedAsync: int,
    metaPending: int,
    onRr: bool,
    key: nat,
    rt: bool,
    idle: bool)

  /** `struct cfq_data`. */
  datatype CfqData = CfqData(
    queues: map<nat, Queue>,
    tree: seq<nat>,          // the service tree in order
    left: Option<nat>,       // its cached leftmost node
    busy: int,
    lastPosition: nat,
    dispatched: seq<nat>,    // the requests moved to the dispatch list, in order
    bug: bool)               // some BUG_ON or WARN_ON has fired

  datatype Tuning = Tuning(backMax: nat, backPenalty: nat)

  function EmptyQueue(rt: bool, idle: bool): (q: Queue) {
    Queue(map[], map[], [], None, 0, 0, 0, false, 0, rt, idle)
  }

  // ---- Requests of one queue ----

  /** Whether `cfq_choose_req` returns its first request, of two different ones. */
  predicate First(t: Tuning, last: nat, a: Info, b: Info) {
    if a.sync != b.sync then a.sync
    else if a.meta != b.meta then a.meta
    else
      var wrapA := a.sector < last && a.sector + 2 * t.backMax < last;
      var wrapB := b.sector < last && b.sector + 2 * t.backMax < last;
      var da := if a.sector >= last then a.sector - last else (last - a.sector) * t.backPenalty;
      var db := if b.sector >= last then b.sector - last else (last - b.sector) * t.backPenalty;
      if wrapA && wrapB then a.sector <= b.sector
      else if wrapA || wrapB then wrapB
      else da < db || (da == db && a.sector >= b.sector)
  }

  /** `cfq_choose_req`; `infos` knows both. */
  function ChooseRq(t: Tuning, last: nat, infos: map<nat, Info>, a: Option<nat>, b: Option<nat>): (c: Option<nat>)
    ensures c == a || c == b
    ensures c.None? ==> a.None? && b.None?
  {
    if a.None? || a == b then b
    else if b.None? then a
    else if a.value in infos && b.value in infos && First(t, last, infos[a.value], infos[b.value]) then a else b
  }

  /** `cfq_find_next_rq`: the better of the neighbours of a request in the tree. */
  function FindNextRq(t: Tuning, last: nat, q: Queue, id: nat): (r: Option<nat>)
    requires id in q.rqs
  {
    var s := q.rqs[id].sector;
    var after := Above(q.sort, s + 1);
    var first := Above(q.sort, 0);
    var next := if after.Some? then after else if first == Some(id) then None else first;
    ChooseRq(t, last, q.rqs, next, Below(q.sort, s))
  }

  function Counted(q: Queue, sync: bool, n: int): (q': Queue) {
    if sync then q.(queuedSync := q.queuedSync + n) else q.(queuedAsync := q.queuedAsync + n)
  }

  /** `cfq_remove_request` within its queue. */
  function TakeOut(t: Tuning, last: nat, q: Queue, id: nat): (q': Queue)
    requires id in q.rqs
  {
    var i := q.rqs[id];
    var next := if q.next == Some(id) then FindNextRq(t, last, q, id) else q.next;
    Counted(q, i.sync, -1).(
      rqs := q.rqs - {id}, sort := q.sort - {i.sector}, fifo := Without(q.fifo, id), next := next,
      metaPending := q.metaPending - if i.meta then 1 else 0)
  }

  /** The insertion into the sorted tree, with the choice of the next request. */
  function PutIn(t: Tuning, last: nat, q: Queue, id: nat, i: Info): (q': Queue) {
    var rqs := q.rqs[id := i];
    q.(rqs := rqs, sort := q.sort[i.sector := id], next := ChooseRq(t, last, rqs, q.next, Some(id)))
  }

  // ---- The service tree ----

  /** Real-time queues first, idle queues last, then by key; equal keys in order of insertion. */
  predicate Precedes(a: Queue, key: nat, b: Queue) {
    if a.rt != b.rt then a.rt
    else if a.idle != b.idle then b.idle
    else key < b.key
  }

  /** Where the search for the place of `q` ends. */
  function Place(d: CfqData, q: nat, key: nat, tree: seq<nat>): (k: nat)
    ensures k <= |tree|
  {
    if tree == [] then 0
    else if q in d.queues && tree[0] in d.queues && Precedes(d.queues[q], key, d.queues[tree[0]]) then 0
    else 1 + Place(d, q, key, tree[1..])
  }

  /** `cfq_rb_erase`. */
  function Erase(d: CfqData, q: nat): (d': CfqData)
    ensures d'.queues.Keys == d.queues.Keys
  {
    d.(tree := Without(d.tree, q), left := if d.left == Some(q) then None else d.left)
  }

  function Link(d: CfqData, q: nat, key: nat): (d': CfqData)
    requires q in d.queues
    ensures d'.queues.Keys == d.queues.Keys
  {
    var k := Place(d, q, key, d.tree);
    d.(tree := PutAt(d.tree, k, q), left := if k == 0 then Some(q) else d.left,
       queues := d.queues[q := d.queues[q].(key := key)])
  }

  /** `cfq_service_tree_add`. */
  function ServiceTreeAdd(d: CfqData, q: nat, key: nat): (d': CfqData)
    requires q in d.queues
    ensures d'.queues.Keys == d.queues.Keys
  {
    if q in d.tree then
      if d.queues[q].key == key then d else Link(Erase(d, q), q, key)
    else Link(d, q, key)
  }

  /** `cfq_rb_first`: the leftmost node, cached. */
  function RbFirst(d: CfqData): (r: (CfqData, Option<nat>)) {
    if d.left.Some? then (d, d.left)
    else if d.tree == [] then (d, None)
    else (d.(left := Some(d.tree[0])), Some(d.tree[0]))
  }

  /** `cfq_add_cfqq_rr`. */
  function AddRr(d: CfqData, q: nat, key: nat): (d': CfqData)
    requires q in d.queues
    ensures d'.queues.Keys == d.queues.Keys
  {
    var e := d.(bug := d.bug || d.queues[q].onRr, queues := d.queues[q := d.queues[q].(onRr := true)],
        busy := d.busy + 1);
    ServiceTreeAdd(e, q, key)
  }

  /** `cfq_del_cfqq_rr`. */
  function DelRr(d: CfqData, q: nat): (d': CfqData)
    requires q in d.queues
    ensures d'.queues.Keys == d.queues.Keys
  {
    var e := d.(bug := d.bug || !d.queues[q].onRr || d.busy == 0, queues := d.queues[q := d.queues[q].(onRr := false)],
                busy := d.busy - 1);
    if q in d.tree then Erase(e, q) else e
  }

  /** `cfq_resort_rr_list`. */
  function Resort(d: CfqData, q: nat, key: nat): (d': CfqData)
    requires q in d.queues
    ensures d'.queues.Keys == d.queues.Keys
  {
    if d.queues[q].onRr then ServiceTreeAdd(d, q, key) else d
  }

  // ---- Operations ----

  /** `cfq_remove_request`: a queue that becomes empty leaves the service tree. */
  function Remove(t: Tuning, d: CfqData, q: nat, id: nat): (d': CfqData)
    requires q in d.queues && id in d.queues[q].rqs
    ensures d'.queues.Keys == d.queues.Keys
  {
    var was := d.queues[q];
    var i := was.rqs[id];
    var now := TakeOut(t, d.lastPosition, was, id);
    var e := d.(queues := d.queues[q := now],
                bug := d.bug || (if i.sync then was.queuedSync else was.queuedAsync) == 0 ||
                    (i.meta && was.metaPending == 0));
    if now.onRr && now.sort == map[] then DelRr(e, q) else e
  }

  /** `cfq_dispatch_insert`. */
  function DispatchInsert(t: Tuning, d: CfqData, q: nat, id: nat): (d': CfqData)
    requires q in d.queues && id in d.queues[q].rqs
    ensures d'.queues.Keys == d.queues.Keys
  {
    Remove(t, d, q, id).(dispatched := d.dispatched + [id])
  }

  /** The request already at this sector, if any, goes to the dispatch list. */
  function EvictAlias(t: Tuning, d: CfqData, q: nat, sector: nat): (d': CfqData)
    requires q in d.queues
    ensures d'.queues.Keys == d.queues.Keys
  {
    var cq := d.queues[q];
    if sector in cq.sort && cq.sort[sector] in cq.rqs then DispatchInsert(t, d, q, cq.sort[sector]) else d
  }

  /** `cfq_add_rq_rb`. */
  function AddRqRb(t: Tuning, d: CfqData, q: nat, id: nat, i: Info, key: nat): (d': CfqData)
    requires q in d.queues
    ensures d'.queues.Keys == d.queues.Keys
  {
    var c := d.(queues := d.queues[q := Counted(d.queues[q], i.sync, 1)]);
    var e := EvictAlias(t, c, q, i.sector);
    var f := if e.queues[q].onRr then e else AddRr(e, q, key);
    f.(queues := f.queues[q := PutIn(t, f.lastPosition, f.queues[q], id, i)])
  }

  /** `cfq_insert_request`. */
  function Insert(t: Tuning, d: CfqData, q: nat, id: nat, i: Info, key: nat): (d': CfqData)
    requires q in d.queues
    ensures d'.queues.Keys == d.queues.Keys
  {
    var e := AddRqRb(t, d, q, id, i, key);
    var cq := e.queues[q];
    e.(queues := e.queues[q := cq.(fifo := cq.fifo + [id], metaPending := cq.metaPending + if i.meta then 1 else 0)])
  }

  /** `cfq_reposition_rq_rb`: a front merge moved the start of a request. */
  function Reposition(t: Tuning, d: CfqData, q: nat, id: nat, sector: nat, sectors: nat, key: nat): (d': CfqData)
    requires q in d.queues && id in d.queues[q].rqs
    ensures d'.queues.Keys == d.queues.Keys
  {
    var was := d.queues[q];
    var i := was.rqs[id];
    var out := Counted(was, i.sync, -1).(rqs := was.rqs - {id}, sort := was.sort - {i.sector});
    AddRqRb(t, d.(queues := d.queues[q := out]), q, id, i.(sector := sector, sectors := sectors), key)
  }

  /** The requests queued anywhere. */
  ghost predicate Queued(d: CfqData, q: nat, id: nat) {
    q in d.queues && id in d.queues[q].rqs
  }
}
