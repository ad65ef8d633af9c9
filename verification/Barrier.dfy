/** The ordered-write (barrier) protocol of a request queue, in drain mode.

    The state of a queue is a value and every entry point of the block layer is
    one atomic step on it, because the queue lock is held throughout.  The driver
    is the environment: it peeks, dequeues, requeues and completes as it likes.
    `RequestQueue.dfy` holds the imperative form of the same operations.

    Two fields of the model are history only and are never read by a step that
    the block layer takes: `batch` in a request (how many file-system barriers
    were submitted before it) and the logs at the end of `Queue`.
 */
module Barrier {

  import opened Collections

  /** A request.  The three proxies are the requests embedded in the queue. */
  datatype Request =
    | Ordinary(id: nat, fs: bool, hard: bool, colour: bool, write: bool, sector: nat, batch: nat)
    | PreFlush
    | BarProxy
    | PostFlush

  /** One boolean per finished stage; together they are the word `ordseq`. */
  datatype OrdSeq = OrdSeq(started: bool, drain: bool, preFlush: bool, bar: bool, postFlush: bool)

  const IDLE := OrdSeq(false, false, false, false, false)

  /** The drain variants of `ordered`. */
  datatype Ordered = Drain | DrainFlush | DrainFua

  datatype Where = Front | Back | Sort

  const STARTED := 1
  const DRAIN := 2
  const PREFLUSH := 4
  const BAR := 8
  const POSTFLUSH := 16
  const DONE := 32

  datatype Queue = Queue(
    queue: seq<Request>,         // dispatch list
    elevator: set<Request>,      // held by the I/O scheduler
    driver: set<Request>,        // dequeued, neither completed nor requeued
    started: set<Request>,       // REQ_STARTED
    soft: set<Request>,          // REQ_SOFTBARRIER
    inFlight: int,
    ordSeq: OrdSeq,
    ordered: Ordered,
    nextOrdered: Ordered,
    ordColour: bool,
    origBar: Option<Request>,
    bug: bool,                   // some BUG_ON or WARN_ON of the protocol fired
    log: seq<Request>,           // every submission, in order
    bars: seq<Request>,          // every file-system barrier submitted, in order
    ended: seq<Request>,         // every barrier ended, in order
    done: set<Request>,          // every ordinary request completed
    merged: map<Request, Request>)  // which request now carries the data of one absorbed in the scheduler

  const INIT := Queue([], {}, {}, {}, {}, 0, IDLE, Drain, Drain, false, None, false, [], [], [], {}, map[])

  datatype Op =
    | Add(fs: bool, hard: bool, write: bool, sector: nat, where: Where)
    | Dispatch(rq: Request, pos: nat)
    | Merge(rq: Request, next: Request)
    | Peek
    | Dequeue(rq: Request)
    | Requeue(rq: Request)
    | Complete(rq: Request)
    | SetOrdered(ordered: Ordered)

  predicate IsFs(r: Request) {
    r.BarProxy? || (r.Ordinary? && r.fs)
  }

  /** REQ_HARDBARRIER; the two flushes and the proxy of a barrier carry it. */
  predicate IsHard(r: Request) {
    r.Ordinary? ==> r.hard
  }

  /** Ordinary requests that are not file-system requests escape the ordering rules. */
  predicate IsFree(r: Request) {
    r.Ordinary? && !r.fs
  }

  predicate IsBarrier(r: Request) {
    r.Ordinary? && r.fs && r.hard
  }

  predicate HasPreFlush(o: Ordered) {
    o != Drain
  }

  predicate HasPostFlush(o: Ordered) {
    o == DrainFlush
  }

  function CurSeq(o: OrdSeq): (r: int) {
    if o == IDLE then 0
    else if !o.started then STARTED
    else if !o.drain then DRAIN
    else if !o.preFlush then PREFLUSH
    else if !o.bar then BAR
    else if !o.postFlush then POSTFLUSH
    else DONE
  }

  /** The stage a request belongs to.  Only colours tell old requests from new. */
  function ReqSeq(s: Queue, r: Request): (n: int) {
    match r
    case PreFlush => PREFLUSH
    case BarProxy => BAR
    case PostFlush => POSTFLUSH
    case Ordinary(_, fs, _, colour, _, _, _) =>
      if !fs then DRAIN
      else if s.origBar.Some? && s.origBar.value.Ordinary? && colour == s.origBar.value.colour then DRAIN
      else DONE
  }

  /** First position whose stage is not below `n`: where a requeued request goes. */
  function RequeuePos(s: Queue, n: int, k: nat): (p: nat)
    requires k <= |s.queue|
    ensures k <= p <= |s.queue|
    ensures forall i :: k <= i < p ==> ReqSeq(s, s.queue[i]) < n
    ensures p < |s.queue| ==> n <= ReqSeq(s, s.queue[p])
    decreases |s.queue| - k
  {
    if k == |s.queue| || n <= ReqSeq(s, s.queue[k]) then k else RequeuePos(s, n, k + 1)
  }

  predicate StageDone(o: OrdSeq, stage: int) {
    match stage
    case 1 => o.started
    case 2 => o.drain
    case 4 => o.preFlush
    case 8 => o.bar
    case _ => o.postFlush
  }

  function SetStage(o: OrdSeq, stage: int): (o': OrdSeq) {
    match stage
    case 1 => o.(started := true)
    case 2 => o.(drain := true)
    case 4 => o.(preFlush := true)
    case 8 => o.(bar := true)
    case _ => o.(postFlush := true)
  }

  /** `blk_ordered_complete_seq`: finish a stage; after the last one the original barrier ends. */
  function CompleteSeq(s: Queue, stage: int): (s': Queue) {
    var o := SetStage(s.ordSeq, stage);
    var s1 := s.(bug := s.bug || StageDone(s.ordSeq, stage), ordSeq := o);
    if CurSeq(o) != DONE then s1
    else if s.origBar.None? then s1.(bug := true)
    else s1.(ordSeq := IDLE, ended := s1.ended + [s.origBar.value], done := s1.done + {s.origBar.value})
  }

  /** The tail of `elv_completed_request`: is the queue waiting to be drained, and is it now? */
  function DrainCheck(s: Queue): (s': Queue) {
    if s.ordSeq == IDLE || s.inFlight != 0 || CurSeq(s.ordSeq) != DRAIN then s
    else if s.queue == [] then s.(bug := true)
    else if ReqSeq(s, s.queue[0]) > DRAIN then CompleteSeq(s, DRAIN)
    else s
  }

  function Submitted(s: Queue, op: Op): (r: Request)
    requires op.Add?
  {
    Ordinary(|s.log|, op.fs, op.hard, s.ordColour, op.write, op.sector, |s.bars|)
  }

  function AddStep(s: Queue, op: Op): (s': Queue)
    requires op.Add?
  {
    var r := Submitted(s, op);
    var s1 := s.(ordColour := s.ordColour != op.hard,
                 log := s.log + [r],
                 bars := if IsBarrier(r) then s.bars + [r] else s.bars);
    match op.where
    case Front => s1.(queue := [r] + s.queue, soft := s.soft + {r})
    case Back => s1.(queue := s.queue + [r], soft := s.soft + {r})
    case Sort => s1.(elevator := s.elevator + {r})
  }

  /** What each mode promises (Documentation/block/barrier.txt): draining alone, or with flushes before
      and after the barrier write, or with one before and a forced write. */
  function Owed(mode: Ordered): (stages: seq<Request>) {
    match mode
    case Drain => [BarProxy]
    case DrainFlush => [PreFlush, BarProxy, PostFlush]
    case DrainFua => [PreFlush, BarProxy]
  }

  /** Start the sequence for the barrier at the head: stack post-flush, proxy and pre-flush. */
  function StartOrdered(s: Queue): (res: (Queue, Option<Request>))
    requires s.queue != []
  {
    var b := s.queue[0];
    var pre, post := HasPreFlush(s.nextOrdered), HasPostFlush(s.nextOrdered);
    var inFlight := s.inFlight + if b in s.started && IsFs(b) then 1 else 0;
    var proxies := (if pre then [PreFlush] else []) + [BarProxy] + (if post then [PostFlush] else []);
    var drained := inFlight == 0;
    var s1 := s.(queue := proxies + s.queue[1..],
                 soft := s.soft + {PreFlush, BarProxy, PostFlush},
                 inFlight := inFlight,
                 ordered := s.nextOrdered,
                 origBar := Some(b),
                 ordSeq := OrdSeq(true, drained, !pre, false, !post));
    if drained then Hand(s1, s1.queue[0]) else (s1, None)
  }

  /** The request reaches the driver for the first time since it was queued. */
  function Hand(s: Queue, r: Request): (res: (Queue, Option<Request>)) {
    (s.(started := s.started + {r}), Some(r))
  }

  /** `elv_next_request` on the dispatch list: `blk_do_ordered` decides about its head. */
  function PeekStep(s: Queue): (res: (Queue, Option<Request>)) {
    if s.queue == [] then (s, None)
    else
      var r := s.queue[0];
      if s.ordSeq == IDLE then
        if IsBarrier(r) then StartOrdered(s) else Hand(s, r)
      else if IsFree(r) then Hand(s, r)
      else
        var s1 := s.(bug := s.bug || ReqSeq(s, r) < CurSeq(s.ordSeq));
        if ReqSeq(s, r) > CurSeq(s.ordSeq) then (s1, None) else Hand(s1, r)
  }

  function RequeueStep(s: Queue, r: Request): (s': Queue) {
    var s1 := s.(inFlight := s.inFlight - (if IsFs(r) && r in s.started then 1 else 0),
                 started := s.started - {r}, soft := s.soft + {r}, driver := s.driver - {r});
    var k := if s.ordSeq == IDLE then 0 else RequeuePos(s1, ReqSeq(s1, r), 0);
    s1.(queue := PutAt(s1.queue, k, r))
  }

  function CompleteStep(s: Queue, r: Request): (s': Queue) {
    var s1 := s.(inFlight := s.inFlight - (if IsFs(r) && r in s.started then 1 else 0),
                 started := s.started - {r}, driver := s.driver - {r},
                 done := if r.Ordinary? then s.done + {r} else s.done);
    var s2 := DrainCheck(s1);
    if r.Ordinary? then s2 else CompleteSeq(s2, ReqSeq(s2, r))
  }

  /** What the callers of the block layer may do.

      A file-system request is never front-inserted and only file-system requests are
      sorted; a barrier or a back insertion comes after the scheduler has been drained;
      a dispatched request never passes a started request or a soft or hard barrier;
      the driver dequeues what it was handed and gives back what it dequeued.
   */
  predicate Enabled(s: Queue, op: Op) {
    match op
    case Add(fs, hard, _, _, where) =>
      (where == Front ==> !fs) && (where == Sort ==> fs && !hard) && (where == Back ==> s.elevator == {})
    case Dispatch(rq, pos) =>
      rq in s.elevator && pos <= |s.queue| && MayPassTo(s, pos)
    case Merge(rq, next) => rq in s.elevator && next in s.elevator && rq != next
    case Peek => true
    case Dequeue(rq) => rq in s.queue && rq in s.started
    case Requeue(rq) => rq in s.driver
    case Complete(rq) => rq in s.driver
    case SetOrdered(_) => true
  }

  predicate Blocks(s: Queue, r: Request) {
    IsHard(r) || r in s.soft || r in s.started
  }

  predicate MayPassTo(s: Queue, pos: nat) {
    forall i :: pos <= i < |s.queue| ==> !Blocks(s, s.queue[i])
  }

  function Step(s: Queue, op: Op): (s': Queue)
    requires Enabled(s, op)
  {
    match op
    case Add(_, _, _, _, _) => AddStep(s, op)
    case Dispatch(rq, pos) => s.(queue := PutAt(s.queue, pos, rq), elevator := s.elevator - {rq})
    case Merge(rq, next) => DrainCheck(s.(elevator := s.elevator - {next}, merged := Absorbed(s.merged, rq, next)))
    case Peek => PeekStep(s).0
    case Dequeue(rq) =>
      s.(queue := Without(s.queue, rq), driver := s.driver + {rq},
         inFlight := s.inFlight + if IsFs(rq) && rq in s.started then 1 else 0)
    case Requeue(rq) => RequeueStep(s, rq)
    case Complete(rq) => CompleteStep(s, rq)
    case SetOrdered(o) => s.(ordered := o, nextOrdered := o)
  }

  /** `rq` takes over the data of `next`, with all that `next` has absorbed before. */
  function Absorbed(merged: map<Request, Request>, rq: Request, next: Request): (m: map<Request, Request>) {
    map x | x in merged.Keys + {next} :: if x == next || merged[x] == next then rq else merged[x]
  }

  /** The caller discipline the colours need: only file-system requests carry REQ_HARDBARRIER. */
  predicate Disciplined(op: Op) {
    op.Add? && op.hard ==> op.fs
  }
}
