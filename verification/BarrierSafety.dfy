/** Safety and progress of the barrier protocol over every run of `Barrier`. */
module BarrierSafety {
  import opened Collections
  import opened Barrier

  predicate Odd(n: nat) {
    n % 2 == 1
  }

  ghost predicate Known(log: seq<Request>, r: Request) {
    r.Ordinary? ==> r.id < |log| && log[r.id] == r
  }

  /** The position of a request among everything that has to respect barriers: the plain
      requests of a batch, then the proxies that stand for its barrier, then the barrier. */
  function Rank(base: nat, r: Request): (n: nat) {
    match r
    case PreFlush => 5 * base + 1
    case BarProxy => 5 * base + 2
    case PostFlush => 5 * base + 3
    case Ordinary(_, _, hard, _, _, _, batch) => 5 * batch + if hard then 4 else 0
  }

  ghost predicate Active(s: Queue) {
    s.ordSeq != IDLE
  }

  ghost predicate Pending(s: Queue, r: Request) {
    r in s.queue || r in s.driver
  }

  /** The driver has the request, or has been shown it. */
  ghost predicate Shown(s: Queue, r: Request) {
    r in s.driver || (r in s.queue && r in s.started)
  }

  /** May the stage of this proxy have begun? */
  predicate Turn(o: OrdSeq, r: Request) {
    match r
    case PreFlush => o.drain
    case BarProxy => o.drain && o.preFlush
    case PostFlush => o.drain && o.preFlush && o.bar
    case _ => true
  }

  // ---- The invariant ----

  ghost predicate EntryOk(bars: seq<Request>, i: nat, r: Request) {
    r.Ordinary? && r.id == i && r.batch <= |bars| && r.colour == Odd(r.batch) && (r.hard ==> r.fs)
    && (r.hard ==> r.batch < |bars| && bars[r.batch] == r)
  }

  ghost predicate BarOk(log: seq<Request>, e: nat, b: Request) {
    IsBarrier(b) && b.batch == e && Known(log, b)
  }

  /** Batch numbers grow along the log, and strictly across a barrier. */
  ghost predicate LogFacts(log: seq<Request>, bars: seq<Request>) {
    && (forall i {:trigger log[i]} :: 0 <= i < |log| ==> EntryOk(bars, i, log[i]))
    && (forall e {:trigger bars[e]} :: 0 <= e < |bars| ==> BarOk(log, e, bars[e]))
    && (forall i, j :: 0 <= i < j < |log| ==> log[i].batch <= log[j].batch)
    && (forall e, j :: 0 <= e < |bars| && bars[e].id < j < |log| ==> e < log[j].batch)
  }

  ghost predicate LogOk(s: Queue) {
    LogFacts(s.log, s.bars) && s.ordColour == Odd(|s.bars|)
  }

  ghost predicate Located(s: Queue, r: Request) {
    || r in s.queue || r in s.elevator || r in s.driver || r in s.done || r in s.merged
    || (Active(s) && s.origBar == Some(r))
  }

  ghost predicate PlacesOk(s: Queue) {
    && (forall r :: r in s.queue || r in s.elevator || r in s.driver || r in s.done || r in s.merged ==>
       Known(s.log, r))
    && (forall i :: 0 <= i < |s.log| ==> Located(s, s.log[i]))
    && (forall i, j :: 0 <= i < j < |s.queue| ==> s.queue[i] != s.queue[j])
    && (forall r :: r in s.queue ==> r !in s.elevator && r !in s.driver)
    && s.elevator !! s.driver
    && (forall r :: r in s.elevator || r in s.done || r in s.merged ==> r.Ordinary?)
    && (forall r :: r in s.elevator ==> r.fs && !r.hard && r.batch == |s.bars|)
  }

  ghost predicate BarsOk(s: Queue) {
    var base := |s.ended|;
    && base <= |s.bars| && s.ended == s.bars[..base]
    && (forall e :: base <= e < |s.bars| ==> s.bars[e] in s.queue || (Active(s) && e == base))
    && (Active(s) ==> base < |s.bars| && s.origBar == Some(s.bars[base]))
    && (Active(s) ==> !Pending(s, s.bars[base]))
    && (forall r :: r in s.driver ==> !IsBarrier(r))
    && (forall r :: Pending(s, r) && r.Ordinary? && r.fs ==> r.batch >= base)
  }

  ghost predicate RankSorted(base: nat, q: seq<Request>) {
    forall i, j :: 0 <= i < j < |q| && !IsFree(q[i]) && !IsFree(q[j]) ==> Rank(base, q[i]) <= Rank(base, q[j])
  }

  ghost predicate SeqOk(s: Queue) {
    var o := s.ordSeq;
    && (o == IDLE || o.started)
    && (o.bar ==> o.drain && o.preFlush)
    && (Active(s) && o.preFlush && o.bar ==> !o.postFlush)
    && (Active(s) ==> (Pending(s, PreFlush) <==> !o.preFlush))
    && (Active(s) ==> (Pending(s, BarProxy) <==> !o.bar))
    && (Active(s) ==> (Pending(s, PostFlush) <==> !o.postFlush))
    && (!Active(s) ==> !Pending(s, PreFlush) && !Pending(s, BarProxy) && !Pending(s, PostFlush))
    && (forall r :: Shown(s, r) ==> Turn(o, r))
  }

  /** Which file-system requests the driver has, or has been shown. */
  ghost predicate ServedOk(s: Queue) {
    var base := |s.ended|;
    && (forall r :: Shown(s, r) && r.Ordinary? && r.fs ==> r.batch == base && !r.hard)
    && (Active(s) && s.ordSeq.drain ==> forall r :: Pending(s, r) && r.Ordinary? && r.fs ==> r.batch > base)
    && s.driver <= s.started
    && (forall r :: r in s.started ==> Pending(s, r))
  }

  ghost function FsIn(d: set<Request>): set<Request> {
    set r | r in d && IsFs(r)
  }

  /** Nobody waits for ever: while the queue drains, either the driver still owes something
      or the head of the dispatch list may be handed out. */
  ghost predicate NotStuck(s: Queue) {
    CurSeq(s.ordSeq) == DRAIN && s.driver == {} ==> s.queue != [] && ReqSeq(s, s.queue[0]) == DRAIN
  }

  /** What carries the data of an absorbed request is a plain request of the same batch that has not
      been absorbed itself. */
  ghost predicate Carried(log: seq<Request>, merged: map<Request, Request>, elevator: set<Request>) {
    && (forall r :: r in merged ==> r.Ordinary? && IsCarrier(log, merged, merged[r]) && merged[r].batch == r.batch)
    && (forall r :: r in elevator ==> IsCarrier(log, merged, r))
  }

  ghost predicate IsCarrier(log: seq<Request>, merged: map<Request, Request>, c: Request) {
    c !in merged && c.Ordinary? && c.fs && !c.hard && Known(log, c)
  }

  ghost predicate Inv(s: Queue) {
    && LogOk(s) && PlacesOk(s) && BarsOk(s) && Carried(s.log, s.merged, s.elevator)
    && RankSorted(|s.ended|, s.queue)
    && SeqOk(s) && ServedOk(s)
    && s.inFlight == |FsIn(s.driver)|
    && NotStuck(s)
    && !s.bug
  }

  lemma InitInv()
    ensures Inv(INIT)
  {
    assert FsIn({}) == {};
  }

  // ---- Two colours suffice ----

  /** In an active sequence, a file-system request reached from the head without crossing the
      next barrier and wearing the barrier's colour belongs to the barrier's own batch. */
  lemma SameColourIsSameBatch(s: Queue, i: nat)
    requires LogOk(s) && PlacesOk(s) && BarsOk(s) && RankSorted(|s.ended|, s.queue)
    requires Active(s) && i < |s.queue|
    requires s.queue[i].Ordinary? && s.queue[i].fs && ReqSeq(s, s.queue[i]) < DONE
    requires forall j :: 0 <= j < i ==> ReqSeq(s, s.queue[j]) < DONE
    ensures s.queue[i].batch == |s.ended|
  {
    var base, r := |s.ended|, s.queue[i];
    assert r in s.queue;
    assert Known(s.log, r) && Pending(s, r);
    assert r.batch >= base && r.batch <= |s.bars|;
    assert Known(s.log, s.bars[base]);
    assert r.colour == s.bars[base].colour;
    SameParity(r.batch, base);
    if |s.bars| >= base + 2 {
      assert s.bars[base + 1] in s.queue;
      assert Known(s.log, s.bars[base + 1]);
    }
  }

  lemma SameParity(m: nat, n: nat)
    requires m >= n && Odd(m) == Odd(n)
    ensures m == n || m >= n + 2
  {
  }

  /** While no sequence is active, whatever reaches the head belongs to the oldest open batch. */
  lemma IdleHeadIsOldest(s: Queue)
    requires LogOk(s) && PlacesOk(s) && BarsOk(s) && RankSorted(|s.ended|, s.queue)
    requires !Active(s) && s.queue != [] && s.queue[0].Ordinary? && s.queue[0].fs
    ensures s.queue[0].batch == |s.ended|
  {
    var base, r := |s.ended|, s.queue[0];
    assert Known(s.log, r) && Pending(s, r);
    if base < |s.bars| {
      var j :| 0 <= j < |s.queue| && s.queue[j] == s.bars[base];
      assert Rank(base, r) <= Rank(base, s.bars[base]);
    }
  }

  // ---- Lists ----

  lemma InsertSorted(base: nat, q: seq<Request>, k: nat, r: Request)
    requires k <= |q| && RankSorted(base, q)
    requires !IsFree(r) ==> forall i :: 0 <= i < k && !IsFree(q[i]) ==> Rank(base, q[i]) <= Rank(base, r)
    requires !IsFree(r) ==> forall i :: k <= i < |q| && !IsFree(q[i]) ==> Rank(base, r) <= Rank(base, q[i])
    ensures RankSorted(base, PutAt(q, k, r))
  {
    PutIs(q, k, r);
  }

  lemma RemoveFacts(base: nat, q: seq<Request>, r: Request)
    requires r in q && RankSorted(base, q) && Distinct(q)
    ensures var q' := Without(q, r);
      Distinct(q') && RankSorted(base, q') && forall x :: x in q' <==> x != r && x in q
  {
    WithoutFacts(q, r);
    DropIs(q, IndexOf(q, r));
  }

  lemma FsInPlus(d: set<Request>, r: Request)
    requires r !in d
    ensures |FsIn(d + {r})| == |FsIn(d)| + if IsFs(r) then 1 else 0
  {
    assert FsIn(d + {r}) == if IsFs(r) then FsIn(d) + {r} else FsIn(d);
  }

  lemma FsInMinus(d: set<Request>, r: Request)
    requires r in d
    ensures |FsIn(d - {r})| == |FsIn(d)| - if IsFs(r) then 1 else 0
  {
    FsInPlus(d - {r}, r);
    assert d - {r} + {r} == d;
  }

  // ---- Every step keeps the invariant ----

  lemma AddInv(s: Queue, op: Op)
    requires Inv(s) && op.Add? && Enabled(s, op) && Disciplined(op)
    ensures Inv(AddStep(s, op))
  {
    var r, s' := Submitted(s, op), AddStep(s, op);
    AddFresh(s, r);
    AddLog(s, op);
    AddCarried(s, op);
    AddPlaces(s, op);
    AddOrder(s, op);
    AddBars(s, op);
    AddRest(s, op);
  }

  lemma AddCarried(s: Queue, op: Op)
    requires PlacesOk(s) && ServedOk(s) && Carried(s.log, s.merged, s.elevator) && op.Add? && Enabled(s, op)
    ensures var s' := AddStep(s, op); Carried(s'.log, s'.merged, s'.elevator)
  {
    var r, s' := Submitted(s, op), AddStep(s, op);
    AddFresh(s, r);
    KnownGrows(s.log, r);
    forall x | x in s'.elevator ensures IsCarrier(s'.log, s'.merged, x) {
      if x != r { assert x in s.elevator && IsCarrier(s.log, s.merged, x); }
    }
    forall x | x in s.merged ensures IsCarrier(s'.log, s'.merged, s.merged[x]) {
      assert IsCarrier(s.log, s.merged, s.merged[x]);
    }
  }

  lemma AddFresh(s: Queue, r: Request)
    requires PlacesOk(s) && ServedOk(s) && r.Ordinary? && r.id == |s.log|
    ensures r !in s.queue && r !in s.elevator && r !in s.driver && r !in s.done && r !in s.merged && r !in s.started
  {
    assert !Known(s.log, r);
  }

  lemma AddLog(s: Queue, op: Op)
    requires LogOk(s) && op.Add? && Disciplined(op)
    ensures LogOk(AddStep(s, op))
    ensures forall x :: Known(s.log, x) ==> Known(AddStep(s, op).log, x)
  {
    var r, s' := Submitted(s, op), AddStep(s, op);
    LogGrows(s.log, s.bars, r);
    assert s'.log == s.log + [r];
    assert s'.bars == if r.hard then s.bars + [r] else s.bars;
    assert s'.ordColour == Odd(|s'.bars|) by { OddNext(|s.bars|); }
    KnownGrows(s.log, r);
  }

  lemma OddNext(n: nat)
    ensures Odd(n + 1) == !Odd(n)
  {
  }

  lemma KnownGrows(log: seq<Request>, r: Request)
    ensures forall x :: Known(log, x) ==> Known(log + [r], x)
  {
  }

  lemma LogGrows(log: seq<Request>, bars: seq<Request>, r: Request)
    requires LogFacts(log, bars)
    requires r.Ordinary? && r.id == |log| && r.batch == |bars| && r.colour == Odd(|bars|) && (r.hard ==> r.fs)
    ensures LogFacts(log + [r], if r.hard then bars + [r] else bars)
  {
    var log', bars' := log + [r], if r.hard then bars + [r] else bars;
    forall i | 0 <= i < |log'| ensures EntryOk(bars', i, log'[i]) {
      if i < |log| { assert log'[i] == log[i] && EntryOk(bars, i, log[i]); }
    }
    forall e | 0 <= e < |bars'| ensures BarOk(log', e, bars'[e]) {
      if e < |bars| { assert bars'[e] == bars[e] && BarOk(log, e, bars[e]); }
    }
  }

  lemma AddPlaces(s: Queue, op: Op)
    requires Inv(s) && op.Add? && Enabled(s, op) && Disciplined(op)
    ensures PlacesOk(AddStep(s, op))
  {
    hide LogFacts, BarsOk, SeqOk, NotStuck, RankSorted, Carried;
    var s', r := AddStep(s, op), Submitted(s, op);
    AddFresh(s, r);
    KnownGrows(s.log, r);
    forall i | 0 <= i < |s'.log| ensures Located(s', s'.log[i]) {
      if i < |s.log| { assert s'.log[i] == s.log[i] && Located(s, s.log[i]); }
    }
    match op.where
    case Front => PutFacts(s.queue, 0, r);
      assert s'.queue == PutAt(s.queue, 0, r);
    case Back => PutFacts(s.queue, |s.queue|, r);
      assert s'.queue == PutAt(s.queue, |s.queue|, r);
    case Sort =>
  }

  lemma AddOrder(s: Queue, op: Op)
    requires Inv(s) && op.Add? && Enabled(s, op) && Disciplined(op)
    ensures RankSorted(|s.ended|, AddStep(s, op).queue)
  {
    hide NotStuck, RankSorted, Located;
    var q, r, base := s.queue, Submitted(s, op), |s.ended|;
    if op.where == Front {
      InsertSorted(base, q, 0, r);
      assert [r] + q == PutAt(q, 0, r);
    } else if op.where == Back {
      forall i | 0 <= i < |q| && !IsFree(q[i]) ensures Rank(base, q[i]) <= Rank(base, r) {
        assert q[i] in q && Known(s.log, q[i]) && Pending(s, q[i]);
      }
      InsertSorted(base, q, |q|, r);
      assert q + [r] == PutAt(q, |q|, r);
    }
  }

  lemma AddBars(s: Queue, op: Op)
    requires Inv(s) && op.Add? && Enabled(s, op) && Disciplined(op)
    ensures BarsOk(AddStep(s, op))
  {
  }

  lemma AddRest(s: Queue, op: Op)
    requires Inv(s) && op.Add? && Enabled(s, op) && Disciplined(op)
    ensures var s' := AddStep(s, op); SeqOk(s') && ServedOk(s') && NotStuck(s')
  {
    var s', r := AddStep(s, op), Submitted(s, op);
    AddFresh(s, r);
    assert forall x :: Pending(s', x) <==> Pending(s, x) || (x == r && op.where != Sort);
    assert forall x :: Shown(s', x) <==> Shown(s, x);
    assert SeqOk(s');
    assert ServedOk(s');
  }

  /** The invariant without its progress part. */
  ghost predicate InvX(s: Queue) {
    && LogOk(s) && PlacesOk(s) && BarsOk(s) && Carried(s.log, s.merged, s.elevator)
    && RankSorted(|s.ended|, s.queue)
    && SeqOk(s) && ServedOk(s)
    && s.inFlight == |FsIn(s.driver)|
    && !s.bug
  }

  // Dispatch: the scheduler moves a request to the dispatch list.

  /** A request of a closed batch is always followed by a barrier or by the proxy of one. */
  lemma ClosedBatchIsFollowed(s: Queue, i: nat)
    requires InvX(s) && i < |s.queue|
    requires s.queue[i].Ordinary? && s.queue[i].fs && !s.queue[i].hard && s.queue[i].batch < |s.bars|
    ensures exists j :: i < j < |s.queue| && IsHard(s.queue[j])
  {
    var r, base := s.queue[i], |s.ended|;
    assert r in s.queue && Pending(s, r);
    var b := if r.batch == base && Active(s) then BarProxy else s.bars[r.batch];
    if r.batch == base && Active(s) {
      assert !Turn(s.ordSeq, BarProxy);
      assert Pending(s, BarProxy) && !Shown(s, BarProxy);
    }
    assert b in s.queue;
    var j :| 0 <= j < |s.queue| && s.queue[j] == b;
    assert Rank(base, r) < Rank(base, b);
    assert IsHard(s.queue[j]);
  }

  lemma BehindBlockers(s: Queue, i: nat)
    requires InvX(s) && i < |s.queue| && MayPassTo(s, i)
    requires !IsFree(s.queue[i])
    ensures s.queue[i].Ordinary? && !s.queue[i].hard && s.queue[i].batch == |s.bars|
  {
    var r := s.queue[i];
    assert !Blocks(s, r);
    assert r in s.queue && Known(s.log, r);
    if r.batch < |s.bars| { ClosedBatchIsFollowed(s, i); }
  }

  lemma DispatchInv(s: Queue, rq: Request, pos: nat)
    requires Inv(s) && Enabled(s, Dispatch(rq, pos))
    ensures Inv(Step(s, Dispatch(rq, pos)))
  {
    DispatchSorted(s, rq, pos);
    DispatchPlaces(s, rq, pos);
    DispatchRest(s, rq, pos);
  }

  lemma DispatchPlaces(s: Queue, rq: Request, pos: nat)
    requires LogOk(s) && PlacesOk(s) && BarsOk(s) && Enabled(s, Dispatch(rq, pos))
    ensures var s' := Step(s, Dispatch(rq, pos)); PlacesOk(s') && BarsOk(s')
  {
    PutFacts(s.queue, pos, rq);
  }

  lemma DispatchRest(s: Queue, rq: Request, pos: nat)
    requires Inv(s) && Enabled(s, Dispatch(rq, pos))
    ensures var s' := Step(s, Dispatch(rq, pos)); SeqOk(s') && ServedOk(s') && NotStuck(s')
  {
    var s' := Step(s, Dispatch(rq, pos));
    PutFacts(s.queue, pos, rq);
    assert rq !in s.started by { assert !Pending(s, rq); }
    assert forall x :: Pending(s', x) <==> Pending(s, x) || x == rq;
    assert forall x :: Shown(s', x) <==> Shown(s, x);
    assert NotStuck(s') by {
      if CurSeq(s.ordSeq) == DRAIN && s.driver == {} {
        assert Pending(s, BarProxy) && BarProxy in s.queue;
        assert pos > 0 by { assert MayPassTo(s, pos); }
      }
    }
  }

  lemma DispatchSorted(s: Queue, rq: Request, pos: nat)
    requires Inv(s) && Enabled(s, Dispatch(rq, pos))
    ensures RankSorted(|s.ended|, PutAt(s.queue, pos, rq))
  {
    var base := |s.ended|;
    forall i | 0 <= i < |s.queue| && !IsFree(s.queue[i])
      ensures i < pos ==> Rank(base, s.queue[i]) <= Rank(base, rq)
      ensures pos <= i ==> Rank(base, rq) <= Rank(base, s.queue[i])
    {
      assert s.queue[i] in s.queue && Known(s.log, s.queue[i]);
      if pos <= i { BehindBlockers(s, i); }
    }
    InsertSorted(base, s.queue, pos, rq);
  }

  // Merge: a request of the scheduler is absorbed by another one.

  lemma MergeInv(s: Queue, rq: Request, next: Request)
    requires Inv(s) && Enabled(s, Merge(rq, next))
    ensures Inv(Step(s, Merge(rq, next)))
  {
    var s1 := s.(elevator := s.elevator - {next}, merged := Absorbed(s.merged, rq, next));
    MergePlaces(s, s1, rq, next);
    MergeCarried(s.log, s.merged, s.elevator, rq, next, |s.bars|);
    SameServed(s, s1);
    DrainCheckInv(s1);
  }

  lemma MergePlaces(s: Queue, s1: Queue, rq: Request, next: Request)
    requires PlacesOk(s) && next in s.elevator
    requires s1 == s.(elevator := s.elevator - {next}, merged := Absorbed(s.merged, rq, next))
    ensures PlacesOk(s1)
  {
    assert forall x :: x in s1.merged <==> x in s.merged || x == next;
    forall i | 0 <= i < |s.log| ensures Located(s1, s.log[i]) { assert Located(s, s.log[i]); }
  }

  lemma MergeCarried(log: seq<Request>, merged: map<Request, Request>, elevator: set<Request>, rq: Request,
                     next: Request,
                     batch: nat)
    requires Carried(log, merged, elevator) && rq in elevator && next in elevator && rq != next
    requires rq.Ordinary? && next.Ordinary? && rq.batch == next.batch == batch
    ensures Carried(log, Absorbed(merged, rq, next), elevator - {next})
  {
    var m := Absorbed(merged, rq, next);
    assert IsCarrier(log, merged, rq) && IsCarrier(log, merged, next);
    forall r | r in m ensures r.Ordinary? && IsCarrier(log, m, m[r]) && m[r].batch == r.batch {
      if r != next { assert r in merged; }
    }
    forall r | r in elevator - {next} ensures IsCarrier(log, m, r) { assert IsCarrier(log, merged, r); }
  }

  /** Bookkeeping that depends only on what is queued, held by the driver and shown to it. */
  lemma SameServed(s: Queue, s1: Queue)
    requires BarsOk(s) && SeqOk(s) && ServedOk(s)
    requires s1.queue == s.queue && s1.driver == s.driver && s1.started == s.started
    requires s1.bars == s.bars && s1.ended == s.ended && s1.origBar == s.origBar && s1.ordSeq == s.ordSeq
    ensures BarsOk(s1) && SeqOk(s1) && ServedOk(s1)
  {
    assert forall x :: Pending(s1, x) <==> Pending(s, x);
    assert forall x :: Shown(s1, x) <==> Shown(s, x);
  }

  /** The drain check never fires early, never fires a BUG_ON and leaves nobody stuck. */
  lemma DrainCheckInv(s: Queue)
    requires InvX(s)
    ensures Inv(DrainCheck(s))
  {
    if CurSeq(s.ordSeq) == DRAIN && s.inFlight == 0 {
      NoFsInDriver(s);
      assert Pending(s, BarProxy) && BarProxy in s.queue;
      if ReqSeq(s, s.queue[0]) > DRAIN {
        DrainDone(s);
      }
    } else if s.driver == {} {
      assert FsIn(s.driver) == {};
    }
  }

  lemma DrainDone(s: Queue)
    requires InvX(s) && CurSeq(s.ordSeq) == DRAIN
    requires s.queue != [] && ReqSeq(s, s.queue[0]) > DRAIN
    requires forall r :: r in s.driver ==> !IsFs(r)
    ensures Inv(CompleteSeq(s, DRAIN))
  {
    var s' := CompleteSeq(s, DRAIN);
    assert s' == s.(ordSeq := s.ordSeq.(drain := true)) by { assert !s.ordSeq.bar; }
    DrainedBatch(s);
    assert forall x :: Pending(s', x) <==> Pending(s, x);
    assert forall x :: Shown(s', x) <==> Shown(s, x);
    assert PlacesOk(s');
    assert BarsOk(s');
    assert SeqOk(s');
    assert ServedOk(s');
  }

  lemma NoFsInDriver(s: Queue)
    requires |FsIn(s.driver)| == 0
    ensures forall r :: r in s.driver ==> !IsFs(r)
  {
    forall r | r in s.driver ensures !IsFs(r) {
      assert IsFs(r) ==> r in FsIn(s.driver);
    }
  }

  /** If the head is not of the draining stage, the whole batch before the barrier has left the queue. */
  lemma DrainedBatch(s: Queue)
    requires InvX(s) && Active(s) && s.queue != [] && ReqSeq(s, s.queue[0]) > DRAIN
    ensures forall r :: r in s.queue && r.Ordinary? && r.fs ==> r.batch > |s.ended|
  {
    var base, h := |s.ended|, s.queue[0];
    assert h in s.queue && Known(s.log, h) && Pending(s, h);
    assert Known(s.log, s.bars[base]);
    assert Rank(base, h) > 5 * base;
    forall r | r in s.queue && r.Ordinary? && r.fs ensures r.batch > base {
      var i :| 0 <= i < |s.queue| && s.queue[i] == r;
      assert Rank(base, h) <= Rank(base, r);
      assert Pending(s, r) && Known(s.log, r);
    }
  }

  // Peek: the driver asks for the next request.

  lemma PeekInv(s: Queue)
    requires Inv(s)
    ensures Inv(PeekStep(s).0)
  {
    if s.queue != [] {
      var r := s.queue[0];
      assert r in s.queue;
      if Active(s) {
        if !IsFree(r) { HeadStage(s); }
        if PeekStep(s).1.Some? { HandInv(s, r); }
      } else if IsBarrier(r) {
        StartInv(s);
      } else {
        if r.Ordinary? && r.fs { IdleHeadIsOldest(s); }
        HandInv(s, r);
      }
    }
  }

  /** The stage of the head is never behind the current one, so the WARN_ON stays silent;
      if it is the current one, it is the head's turn. */
  lemma HeadStage(s: Queue)
    requires InvX(s) && Active(s) && s.queue != [] && !IsFree(s.queue[0])
    ensures ReqSeq(s, s.queue[0]) >= CurSeq(s.ordSeq)
    ensures ReqSeq(s, s.queue[0]) <= CurSeq(s.ordSeq) ==> Turn(s.ordSeq, s.queue[0])
    ensures ReqSeq(s, s.queue[0]) <= CurSeq(s.ordSeq) && s.queue[0].Ordinary? ==>
              s.queue[0].batch == |s.ended| && !s.ordSeq.drain && !s.queue[0].hard
  {
    var r := s.queue[0];
    assert r in s.queue && Pending(s, r) && Known(s.log, r);
    if r.Ordinary? && ReqSeq(s, r) < DONE {
      SameColourIsSameBatch(s, 0);
    }
  }

  lemma HandInv(s: Queue, r: Request)
    requires Inv(s) && r in s.queue && Turn(s.ordSeq, r)
    requires r.Ordinary? && r.fs ==> r.batch == |s.ended| && !r.hard
    ensures Inv(Hand(s, r).0)
  {
    var s' := Hand(s, r).0;
    assert PlacesOk(s');
    assert forall x :: Pending(s', x) <==> Pending(s, x);
    assert forall x :: Shown(s', x) <==> Shown(s, x) || x == r;
    assert BarsOk(s') && SeqOk(s') && ServedOk(s');
  }

  /** The dispatch list right after the sequence for its head has begun. */
  lemma StartInv(s: Queue)
    requires Inv(s) && !Active(s) && s.queue != [] && IsBarrier(s.queue[0])
    ensures Inv(StartOrdered(s).0)
    ensures StartOrdered(s).0.queue == Owed(s.nextOrdered) + s.queue[1..]
  {
    var b := s.queue[0];
    var s1 := Started(s);
    StartHead(s);
    StartMembers(s);
    StartSorted(s);
    StartPlaces(s);
    StartBars(s);
    StartServed(s);
    assert NotStuck(s1) by { if s.driver == {} { assert FsIn(s.driver) == {}; } }
    if s.inFlight == 0 { HandInv(s1, s1.queue[0]); }
    assert StartOrdered(s).0.queue == Owed(s.nextOrdered) + s.queue[1..] by { StartQueues(s); }
  }

  /** In place of the barrier stand the proxies that its mode owes. */
  lemma StartQueues(s: Queue)
    requires s.queue != []
    ensures StartOrdered(s).0.queue == Owed(s.nextOrdered) + s.queue[1..]
  {
  }

  /** The state in which `StartOrdered` hands out the first proxy, or waits. */
  function Started(s: Queue): (s1: Queue)
    requires s.queue != []
  {
    var pre, post := HasPreFlush(s.nextOrdered), HasPostFlush(s.nextOrdered);
    s.(queue := Proxies(s) + s.queue[1..],
       soft := s.soft + {PreFlush, BarProxy, PostFlush},
       ordered := s.nextOrdered, origBar := Some(s.queue[0]),
       ordSeq := OrdSeq(true, s.inFlight == 0, !pre, false, !post))
  }

  function Proxies(s: Queue): (ps: seq<Request>) {
    (if HasPreFlush(s.nextOrdered) then [PreFlush] else []) + [BarProxy] +
    (if HasPostFlush(s.nextOrdered) then [PostFlush] else [])
  }

  lemma StartHead(s: Queue)
    requires InvX(s) && !Active(s) && s.queue != [] && IsBarrier(s.queue[0])
    ensures var b, base := s.queue[0], |s.ended|;
      b.batch == base < |s.bars| && b == s.bars[base] && b !in s.started
  {
    var b := s.queue[0];
    assert b in s.queue && Known(s.log, b) && Pending(s, b);
    IdleHeadIsOldest(s);
    assert b in s.started ==> Shown(s, b);
  }

  /** Everything behind the barrier at the head belongs to a later batch. */
  lemma StartTail(s: Queue)
    requires InvX(s) && !Active(s) && s.queue != [] && IsBarrier(s.queue[0])
    ensures forall i :: 1 <= i < |s.queue| && !IsFree(s.queue[i]) ==>
              s.queue[i].Ordinary? && s.queue[i].batch > |s.ended|
  {
    var q, base := s.queue, |s.ended|;
    StartHead(s);
    forall i | 1 <= i < |q| && !IsFree(q[i]) ensures q[i].Ordinary? && q[i].batch > base {
      assert q[i] in q && Known(s.log, q[i]) && Pending(s, q[i]);
      assert Rank(base, q[0]) <= Rank(base, q[i]);
      assert q[i] != q[0];
    }
  }

  lemma StartMembers(s: Queue)
    requires InvX(s) && !Active(s) && s.queue != [] && IsBarrier(s.queue[0])
    ensures var q, q' := s.queue, Started(s).queue;
      && (forall x :: x in q' <==> x in Proxies(s) || (x in q && x != q[0]))
      && (forall i, j :: 0 <= i < j < |q'| ==> q'[i] != q'[j])
  {
    hide LogFacts, BarsOk, ServedOk, RankSorted, Located, Carried;
    var q, ps := s.queue, Proxies(s);
    var q' := ps + q[1..];
    assert forall x :: x in q <==> x == q[0] || x in q[1..];
    assert !Pending(s, PreFlush) && !Pending(s, BarProxy) && !Pending(s, PostFlush);
    forall i, j | 0 <= i < j < |q'| ensures q'[i] != q'[j] {
      if |ps| <= j {
        assert q'[j] == q[j - |ps| + 1] && q'[j] in q;
        if |ps| <= i { assert q'[i] == q[i - |ps| + 1]; }
      }
    }
  }

  lemma StartSorted(s: Queue)
    requires InvX(s) && !Active(s) && s.queue != [] && IsBarrier(s.queue[0])
    ensures RankSorted(|s.ended|, Started(s).queue)
  {
    hide LogFacts, PlacesOk, BarsOk, SeqOk, ServedOk, Carried;
    var q, ps, base := s.queue, Proxies(s), |s.ended|;
    var q' := ps + q[1..];
    StartTail(s);
    forall i, j | 0 <= i < j < |q'| && !IsFree(q'[i]) && !IsFree(q'[j])
      ensures Rank(base, q'[i]) <= Rank(base, q'[j])
    {
      if |ps| <= j { assert q'[j] == q[j - |ps| + 1]; }
      if |ps| <= i { assert q'[i] == q[i - |ps| + 1]; }
    }
  }

  lemma StartPlaces(s: Queue)
    requires InvX(s) && !Active(s) && s.queue != [] && IsBarrier(s.queue[0])
    ensures PlacesOk(Started(s))
  {
    hide LogFacts, BarsOk, ServedOk, RankSorted, Carried;
    StartMembers(s);
    var s1 := Started(s);
    assert !Pending(s, PreFlush) && !Pending(s, BarProxy) && !Pending(s, PostFlush);
    forall i | 0 <= i < |s.log| ensures Located(s1, s.log[i]) { assert Located(s, s.log[i]); }
  }

  lemma StartBars(s: Queue)
    requires InvX(s) && !Active(s) && s.queue != [] && IsBarrier(s.queue[0])
    ensures BarsOk(Started(s))
  {
    StartHead(s);
    StartMembers(s);
    var s1 := Started(s);
    forall r | Pending(s1, r) && r.Ordinary? && r.fs ensures r.batch >= |s.ended| { assert Pending(s, r); }
    forall e | |s.ended| < e < |s.bars| ensures s.bars[e] in s1.queue {
      assert s.bars[e].batch == e;
      assert s.bars[e] in s.queue;
    }
  }

  lemma StartServed(s: Queue)
    requires InvX(s) && !Active(s) && s.queue != [] && IsBarrier(s.queue[0])
    ensures SeqOk(Started(s)) && ServedOk(Started(s))
  {
    hide LogFacts, PlacesOk, RankSorted;
    var s1, b := Started(s), s.queue[0];
    StartHead(s);
    StartTail(s);
    StartPending(s);
    if s.inFlight == 0 { NoFsInDriver(s); }
    assert SeqOk(s1);
    assert ServedOk(s1);
  }

  lemma StartPending(s: Queue)
    requires InvX(s) && !Active(s) && s.queue != [] && IsBarrier(s.queue[0])
    ensures forall x :: Pending(Started(s), x) <==> x in Proxies(s) || (Pending(s, x) && x != s.queue[0])
    ensures forall x :: Shown(Started(s), x) ==> Shown(s, x)
  {
    hide LogFacts, RankSorted, Located, NotStuck;
    StartHead(s);
    StartMembers(s);
    assert s.queue[0] !in s.driver;
  }

  // Dequeue, requeue and completion by the driver.

  lemma DequeueInv(s: Queue, rq: Request)
    requires Inv(s) && Enabled(s, Dequeue(rq))
    ensures Inv(Step(s, Dequeue(rq)))
  {
    RemoveFacts(|s.ended|, s.queue, rq);
    FsInPlus(s.driver, rq);
    DequeuePlaces(s, rq);
    DequeueServed(s, rq);
  }

  lemma DequeuePlaces(s: Queue, rq: Request)
    requires PlacesOk(s) && RankSorted(|s.ended|, s.queue) && Enabled(s, Dequeue(rq))
    ensures PlacesOk(Step(s, Dequeue(rq)))
  {
    RemoveFacts(|s.ended|, s.queue, rq);
  }

  lemma DequeueServed(s: Queue, rq: Request)
    requires InvX(s) && Enabled(s, Dequeue(rq))
    ensures var s' := Step(s, Dequeue(rq)); BarsOk(s') && SeqOk(s') && ServedOk(s')
  {
    DequeueShown(s, rq);
    DequeueBars(s, rq);
    DequeueSeq(s, rq);
    var s' := Step(s, Dequeue(rq));
    assert ServedOk(s');
  }

  lemma DequeueBars(s: Queue, rq: Request)
    requires InvX(s) && Enabled(s, Dequeue(rq))
    ensures BarsOk(Step(s, Dequeue(rq)))
  {
    DequeueShown(s, rq);
  }

  lemma DequeueSeq(s: Queue, rq: Request)
    requires InvX(s) && Enabled(s, Dequeue(rq))
    ensures SeqOk(Step(s, Dequeue(rq)))
  {
    DequeueShown(s, rq);
  }

  lemma DequeueShown(s: Queue, rq: Request)
    requires InvX(s) && Enabled(s, Dequeue(rq))
    ensures var s' := Step(s, Dequeue(rq));
            (forall r :: Pending(s', r) <==> Pending(s, r)) && (forall r :: Shown(s', r) <==> Shown(s, r))
  {
    RemoveFacts(|s.ended|, s.queue, rq);
    assert Shown(s, rq);
  }

  /** The driver gives a request up, to be requeued or completed. */
  function GivenUp(s: Queue, r: Request): (s1: Queue) {
    s.(inFlight := s.inFlight - (if IsFs(r) && r in s.started then 1 else 0),
       started := s.started - {r}, driver := s.driver - {r})
  }

  lemma RequeueInv(s: Queue, rq: Request)
    requires Inv(s) && Enabled(s, Requeue(rq))
    ensures Inv(Step(s, Requeue(rq)))
  {
    var k := RequeueWhere(s, rq);
    FsInMinus(s.driver, rq);
    RequeueSorted(s, rq, k);
    RequeuePlaces(s, rq, k);
    RequeueServed(s, rq, k);
    RequeueProgress(s, rq, k);
  }

  lemma RequeueWhere(s: Queue, rq: Request) returns (k: nat)
    ensures k <= |s.queue|
    ensures s.ordSeq == IDLE ==> k == 0
    ensures s.ordSeq != IDLE ==> forall i :: 0 <= i < k ==> ReqSeq(s, s.queue[i]) < ReqSeq(s, rq)
    ensures s.ordSeq != IDLE && k < |s.queue| ==> ReqSeq(s, rq) <= ReqSeq(s, s.queue[k])
    ensures RequeueStep(s, rq) == GivenUp(s, rq).(soft := s.soft + {rq}, queue := PutAt(s.queue, k, rq))
  {
    var s1 := GivenUp(s, rq).(soft := s.soft + {rq});
    k := if s.ordSeq == IDLE then 0 else RequeuePos(s1, ReqSeq(s1, rq), 0);
    assert forall r :: ReqSeq(s1, r) == ReqSeq(s, r);
  }

  lemma RequeueProgress(s: Queue, rq: Request, k: nat)
    requires SeqOk(s) && rq in s.driver && k <= |s.queue|
    requires rq.Ordinary? ==> k == 0 && (Active(s) ==> ReqSeq(s, rq) == DRAIN)
    ensures NotStuck(GivenUp(s, rq).(soft := s.soft + {rq}, queue := PutAt(s.queue, k, rq)))
  {
    assert Shown(s, rq);
  }

  /** A requeued request goes back in front of everything of its own or a later stage,
      and passes nothing but free requests and earlier stages. */
  lemma RequeueSorted(s: Queue, rq: Request, k: nat)
    requires InvX(s) && rq in s.driver && k <= |s.queue|
    requires s.ordSeq == IDLE ==> k == 0
    requires s.ordSeq != IDLE ==> forall i :: 0 <= i < k ==> ReqSeq(s, s.queue[i]) < ReqSeq(s, rq)
    requires s.ordSeq != IDLE && k < |s.queue| ==> ReqSeq(s, rq) <= ReqSeq(s, s.queue[k])
    ensures RankSorted(|s.ended|, PutAt(s.queue, k, rq))
    ensures rq.Ordinary? ==> k == 0 && (Active(s) ==> ReqSeq(s, rq) == DRAIN)
  {
    var base := |s.ended|;
    assert Shown(s, rq) && Pending(s, rq) && Known(s.log, rq);
    if Active(s) { assert Known(s.log, s.bars[base]); }
    assert rq.Ordinary? && Active(s) ==> ReqSeq(s, rq) == DRAIN;
    assert Active(s) && k > 0 ==> ReqSeq(s, s.queue[0]) < ReqSeq(s, rq);
    forall i | 0 <= i < |s.queue| && !IsFree(s.queue[i]) && !IsFree(rq)
      ensures i < k ==> Rank(base, s.queue[i]) <= Rank(base, rq)
      ensures k <= i ==> Rank(base, rq) <= Rank(base, s.queue[i])
    {
      assert s.queue[i] in s.queue && Pending(s, s.queue[i]) && Known(s.log, s.queue[i]);
      if i < k {
        if s.queue[i].Ordinary? { SameColourIsSameBatch(s, i); }
      } else if Active(s) {
        assert s.queue[k] in s.queue && Pending(s, s.queue[k]) && Known(s.log, s.queue[k]);
        assert !IsFree(s.queue[k]) || rq.Ordinary?;
      }
    }
    InsertSorted(base, s.queue, k, rq);
  }

  lemma RequeuePlaces(s: Queue, rq: Request, k: nat)
    requires PlacesOk(s) && rq in s.driver && k <= |s.queue|
    ensures PlacesOk(GivenUp(s, rq).(soft := s.soft + {rq}, queue := PutAt(s.queue, k, rq)))
  {
    PutFacts(s.queue, k, rq);
  }

  lemma RequeueServed(s: Queue, rq: Request, k: nat)
    requires InvX(s) && rq in s.driver && k <= |s.queue|
    ensures var s' := GivenUp(s, rq).(soft := s.soft + {rq}, queue := PutAt(s.queue, k, rq));
      BarsOk(s') && SeqOk(s') && ServedOk(s')
  {
    var s' := GivenUp(s, rq).(soft := s.soft + {rq}, queue := PutAt(s.queue, k, rq));
    PutFacts(s.queue, k, rq);
    assert forall r :: Pending(s', r) <==> Pending(s, r);
    assert forall r :: Shown(s', r) ==> Shown(s, r);
    assert BarsOk(s');
    assert SeqOk(s');
    assert ServedOk(s');
  }

  lemma CompleteInv(s: Queue, rq: Request)
    requires Inv(s) && Enabled(s, Complete(rq))
    ensures Inv(Step(s, Complete(rq)))
  {
    FsInMinus(s.driver, rq);
    if rq.Ordinary? {
      var s1 := GivenUp(s, rq).(done := s.done + {rq});
      DonePlaces(s, rq);
      DoneServed(s, rq);
      DrainCheckInv(s1);
    } else {
      ProxyDone(s, rq);
    }
  }

  lemma DonePlaces(s: Queue, rq: Request)
    requires PlacesOk(s) && rq in s.driver && rq.Ordinary?
    ensures PlacesOk(GivenUp(s, rq).(done := s.done + {rq}))
  {
  }

  lemma DoneServed(s: Queue, rq: Request)
    requires InvX(s) && rq in s.driver && rq.Ordinary?
    ensures var s' := GivenUp(s, rq).(done := s.done + {rq}); BarsOk(s') && SeqOk(s') && ServedOk(s')
  {
    var s' := GivenUp(s, rq).(done := s.done + {rq});
    assert forall r :: Pending(s', r) <==> Pending(s, r) && r != rq;
    assert forall r :: Shown(s', r) ==> Shown(s, r);
    assert BarsOk(s');
    assert SeqOk(s');
    assert ServedOk(s');
  }

  /** Each stage is finished once, by the proxy that stands for it. */
  lemma ProxyDone(s: Queue, rq: Request)
    requires Inv(s) && rq in s.driver && !rq.Ordinary?
    ensures Inv(CompleteStep(s, rq))
  {
    var s1 := GivenUp(s, rq);
    assert Shown(s, rq) && Pending(s, rq) && s.ordSeq.drain;
    assert DrainCheck(s1) == s1;
    var o := SetStage(s.ordSeq, ReqSeq(s, rq));
    assert !StageDone(s.ordSeq, ReqSeq(s, rq));
    FsInMinus(s.driver, rq);
    if CurSeq(o) != DONE {
      StageDonePlaces(s, rq, o);
      StageDoneServed(s, rq, o);
    } else {
      EndPlaces(s, rq);
      EndServed(s, rq);
    }
  }

  lemma StageDonePlaces(s: Queue, rq: Request, o: OrdSeq)
    requires LogOk(s) && PlacesOk(s) && rq in s.driver && !rq.Ordinary? && Active(s) && o != IDLE
    ensures PlacesOk(GivenUp(s, rq).(ordSeq := o))
  {
  }

  lemma StageDoneServed(s: Queue, rq: Request, o: OrdSeq)
    requires InvX(s) && rq in s.driver && !rq.Ordinary? && Active(s)
    requires o == SetStage(s.ordSeq, ReqSeq(s, rq)) && CurSeq(o) != DONE
    ensures var s' := GivenUp(s, rq).(ordSeq := o); BarsOk(s') && SeqOk(s') && ServedOk(s')
  {
    var s' := GivenUp(s, rq).(ordSeq := o);
    assert Shown(s, rq);
    assert forall r :: Pending(s', r) <==> Pending(s, r) && r != rq;
    assert forall r :: Shown(s', r) ==> Shown(s, r);
    assert BarsOk(s');
    assert SeqOk(s');
    assert ServedOk(s');
  }

  function Ended(s: Queue, rq: Request): (s': Queue)
    requires s.origBar.Some?
  {
    GivenUp(s, rq).(ordSeq := IDLE, ended := s.ended + [s.origBar.value], done := s.done + {s.origBar.value})
  }

  lemma EndPlaces(s: Queue, rq: Request)
    requires InvX(s) && rq in s.driver && !rq.Ordinary? && Active(s)
    ensures PlacesOk(Ended(s, rq))
  {
    var s' := Ended(s, rq);
    assert Known(s.log, s.bars[|s.ended|]);
    forall i | 0 <= i < |s.log| ensures Located(s', s.log[i]) { assert Located(s, s.log[i]); }
  }

  lemma EndServed(s: Queue, rq: Request)
    requires InvX(s) && rq in s.driver && !rq.Ordinary? && Active(s)
    requires CurSeq(SetStage(s.ordSeq, ReqSeq(s, rq))) == DONE
    ensures var s' := Ended(s, rq); BarsOk(s') && SeqOk(s') && ServedOk(s') && RankSorted(|s'.ended|, s'.queue)
  {
    hide LogFacts, Located;
    var s' := Ended(s, rq);
    assert Shown(s, rq);
    assert forall r :: Pending(s', r) <==> Pending(s, r) && r != rq;
    assert forall r :: Shown(s', r) ==> Shown(s, r);
    assert forall r :: Pending(s', r) ==> r.Ordinary?;
    assert forall i :: 0 <= i < |s.queue| ==> Pending(s', s.queue[i]);
    assert BarsOk(s');
    assert SeqOk(s');
    assert ServedOk(s');
  }

  // ---- Whole runs ----

  ghost predicate IsRun(ss: seq<Queue>, ops: seq<Op>) {
    && |ss| == |ops| + 1 && ss[0] == INIT
    && forall i :: 0 <= i < |ops| ==> Enabled(ss[i], ops[i]) && ss[i + 1] == Step(ss[i], ops[i])
  }

  ghost predicate AllDisciplined(ops: seq<Op>) {
    forall i :: 0 <= i < |ops| ==> Disciplined(ops[i])
  }

  lemma StepInv(s: Queue, op: Op)
    requires Inv(s) && Enabled(s, op) && Disciplined(op)
    ensures Inv(Step(s, op))
  {
    match op
    case Add(_, _, _, _, _) => AddInv(s, op);
    case Dispatch(rq, pos) => DispatchInv(s, rq, pos);
    case Merge(rq, next) => MergeInv(s, rq, next);
    case Peek => PeekInv(s);
    case Dequeue(rq) => DequeueInv(s, rq);
    case Requeue(rq) => RequeueInv(s, rq);
    case Complete(rq) => CompleteInv(s, rq);
    case SetOrdered(o) => SetOrderedInv(s, o);
  }

  lemma SetOrderedInv(s: Queue, o: Ordered)
    requires Inv(s)
    ensures Inv(Step(s, SetOrdered(o)))
  {
    var s' := Step(s, SetOrdered(o));
    assert PlacesOk(s');
    SameServed(s, s');
  }

  lemma {:induction false} RunInv(ss: seq<Queue>, ops: seq<Op>, n: nat)
    requires IsRun(ss, ops) && AllDisciplined(ops) && n < |ss|
    ensures Inv(ss[n])
  {
    if n == 0 {
      InitInv();
    } else {
      RunInv(ss, ops, n - 1);
      StepInv(ss[n - 1], ops[n - 1]);
    }
  }

  /** The ordering a barrier promises, as a statement about one state: whatever the driver
      has been shown was not submitted after a barrier that has yet to end, and the
      barrier's own write is shown only when everything before it is on the medium. */
  ghost predicate PromiseKept(s: Queue) {
    && (forall r, b :: Shown(s, r) && b in s.bars && FsAfter(b, r) ==> b in s.ended)
    && (Shown(s, BarProxy) ==> s.ordSeq.preFlush && EarlierDone(s) && s.origBar.value !in s.ended)
    && (Shown(s, PreFlush) ==> EarlierDone(s))
    && (Shown(s, PostFlush) ==> s.ordSeq.bar)
  }

  /** `r` is a file-system request submitted after `b`. */
  predicate FsAfter(b: Request, r: Request) {
    b.Ordinary? && r.Ordinary? && r.fs && b.id < r.id
  }

  /** The request has completed, or the one that carries its data has. */
  ghost predicate Settled(s: Queue, r: Request) {
    r in s.done || (r in s.merged && s.merged[r] in s.done)
  }

  /** Every file-system request submitted before the barrier in progress has completed,
      on its own or as part of a request that absorbed it. */
  ghost predicate EarlierDone(s: Queue) {
    && s.origBar.Some? && s.origBar.value in s.bars
    && forall r :: r in s.log && IsFs(r) && FsAfter(r, s.origBar.value) ==> Settled(s, r)
  }

  lemma LaterBatch(log: seq<Request>, bars: seq<Request>, e: nat, r: Request)
    requires LogFacts(log, bars) && e < |bars| && r.Ordinary? && Known(log, r)
    ensures bars[e].id < r.id ==> e < r.batch
    ensures r.id < bars[e].id ==> r.batch <= e
  {
    assert BarOk(log, e, bars[e]);
  }

  lemma InvKeepsPromise(s: Queue)
    requires Inv(s)
    ensures PromiseKept(s)
  {
    var base := |s.ended|;
    forall r, b | Shown(s, r) && b in s.bars && FsAfter(b, r) ensures b in s.ended {
      var e :| 0 <= e < |s.bars| && s.bars[e] == b;
      assert Known(s.log, r) && r.batch == base;
      LaterBatch(s.log, s.bars, e, r);
      assert s.ended[e] == b;
    }
    if Shown(s, BarProxy) || Shown(s, PreFlush) {
      assert Pending(s, BarProxy) || Pending(s, PreFlush);
      assert s.ordSeq.drain;
      NotYetEnded(s, base);
      forall r | r in s.log && IsFs(r) && FsAfter(r, s.bars[base]) ensures Settled(s, r) {
        EarlierSettled(s, r);
      }
    }
  }

  lemma NotYetEnded(s: Queue, e: nat)
    requires LogOk(s) && BarsOk(s) && |s.ended| <= e < |s.bars|
    ensures s.bars[e] !in s.ended
  {
    forall i | 0 <= i < |s.ended| ensures s.ended[i] != s.bars[e] {
      assert s.ended[i] == s.bars[i] && s.bars[i].batch == i;
    }
  }

  /** Once the queue is drained, every file-system request before the barrier is settled. */
  lemma EarlierSettled(s: Queue, r: Request)
    requires Inv(s) && Active(s) && s.ordSeq.drain
    requires r in s.log && r.Ordinary? && r.fs && FsAfter(r, s.bars[|s.ended|])
    ensures Settled(s, r)
  {
    var i :| 0 <= i < |s.log| && s.log[i] == r;
    assert Located(s, s.log[i]);
    LaterBatch(s.log, s.bars, |s.ended|, r);
    assert !Pending(s, r);
    if r in s.merged {
      var c := s.merged[r];
      assert IsCarrier(s.log, s.merged, c);
      assert s.log[c.id] == c && Located(s, s.log[c.id]);
      assert !Pending(s, c);
    }
  }

  /** Barrier safety: in every state of every run the promised order holds, no BUG_ON or
      WARN_ON of the protocol has fired, and barriers have ended in the order in which
      they were submitted, each at most once. */
  lemma BarrierSafety(ss: seq<Queue>, ops: seq<Op>, n: nat)
    requires IsRun(ss, ops) && AllDisciplined(ops) && n < |ss|
    ensures PromiseKept(ss[n])
    ensures !ss[n].bug
    ensures ss[n].ended <= ss[n].bars
    ensures forall i, j :: 0 <= i < j < |ss[n].bars| ==> ss[n].bars[i] != ss[n].bars[j]
  {
    RunInv(ss, ops, n);
    InvKeepsPromise(ss[n]);
    var s := ss[n];
    forall i, j | 0 <= i < j < |s.bars| ensures s.bars[i] != s.bars[j] {
      assert s.bars[i].batch == i && s.bars[j].batch == j;
    }
  }

  /** What a peek hands out counts as shown from then on. */
  lemma HandedIsShown(s: Queue)
    requires PeekStep(s).1.Some?
    ensures Shown(PeekStep(s).0, PeekStep(s).1.value)
  {
  }

  /** Progress: when the driver owes nothing, a queue that is not empty always has something
      to hand out, and a sequence in progress never leaves the queue empty. */
  lemma NeverStuck(ss: seq<Queue>, ops: seq<Op>, n: nat)
    requires IsRun(ss, ops) && AllDisciplined(ops) && n < |ss|
    requires ss[n].driver == {}
    ensures Active(ss[n]) ==> ss[n].queue != []
    ensures ss[n].queue != [] ==> PeekStep(ss[n]).1.Some?
  {
    RunInv(ss, ops, n);
    HandsOut(ss[n]);
  }

  lemma HandsOut(s: Queue)
    requires Inv(s) && s.driver == {}
    ensures Active(s) ==> s.queue != []
    ensures s.queue != [] ==> PeekStep(s).1.Some?
  {
    assert FsIn(s.driver) == {};
    if Active(s) {
      var p := if !s.ordSeq.preFlush then PreFlush else if !s.ordSeq.bar then BarProxy else PostFlush;
      assert Pending(s, p) && p in s.queue;
      if !IsFree(s.queue[0]) && s.ordSeq.drain { HeadIsNext(s, p); }
    } else if s.queue != [] && IsBarrier(s.queue[0]) {
      StartHead(s);
    }
  }

  lemma HeadIsNext(s: Queue, p: Request)
    requires Inv(s) && Active(s) && s.ordSeq.drain && s.queue != [] && !IsFree(s.queue[0])
    requires p == if !s.ordSeq.preFlush then PreFlush else if !s.ordSeq.bar then BarProxy else PostFlush
    requires p in s.queue
    ensures s.queue[0] == p
  {
    var h, base := s.queue[0], |s.ended|;
    assert h in s.queue && Pending(s, h) && Pending(s, p);
    var j :| 0 <= j < |s.queue| && s.queue[j] == p;
    assert Rank(base, h) <= Rank(base, p);
  }

  // ---- The word `ordseq` ----

  function Mask(o: OrdSeq): (m: bv8) {
    (if o.started then 1 else 0) | (if o.drain then 2 else 0) | (if o.preFlush then 4 else 0) |
    (if o.bar then 8 else 0) | (if o.postFlush then 16 else 0)
  }

  /** `1 << ffz(ordseq)`, the lowest clear bit, is the stage `CurSeq` computes; the word is
      zero exactly when no sequence is active; and setting a stage is one bitwise or. */
  lemma CurSeqIsLowestClearBit(o: OrdSeq, stage: int)
    requires stage in {STARTED, DRAIN, PREFLUSH, BAR, POSTFLUSH}
    ensures o == IDLE <==> Mask(o) == 0
    ensures o != IDLE ==> (CurSeq(o) as bv8) == !Mask(o) & (Mask(o) + 1)
    ensures Mask(SetStage(o, stage)) == Mask(o) | (stage as bv8)
    ensures StageDone(o, stage) <==> Mask(o) & (stage as bv8) != 0
  {
  }

  // ---- Why the discipline is needed ----

  const WRITE_BARRIER := Ordinary(0, true, true, false, true, 0, 0)
  const HARD_COMMAND := Ordinary(1, false, true, true, true, 0, 1)
  const LATER_WRITE := Ordinary(2, true, false, false, true, 8, 1)

  const BAD_OPS := [
    Add(true, true, true, 0, Back), Add(false, true, true, 0, Back), Add(true, false, true, 8, Sort),
    Dispatch(LATER_WRITE, 2), Peek, Dequeue(BarProxy), Peek, Dequeue(HARD_COMMAND), Peek]

  const SUBMITTED := INIT.(
    queue := [WRITE_BARRIER, HARD_COMMAND, LATER_WRITE], soft := {WRITE_BARRIER, HARD_COMMAND},
    log := [WRITE_BARRIER, HARD_COMMAND, LATER_WRITE], bars := [WRITE_BARRIER])

  const BEGUN := SUBMITTED.(
    queue := [BarProxy, HARD_COMMAND, LATER_WRITE], origBar := Some(WRITE_BARRIER),
    soft := {WRITE_BARRIER, HARD_COMMAND, PreFlush, BarProxy, PostFlush},
    ordSeq := OrdSeq(true, true, true, false, true), started := {BarProxy})

  /** The states of a run in which a packet command carries REQ_HARDBARRIER. */
  function BadState(i: nat): (s: Queue)
    requires i <= 9
  {
    match i
    case 0 => INIT
    case 1 => INIT.(queue := [WRITE_BARRIER], soft := {WRITE_BARRIER}, ordColour := true,
                    log := [WRITE_BARRIER], bars := [WRITE_BARRIER])
    case 2 => SUBMITTED.(queue := [WRITE_BARRIER, HARD_COMMAND], log := [WRITE_BARRIER, HARD_COMMAND])
    case 3 => SUBMITTED.(queue := [WRITE_BARRIER, HARD_COMMAND], elevator := {LATER_WRITE})
    case 4 => SUBMITTED
    case 5 => BEGUN
    case 6 => BEGUN.(queue := [HARD_COMMAND, LATER_WRITE], driver := {BarProxy}, inFlight := 1)
    case 7 => BEGUN.(queue := [HARD_COMMAND, LATER_WRITE], driver := {BarProxy}, inFlight := 1,
                     started := {BarProxy, HARD_COMMAND})
    case 8 => BEGUN.(queue := [LATER_WRITE], driver := {BarProxy, HARD_COMMAND}, inFlight := 1,
                     started := {BarProxy, HARD_COMMAND})
    case _ => BEGUN.(queue := [LATER_WRITE], driver := {BarProxy, HARD_COMMAND}, inFlight := 1,
                     started := {BarProxy, HARD_COMMAND, LATER_WRITE}, bug := true)
  }

  lemma BadSubmissions(i: nat)
    requires i < 4
    ensures Enabled(BadState(i), BAD_OPS[i]) && Step(BadState(i), BAD_OPS[i]) == BadState(i + 1)
  {
    match i case 0 => case 1 => case 2 => case _ =>
  }

  lemma BadService(i: nat)
    requires 4 <= i < 9
    ensures Enabled(BadState(i), BAD_OPS[i]) && Step(BadState(i), BAD_OPS[i]) == BadState(i + 1)
  {
    hide Enabled, Step, BadState;
    if i == 4 { BadStart(); } else if i < 7 { BadProxy(i); } else { BadCommand(i); }
  }

  lemma BadStart()
    ensures Enabled(BadState(4), BAD_OPS[4]) && Step(BadState(4), BAD_OPS[4]) == BadState(5)
  {
  }

  lemma BadProxy(i: nat)
    requires 5 <= i < 7
    ensures Enabled(BadState(i), BAD_OPS[i]) && Step(BadState(i), BAD_OPS[i]) == BadState(i + 1)
  {
    match i case 5 => case _ =>
  }

  lemma BadCommand(i: nat)
    requires 7 <= i < 9
    ensures Enabled(BadState(i), BAD_OPS[i]) && Step(BadState(i), BAD_OPS[i]) == BadState(i + 1)
  {
    match i case 7 => case _ =>
  }

  /** If callers may submit a hard barrier that is not a file-system request, the colours no
      longer tell old requests from new: a run exists in which a request submitted after a
      barrier reaches the driver while the barrier's own write is still in flight. */
  lemma UndisciplinedRunBreaksPromise() returns (ss: seq<Queue>)
    ensures IsRun(ss, BAD_OPS) && !AllDisciplined(BAD_OPS)
    ensures !PromiseKept(ss[9]) && ss[9].bug && BarProxy in ss[9].driver
  {
    ss := seq(10, i requires 0 <= i < 10 => BadState(i));
    forall i | 0 <= i < |BAD_OPS|
      ensures Enabled(ss[i], BAD_OPS[i]) && ss[i + 1] == Step(ss[i], BAD_OPS[i])
    {
      if i < 4 { BadSubmissions(i); } else { BadService(i); }
    }
    assert !Disciplined(BAD_OPS[1]);
    assert Shown(ss[9], LATER_WRITE) && WRITE_BARRIER in ss[9].bars && FsAfter(WRITE_BARRIER, LATER_WRITE);
  }

  ghost predicate AllRunsKeepPromise(allowHardCommands: bool) {
    forall ss, ops, n :: IsRun(ss, ops) && (allowHardCommands || AllDisciplined(ops)) && 0 <= n < |ss| ==>
      PromiseKept(ss[n])
  }

  /** Two colours suffice exactly when only file-system requests carry REQ_HARDBARRIER. */
  lemma DisciplineIsExact(allowHardCommands: bool)
    ensures AllRunsKeepPromise(allowHardCommands) <==> !allowHardCommands
  {
    if allowHardCommands {
      var ss := UndisciplinedRunBreaksPromise();
      assert IsRun(ss, BAD_OPS) && !PromiseKept(ss[9]);
    } else {
      forall ss, ops, n | IsRun(ss, ops) && AllDisciplined(ops) && 0 <= n < |ss| ensures PromiseKept(ss[n]) {
        BarrierSafety(ss, ops, n);
      }
    }
  }
}
