/** Every barrier ends: whatever the driver and the scheduler do, they can only do a bounded number of
    things before everything submitted is settled. */
module BarrierProgress {
  import opened Collections
  import opened Barrier
  import opened BarrierSafety

  /** What a queued request may still cause: a barrier its whole sequence. */
  function Weight(started: set<Request>, r: Request): (w: nat) {
    if IsBarrier(r) then 10 else if r in started then 2 else 3
  }

  function Weights(started: set<Request>, q: seq<Request>): (w: nat) {
    if q == [] then 0 else Weight(started, q[0]) + Weights(started, q[1..])
  }

  /** How much there is left to do. */
  function Left(s: Queue): (n: nat) {
    4 * |s.elevator| + Weights(s.started, s.queue) + |s.driver|
  }

  /** Neither a submission nor a requeue, which bring new work. */
  predicate Working(op: Op) {
    !op.Add? && !op.Requeue? && !op.SetOrdered?
  }

  // ---- Sums ----

  lemma {:induction false} WeightsAppend(started: set<Request>, p: seq<Request>, q: seq<Request>)
    ensures Weights(started, p + q) == Weights(started, p) + Weights(started, q)
  {
    if p == [] {
      assert p + q == q;
    } else {
      assert (p + q)[1..] == p[1..] + q;
      WeightsAppend(started, p[1..], q);
    }
  }

  lemma {:induction false} WeightsSame(a: set<Request>, b: set<Request>, q: seq<Request>)
    requires forall r :: r in q ==> Weight(a, r) == Weight(b, r)
    ensures Weights(a, q) == Weights(b, q)
  {
    if q != [] { WeightsSame(a, b, q[1..]); }
  }

  lemma {:induction false} WeightsTake(started: set<Request>, q: seq<Request>, k: nat)
    requires k < |q|
    ensures Weights(started, q) == Weights(started, DropAt(q, k)) + Weight(started, q[k])
  {
    hide Weight;
    var p, t := q[..k], q[k + 1..];
    assert q == p + ([q[k]] + t);
    WeightsAppend(started, p, [q[k]] + t);
    WeightsAppend(started, p, t);
    assert ([q[k]] + t)[1..] == t;
  }

  /** Being handed out makes a request lighter. */
  lemma {:induction false} WeightsHanded(started: set<Request>, q: seq<Request>, k: nat)
    requires k < |q| && Distinct(q) && q[k] !in started && !IsBarrier(q[k])
    ensures Weights(started + {q[k]}, q) == Weights(started, q) - 1
  {
    var b := started + {q[k]};
    WeightsTake(started, q, k);
    WeightsTake(b, q, k);
    DropFacts(q, k);
    WeightsSame(started, b, DropAt(q, k));
  }

  // ---- Every step ----

  lemma DispatchLeft(s: Queue, rq: Request, pos: nat)
    requires Inv(s) && Enabled(s, Dispatch(rq, pos))
    ensures Left(Step(s, Dispatch(rq, pos))) < Left(s)
  {
    var q' := PutAt(s.queue, pos, rq);
    PutIs(s.queue, pos, rq);
    assert DropAt(q', pos) == s.queue;
    WeightsTake(s.started, q', pos);
    assert !IsBarrier(rq);
    assert |s.elevator - {rq}| == |s.elevator| - 1;
  }

  lemma DequeueLeft(s: Queue, rq: Request)
    requires Inv(s) && Enabled(s, Dequeue(rq))
    ensures Left(Step(s, Dequeue(rq))) < Left(s)
  {
    var k := IndexOf(s.queue, rq);
    WeightsTake(s.started, s.queue, k);
    assert Shown(s, rq) && !IsBarrier(rq);
    assert rq !in s.driver;
    assert |s.driver + {rq}| == |s.driver| + 1;
  }

  lemma CompleteLeft(s: Queue, rq: Request)
    requires Inv(s) && Enabled(s, Complete(rq))
    ensures Left(Step(s, Complete(rq))) < Left(s)
  {
    hide CompleteStep, Weights, LogFacts, BarsOk, SeqOk, ServedOk, RankSorted, Carried, NotStuck, Known, Located;
    var s' := Step(s, Complete(rq));
    CompleteShape(s, rq);
    WeightsSame(s.started, s'.started, s.queue);
    assert |s.driver - {rq}| == |s.driver| - 1;
  }

  lemma CompleteShape(s: Queue, rq: Request)
    ensures var s' := CompleteStep(s, rq);
            && s'.queue == s.queue && s'.elevator == s.elevator
            && s'.started == s.started - {rq} && s'.driver == s.driver - {rq}
  {
    hide CompleteSeq, DrainCheck, ReqSeq;
    var s1 := s.(inFlight := s.inFlight - (if IsFs(rq) && rq in s.started then 1 else 0),
                 started := s.started - {rq}, driver := s.driver - {rq},
                 done := if rq.Ordinary? then s.done + {rq} else s.done);
    var s2 := DrainCheck(s1);
    DrainCheckShape(s1);
    SeqShape(s2, ReqSeq(s2, rq));
  }

  ghost predicate SameWork(s: Queue, s': Queue) {
    s'.queue == s.queue && s'.elevator == s.elevator && s'.started == s.started && s'.driver == s.driver
  }

  lemma DrainCheckShape(s: Queue)
    ensures SameWork(s, DrainCheck(s))
  {
    hide CompleteSeq, ReqSeq;
    SeqShape(s, DRAIN);
  }

  lemma SeqShape(s: Queue, stage: int)
    ensures SameWork(s, CompleteSeq(s, stage))
  {
  }

  lemma MergeLeft(s: Queue, rq: Request, next: Request)
    requires Inv(s) && Enabled(s, Merge(rq, next))
    ensures Left(Step(s, Merge(rq, next))) < Left(s)
  {
    hide Inv, DrainCheck, Weights;
    DrainCheckShape(s.(elevator := s.elevator - {next}, merged := Absorbed(s.merged, rq, next)));
    assert |s.elevator - {next}| == |s.elevator| - 1;
  }

  lemma PeekLeft(s: Queue)
    requires Inv(s)
    ensures PeekStep(s).0 == s || Left(PeekStep(s).0) < Left(s)
  {
    if s.queue != [] {
      var r := s.queue[0];
      if !Active(s) && IsBarrier(r) {
        StartLeft(s);
      } else {
        if Active(s) && !IsFree(r) { HeadStage(s); }
        HandLeft(s);
      }
    }
  }

  lemma HandLeft(s: Queue)
    requires Distinct(s.queue) && s.queue != [] && !s.bug
    requires Active(s) || !IsBarrier(s.queue[0])
    requires Active(s) && !IsFree(s.queue[0]) ==> ReqSeq(s, s.queue[0]) >= CurSeq(s.ordSeq)
    requires Active(s) && !IsFree(s.queue[0]) && ReqSeq(s, s.queue[0]) <= CurSeq(s.ordSeq) ==> !IsBarrier(s.queue[0])
    ensures PeekStep(s).0 == s || Left(PeekStep(s).0) < Left(s)
  {
    hide ReqSeq, CurSeq, Weights, StartOrdered;
    var r := s.queue[0];
    if r in s.started {
      assert s.started + {r} == s.started;
    } else if !IsBarrier(r) {
      WeightsHanded(s.started, s.queue, 0);
    }
  }

  /** A barrier outweighs the proxies of its sequence. */
  lemma StartLeft(s: Queue)
    requires Inv(s) && !Active(s) && s.queue != [] && IsBarrier(s.queue[0])
    ensures Left(StartOrdered(s).0) < Left(s)
  {
    var s' := StartOrdered(s).0;
    var ps, rest := Proxies(s), s.queue[1..];
    StartHead(s);
    assert s'.queue == ps + rest;
    WeightsAppend(s'.started, ps, rest);
    forall r | r in rest ensures Weight(s'.started, r) == Weight(s.started, r) {
      assert r in s.queue && Pending(s, r);
    }
    WeightsSame(s.started, s'.started, rest);
    ProxyWeights(s'.started, s);
  }

  lemma ProxyWeights(started: set<Request>, s: Queue)
    ensures Weights(started, Proxies(s)) <= 9
  {
    var ps := Proxies(s);
    assert |ps| <= 3 && forall r :: r in ps ==> Weight(started, r) <= 3;
    FewWeights(started, ps);
  }

  lemma {:induction false} FewWeights(started: set<Request>, q: seq<Request>)
    requires forall r :: r in q ==> Weight(started, r) <= 3
    ensures Weights(started, q) <= 3 * |q|
  {
    if q != [] { FewWeights(started, q[1..]); }
  }

  /** Every working step that does something leaves less to do. */
  lemma StepLeft(s: Queue, op: Op)
    requires Inv(s) && Enabled(s, op) && Working(op)
    ensures Step(s, op) == s || Left(Step(s, op)) < Left(s)
  {
    hide Inv, Left, PeekStep;
    match op
    case Dispatch(rq, pos) => DispatchLeft(s, rq, pos);
    case Merge(rq, next) => MergeLeft(s, rq, next);
    case Peek => PeekLeft(s);
    case Dequeue(rq) => DequeueLeft(s, rq);
    case Complete(rq) => CompleteLeft(s, rq);
  }

  // ---- The end ----

  /** Nobody can do anything more. */
  ghost predicate Finished(s: Queue) {
    forall op :: Enabled(s, op) && Working(op) ==> Step(s, op) == s
  }

  /** When nobody can do anything more, every barrier has ended and every file-system request has
      completed, or the one that carries its data has. */
  lemma FinishedIsDone(s: Queue)
    requires Inv(s) && Finished(s)
    ensures s.queue == [] && s.elevator == {} && s.driver == {} && !Active(s)
    ensures s.ended == s.bars
    ensures forall r :: r in s.log ==> Settled(s, r)
  {
    NothingHeld(s);
    HandsOut(s);
    NothingHanded(s);
    AllEnded(s);
    forall r | r in s.log ensures Settled(s, r) {
      var i :| 0 <= i < |s.log| && s.log[i] == r;
      assert Located(s, s.log[i]);
      if r in s.merged {
        var c := s.merged[r];
        assert IsCarrier(s.log, s.merged, c);
        assert s.log[c.id] == c && Located(s, s.log[c.id]);
      }
    }
  }

  lemma AllEnded(s: Queue)
    requires BarsOk(s) && !Active(s)
    ensures s.ended == s.bars || s.queue != []
  {
    if |s.ended| < |s.bars| { assert s.bars[|s.ended|] in s.queue; }
  }

  lemma NothingHeld(s: Queue)
    requires Inv(s) && Finished(s)
    ensures s.driver == {} && s.elevator == {} && s.started == {}
  {
    if rq :| rq in s.driver {
      CompleteLeft(s, rq);
      assert Enabled(s, Complete(rq)) && Working(Complete(rq));
    } else if rq :| rq in s.elevator {
      var op := Dispatch(rq, |s.queue|);
      DispatchLeft(s, rq, |s.queue|);
      assert Enabled(s, op) && Working(op);
    } else if rq :| rq in s.started {
      assert Pending(s, rq);
      DequeueLeft(s, rq);
      assert Enabled(s, Dequeue(rq)) && Working(Dequeue(rq));
    }
  }

  /** A peek that hands something out, when nothing has been handed out, changes the state. */
  lemma NothingHanded(s: Queue)
    requires Finished(s) && s.started == {}
    ensures PeekStep(s).1.None?
  {
    hide PeekStep;
    HandedIsStarted(s);
    assert Enabled(s, Peek) && Working(Peek);
    assert Step(s, Peek) == PeekStep(s).0;
  }

  lemma HandedIsStarted(s: Queue)
    ensures PeekStep(s).1.Some? ==> PeekStep(s).1.value in PeekStep(s).0.started
  {
  }

  // ---- Whole runs ----

  /** How many of the steps from `i` to `j` do something. */
  ghost function Done(ss: seq<Queue>, i: nat, j: nat): (n: nat)
    requires i <= j < |ss|
    decreases j - i
  {
    if i == j then 0 else Done(ss, i, j - 1) + if ss[j] == ss[j - 1] then 0 else 1
  }

  /** Without new submissions and requeues, the driver and the scheduler can do no more than a number of
      things fixed from the start: four for a request in the scheduler, three for one in the dispatch
      list, ten for a barrier and one for what the driver holds. */
  lemma {:induction false} WorkIsBounded(ss: seq<Queue>, ops: seq<Op>, i: nat, j: nat)
    requires IsRun(ss, ops) && AllDisciplined(ops) && i <= j < |ss|
    requires forall k :: i <= k < j ==> Working(ops[k])
    ensures Done(ss, i, j) + Left(ss[j]) <= Left(ss[i])
    decreases j - i
  {
    hide Left, Inv, Step, Enabled;
    if i < j {
      WorkIsBounded(ss, ops, i, j - 1);
      RunInv(ss, ops, j - 1);
      assert ss[j - 1 + 1] == Step(ss[j - 1], ops[j - 1]) && Enabled(ss[j - 1], ops[j - 1]);
      StepLeft(ss[j - 1], ops[j - 1]);
    }
  }

  /** So every barrier ends: a run that goes on working either has done fewer things than there were to
      do, or every barrier submitted has ended and everything is settled. */
  lemma EveryBarrierEnds(ss: seq<Queue>, ops: seq<Op>, i: nat, j: nat)
    requires IsRun(ss, ops) && AllDisciplined(ops) && i <= j < |ss|
    requires forall k :: i <= k < j ==> Working(ops[k])
    ensures Done(ss, i, j) <= Left(ss[i])
    ensures Finished(ss[j]) || Done(ss, i, j) == Left(ss[i]) ==>
              ss[j].ended == ss[j].bars && forall r :: r in ss[j].log ==> Settled(ss[j], r)
  {
    hide Left, Done;
    WorkIsBounded(ss, ops, i, j);
    RunInv(ss, ops, j);
    var s := ss[j];
    if Done(ss, i, j) == Left(ss[i]) {
      forall op | Enabled(s, op) && Working(op) ensures Step(s, op) == s { StepLeft(s, op); }
    }
    if Finished(s) { FinishedIsDone(s); }
  }
}
