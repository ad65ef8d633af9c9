/** What the marks and counters of the request queue mean, by the steps of the run that led to them. */
module BarrierHistory {
  import opened Collections
  import opened Barrier
  import opened BarrierSafety

  // ---- The mode ----

  /** The mode last asked for. */
  function Asked(ops: seq<Op>, n: nat): (o: Ordered)
    requires n <= |ops|
  {
    if n == 0 then Drain else if ops[n - 1].SetOrdered? then ops[n - 1].ordered else Asked(ops, n - 1)
  }

  /** It is the one the next sequence will use. Setting it takes effect at once, even within a sequence. */
  lemma {:induction false} ModeIsAsked(ss: seq<Queue>, ops: seq<Op>, n: nat)
    requires IsRun(ss, ops) && n < |ss|
    ensures ss[n].nextOrdered == Asked(ops, n)
    ensures n > 0 && ops[n - 1].SetOrdered? ==> ss[n].ordered == ops[n - 1].ordered
  {
    hide Enabled, Step;
    if n > 0 {
      ModeIsAsked(ss, ops, n - 1);
      assert ss[n - 1 + 1] == Step(ss[n - 1], ops[n - 1]);
      KeepsMode(ss[n - 1], ops[n - 1]);
    }
  }

  lemma KeepsMode(s: Queue, op: Op)
    requires Enabled(s, op)
    ensures op.SetOrdered? ==> Step(s, op).nextOrdered == op.ordered && Step(s, op).ordered == op.ordered
    ensures !op.SetOrdered? ==> Step(s, op).nextOrdered == s.nextOrdered
  {
    hide ReqSeq, CurSeq, RequeuePos, CompleteSeq, DrainCheck;
    match op
    case Merge(rq, next) => SameMarks(s.(elevator := s.elevator - {next}, merged := Absorbed(s.merged, rq, next)), 0);
    case Complete(rq) => CompleteMarks(s, rq);
    case _ =>
  }

  // ---- Requests in flight ----

  /** `in_flight` counts the file-system requests the driver holds, and the barrier's own write. */
  lemma InFlightIs(ss: seq<Queue>, ops: seq<Op>, n: nat)
    requires IsRun(ss, ops) && AllDisciplined(ops) && n < |ss|
    ensures ss[n].inFlight == |set r | r in ss[n].driver && (r == BarProxy || (r.Ordinary? && r.fs))|
  {
    RunInv(ss, ops, n);
    assert FsIn(ss[n].driver) == set r | r in ss[n].driver && (r == BarProxy || (r.Ordinary? && r.fs));
  }

  // ---- The drain check ----

  /** After a completion or a merge the drain stage is not left waiting for nothing. */
  lemma DrainNotMissed(s: Queue, op: Op)
    requires Inv(s) && Enabled(s, op) && Disciplined(op) && (op.Complete? || op.Merge?)
    ensures var s' := Step(s, op);
            CurSeq(s'.ordSeq) == DRAIN && s'.inFlight == 0 ==> s'.queue != [] && ReqSeq(s', s'.queue[0]) <= DRAIN
  {
    hide LogFacts, PlacesOk, BarsOk, ServedOk, RankSorted, Carried;
    StepInv(s, op);
    match op
    case Merge(rq, next) => Checked(s.(elevator := s.elevator - {next}, merged := Absorbed(s.merged, rq, next)));
    case Complete(rq) =>
      if rq.Ordinary? {
        Checked(GivenUp(s, rq).(done := s.done + {rq}));
      } else {
        assert Shown(s, rq);
      }
  }

  lemma Checked(s: Queue)
    requires !DrainCheck(s).bug
    ensures var s' := DrainCheck(s);
            CurSeq(s'.ordSeq) == DRAIN && s'.inFlight == 0 ==> s'.queue != [] && ReqSeq(s', s'.queue[0]) <= DRAIN
  {
  }

  // ---- Places in the dispatch list ----

  /** A request inserted at the front is the next one handed out, sequence or not. */
  lemma FrontGoesFirst(s: Queue, op: Op)
    requires op.Add? && Enabled(s, op) && Disciplined(op) && op.where == Front
    ensures var s' := Step(s, op);
            && s'.log == s.log + [Submitted(s, op)] && PeekStep(s').1 == Some(Submitted(s, op)) &&
               s'.queue[1..] == s.queue
  {
  }

  /** One inserted at the back stands behind all that is queued. */
  lemma BackGoesLast(s: Queue, op: Op)
    requires op.Add? && Enabled(s, op) && op.where == Back
    ensures var q, q' := s.queue, Step(s, op).queue;
            |q'| == |q| + 1 && q'[..|q|] == q && q'[|q|] == Submitted(s, op)
  {
  }

  /** The step at `i` puts `r` into the dispatch list directly: inserted at its front or back, or given
      back by the driver. */
  ghost predicate Pinned(s: Queue, op: Op, r: Request) {
    || (op.Add? && op.where != Sort && r == Submitted(s, op))
    || (op.Requeue? && op.rq == r)
  }

  lemma {:induction false} StaysSoft(ss: seq<Queue>, ops: seq<Op>, i: nat, j: nat, r: Request)
    requires IsRun(ss, ops) && i < j < |ss| && Pinned(ss[i], ops[i], r)
    ensures r in ss[j].soft
    decreases j
  {
    hide Enabled, Step, Pinned;
    var s, op := ss[j - 1], ops[j - 1];
    assert ss[j - 1 + 1] == Step(s, op) && Enabled(s, op);
    if j > i + 1 {
      StaysSoft(ss, ops, i, j - 1, r);
    }
    SoftGrows(s, op, r);
  }

  lemma SoftGrows(s: Queue, op: Op, r: Request)
    requires Enabled(s, op)
    ensures r in s.soft || Pinned(s, op, r) ==> r in Step(s, op).soft
  {
    hide ReqSeq, CurSeq, RequeuePos, CompleteSeq, DrainCheck;
    match op
    case Merge(rq, next) => SameMarks(s.(elevator := s.elevator - {next}, merged := Absorbed(s.merged, rq, next)), 0);
    case Complete(rq) => CompleteMarks(s, rq);
    case _ =>
  }

  /** The end of a stage changes neither marks nor modes. */
  lemma SameMarks(s: Queue, stage: int)
    ensures var t := CompleteSeq(s, stage); t.soft == s.soft && t.ordered == s.ordered && t.nextOrdered == s.nextOrdered
    ensures var t := DrainCheck(s); t.soft == s.soft && t.ordered == s.ordered && t.nextOrdered == s.nextOrdered
  {
    hide ReqSeq, CurSeq, SetStage, StageDone;
  }

  lemma CompleteMarks(s: Queue, rq: Request)
    ensures var t := CompleteStep(s, rq); t.soft == s.soft && t.ordered == s.ordered && t.nextOrdered == s.nextOrdered
  {
    hide ReqSeq, CompleteSeq, DrainCheck;
    var s1 := GivenUp(s, rq).(done := if rq.Ordinary? then s.done + {rq} else s.done);
    SameMarks(s1, 0);
    SameMarks(DrainCheck(s1), ReqSeq(DrainCheck(s1), rq));
  }

  /** Such a request is never passed: whatever the scheduler dispatches later goes behind it. */
  lemma NeverPassed(ss: seq<Queue>, ops: seq<Op>, i: nat, j: nat, r: Request, k: nat)
    requires IsRun(ss, ops) && i < j < |ops| && Pinned(ss[i], ops[i], r)
    requires ops[j].Dispatch? && k < |ss[j].queue| && ss[j].queue[k] == r
    ensures k < ops[j].pos
  {
    StaysSoft(ss, ops, i, j, r);
    assert Enabled(ss[j], ops[j]);
    assert Blocks(ss[j], ss[j].queue[k]);
  }
}
