/** Which proxies a barrier's sequence completes: those its mode owes, in order, whatever else happens
    meanwhile. */
module BarrierStages {
  import opened Collections
  import opened Barrier
  import opened BarrierSafety

  predicate IsProxy(r: Request) {
    !r.Ordinary?
  }

  /** The proxies completed by the steps from `i` to `j`. */
  function Completed(ops: seq<Op>, i: nat, j: nat): (ps: seq<Request>)
    requires i <= j <= |ops|
    decreases j - i
  {
    if i == j then []
    else
      var op := ops[j - 1];
      Completed(ops, i, j - 1) + if op.Complete? && IsProxy(op.rq) then [op.rq] else []
  }

  /** The flags of a sequence in `mode` with these stages completed. */
  ghost predicate Matches(mode: Ordered, o: OrdSeq, done: seq<Request>) {
    && done <= Owed(mode)
    && (o.preFlush <==> (PreFlush in Owed(mode) ==> PreFlush in done))
    && (o.bar <==> BarProxy in done)
    && (o.postFlush <==> (PostFlush in Owed(mode) ==> PostFlush in done))
  }

  /** A sequence begins by a peek, with every stage open that its mode owes and no other. */
  lemma Begins(s: Queue, op: Op)
    requires Inv(s) && Enabled(s, op) && !Active(s) && Active(Step(s, op))
    ensures op.Peek? && s.queue != [] && Step(s, op).origBar == Some(s.queue[0])
    ensures Step(s, op).ordered == s.nextOrdered
    ensures Matches(s.nextOrdered, Step(s, op).ordSeq, [])
  {
    if op.Complete? {
      assert Pending(s, op.rq);
    }
  }

  /** While it lasts, a stage is finished by the completion of its proxy and by nothing else. */
  lemma GoesOn(s: Queue, op: Op, mode: Ordered, done: seq<Request>)
    requires Inv(s) && Enabled(s, op) && Active(s) && Matches(mode, s.ordSeq, done)
    ensures var done' := done + if op.Complete? && IsProxy(op.rq) then [op.rq] else [];
            && (Active(Step(s, op)) ==> Matches(mode, Step(s, op).ordSeq, done'))
            && (!Active(Step(s, op)) ==> done' == Owed(mode) && Step(s, op).ended == s.ended + [s.bars[|s.ended|]])
  {
    hide Inv, Step, SeqOk, Matches, IDLE;
    if op.Complete? {
      CompleteIs(s, op.rq);
      if IsProxy(op.rq) { ProxyGoesOn(s, op.rq, mode, done); } else { OrdinaryGoesOn(s, op.rq, mode, done); }
    } else {
      assert done + [] == done;
      OthersKeep(s, op);
      DrainMatters(mode, s.ordSeq, done);
    }
  }

  lemma CompleteIs(s: Queue, rq: Request)
    requires Enabled(s, Complete(rq))
    ensures Step(s, Complete(rq)) == CompleteStep(s, rq)
  {
    hide CompleteStep;
  }

  /** The drain stage is not one of those a mode owes. */
  lemma DrainMatters(mode: Ordered, o: OrdSeq, done: seq<Request>)
    requires Matches(mode, o, done)
    ensures Matches(mode, o.(drain := true), done)
  {
  }

  lemma MergedSeq(s: Queue, rq: Request, next: Request)
    requires SeqOk(s)
    ensures SeqOk(s.(elevator := s.elevator - {next}, merged := Absorbed(s.merged, rq, next)))
  {
    var s1 := s.(elevator := s.elevator - {next}, merged := Absorbed(s.merged, rq, next));
    assert forall x :: Pending(s1, x) == Pending(s, x) && Shown(s1, x) == Shown(s, x);
  }

  lemma OthersKeep(s: Queue, op: Op)
    requires Inv(s) && Enabled(s, op) && Active(s) && !op.Complete?
    ensures Active(Step(s, op)) && Step(s, op).origBar == s.origBar
    ensures Step(s, op).ordSeq == s.ordSeq || Step(s, op).ordSeq == s.ordSeq.(drain := true)
  {
    hide ReqSeq, CurSeq, RequeuePos, CompleteSeq, DrainCheck, LogFacts, PlacesOk, BarsOk, RankSorted, ServedOk, Carried;
    if op.Merge? {
      MergedSeq(s, op.rq, op.next);
      DrainOnly(s.(elevator := s.elevator - {op.next}, merged := Absorbed(s.merged, op.rq, op.next)));
    }
  }

  /** The drain check finishes the drain stage at most. */
  lemma DrainOnly(s: Queue)
    requires SeqOk(s) && Active(s)
    ensures var o, o' := s.ordSeq, DrainCheck(s).ordSeq;
            o' == o || o' == o.(drain := true)
    ensures Active(DrainCheck(s)) && DrainCheck(s).ended == s.ended && DrainCheck(s).origBar == s.origBar
  {
  }

  lemma OrdinaryGoesOn(s: Queue, rq: Request, mode: Ordered, done: seq<Request>)
    requires Inv(s) && Active(s) && rq in s.driver && rq.Ordinary? && Matches(mode, s.ordSeq, done)
    ensures Active(CompleteStep(s, rq)) && Matches(mode, CompleteStep(s, rq).ordSeq, done + [])
    ensures CompleteStep(s, rq).origBar == s.origBar
  {
    hide Matches;
    assert done + [] == done;
    DrainMatters(mode, s.ordSeq, done);
    var s1 := GivenUp(s, rq).(done := s.done + {rq});
    DoneServed(s, rq);
    DrainOnly(s1);
  }

  lemma ProxyGoesOn(s: Queue, rq: Request, mode: Ordered, done: seq<Request>)
    requires Inv(s) && Active(s) && rq in s.driver && IsProxy(rq) && Matches(mode, s.ordSeq, done)
    ensures var s' := CompleteStep(s, rq);
            && (Active(s') ==> Matches(mode, s'.ordSeq, done + [rq]))
            && (!Active(s') ==> done + [rq] == Owed(mode) && s'.ended == s.ended + [s.bars[|s.ended|]])
  {
    hide LogFacts, PlacesOk, RankSorted, Carried, NotStuck, ServedOk, Matches, Owed;
    var s1 := GivenUp(s, rq);
    assert Shown(s, rq) && Pending(s, rq) && s.ordSeq.drain;
    assert DrainCheck(s1) == s1;
    assert CompleteStep(s, rq) == CompleteSeq(s1, ReqSeq(s1, rq));
    NextStage(mode, s.ordSeq, done, rq);
  }

  /** The flags with the stage of one more proxy finished. */
  function Finish(o: OrdSeq, rq: Request): (o': OrdSeq) {
    match rq
    case PreFlush => o.(preFlush := true)
    case BarProxy => o.(bar := true)
    case PostFlush => o.(postFlush := true)
    case _ => o
  }

  lemma NextStage(mode: Ordered, o: OrdSeq, done: seq<Request>, rq: Request)
    requires Matches(mode, o, done) && IsProxy(rq) && Finish(o, rq) != o
    requires rq == BarProxy ==> o.preFlush
    requires rq == PostFlush ==> o.preFlush && o.bar
    requires o.bar ==> o.preFlush
    ensures var o' := Finish(o, rq);
            Matches(mode, o', done + [rq]) && (o'.preFlush && o'.bar && o'.postFlush ==> done + [rq] == Owed(mode))
  {
    var all, n := Owed(mode), |done|;
    assert done == if n == 0 then [] else if n == 1 then [all[0]] else if n == 2 then [all[0], all[1]] else all;
    match mode
    case Drain => assert n == 0;
    case DrainFlush => assert n < 3;
    case DrainFua => assert n < 2;
  }

  // ---- Whole runs ----

  /** A sequence is under way from the step at `i` to the state `j`. */
  ghost predicate UnderWay(ss: seq<Queue>, ops: seq<Op>, i: nat, j: nat) {
    && IsRun(ss, ops) && AllDisciplined(ops) && i < j < |ss|
    && !Active(ss[i]) && forall k :: i < k <= j ==> Active(ss[k])
  }

  /** At any time the proxies completed are the first of those owed in the mode the sequence began in. */
  lemma {:induction false} CompletesInOrder(ss: seq<Queue>, ops: seq<Op>, i: nat, j: nat)
    requires UnderWay(ss, ops, i, j)
    ensures Matches(ss[i].nextOrdered, ss[j].ordSeq, Completed(ops, i, j))
    decreases j - i
  {
    hide Inv, Step, Enabled, Matches;
    RunInv(ss, ops, j - 1);
    assert ss[j - 1 + 1] == Step(ss[j - 1], ops[j - 1]) && Enabled(ss[j - 1], ops[j - 1]);
    if j == i + 1 {
      Begins(ss[i], ops[i]);
      assert Completed(ops, i, j) == Completed(ops, i, i) + [];
    } else {
      CompletesInOrder(ss, ops, i, j - 1);
      GoesOn(ss[j - 1], ops[j - 1], ss[i].nextOrdered, Completed(ops, i, j - 1));
    }
  }

  /** And when it ends, with the step at `j`, exactly those owed have been completed, and one barrier has
      ended: the one that was at the head of the dispatch list at the start. */
  lemma SequenceCompletesOwed(ss: seq<Queue>, ops: seq<Op>, i: nat, j: nat)
    requires UnderWay(ss, ops, i, j) && j < |ops| && !Active(ss[j + 1])
    ensures Completed(ops, i, j + 1) == Owed(ss[i].nextOrdered)
    ensures ss[i].queue != [] && ss[j + 1].ended == ss[j].ended + [ss[i].queue[0]]
  {
    hide Inv, Step, Enabled, Matches;
    CompletesInOrder(ss, ops, i, j);
    RunInv(ss, ops, j);
    assert ss[j + 1] == Step(ss[j], ops[j]) && Enabled(ss[j], ops[j]);
    GoesOn(ss[j], ops[j], ss[i].nextOrdered, Completed(ops, i, j));
    SameBarrier(ss, ops, i, j);
  }

  /** The barrier in progress does not change on the way. */
  lemma {:induction false} SameBarrier(ss: seq<Queue>, ops: seq<Op>, i: nat, j: nat)
    requires UnderWay(ss, ops, i, j)
    ensures ss[i].queue != [] && |ss[j].ended| < |ss[j].bars| && ss[j].bars[|ss[j].ended|] == ss[i].queue[0]
    decreases j - i
  {
    hide Step, Enabled, LogFacts, PlacesOk, RankSorted, SeqOk, ServedOk, Carried, NotStuck;
    RunInv(ss, ops, j - 1);
    RunInv(ss, ops, j);
    assert ss[j - 1 + 1] == Step(ss[j - 1], ops[j - 1]) && Enabled(ss[j - 1], ops[j - 1]);
    if j == i + 1 {
      Begins(ss[i], ops[i]);
    } else {
      SameBarrier(ss, ops, i, j - 1);
      KeepsBarrier(ss[j - 1], ops[j - 1]);
    }
  }

  lemma KeepsBarrier(s: Queue, op: Op)
    requires Inv(s) && Enabled(s, op) && Active(s) && Active(Step(s, op))
    ensures Step(s, op).origBar == s.origBar
  {
    hide Inv, Step, SeqOk;
    if op.Complete? {
      CompleteIs(s, op.rq);
      CompleteKeeps(s, op.rq);
    } else {
      OthersKeep(s, op);
    }
  }

  lemma CompleteKeeps(s: Queue, rq: Request)
    ensures CompleteStep(s, rq).origBar == s.origBar
  {
    hide ReqSeq, CurSeq, SetStage, StageDone;
  }
}
