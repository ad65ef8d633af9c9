/** The request queue as the block layer updates it: a record changed in place, field by field,
    and loops that scan the dispatch list.  Every method is tied to the step of `Barrier` that
    it performs, so that the results of `BarrierSafety` are about these methods. */
module RequestQueue {
  import opened Collections
  import opened Barrier
  import BarrierSafety

  /** One-way elevator order relative to a boundary sector: what lies at or above it first. */
  predicate KeyBelow(boundary: nat, a: nat, b: nat) {
    if (a >= boundary) != (b >= boundary) then a >= boundary else a < b
  }

  /** Is `rq` to be placed before `pos` when it is sorted in? */
  predicate Passes(s: Queue, boundary: nat, rq: Request, pos: Request) {
    && pos.Ordinary? && rq.Ordinary? && !Blocks(s, pos) && pos.write == rq.write
    && KeyBelow(boundary, rq.sector, pos.sector)
  }

  /** The place `elv_dispatch_sort` finds walking back from position `k`. */
  function SortPos(s: Queue, boundary: nat, rq: Request, k: nat): (p: nat)
    requires k <= |s.queue|
    ensures p <= k
    ensures forall i :: p <= i < k ==> Passes(s, boundary, rq, s.queue[i])
    ensures p > 0 ==> !Passes(s, boundary, rq, s.queue[p - 1])
  {
    if k > 0 && Passes(s, boundary, rq, s.queue[k - 1]) then SortPos(s, boundary, rq, k - 1) else k
  }

  /** Sort the requests of `plan`, in that order, from the scheduler into the dispatch list. */
  function DispatchAll(s: Queue, boundary: nat, plan: seq<Request>): (s': Queue)
    requires forall i :: 0 <= i < |plan| ==> plan[i] in s.elevator
    requires forall i, j :: 0 <= i < j < |plan| ==> plan[i] != plan[j]
    decreases |plan|
  {
    if plan == [] then s
    else DispatchAll(Step(s, SortOp(s, boundary, plan[0])), boundary, plan[1..])
  }

  /** A sorted dispatch never passes a barrier or a started request. */
  function SortOp(s: Queue, boundary: nat, rq: Request): (op: Op)
    requires rq in s.elevator
    ensures Enabled(s, op) && Disciplined(op) && op.Dispatch? && op.rq == rq
    ensures s.queue[op.pos..] == [] || Passes(s, boundary, rq, s.queue[op.pos])
  {
    Dispatch(rq, SortPos(s, boundary, rq, |s.queue|))
  }

  lemma {:induction false} DispatchAllInv(s: Queue, boundary: nat, plan: seq<Request>)
    requires BarrierSafety.Inv(s)
    requires forall i :: 0 <= i < |plan| ==> plan[i] in s.elevator
    requires forall i, j :: 0 <= i < j < |plan| ==> plan[i] != plan[j]
    ensures BarrierSafety.Inv(DispatchAll(s, boundary, plan))
    decreases |plan|
  {
    if plan != [] {
      var op := SortOp(s, boundary, plan[0]);
      BarrierSafety.StepInv(s, op);
      DispatchAllInv(Step(s, op), boundary, plan[1..]);
    }
  }

  /** Where a sorted dispatch goes: right in front of those it may pass, which are the unheld requests of
      its own direction that it comes before in one sweep from the boundary. */
  lemma SortPlace(s: Queue, boundary: nat, rq: Request, k: nat)
    requires rq in s.elevator && rq.Ordinary? && k < |s.queue|
    ensures var p, x := SortOp(s, boundary, rq).pos, s.queue[k];
            var passed := && x.Ordinary? && x.write == rq.write && !x.hard && x !in s.soft && x !in s.started
                          && ((boundary <= rq.sector < x.sector) || (x.sector < boundary <= rq.sector)
                              || (rq.sector < x.sector < boundary));
            && (p <= k ==> passed)
            && (k + 1 == p ==> !passed)
  {
    hide SortPos;
  }

  /** In sweep order from the boundary: what lies at or above it, upwards, then what lies below it,
      upwards. */
  predicate SweepOrder(boundary: nat, a: nat, b: nat) {
    (boundary <= a <= b) || (b < boundary <= a) || (a <= b < boundary)
  }

  /** Two requests of one direction that nothing holds in place. */
  predicate Loose(s: Queue, a: Request, b: Request) {
    a.Ordinary? && b.Ordinary? && a.write == b.write && !Blocks(s, a) && !Blocks(s, b)
  }

  /** Wherever two loose requests stand next to each other, they stand in sweep order. */
  ghost predicate Sweeps(s: Queue, boundary: nat) {
    forall i {:trigger s.queue[i]} :: 0 < i < |s.queue| && Loose(s, s.queue[i - 1], s.queue[i]) ==>
      SweepOrder(boundary, s.queue[i - 1].sector, s.queue[i].sector)
  }

  /** A sorted dispatch keeps them so. */
  lemma SortKeepsSweeps(s: Queue, boundary: nat, rq: Request)
    requires rq in s.elevator && Sweeps(s, boundary)
    ensures Sweeps(Step(s, SortOp(s, boundary, rq)), boundary)
  {
    hide SortPos;
    var p := SortPos(s, boundary, rq, |s.queue|);
    var q, q' := s.queue, PutAt(s.queue, p, rq);
    var s' := Step(s, SortOp(s, boundary, rq));
    assert s'.queue == q';
    PutIs(q, p, rq);
    forall i | 0 < i < |q'| && Loose(s', q'[i - 1], q'[i])
      ensures SweepOrder(boundary, q'[i - 1].sector, q'[i].sector)
    {
      if i < p {
        assert q'[i] == q[i];
      } else if i == p {
        assert !Passes(s, boundary, rq, q[p - 1]);
      } else if i == p + 1 {
        assert Passes(s, boundary, rq, q[p]);
      } else {
        assert q'[i] == q[i - 1] && q'[i - 1] == q[i - 2];
      }
    }
  }

  /** So does draining the scheduler. */
  lemma {:induction false} DispatchAllSweeps(s: Queue, boundary: nat, plan: seq<Request>)
    requires forall i :: 0 <= i < |plan| ==> plan[i] in s.elevator
    requires forall i, j :: 0 <= i < j < |plan| ==> plan[i] != plan[j]
    requires Sweeps(s, boundary)
    ensures Sweeps(DispatchAll(s, boundary, plan), boundary)
    decreases |plan|
  {
    hide Sweeps, Step;
    if plan != [] {
      SortKeepsSweeps(s, boundary, plan[0]);
      StillThere(s, SortOp(s, boundary, plan[0]));
      DispatchAllSweeps(Step(s, SortOp(s, boundary, plan[0])), boundary, plan[1..]);
    }
  }

  lemma StillThere(s: Queue, op: Op)
    requires Enabled(s, op) && op.Dispatch?
    ensures Step(s, op).elevator == s.elevator - {op.rq}
  {
  }

  /** Dispatch takes from the scheduler exactly the planned requests. */
  lemma {:induction false} DispatchAllLeaves(s: Queue, boundary: nat, plan: seq<Request>)
    requires forall i :: 0 <= i < |plan| ==> plan[i] in s.elevator
    requires forall i, j :: 0 <= i < j < |plan| ==> plan[i] != plan[j]
    ensures DispatchAll(s, boundary, plan).elevator == set r | r in s.elevator && r !in plan
    decreases |plan|
  {
    if plan != [] {
      DispatchAllLeaves(Step(s, SortOp(s, boundary, plan[0])), boundary, plan[1..]);
      assert forall r :: r in plan <==> r == plan[0] || r in plan[1..];
    }
  }

  /** Adding a request, with the draining it implies, keeps the invariant of the protocol. */
  lemma AddKeepsInv(s: Queue, boundary: nat, plan: seq<Request>, op: Op)
    requires BarrierSafety.Inv(s) && op.Add? && Disciplined(op)
    requires forall i :: 0 <= i < |plan| ==> plan[i] in s.elevator
    requires forall i, j :: 0 <= i < j < |plan| ==> plan[i] != plan[j]
    requires Enabled(DispatchAll(s, boundary, plan), op)
    ensures BarrierSafety.Inv(Step(DispatchAll(s, boundary, plan), op))
  {
    DispatchAllInv(s, boundary, plan);
    BarrierSafety.StepInv(DispatchAll(s, boundary, plan), op);
  }

  class RequestQueue {
    var q: Queue
    var endSector: nat

    constructor ()
      ensures q == INIT
    {
      q, endSector := INIT, 0;
    }

    /** `blk_ordered_complete_seq` */
    method CompleteStage(stage: int)
      modifies this`q
      ensures q == CompleteSeq(old(q), stage)
    {
      if StageDone(q.ordSeq, stage) { q := q.(bug := true); }
      q := q.(ordSeq := SetStage(q.ordSeq, stage));
      if CurSeq(q.ordSeq) != DONE { return; }
      if q.origBar.None? { q := q.(bug := true); return; }
      q := q.(ordSeq := IDLE);
      q := q.(ended := q.ended + [q.origBar.value], done := q.done + {q.origBar.value});
    }

    /** `elv_completed_request` and, for a proxy, its `end_io` */
    method Complete(rq: Request)
      modifies this`q
      ensures q == CompleteStep(old(q), rq)
    {
      if rq in q.started && IsFs(rq) { q := q.(inFlight := q.inFlight - 1); }
      q := q.(started := q.started - {rq}, driver := q.driver - {rq});
      if rq.Ordinary? { q := q.(done := q.done + {rq}); }
      if q.ordSeq != IDLE && q.inFlight == 0 && CurSeq(q.ordSeq) == DRAIN {
        if q.queue == [] {
          q := q.(bug := true);
        } else if ReqSeq(q, q.queue[0]) > DRAIN {
          CompleteStage(DRAIN);
        }
      }
      if !rq.Ordinary? { CompleteStage(ReqSeq(q, rq)); }
    }

    /** `elv_requeue_request`: scan for the first request of the same or a later stage. */
    method Requeue(rq: Request)
      modifies this`q
      ensures q == RequeueStep(old(q), rq)
    {
      hide RequeuePos, ReqSeq;
      if rq in q.started && IsFs(rq) { q := q.(inFlight := q.inFlight - 1); }
      q := q.(started := q.started - {rq}, soft := q.soft + {rq}, driver := q.driver - {rq});
      if q.ordSeq == IDLE {
        q := q.(queue := [rq] + q.queue);
        assert [rq] + q.queue[1..] == PutAt(q.queue[1..], 0, rq);
        return;
      }
      var k := FirstNotBefore(ReqSeq(q, rq));
      q := q.(queue := q.queue[..k] + [rq] + q.queue[k..]);
    }

    /** The scan of `elv_insert`: the first request whose stage is not before `stage`. */
    method FirstNotBefore(stage: int) returns (k: nat)
      ensures k == RequeuePos(q, stage, 0)
    {
      k := 0;
      while k < |q.queue| && ReqSeq(q, q.queue[k]) < stage
        invariant 0 <= k <= |q.queue|
        invariant RequeuePos(q, stage, k) == RequeuePos(q, stage, 0)
      {
        k := k + 1;
      }
    }

    /** `start_ordered`: replace the barrier at the head by the proxies of its sequence. */
    method Start() returns (rq: Option<Request>)
      requires q.queue != []
      modifies this`q
      ensures (q, rq) == StartOrdered(old(q))
      ensures q.queue == Owed(old(q).nextOrdered) + old(q).queue[1..]
      ensures rq == if q.inFlight == 0 then Some(Owed(old(q).nextOrdered)[0]) else None
    {
      var mode, seqn := q.nextOrdered, OrdSeq(true, false, false, false, false);
      var b, rest := q.queue[0], q.queue[1..];
      var inFlight := q.inFlight + if b in q.started && IsFs(b) then 1 else 0;
      if HasPostFlush(mode) { rest := [PostFlush] + rest; } else { seqn := seqn.(postFlush := true); }
      rest := [BarProxy] + rest;
      var first := BarProxy;
      if HasPreFlush(mode) {
        rest := [PreFlush] + rest;
        first := PreFlush;
      } else {
        seqn := seqn.(preFlush := true);
      }
      rq := None;
      if inFlight == 0 {
        seqn := seqn.(drain := true);
        rq := Some(first);
      }
      assert StartOrdered(q).0.queue == rest;
      q := q.(queue := rest, ordered := mode, ordSeq := seqn, inFlight := inFlight, origBar := Some(b),
              soft := q.soft + {PreFlush, BarProxy, PostFlush},
              started := if rq.Some? then q.started + {first} else q.started);
    }

    /** `blk_do_ordered` on the head, and the marking by `elv_next_request`. */
    method Peek() returns (rq: Option<Request>)
      modifies this`q
      ensures (q, rq) == PeekStep(old(q))
    {
      if q.queue == [] { return None; }
      var r := q.queue[0];
      if q.ordSeq == IDLE && IsBarrier(r) {
        rq := Start();
        return;
      }
      if q.ordSeq != IDLE && !IsFree(r) {
        var stage := ReqSeq(q, r);
        if stage < CurSeq(q.ordSeq) { q := q.(bug := true); }
        if stage > CurSeq(q.ordSeq) { return None; }
      }
      q := q.(started := q.started + {r});
      rq := Some(r);
    }

    /** `elv_dispatch_sort`: walk back from the tail while `rq` belongs before the entry. */
    method DispatchSort(rq: Request)
      requires rq in q.elevator && rq.Ordinary?
      modifies this`q
      ensures q == Step(old(q), SortOp(old(q), endSector, rq))
    {
      var pos: nat := |q.queue|;
      while pos > 0
        invariant 0 <= pos <= |q.queue| && q == old(q)
        invariant SortPos(q, endSector, rq, pos) == SortPos(q, endSector, rq, |q.queue|)
      {
        var p := q.queue[pos - 1];
        if !p.Ordinary? || p.write != rq.write { break; }
        if p.hard || p in q.soft || p in q.started { break; }
        if rq.sector >= endSector {
          if p.sector < endSector { pos := pos - 1; continue; }
        } else if p.sector >= endSector {
          break;
        }
        if rq.sector >= p.sector { break; }
        pos := pos - 1;
      }
      q := q.(elevator := q.elevator - {rq}, queue := q.queue[..pos] + [rq] + q.queue[pos..]);
    }

    method DispatchPlan(plan: seq<Request>)
      requires forall i :: 0 <= i < |plan| ==> plan[i] in q.elevator && plan[i].Ordinary?
      requires forall i, j :: 0 <= i < j < |plan| ==> plan[i] != plan[j]
      modifies this`q
      ensures q == DispatchAll(old(q), endSector, plan)
    {
      var i := 0;
      while i < |plan|
        invariant 0 <= i <= |plan|
        invariant forall k :: i <= k < |plan| ==> plan[k] in q.elevator
        invariant DispatchAll(q, endSector, plan[i..]) == DispatchAll(old(q), endSector, plan)
      {
        assert plan[i..][1..] == plan[i + 1..];
        DispatchSort(plan[i]);
        i := i + 1;
      }
    }

    /** `__elv_next_request`: an empty dispatch list makes the scheduler dispatch; `plan` is what
        its dispatch function then moves. */
    method NextRequest(plan: seq<Request>) returns (rq: Option<Request>)
      requires forall i :: 0 <= i < |plan| ==> plan[i] in q.elevator && plan[i].Ordinary?
      requires forall i, j :: 0 <= i < j < |plan| ==> plan[i] != plan[j]
      modifies this`q
      ensures (q, rq) == PeekStep(if old(q).queue == [] then DispatchAll(old(q), endSector, plan) else old(q))
    {
      if q.queue == [] { DispatchPlan(plan); }
      rq := Peek();
    }

    /** `__elv_add_request`: colour the request, toggle the colour at a barrier, and insert.
        Barriers, soft barriers and requests without scheduler data go to the back, which first
        drains the scheduler; `plan` is the order in which it gives its requests up. */
    method AddRequest(fs: bool, hard: bool, soft: bool, elvPriv: bool, write: bool, sector: nat, sectors: nat,
                      where: Where,
                      plan: seq<Request>) returns (op: Op)
      requires where == Front ==> !fs
      requires where == Sort ==> fs || hard || soft || !elvPriv
      requires forall r :: r in plan <==> r in q.elevator
      requires forall i :: 0 <= i < |plan| ==> plan[i].Ordinary?
      requires forall i, j :: 0 <= i < j < |plan| ==> plan[i] != plan[j]
      modifies this
      ensures op == Add(fs, hard, write, sector, if where == Sort && (hard || soft || !elvPriv) then Back else where)
      ensures var s := if op.where == Back then DispatchAll(old(q), endSector, plan) else old(q);
        Enabled(s, op) && q == Step(s, op)
    {
      var target := where;
      if hard || soft {
        if target == Sort { target := Back; }
        if fs { endSector := sector + sectors; }
      } else if !elvPriv && target == Sort {
        target := Back;
      }
      op := Add(fs, hard, write, sector, target);
      if target == Back {
        DispatchAllLeaves(q, endSector, plan);
        DispatchPlan(plan);
        assert q.elevator == {};
      }
      var r := Ordinary(|q.log|, fs, hard, q.ordColour, write, sector, |q.bars|);
      q := q.(log := q.log + [r], bars := if IsBarrier(r) then q.bars + [r] else q.bars);
      if hard { q := q.(ordColour := !q.ordColour); }
      match target {
        case Front => q := q.(queue := [r] + q.queue, soft := q.soft + {r});
        case Back => q := q.(queue := q.queue + [r], soft := q.soft + {r});
        case Sort => q := q.(elevator := q.elevator + {r});
      }
    }
  }
}
