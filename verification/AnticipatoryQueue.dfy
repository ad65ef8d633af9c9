/** The anticipatory scheduler's entry points, updating the scheduler's data in place. */
module AnticipatoryQueue {

  import opened Collections
  import opened Anticipatory
  import opened AnticipatorySafety
  import AnticipatoryTurns

  lemma DispatchLaws(d: AsData, o: Oracle)
    requires Inv(d) && Unmixed(d)
    ensures Served(d, DispatchOne(d, o))
    ensures AnticipatoryTurns.Law(d, o, DispatchOne(d, o).0, DispatchOne(d, o).1)
  {
    hide Inv, Unmixed, Served, DispatchOne, AnticipatoryTurns.Law;
    DispatchServes(d, o);
    AnticipatoryTurns.DispatchIs(d, o);
  }

  class AnticipatoryQueue {

    var ad: AsData

    constructor ()
      ensures ad == InitAs() && Inv(ad) && Unmixed(ad)
    {
      ad := InitAs();
      InitInv();
    }

    /** `as_move_to_dispatch`. */
    method MoveToDispatch(rq: Rq)
      requires Inv(ad) && InQueue(ad, rq)
      modifies this
      ensures Inv(ad) && ad == Move(old(ad), rq)
      ensures ad.out == old(ad).out + {rq} && rq !in old(ad).out && !InQueue(ad, rq)
    {
      hide Inv, FindNext, Without;
      MoveInv(ad, rq);
      var h := HalfOf(ad, rq.sync);
      h := h.(last := rq.sector + rq.sectors);
      h := h.(next := FindNext(h.tree, h.last, rq));
      h := h.(fifo := Without(h.fifo, rq), tree := h.tree - {rq.sector});
      ad := SetHalf(ad, rq.sync, h);
      ad := ad.(nrDispatched := ad.nrDispatched + 1, out := ad.out + {rq});
    }

    /** `as_add_request`, retrying the insertion until no request is in the way. */
    method AddRequest(rq: Rq)
      requires Inv(ad) && MayAdd(ad, rq)
      modifies this
      ensures Inv(ad) && ad == AddRq(old(ad), rq)
      ensures NextOk(HalfOf(ad, rq.sync))
    {
      AddInv(ad, rq);
      EvictInv(ad, rq);
      hide HalfOk, FindNext;
      while rq.sector in HalfOf(ad, rq.sync).tree
        invariant Inv(ad)
        invariant ad == old(ad) || (ad == Evict(old(ad), rq) && rq.sector !in HalfOf(ad, rq.sync).tree)
        invariant rq.sector !in HalfOf(ad, rq.sync).tree ==> ad == Evict(old(ad), rq)
        decreases rq.sector in HalfOf(ad, rq.sync).tree
      {
        HalfRq(HalfOf(ad, rq.sync), rq.sync, rq.sector);
        MoveToDispatch(HalfOf(ad, rq.sync).tree[rq.sector]);
      }
      var h := HalfOf(ad, rq.sync);
      h := h.(tree := h.tree[rq.sector := rq], fifo := h.fifo + [rq]);
      h := h.(next := Choose(h.last, Some(rq), h.next));
      ad := SetHalf(ad, rq.sync, h);
      HalfNext(h, rq.sync);
    }

    /** `as_completed_request`. */
    method CompletedRequest(rq: Rq)
      requires Inv(ad)
      modifies this
      ensures ad == Completed(old(ad), rq)
      ensures rq in old(ad).active ==> Inv(ad)
      ensures rq in old(ad).active && Unmixed(old(ad)) ==> Unmixed(ad)
    {
      if rq in ad.active { CompletedKeeps(ad, rq); }
      hide Inv, Unmixed;
      if rq !in ad.active {
        ad := ad.(bug := true);
        return;
      }
      if ad.changed && ad.nrDispatched == 1 {
        ad := ad.(changed := false);
        if ad.batchSync { ad := ad.(newBatch := true); }
      }
      ad := ad.(bug := ad.bug || ad.nrDispatched == 0);
      ad := ad.(nrDispatched := ad.nrDispatched - 1, out := ad.out - {rq}, active := ad.active - {rq});
      if ad.newBatch && ad.batchSync == rq.sync {
        ad := ad.(newBatch := false);
      }
    }

    /** `as_dispatch_request` with force: both directions are emptied by their cached next request. */
    method ForcedDispatch() returns (dispatched: nat)
      requires Inv(ad)
      modifies this
      ensures Inv(ad) && ad == ForceAll(old(ad))
      ensures ad.sy.tree == map[] && ad.asy.tree == map[]
      ensures ad.out == old(ad).out + old(ad).sy.tree.Values + old(ad).asy.tree.Values
      ensures dispatched == |old(ad).sy.tree| + |old(ad).asy.tree|
    {
      ForceEmpties(ad);
      hide HalfOk;
      ad := ad.(batchSync := true, changed := false, newBatch := false);
      assert forall x :: InQueue(ad, x) == InQueue(old(ad), x);
      var n := DrainDirection(true);
      var m := DrainDirection(false);
      dispatched := n + m;
    }

    method DrainDirection(sync: bool) returns (n: nat)
      requires Inv(ad)
      modifies this
      ensures Inv(ad) && ad == DrainHalf(old(ad), sync, |HalfOf(old(ad), sync).tree|)
      ensures HalfOf(ad, !sync) == HalfOf(old(ad), !sync)
      ensures n == |HalfOf(old(ad), sync).tree|
    {
      hide Inv, Move, DrainHalf, HalfOf;
      ghost var start, size := ad, |HalfOf(ad, sync).tree|;
      n := 0;
      while HalfOf(ad, sync).next.Some?
        invariant Inv(ad)
        invariant n + |HalfOf(ad, sync).tree| == size
        invariant DrainHalf(ad, sync, |HalfOf(ad, sync).tree|) == DrainHalf(start, sync, size)
        decreases |HalfOf(ad, sync).tree|
      {
        DrainOne(ad, sync);
        DrainUnfolds(ad, sync, |HalfOf(ad, sync).tree|);
        MoveToDispatch(HalfOf(ad, sync).next.value);
        n := n + 1;
      }
      DrainOne(ad, sync);
      DrainUnfolds(ad, sync, 0);
      DrainInv(start, sync, size);
    }

    /** `as_dispatch_request` without force. */
    method DispatchRequest(o: Oracle) returns (found: bool)
      requires Inv(ad) && Unmixed(ad)
      modifies this
      ensures (ad, found) == DispatchOne(old(ad), o)
      ensures Served(old(ad), (ad, found))
      ensures AnticipatoryTurns.Law(old(ad), o, ad, found)
    {
      hide HalfOk, Served, Move, Unmixed, Finish, AnticipatoryTurns.Law;
      HeadQueued(ad.sy, true);
      HeadQueued(ad.asy, false);
      var rds, wrs := ad.sy.fifo != [], ad.asy.fifo != [];
      if !(rds || wrs) || o.waiting || ad.changed {
        DispatchLaws(ad, o);
        return false;
      }
      var rq: Option<Rq> := None;
      if !(rds && wrs && !ad.newBatch && o.batchExpired) {
        rq := HalfOf(ad, ad.batchSync).next;
        if ad.batchSync && o.mayAnticipate {
          if o.headExpired && rds {
            found := FinishDispatch(Head(ad.sy));
            DispatchLaws(old(ad), o);
            return;
          }
          if o.anticipate {
            DispatchLaws(ad, o);
            return false;
          }
        }
      }
      if rq.None? {
        if rds && !(wrs && ad.batchSync) {
          if !ad.batchSync { ad := ad.(changed := true, bug := ad.bug || ad.newBatch); }
          ad := ad.(batchSync := true);
          rq := Head(ad.sy);
        } else {
          if ad.batchSync { ad := ad.(changed := true, newBatch := false); }
          ad := ad.(batchSync := false);
          rq := ad.asy.next;
        }
      }
      if o.fifoExpired && HalfOf(ad, ad.batchSync).fifo != [] { rq := Head(HalfOf(ad, ad.batchSync)); }
      assert forall x :: InQueue(ad, x) == InQueue(old(ad), x);
      found := FinishDispatch(rq);
      DispatchLaws(old(ad), o);
    }

    /** The end of a dispatch: wait for the old batch, or move the request. */
    method FinishDispatch(rq: Option<Rq>) returns (found: bool)
      requires Inv(ad) && rq.Some? && InQueue(ad, rq.value)
      modifies this
      ensures (ad, found) == Finish(old(ad), rq)
    {
      hide HalfOk, Move;
      if ad.changed {
        ad := ad.(bug := ad.bug || ad.newBatch);
        if ad.nrDispatched != 0 { return false; }
        if ad.batchSync { ad := ad.(newBatch := true); }
        ad := ad.(changed := false);
      }
      assert forall x :: InQueue(ad, x) == InQueue(old(ad), x);
      MoveToDispatch(rq.value);
      found := true;
    }
  }
}
