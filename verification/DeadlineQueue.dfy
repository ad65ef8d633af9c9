/** The deadline scheduler as code: the record of the scheduler updated in place. */
module DeadlineQueue {
  import opened Collections
  import opened Deadline
  import DeadlineSafety
  import DeadlineChoice

  class DeadlineQueue {
    var d: Data

    constructor (cfg: Tunables)
      ensures d == Init(cfg)
    {
      d := Init(cfg);
    }

    /** `deadline_remove_request` */
    method Remove(id: nat)
      requires id in d.attr
      modifies this
      ensures d == RemoveRq(old(d), id)
    {
      var a := d.attr[id];
      var s := Get(d, a.write);
      s := s.(fifo := Without(s.fifo, id));
      if s.next == Some(id) { s := s.(next := NextRq(s.tree, a.sector)); }
      s := s.(tree := s.tree - {a.sector});
      d := Set(d, a.write, s).(attr := d.attr - {id});
    }

    /** `deadline_move_request` */
    method Move(id: nat)
      requires id in d.attr
      modifies this
      ensures d == MoveRq(old(d), id)
    {
      var a := d.attr[id];
      var succ := NextRq(Get(d, a.write).tree, a.sector);
      d := d.(rd := d.rd.(next := None), wr := d.wr.(next := None));
      d := Set(d, a.write, Get(d, a.write).(next := succ));
      d := d.(lastSector := a.sector + a.sectors);
      Remove(id);
      d := d.(nrSorted := d.nrSorted - 1, dispatched := d.dispatched + [id]);
    }

    /** `elv_insert` with `deadline_add_request`: retry until no request has the same sector. */
    method AddRequest(id: nat, write: bool, sector: nat, sectors: nat, now: nat)
      requires DeadlineSafety.Inv(d, now) && id !in d.attr
      modifies this
      ensures d == Add(old(d), id, write, sector, sectors, now)
      ensures DeadlineSafety.Inv(d, now)
    {
      hide DeadlineSafety.Inv, MoveRq;
      ghost var before := d;
      DeadlineSafety.AddInv(d, id, write, sector, sectors, now);
      d := d.(nrSorted := d.nrSorted + 1);
      ghost var counted := d;
      ClearedTwice(before, write, sector, now);
      while sector in Get(d, write).tree && Get(d, write).tree[sector] in d.attr
        invariant d == counted || d == DeadlineSafety.Cleared(counted, write, sector)
        decreases sector in Get(d, write).tree && d == counted
      {
        Move(Get(d, write).tree[sector]);
      }
      var a := Attr(write, sector, sectors, now + Expire(d.cfg, write));
      d := Set(d, write, Get(d, write).(tree := Get(d, write).tree[sector := id])).(attr := d.attr[id := a]);
      d := Set(d, write, Get(d, write).(fifo := Get(d, write).fifo + [id]));
    }

    /** One eviction is enough for the retry loop. */
    lemma ClearedTwice(before: Data, w: bool, sector: nat, now: nat)
      requires DeadlineSafety.Inv(before, now)
      ensures sector !in Get(DeadlineSafety.Cleared(before.(nrSorted := before.nrSorted + 1), w, sector), w).tree
    {
      hide DeadlineSafety.SideFacts, DeadlineSafety.Cleared;
      var d0 := before.(nrSorted := before.nrSorted + 1);
      assert DeadlineSafety.SideOk(d0, w, now, {}) && DeadlineSafety.SideOk(d0, !w, now, {});
      DeadlineSafety.ClearedInv(d0, w, sector, now, {});
    }

    /** From the label `dispatch_find_request` on: the request to go on with in a direction. */
    method FindRequest(write: bool, now: nat) returns (rq: Option<nat>)
      requires DeadlineSafety.Inv(d, now) && Get(d, write).fifo != []
      modifies this
      ensures rq == Find(old(d), write, now).0 && rq.Some? && rq.value in d.attr
      ensures d == old(d).(batching := Find(old(d), write, now).1)
      ensures DeadlineChoice.FoundIn(old(d), write, now, rq.value, d.batching)
    {
      DeadlineChoice.FifoFound(d, write, now);
      DeadlineSafety.FindFacts(d, write, now, now);
      hide DeadlineSafety.Inv;
      var s := Get(d, write);
      if now > d.attr[s.fifo[0]].time {
        d := d.(batching := 0);
        rq := Some(s.fifo[0]);
      } else if s.next.Some? {
        rq := s.next;
      } else {
        d := d.(batching := 0);
        rq := Some(s.tree[LeastFrom(s.tree, 0).value]);
      }
    }

    /** `deadline_dispatch_requests` */
    method DispatchRequests(now: nat) returns (issued: bool)
      requires DeadlineSafety.Inv(d, now)
      modifies this
      ensures d == Dispatch(old(d), now).0 && (issued <==> Dispatch(old(d), now).1.Some?)
      ensures DeadlineChoice.Law(old(d), now, d, issued)
    {
      hide DeadlineSafety.SideFacts, MoveRq, Find, DeadlineChoice.Law, DeadlineChoice.FoundIn;
      DeadlineSafety.NextQueued(d, now);
      var rq := if d.wr.next.Some? then d.wr.next else d.rd.next;
      var chosen := false;
      if rq.Some? {
        if d.lastSector != d.attr[rq.value].sector { d := d.(batching := d.batching + d.cfg.fifoBatch); }
        chosen := d.batching < d.cfg.fifoBatch;
      }
      if !chosen {
        var haveReads, haveWrites, write := d.rd.fifo != [], d.wr.fifo != [], false;
        if haveReads {
          if haveWrites {
            if d.starved >= d.cfg.writesStarved { write := true; }
            d := d.(starved := d.starved + 1);
          }
        } else if haveWrites {
          write := true;
        } else {
          DeadlineChoice.DispatchIs(old(d), now);
          return false;
        }
        if write { d := d.(starved := 0); }
        rq := FindRequest(write, now);
      }
      d := d.(batching := d.batching + 1);
      Move(rq.value);
      issued := true;
      DeadlineChoice.DispatchIs(old(d), now);
    }

    /** `elv_drain_elevator`: forced dispatch ends, with everything on the dispatch list. */
    method Drain(now: nat)
      requires DeadlineSafety.Inv(d, now)
      modifies this
      ensures DeadlineSafety.Inv(d, now) && d.attr == map[] && d.nrSorted == 0
      ensures old(d).dispatched <= d.dispatched
      ensures multiset(d.dispatched) == multiset(old(d).dispatched) + multiset(old(d).attr.Keys)
    {
      hide DeadlineSafety.Inv, Dispatch;
      var more := true;
      while more
        invariant DeadlineSafety.Inv(d, now)
        invariant old(d).dispatched <= d.dispatched
        invariant multiset(d.dispatched) + multiset(d.attr.Keys) ==
                  multiset(old(d).dispatched) + multiset(old(d).attr.Keys)
        invariant !more ==> d.attr == map[]
        decreases more, |d.attr|
      {
        DeadlineSafety.DispatchIssuesOne(d, now);
        ghost var before := d;
        more := DispatchRequests(now);
        if more {
          ghost var id := Dispatch(before, now).1.value;
          assert before.attr.Keys == d.attr.Keys + {id};
          assert |d.attr| == |before.attr| - 1 by {
            assert |before.attr.Keys| == |d.attr.Keys| + 1;
          }
        }
      }
      DeadlineSafety.EmptyIffNoFifo(d, now);
      assert d.attr.Keys == {};
    }
  }
}
