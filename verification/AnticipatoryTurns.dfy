/** What one dispatch of the anticipatory scheduler does, case by case, and how its batches take turns. */
module AnticipatoryTurns {

  import opened Collections
  import opened Anticipatory
  import opened AnticipatorySafety

  predicate HasQueued(d: AsData, sync: bool) {
    HalfOf(d, sync).tree != map[]
  }

  /** The oldest request of a direction if its time has come, otherwise the preferred one. */
  ghost predicate Picked(d: AsData, sync: bool, due: bool, x: Rq) {
    var h := HalfOf(d, sync);
    if due then h.fifo != [] && x == h.fifo[0] else IsBest(h.last, h.tree, x)
  }

  /** One request goes to the device; nothing else moves. */
  ghost predicate Goes(d: AsData, d': AsData, x: Rq) {
    && InQueue(d, x) && x !in d.out && d'.out == d.out + {x} && d'.active == d.active
    && HalfOf(d', x.sync).tree == HalfOf(d, x.sync).tree - {x.sector}
    && HalfOf(d', x.sync).fifo == Without(HalfOf(d, x.sync).fifo, x)
    && HalfOf(d', x.sync).last == x.sector + x.sectors
    && HalfOf(d', !x.sync) == HalfOf(d, !x.sync)
  }

  ghost predicate Stays(d: AsData, d': AsData) {
    d'.sy == d.sy && d'.asy == d.asy && d'.out == d.out && d'.active == d.active
  }

  /** The batch goes on in its direction. */
  ghost predicate GoesOn(d: AsData, due: bool, d': AsData, found: bool) {
    && found && d'.batchSync == d.batchSync && d'.newBatch == d.newBatch && !d'.changed
    && exists x: Rq :: x.sync == d.batchSync && Picked(d, d.batchSync, due, x) && Goes(d, d', x)
  }

  /** The other direction takes over: at once when the device is empty, beginning with its oldest request
      if that one's time has come or the turn is to reads; otherwise when it has become so. */
  ghost predicate Turns(d: AsData, due: bool, d': AsData, found: bool) {
    && d'.batchSync == !d.batchSync
    && (found <==> d.out == {})
    && (!found ==> Stays(d, d') && d'.changed && !d'.newBatch)
    && (found ==>
          && !d'.changed && d'.newBatch == d'.batchSync
          && exists x: Rq ::
               x.sync == d'.batchSync && Picked(d, d'.batchSync, due || d'.batchSync, x) && Goes(d, d', x))
  }

  /** What one unforced dispatch does, by the queues, the flags and the clocks. */
  ghost predicate Law(d: AsData, o: Oracle, d': AsData, found: bool) {
    if (!HasQueued(d, true) && !HasQueued(d, false)) || o.waiting || d.changed then d' == d && !found
    else if HasQueued(d, true) && HasQueued(d, false) && !d.newBatch && o.batchExpired then
      Turns(d, o.fifoExpired, d', found)
    else if d.batchSync && o.mayAnticipate && !(o.headExpired && HasQueued(d, true)) && o.anticipate then
      d' == d && !found
    else if HasQueued(d, d.batchSync) then
      GoesOn(d, o.fifoExpired || (d.batchSync && o.mayAnticipate && o.headExpired), d', found)
    else Turns(d, o.fifoExpired, d', found)
  }

  lemma MoveGoes(d: AsData, x: Rq)
    requires Inv(d) && InQueue(d, x)
    ensures Goes(d, Move(d, x), x)
    ensures Move(d, x) == d.(sy := Move(d, x).sy, asy := Move(d, x).asy, nrDispatched := d.nrDispatched + 1,
                             out := d.out + {x})
  {
    hide HalfOk, FindNext;
    MoveInv(d, x);
  }

  lemma EmptyDevice(d: AsData)
    requires Inv(d)
    ensures d.nrDispatched == 0 <==> d.out == {}
  {
    hide HalfOk;
  }

  lemma FinishIs(d: AsData, x: Rq)
    requires Inv(d) && InQueue(d, x)
    ensures var (d', found) := Finish(d, Some(x));
            && (found <==> !d.changed || d.out == {})
            && (!found ==> d' == d.(bug := d.bug || d.newBatch))
            && (found ==> Goes(d, d', x) && !d'.changed && d'.batchSync == d.batchSync
                          && d'.newBatch == (d.newBatch || (d.changed && d.batchSync)))
  {
    hide HalfOk, Move;
    EmptyDevice(d);
    var e := if d.changed
      then d.(bug := d.bug || d.newBatch, changed := false, newBatch := d.newBatch || d.batchSync)
      else d;
    assert InQueue(e, x) && Inv(e) by { assert forall r :: InQueue(e, r) == InQueue(d, r); }
    MoveGoes(e, x);
  }

  lemma HeadsAre(d: AsData, sync: bool)
    requires Inv(d)
    ensures var h := HalfOf(d, sync);
            && (h.fifo == [] <==> h.tree == map[]) && (h.next.None? <==> h.tree == map[])
            && (h.next.Some? ==>
                  InQueue(d, h.next.value) && h.next.value.sync == sync && IsBest(h.last, h.tree, h.next.value))
            && (h.fifo != [] ==> InQueue(d, h.fifo[0]) && h.fifo[0].sync == sync)
  {
    var h := HalfOf(d, sync);
    HeadQueued(h, sync);
    HalfNext(h, sync);
  }

  lemma GoesOnIs(d: AsData, o: Oracle, due: bool)
    requires Inv(d) && !d.changed && HasQueued(d, d.batchSync)
    ensures var h := HalfOf(d, d.batchSync);
            h.next.Some? && h.fifo != [] &&
            var (d', found) := Finish(d, if due then Some(h.fifo[0]) else h.next);
            GoesOn(d, due, d', found)
  {
    hide Finish, Inv, IsBest, Goes;
    HeadsAre(d, d.batchSync);
    var h := HalfOf(d, d.batchSync);
    FinishIs(d, if due then h.fifo[0] else h.next.value);
  }

  /** The state in which a turn finishes. */
  function Turned(d: AsData): (e: AsData) {
    d.(batchSync := !d.batchSync, changed := true, newBatch := false)
  }

  lemma TurnsIs(d: AsData, due: bool)
    requires Inv(d) && !d.changed && HasQueued(d, !d.batchSync)
    ensures var e := Turned(d);
            var h := HalfOf(e, e.batchSync);
            h.next.Some? && h.fifo != [] &&
            var (d', found) := Finish(e, if due || e.batchSync then Some(h.fifo[0]) else h.next);
            Turns(d, due, d', found)
  {
    hide Finish, IsBest, HalfOk;
    var e := Turned(d);
    assert Inv(e) by { assert forall r :: InQueue(e, r) == InQueue(d, r); }
    HeadsAre(e, e.batchSync);
    var h := HalfOf(e, e.batchSync);
    var x := if due || e.batchSync then h.fifo[0] else h.next.value;
    FinishIs(e, x);
    var (d', found) := Finish(e, Some(x));
    if found { assert Goes(d, d', x) && Picked(d, d'.batchSync, due || d'.batchSync, x); }
  }

  lemma SelectIs(d: AsData, o: Oracle)
    requires Inv(d) && !d.changed && HasQueued(d, !d.batchSync) && (!d.batchSync ==> !d.newBatch)
    ensures var (d', found) := Select(d, o);
            HasQueued(d, d.batchSync) || !d.batchSync || HasQueued(d, false) ==> Turns(d, o.fifoExpired, d', found)
  {
    hide Finish, IsBest, HalfOk, Turns;
    HeadsAre(d, true);
    HeadsAre(d, false);
    TurnsIs(d, o.fifoExpired);
  }

  lemma DispatchIs(d: AsData, o: Oracle)
    requires Inv(d) && Unmixed(d)
    ensures Law(d, o, DispatchOne(d, o).0, DispatchOne(d, o).1)
  {
    hide Finish, HalfOk, IsBest, Turns, GoesOn, Select;
    HeadsAre(d, true);
    HeadsAre(d, false);
    var both := HasQueued(d, true) && HasQueued(d, false);
    if (!HasQueued(d, true) && !HasQueued(d, false)) || o.waiting || d.changed {
    } else if both && !d.newBatch && o.batchExpired {
      SelectIs(d, o);
    } else if HasQueued(d, d.batchSync) {
      GoesOnIs(d, o, o.fifoExpired || (d.batchSync && o.mayAnticipate && o.headExpired));
    } else {
      SelectIs(d, o);
    }
  }

  // ---- The other operations ----

  /** A new request is the youngest of its direction; only one at its very sector gives way, to the
      device. Nothing else moves, and the batch goes on. */
  lemma AddIs(d: AsData, x: Rq)
    requires Inv(d) && MayAdd(d, x)
    ensures var d', h := AddRq(d, x), HalfOf(d, x.sync);
            && HalfOf(d', x.sync).tree == h.tree[x.sector := x] && HalfOf(d', !x.sync) == HalfOf(d, !x.sync)
            && d'.batchSync == d.batchSync && d'.changed == d.changed && d'.newBatch == d.newBatch
            && d'.active == d.active
            && (x.sector !in h.tree ==>
                  HalfOf(d', x.sync).fifo == h.fifo + [x] && HalfOf(d', x.sync).last == h.last && d'.out == d.out)
            && (x.sector in h.tree ==>
                  var y := h.tree[x.sector];
                  && HalfOf(d', x.sync).fifo == Without(h.fifo, y) + [x] && d'.out == d.out + {y}
                  && HalfOf(d', x.sync).last == y.sector + y.sectors)
  {
    hide HalfOk, Move;
    AddInv(d, x);
    var h := HalfOf(d, x.sync);
    if x.sector in h.tree {
      HalfRq(h, x.sync, x.sector);
      MoveGoes(d, h.tree[x.sector]);
    }
  }

  /** A completion takes its request off the device and nothing else. A pending change of batch ends with
      the last one outstanding; after a change to reads the new batch is then unserved, and the first of
      its own completions ends that. */
  lemma CompletedIs(d: AsData, x: Rq)
    requires Inv(d) && Unmixed(d) && x in d.active
    ensures var d' := Completed(d, x);
            && d'.sy == d.sy && d'.asy == d.asy && d'.batchSync == d.batchSync
            && d'.out == d.out - {x} && d'.active == d.active - {x}
            && (d'.changed <==> d.changed && d.out != {x})
            && (d'.newBatch <==> d.changed && d.out == {x} && d.batchSync)
  {
    hide HalfOk;
    assert x in d.out;
    assert d.nrDispatched == 1 <==> d.out == {x} by { Single(d.out, x); }
  }

  lemma Single(s: set<Rq>, x: Rq)
    requires x in s
    ensures |s| == 1 <==> s == {x}
  {
    assert s == {x} + (s - {x});
    if |s| == 1 { assert |s - {x}| == 0; }
  }

  // ---- Turns over runs ----

  ghost predicate ServesWrite(d: AsData, d': AsData) {
    exists x: Rq :: !x.sync && x !in d.out && x in d'.out
  }

  /** In a batch of writes with nothing pending, a dispatch serves a write exactly when the batch has not
      expired, or no reads are queued. */
  lemma WriteServedIff(d: AsData, o: Oracle)
    requires Inv(d) && Unmixed(d) && !d.batchSync && !d.changed && !o.waiting && HasQueued(d, false)
    ensures ServesWrite(d, DispatchOne(d, o).0) <==> !(HasQueued(d, true) && o.batchExpired)
    ensures HasQueued(d, true) && o.batchExpired ==> DispatchOne(d, o).0.batchSync
  {
    hide Inv, DispatchOne, IsBest;
    DispatchIs(d, o);
  }

  /** In a batch of reads with both kinds queued and nothing pending, an expired batch turns to writes, and
      serves one at once exactly when the device is empty. */
  lemma ExpiredReadsTurn(d: AsData, o: Oracle)
    requires Inv(d) && Unmixed(d) && d.batchSync && !d.changed && !d.newBatch && !o.waiting
    requires HasQueued(d, true) && HasQueued(d, false) && o.batchExpired
    ensures !DispatchOne(d, o).0.batchSync
    ensures ServesWrite(d, DispatchOne(d, o).0) <==> d.out == {}
    ensures d.out != {} ==> DispatchOne(d, o).0.changed
  {
    hide Inv, DispatchOne, IsBest;
    DispatchIs(d, o);
  }

  /** A stretch of a run in phase in which writes are queued and none is served. */
  ghost predicate WritesWait(run: seq<AsData>, ops: seq<Op>, i: nat, j: nat) {
    && IsRun(run, ops) && i <= j < |run|
    && (forall k :: 0 <= k < |ops| ==> InPhase(run[k], ops[k]))
    && (forall k :: i <= k < j ==> HasQueued(run[k], false) && !ops[k].Force? && !ServesWrite(run[k], run[k + 1]))
  }

  /** As long as no batch of writes is found expired, reads give way for good: once the batch has turned to
      writes, it stays, and no dispatch serves a read before one serves a write. */
  lemma {:induction false} ReadsGiveWay(run: seq<AsData>, ops: seq<Op>, i: nat, j: nat)
    requires WritesWait(run, ops, i, j) && !run[i].batchSync
    requires forall k :: i <= k < j && ops[k].Dispatch? && !run[k].batchSync ==> !ops[k].o.batchExpired
    ensures !run[j].batchSync
    ensures forall k :: i <= k < j && ops[k].Dispatch? ==> run[k + 1].out == run[k].out
    decreases j - i
  {
    hide Step, Inv, Unmixed, DispatchOne, ServesWrite, InPhase, Enabled, HasQueued;
    if i < j {
      ReadsGiveWay(run, ops, i, j - 1);
      NextIsBest(run, ops, j - 1);
      BatchesNeverMix(run, ops, j - 1);
      assert run[j - 1 + 1] == Step(run[j - 1], ops[j - 1]);
      StaysWithWrites(run[j - 1], ops[j - 1]);
    }
  }

  lemma StaysWithWrites(d: AsData, op: Op)
    requires Inv(d) && Unmixed(d) && !d.batchSync && HasQueued(d, false) && !op.Force?
    requires !ServesWrite(d, Step(d, op)) && (op.Dispatch? ==> !op.o.batchExpired)
    ensures !Step(d, op).batchSync && (op.Dispatch? ==> Step(d, op).out == d.out)
  {
    hide Inv, DispatchOne, AddRq, IsBest;
    match op
    case Dispatch(o) => DispatchIs(d, o);
      if !d.changed && !o.waiting { WriteServedIff(d, o); }
    case Add(rq) => AddKeepsBatch(d, rq);
    case _ =>
  }

  lemma AddKeepsBatch(d: AsData, rq: Rq)
    ensures AddRq(d, rq).batchSync == d.batchSync
  {
  }
}
