/** The anticipatory scheduler with the clock that ends its batches, and what that clock does to writes. */
module AnticipatoryClock {

  import opened Collections
  import opened Anticipatory
  import opened AnticipatorySafety
  import opened AnticipatoryTurns

  /** `batch_expire` of the two kinds, and `write_batch_count`. */
  datatype Tuning = Tuning(readBatch: nat, writeBatch: nat, writes: nat)

  /** The scheduler with `current_batch_expires` and `current_write_count`. */
  datatype Clocked = Clocked(d: AsData, expires: nat, left: nat)

  /** `as_batch_expired` */
  predicate Expired(c: Clocked, now: nat) {
    !c.d.changed && !c.d.newBatch && (now > c.expires || (!c.d.batchSync && c.left == 0))
  }

  function Less(n: nat, k: nat): (m: nat) {
    if n < k then 0 else n - k
  }

  /** The counters after a dispatch: a turn to writes sets the count, and the clock only if it takes
      effect at once; reads alone renew their batch. */
  function Dispatched(t: Tuning, c: Clocked, o: Oracle, now: nat): (c': Clocked) {
    var (d', found) := DispatchOne(c.d, o);
    var toWrites := c.d.batchSync && !d'.batchSync;
    var left := if toWrites then t.writes else c.left;
    var alone := c.d.batchSync && c.d.sy.fifo != [] && c.d.asy.fifo == [] && !(o.mayAnticipate && o.headExpired);
    Clocked(d',
            if found && toWrites then now + t.writeBatch else if found && alone then now + t.readBatch else c.expires,
            if found && !d'.batchSync then Less(left, 1) else left)
  }

  /** A completion starts the clock of a new batch of reads, and of no batch of writes. */
  function Finished(t: Tuning, c: Clocked, rq: Rq, now: nat): (c': Clocked) {
    var d := c.d;
    var newBatch := d.newBatch || (d.changed && d.nrDispatched == 1 && d.batchSync);
    c.(d := Completed(d, rq),
       expires := if rq in d.active && newBatch && d.batchSync == rq.sync then now + t.readBatch else c.expires)
  }

  function ClockStep(t: Tuning, c: Clocked, op: Op, now: nat): (c': Clocked) {
    match op
    case Dispatch(o) => Dispatched(t, c, o, now)
    case Complete(rq) => Finished(t, c, rq, now)
    case Add(rq) =>
      c.(d := Step(c.d, op), left := if !rq.sync && rq.sector in c.d.asy.tree then Less(c.left, 1) else c.left)
    case Force => c.(d := Step(c.d, op), left := Less(c.left, |c.d.asy.tree|))
    case _ => c.(d := Step(c.d, op))
  }

  lemma ClockStepIs(t: Tuning, c: Clocked, op: Op, now: nat)
    ensures ClockStep(t, c, op, now).d == Step(c.d, op)
  {
  }

  /** Whether the batch has expired is not the oracle's choice here. */
  ghost predicate ClockEnabled(c: Clocked, op: Op, now: nat) {
    Enabled(c.d, op) && (op.Dispatch? ==> op.o.batchExpired == Expired(c, now))
  }

  ghost predicate ClockRun(t: Tuning, cs: seq<Clocked>, ops: seq<Op>, times: seq<nat>) {
    && |cs| == |ops| + 1 && |times| == |ops|
    && cs[0] == Clocked(InitAs(), t.readBatch, 0)
    && (forall i, j :: 0 <= i <= j < |times| ==> times[i] <= times[j])
    && forall i :: 0 <= i < |ops| ==>
         ClockEnabled(cs[i], ops[i], times[i]) && cs[i + 1] == ClockStep(t, cs[i], ops[i], times[i])
  }

  /** A run with the clock is a run without it. */
  lemma ForgetClock(t: Tuning, cs: seq<Clocked>, ops: seq<Op>, times: seq<nat>) returns (run: seq<AsData>)
    requires ClockRun(t, cs, ops, times)
    ensures IsRun(run, ops) && |run| == |cs| && forall i :: 0 <= i < |cs| ==> run[i] == cs[i].d
  {
    hide ClockStep, Step, Enabled, InitAs;
    run := seq(|cs|, i requires 0 <= i < |cs| => cs[i].d);
    forall i | 0 <= i < |ops| ensures Enabled(run[i], ops[i]) && run[i + 1] == Step(run[i], ops[i]) {
      assert ClockEnabled(cs[i], ops[i], times[i]) && cs[i + 1] == ClockStep(t, cs[i], ops[i], times[i]);
      ClockStepIs(t, cs[i], ops[i], times[i]);
    }
  }

  // ---- A turn that had to wait comes to nothing ----

  /** Step `i` finds a batch of reads expired while both kinds are queued. */
  ghost predicate FindsExpired(c: Clocked, op: Op, now: nat) {
    && op.Dispatch? && !op.o.waiting && c.d.batchSync && HasQueued(c.d, true) && HasQueued(c.d, false)
    && Expired(c, now)
  }

  /** Between `i` and `j` the turn is pending or the scheduler waits: no dispatch does anything. */
  ghost predicate Quiet(cs: seq<Clocked>, ops: seq<Op>, i: nat, j: nat)
    requires |cs| == |ops| + 1 && j <= |ops|
  {
    forall k :: i < k < j ==> !ops[k].Force? && (ops[k].Dispatch? ==> cs[k].d.changed || ops[k].o.waiting)
  }

  /** The clock of the batch of reads runs on under the batch of writes. */
  lemma {:induction false} OldClockRunsOn(t: Tuning, cs: seq<Clocked>, ops: seq<Op>, times: seq<nat>, i: nat, j: nat)
    requires ClockRun(t, cs, ops, times) && i < j <= |ops|
    requires forall k :: 0 <= k < |ops| ==> InPhase(cs[k].d, ops[k])
    requires FindsExpired(cs[i], ops[i], times[i]) && cs[i].d.out != {} && Quiet(cs, ops, i, j)
    ensures !cs[j].d.batchSync && cs[j].expires == cs[i].expires && Inv(cs[j].d) && Unmixed(cs[j].d)
    decreases j - i
  {
    hide Inv, Unmixed, Step, Enabled, InPhase, DispatchOne, Completed, AddRq;
    var run := ForgetClock(t, cs, ops, times);
    NextIsBest(run, ops, j - 1);
    BatchesNeverMix(run, ops, j - 1);
    NextIsBest(run, ops, j);
    BatchesNeverMix(run, ops, j);
    var c, op, now := cs[j - 1], ops[j - 1], times[j - 1];
    assert ClockEnabled(c, op, now) && cs[j - 1 + 1] == ClockStep(t, c, op, now);
    if j == i + 1 {
      ExpiredReadsTurn(c.d, op.o);
      DispatchIs(c.d, op.o);
    } else {
      OldClockRunsOn(t, cs, ops, times, i, j - 1);
      QuietKeepsClock(t, c, op, now);
    }
  }

  lemma QuietKeepsClock(t: Tuning, c: Clocked, op: Op, now: nat)
    requires Inv(c.d) && Unmixed(c.d) && !c.d.batchSync && !op.Force?
    requires op.Dispatch? ==> c.d.changed || op.o.waiting
    ensures var c' := ClockStep(t, c, op, now); !c'.d.batchSync && c'.expires == c.expires
  {
    hide Inv, AddRq;
    match op
    case Add(rq) => AddKeepsBatch(c.d, rq);
    case Dispatch(o) => DispatchIs(c.d, o);
    case _ =>
  }

  /** While both kinds stay queued, an expired batch of reads is followed by a write exactly when nothing
      was outstanding as it was found expired. If something was, the first dispatch that can do anything
      turns back to reads. */
  lemma WriteFollowsIff(t: Tuning, cs: seq<Clocked>, ops: seq<Op>, times: seq<nat>, i: nat, j: nat)
    requires ClockRun(t, cs, ops, times) && i < j < |ops|
    requires forall k :: 0 <= k < |ops| ==> InPhase(cs[k].d, ops[k])
    requires FindsExpired(cs[i], ops[i], times[i]) && Quiet(cs, ops, i, j)
    requires ops[j].Dispatch? && !ops[j].o.waiting && !cs[j].d.changed
    requires HasQueued(cs[j].d, true) && HasQueued(cs[j].d, false)
    ensures cs[i].d.out == {} ==> ServesWrite(cs[i].d, cs[i + 1].d)
    ensures cs[i].d.out != {} ==> !ServesWrite(cs[i].d, cs[i + 1].d) && !ServesWrite(cs[j].d, cs[j + 1].d)
    ensures cs[i].d.out != {} ==> cs[j + 1].d.batchSync
  {
    hide Inv, Unmixed, Step, Enabled, InPhase, DispatchOne, ServesWrite, Quiet, HasQueued;
    var run := ForgetClock(t, cs, ops, times);
    NextIsBest(run, ops, i);
    BatchesNeverMix(run, ops, i);
    assert ClockEnabled(cs[i], ops[i], times[i]) && cs[i + 1] == ClockStep(t, cs[i], ops[i], times[i]);
    ExpiredReadsTurn(cs[i].d, ops[i].o);
    if cs[i].d.out != {} {
      OldClockRunsOn(t, cs, ops, times, i, j);
      assert ClockEnabled(cs[j], ops[j], times[j]) && cs[j + 1] == ClockStep(t, cs[j], ops[j], times[j]);
      NotNew(cs[j].d);
      WriteServedIff(cs[j].d, ops[j].o);
    }
  }

  lemma NotNew(d: AsData)
    requires Unmixed(d) && !d.batchSync
    ensures !d.newBatch
  {
  }

  // ---- The clock of reads and the count of writes ----

  /** The clock of a batch of reads starts with its first completion, and with no other. */
  lemma ClockStartsWithRead(t: Tuning, c: Clocked, x: Rq, now: nat)
    requires Inv(c.d) && Unmixed(c.d) && x in c.d.active
    ensures Finished(t, c, x, now).expires == if x.sync && c.d.newBatch then now + t.readBatch else c.expires
    ensures Finished(t, c, x, now).left == c.left
  {
    hide HalfOk, Completed;
    assert x in c.d.out;
  }

  /** While reads are alone each one served renews their batch. */
  lemma ReadsAloneRenew(t: Tuning, c: Clocked, o: Oracle, now: nat, later: nat)
    requires Inv(c.d) && Unmixed(c.d) && c.d.batchSync && HasQueued(c.d, true) && !HasQueued(c.d, false)
    requires !c.d.changed && !o.waiting && !o.mayAnticipate && later <= now + t.readBatch
    ensures var c' := Dispatched(t, c, o, now); c'.d.batchSync && !Expired(c', later)
  {
    hide Inv, Unmixed, DispatchOne, IsBest;
    HeadsAre(c.d, true);
    HeadsAre(c.d, false);
    DispatchIs(c.d, o);
  }

  /** How many writes the dispatches from `i` to `j` serve. */
  ghost function WritesServed(cs: seq<Clocked>, ops: seq<Op>, i: nat, j: nat): (n: nat)
    requires i <= j < |cs| && |ops| + 1 == |cs|
    decreases j - i
  {
    if i == j then 0
    else WritesServed(cs, ops, i, j - 1) + if ops[j - 1].Dispatch? && ServesWrite(cs[j - 1].d, cs[j].d) then 1 else 0
  }

  /** A batch of writes that begins with the step at `i` and lasts up to `j`, reads being queued all the
      time. */
  ghost predicate WriteBatch(t: Tuning, cs: seq<Clocked>, ops: seq<Op>, times: seq<nat>, i: nat, j: nat) {
    && ClockRun(t, cs, ops, times) && i < j < |cs| && ops[i].Dispatch?
    && (forall k :: 0 <= k < |ops| ==> InPhase(cs[k].d, ops[k]) && !ops[k].Force?)
    && cs[i].d.batchSync && (forall k :: i < k <= j ==> !cs[k].d.batchSync)
    && forall k :: i <= k < j ==> HasQueued(cs[k].d, true)
  }

  /** It serves no more writes than its count, or one. */
  lemma {:induction false} WriteBatchBounded(t: Tuning, cs: seq<Clocked>, ops: seq<Op>, times: seq<nat>, i: nat, j: nat)
    requires WriteBatch(t, cs, ops, times, i, j)
    ensures WritesServed(cs, ops, i, j) + cs[j].left <= if t.writes == 0 then 1 else t.writes
    decreases j
  {
    hide Inv, Unmixed, Step, Enabled, InPhase, DispatchOne, Completed, AddRq, ServesWrite, HasQueued;
    var run := ForgetClock(t, cs, ops, times);
    NextIsBest(run, ops, j - 1);
    BatchesNeverMix(run, ops, j - 1);
    var c, op, now := cs[j - 1], ops[j - 1], times[j - 1];
    assert ClockEnabled(c, op, now) && cs[j - 1 + 1] == ClockStep(t, c, op, now);
    if j == i + 1 {
      TurnCounts(t, c, op.o, now);
      assert WritesServed(cs, ops, i, i) == 0;
    } else {
      WriteBatchBounded(t, cs, ops, times, i, j - 1);
      if op.Dispatch? { GoingOnCounts(t, c, op.o, now); } else { OthersCount(t, c, op, now); }
    }
  }

  lemma TurnCounts(t: Tuning, c: Clocked, o: Oracle, now: nat)
    requires Inv(c.d) && Unmixed(c.d) && c.d.batchSync && !DispatchOne(c.d, o).0.batchSync
    ensures var c' := Dispatched(t, c, o, now);
            c'.left + (if ServesWrite(c.d, c'.d) then 1 else 0) <= if t.writes == 0 then 1 else t.writes
  {
    hide Inv, DispatchOne, IsBest;
    DispatchIs(c.d, o);
  }

  lemma GoingOnCounts(t: Tuning, c: Clocked, o: Oracle, now: nat)
    requires Inv(c.d) && Unmixed(c.d) && !c.d.batchSync && HasQueued(c.d, true)
    requires o.batchExpired == Expired(c, now) && !DispatchOne(c.d, o).0.batchSync
    ensures var c' := Dispatched(t, c, o, now); c'.left + (if ServesWrite(c.d, c'.d) then 1 else 0) <= c.left
  {
    hide Inv, DispatchOne, IsBest;
    NotNew(c.d);
    DispatchIs(c.d, o);
  }

  lemma OthersCount(t: Tuning, c: Clocked, op: Op, now: nat)
    requires !op.Dispatch?
    ensures ClockStep(t, c, op, now).left <= c.left
  {
    hide Step, Completed;
  }

  // ---- Writes can wait for ever ----

  const A := Rq(0, true, 8, 8)
  const B := Rq(1, true, 64, 8)
  const W := Rq(2, false, 128, 8)

  const QUIET := Oracle(false, false, false, false, false, false)

  /** The write is queued, and the reads, the flags and the device are as given. */
  ghost predicate Shape(d: AsData, queued: map<nat, Rq>, batchSync: bool, changed: bool, newBatch: bool, out: set<Rq>,
                        active: set<Rq>)
  {
    && Inv(d) && Unmixed(d) && d.sy.tree == queued && d.asy.tree == map[128 := W]
    && d.batchSync == batchSync && d.changed == changed && d.newBatch == newBatch && d.out == out && d.active == active
  }

  lemma ShapeQueued(d: AsData, queued: map<nat, Rq>, batchSync: bool, changed: bool, newBatch: bool, out: set<Rq>,
                    active: set<Rq>)
    requires Shape(d, queued, batchSync, changed, newBatch, out, active)
    ensures InQueue(d, W) && HasQueued(d, false) && (HasQueued(d, true) <==> queued != map[])
  {
    assert 128 in d.asy.tree;
  }

  /** An addition that displaces nothing. */
  lemma AddShape(d: AsData, queued: map<nat, Rq>, batchSync: bool, newBatch: bool, out: set<Rq>, active: set<Rq>, x: Rq)
    requires Shape(d, queued, batchSync, false, newBatch, out, active) && x in {A, B} && queued == map[] && x !in out
    ensures MayAdd(d, x) && Shape(AddRq(d, x), map[x.sector := x], batchSync, false, newBatch, out, active)
  {
    hide HalfOk, AddRq, Evict;
    assert !InQueue(d, x);
    assert HalfOf(d, true).tree[x.sector := x] == map[x.sector := x];
    assert MayAdd(d, x);
    AddInv(d, x);
    EvictInv(d, x);
    EvictionKeepsBatches(d, x);
  }

  /** The only read goes to the device. */
  lemma ServeShape(d: AsData, x: Rq, batchSync: bool, newBatch: bool, o: Oracle)
    requires x in {A, B} && Shape(d, map[x.sector := x], batchSync, false, newBatch, {}, {})
    requires o == QUIET.(batchExpired := !batchSync) && (!batchSync ==> !newBatch)
    ensures Shape(DispatchOne(d, o).0, map[], true, false, newBatch || !batchSync, {x}, {})
    ensures DispatchOne(d, o).1
  {
    hide Inv, Unmixed, DispatchOne;
    ShapeQueued(d, map[x.sector := x], batchSync, false, newBatch, {}, {});
    assert x.sector in d.sy.tree;
    DispatchIs(d, o);
    DispatchServes(d, o);
    var d' := DispatchOne(d, o).0;
    assert d'.batchSync && exists y: Rq :: y.sync && Goes(d, d', y);
    var y: Rq :| y.sync && Goes(d, d', y);
    assert InQueue(d, y) && HalfOf(d, y.sync) == d.sy;
    assert y == x;
    assert d.sy.tree - {x.sector} == map[];
  }

  lemma CompleteShape(d: AsData, queued: map<nat, Rq>, batchSync: bool, changed: bool, newBatch: bool, x: Rq)
    requires x in {A, B} && Shape(d, queued, batchSync, changed, newBatch, {x}, {x}) &&
        (newBatch ==> batchSync && !changed)
    requires changed ==> !batchSync
    ensures Shape(Completed(d, x), queued, batchSync, false, false, {}, {})
  {
    hide HalfOk;
    CompletedKeeps(d, x);
    hide Inv, Unmixed;
    assert d.nrDispatched == 1 by { CountOne(d, x); }
  }

  lemma CountOne(d: AsData, x: Rq)
    requires Inv(d) && d.out == {x}
    ensures d.nrDispatched == 1
  {
    hide HalfOk;
  }

  lemma ActivateShape(d: AsData, queued: map<nat, Rq>, batchSync: bool, changed: bool, newBatch: bool, x: Rq)
    requires Shape(d, queued, batchSync, changed, newBatch, {x}, {})
    ensures Shape(Step(d, Activate(x)), queued, batchSync, changed, newBatch, {x}, {x})
  {
    StepInv(d, Activate(x));
    StepUnmixed(d, Activate(x));
  }

  lemma TurnShape(d: AsData, o: Oracle)
    requires Shape(d, map[64 := B], true, false, false, {A}, {A}) && o == QUIET.(batchExpired := true)
    ensures Shape(DispatchOne(d, o).0, map[64 := B], false, true, false, {A}, {A}) && !DispatchOne(d, o).1
  {
    hide Inv, Unmixed, DispatchOne;
    ShapeQueued(d, map[64 := B], true, false, false, {A}, {A});
    assert 64 in d.sy.tree;
    DispatchIs(d, o);
    DispatchServes(d, o);
  }

  /** How often the batch turned from reads to writes. */
  function TurnsToWrites(cs: seq<Clocked>): (n: nat) {
    var k := |cs|;
    if k < 2 then 0
    else TurnsToWrites(cs[..k - 1]) + if cs[k - 2].d.batchSync && !cs[k - 1].d.batchSync then 1 else 0
  }

  datatype History = History(cs: seq<Clocked>, ops: seq<Op>, times: seq<nat>)

  /** A run in which the write is queued from the first step on and the batch has turned `n` times. */
  ghost predicate Starves(t: Tuning, h: History, n: nat) {
    && ClockRun(t, h.cs, h.ops, h.times)
    && (forall k :: 1 <= k < |h.cs| ==> InQueue(h.cs[k].d, W))
    && TurnsToWrites(h.cs) == n
  }

  function Now(h: History): (c: Clocked) {
    if h.cs == [] then Clocked(InitAs(), 0, 0) else h.cs[|h.cs| - 1]
  }

  function Time(h: History): (now: nat) {
    if h.times == [] then 0 else h.times[|h.times| - 1]
  }

  function Push(t: Tuning, h: History, op: Op, now: nat): (h': History) {
    History(h.cs + [ClockStep(t, Now(h), op, now)], h.ops + [op], h.times + [now])
  }

  lemma Pushed(t: Tuning, h: History, n: nat, op: Op, now: nat)
    requires Starves(t, h, n) && ClockEnabled(Now(h), op, now) && Time(h) <= now
    requires InQueue(ClockStep(t, Now(h), op, now).d, W)
    ensures var h' := Push(t, h, op, now);
            var c, c' := Now(h), ClockStep(t, Now(h), op, now);
            && Starves(t, h', n + if c.d.batchSync && !c'.d.batchSync then 1 else 0)
            && Now(h') == c' && Time(h') == now
  {
    hide ClockStep, ClockEnabled, InQueue;
    var h' := Push(t, h, op, now);
    var k := |h.cs|;
    assert h'.cs[..k] == h.cs;
    assert forall i :: 0 <= i < k ==> h'.cs[i] == h.cs[i];
    forall i | 0 <= i < |h'.ops|
      ensures ClockEnabled(h'.cs[i], h'.ops[i], h'.times[i])
      ensures h'.cs[i + 1] == ClockStep(t, h'.cs[i], h'.ops[i], h'.times[i])
    {
      if i < |h.ops| { assert h.cs[i + 1] == ClockStep(t, h.cs[i], h.ops[i], h.times[i]); }
    }
  }

  /** The batch of reads expires with a read on the device; the read completes. */
  lemma Waits(t: Tuning, h: History, n: nat) returns (h': History)
    requires Starves(t, h, n) && Shape(Now(h).d, map[64 := B], true, false, false, {A}, {A})
    ensures Starves(t, h', n + 1) && Shape(Now(h').d, map[64 := B], false, false, false, {}, {})
    ensures Time(h') > Now(h').expires
  {
    hide Starves, Shape, DispatchOne, Completed, Push, InQueue;
    var c := Now(h);
    var now := (if Time(h) > c.expires then Time(h) else c.expires) + 1;
    var o := QUIET.(batchExpired := true);
    FlagsOf(c.d, map[64 := B], true, false, false, {A}, {A});
    TurnShape(c.d, o);
    var c1 := ClockStep(t, c, Dispatch(o), now);
    FlagsOf(c1.d, map[64 := B], false, true, false, {A}, {A});
    Pushed(t, h, n, Dispatch(o), now);
    h' := Push(t, h, Dispatch(o), now);
    CompleteShape(c1.d, map[64 := B], false, true, false, A);
    var c2 := ClockStep(t, c1, Complete(A), now);
    FlagsOf(c2.d, map[64 := B], false, false, false, {}, {});
    Pushed(t, h', n + 1, Complete(A), now);
    h' := Push(t, h', Complete(A), now);
  }

  /** The next dispatch turns back to reads, whose clock starts with the first completion. */
  lemma Back(t: Tuning, h: History, n: nat) returns (h': History)
    requires Starves(t, h, n) && Shape(Now(h).d, map[64 := B], false, false, false, {}, {}) && Time(h) > Now(h).expires
    ensures Starves(t, h', n) && Shape(Now(h').d, map[8 := A], true, false, false, {}, {})
    ensures Time(h') <= Now(h').expires
  {
    hide Starves, Shape, DispatchOne, Completed, AddRq, Push, InQueue;
    var c, now := Now(h), Time(h);
    var o := QUIET.(batchExpired := true);
    FlagsOf(c.d, map[64 := B], false, false, false, {}, {});
    ServeShape(c.d, B, false, false, o);
    var c1 := ClockStep(t, c, Dispatch(o), now);
    FlagsOf(c1.d, map[], true, false, true, {B}, {});
    Pushed(t, h, n, Dispatch(o), now);
    h' := Push(t, h, Dispatch(o), now);
    ActivateShape(c1.d, map[], true, false, true, B);
    var c2 := ClockStep(t, c1, Activate(B), now);
    FlagsOf(c2.d, map[], true, false, true, {B}, {B});
    Pushed(t, h', n, Activate(B), now);
    h' := Push(t, h', Activate(B), now);
    AddShape(c2.d, map[], true, true, {B}, {B}, A);
    var c3 := ClockStep(t, c2, Add(A), now);
    FlagsOf(c3.d, map[8 := A], true, false, true, {B}, {B});
    Pushed(t, h', n, Add(A), now);
    h' := Push(t, h', Add(A), now);
    CompleteShape(c3.d, map[8 := A], true, false, true, B);
    var c4 := ClockStep(t, c3, Complete(B), now);
    FlagsOf(c4.d, map[8 := A], true, false, false, {}, {});
    Pushed(t, h', n, Complete(B), now);
    h' := Push(t, h', Complete(B), now);
  }

  /** A read goes to the device before the new batch expires, and another one comes. */
  lemma Refill(t: Tuning, h: History, n: nat) returns (h': History)
    requires Starves(t, h, n) && Shape(Now(h).d, map[8 := A], true, false, false, {}, {}) && Time(h) <= Now(h).expires
    ensures Starves(t, h', n) && Shape(Now(h').d, map[64 := B], true, false, false, {A}, {A})
  {
    hide Starves, Shape, DispatchOne, AddRq, Push, InQueue;
    var c, now := Now(h), Time(h);
    FlagsOf(c.d, map[8 := A], true, false, false, {}, {});
    ServeShape(c.d, A, true, false, QUIET);
    var c1 := ClockStep(t, c, Dispatch(QUIET), now);
    FlagsOf(c1.d, map[], true, false, false, {A}, {});
    Pushed(t, h, n, Dispatch(QUIET), now);
    h' := Push(t, h, Dispatch(QUIET), now);
    ActivateShape(c1.d, map[], true, false, false, A);
    var c2 := ClockStep(t, c1, Activate(A), now);
    FlagsOf(c2.d, map[], true, false, false, {A}, {A});
    Pushed(t, h', n, Activate(A), now);
    h' := Push(t, h', Activate(A), now);
    AddShape(c2.d, map[], true, false, {A}, {A}, B);
    var c3 := ClockStep(t, c2, Add(B), now);
    FlagsOf(c3.d, map[64 := B], true, false, false, {A}, {A});
    Pushed(t, h', n, Add(B), now);
    h' := Push(t, h', Add(B), now);
  }

  lemma FlagsOf(d: AsData, queued: map<nat, Rq>, batchSync: bool, changed: bool, newBatch: bool, out: set<Rq>,
                active: set<Rq>)
    requires Shape(d, queued, batchSync, changed, newBatch, out, active)
    ensures InQueue(d, W) && d.batchSync == batchSync && d.changed == changed && d.newBatch == newBatch
    ensures d.out == out && d.active == active && d.asy.fifo != []
  {
    assert 128 in d.asy.tree;
    HeadsAre(d, false);
  }

  /** The write, then a first read on the device and a second one queued. */
  lemma Beginning(t: Tuning) returns (h: History)
    ensures Starves(t, h, 0) && Shape(Now(h).d, map[64 := B], true, false, false, {A}, {A})
  {
    hide Starves, Shape, DispatchOne, AddRq, Push, InQueue;
    h := History([Clocked(InitAs(), t.readBatch, 0)], [], []);
    assert Starves(t, h, 0) by { Nothing(t, h); }
    FirstWrite();
    var c := Now(h);
    var c1 := ClockStep(t, c, Add(W), 0);
    FlagsOf(c1.d, map[], true, false, false, {}, {});
    Pushed(t, h, 0, Add(W), 0);
    h := Push(t, h, Add(W), 0);
    AddShape(c1.d, map[], true, false, {}, {}, A);
    var c2 := ClockStep(t, c1, Add(A), 0);
    FlagsOf(c2.d, map[8 := A], true, false, false, {}, {});
    Pushed(t, h, 0, Add(A), 0);
    h := Push(t, h, Add(A), 0);
    h := Refill(t, h, 0);
  }

  lemma Nothing(t: Tuning, h: History)
    requires h == History([Clocked(InitAs(), t.readBatch, 0)], [], [])
    ensures Starves(t, h, 0)
  {
  }

  lemma FirstWrite()
    ensures MayAdd(InitAs(), W) && Shape(AddRq(InitAs(), W), map[], true, false, false, {}, {})
  {
    hide HalfOk, AddRq;
    var d := InitAs();
    InitInv();
    assert MayAdd(d, W);
    AddInv(d, W);
    EvictInv(d, W);
    EvictionKeepsBatches(d, W);
  }

  /** With any tuning and any number of expired batches of reads, each turning the batch to writes, the
      write need never be served. */
  lemma {:induction false} WritesStarve(t: Tuning, n: nat) returns (h: History)
    ensures Starves(t, h, n) && Shape(Now(h).d, map[64 := B], true, false, false, {A}, {A})
  {
    if n == 0 {
      h := Beginning(t);
    } else {
      h := WritesStarve(t, n - 1);
      h := Waits(t, h, n - 1);
      h := Back(t, h, n);
      h := Refill(t, h, n);
    }
  }
}
