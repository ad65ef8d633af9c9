/** The queue of asynchronous cipher requests, with its bounded part and its backlog, and the thread
    that serves it. A request is its identity. */
module CryptoQueue {

  import opened Collections

  /** `struct crypto_queue`; `backlog` points to a request, or to the list head (`None`). */
  datatype Queue = Queue(list: seq<nat>, backlog: Option<nat>, qlen: nat, max: nat)

  /** What `crypto_enqueue_request` answers: accepted, accepted for later, or turned away. */
  datatype Answer = InProgress | BusyQueued | Busy

  function Init(max: nat): (q: Queue) {
    Queue([], None, 0, max)
  }

  /** `crypto_enqueue_request`. */
  function Enqueue(q: Queue, id: nat, mayBacklog: bool): (r: (Queue, Answer)) {
    if q.qlen >= q.max then
      if !mayBacklog then (q, Busy)
      else
        var backlog := if q.backlog.None? then Some(id) else q.backlog;
        (q.(backlog := backlog, qlen := q.qlen + 1, list := q.list + [id]), BusyQueued)
    else (q.(qlen := q.qlen + 1, list := q.list + [id]), InProgress)
  }

  /** The request behind `id`, or the list head. */
  function NextOf(list: seq<nat>, id: nat): (n: Option<nat>) {
    if |list| < 2 then None
    else if list[0] == id then Some(list[1])
    else NextOf(list[1..], id)
  }

  /** `crypto_dequeue_request`. */
  function Dequeue(q: Queue): (r: (Queue, Option<nat>)) {
    if q.qlen == 0 || q.list == [] then (q, None)
    else (q.(qlen := q.qlen - 1, backlog := if q.backlog.Some? then NextOf(q.list, q.backlog.value) else None,
             list := q.list[1..]),
          Some(q.list[0]))
  }

  /** What the serving thread is about to do. */
  datatype Thread = Idle | Notifying(req: nat, backlog: nat) | Completing(req: nat)

  /** Queue, thread, and what callers have been told so far: the accepted requests in order, those of
      them that were told to wait, the deliveries of in-progress and of final completion. */
  datatype State = State(
    queue: Queue,
    thread: Thread,
    accepted: seq<nat>,
    waiting: set<nat>,
    notes: seq<nat>,
    dones: seq<nat>)

  datatype Op = Submit(id: nat, mayBacklog: bool) | Take | Notify | Complete

  predicate Enabled(s: State, op: Op) {
    match op
    case Submit(id, _) => id !in s.accepted
    case Take => s.thread.Idle?
    case Notify => s.thread.Notifying?
    case Complete => s.thread.Completing?
  }

  /** `Take` is the locked part of the thread's loop; the callbacks follow outside the lock, and
      submissions may come between any two steps. */
  function Step(s: State, op: Op): (s': State) {
    match op
    case Submit(id, may) =>
      var (q, a) := Enqueue(s.queue, id, may);
      if a.Busy? then s.(queue := q)
      else s.(queue := q, accepted := s.accepted + [id],
              waiting := if a.BusyQueued? then s.waiting + {id} else s.waiting)
    case Take =>
      var backlog := s.queue.backlog;
      var (q, r) := Dequeue(s.queue);
      if r.None? then s.(queue := q)
      else s.(queue := q, thread := if backlog.Some? then Notifying(r.value, backlog.value) else Completing(r.value))
    case Notify =>
      if s.thread.Notifying? then s.(notes := s.notes + [s.thread.backlog], thread := Completing(s.thread.req)) else s
    case Complete =>
      if s.thread.Completing? then s.(dones := s.dones + [s.thread.req], thread := Idle) else s
  }

  // ---- The queue ----

  /** The backlog pointer sits at position `max`, or at the list head when nothing is there. */
  ghost predicate QueueOk(q: Queue) {
    && q.qlen == |q.list|
    && Distinct(q.list)
    && q.backlog == if |q.list| > q.max then Some(q.list[q.max]) else None
  }

  lemma {:induction false} NextOfIs(l: seq<nat>, k: nat)
    requires k < |l| && Distinct(l)
    ensures NextOf(l, l[k]) == if k + 1 < |l| then Some(l[k + 1]) else None
  {
    if |l| >= 2 && k > 0 {
      assert l[1..][k - 1] == l[k];
      NextOfIs(l[1..], k - 1);
    }
  }

  lemma EnqueueKeeps(q: Queue, id: nat, may: bool)
    requires QueueOk(q) && id !in q.list
    ensures var (q', a) := Enqueue(q, id, may);
            && QueueOk(q') && q'.max == q.max
            && q'.list == (if a.Busy? then q.list else q.list + [id])
            && (a.InProgress? <==> |q.list| < q.max) && (a.Busy? ==> !may)
  {
  }

  lemma DequeueKeeps(q: Queue)
    requires QueueOk(q)
    ensures var (q', r) := Dequeue(q);
            && QueueOk(q') && q'.max == q.max
            && (r.None? <==> q.list == []) && (r.None? ==> q' == q)
            && (r.Some? ==> r.value == q.list[0] && q'.list == q.list[1..])
  {
    if q.list != [] && q.backlog.Some? { NextOfIs(q.list, q.max); }
  }

  // ---- The protocol ----

  /** The request in the thread's hands. */
  function InHand(s: State): (l: seq<nat>) {
    if s.thread.Idle? then [] else [s.thread.req]
  }

  /** Told to wait, and not yet told that it is in progress. */
  ghost predicate Unnotified(s: State, x: nat) {
    || (s.thread.Notifying? && s.thread.backlog == x)
    || exists i :: s.queue.max <= i < |s.queue.list| && s.queue.list[i] == x
  }

  /** Served in order: done, then in hand, then queued. */
  ghost predicate InOrder(s: State) {
    Distinct(s.accepted) && s.accepted == s.dones + InHand(s) + s.queue.list
  }

  ghost predicate NotesOk(s: State) {
    && Distinct(s.notes)
    && (forall x :: x in s.waiting ==> x in s.accepted)
    && (forall x :: x in s.notes <==> x in s.waiting && !Unnotified(s, x))
    && (forall i :: s.queue.max <= i < |s.queue.list| ==> s.queue.list[i] in s.waiting)
  }

  ghost predicate PendingOk(s: State) {
    s.thread.Notifying? ==>
      && s.thread.backlog in s.waiting
      && (s.thread.backlog == s.thread.req || s.thread.backlog in s.queue.list)
      && forall i :: s.queue.max <= i < |s.queue.list| ==> s.queue.list[i] != s.thread.backlog
  }

  ghost predicate Inv(s: State) {
    QueueOk(s.queue) && InOrder(s) && NotesOk(s) && PendingOk(s)
  }

  lemma InitInv(max: nat)
    ensures Inv(State(Init(max), Idle, [], {}, [], []))
  {
  }

  lemma SubmitUnnotified(s: State, id: nat, may: bool, x: nat)
    requires QueueOk(s.queue) && id !in s.queue.list && !Enqueue(s.queue, id, may).1.Busy?
    ensures Unnotified(Step(s, Submit(id, may)), x) <==>
            Unnotified(s, x) || (x == id && Enqueue(s.queue, id, may).1.BusyQueued?)
  {
    hide Enqueue, QueueOk;
    EnqueueKeeps(s.queue, id, may);
    var (q, a) := Enqueue(s.queue, id, may);
    if Unnotified(s, x) && !(s.thread.Notifying? && s.thread.backlog == x) {
      var i :| s.queue.max <= i < |s.queue.list| && s.queue.list[i] == x;
      assert q.list[i] == x;
    }
    if x == id && a.BusyQueued? { assert q.list[|s.queue.list|] == id; }
  }

  lemma SubmitInv(s: State, id: nat, may: bool)
    requires Inv(s) && id !in s.accepted
    ensures Inv(Step(s, Submit(id, may)))
  {
    hide Enqueue, QueueOk, Unnotified;
    InQueue(s);
    EnqueueKeeps(s.queue, id, may);
    var (q, a) := Enqueue(s.queue, id, may);
    var s' := Step(s, Submit(id, may));
    if !a.Busy? {
      assert s'.accepted == s'.dones + InHand(s') + s'.queue.list;
      forall x ensures Unnotified(s', x) <==> Unnotified(s, x) || (x == id && a.BusyQueued?) {
        SubmitUnnotified(s, id, may, x);
      }
    } else {
      forall x ensures Unnotified(s', x) <==> Unnotified(s, x) { SubmitRefused(s, id, may, x); }
    }
  }

  lemma SubmitRefused(s: State, id: nat, may: bool, x: nat)
    requires Enqueue(s.queue, id, may).1.Busy?
    ensures Unnotified(Step(s, Submit(id, may)), x) <==> Unnotified(s, x)
  {
  }

  lemma InQueue(s: State)
    requires Inv(s)
    ensures forall x :: x in s.queue.list || x in s.dones || x in InHand(s) ==> x in s.accepted
  {
  }

  lemma TakeShape(s: State)
    requires QueueOk(s.queue) && s.thread.Idle?
    ensures var s' := Step(s, Take);
            && QueueOk(s'.queue) && s'.queue.max == s.queue.max
            && s'.accepted == s.accepted && s'.waiting == s.waiting && s'.notes == s.notes && s'.dones == s.dones
            && (s.queue.list == [] ==> s' == s)
            && (s.queue.list != [] ==> s'.queue.list == s.queue.list[1..])
            && (s.queue.list != [] && |s.queue.list| > s.queue.max ==>
                 s'.thread == Notifying(s.queue.list[0], s.queue.list[s.queue.max]))
            && (s.queue.list != [] && |s.queue.list| <= s.queue.max ==> s'.thread == Completing(s.queue.list[0]))
  {
    DequeueKeeps(s.queue);
  }

  lemma TakeUnnotified(s: State, x: nat)
    requires QueueOk(s.queue) && s.thread.Idle? && s.queue.list != []
    ensures Unnotified(Step(s, Take), x) <==> Unnotified(s, x)
  {
    hide Step, QueueOk;
    TakeShape(s);
    var s' := Step(s, Take);
    var l, l' := s.queue.list, s'.queue.list;
    assert forall i :: 0 <= i < |l'| ==> l'[i] == l[i + 1];
    if Unnotified(s, x) {
      var i :| s.queue.max <= i < |l| && l[i] == x;
      if i > s.queue.max { assert l'[i - 1] == x; }
    }
    if Unnotified(s', x) && !(s'.thread.Notifying? && s'.thread.backlog == x) {
      var i :| s.queue.max <= i < |l'| && l'[i] == x;
      assert l[i + 1] == x;
    }
  }

  lemma TakeOrder(s: State)
    requires Inv(s) && s.thread.Idle? && s.queue.list != []
    ensures InOrder(Step(s, Take)) && PendingOk(Step(s, Take))
  {
    hide Step, NotesOk;
    TakeShape(s);
    var s' := Step(s, Take);
    var l, l' := s.queue.list, s'.queue.list;
    assert l == [l[0]] + l';
    assert s'.accepted == s'.dones + InHand(s') + s'.queue.list;
    if s'.thread.Notifying? {
      assert l[s.queue.max] in s.waiting by { NoteOf(s, s.queue.max); }
      if s.queue.max > 0 { assert l'[s.queue.max - 1] == s'.thread.backlog; }
    }
  }

  lemma NoteOf(s: State, i: nat)
    requires NotesOk(s) && s.queue.max <= i < |s.queue.list|
    ensures s.queue.list[i] in s.waiting
  {
  }

  lemma TakeInv(s: State)
    requires Inv(s) && s.thread.Idle?
    ensures Inv(Step(s, Take))
  {
    hide Step, Unnotified, InOrder, PendingOk;
    TakeShape(s);
    var s' := Step(s, Take);
    if s.queue.list != [] {
      TakeOrder(s);
      assert forall i :: 0 <= i < |s'.queue.list| ==> s'.queue.list[i] == s.queue.list[i + 1];
      forall x ensures Unnotified(s', x) <==> Unnotified(s, x) { TakeUnnotified(s, x); }
    }
  }

  lemma NotifyInv(s: State)
    requires Inv(s) && s.thread.Notifying?
    ensures Inv(Step(s, Notify))
  {
    hide QueueOk;
    var s' := Step(s, Notify);
    assert s.thread.backlog !in s.notes by { assert Unnotified(s, s.thread.backlog); }
    forall x ensures Unnotified(s', x) <==> Unnotified(s, x) && x != s.thread.backlog {
      assert s'.queue == s.queue;
    }
    assert s'.notes == s.notes + [s.thread.backlog];
    assert forall x :: x in s'.notes <==> x in s.notes || x == s.thread.backlog;
  }

  lemma CompleteInv(s: State)
    requires Inv(s) && s.thread.Completing?
    ensures Inv(Step(s, Complete))
  {
    hide QueueOk;
    var s' := Step(s, Complete);
    assert s'.accepted == s'.dones + InHand(s') + s'.queue.list;
    assert forall x :: Unnotified(s', x) <==> Unnotified(s, x);
  }

  ghost predicate IsRun(run: seq<State>, ops: seq<Op>, max: nat) {
    && |run| == |ops| + 1
    && run[0] == State(Init(max), Idle, [], {}, [], [])
    && forall i :: 0 <= i < |ops| ==> Enabled(run[i], ops[i]) && run[i + 1] == Step(run[i], ops[i])
  }

  lemma {:induction false} RunInv(run: seq<State>, ops: seq<Op>, max: nat, n: nat)
    requires IsRun(run, ops, max) && n < |run|
    ensures Inv(run[n])
  {
    hide Inv, Step;
    if n == 0 {
      InitInv(max);
    } else {
      RunInv(run, ops, max, n - 1);
      var s := run[n - 1];
      assert run[n - 1 + 1] == Step(s, ops[n - 1]);
      match ops[n - 1]
      case Submit(id, may) => SubmitInv(s, id, may);
      case Take => TakeInv(s);
      case Notify => NotifyInv(s);
      case Complete => CompleteInv(s);
    }
  }

  /** In every run: the backlog pointer is where it belongs; requests are served in the order they
      were accepted, each once; nobody is told to be in progress twice, and among the finished
      requests exactly those once told to wait have been told. */
  lemma Protocol(run: seq<State>, ops: seq<Op>, max: nat, n: nat)
    requires IsRun(run, ops, max) && n < |run|
    ensures QueueOk(run[n].queue)
    ensures run[n].dones <= run[n].accepted && Distinct(run[n].dones) && Distinct(run[n].notes)
    ensures forall x :: x in run[n].notes ==> x in run[n].waiting
    ensures forall x :: x in run[n].dones ==> (x in run[n].notes <==> x in run[n].waiting)
  {
    RunInv(run, ops, max, n);
    var s := run[n];
    assert s.accepted == s.dones + (InHand(s) + s.queue.list);
    forall x | x in s.dones ensures !Unnotified(s, x) {
      DoneIsNotified(s, x);
    }
  }

  lemma DoneIsNotified(s: State, x: nat)
    requires Inv(s) && x in s.dones
    ensures !Unnotified(s, x)
  {
    var k :| 0 <= k < |s.dones| && s.dones[k] == x;
    assert s.accepted[k] == x;
    var o := |s.dones| + |InHand(s)|;
    forall i | 0 <= i < |s.queue.list| ensures s.queue.list[i] != x {
      assert s.accepted[o + i] == s.queue.list[i];
    }
    if !s.thread.Idle? { assert s.accepted[|s.dones|] == s.thread.req; }
  }

  /** A request that was told to wait is told that it is in progress before it is completed. */
  lemma NotedBeforeDone(s: State)
    requires Inv(s) && s.thread.Completing?
    ensures s.thread.req in s.waiting ==> s.thread.req in s.notes
    ensures s.thread.req !in s.dones
  {
    var k := |s.dones|;
    assert s.accepted[k] == s.thread.req;
    forall i | 0 <= i < |s.queue.list| ensures s.queue.list[i] != s.thread.req {
      assert s.accepted[k + 1 + i] == s.queue.list[i];
    }
    forall i | 0 <= i < |s.dones| ensures s.dones[i] != s.thread.req { assert s.accepted[i] == s.dones[i]; }
  }

  /** One round of the idle thread: take a request, notify the one that enters the queue proper, and
      complete. */
  ghost function Served(s: State): (s': State) {
    var a := Step(s, Take);
    Step(if a.thread.Notifying? then Step(a, Notify) else a, Complete)
  }

  lemma ServedOne(s: State)
    requires Inv(s) && s.thread.Idle? && s.queue.list != []
    ensures var s' := Served(s);
            && Inv(s') && s'.thread.Idle? && s'.accepted == s.accepted
            && s'.dones == s.dones + [s.queue.list[0]] && s'.queue.list == s.queue.list[1..]
  {
    hide QueueOk, InOrder, NotesOk, PendingOk, Dequeue;
    TakeShape(s);
    TakeInv(s);
    var a := Step(s, Take);
    if a.thread.Notifying? { NotifyInv(a); CompleteInv(Step(a, Notify)); } else { CompleteInv(a); }
  }

  ghost function ServedTimes(s: State, k: nat): (s': State)
    decreases k
  {
    if k == 0 then s else ServedTimes(Served(s), k - 1)
  }

  /** Whatever has been accepted is done in the end: as many rounds as requests are queued complete all
      of them, in the order of acceptance, and everyone told to wait has been notified. */
  lemma {:induction false} AllServed(s: State)
    requires Inv(s) && s.thread.Idle?
    ensures var s' := ServedTimes(s, |s.queue.list|);
            && s'.queue.list == [] && s'.thread.Idle? && s'.dones == s.accepted
            && forall x :: x in s.waiting <==> x in s'.notes
    decreases |s.queue.list|
  {
    if s.queue.list == [] {
      assert s.accepted == s.dones;
    } else {
      hide Served, QueueOk, InOrder, NotesOk, PendingOk;
      ServedOne(s);
      AllServed(Served(s));
      ServedWaiting(s);
    }
  }

  lemma ServedWaiting(s: State)
    ensures Served(s).waiting == s.waiting
  {
  }

  /** The queue as it is kept, in place. */
  class CryptoQueue {

    var q: Queue

    constructor (max: nat)
      ensures q == Init(max) && QueueOk(q)
    {
      q := Init(max);
    }

    method EnqueueRequest(id: nat, mayBacklog: bool) returns (a: Answer)
      requires QueueOk(q) && id !in q.list
      modifies this
      ensures (q, a) == Enqueue(old(q), id, mayBacklog) && QueueOk(q)
      ensures a.Busy? <==> |old(q).list| >= q.max && !mayBacklog
    {
      EnqueueKeeps(q, id, mayBacklog);
      a := InProgress;
      if q.qlen >= q.max {
        if !mayBacklog { return Busy; }
        a := BusyQueued;
        if q.backlog.None? { q := q.(backlog := Some(id)); }
      }
      q := q.(qlen := q.qlen + 1);
      q := q.(list := q.list + [id]);
    }

    method DequeueRequest() returns (r: Option<nat>)
      requires QueueOk(q)
      modifies this
      ensures (q, r) == Dequeue(old(q)) && QueueOk(q)
      ensures old(q).list == [] ==> r.None?
      ensures old(q).list != [] ==> r == Some(old(q).list[0]) && q.list == old(q).list[1..]
    {
      DequeueKeeps(q);
      if q.qlen == 0 { return None; }
      q := q.(qlen := q.qlen - 1);
      if q.backlog.Some? { q := q.(backlog := NextOf(q.list, q.backlog.value)); }
      r := Some(q.list[0]);
      q := q.(list := q.list[1..]);
    }
  }
}
