/** Which request of a queue CFQ prefers, and when the one it has cached is the best. */
module CfqChoice {

  import opened Collections
  import opened Cfq
  import opened CfqSafety

  // ---- The order ----

  /** Synchronous requests before others, and metadata before other data. */
  function Kind(i: Info): (n: nat) {
    match (i.sync, i.meta)
    case (true, true) => 0
    case (true, false) => 1
    case (false, true) => 2
    case (false, false) => 3
  }

  /** Ahead of the head, a short way behind it, or far behind. */
  datatype Zone = Ahead | Behind | Far

  /** `backMax` counts KiB, of two sectors each. */
  function ZoneOf(t: Tuning, last: nat, s: nat): (z: Zone) {
    if last <= s then Ahead else if last - s <= 2 * t.backMax then Behind else Far
  }

  function Cost(t: Tuning, last: nat, s: nat): (c: nat) {
    if last <= s then s - last else (last - s) * t.backPenalty
  }

  /** Far requests come last, from the lowest sector up; the others by their distance, which counts more
      behind the head, and of two as far the higher sector first. */
  ghost predicate Nearer(t: Tuning, last: nat, a: nat, b: nat) {
    match (ZoneOf(t, last, a), ZoneOf(t, last, b))
    case (Far, Far) => a < b
    case (Far, _) => false
    case (_, Far) => true
    case (_, _) => Cost(t, last, a) < Cost(t, last, b) || (Cost(t, last, a) == Cost(t, last, b) && a > b)
  }

  ghost predicate Better(t: Tuning, last: nat, a: Info, b: Info) {
    Kind(a) < Kind(b) || (Kind(a) == Kind(b) && Nearer(t, last, a.sector, b.sector))
  }

  /** The choice is by this order, which is strict and total between different sectors. */
  lemma ChoiceIsOrder(t: Tuning, last: nat, a: Info, b: Info, c: Info)
    ensures First(t, last, a, b) <==> Better(t, last, a, b) || (Kind(a) == Kind(b) && a.sector == b.sector)
    ensures !(Better(t, last, a, b) && Better(t, last, b, a))
    ensures a.sector != b.sector ==> Better(t, last, a, b) || Better(t, last, b, a)
    ensures Better(t, last, a, b) && Better(t, last, b, c) ==> Better(t, last, a, c)
  {
    NearerIsOrder(t, last, a.sector, b.sector, c.sector);
    FirstIs(t, last, a, b);
  }

  lemma NearerIsOrder(t: Tuning, last: nat, a: nat, b: nat, c: nat)
    ensures !(Nearer(t, last, a, b) && Nearer(t, last, b, a))
    ensures a != b ==> Nearer(t, last, a, b) || Nearer(t, last, b, a)
    ensures Nearer(t, last, a, b) && Nearer(t, last, b, c) ==> Nearer(t, last, a, c)
  {
    hide Cost;
  }

  lemma FirstIs(t: Tuning, last: nat, a: Info, b: Info)
    ensures First(t, last, a, b) <==> Better(t, last, a, b) || (Kind(a) == Kind(b) && a.sector == b.sector)
  {
  }

  // ---- The best request ----

  /** `id` is queued and goes before everything else. */
  ghost predicate IsBest(t: Tuning, last: nat, rqs: map<nat, Info>, id: nat) {
    id in rqs && forall x :: x in rqs && x != id ==> Better(t, last, rqs[id], rqs[x])
  }

  ghost predicate SectorsDiffer(rqs: map<nat, Info>) {
    forall x, y :: x in rqs && y in rqs && x != y ==> rqs[x].sector != rqs[y].sector
  }

  lemma SortSectors(q: Queue)
    requires SortOk(q)
    ensures SectorsDiffer(q.rqs)
  {
  }

  /** The better of two queued requests. */
  lemma ChooseIs(t: Tuning, last: nat, rqs: map<nat, Info>, a: nat, b: nat)
    requires a in rqs && b in rqs && SectorsDiffer(rqs)
    ensures var c := ChooseRq(t, last, rqs, Some(a), Some(b));
            && c.Some? && c.value in {a, b}
            && (a != b ==> c == Some(if Better(t, last, rqs[a], rqs[b]) then a else b))
  {
    hide First, Better;
    ChoiceIsOrder(t, last, rqs[a], rqs[b], rqs[b]);
  }

  /** After an insertion the cached request is best exactly when it was before, or the new one is. */
  lemma InsertBestIff(t: Tuning, last: nat, q: Queue, id: nat, i: Info)
    requires SortOk(q) && id !in q.rqs && i.sector !in q.sort && q.next.Some? && q.next.value in q.rqs
    ensures var q' := PutIn(t, last, q, id, i);
            && q'.next.Some? && q'.next.value in q'.rqs
            && (IsBest(t, last, q'.rqs, q'.next.value) <==>
                  IsBest(t, last, q.rqs, q.next.value) || IsBest(t, last, q'.rqs, id))
  {
    hide Better, First;
    var q', n := PutIn(t, last, q, id, i), q.next.value;
    var rqs := q'.rqs;
    SortSectors(q);
    assert SectorsDiffer(rqs) by {
      forall x | x in q.rqs ensures q.rqs[x].sector != i.sector { assert q.rqs[x].sector in q.sort; }
    }
    ChooseIs(t, last, rqs, n, id);
    forall x, y, z | x in rqs && y in rqs && z in rqs ensures
      && !(Better(t, last, rqs[x], rqs[y]) && Better(t, last, rqs[y], rqs[x]))
      && (x != y ==> Better(t, last, rqs[x], rqs[y]) || Better(t, last, rqs[y], rqs[x]))
      && (Better(t, last, rqs[x], rqs[y]) && Better(t, last, rqs[y], rqs[z]) ==> Better(t, last, rqs[x], rqs[z]))
    {
      ChoiceIsOrder(t, last, rqs[x], rqs[y], rqs[z]);
    }
    if IsBest(t, last, rqs, n) {
      forall x | x in q.rqs && x != n ensures Better(t, last, q.rqs[n], q.rqs[x]) { assert rqs[x] == q.rqs[x]; }
    }
  }

  // ---- After a removal ----

  /** The neighbours of a request in order of sectors: the next one above, or the lowest of all; and the
      next one below. */
  ghost predicate IsAfter(q: Queue, id: nat, x: nat) {
    && id in q.rqs && x in q.rqs && x != id
    && if exists y :: y in q.rqs && q.rqs[y].sector > q.rqs[id].sector
       then q.rqs[x].sector > q.rqs[id].sector
            && forall y :: y in q.rqs && q.rqs[y].sector > q.rqs[id].sector ==> q.rqs[x].sector <= q.rqs[y].sector
       else forall y :: y in q.rqs ==> q.rqs[x].sector <= q.rqs[y].sector
  }

  ghost predicate IsBefore(q: Queue, id: nat, x: nat) {
    && id in q.rqs && x in q.rqs && q.rqs[x].sector < q.rqs[id].sector
    && forall y :: y in q.rqs && q.rqs[y].sector < q.rqs[id].sector ==> q.rqs[y].sector <= q.rqs[x].sector
  }

  function After(q: Queue, id: nat): (r: Option<nat>)
    requires id in q.rqs
  {
    var s := q.rqs[id].sector;
    var after, first := Above(q.sort, s + 1), Above(q.sort, 0);
    if after.Some? then after else if first == Some(id) then None else first
  }

  lemma AfterIs(q: Queue, id: nat, x: nat)
    requires SortOk(q) && id in q.rqs
    ensures IsAfter(q, id, x) <==> After(q, id) == Some(x)
  {
    var s := q.rqs[id].sector;
    var after, first := Above(q.sort, s + 1), Above(q.sort, 0);
    if after.Some? {
      assert after.value in q.rqs && q.rqs[after.value].sector > s;
      forall y | y in q.rqs && q.rqs[y].sector > s ensures q.rqs[after.value].sector <= q.rqs[y].sector {
        assert q.rqs[y].sector in q.sort;
      }
    } else {
      forall y | y in q.rqs ensures q.rqs[y].sector <= s { assert q.rqs[y].sector in q.sort; }
      assert first.Some? && first.value in q.rqs;
      forall y | y in q.rqs ensures q.rqs[first.value].sector <= q.rqs[y].sector { assert q.rqs[y].sector in q.sort; }
    }
    if IsAfter(q, id, x) { assert q.sort[q.rqs[x].sector] == x; }
  }

  lemma BeforeIs(q: Queue, id: nat, x: nat)
    requires SortOk(q) && id in q.rqs
    ensures IsBefore(q, id, x) <==> Below(q.sort, q.rqs[id].sector) == Some(x)
  {
    var s := q.rqs[id].sector;
    var prev := Below(q.sort, s);
    if prev.Some? {
      forall y | y in q.rqs && q.rqs[y].sector < s ensures q.rqs[y].sector <= q.rqs[prev.value].sector {
        assert q.rqs[y].sector in q.sort;
      }
    }
    if IsBefore(q, id, x) { assert q.sort[q.rqs[x].sector] == x; }
  }

  /** The search looks at the neighbours and takes the better one. */
  lemma FindTakesNeighbour(t: Tuning, last: nat, q: Queue, id: nat, x: nat)
    requires SortOk(q) && id in q.rqs
    ensures var r := FindNextRq(t, last, q, id);
            && (r == Some(x) ==> IsAfter(q, id, x) || IsBefore(q, id, x))
            && (IsAfter(q, id, x) || IsBefore(q, id, x) ==>
                  r.Some? && r.value in q.rqs && (x == r.value || Better(t, last, q.rqs[r.value], q.rqs[x])))
  {
    hide Better, First, IsAfter, IsBefore, SortOk;
    SortSectors(q);
    var a, b := After(q, id), Below(q.sort, q.rqs[id].sector);
    assert FindNextRq(t, last, q, id) == ChooseRq(t, last, q.rqs, a, b);
    AfterIs(q, id, x);
    BeforeIs(q, id, x);
    if a.Some? { AfterIs(q, id, a.value); QueuedAfter(q, id, a.value); }
    if b.Some? { BeforeIs(q, id, b.value); QueuedBefore(q, id, b.value); }
    if a.Some? && b.Some? {
      ChooseIs(t, last, q.rqs, a.value, b.value);
      if a != b { ChoiceIsOrder(t, last, q.rqs[a.value], q.rqs[b.value], q.rqs[b.value]); }
    }
  }

  lemma QueuedAfter(q: Queue, id: nat, x: nat) requires IsAfter(q, id, x) ensures x in q.rqs {}

  lemma QueuedBefore(q: Queue, id: nat, x: nat) requires IsBefore(q, id, x) ensures x in q.rqs {}

  lemma FoundSome(t: Tuning, last: nat, q: Queue, id: nat)
    requires SortOk(q) && id in q.rqs && |q.rqs| > 1
    ensures var r := FindNextRq(t, last, q, id); r.Some? && r.value in q.rqs && r.value != id
  {
    hide FindNextRq;
    FindNextIn(t, last, q, id);
    assert |map[id := q.rqs[id]]| == 1;
  }

  /** So what it finds is the best of what is left exactly when one of the neighbours is. */
  lemma FindBestIff(t: Tuning, last: nat, q: Queue, id: nat)
    requires SortOk(q) && id in q.rqs && |q.rqs| > 1
    ensures var r, rest := FindNextRq(t, last, q, id), q.rqs - {id};
            && r.Some?
            && (IsBest(t, last, rest, r.value) <==>
                  exists x :: (IsAfter(q, id, x) || IsBefore(q, id, x)) && IsBest(t, last, rest, x))
  {
    hide Better, First, IsAfter, IsBefore, FindNextRq;
    FoundSome(t, last, q, id);
    var r, rest := FindNextRq(t, last, q, id), q.rqs - {id};
    FindTakesNeighbour(t, last, q, id, r.value);
    SortSectors(q);
    forall x | (IsAfter(q, id, x) || IsBefore(q, id, x)) && IsBest(t, last, rest, x) ensures x == r.value {
      FindTakesNeighbour(t, last, q, id, x);
      ChoiceIsOrder(t, last, q.rqs[x], q.rqs[r.value], q.rqs[x]);
      assert r.value in rest && rest[r.value] == q.rqs[r.value] && rest[x] == q.rqs[x];
    }
  }

  /** From the end of the request removed, among requests of one kind none of which starts inside it, one
      of the neighbours always is: the search is as good as looking at all of them. */
  lemma FindIsBest(t: Tuning, q: Queue, id: nat)
    requires SortOk(q) && id in q.rqs && |q.rqs| > 1
    requires forall x, y :: x in q.rqs && y in q.rqs ==> Kind(q.rqs[x]) == Kind(q.rqs[y])
    requires forall x :: x in q.rqs && q.rqs[x].sector > q.rqs[id].sector ==>
               q.rqs[x].sector >= q.rqs[id].sector + q.rqs[id].sectors
    ensures var last := q.rqs[id].sector + q.rqs[id].sectors;
            var r := FindNextRq(t, last, q, id);
            r.Some? && IsBest(t, last, q.rqs - {id}, r.value)
  {
    hide First, FindNextRq, IsAfter, IsBefore, Nearer;
    var last := q.rqs[id].sector + q.rqs[id].sectors;
    FoundSome(t, last, q, id);
    var r := FindNextRq(t, last, q, id);
    SortSectors(q);
    forall x | x in q.rqs && x != id && x != r.value ensures Better(t, last, q.rqs[r.value], q.rqs[x]) {
      var n := NeighbourBeats(t, q, id, x);
      FindTakesNeighbour(t, last, q, id, n);
      ChoiceIsOrder(t, last, q.rqs[r.value], q.rqs[n], q.rqs[x]);
    }
  }

  lemma NeighbourBeats(t: Tuning, q: Queue, id: nat, x: nat) returns (n: nat)
    requires SortOk(q) && id in q.rqs && x in q.rqs && x != id
    requires forall x, y :: x in q.rqs && y in q.rqs ==> Kind(q.rqs[x]) == Kind(q.rqs[y])
    requires forall x :: x in q.rqs && q.rqs[x].sector > q.rqs[id].sector ==>
               q.rqs[x].sector >= q.rqs[id].sector + q.rqs[id].sectors
    ensures n in q.rqs && (IsAfter(q, id, n) || IsBefore(q, id, n))
    ensures n == x || Better(t, q.rqs[id].sector + q.rqs[id].sectors, q.rqs[n], q.rqs[x])
  {
    var last := q.rqs[id].sector + q.rqs[id].sectors;
    var a, b := After(q, id), Below(q.sort, q.rqs[id].sector);
    SortSectors(q);
    if a.Some? { AfterIs(q, id, a.value); }
    if b.Some? { BeforeIs(q, id, b.value); }
    assert q.rqs[x].sector in q.sort && q.sort[q.rqs[x].sector] == x && q.rqs[x].sector != q.rqs[id].sector;
    if q.rqs[x].sector > q.rqs[id].sector {
      n := a.value;
    } else if ZoneOf(t, last, q.rqs[x].sector) == Far {
      n := a.value;
    } else {
      n := b.value;
      CostGrows(t, last, q.rqs[n].sector, q.rqs[x].sector);
    }
  }

  lemma CostGrows(t: Tuning, last: nat, a: nat, b: nat)
    requires b <= a < last
    ensures Cost(t, last, a) <= Cost(t, last, b)
  {
    assert (last - b) * t.backPenalty == (last - a) * t.backPenalty + (a - b) * t.backPenalty;
    assert (a - b) * t.backPenalty >= 0;
  }

  /** Between two requests in the background, a foreground one further off is missed. */
  lemma ForegroundMissed(t: Tuning)
    ensures var q := EmptyQueue(false, false).(
              rqs := map[0 := Info(false, false, 8, 8), 1 := Info(false, false, 16, 8), 2 := Info(true, false, 99, 1)],
              sort := map[8 := 0, 16 := 1, 99 := 2]);
            && SortOk(q) && FindNextRq(t, 16, q, 0) == Some(1)
            && IsBest(t, 16, q.rqs - {0}, 2) && !IsBest(t, 16, q.rqs - {0}, 1)
  {
    var q := EmptyQueue(false, false).(
      rqs := map[0 := Info(false, false, 8, 8), 1 := Info(false, false, 16, 8), 2 := Info(true, false, 99, 1)],
      sort := map[8 := 0, 16 := 1, 99 := 2]);
    assert IsAfter(q, 0, 1);
    AfterIs(q, 0, 1);
    assert Below(q.sort, 8).None?;
    assert 2 in q.rqs - {0} && 1 in q.rqs - {0};
  }
}
