/** Unregistering an algorithm: every instance built on it, directly or through other instances, is
    marked dead and, if registered, moved to the list of things to release. */
module AlgRemoval {

  /** Algorithms and instances share one name space; a spawn is the tie from an algorithm to an
      instance built on it, kept on the algorithm's list of users. */
  datatype Registry = Registry(
    users: map<nat, seq<nat>>,   // spawns on each algorithm's list
    inst: map<nat, nat>,         // the instance each spawn belongs to
    dead: set<nat>,
    hashed: set<nat>,            // instances on their template's list
    tmpl: set<nat>,              // instances whose template can still be referenced
    linked: set<nat>,            // algorithms on the list of registered ones
    release: seq<nat>,           // the removal list, latest first
    work: seq<nat>)              // the secondary spawns

  function UsersOf(r: Registry, a: nat): (s: seq<nat>) {
    if a in r.users then r.users[a] else []
  }

  /** `crypto_remove_spawn`; the spawn has been taken off the list it was on. */
  function RemoveSpawn(r: Registry, sp: nat): (r': Registry)
    requires sp in r.inst
  {
    var i := r.inst[sp];
    if i in r.dead then r
    else
      var e := r.(dead := r.dead + {i});
      if i !in r.hashed || i !in r.tmpl then e
      else e.(release := [i] + r.release, linked := r.linked - {i}, hashed := r.hashed - {i},
              users := r.users[i := []], work := UsersOf(r, i) + r.work)
  }

  // ---- Reachability ----

  /** An instance whose users will be visited. */
  predicate Open(r: Registry, i: nat) {
    i !in r.dead && i in r.hashed && i in r.tmpl
  }

  predicate Edge(r: Registry, a: nat, b: nat) {
    exists sp :: sp in UsersOf(r, a) && sp in r.inst && r.inst[sp] == b
  }

  /** From `alg` to `b` through instances whose users are visited. */
  ghost predicate IsPath(r: Registry, alg: nat, p: seq<nat>, b: nat) {
    && |p| >= 2 && p[0] == alg && p[|p| - 1] == b
    && (forall k :: 0 <= k < |p| - 1 ==> Edge(r, p[k], p[k + 1]))
    && (forall k :: 0 < k < |p| - 1 ==> Open(r, p[k]))
  }

  ghost predicate Reaches(r: Registry, alg: nat, b: nat) {
    exists p :: IsPath(r, alg, p, b)
  }

  lemma ReachStep(r: Registry, alg: nat, a: nat, b: nat)
    requires Edge(r, a, b) && (a == alg || (Reaches(r, alg, a) && Open(r, a)))
    ensures Reaches(r, alg, b)
  {
    if a == alg {
      assert IsPath(r, alg, [alg, b], b);
    } else {
      var p :| IsPath(r, alg, p, a);
      var q := p + [b];
      assert forall k :: 0 <= k < |p| ==> q[k] == p[k];
      assert forall k :: 0 <= k < |q| - 1 ==> Edge(r, q[k], q[k + 1]);
      assert IsPath(r, alg, q, b);
    }
  }

  // ---- Progress of a removal ----

  ghost predicate Known(r: Registry) {
    forall a, sp :: sp in UsersOf(r, a) ==> sp in r.inst
  }

  /** Only reachable instances have been touched, or are about to be. */
  ghost predicate Sound(r0: Registry, alg: nat, r: Registry, todo: set<nat>) {
    && (forall b :: b in r.dead && b !in r0.dead ==> Reaches(r0, alg, b))
    && (forall sp :: sp in r.work || sp in todo ==> sp in r0.inst && Reaches(r0, alg, r0.inst[sp]))
  }

  ghost predicate DealtWith(r0: Registry, r: Registry, todo: set<nat>, sp: nat) {
    sp in todo || sp in r.work || (sp in r0.inst && r0.inst[sp] in r.dead)
  }

  /** The users of the algorithm and of every visited instance are dealt with or still to do. */
  ghost predicate Covered(r0: Registry, alg: nat, r: Registry, todo: set<nat>) {
    && (forall sp :: sp in UsersOf(r0, alg) ==> DealtWith(r0, r, todo, sp))
    && (forall a, sp :: a in r.dead && Open(r0, a) && sp in UsersOf(r0, a) ==> DealtWith(r0, r, todo, sp))
  }

  /** What is on the removal list is there once, is off the list of registered algorithms and that of its
      template, and has no users left; whatever is not on it is where it was. */
  ghost predicate Elsewhere(r0: Registry, r: Registry) {
    && r.inst == r0.inst && r.tmpl == r0.tmpl && r0.dead <= r.dead
    && (forall a :: a !in r.release ==> UsersOf(r, a) == UsersOf(r0, a))
    && (forall a :: a !in r.release ==> (a in r.hashed <==> a in r0.hashed) && (a in r.linked <==> a in r0.linked))
    && (forall a :: a in r.release ==> UsersOf(r, a) == [] && a !in r.hashed && a !in r.linked)
    && (forall x :: x in r.release <==> x in r.dead && Open(r0, x))
    && (forall i, j :: 0 <= i < j < |r.release| ==> r.release[i] != r.release[j])
  }

  ghost predicate Progress(r0: Registry, alg: nat, r: Registry, todo: set<nat>) {
    Known(r0) && Elsewhere(r0, r) && Sound(r0, alg, r, todo) && Covered(r0, alg, r, todo)
  }

  lemma SpawnElsewhere(r0: Registry, r: Registry, sp: nat)
    requires Elsewhere(r0, r) && sp in r.inst
    ensures Elsewhere(r0, RemoveSpawn(r, sp))
  {
  }

  lemma SpawnSound(r0: Registry, alg: nat, r: Registry, todo: set<nat>, sp: nat)
    requires Progress(r0, alg, r, todo) && sp in todo
    ensures Sound(r0, alg, RemoveSpawn(r, sp), todo - {sp})
  {
    hide Covered, Reaches;
    var i := r.inst[sp];
    if Open(r, i) {
      assert Open(r0, i) && UsersOf(r, i) == UsersOf(r0, i);
      forall x | x in UsersOf(r0, i) ensures x in r0.inst && Reaches(r0, alg, r0.inst[x]) {
        assert Edge(r0, i, r0.inst[x]);
        ReachStep(r0, alg, i, r0.inst[x]);
      }
    }
  }

  lemma SpawnCovered(r0: Registry, alg: nat, r: Registry, todo: set<nat>, sp: nat)
    requires Progress(r0, alg, r, todo) && sp in todo
    ensures Covered(r0, alg, RemoveSpawn(r, sp), todo - {sp})
  {
    hide Sound;
    TodoKnown(r0, alg, r, todo, sp);
    var r' := RemoveSpawn(r, sp);
    assert r'.inst[sp] in r'.dead;
    forall x | DealtWith(r0, r, todo, x) ensures DealtWith(r0, r', todo - {sp}, x) { }
    forall a, x | a in r'.dead && Open(r0, a) && x in UsersOf(r0, a) ensures DealtWith(r0, r', todo - {sp}, x) {
      if a !in r.dead {
        assert a == r.inst[sp] && Open(r, a);
        assert x in r'.work;
      }
    }
  }

  lemma TodoKnown(r0: Registry, alg: nat, r: Registry, todo: set<nat>, sp: nat)
    requires Sound(r0, alg, r, todo) && sp in todo
    ensures sp in r0.inst
  {
  }

  /** Dealing with one spawn: only reachable instances are touched, and none that becomes reachable is
      lost. */
  lemma ProgressSpawn(r0: Registry, alg: nat, r: Registry, todo: set<nat>, sp: nat)
    requires Progress(r0, alg, r, todo) && sp in todo
    ensures sp in r.inst && Progress(r0, alg, RemoveSpawn(r, sp), todo - {sp})
  {
    hide RemoveSpawn, Sound, Covered;
    TodoKnown(r0, alg, r, todo, sp);
    SpawnElsewhere(r0, r, sp);
    SpawnSound(r0, alg, r, todo, sp);
    SpawnCovered(r0, alg, r, todo, sp);
  }

  /** With nothing left to do, everything on a path is dead. */
  lemma {:induction false} PathDead(r0: Registry, alg: nat, r: Registry, p: seq<nat>, b: nat, k: nat)
    requires Progress(r0, alg, r, {}) && r.work == [] && IsPath(r0, alg, p, b) && 0 < k < |p|
    ensures p[k] in r.dead
    decreases k
  {
    hide Sound, Elsewhere;
    if k > 1 { PathDead(r0, alg, r, p, b, k - 1); }
    assert Edge(r0, p[k - 1], p[k - 1 + 1]);
    var sp :| sp in UsersOf(r0, p[k - 1]) && sp in r0.inst && r0.inst[sp] == p[k];
    assert DealtWith(r0, r, {}, sp);
  }

  /** What a removal from `alg` leaves: exactly the reachable instances are newly dead; of these, each
      whose users were visited is on the removal list once, on no other list and without users, and
      nothing else is; no user of `alg` is left, and whatever else is not released is where it was. */
  ghost predicate Removed(r0: Registry, alg: nat, r: Registry) {
    && (forall b :: b in r.dead <==> b in r0.dead || Reaches(r0, alg, b))
    && (forall x :: x in r.release <==> Open(r0, x) && Reaches(r0, alg, x))
    && (forall i, j :: 0 <= i < j < |r.release| ==> r.release[i] != r.release[j])
    && (forall a :: a !in r.release && a != alg ==> UsersOf(r, a) == UsersOf(r0, a))
    && (forall a :: a !in r.release ==> (a in r.hashed <==> a in r0.hashed) && (a in r.linked <==> a in r0.linked))
    && UsersOf(r, alg) == []
    && (forall a :: a in r.release ==> UsersOf(r, a) == [] && a !in r.hashed && a !in r.linked)
  }

  lemma Finished(r0: Registry, alg: nat, r: Registry)
    requires Progress(r0, alg, r, {}) && r.work == []
    ensures Removed(r0, alg, r.(users := r.users[alg := []]))
  {
    hide Covered, Open;
    forall b | Reaches(r0, alg, b) ensures b in r.dead {
      var p :| IsPath(r0, alg, p, b);
      PathDead(r0, alg, r, p, b, |p| - 1);
    }
    forall x | Open(r0, x) ensures x !in r0.dead { OpenAlive(r0, x); }
  }

  lemma OpenAlive(r: Registry, x: nat)
    requires Open(r, x)
    ensures x !in r.dead
  {
  }

  ghost function Alive(r: Registry): (s: set<nat>) {
    r.inst.Values - r.dead
  }

  lemma SpawnShrinks(r: Registry, sp: nat)
    requires sp in r.inst
    ensures var r' := RemoveSpawn(r, sp);
            Alive(r') <= Alive(r) && (r'.work == r.work || Alive(r') < Alive(r))
  {
    var i := r.inst[sp];
    assert i in r.inst.Values;
    if i !in r.dead { assert i in Alive(r) && i !in Alive(RemoveSpawn(r, sp)); }
  }

  class AlgApi {

    var r: Registry

    /** One pass of a list of spawns. */
    method Pass(spawns: seq<nat>, ghost r0: Registry, ghost alg: nat)
      requires Progress(r0, alg, r, set sp | sp in spawns)
      modifies this
      ensures Progress(r0, alg, r, {})
      ensures Alive(r) <= Alive(old(r)) && (r.work == old(r).work || Alive(r) < Alive(old(r)))
    {
      hide Progress, RemoveSpawn, Alive;
      var k := 0;
      ghost var todo := set sp | sp in spawns;
      while k < |spawns|
        invariant 0 <= k <= |spawns| && Progress(r0, alg, r, todo)
        invariant (set sp | sp in spawns[k..]) == todo
        invariant Alive(r) <= Alive(old(r)) && (r.work == old(r).work || Alive(r) < Alive(old(r)))
      {
        var sp := spawns[k];
        assert sp in spawns[k..];
        ProgressSpawn(r0, alg, r, todo, sp);
        if sp in spawns[k + 1..] { ProgressKeeps(r0, alg, r, todo, sp); }
        SpawnShrinks(r, sp);
        r := RemoveSpawn(r, sp);
        if sp !in spawns[k + 1..] { todo := todo - {sp}; }
        assert spawns[k..] == [sp] + spawns[k + 1..];
        k := k + 1;
      }
      assert todo == {};
    }

    /** `crypto_remove_spawns` for all users of an algorithm. */
    method RemoveSpawns(spawns: seq<nat>, alg: nat)
      requires Known(r) && r.work == [] && r.release == [] && spawns == UsersOf(r, alg) && alg in r.dead
      modifies this
      ensures Removed(old(r), alg, r)
    {
      hide Progress, Removed;
      ghost var r0 := r;
      Begun(r0, alg);
      Pass(spawns, r0, alg);
      while r.work != []
        invariant Progress(r0, alg, r, {})
        decreases |Alive(r)|, if r.work == [] then 0 else 1
      {
        var batch := r.work;
        ghost var was := r;
        Handed(r0, alg, r);
        r := r.(work := []);
        Pass(batch, r0, alg);
        Subset(Alive(r), Alive(was));
        if r.work != [] { Smaller(Alive(r), Alive(was)); }
      }
      Finished(r0, alg, r);
      r := r.(users := r.users[alg := []]);
    }

    /** `crypto_remove_alg`. */
    method RemoveAlg(alg: nat) returns (ok: bool)
      requires Known(r) && r.work == [] && r.release == []
      modifies this
      ensures ok <==> alg in old(r).linked
      ensures !ok ==> r == old(r)
      ensures ok ==> Removed(old(r).(dead := old(r).dead + {alg}, linked := old(r).linked - {alg}), alg, r)
    {
      if alg !in r.linked { return false; }
      r := r.(dead := r.dead + {alg}, linked := r.linked - {alg});
      assert forall a :: UsersOf(r, a) == UsersOf(old(r), a);
      RemoveSpawns(UsersOf(r, alg), alg);
      ok := true;
    }
  }

  lemma Begun(r: Registry, alg: nat)
    requires Known(r) && r.work == [] && r.release == [] && alg in r.dead
    ensures Progress(r, alg, r, set sp | sp in UsersOf(r, alg))
  {
    forall sp | sp in UsersOf(r, alg) ensures sp in r.inst && Reaches(r, alg, r.inst[sp]) {
      assert Edge(r, alg, r.inst[sp]);
      ReachStep(r, alg, alg, r.inst[sp]);
    }
  }

  lemma Handed(r0: Registry, alg: nat, r: Registry)
    requires Progress(r0, alg, r, {})
    ensures Progress(r0, alg, r.(work := []), set sp | sp in r.work)
  {
    var r' := r.(work := []);
    forall a ensures UsersOf(r', a) == UsersOf(r, a) {}
    var todo := set sp | sp in r.work;
    forall x | DealtWith(r0, r, {}, x) ensures DealtWith(r0, r', todo, x) {}
  }

  lemma Smaller(a: set<nat>, b: set<nat>)
    requires a < b
    ensures |a| < |b|
  {
    var x :| x in b && x !in a;
    assert a <= b - {x};
    Subset(a, b - {x});
  }

  lemma Subset(a: set<nat>, b: set<nat>)
    requires a <= b
    ensures |a| <= |b|
  {
    assert b == a + (b - a);
  }

  lemma ProgressKeeps(r0: Registry, alg: nat, r: Registry, todo: set<nat>, sp: nat)
    requires Progress(r0, alg, r, todo) && sp in todo
    ensures sp in r.inst && Progress(r0, alg, RemoveSpawn(r, sp), todo)
  {
    ProgressSpawn(r0, alg, r, todo, sp);
    hide RemoveSpawn, Elsewhere, Reaches;
    var r' := RemoveSpawn(r, sp);
    forall x | DealtWith(r0, r', todo - {sp}, x) ensures DealtWith(r0, r', todo, x) {}
  }
}
