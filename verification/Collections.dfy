/** What the models share: optional values, lists from which entries are taken by identity, and
    sorted trees as finite maps. */
module Collections {

  datatype Option<+T> = None | Some(value: T)

  // ---- Lists ----

  ghost predicate Distinct<T>(q: seq<T>) {
    forall i, j :: 0 <= i < j < |q| ==> q[i] != q[j]
  }

  function IndexOf<T(==)>(q: seq<T>, x: T): (k: nat)
    requires x in q
    ensures k < |q| && q[k] == x
  {
    if q[0] == x then 0 else 1 + IndexOf(q[1..], x)
  }

  function DropAt<T>(q: seq<T>, k: nat): (q': seq<T>)
    requires k < |q|
  {
    q[..k] + q[k + 1..]
  }

  function PutAt<T>(q: seq<T>, k: nat, x: T): (q': seq<T>)
    requires k <= |q|
  {
    q[..k] + [x] + q[k..]
  }

  function Without<T(==)>(q: seq<T>, x: T): (q': seq<T>) {
    if x in q then DropAt(q, IndexOf(q, x)) else q
  }

  lemma IndexIs<T>(q: seq<T>, k: nat)
    requires Distinct(q) && k < |q|
    ensures IndexOf(q, q[k]) == k
  {
    var i := IndexOf(q, q[k]);
    assert q[i] == q[k];
  }

  lemma DropIs<T>(q: seq<T>, k: nat)
    requires k < |q|
    ensures var q' := DropAt(q, k);
            |q'| == |q| - 1 && forall i :: 0 <= i < |q'| ==> q'[i] == if i < k then q[i] else q[i + 1]
  {
  }

  lemma PutIs<T>(q: seq<T>, k: nat, x: T)
    requires k <= |q|
    ensures var q' := PutAt(q, k, x);
            && |q'| == |q| + 1
            && forall i :: 0 <= i < |q'| ==> q'[i] == if i < k then q[i] else if i == k then x else q[i - 1]
  {
  }

  lemma {:induction false} DropFacts<T>(q: seq<T>, k: nat)
    requires Distinct(q) && k < |q|
    ensures Distinct(DropAt(q, k))
    ensures forall x :: x in DropAt(q, k) <==> x in q && x != q[k]
  {
    var q' := DropAt(q, k);
    DropIs(q, k);
    forall x | x in q && x != q[k] ensures x in q' {
      var i :| 0 <= i < |q| && q[i] == x;
      assert q'[if i < k then i else i - 1] == x;
    }
  }

  lemma {:induction false} PutFacts<T>(q: seq<T>, k: nat, x: T)
    requires Distinct(q) && k <= |q| && x !in q
    ensures Distinct(PutAt(q, k, x))
    ensures forall y :: y in PutAt(q, k, x) <==> y in q || y == x
  {
    var q' := PutAt(q, k, x);
    PutIs(q, k, x);
    assert q'[k] == x;
    forall y | y in q ensures y in q' {
      var i :| 0 <= i < |q| && q[i] == y;
      assert q'[if i < k then i else i + 1] == y;
    }
  }

  lemma {:induction false} WithoutFacts<T>(q: seq<T>, x: T)
    requires x in q && Distinct(q)
    ensures var q' := Without(q, x);
            Distinct(q') && |q'| == |q| - 1 && forall y :: y in q' <==> y in q && y != x
  {
    var k := IndexOf(q, x);
    DropFacts(q, k);
    DropIs(q, k);
  }

  // ---- Trees ----

  lemma Least(keys: set<nat>) returns (k: nat)
    requires keys != {}
    ensures k in keys && forall j :: j in keys ==> k <= j
  {
    k :| k in keys;
    if keys != {k} {
      var l := Least(keys - {k});
      assert forall j :: j in keys ==> j == k || j in keys - {k};
      if l < k { k := l; }
    }
  }

  lemma Greatest(keys: set<nat>) returns (k: nat)
    requires keys != {}
    ensures k in keys && forall j :: j in keys ==> j <= k
  {
    k :| k in keys;
    if keys != {k} {
      var g := Greatest(keys - {k});
      assert forall j :: j in keys ==> j == k || j in keys - {k};
      if k < g { k := g; }
    }
  }

  /** The least key at or above `from`: `rb_first` and `rb_next`. */
  function LeastFrom<T>(t: map<nat, T>, from: nat): (k: Option<nat>)
    ensures k.Some? ==> k.value in t && k.value >= from && forall j :: j in t && j >= from ==> k.value <= j
    ensures k.None? ==> forall j :: j in t ==> j < from
  {
    var above := set j | j in t && j >= from;
    assert forall j :: j in t && j >= from ==> j in above;
    if above == {} then None
    else
      assert exists k :: k in above && forall j :: j in above ==> k <= j by { var k := Least(above); }
      var k :| k in above && forall j :: j in above ==> k <= j;
      Some(k)
  }

  /** What stands at the least key at or above `from`. */
  function Above<T>(t: map<nat, T>, from: nat): (r: Option<T>)
    ensures r.Some? ==> exists k :: k in t && t[k] == r.value && k >= from && forall j :: j in t && j >= from ==> k <= j
    ensures r.None? ==> forall j :: j in t ==> j < from
  {
    var k := LeastFrom(t, from);
    if k.None? then None else Some(t[k.value])
  }

  /** What stands at the greatest key below `from`: `rb_prev`. */
  function Below<T>(t: map<nat, T>, from: nat): (r: Option<T>)
    ensures r.Some? ==> exists k :: k in t && t[k] == r.value && k < from && forall j :: j in t && j < from ==> j <= k
    ensures r.None? ==> forall j :: j in t ==> j >= from
  {
    var keys := set j | j in t && j < from;
    assert forall j :: j in t && j < from ==> j in keys;
    if keys == {} then None
    else
      assert exists k :: k in keys && forall j :: j in keys ==> j <= k by { var k := Greatest(keys); }
      var k :| k in keys && forall j :: j in keys ==> j <= k;
      Some(t[k])
  }
}
