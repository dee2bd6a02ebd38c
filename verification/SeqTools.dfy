/** Facts about duplicate-free queues of thread ids. */
module SeqTools {

  datatype Option<+T> = None | Some(value: T)

  ghost predicate Distinct(q: seq<nat>) {
    forall i, j :: 0 <= i < j < |q| ==> q[i] != q[j]
  }

  /** Position of the first occurrence of t. */
  function IndexOf(q: seq<nat>, t: nat): (i: nat)
    requires t in q
    ensures i < |q| && q[i] == t
    ensures forall j :: 0 <= j < i ==> q[j] != t
  {
    if q[0] == t then 0 else 1 + IndexOf(q[1..], t)
  }

  /** q with the first occurrence of t deleted, all other entries in order. */
  function Without(q: seq<nat>, t: nat): (r: seq<nat>) {
    if t in q then var i := IndexOf(q, t); q[..i] + q[i + 1..] else q
  }

  lemma WithoutAt(q: seq<nat>, t: nat, j: nat)
    requires t in q && j < |q| - 1
    ensures |Without(q, t)| == |q| - 1
    ensures Without(q, t)[j] == if j < IndexOf(q, t) then q[j] else q[j + 1]
  {
  }

  lemma WithoutKeeps(q: seq<nat>, t: nat, x: nat)
    requires x in q && x != t
    ensures x in Without(q, t)
  {
    if t in q {
      var i, j := IndexOf(q, t), IndexOf(q, x);
      WithoutAt(q, t, if j < i then j else j - 1);
    }
  }

  lemma WithoutDistinct(q: seq<nat>, t: nat)
    requires Distinct(q)
    ensures Distinct(Without(q, t)) && t !in Without(q, t)
    ensures forall x :: x in Without(q, t) ==> x in q
  {
    if t in q {
      var i, r := IndexOf(q, t), Without(q, t);
      forall j | 0 <= j < |r|
        ensures r[j] == q[if j < i then j else j + 1]
      {
        WithoutAt(q, t, j);
      }
    }
  }

  lemma WithoutMembers(q: seq<nat>, t: nat)
    requires Distinct(q)
    ensures Distinct(Without(q, t))
    ensures forall x :: x in Without(q, t) <==> x in q && x != t
  {
    WithoutDistinct(q, t);
    forall x | x in q && x != t
      ensures x in Without(q, t)
    {
      WithoutKeeps(q, t, x);
    }
  }

  lemma WithoutHead(q: seq<nat>)
    requires q != []
    ensures Without(q, q[0]) == q[1..]
  {
  }

  /** A duplicate-free queue whose entries all lie in 1..n has at most n entries. */
  lemma {:induction false} Pigeonhole(q: seq<nat>, n: nat)
    requires Distinct(q)
    requires forall t :: t in q ==> 0 < t <= n
    ensures |q| <= n
  {
    var t := if q == [] then 0 else q[0];
    assert q == [] || t in q;
    if n > 0 {
      WithoutMembers(q, n);
      Pigeonhole(Without(q, n), n - 1);
    }
  }
}
