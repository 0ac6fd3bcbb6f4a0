/** Constants of kernel/param.h, and facts about sequences and sets that several models use. */
module Common {

  const MAXOPBLOCKS := 10
  const LOGSIZE := MAXOPBLOCKS * 3
  const NBUF := MAXOPBLOCKS * 3

  datatype Option<+T> = None | Some(value: T)

  predicate Distinct(q: seq<nat>) {
    forall j, k :: 0 <= j < k < |q| ==> q[j] != q[k]
  }

  predicate DiffAt(q: seq<nat>, i: nat, j: nat)
    requires i < |q| && j < |q|
  {
    q[i] != q[j]
  }

  /** The same, one named pair at a time. */
  ghost predicate NoDup(q: seq<nat>) {
    forall i, j {:trigger DiffAt(q, i, j)} :: 0 <= i < |q| && 0 <= j < |q| && i != j ==> DiffAt(q, i, j)
  }

  lemma NoDupPush(q: seq<nat>, x: nat)
    requires NoDup(q) && x !in q
    ensures NoDup(q + [x])
  {
    var q' := q + [x];
    forall i, j | 0 <= i < |q'| && 0 <= j < |q'| && i != j ensures DiffAt(q', i, j) {
      assert i < |q| ==> q[i] in q;
      assert j < |q| ==> q[j] in q;
      assert i < |q| && j < |q| ==> DiffAt(q, i, j);
    }
  }

  lemma NoDupPop(q: seq<nat>)
    requires NoDup(q) && q != []
    ensures NoDup(q[1..]) && q[0] !in q[1..]
    ensures forall x :: x in q <==> x == q[0] || x in q[1..]
  {
    var q' := q[1..];
    forall i, j | 0 <= i < |q'| && 0 <= j < |q'| && i != j ensures DiffAt(q', i, j) {
      assert DiffAt(q, i + 1, j + 1);
    }
    forall j | 0 <= j < |q'| ensures q[0] != q'[j] {
      assert DiffAt(q, 0, j + 1);
    }
    assert q == [q[0]] + q';
  }

  function Elems(q: seq<nat>): set<nat> {
    set x | x in q
  }

  lemma {:induction false} NoDupSize(q: seq<nat>)
    requires NoDup(q)
    ensures |Elems(q)| == |q|
  {
    if q != [] {
      NoDupPop(q);
      NoDupSize(q[1..]);
      assert Elems(q) == {q[0]} + Elems(q[1..]);
    }
  }

  lemma {:induction false} SubsetSize(a: set<nat>, b: set<nat>)
    requires a <= b
    ensures |a| <= |b|
  {
    if a != {} {
      var x :| x in a;
      SubsetSize(a - {x}, b - {x});
    }
  }

  /** The position after k in a cycle of n. */
  function Succ(n: nat, k: nat): (j: nat)
    requires k < n
    ensures j < n
  {
    if k + 1 < n then k + 1 else 0
  }

  /** `1 << i` */
  function Mask(i: nat): (m: nat)
    ensures 0 < m
  {
    if i == 0 then 1 else 2 * Mask(i - 1)
  }
}
