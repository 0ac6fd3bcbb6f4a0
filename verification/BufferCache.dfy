/** The buffer cache (kernel/bio.c): the circular list through `prev` and `next`, reference
    counts, and the choice of a buffer to recycle. */
module BufferCache {
  import opened Common

  /** The buffers are 0 to NBUF-1; this is `bcache.head`. */
  const HEAD := NBUF

  // ---- the circular list ----

  /** Entry k of the cycle is linked with the one after it, both ways. */
  predicate LinkOk(next: seq<nat>, prev: seq<nat>, c: seq<nat>, k: nat)
    requires k < |c|
  {
    var a, b := c[k], c[Succ(|c|, k)];
    a < |next| && b < |prev| && next[a] == b && prev[b] == a
  }

  /** Following `next` from the head visits c[1], c[2], ... and returns; `prev` is its inverse. */
  ghost predicate CycleOk(next: seq<nat>, prev: seq<nat>, c: seq<nat>) {
    && |next| == |prev| == NBUF + 1 && c != [] && c[0] == HEAD && NoDup(c)
    && forall k {:trigger LinkOk(next, prev, c, k)} :: 0 <= k < |c| ==> LinkOk(next, prev, c, k)
  }

  function Without(c: seq<nat>, k: nat): seq<nat>
    requires k < |c|
  {
    c[..k] + c[k + 1..]
  }

  lemma UnlinkOk(next: seq<nat>, prev: seq<nat>, c: seq<nat>, k: nat)
    requires CycleOk(next, prev, c) && 0 < k < |c|
    ensures var a, d := c[k - 1], c[Succ(|c|, k)];
      a <= NBUF && d <= NBUF && c[k] <= NBUF && a == prev[c[k]] && d == next[c[k]] && CycleOk(next[a := d], prev[d := a], Without(c, k))
    ensures forall x :: x in c <==> x in Without(c, k) || x == c[k]
    ensures c[k] !in Without(c, k)
  {
    assert LinkOk(next, prev, c, k - 1) && LinkOk(next, prev, c, k);
    var a, d, c' := c[k - 1], c[Succ(|c|, k)], Without(c, k);
    var next', prev' := next[a := d], prev[d := a];
    forall i | 0 <= i < |c'| ensures c'[i] == c[if i < k then i else i + 1] && c'[i] != c[k] {
      assert DiffAt(c, if i < k then i else i + 1, k);
    }
    forall i, j | 0 <= i < |c'| && 0 <= j < |c'| && i != j ensures DiffAt(c', i, j) {
      assert DiffAt(c, if i < k then i else i + 1, if j < k then j else j + 1);
    }
    forall j | 0 <= j < |c'| ensures LinkOk(next', prev', c', j) {
      var i := if j < k then j else j + 1;
      assert LinkOk(next, prev, c, i);
      if j != k - 1 {
        assert DiffAt(c, i, k - 1);
        assert Succ(|c|, i) != Succ(|c|, k) ==> DiffAt(c, Succ(|c|, i), Succ(|c|, k));
      }
    }
    assert c == c[..k] + [c[k]] + c[k + 1..];
  }

  function AtFront(c: seq<nat>, b: nat): seq<nat>
    requires c != []
  {
    [c[0], b] + c[1..]
  }

  lemma InsertOk(next: seq<nat>, prev: seq<nat>, c: seq<nat>, b: nat)
    requires CycleOk(next, prev, c) && b < NBUF && b !in c
    ensures next[HEAD] <= NBUF && CycleOk(next[b := next[HEAD]][HEAD := b], prev[b := HEAD][next[HEAD] := b], AtFront(c, b))
  {
    assert LinkOk(next, prev, c, 0);
    var f, c' := next[HEAD], AtFront(c, b);
    var next', prev' := next[b := f][HEAD := b], prev[b := HEAD][f := b];
    assert forall i :: 0 <= i < |c| ==> c[i] in c;
    forall i, j | 0 <= i < |c'| && 0 <= j < |c'| && i != j ensures DiffAt(c', i, j) {
      assert i != 1 && j != 1 ==> DiffAt(c, if i == 0 then 0 else i - 1, if j == 0 then 0 else j - 1);
    }
    forall j | 0 <= j < |c'| ensures LinkOk(next', prev', c', j) {
      if j >= 2 {
        assert LinkOk(next, prev, c, j - 1) && DiffAt(c, j - 1, 0);
        assert Succ(|c|, j - 1) != Succ(|c|, 0) ==> DiffAt(c, Succ(|c|, j - 1), Succ(|c|, 0));
      }
    }
  }

  // ---- buffers and their ages ----

  datatype Buf = Buf(dev: nat, blockno: nat, valid: bool, refcnt: nat)

  predicate KeysDiffer(buf: seq<Buf>, i: nat, j: nat)
    requires i < |buf| && j < |buf|
  {
    buf[i].dev != 0 ==> buf[i].dev != buf[j].dev || buf[i].blockno != buf[j].blockno
  }

  /** No two buffers are for the same block of a device. */
  ghost predicate KeysOk(buf: seq<Buf>) {
    |buf| == NBUF && forall i, j {:trigger KeysDiffer(buf, i, j)} :: 0 <= i < NBUF && 0 <= j < NBUF && i != j ==> KeysDiffer(buf, i, j)
  }

  /** Buffer b is for the given block. */
  predicate IsFor(buf: seq<Buf>, b: int, dev: nat, blockno: nat) {
    0 <= b < |buf| && buf[b].dev == dev && buf[b].blockno == blockno
  }

  predicate Newer(c: seq<nat>, stamp: seq<nat>, i: nat, j: nat)
    requires i < |c| && j < |c|
  {
    c[i] < |stamp| && c[j] < |stamp| && stamp[c[j]] < stamp[c[i]]
  }

  /** Every buffer is in the list, and the list is in the order of the times at which buffers
      were last moved to the front. */
  ghost predicate AgesOk(c: seq<nat>, stamp: seq<nat>, clock: nat, n: nat) {
    && |c| == n + 1 && |stamp| == NBUF && n <= NBUF
    && (forall b {:trigger b in c} :: 0 <= b < n ==> b in c)
    && (forall k {:trigger c[k]} :: 1 <= k < |c| ==> c[k] < n && stamp[c[k]] < clock)
    && (forall i, j {:trigger Newer(c, stamp, i, j)} :: 1 <= i < j < |c| ==> Newer(c, stamp, i, j))
  }

  lemma FrontAges(c: seq<nat>, stamp: seq<nat>, clock: nat, b: nat)
    requires AgesOk(c, stamp, clock, b) && b < NBUF
    ensures AgesOk(AtFront(c, b), stamp[b := clock], clock + 1, b + 1)
  {
    var c', stamp', clock' := AtFront(c, b), stamp[b := clock], clock + 1;
    forall k | 1 <= k < |c'| ensures c'[k] < b + 1 && stamp'[c'[k]] < clock' {
      assert k > 1 ==> c'[k] == c[k - 1];
    }
    forall i, j | 1 <= i < j < |c'| ensures Newer(c', stamp', i, j) {
      assert c'[j] == c[j - 1] && (i > 1 ==> Newer(c, stamp, i - 1, j - 1));
    }
    forall x | 0 <= x < b + 1 ensures x in c' {
      if x < b {
        assert x in c;
        var k :| 0 <= k < |c| && c[k] == x;
        assert c'[if k == 0 then 0 else k + 1] == x;
      } else {
        assert c'[1] == x;
      }
    }
  }

  lemma MoveAges(c: seq<nat>, stamp: seq<nat>, clock: nat, k: nat)
    requires AgesOk(c, stamp, clock, NBUF) && 0 < k < |c| && NoDup(c)
    requires forall x :: x in c <==> x in Without(c, k) || x == c[k]
    ensures AgesOk(AtFront(Without(c, k), c[k]), stamp[c[k] := clock], clock + 1, NBUF)
  {
    var b, w := c[k], Without(c, k);
    var c', stamp', clock' := AtFront(w, b), stamp[b := clock], clock + 1;
    forall j | 1 <= j < |c'| ensures c'[j] < NBUF && stamp'[c'[j]] < clock' && (j > 1 ==> c'[j] == c[if j - 1 < k then j - 1 else j]) {
      assert j > 1 ==> c'[j] == w[j - 1];
    }
    forall i, j | 1 <= i < j < |c'| ensures Newer(c', stamp', i, j) {
      var y := if j - 1 < k then j - 1 else j;
      assert c'[j] == c[y] && DiffAt(c, y, k);
      if i > 1 {
        var x := if i - 1 < k then i - 1 else i;
        assert c'[i] == c[x] && Newer(c, stamp, x, y) && DiffAt(c, x, k);
      }
    }
    forall x | 0 <= x < NBUF ensures x in c' {
      assert x in c;
      if x == b {
        assert c'[1] == x;
      } else {
        var j :| 0 <= j < |w| && w[j] == x;
        assert c'[if j == 0 then 0 else j + 1] == x;
      }
    }
  }

  class Cache {
    var next: seq<nat>
    var prev: seq<nat>
    var buf: seq<Buf>
    ghost var c: seq<nat>
    ghost var stamp: seq<nat>
    ghost var clock: nat

    ghost predicate Valid()
      reads this
    {
      CycleOk(next, prev, c) && AgesOk(c, stamp, clock, NBUF) && KeysOk(buf)
    }

    /** `binit` */
    constructor ()
      ensures Valid() && forall b :: 0 <= b < NBUF ==> buf[b] == Buf(0, 0, false, 0)
    {
      buf := seq(NBUF, i => Buf(0, 0, false, 0));
      next, prev := seq(NBUF + 1, i => HEAD), seq(NBUF + 1, i => HEAD);
      c, stamp, clock := [HEAD], seq(NBUF, i => 0), 0;
      new;
      assert LinkOk(next, prev, c, 0);
      var b := 0;
      while b < NBUF
        invariant 0 <= b <= NBUF && CycleOk(next, prev, c) && AgesOk(c, stamp, clock, b)
        invariant buf == seq(NBUF, i => Buf(0, 0, false, 0))
      {
        NewIsOutside(c, stamp, clock, b);
        FrontAges(c, stamp, clock, b);
        PushFront(b);
        stamp, clock := stamp[b := clock], clock + 1;
        b := b + 1;
      }
    }

    /** Links b in right after the head. */
    method PushFront(b: nat)
      requires CycleOk(next, prev, c) && b < NBUF && b !in c
      modifies this`next, this`prev, this`c
      ensures CycleOk(next, prev, c) && c == AtFront(old(c), b)
    {
      InsertOk(next, prev, c, b);
      assert LinkOk(next, prev, c, 0);
      next := next[b := next[HEAD]];
      prev := prev[b := HEAD];
      prev := prev[next[HEAD] := b];
      next := next[HEAD := b];
      c := AtFront(c, b);
    }

    /** `bget`: the buffer of the block, with one more reference; if the block is not cached, the
        unused buffer that was moved to the front least recently becomes its buffer.  -1 stands
        for the panic "no buffers": the block is not cached and every buffer is in use. */
    method Bget(dev: nat, blockno: nat) returns (r: int)
      requires Valid()
      modifies this`buf
      ensures Valid() && -1 <= r < NBUF
      ensures r == -1 <==> (forall b :: !IsFor(old(buf), b, dev, blockno)) && (forall b :: 0 <= b < NBUF ==> old(buf)[b].refcnt > 0)
      ensures r == -1 ==> buf == old(buf)
      ensures r != -1 && (exists b :: IsFor(old(buf), b, dev, blockno)) ==>
        IsFor(old(buf), r, dev, blockno) && buf == old(buf)[r := old(buf)[r].(refcnt := old(buf)[r].refcnt + 1)]
      ensures r != -1 && (forall b :: !IsFor(old(buf), b, dev, blockno)) ==>
        && old(buf)[r].refcnt == 0 && buf == old(buf)[r := Buf(dev, blockno, false, 1)]
        && forall b :: 0 <= b < NBUF && old(buf)[b].refcnt == 0 ==> stamp[r] <= stamp[b]
    {
      r := Lookup(dev, blockno);
      if r != -1 {
        Raised(buf, r, buf[r].refcnt + 1);
        buf := buf[r := buf[r].(refcnt := buf[r].refcnt + 1)];
        return;
      }
      r := Victim();
      if r != -1 {
        Recycled(buf, r, dev, blockno);
        buf := buf[r := Buf(dev, blockno, false, 1)];
      }
    }

    /** The first loop of `bget`. */
    method Lookup(dev: nat, blockno: nat) returns (r: int)
      requires Valid()
      ensures -1 <= r < NBUF
      ensures r == -1 ==> forall b :: !IsFor(buf, b, dev, blockno)
      ensures r != -1 ==> IsFor(buf, r, dev, blockno)
    {
      ghost var k := 1;
      assert LinkOk(next, prev, c, 0);
      var b := next[HEAD];
      while b != HEAD
        invariant 1 <= k <= |c| && b == (if k < |c| then c[k] else HEAD)
        invariant forall j {:trigger c[j]} :: 1 <= j < k ==> !IsFor(buf, c[j], dev, blockno)
        decreases |c| - k
      {
        if buf[b].dev == dev && buf[b].blockno == blockno {
          return b;
        }
        assert LinkOk(next, prev, c, k);
        b := next[b];
        k := k + 1;
      }
      EndOfList(c, k);
      forall b ensures !IsFor(buf, b, dev, blockno) {
        if 0 <= b < NBUF {
          assert b in c;
        }
      }
      return -1;
    }

    /** The second loop of `bget`: the least recently moved buffer that nobody uses. */
    method Victim() returns (r: int)
      requires Valid()
      ensures -1 <= r < NBUF
      ensures r == -1 ==> forall b :: 0 <= b < NBUF ==> buf[b].refcnt > 0
      ensures r != -1 ==> buf[r].refcnt == 0 && forall b :: 0 <= b < NBUF && buf[b].refcnt == 0 ==> stamp[r] <= stamp[b]
    {
      ghost var k := |c| - 1;
      assert LinkOk(next, prev, c, k);
      var b := prev[HEAD];
      while b != HEAD
        invariant 0 <= k < |c| && b == c[k]
        invariant forall j {:trigger c[j]} :: k < j < |c| ==> buf[c[j]].refcnt > 0
        decreases k
      {
        assert k > 0;
        if buf[b].refcnt == 0 {
          forall x | 0 <= x < NBUF && buf[x].refcnt == 0 ensures stamp[b] <= stamp[x] {
            assert x in c;
            var j :| 0 <= j < |c| && c[j] == x;
            assert 1 <= j < k ==> Newer(c, stamp, j, k);
          }
          return b;
        }
        assert LinkOk(next, prev, c, k - 1);
        b := prev[b];
        k := k - 1;
      }
      assert k == 0;
      forall x | 0 <= x < NBUF ensures buf[x].refcnt > 0 {
        assert x in c;
      }
      return -1;
    }

    /** `brelse`: one reference less; a buffer that nobody uses any more moves to the front. */
    method Brelse(b: nat)
      requires Valid() && b < NBUF && buf[b].refcnt > 0
      modifies this
      ensures Valid() && buf == old(buf)[b := old(buf)[b].(refcnt := old(buf)[b].refcnt - 1)]
      ensures buf[b].refcnt > 0 ==> next == old(next) && prev == old(prev) && c == old(c) && stamp == old(stamp) && clock == old(clock)
      ensures buf[b].refcnt == 0 ==> next[HEAD] == b && stamp == old(stamp)[b := old(clock)] && clock == old(clock) + 1
    {
      Raised(buf, b, buf[b].refcnt - 1);
      buf := buf[b := buf[b].(refcnt := buf[b].refcnt - 1)];
      if buf[b].refcnt == 0 {
        assert b in c;
        ghost var k :| 0 <= k < |c| && c[k] == b;
        Unlink(b, k);
        MoveAges(old(c), stamp, clock, k);
        PushFront(b);
        assert LinkOk(next, prev, c, 0);
        stamp, clock := stamp[b := clock], clock + 1;
      }
    }

    /** Takes b out of the list. */
    method Unlink(b: nat, ghost k: nat)
      requires CycleOk(next, prev, c) && 0 < k < |c| && c[k] == b && b < NBUF
      modifies this`next, this`prev, this`c
      ensures CycleOk(next, prev, c) && c == Without(old(c), k) && b !in c
      ensures forall x :: x in old(c) <==> x in c || x == b
    {
      UnlinkOk(next, prev, c, k);
      prev := prev[next[b] := prev[b]];
      next := next[prev[b] := next[b]];
      c := Without(c, k);
    }

    /** `bpin` */
    method Bpin(b: nat)
      requires Valid() && b < NBUF
      modifies this`buf
      ensures Valid() && buf == old(buf)[b := old(buf)[b].(refcnt := old(buf)[b].refcnt + 1)]
    {
      Raised(buf, b, buf[b].refcnt + 1);
      buf := buf[b := buf[b].(refcnt := buf[b].refcnt + 1)];
    }

    /** `bunpin`; unlike `brelse` it leaves the buffer where it is in the list. */
    method Bunpin(b: nat)
      requires Valid() && b < NBUF && buf[b].refcnt > 0
      modifies this`buf
      ensures Valid() && buf == old(buf)[b := old(buf)[b].(refcnt := old(buf)[b].refcnt - 1)]
    {
      Raised(buf, b, buf[b].refcnt - 1);
      buf := buf[b := buf[b].(refcnt := buf[b].refcnt - 1)];
    }
  }

  lemma NewIsOutside(c: seq<nat>, stamp: seq<nat>, clock: nat, b: nat)
    requires AgesOk(c, stamp, clock, b) && b < NBUF && c[0] == HEAD
    ensures b !in c
  {
    forall k | 0 <= k < |c| ensures c[k] != b {
      assert k > 0 ==> c[k] < b;
    }
  }

  lemma EndOfList(c: seq<nat>, k: nat)
    requires c != [] && c[0] == HEAD && NoDup(c) && 1 <= k <= |c| && (k < |c| ==> c[k] == HEAD)
    ensures k == |c|
  {
    assert k < |c| ==> DiffAt(c, k, 0);
  }

  /** Reference counts are no part of the keys. */
  lemma Raised(buf: seq<Buf>, b: nat, n: nat)
    requires KeysOk(buf) && b < NBUF
    ensures KeysOk(buf[b := buf[b].(refcnt := n)])
  {
    var buf' := buf[b := buf[b].(refcnt := n)];
    forall i, j | 0 <= i < NBUF && 0 <= j < NBUF && i != j ensures KeysDiffer(buf', i, j) {
      assert KeysDiffer(buf, i, j);
    }
  }

  lemma Recycled(buf: seq<Buf>, b: nat, dev: nat, blockno: nat)
    requires KeysOk(buf) && b < NBUF && forall i :: !IsFor(buf, i, dev, blockno)
    ensures KeysOk(buf[b := Buf(dev, blockno, false, 1)])
  {
    var buf' := buf[b := Buf(dev, blockno, false, 1)];
    forall i, j | 0 <= i < NBUF && 0 <= j < NBUF && i != j ensures KeysDiffer(buf', i, j) {
      assert KeysDiffer(buf, i, j) && !IsFor(buf, i, dev, blockno) && !IsFor(buf, j, dev, blockno);
    }
  }
}
