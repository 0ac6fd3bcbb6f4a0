/** The user-level storage allocator (user/umalloc.c).  Addresses and sizes are counted in
    units of one Header; `home` says of each unit obtained from `sbrk` which block it is in. */
module Heap {
  import opened Common

  /** sizeof(Header) */
  const UNIT := 16

  /** The static header `base`; the data segment lies below all memory from `sbrk`. */
  const BASE := 1

  function Next(fl: seq<nat>, k: nat): nat
    requires k < |fl|
  {
    if k + 1 < |fl| then fl[k + 1] else fl[0]
  }

  predicate LinkOk(ptr: map<nat, nat>, fl: seq<nat>, k: nat)
    requires k < |fl|
  {
    fl[k] in ptr && ptr[fl[k]] == Next(fl, k)
  }

  /** The free list is one cycle in address order, through `base`. */
  ghost predicate ListOk(ptr: map<nat, nat>, fl: seq<nat>) {
    && |fl| > 0 && fl[0] == BASE
    && (forall j, k :: 0 <= j < k < |fl| ==> fl[j] < fl[k])
    && (forall k {:trigger LinkOk(ptr, fl, k)} :: 0 <= k < |fl| ==> LinkOk(ptr, fl, k))
  }

  predicate SizeOk(size: map<nat, nat>, fl: seq<nat>, k: nat)
    requires k < |fl|
  {
    && fl[k] in size && (if k == 0 then size[fl[k]] == 0 else 0 < size[fl[k]])
    && (k + 1 < |fl| ==> fl[k] + size[fl[k]] <= fl[k + 1])
  }

  /** Free block k does not touch the next one. */
  predicate Gap(size: map<nat, nat>, fl: seq<nat>, k: nat)
    requires k < |fl|
  {
    fl[k] in size && (k + 1 < |fl| ==> fl[k] + size[fl[k]] < fl[k + 1])
  }

  ghost predicate SizesOk(size: map<nat, nat>, fl: seq<nat>) {
    forall k {:trigger SizeOk(size, fl, k)} :: 0 <= k < |fl| ==> SizeOk(size, fl, k)
  }

  predicate IsBlock(fl: seq<nat>, live: map<nat, nat>, a: nat) {
    a in live || (a in fl && a != BASE)
  }

  predicate UnitOk(size: map<nat, nat>, fl: seq<nat>, live: map<nat, nat>, home: map<nat, nat>, u: nat)
    requires u in home
  {
    IsBlock(fl, live, home[u]) && home[u] in size && home[u] <= u < home[u] + size[home[u]]
  }

  predicate InBlock(size: map<nat, nat>, a: nat, u: nat) {
    a in size && a <= u < a + size[a]
  }

  /** Free and live blocks are disjoint and cover exactly the units of `home`. */
  ghost predicate HomeOk(size: map<nat, nat>, fl: seq<nat>, live: map<nat, nat>, home: map<nat, nat>) {
    && (forall u {:trigger UnitOk(size, fl, live, home, u)} :: u in home ==> UnitOk(size, fl, live, home, u))
    && (forall a, u {:trigger IsBlock(fl, live, a), InBlock(size, a, u)} :: IsBlock(fl, live, a) && InBlock(size, a, u) ==> u in home && home[u] == a)
    && (forall a {:trigger a in live} :: a in live ==> a !in fl && a in size && size[a] == live[a] && BASE < a && 0 < live[a])
  }

  ghost predicate HeapOk(ptr: map<nat, nat>, size: map<nat, nat>, fl: seq<nat>, live: map<nat, nat>, home: map<nat, nat>) {
    && ListOk(ptr, fl) && SizesOk(size, fl) && HomeOk(size, fl, live, home)
    && (forall k {:trigger Gap(size, fl, k)} :: 0 <= k < |fl| ==> Gap(size, fl, k))
  }

  // ---- linking a block in ----

  function Inserted(fl: seq<nat>, k: nat, b: nat): seq<nat>
    requires k < |fl|
  {
    fl[..k + 1] + [b] + fl[k + 1..]
  }

  /** Position k of the list is the place for the live block b. */
  ghost predicate Place(fl: seq<nat>, k: nat, b: nat) {
    k < |fl| && fl[k] < b && (k + 1 < |fl| ==> b < fl[k + 1])
  }

  lemma InsertList(ptr: map<nat, nat>, fl: seq<nat>, k: nat, b: nat)
    requires ListOk(ptr, fl) && Place(fl, k, b)
    ensures ListOk(ptr[fl[k] := b][b := Next(fl, k)], Inserted(fl, k, b))
  {
    var ptr', fl' := ptr[fl[k] := b][b := Next(fl, k)], Inserted(fl, k, b);
    forall j | 0 <= j < |fl'| ensures LinkOk(ptr', fl', j) {
      if j < k {
        assert LinkOk(ptr, fl, j);
      } else if j > k + 1 {
        assert LinkOk(ptr, fl, j - 1);
      }
    }
  }

  /** Blocks that differ do not overlap. */
  lemma Apart(size: map<nat, nat>, fl: seq<nat>, live: map<nat, nat>, home: map<nat, nat>, a: nat, b: nat)
    requires HomeOk(size, fl, live, home) && IsBlock(fl, live, a) && IsBlock(fl, live, b) && a < b
    requires a in size && b in size && 0 < size[b]
    ensures a + size[a] <= b
  {
    assert InBlock(size, b, b);
    assert b < a + size[a] ==> InBlock(size, a, b);
  }

  lemma InsertSizes(ptr: map<nat, nat>, size: map<nat, nat>, fl: seq<nat>, live: map<nat, nat>, home: map<nat, nat>, k: nat, b: nat)
    requires HeapOk(ptr, size, fl, live, home) && Place(fl, k, b) && b in live
    ensures SizesOk(size, Inserted(fl, k, b))
    ensures forall j {:trigger Gap(size, Inserted(fl, k, b), j)} :: 0 <= j <= |fl| && j != k && j != k + 1 ==> Gap(size, Inserted(fl, k, b), j)
  {
    var fl' := Inserted(fl, k, b);
    assert SizeOk(size, fl, k);
    if k > 0 {
      Apart(size, fl, live, home, fl[k], b);
    }
    if k + 1 < |fl| {
      assert SizeOk(size, fl, k + 1);
      Apart(size, fl, live, home, b, fl[k + 1]);
    }
    forall j | 0 <= j < |fl'| ensures SizeOk(size, fl', j) && (j != k && j != k + 1 ==> Gap(size, fl', j)) {
      if j <= k {
        assert SizeOk(size, fl, j) && Gap(size, fl, j);
      } else if j > k + 1 {
        assert SizeOk(size, fl, j - 1) && Gap(size, fl, j - 1);
      }
    }
  }

  lemma InsertHome(size: map<nat, nat>, fl: seq<nat>, live: map<nat, nat>, home: map<nat, nat>, k: nat, b: nat)
    requires HomeOk(size, fl, live, home) && Place(fl, k, b) && b in live
    ensures HomeOk(size, Inserted(fl, k, b), live - {b}, home)
  {
    var fl', live' := Inserted(fl, k, b), live - {b};
    forall a ensures IsBlock(fl', live', a) == IsBlock(fl, live, a) {
      InsertedElements(fl, k, b, a);
    }
    forall u | u in home ensures UnitOk(size, fl', live', home, u) {
      assert UnitOk(size, fl, live, home, u);
    }
    forall a | a in live' ensures a !in fl' {
      InsertedElements(fl, k, b, a);
    }
  }

  lemma InsertedElements(fl: seq<nat>, k: nat, b: nat, a: nat)
    requires k < |fl|
    ensures a in Inserted(fl, k, b) <==> a in fl || a == b
  {
    assert fl == fl[..k + 1] + fl[k + 1..];
  }

  // ---- joining two adjacent free blocks ----

  function Merged(fl: seq<nat>, k: nat): seq<nat>
    requires k + 1 < |fl|
  {
    fl[..k + 1] + fl[k + 2..]
  }

  function Moved(home: map<nat, nat>, from: nat, to: nat): map<nat, nat> {
    map u | u in home :: if home[u] == from then to else home[u]
  }

  lemma MergeList(ptr: map<nat, nat>, fl: seq<nat>, k: nat)
    requires ListOk(ptr, fl) && k + 1 < |fl|
    ensures fl[k + 1] in ptr && ListOk(ptr[fl[k] := ptr[fl[k + 1]]], Merged(fl, k))
  {
    assert LinkOk(ptr, fl, k + 1);
    var ptr', fl' := ptr[fl[k] := ptr[fl[k + 1]]], Merged(fl, k);
    forall j | 0 <= j < |fl'| ensures LinkOk(ptr', fl', j) {
      if j < k {
        assert LinkOk(ptr, fl, j);
      } else if j > k {
        assert LinkOk(ptr, fl, j + 1);
      }
    }
  }

  lemma MergeSizes(size: map<nat, nat>, fl: seq<nat>, k: nat, size': map<nat, nat>)
    requires SizesOk(size, fl) && 0 < k && k + 1 < |fl| && (forall i, j :: 0 <= i < j < |fl| ==> fl[i] < fl[j])
    requires fl[k] in size && fl[k + 1] in size && size' == size[fl[k] := size[fl[k]] + size[fl[k + 1]]]
    requires fl[k] + size[fl[k]] == fl[k + 1]
    ensures SizesOk(size', Merged(fl, k))
    ensures forall j {:trigger Gap(size', Merged(fl, k), j)} :: 0 <= j < |fl| - 1 && Gap(size, fl, if j < k then j else j + 1) ==> Gap(size', Merged(fl, k), j)
  {
    var fl' := Merged(fl, k);
    assert SizeOk(size, fl, k) && SizeOk(size, fl, k + 1);
    forall j | 0 <= j < |fl'| ensures SizeOk(size', fl', j) {
      if j < k {
        assert SizeOk(size, fl, j);
      } else if j > k {
        assert SizeOk(size, fl, j + 1);
      }
    }
  }

  lemma MergeHome(size: map<nat, nat>, fl: seq<nat>, live: map<nat, nat>, home: map<nat, nat>, k: nat, size': map<nat, nat>)
    requires HomeOk(size, fl, live, home) && SizesOk(size, fl) && 0 < k && k + 1 < |fl| && fl[0] == BASE
    requires forall i, j :: 0 <= i < j < |fl| ==> fl[i] < fl[j]
    requires fl[k] in size && fl[k + 1] in size && size' == size[fl[k] := size[fl[k]] + size[fl[k + 1]]]
    requires fl[k] + size[fl[k]] == fl[k + 1]
    ensures HomeOk(size', Merged(fl, k), live, Moved(home, fl[k + 1], fl[k]))
  {
    var fl', home' := Merged(fl, k), Moved(home, fl[k + 1], fl[k]);
    var p, q := fl[k], fl[k + 1];
    assert SizeOk(size, fl, k) && SizeOk(size, fl, k + 1);
    assert IsBlock(fl, live, p) && IsBlock(fl, live, q);
    forall a ensures IsBlock(fl', live, a) == (IsBlock(fl, live, a) && a != q) {
      MergedElements(fl, k, a);
    }
    forall u | u in home' ensures UnitOk(size', fl', live, home', u) {
      assert UnitOk(size, fl, live, home, u);
    }
    forall a, u | IsBlock(fl', live, a) && InBlock(size', a, u) ensures u in home' && home'[u] == a {
      if a == p && q <= u {
        assert InBlock(size, q, u);
      } else {
        assert InBlock(size, a, u);
      }
    }
    forall a | a in live ensures a !in fl' {
      MergedElements(fl, k, a);
    }
  }

  lemma MergedElements(fl: seq<nat>, k: nat, a: nat)
    requires k + 1 < |fl| && (forall i, j :: 0 <= i < j < |fl| ==> fl[i] < fl[j])
    ensures a in Merged(fl, k) <==> a in fl && a != fl[k + 1]
  {
    assert fl == fl[..k + 1] + [fl[k + 1]] + fl[k + 2..];
  }

  // ---- freeing: insert, then join with the next and the previous block ----

  /** The list right after a block was linked in at k + 1: it may touch its neighbours. */
  ghost predicate Loose(ptr: map<nat, nat>, size: map<nat, nat>, fl: seq<nat>, live: map<nat, nat>, home: map<nat, nat>, k: nat, n: nat) {
    && ListOk(ptr, fl) && SizesOk(size, fl) && HomeOk(size, fl, live, home)
    && (forall j {:trigger Gap(size, fl, j)} :: 0 <= j < |fl| && !(k <= j < k + n) ==> Gap(size, fl, j))
  }

  lemma InsertOk(ptr: map<nat, nat>, size: map<nat, nat>, fl: seq<nat>, live: map<nat, nat>, home: map<nat, nat>, k: nat, b: nat)
    requires HeapOk(ptr, size, fl, live, home) && Place(fl, k, b) && b in live
    ensures Loose(ptr[fl[k] := b][b := Next(fl, k)], size, Inserted(fl, k, b), live - {b}, home, k, 2)
  {
    InsertList(ptr, fl, k, b);
    InsertSizes(ptr, size, fl, live, home, k, b);
    InsertHome(size, fl, live, home, k, b);
  }

  lemma MergeOk(ptr: map<nat, nat>, size: map<nat, nat>, fl: seq<nat>, live: map<nat, nat>, home: map<nat, nat>, k: nat, n: nat, m: nat)
    requires Loose(ptr, size, fl, live, home, k, n) && m + 1 < |fl| && m + 1 == k + n && k <= m && 0 < m
    requires fl[m] in size && fl[m + 1] in size && fl[m] + size[fl[m]] == fl[m + 1]
    ensures fl[m + 1] in ptr
    ensures Loose(ptr[fl[m] := ptr[fl[m + 1]]], size[fl[m] := size[fl[m]] + size[fl[m + 1]]], Merged(fl, m), live, Moved(home, fl[m + 1], fl[m]), k, n - 1)
  {
    var size' := size[fl[m] := size[fl[m]] + size[fl[m + 1]]];
    MergeList(ptr, fl, m);
    MergeSizes(size, fl, m, size');
    MergeHome(size, fl, live, home, m, size');
    forall j | 0 <= j < |fl| - 1 && !(k <= j < k + (n - 1)) ensures Gap(size', Merged(fl, m), j) {
      assert Gap(size, fl, if j < m then j else j + 1);
    }
  }

  lemma NextMerged(ptr: map<nat, nat>, size: map<nat, nat>, fl: seq<nat>, live: map<nat, nat>, home: map<nat, nat>, p: nat, b: nat, nx: nat, k: nat)
    requires p in ptr && b in size && k + 1 < |fl| && fl[k] == p && fl[k + 1] == b && nx == ptr[p] && b + size[b] == nx
    requires Loose(ptr[p := b][b := nx], size, fl, live, home, k, 2)
    ensures nx in size && nx in ptr && k + 2 < |fl| && fl[k + 2] == nx
    ensures Loose(ptr[b := ptr[nx]][p := b], size[b := size[b] + size[nx]], Merged(fl, k + 1), live, Moved(home, nx, b), k, 1)
  {
    var v := ptr[p := b][b := nx];
    assert LinkOk(v, fl, k + 1) && SizeOk(size, fl, k + 1);
    assert SizeOk(size, fl, k + 2) && LinkOk(v, fl, k + 2);
    MergeOk(v, size, fl, live, home, k, 2, k + 1);
    assert v[b := v[nx]] == ptr[b := ptr[nx]][p := b];
  }

  lemma NextLinked(ptr: map<nat, nat>, size: map<nat, nat>, fl: seq<nat>, live: map<nat, nat>, home: map<nat, nat>, p: nat, b: nat, nx: nat, k: nat)
    requires p in ptr && b in size && k + 1 < |fl| && fl[k] == p && fl[k + 1] == b && nx == ptr[p] && b + size[b] != nx
    requires Loose(ptr[p := b][b := nx], size, fl, live, home, k, 2)
    ensures Loose(ptr[b := nx][p := b], size, fl, live, home, k, 1)
  {
    var v := ptr[p := b][b := nx];
    assert LinkOk(v, fl, k + 1) && SizeOk(size, fl, k + 1);
    assert v == ptr[b := nx][p := b];
  }

  lemma PreviousMerged(ptr: map<nat, nat>, size: map<nat, nat>, fl: seq<nat>, live: map<nat, nat>, home: map<nat, nat>, p: nat, b: nat, k: nat)
    requires p in ptr && b in ptr && p in size && b in size && k + 1 < |fl| && fl[k] == p && fl[k + 1] == b && p + size[p] == b
    requires Loose(ptr[p := b], size, fl, live, home, k, 1)
    ensures HeapOk(ptr[p := ptr[b]], size[p := size[p] + size[b]], Merged(fl, k), live, Moved(home, b, p))
  {
    var v := ptr[p := b];
    assert SizeOk(size, fl, k) && SizeOk(size, fl, k + 1) && LinkOk(v, fl, k + 1);
    MergeOk(v, size, fl, live, home, k, 1, k);
    assert v[p := v[b]] == ptr[p := ptr[b]];
  }

  /** The place exists: it is the last free block below b. */
  lemma {:induction false} PlaceExists(fl: seq<nat>, b: nat, n: nat) returns (k: nat)
    requires 0 < n <= |fl| && fl[0] < b && b !in fl && (n < |fl| ==> b < fl[n])
    ensures Place(fl, k, b)
  {
    if fl[n - 1] < b {
      k := n - 1;
    } else {
      assert fl[n - 1] != b;
      k := PlaceExists(fl, b, n - 1);
    }
  }

  /** How far the walk of `free` still has to go round the list, from j to k. */
  function Ahead(n: nat, j: nat, k: nat): nat
    requires j < n && k < n
  {
    if j <= k then k - j else k + n - j
  }

  // ---- memory from sbrk ----

  predicate Within(u: nat, a: nat, n: nat) {
    a <= u < a + n
  }

  function Units(a: nat, n: nat): map<nat, nat> {
    map u: nat | a <= u < a + n && Within(u, a, n) :: a
  }

  /** `sbrk` returns memory above all that it returned before. */
  ghost predicate Above(home: map<nat, nat>, g: nat) {
    BASE < g && forall u :: u in home ==> u < g
  }

  lemma GrowOk(ptr: map<nat, nat>, size: map<nat, nat>, fl: seq<nat>, live: map<nat, nat>, home: map<nat, nat>, g: nat, n: nat)
    requires HeapOk(ptr, size, fl, live, home) && Above(home, g) && 0 < n
    ensures g !in live && g !in fl && HeapOk(ptr, size[g := n], fl, live[g := n], home + Units(g, n))
  {
    var size', live', home' := size[g := n], live[g := n], home + Units(g, n);
    forall a: nat | IsBlock(fl, live, a) ensures a in size && a + size[a] <= g && a < g {
      BlockFits(ptr, size, fl, live, home, a, g);
    }
    assert !IsBlock(fl, live, g);
    forall k | 0 <= k < |fl| ensures SizeOk(size', fl, k) && Gap(size', fl, k) {
      assert SizeOk(size, fl, k) && Gap(size, fl, k) && fl[k] in fl && (k > 0 ==> IsBlock(fl, live, fl[k]));
    }
    forall u | u in home' ensures UnitOk(size', fl, live', home', u) {
      if u in home {
        assert UnitOk(size, fl, live, home, u);
        assert !Within(u, g, n);
      }
    }
    forall a, u | IsBlock(fl, live', a) && InBlock(size', a, u) ensures u in home' && home'[u] == a {
      if a == g {
        assert Within(u, g, n);
      } else {
        assert IsBlock(fl, live, a) && InBlock(size, a, u);
      }
    }
  }

  /** The last unit of a block is a unit of the heap. */
  lemma BlockFits(ptr: map<nat, nat>, size: map<nat, nat>, fl: seq<nat>, live: map<nat, nat>, home: map<nat, nat>, a: nat, g: nat)
    requires HeapOk(ptr, size, fl, live, home) && Above(home, g) && IsBlock(fl, live, a)
    ensures a in size && a + size[a] <= g && a < g
  {
    if a !in live {
      var k :| 0 <= k < |fl| && fl[k] == a;
      assert SizeOk(size, fl, k);
    }
    assert InBlock(size, a, a + size[a] - 1);
  }

  // ---- allocating ----

  /** An exact fit leaves the list. */
  lemma TakeWhole(ptr: map<nat, nat>, size: map<nat, nat>, fl: seq<nat>, live: map<nat, nat>, home: map<nat, nat>, k: nat)
    requires HeapOk(ptr, size, fl, live, home) && 0 < k < |fl| && fl[k] in size && fl[k] in ptr
    ensures fl[k] !in live
    ensures HeapOk(ptr[fl[k - 1] := ptr[fl[k]]], size, Merged(fl, k - 1), live[fl[k] := size[fl[k]]], home)
  {
    MergeList(ptr, fl, k - 1);
    assert SizeOk(size, fl, k) && fl[k] in fl;
    var fl' := Merged(fl, k - 1);
    forall j | 0 <= j < |fl'| ensures SizeOk(size, fl', j) && Gap(size, fl', j) {
      RemovedAt(size, fl, k, j);
    }
    TakeHome(size, fl, live, home, k);
  }

  lemma RemovedAt(size: map<nat, nat>, fl: seq<nat>, k: nat, j: nat)
    requires SizesOk(size, fl) && (forall k {:trigger Gap(size, fl, k)} :: 0 <= k < |fl| ==> Gap(size, fl, k))
    requires 0 < k < |fl| && j < |fl| - 1 && (forall i, j :: 0 <= i < j < |fl| ==> fl[i] < fl[j])
    ensures SizeOk(size, Merged(fl, k - 1), j) && Gap(size, Merged(fl, k - 1), j)
  {
    var i := if j < k then j else j + 1;
    assert SizeOk(size, fl, i) && Gap(size, fl, i);
  }

  lemma TakeHome(size: map<nat, nat>, fl: seq<nat>, live: map<nat, nat>, home: map<nat, nat>, k: nat)
    requires HomeOk(size, fl, live, home) && 0 < k < |fl| && fl[k] in size && 0 < size[fl[k]] && fl[0] == BASE
    requires forall i, j :: 0 <= i < j < |fl| ==> fl[i] < fl[j]
    ensures HomeOk(size, Merged(fl, k - 1), live[fl[k] := size[fl[k]]], home)
  {
    var fl', p := Merged(fl, k - 1), fl[k];
    var live' := live[p := size[p]];
    forall a: nat ensures IsBlock(fl', live', a) == IsBlock(fl, live, a) {
      MergedElements(fl, k - 1, a);
    }
    forall u | u in home ensures UnitOk(size, fl', live', home, u) {
      assert UnitOk(size, fl, live, home, u);
    }
    forall a | a in live' ensures a !in fl' {
      MergedElements(fl, k - 1, a);
    }
  }

  /** The tail of a larger block becomes a block of its own. */
  lemma TakeTail(ptr: map<nat, nat>, size: map<nat, nat>, fl: seq<nat>, live: map<nat, nat>, home: map<nat, nat>, k: nat, n: nat, q: nat)
    requires HeapOk(ptr, size, fl, live, home) && 0 < k < |fl| && fl[k] in size && 0 < n < size[fl[k]]
    requires q == fl[k] + (size[fl[k]] - n)
    ensures q !in live && q !in fl
    ensures HeapOk(ptr, size[fl[k] := size[fl[k]] - n][q := n], fl, live[q := n], home + Units(q, n))
    ensures (home + Units(q, n)).Keys == home.Keys
  {
    var p := fl[k];
    var size' := size[p := size[p] - n][q := n];
    assert p in fl && IsBlock(fl, live, p);
    forall u: nat | Within(u, q, n) ensures u in home && home[u] == p {
      assert InBlock(size, p, u);
    }
    assert Within(q, q, n);
    if IsBlock(fl, live, q) {
      BlockSize(ptr, size, fl, live, home, q);
      assert InBlock(size, q, q);
    }
    forall j | 0 <= j < |fl| ensures SizeOk(size', fl, j) && Gap(size', fl, j) {
      assert SizeOk(size, fl, j) && Gap(size, fl, j) && fl[j] in fl && fl[j] != q;
    }
    SplitHome(size, fl, live, home, p, n, q);
  }

  lemma SplitHome(size: map<nat, nat>, fl: seq<nat>, live: map<nat, nat>, home: map<nat, nat>, p: nat, n: nat, q: nat)
    requires HomeOk(size, fl, live, home) && p in size && 0 < n < size[p] && q == p + (size[p] - n) && BASE < q
    requires p !in live && IsBlock(fl, live, p) && !IsBlock(fl, live, q) && q !in fl
    requires forall u: nat {:trigger Within(u, q, n)} :: Within(u, q, n) ==> u in home && home[u] == p
    ensures HomeOk(size[p := size[p] - n][q := n], fl, live[q := n], home + Units(q, n))
  {
    var size', live', home' := size[p := size[p] - n][q := n], live[q := n], home + Units(q, n);
    forall u | u in home' ensures UnitOk(size', fl, live', home', u) {
      assert Within(u, q, n) || UnitOk(size, fl, live, home, u);
      assert home'[u] == if Within(u, q, n) then q else home[u];
    }
    forall a, u | IsBlock(fl, live', a) && InBlock(size', a, u) ensures u in home' && home'[u] == a {
      if a == q {
        assert Within(u, q, n);
      } else {
        assert IsBlock(fl, live, a) && InBlock(size, a, u);
        assert !Within(u, q, n);
      }
    }
  }

  lemma BlockSize(ptr: map<nat, nat>, size: map<nat, nat>, fl: seq<nat>, live: map<nat, nat>, home: map<nat, nat>, a: nat)
    requires HeapOk(ptr, size, fl, live, home) && IsBlock(fl, live, a)
    ensures a in size && 0 < size[a]
  {
    if a !in live {
      var k :| 0 <= k < |fl| && fl[k] == a;
      assert SizeOk(size, fl, k);
    }
  }

  class Allocator {
    var ptr: map<nat, nat>
    var size: map<nat, nat>
    var freep: nat
    ghost var fl: seq<nat>
    ghost var live: map<nat, nat>
    ghost var home: map<nat, nat>

    /** Before the first call there is no list; `freep` is null. */
    ghost predicate Valid()
      reads this
    {
      if freep == 0 then live == map[] && home == map[] else HeapOk(ptr, size, fl, live, home) && freep in fl
    }

    constructor ()
      ensures Valid() && live == map[] && home == map[]
    {
      ptr, size, freep := map[], map[], 0;
      fl, live, home := [], map[], map[];
    }

    /** The search loop of `free`. */
    method FindPlace(b: nat) returns (p: nat, ghost k: nat)
      requires HeapOk(ptr, size, fl, live, home) && freep in fl && b in live
      ensures Place(fl, k, b) && p == fl[k]
    {
      k := PlaceExists(fl, b, |fl|);
      p := freep;
      ghost var j: nat :| j < |fl| && fl[j] == p;
      assert LinkOk(ptr, fl, j);
      while !(b > p && b < ptr[p])
        invariant j < |fl| && p == fl[j] && LinkOk(ptr, fl, j)
        decreases Ahead(|fl|, j, k)
      {
        if p >= ptr[p] && (b > p || b < ptr[p]) {
          break;
        }
        assert j != k;
        p := ptr[p];
        j := if j + 1 < |fl| then j + 1 else 0;
        assert LinkOk(ptr, fl, j);
      }
      assert j == k;
    }

    /** `free`: the block leaves the live ones and joins the free list, merged with a free
        neighbour on either side; no other block and no unit is lost or gained. */
    method Free(ap: nat)
      requires Valid() && 0 < ap && ap - 1 in live
      modifies this
      ensures Valid() && live == old(live) - {ap - 1} && home.Keys == old(home).Keys
      ensures freep != 0 && freep in size && freep in ptr && ptr[freep] in size
      ensures old(live)[ap - 1] <= size[freep] || old(live)[ap - 1] <= size[ptr[freep]]
    {
      var b := ap - 1;
      var p;
      ghost var k;
      p, k := FindPlace(b);
      InsertOk(ptr, size, fl, live, home, k, b);
      assert LinkOk(ptr, fl, k);
      fl, live := Inserted(fl, k, b), live - {b};
      JoinNext(p, b, k);
      JoinPrevious(p, b, k);
      freep := p;
    }

    /** The first conditional of `free`: b joined with the free block after it, or linked to it. */
    method JoinNext(p: nat, b: nat, ghost k: nat)
      requires p in ptr && b in size && k + 1 < |fl| && fl[k] == p && fl[k + 1] == b
      requires Loose(ptr[p := b][b := ptr[p]], size, fl, live, home, k, 2)
      modifies this`ptr, this`size, this`fl, this`home
      ensures k + 1 < |fl| && fl[k] == p && fl[k + 1] == b && p in ptr && b in ptr && b in size && old(size)[b] <= size[b]
      ensures Loose(ptr[p := b], size, fl, live, home, k, 1) && home.Keys == old(home).Keys
    {
      var nx: nat := ptr[p];
      if b + size[b] == nx {
        NextMerged(ptr, size, fl, live, home, p, b, nx, k);
        size := size[b := size[b] + size[nx]];
        ptr := ptr[b := ptr[nx]];
        home := Moved(home, nx, b);
        fl := Merged(fl, k + 1);
      } else {
        NextLinked(ptr, size, fl, live, home, p, b, nx, k);
        ptr := ptr[b := nx];
      }
    }

    /** The second conditional of `free`: p joined with b, or linked to it. */
    method JoinPrevious(p: nat, b: nat, ghost k: nat)
      requires p in ptr && b in ptr && b in size && k + 1 < |fl| && fl[k] == p && fl[k + 1] == b
      requires Loose(ptr[p := b], size, fl, live, home, k, 1)
      modifies this`ptr, this`size, this`fl, this`home
      ensures HeapOk(ptr, size, fl, live, home) && home.Keys == old(home).Keys
      ensures p in fl && p in size && p in ptr && ptr[p] in size
      ensures old(size)[b] <= size[p] || (ptr[p] == b && size[b] == old(size)[b])
    {
      assert SizeOk(size, fl, k) && SizeOk(size, fl, k + 1);
      if p + size[p] == b {
        PreviousMerged(ptr, size, fl, live, home, p, b, k);
        size := size[p := size[p] + size[b]];
        ptr := ptr[p := ptr[b]];
        home := Moved(home, b, p);
        fl := Merged(fl, k);
        assert fl[k] == p && SizeOk(size, fl, k) && LinkOk(ptr, fl, k);
        assert SizeOk(size, fl, if k + 1 < |fl| then k + 1 else 0);
      } else {
        ptr := ptr[p := b];
      }
    }

    /** `morecore`: at least 4096 units join the free list, next to `freep` or as part of it;
        `grant` is the answer of `sbrk`, 0 for failure. */
    method MoreCore(nu: nat, grant: nat) returns (p: nat)
      requires Valid() && freep != 0 && (grant != 0 ==> Above(home, grant))
      modifies this
      ensures Valid() && live == old(live) && p == (if grant == 0 then 0 else freep) && freep != 0
      ensures grant == 0 ==> unchanged(this)
      ensures grant != 0 ==> home.Keys == old(home).Keys + Units(grant, Most(nu, 4096)).Keys
      ensures grant != 0 ==> freep in size && freep in ptr && ptr[freep] in size && (nu <= size[freep] || nu <= size[ptr[freep]])
    {
      var n := if nu < 4096 then 4096 else nu;
      if grant == 0 {
        return 0;
      }
      GrowOk(ptr, size, fl, live, home, grant, n);
      size := size[grant := n];
      live, home := live[grant := n], home + Units(grant, n);
      Free(grant + 1);
      assert live == old(live);
      p := freep;
    }

    /** Where the walk of `malloc` is: p is block j of the list, and no block between `freep`
        and it is large enough. */
    ghost predicate Walking(f: nat, j: nat, prevp: nat, p: nat, nunits: nat)
      reads this
    {
      && HeapOk(ptr, size, fl, live, home) && f < |fl| && fl[f] == freep && j < |fl|
      && p == fl[j] && prevp == fl[if j == 0 then |fl| - 1 else j - 1]
      && forall i {:trigger Passed(|fl|, i, j, f)} :: 0 <= i < |fl| && Passed(|fl|, i, j, f) ==> fl[i] in size && size[fl[i]] < nunits
    }

    lemma WalkStart(f: nat, nunits: nat)
      requires HeapOk(ptr, size, fl, live, home) && f < |fl| && fl[f] == freep
      ensures freep in ptr && ptr[freep] in size && ptr[freep] in ptr && Walking(f, Succ(|fl|, f), freep, ptr[freep], nunits)
    {
      assert LinkOk(ptr, fl, f) && LinkOk(ptr, fl, Succ(|fl|, f)) && SizeOk(size, fl, Succ(|fl|, f));
    }

    /** One step of the walk. */
    lemma WalkStep(f: nat, j: nat, prevp: nat, p: nat, nunits: nat)
      requires Walking(f, j, prevp, p, nunits) && j != f && p in size && size[p] < nunits
      ensures p in ptr && ptr[p] in size && ptr[p] in ptr
      ensures Walking(f, Succ(|fl|, j), p, ptr[p], nunits)
      ensures Ahead(|fl|, Succ(|fl|, j), f) < Ahead(|fl|, j, f)
    {
      var k := Succ(|fl|, j);
      assert LinkOk(ptr, fl, j) && LinkOk(ptr, fl, k) && SizeOk(size, fl, k);
      forall i | 0 <= i < |fl| && Passed(|fl|, i, k, f) ensures fl[i] in size && size[fl[i]] < nunits {
        assert i == j || Passed(|fl|, i, j, f);
      }
    }

    /** At `freep` the walk has been everywhere. */
    lemma WalkEnd(f: nat, j: nat, prevp: nat, p: nat, nunits: nat)
      requires Walking(f, j, prevp, p, nunits) && p == freep && p in size && size[p] < nunits
      ensures forall k {:trigger fl[k]} :: 0 <= k < |fl| ==> fl[k] in size && size[fl[k]] < nunits
    {
      forall k | 0 <= k < |fl| ensures fl[k] in size && size[fl[k]] < nunits {
        assert k == j || Passed(|fl|, k, j, f);
      }
    }

    /** The walk of `malloc`.  It asks `sbrk` at most once, since what it then gets is large
        enough; it fails only when no free block is large enough and `sbrk` fails. */
    method Search(nunits: nat, grant: nat) returns (prevp: nat, p: nat, ghost j: nat)
      requires Valid() && freep != 0 && 0 < nunits && (grant != 0 ==> Above(home, grant))
      modifies this
      ensures Valid() && freep != 0 && live == old(live)
      ensures home.Keys == old(home).Keys || (grant != 0 && home.Keys == old(home).Keys + Units(grant, Most(nunits, 4096)).Keys)
      ensures p == 0 ==> grant == 0 && home == old(home) && forall k {:trigger fl[k]} :: 0 <= k < |fl| ==> fl[k] in size && size[fl[k]] < nunits
      ensures p != 0 ==> 0 < j < |fl| && p == fl[j] && prevp == fl[j - 1] && p in size && p in ptr && nunits <= size[p]
    {
      ghost var f: nat :| f < |fl| && fl[f] == freep;
      WalkStart(f, nunits);
      prevp := freep;
      p := ptr[prevp];
      j := Succ(|fl|, f);
      ghost var asked := false;
      while size[p] < nunits
        invariant Walking(f, j, prevp, p, nunits) && p in size && p in ptr && freep != 0 && live == old(live)
        invariant if asked then grant != 0 && home.Keys == old(home).Keys + Units(grant, Most(nunits, 4096)).Keys else home == old(home)
        invariant asked ==> freep in size && (nunits <= size[freep] || nunits <= size[p])
        decreases if asked then 0 else 1, Ahead(|fl|, j, f)
      {
        if p == freep {
          WalkEnd(f, j, prevp, p, nunits);
          p := MoreCore(nunits, grant);
          if p == 0 {
            return;
          }
          asked := true;
          f :| f < |fl| && fl[f] == freep;
          WalkStart(f, nunits);
          j := f;
        } else {
          WalkStep(f, j, prevp, p, nunits);
        }
        prevp := p;
        p := ptr[p];
        j := Succ(|fl|, j);
      }
      assert SizeOk(size, fl, j);
    }

    /** `malloc`: a block for nbytes bytes that no live block overlaps. */
    method Malloc(nbytes: nat, grant: nat) returns (r: nat)
      requires Valid() && (grant != 0 ==> Above(home, grant))
      modifies this
      ensures Valid()
      ensures home.Keys == old(home).Keys ||
              (grant != 0 && home.Keys == old(home).Keys + Units(grant, Most((nbytes + UNIT - 1) / UNIT + 1, 4096)).Keys)
      ensures r == 0 ==> live == old(live) && home == old(home) && grant == 0
      ensures r == 0 ==> forall k {:trigger fl[k]} :: 0 <= k < |fl| ==> fl[k] in size && UNIT * size[fl[k]] < nbytes + UNIT
      ensures r != 0 ==> r - 1 !in old(live) && live == old(live)[r - 1 := (nbytes + UNIT - 1) / UNIT + 1]
      ensures r != 0 ==> nbytes <= UNIT * (live[r - 1] - 1) < nbytes + UNIT
    {
      var nunits := (nbytes + UNIT - 1) / UNIT + 1;
      if freep == 0 {
        StartList();
      }
      ghost var j;
      var prevp, p;
      prevp, p, j := Search(nunits, grant);
      if p == 0 {
        return 0;
      }
      p := Carve(prevp, p, nunits, j);
      r := p + 1;
    }

    /** The first call links `base` to itself. */
    method StartList()
      requires Valid() && freep == 0
      modifies this
      ensures Valid() && freep == BASE && live == old(live) && home == old(home)
    {
      ptr, size, freep := ptr[BASE := BASE], size[BASE := 0], BASE;
      fl := [BASE];
      assert forall a: nat :: !IsBlock(fl, live, a);
      assert LinkOk(ptr, fl, 0) && SizeOk(size, fl, 0) && Gap(size, fl, 0);
    }

    /** The block found, or its tail, is handed out. */
    method Carve(prevp: nat, p0: nat, nunits: nat, ghost j: nat) returns (p: nat)
      requires HeapOk(ptr, size, fl, live, home) && 0 < j < |fl| && p0 == fl[j] && prevp == fl[j - 1]
      requires p0 in size && p0 in ptr && 0 < nunits <= size[p0]
      modifies this
      ensures Valid() && freep == prevp && freep != 0 && p !in old(live) && live == old(live)[p := nunits] && home.Keys == old(home).Keys
    {
      p := p0;
      if size[p] == nunits {
        CarveWhole(prevp, p, j);
      } else {
        p := CarveTail(p, nunits, j);
      }
      freep := prevp;
    }

    method CarveWhole(prevp: nat, p: nat, ghost j: nat)
      requires HeapOk(ptr, size, fl, live, home) && 0 < j < |fl| && p == fl[j] && prevp == fl[j - 1] && p in size && p in ptr
      modifies this`ptr, this`fl, this`live
      ensures HeapOk(ptr, size, fl, live, home) && prevp in fl && prevp != 0 && p !in old(live) && live == old(live)[p := size[p]]
    {
      assert BASE <= fl[j - 1];
      TakeWhole(ptr, size, fl, live, home, j);
      ptr := ptr[prevp := ptr[p]];
      fl, live := Merged(fl, j - 1), live[p := size[p]];
      assert fl[j - 1] == prevp;
    }

    method CarveTail(p0: nat, nunits: nat, ghost j: nat) returns (p: nat)
      requires HeapOk(ptr, size, fl, live, home) && 0 < j < |fl| && p0 == fl[j] && p0 in size && 0 < nunits < size[p0]
      modifies this`size, this`live, this`home
      ensures HeapOk(ptr, size, fl, live, home) && p !in old(live) && live == old(live)[p := nunits] && home.Keys == old(home).Keys
    {
      p := p0;
      TakeTail(ptr, size, fl, live, home, j, nunits, p + (size[p] - nunits));
      size := size[p := size[p] - nunits];
      p := p + size[p];
      size := size[p := nunits];
      live, home := live[p := nunits], home + Units(p, nunits);
    }
  }

  function Most(a: nat, b: nat): nat {
    if a < b then b else a
  }

  /** Going round from f, the walk comes to i before it comes to j. */
  predicate Passed(n: nat, i: nat, j: nat, f: nat)
    requires i < n && j < n && f < n
  {
    Ahead(n, j, f) < Ahead(n, i, f)
  }
}
