/** Whether `bget` finds a buffer (kernel/bio.c:73-88).  Logged blocks stay pinned until they
    are installed, and there are no more buffers than a full log has blocks. */
module WalBuffers {
  import opened Common
  import opened WalModel
  import opened WalInvariant
  import opened WalSafety

  /** `bget(b)` panics with "no buffers": the block is not cached and every buffer is in use. */
  predicate NoBuffer(s: State, b: nat) {
    forall i :: 0 <= i < |s.bufs| ==> s.bufs[i].block != Some(b) && s.bufs[i].refcnt > 0
  }

  predicate IsIndex(i: nat, n: nat) {
    i < n
  }

  function Indices(n: nat): set<nat> {
    set i: nat | 0 <= i < n && IsIndex(i, n)
  }

  lemma {:induction false} IndicesSize(n: nat)
    ensures |Indices(n)| == n && forall i :: 0 <= i < n ==> i in Indices(n)
  {
    if n > 0 {
      IndicesSize(n - 1);
      forall i | 0 <= i < n ensures i in Indices(n) {
        assert IsIndex(i, n);
      }
      assert Indices(n) == Indices(n - 1) + {n - 1};
    }
  }

  /** The buffers of the blocks in q. */
  function BuffersOf(s: State, q: seq<nat>): set<nat> {
    set i | 0 <= i < |s.bufs| && s.bufs[i].block.Some? && s.bufs[i].block.value in q
  }

  /** The buffers that the log keeps from being recycled. */
  function PinnedBuffers(s: State): set<nat> {
    set i | 0 <= i < |s.bufs| && s.bufs[i].block.Some? && Pinned(s, s.bufs[i].block.value)
  }

  /** The other buffers that somebody uses. */
  function Busy(s: State): set<nat> {
    set i | 0 <= i < |s.bufs| && s.bufs[i].refcnt > 0 && i !in PinnedBuffers(s)
  }

  lemma OneMoreBuffer(L: Layout, s: State, q: seq<nat>, x: nat, i: nat)
    requires CacheOk(L, s) && x !in q && i < |s.bufs| && s.bufs[i].Caches(x)
    ensures i !in BuffersOf(s, q) && BuffersOf(s, q + [x]) == BuffersOf(s, q) + {i}
  {
    assert forall j :: 0 <= j < |s.bufs| && s.bufs[j].block == s.bufs[i].block ==> j == i;
  }

  lemma {:induction false} OneBufferEach(L: Layout, s: State, q: seq<nat>)
    requires CacheOk(L, s) && Distinct(q) && forall k :: 0 <= k < |q| ==> Cached(s, q[k])
    ensures |BuffersOf(s, q)| == |q|
  {
    if q == [] {
      assert BuffersOf(s, q) == {};
    } else {
      var n := |q| - 1;
      var r, x := q[..n], q[n];
      assert q == r + [x] && Cached(s, x);
      OneBufferEach(L, s, r);
      var i :| 0 <= i < |s.bufs| && s.bufs[i].Caches(x);
      OneMoreBuffer(L, s, r, x, i);
    }
  }

  lemma PinnedList(s: State, q: seq<nat>)
    requires PinnedFrom(s) <= |s.lh| && q == s.lh[PinnedFrom(s)..]
    ensures PinnedBuffers(s) == BuffersOf(s, q)
  {
    forall b | Pinned(s, b) ensures b in q {
      var k :| PinnedFrom(s) <= k < |s.lh| && s.lh[k] == b;
      assert q[k - PinnedFrom(s)] == b;
    }
    forall b | b in q ensures Pinned(s, b) {
      var k :| 0 <= k < |q| && q[k] == b;
      assert s.lh[PinnedFrom(s) + k] == b;
    }
  }

  /** One for each logged block that is not yet installed. */
  lemma PinnedSize(L: Layout, s: State)
    requires Inv(L, s)
    ensures |PinnedBuffers(s)| == |s.lh| - PinnedFrom(s)
    ensures forall i :: i in PinnedBuffers(s) ==> s.bufs[i].refcnt > 0
  {
    var q := s.lh[PinnedFrom(s)..];
    PinnedList(s, q);
    forall k | 0 <= k < |q| ensures Cached(s, q[k]) {
      assert Cached(s, s.lh[PinnedFrom(s) + k]);
    }
    OneBufferEach(L, s, q);
    forall i | i in PinnedBuffers(s) ensures s.bufs[i].refcnt > 0 {
      assert SlotOk(L, s, i);
    }
  }

  /** Every buffer is pinned or used otherwise exactly if these are NBUF together. */
  lemma AllUsed(s: State)
    requires |s.bufs| == NBUF
    requires forall i :: i in PinnedBuffers(s) ==> s.bufs[i].refcnt > 0
    ensures (forall i :: 0 <= i < NBUF ==> s.bufs[i].refcnt > 0) <==> |PinnedBuffers(s)| + |Busy(s)| >= NBUF
  {
    var used := PinnedBuffers(s) + Busy(s);
    IndicesSize(NBUF);
    assert PinnedBuffers(s) !! Busy(s);
    assert |used| == |PinnedBuffers(s)| + |Busy(s)|;
    if i :| 0 <= i < NBUF && s.bufs[i].refcnt == 0 {
      SubsetSize(used, Indices(NBUF) - {i});
    } else {
      assert used == Indices(NBUF);
    }
  }

  /** Exactly when `bget` finds a buffer: the block is cached, or the blocks that the log pins and
      the buffers in use otherwise are together fewer than there are buffers. */
  lemma BufferFound(L: Layout, s: State, b: nat)
    requires Inv(L, s)
    ensures !NoBuffer(s, b) <==>
      (exists i :: 0 <= i < |s.bufs| && s.bufs[i].block == Some(b)) || |s.lh| - PinnedFrom(s) + |Busy(s)| < NBUF
  {
    PinnedSize(L, s);
    AllUsed(s);
  }

  // ---- a full log ----

  /** `write_log` is about to read its next log block, and the log is full. */
  predicate FullCommit(s: State) {
    s.phase.CopyLog? && s.phase.filled == None && |s.lh| == NBUF
  }

  /** Then it finds no buffer. */
  lemma FullCommitPanics(L: Layout, s: State)
    requires Inv(L, s) && FullCommit(s)
    ensures NoBuffer(s, L.start + 1 + s.phase.tail)
  {
    PinnedSize(L, s);
    IndicesSize(NBUF);
    forall i | 0 <= i < |s.bufs| ensures s.bufs[i].block != Some(L.start + 1 + s.phase.tail) && s.bufs[i].refcnt > 0 {
      if i !in PinnedBuffers(s) {
        SubsetSize(PinnedBuffers(s), Indices(NBUF) - {i});
      }
      assert L.Home(s.bufs[i].block.value);
    }
  }

  lemma FullCommitStays(L: Layout, s: State, st: Step)
    requires Inv(L, s) && FullCommit(s) && Enabled(L, s, st) && !st.Crash?
    ensures var t := Apply(L, s, st); FullCommit(t) && t.phase == s.phase && t.lh == s.lh
  {
    FullCommitPanics(L, s);
  }

  /** A commit of a full log never gets any further, whatever other processes do: only a crash
      ends it. */
  lemma {:induction false} FullCommitForever(L: Layout, ss: seq<State>, sts: seq<Step>, m: nat, n: nat)
    requires Run(L, ss, sts) && m <= n < |ss| && FullCommit(ss[m]) && forall k :: m <= k < n ==> !sts[k].Crash?
    ensures ss[n].phase == ss[m].phase && ss[n].lh == ss[m].lh
    ensures NoBuffer(ss[n], L.start + 1 + ss[m].phase.tail)
    decreases n
  {
    RunInv(L, ss, sts, n);
    if m < n {
      var h := n - 1;
      FullCommitForever(L, ss, sts, m, h);
      RunInv(L, ss, sts, h);
      assert Next(L, ss[h], sts[h], ss[h + 1]);
      FullCommitStays(L, ss[h], sts[h]);
    }
    FullCommitPanics(L, ss[n]);
  }
}
