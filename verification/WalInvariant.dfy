/** What every reachable state of the log and the buffer cache satisfies, proved one
    step at a time. */
module WalInvariant {
  import opened Common
  import opened WalModel

  /** Index of the first logged block that is still pinned in the cache. */
  function PinnedFrom(s: State): nat {
    if s.phase.Recovering() || s.phase.Forget? then |s.lh|
    else if s.phase.Install? then s.phase.tail
    else 0
  }

  predicate Pinned(s: State, b: nat) {
    exists k :: PinnedFrom(s) <= k < |s.lh| && s.lh[k] == b
  }

  /** The buffer that the committing process has filled and not yet written. */
  function InFlight(s: State): Option<nat> {
    match s.phase
    case CopyLog(_, f) => f
    case CommitHead(f) => f
    case ClearHead(_, f) => f
    case Install(_, _, Copied(d)) => Some(d)
    case _ => None
  }

  // ---- the cache ----

  predicate BufOk(L: Layout, u: Buf) {
    && u.waiting !! u.leaving
    && (u.block.None? ==> !u.valid && u.waiting == {} && u.leaving == {})
    && (u.block.Some? ==> u.block.value < L.blocks)
    && (u.holder.Some? ==> u.holder.value in u.waiting)
    && (u.dirty ==> u.holder.Some? && u.valid)
  }

  predicate CacheOk(L: Layout, s: State) {
    && |s.bufs| == NBUF
    && (forall i :: 0 <= i < |s.bufs| ==> BufOk(L, s.bufs[i]))
    && (forall i, j :: 0 <= i < j < |s.bufs| && s.bufs[i].block.Some? ==> s.bufs[i].block != s.bufs[j].block)
  }

  /** The reference count: one for each process that uses the buffer, and one pin. */
  predicate RefsOk(s: State, u: Buf) {
    u.refcnt == |u.waiting| + |u.leaving| + if u.block.Some? && Pinned(s, u.block.value) then 1 else 0
  }

  predicate Cached(s: State, b: nat) {
    exists i :: 0 <= i < |s.bufs| && s.bufs[i].Caches(b)
  }

  /** A valid buffer agrees with the disk unless it is logged and not yet installed, is being
      changed by its holder, or is stray. */
  predicate Clean(L: Layout, s: State, i: nat)
    requires |s.disk| == L.blocks && CacheOk(L, s) && i < |s.bufs|
  {
    var u := s.bufs[i];
    u.valid && !u.dirty && !(u.stray && L.Home(u.block.value)) && !Pinned(s, u.block.value) ==> u.data == s.disk[u.block.value]
  }

  /** Only the holder, inside an operation, or the committing process changes a buffer. */
  predicate DirtyOwned(L: Layout, s: State, i: nat)
    requires CacheOk(L, s) && i < |s.bufs|
  {
    var u := s.bufs[i];
    u.dirty ==> InFlight(s) == Some(i) || (u.holder.value in s.ops && L.Home(u.block.value))
  }

  /** A stray buffer holds a home block that is not in the log. */
  predicate StrayOk(L: Layout, s: State, i: nat)
    requires i < |s.bufs|
  {
    var u := s.bufs[i];
    u.stray ==> u.valid && u.block.Some? && L.Home(u.block.value) && u.block.value !in s.lh && !s.phase.Recovering()
  }

  predicate SlotOk(L: Layout, s: State, i: nat)
    requires |s.disk| == L.blocks && CacheOk(L, s) && i < |s.bufs|
  {
    RefsOk(s, s.bufs[i]) && Clean(L, s, i) && DirtyOwned(L, s, i)
  }

  predicate Coherent(L: Layout, s: State)
    requires |s.disk| == L.blocks && CacheOk(L, s)
  {
    && (forall i :: 0 <= i < |s.bufs| ==> SlotOk(L, s, i))
    && (forall k {:trigger Cached(s, s.lh[k])} :: PinnedFrom(s) <= k < |s.lh| ==> Cached(s, s.lh[k]))
    && (InFlight(s).Some? ==> InFlight(s).value < |s.bufs| && s.bufs[InFlight(s).value].dirty)
  }

  // ---- the log ----

  /** Log copy k equals the cached content of logged block k. */
  predicate CopyDone(L: Layout, s: State, k: nat)
    requires L.Valid() && |s.disk| == L.blocks && k < |s.lh| && |s.lh| <= L.size - 1
  {
    forall i :: 0 <= i < |s.bufs| && s.bufs[i].Caches(s.lh[k]) ==> s.bufs[i].data == s.disk[L.start + 1 + k]
  }

  predicate Holds(s: State, i: nat, b: nat) {
    i < |s.bufs| && s.bufs[i].HeldBy(s.boss, b)
  }

  predicate PhaseOk(L: Layout, s: State)
    requires L.Valid() && |s.disk| == L.blocks && GoodList(L, s.lh) && GoodList(L, Header(L, s))
  {
    match s.phase
    case Idle => Header(L, s) == []
    case CopyLog(t, f) =>
      && Header(L, s) == [] && t < |s.lh|
      && (forall k :: 0 <= k < t ==> CopyDone(L, s, k))
      && (f.Some? ==>
            && Holds(s, f.value, L.start + 1 + t)
            && forall j :: 0 <= j < |s.bufs| && s.bufs[j].Caches(s.lh[t]) ==> s.bufs[j].data == s.bufs[f.value].data)
    case CommitHead(f) =>
      && Header(L, s) == [] && 0 < |s.lh|
      && (forall k :: 0 <= k < |s.lh| ==> CopyDone(L, s, k))
      && (f.Some? ==> Holds(s, f.value, L.start) && Decode(s.bufs[f.value].data) == s.lh)
    case Install(rec, t, c) =>
      && Header(L, s) == s.lh && t < |s.lh|
      && (forall k :: 0 <= k < t ==> HomeDone(L, s.disk, s.lh, k))
      && (!rec ==> forall k :: t <= k < |s.lh| ==> CopyDone(L, s, k))
      && (c.Copied? ==> Holds(s, c.buf, s.lh[t]) && s.bufs[c.buf].data == s.disk[L.start + 1 + t])
      && (c.Written? ==> HomeDone(L, s.disk, s.lh, t))
      && (c.Written? && !rec ==> c.buf < |s.bufs| && s.bufs[c.buf].Caches(s.lh[t]))
    case Forget(_) =>
      && Header(L, s) == s.lh
      && (forall k :: 0 <= k < |s.lh| ==> HomeDone(L, s.disk, s.lh, k))
    case ClearHead(_, f) =>
      && s.lh == []
      && (forall k :: 0 <= k < |Header(L, s)| ==> HomeDone(L, s.disk, Header(L, s), k))
      && (f.Some? ==> Holds(s, f.value, L.start) && Decode(s.bufs[f.value].data) == [])
    case Finish => Header(L, s) == [] && s.lh == []
    case LoadHead => s.lh == []
  }

  predicate LogOk(L: Layout, s: State)
    requires L.Valid() && |s.disk| == L.blocks
  {
    && GoodList(L, s.lh) && GoodList(L, Header(L, s))
    && s.outstanding == |s.ops|
    && (s.committing <==> !s.phase.Idle? && !s.phase.Recovering())
    && (!s.phase.Idle? ==> s.ops == {})
    && PhaseOk(L, s)
  }

  ghost predicate Core(L: Layout, s: State) {
    L.Valid() && |s.disk| == L.blocks && CacheOk(L, s) && Coherent(L, s) && LogOk(L, s)
  }

  ghost predicate Inv(L: Layout, s: State) {
    Core(L, s) && forall i {:trigger StrayOk(L, s, i)} :: 0 <= i < |s.bufs| ==> StrayOk(L, s, i)
  }

  ghost predicate Next(L: Layout, s: State, st: Step, t: State) {
    L.Valid() && |s.disk| == L.blocks && Enabled(L, s, st) && t == Apply(L, s, st)
  }

  // ---- preservation ----

  lemma InitInv(L: Layout, s: State)
    requires Init(L, s)
    ensures Inv(L, s)
  {
    CrashInv(L, s.disk, s.boss);
  }

  lemma CrashInv(L: Layout, disk: seq<Block>, p: Pid)
    requires GoodDisk(L, disk)
    ensures Inv(L, Rebooted(disk, p))
  {
    var t := Rebooted(disk, p);
    assert CacheOk(L, t);
    assert Coherent(L, t);
  }

  /** The part of a buffer that other processes can observe through its lock. */
  predicate Same(u: Buf, w: Buf) {
    u.block == w.block && u.valid == w.valid && u.data == w.data
  }

  /** The commit in progress depends on the pinned buffers and the one it has filled. */
  predicate Undisturbed(s: State, i: nat, u: Buf)
    requires i < |s.bufs|
  {
    var w := s.bufs[i];
    && (w.valid && w.block.Some? && Pinned(s, w.block.value) ==> Same(u, w))
    && (u.valid && u.block.Some? && Pinned(s, u.block.value) ==> Same(u, w))
    && (InFlight(s) == Some(i) ==> Same(u, w) && u.holder == w.holder && u.dirty)
  }

  lemma PhaseFrame(L: Layout, s: State, i: nat, u: Buf)
    requires Core(L, s) && i < |s.bufs| && Undisturbed(s, i, u)
    ensures PhaseOk(L, s.(bufs := s.bufs[i := u]))
  {
    var t := s.(bufs := s.bufs[i := u]);
    forall k | PinnedFrom(s) <= k < |s.lh| && CopyDone(L, s, k) ensures CopyDone(L, t, k) {
      assert Pinned(s, s.lh[k]);
    }
    if s.phase.CopyLog? || s.phase.Install? {
      assert !s.phase.Recovering() ==> Pinned(s, s.lh[s.phase.tail]);
    }
  }

  lemma CoherentFrame(L: Layout, s: State, i: nat, u: Buf)
    requires Core(L, s) && i < |s.bufs| && Undisturbed(s, i, u)
    requires var t := s.(bufs := s.bufs[i := u]); CacheOk(L, t) && SlotOk(L, t, i)
    ensures Coherent(L, s.(bufs := s.bufs[i := u]))
  {
    var t := s.(bufs := s.bufs[i := u]);
    assert forall b :: Pinned(t, b) == Pinned(s, b);
    forall k | 0 <= k < |t.bufs| ensures SlotOk(L, t, k) {
      assert SlotOk(L, s, k);
    }
    forall k | PinnedFrom(t) <= k < |t.lh| ensures Cached(t, t.lh[k]) {
      assert Pinned(s, s.lh[k]) && Cached(s, s.lh[k]);
      var m :| 0 <= m < |s.bufs| && s.bufs[m].Caches(s.lh[k]);
      assert t.bufs[m].Caches(t.lh[k]);
    }
  }

  /** A step on one buffer that keeps the log, the disk and the phase. */
  lemma OneBufferInv(L: Layout, s: State, i: nat, u: Buf)
    requires Core(L, s) && i < |s.bufs| && BufOk(L, u) && RefsOk(s, u) && Undisturbed(s, i, u)
    requires u.block.Some? && u.block != s.bufs[i].block ==> forall k :: 0 <= k < |s.bufs| ==> s.bufs[k].block != u.block
    requires u.valid && !u.dirty && !(u.stray && L.Home(u.block.value)) && !Pinned(s, u.block.value) ==>
      u.data == s.disk[u.block.value]
    requires u.dirty ==> InFlight(s) == Some(i) || (u.holder.value in s.ops && L.Home(u.block.value))
    ensures Core(L, s.(bufs := s.bufs[i := u]))
  {
    var t := s.(bufs := s.bufs[i := u]);
    assert forall b :: Pinned(t, b) == Pinned(s, b);
    assert CacheOk(L, t);
    CoherentFrame(L, s, i, u);
    PhaseFrame(L, s, i, u);
  }

  lemma PinnedIsCached(L: Layout, s: State, b: nat)
    requires Core(L, s)
    ensures Pinned(s, b) ==> Cached(s, b)
  {
  }

  /** Buffers that keep their block and validity keep every block cached. */
  lemma CachedSame(s: State, t: State)
    requires |t.bufs| == |s.bufs|
    requires forall k :: 0 <= k < |s.bufs| && s.bufs[k].valid ==> t.bufs[k].valid && t.bufs[k].block == s.bufs[k].block
    ensures forall b :: Cached(s, b) ==> Cached(t, b)
  {
    forall b | Cached(s, b) ensures Cached(t, b) {
      var m :| 0 <= m < |s.bufs| && s.bufs[m].Caches(b);
      assert t.bufs[m].Caches(b);
    }
  }

  /** Steps of `bget` and `brelse` that change who uses a buffer, not what it holds. */
  lemma UseInv(L: Layout, s: State, st: Step)
    requires Core(L, s) && Enabled(L, s, st) && (st.GetHit? || st.Lock? || st.Unlock? || st.Drop?)
    ensures Core(L, Apply(L, s, st))
  {
    assert SlotOk(L, s, st.i);
    OneBufferInv(L, s, st.i, Apply(L, s, st).bufs[st.i]);
  }

  /** A recycled buffer is unreferenced, so nothing the log needs is lost. */
  lemma GetMissInv(L: Layout, s: State, p: Pid, i: nat, b: nat)
    requires Core(L, s) && Enabled(L, s, GetMiss(p, i, b))
    ensures Core(L, Apply(L, s, GetMiss(p, i, b)))
  {
    assert SlotOk(L, s, i);
    PinnedIsCached(L, s, b);
    OneBufferInv(L, s, i, Apply(L, s, GetMiss(p, i, b)).bufs[i]);
  }

  lemma ReadInv(L: Layout, s: State, p: Pid, i: nat)
    requires Core(L, s) && Enabled(L, s, Read(p, i))
    ensures Core(L, Apply(L, s, Read(p, i)))
  {
    assert SlotOk(L, s, i);
    PinnedIsCached(L, s, s.bufs[i].block.value);
    OneBufferInv(L, s, i, Apply(L, s, Read(p, i)).bufs[i]);
  }

  /** The buffer becomes stray unless that does no harm. */
  lemma AbandonInv(L: Layout, s: State, p: Pid, i: nat)
    requires Core(L, s) && Enabled(L, s, Abandon(p, i))
    ensures Core(L, Apply(L, s, Abandon(p, i)))
  {
    assert SlotOk(L, s, i) && s.phase.Idle?;
    OneBufferInv(L, s, i, Apply(L, s, Abandon(p, i)).bufs[i]);
  }

  lemma ModifyInv(L: Layout, s: State, p: Pid, i: nat, v: Block)
    requires Core(L, s) && Enabled(L, s, Modify(p, i, v))
    ensures Core(L, Apply(L, s, Modify(p, i, v)))
  {
    var t := Apply(L, s, Modify(p, i, v));
    assert s.phase.Idle?;
    assert forall b :: Pinned(t, b) == Pinned(s, b);
    assert CacheOk(L, t);
    forall k | 0 <= k < |t.bufs| ensures SlotOk(L, t, k) {
      assert SlotOk(L, s, k);
    }
    CachedSame(s, t);
  }

  lemma LogWriteInv(L: Layout, s: State, p: Pid, i: nat)
    requires Core(L, s) && Enabled(L, s, LogWrite(p, i))
    ensures Core(L, Apply(L, s, LogWrite(p, i)))
  {
    var t := Apply(L, s, LogWrite(p, i));
    var b := s.bufs[i].block.value;
    assert s.phase.Idle?;
    forall c ensures Pinned(t, c) == (Pinned(s, c) || c == b) {
      if Pinned(s, c) {
        var k :| 0 <= k < |s.lh| && s.lh[k] == c;
        assert t.lh[k] == c;
      }
      if c == b && b !in s.lh {
        assert t.lh[|s.lh|] == b;
      }
    }
    assert (b in s.lh) == Pinned(s, b);
    assert CacheOk(L, t);
    forall k | 0 <= k < |t.bufs| ensures SlotOk(L, t, k) {
      assert SlotOk(L, s, k);
    }
    CachedSame(s, t);
    assert t.bufs[i].Caches(b);
  }

  lemma BeginOpInv(L: Layout, s: State, p: Pid)
    requires Core(L, s) && Enabled(L, s, BeginOp(p))
    ensures Core(L, Apply(L, s, BeginOp(p)))
  {
    var t := Apply(L, s, BeginOp(p));
    assert forall b :: Pinned(t, b) == Pinned(s, b);
    forall k | 0 <= k < |t.bufs| ensures SlotOk(L, t, k) {
      assert SlotOk(L, s, k);
    }
    CachedSame(s, t);
  }

  lemma EndOpInv(L: Layout, s: State, p: Pid)
    requires Core(L, s) && Enabled(L, s, EndOp(p))
    ensures Core(L, Apply(L, s, EndOp(p)))
  {
    var t := Apply(L, s, EndOp(p));
    assert forall b :: Pinned(t, b) == Pinned(s, b);
    forall k | 0 <= k < |t.bufs| ensures SlotOk(L, t, k) {
      assert SlotOk(L, s, k);
    }
    CachedSame(s, t);
    assert |t.ops| == 0 ==> t.ops == {};
  }

  lemma CopyToLogInv(L: Layout, s: State, i: nat, j: nat)
    requires Core(L, s) && Enabled(L, s, CopyToLog(i, j))
    ensures Core(L, Apply(L, s, CopyToLog(i, j)))
  {
    var t := Apply(L, s, CopyToLog(i, j));
    assert forall b :: Pinned(t, b) == Pinned(s, b);
    assert CacheOk(L, t);
    forall k | 0 <= k < |t.bufs| ensures SlotOk(L, t, k) {
      assert SlotOk(L, s, k);
    }
    CachedSame(s, t);
    forall k | 0 <= k < t.phase.tail ensures CopyDone(L, t, k) {
      assert CopyDone(L, s, k);
    }
  }

  lemma FillHeadInv(L: Layout, s: State, i: nat)
    requires Core(L, s) && Enabled(L, s, FillHead(i))
    ensures Core(L, Apply(L, s, FillHead(i)))
  {
    var t := Apply(L, s, FillHead(i));
    assert forall b :: Pinned(t, b) == Pinned(s, b);
    assert CacheOk(L, t);
    forall k | 0 <= k < |t.bufs| ensures SlotOk(L, t, k) {
      assert SlotOk(L, s, k);
    }
    CachedSame(s, t);
    if t.phase.CommitHead? {
      forall k | 0 <= k < |t.lh| ensures CopyDone(L, t, k) {
        assert CopyDone(L, s, k);
      }
    }
  }

  /** Writing the filled buffer makes it agree with the disk and touches no other. */
  lemma BwriteCoherent(L: Layout, s: State, i: nat, phase: Phase)
    requires Core(L, s) && CanWrite(L, s, i) && InFlight(s) == Some(i)
    requires var t := Bwrite(L, s, i).(phase := phase);
      InFlight(t) == None && PinnedFrom(t) == PinnedFrom(s) && (phase.Recovering() ==> s.phase.Recovering())
    ensures var t := Bwrite(L, s, i).(phase := phase); CacheOk(L, t) && Coherent(L, t)
  {
    var t := Bwrite(L, s, i).(phase := phase);
    assert forall b :: Pinned(t, b) == Pinned(s, b);
    assert CacheOk(L, t);
    forall k | 0 <= k < |t.bufs| ensures SlotOk(L, t, k) {
      assert SlotOk(L, s, k);
    }
    CachedSame(s, t);
  }

  lemma WriteLogBlockInv(L: Layout, s: State)
    requires Core(L, s) && Enabled(L, s, WriteLogBlock)
    ensures Core(L, Apply(L, s, WriteLogBlock))
  {
    var t := Apply(L, s, WriteLogBlock);
    var tail := s.phase.tail;
    BwriteCoherent(L, s, s.phase.filled.value, t.phase);
    forall k | 0 <= k <= tail ensures CopyDone(L, t, k) {
      assert k < tail ==> CopyDone(L, s, k);
    }
  }

  lemma WriteHeadInv(L: Layout, s: State)
    requires Core(L, s) && Enabled(L, s, WriteHead)
    ensures Core(L, Apply(L, s, WriteHead))
  {
    var t := Apply(L, s, WriteHead);
    BwriteCoherent(L, s, s.phase.filled.value, t.phase);
    if s.phase.CommitHead? {
      forall k | 0 <= k < |t.lh| ensures CopyDone(L, t, k) {
        assert CopyDone(L, s, k);
      }
    }
  }

  lemma CopyHomeInv(L: Layout, s: State, l: nat, d: nat)
    requires Core(L, s) && Enabled(L, s, CopyHome(l, d))
    ensures Core(L, Apply(L, s, CopyHome(l, d)))
  {
    var t := Apply(L, s, CopyHome(l, d));
    var tail := s.phase.tail;
    assert t.bufs[d].data == s.disk[L.start + 1 + tail] by {
      assert SlotOk(L, s, l);
    }
    CopyHomeCoherent(L, s, l, d);
    if !s.phase.recovering {
      forall k | tail <= k < |t.lh| ensures CopyDone(L, t, k) {
        assert CopyDone(L, s, k);
      }
    }
  }

  lemma CopyHomeCoherent(L: Layout, s: State, l: nat, d: nat)
    requires Core(L, s) && Enabled(L, s, CopyHome(l, d))
    ensures var t := Apply(L, s, CopyHome(l, d)); CacheOk(L, t) && Coherent(L, t)
  {
    var t := Apply(L, s, CopyHome(l, d));
    assert forall b :: Pinned(t, b) == Pinned(s, b);
    assert CacheOk(L, t);
    forall k | 0 <= k < |t.bufs| ensures SlotOk(L, t, k) {
      assert SlotOk(L, s, k);
    }
    CachedSame(s, t);
  }

  lemma WriteHomeInv(L: Layout, s: State)
    requires Core(L, s) && Enabled(L, s, WriteHome)
    ensures Core(L, Apply(L, s, WriteHome))
  {
    var t := Apply(L, s, WriteHome);
    var tail := s.phase.tail;
    BwriteCoherent(L, s, s.phase.copy.buf, t.phase);
    forall k | 0 <= k <= tail ensures HomeDone(L, t.disk, t.lh, k) {
      assert k < tail ==> HomeDone(L, s.disk, s.lh, k);
    }
    if !s.phase.recovering {
      forall k | tail <= k < |t.lh| ensures CopyDone(L, t, k) {
        assert CopyDone(L, s, k);
      }
    }
  }

  lemma UnpinCoherent(L: Layout, s: State)
    requires Core(L, s) && Enabled(L, s, Unpin)
    ensures var t := Apply(L, s, Unpin); CacheOk(L, t) && Coherent(L, t)
  {
    var t := Apply(L, s, Unpin);
    var b := s.lh[s.phase.tail];
    forall c ensures Pinned(t, c) == (Pinned(s, c) && c != b) {
      if Pinned(s, c) && c != b {
        var k :| PinnedFrom(s) <= k < |s.lh| && s.lh[k] == c;
        assert PinnedFrom(t) <= k;
      }
    }
    assert !s.phase.recovering ==> Pinned(s, b) && CopyDone(L, s, s.phase.tail);
    assert HomeDone(L, s.disk, s.lh, s.phase.tail);
    assert CacheOk(L, t);
    forall k | 0 <= k < |t.bufs| ensures SlotOk(L, t, k) {
      assert SlotOk(L, s, k);
    }
    CachedSame(s, t);
  }

  lemma UnpinPhase(L: Layout, s: State)
    requires Core(L, s) && Enabled(L, s, Unpin)
    ensures LogOk(L, Apply(L, s, Unpin))
  {
    var t := Apply(L, s, Unpin);
    if !s.phase.recovering {
      forall k | s.phase.tail < k < |t.lh| ensures CopyDone(L, t, k) {
        assert CopyDone(L, s, k);
      }
    }
  }

  lemma UnpinInv(L: Layout, s: State)
    requires Core(L, s) && Enabled(L, s, Unpin)
    ensures Core(L, Apply(L, s, Unpin))
  {
    UnpinCoherent(L, s);
    UnpinPhase(L, s);
  }

  lemma ReadHeadInv(L: Layout, s: State, i: nat)
    requires Core(L, s) && Enabled(L, s, ReadHead(i))
    ensures Core(L, Apply(L, s, ReadHead(i)))
  {
    var t := Apply(L, s, ReadHead(i));
    assert SlotOk(L, s, i);
    assert forall b :: Pinned(t, b) == Pinned(s, b);
    assert CacheOk(L, t);
    forall k | 0 <= k < |t.bufs| ensures SlotOk(L, t, k) {
      assert SlotOk(L, s, k);
    }
    CachedSame(s, t);
  }

  lemma EndingInv(L: Layout, s: State, st: Step)
    requires Core(L, s) && (st.ForgetLog? || st.FinishCommit?) && Enabled(L, s, st)
    ensures Core(L, Apply(L, s, st))
  {
    var t := Apply(L, s, st);
    assert forall b :: Pinned(t, b) == Pinned(s, b);
    assert CacheOk(L, t);
    forall k | 0 <= k < |t.bufs| ensures SlotOk(L, t, k) {
      assert SlotOk(L, s, k);
    }
    CachedSame(s, t);
  }

  /** The steps of processes that use the file system. */
  lemma UserInv(L: Layout, s: State, st: Step)
    requires Core(L, s) && Enabled(L, s, st)
    requires st.GetHit? || st.GetMiss? || st.Lock? || st.Read? || st.Modify? || st.LogWrite? || st.Unlock? || st.Abandon? || st.Drop?
    ensures Core(L, Apply(L, s, st))
  {
    if st.GetMiss? { GetMissInv(L, s, st.p, st.i, st.b); }
    else if st.Read? { ReadInv(L, s, st.p, st.i); }
    else if st.Modify? { ModifyInv(L, s, st.p, st.i, st.v); }
    else if st.LogWrite? { LogWriteInv(L, s, st.p, st.i); }
    else if st.Abandon? { AbandonInv(L, s, st.p, st.i); }
    else { UseInv(L, s, st); }
  }

  /** The steps that copy blocks between the cache, the log and their homes. */
  lemma CopyInv(L: Layout, s: State, st: Step)
    requires Core(L, s) && Enabled(L, s, st)
    requires st.CopyToLog? || st.WriteLogBlock? || st.FillHead? || st.WriteHead? || st.CopyHome? || st.WriteHome? || st.Unpin?
    ensures Core(L, Apply(L, s, st))
  {
    if st.CopyToLog? { CopyToLogInv(L, s, st.i, st.j); }
    else if st.WriteLogBlock? { WriteLogBlockInv(L, s); }
    else if st.FillHead? { FillHeadInv(L, s, st.i); }
    else if st.WriteHead? { WriteHeadInv(L, s); }
    else if st.CopyHome? { CopyHomeInv(L, s, st.l, st.d); }
    else if st.WriteHome? { WriteHomeInv(L, s); }
    else { UnpinInv(L, s); }
  }

  /** A buffer becomes stray only when it is abandoned, and its block is not logged before the
      buffer is clean again. */
  lemma StrayAbandon(L: Layout, s: State, st: Step, k: nat)
    requires Core(L, s) && Enabled(L, s, st) && k < |s.bufs| && StrayOk(L, s, k) && st.Abandon?
    ensures StrayOk(L, Apply(L, s, st), k)
  {
    assert SlotOk(L, s, st.i) && s.phase.Idle?;
  }

  lemma StrayLogged(L: Layout, s: State, st: Step, k: nat)
    requires Core(L, s) && Enabled(L, s, st) && k < |s.bufs| && StrayOk(L, s, k) && st.LogWrite?
    ensures StrayOk(L, Apply(L, s, st), k)
  {
    if k != st.i {
      assert s.bufs[k].block.Some? ==> s.bufs[k].block != s.bufs[st.i].block;
    }
  }

  lemma StrayCommit(L: Layout, s: State, st: Step, k: nat)
    requires Core(L, s) && Enabled(L, s, st) && k < |s.bufs| && StrayOk(L, s, k)
    requires st.WriteHead? || st.Unpin? || st.ForgetLog? || st.ReadHead? || st.EndOp? || st.FinishCommit? || st.CopyHome? || st.WriteHome?
    ensures |Apply(L, s, st).bufs| == |s.bufs| && StrayOk(L, Apply(L, s, st), k)
  {
  }

  lemma StrayStep(L: Layout, s: State, st: Step, k: nat)
    requires Inv(L, s) && Enabled(L, s, st) && k < |s.bufs| && !st.Crash?
    ensures |Apply(L, s, st).bufs| == |s.bufs| && StrayOk(L, Apply(L, s, st), k)
  {
    assert StrayOk(L, s, k);
    if st.Abandon? {
      StrayAbandon(L, s, st, k);
    } else if st.LogWrite? {
      StrayLogged(L, s, st, k);
    } else if st.WriteHead? || st.Unpin? || st.ForgetLog? || st.ReadHead? || st.EndOp? || st.FinishCommit? || st.CopyHome? || st.WriteHome? {
      StrayCommit(L, s, st, k);
    }
  }

  lemma StepInv(L: Layout, s: State, st: Step)
    requires Inv(L, s) && Enabled(L, s, st)
    ensures Inv(L, Apply(L, s, st))
  {
    if st.Crash? {
      CrashInv(L, s.disk, st.p);
    } else {
      CoreStep(L, s, st);
      forall k | 0 <= k < |s.bufs| ensures StrayOk(L, Apply(L, s, st), k) {
        StrayStep(L, s, st, k);
      }
    }
  }

  lemma CoreStep(L: Layout, s: State, st: Step)
    requires Core(L, s) && Enabled(L, s, st) && !st.Crash?
    ensures Core(L, Apply(L, s, st))
  {
    if st.BeginOp? { BeginOpInv(L, s, st.p); }
    else if st.EndOp? { EndOpInv(L, s, st.p); }
    else if st.ForgetLog? || st.FinishCommit? { EndingInv(L, s, st); }
    else if st.ReadHead? { ReadHeadInv(L, s, st.i); }
    else if st.CopyToLog? || st.WriteLogBlock? || st.FillHead? || st.WriteHead? || st.CopyHome? || st.WriteHome? || st.Unpin? {
      CopyInv(L, s, st);
    } else {
      UserInv(L, s, st);
    }
  }
}
