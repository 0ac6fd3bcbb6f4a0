/** Whole runs of the logged file system: any interleaving of any number of
    processes, with crashes anywhere, also inside recovery. */
module WalSafety {
  import opened Common
  import opened WalModel
  import opened WalInvariant
  import opened WalRefinement

  ghost predicate Run(L: Layout, ss: seq<State>, sts: seq<Step>) {
    && |ss| == |sts| + 1 && Init(L, ss[0])
    && forall k {:trigger Next(L, ss[k], sts[k], ss[k + 1])} :: 0 <= k < |sts| ==> Next(L, ss[k], sts[k], ss[k + 1])
  }

  lemma {:induction false} RunInv(L: Layout, ss: seq<State>, sts: seq<Step>, k: nat)
    requires Run(L, ss, sts) && k < |ss|
    ensures Inv(L, ss[k])
  {
    if k == 0 {
      InitInv(L, ss[0]);
    } else {
      RunInv(L, ss, sts, k - 1);
      var h := k - 1;
      assert Next(L, ss[h], sts[h], ss[h + 1]);
      StepInv(L, ss[k - 1], sts[k - 1]);
    }
  }

  lemma RunStep(L: Layout, ss: seq<State>, sts: seq<Step>, k: nat)
    requires Run(L, ss, sts) && k < |sts|
    ensures Inv(L, ss[k]) && Inv(L, ss[k + 1]) && Enabled(L, ss[k], sts[k])
    ensures Abs(L, ss[k + 1]) == Do(Abs(L, ss[k]), EventOf(L, ss[k], sts[k]))
  {
    RunInv(L, ss, sts, k);
    assert Next(L, ss[k], sts[k], ss[k + 1]);
    StepRefines(L, ss[k], sts[k]);
  }

  // ---- cache and log coherence ----

  /** A valid buffer of block b has a reference. */
  predicate Referenced(s: State, b: nat) {
    exists i :: 0 <= i < |s.bufs| && s.bufs[i].Caches(b) && s.bufs[i].refcnt >= 1
  }

  /** In every reachable state an unheld valid buffer outside the log equals its disk block,
      unless its change was abandoned, and a logged block that was not yet installed is cached
      and referenced, so `bget` cannot recycle it. */
  lemma CacheLogCoherence(L: Layout, ss: seq<State>, sts: seq<Step>, k: nat)
    requires Run(L, ss, sts) && k < |ss|
    ensures var s := ss[k];
      && (forall i :: 0 <= i < |s.bufs| && s.bufs[i].valid && s.bufs[i].holder == None && !s.bufs[i].stray
            && s.bufs[i].block.Some? && s.bufs[i].block.value !in s.lh
            ==> s.bufs[i].block.value < |s.disk| && s.bufs[i].data == s.disk[s.bufs[i].block.value])
      && (forall m :: PinnedFrom(s) <= m < |s.lh| ==> Referenced(s, s.lh[m]))
  {
    RunInv(L, ss, sts, k);
    var s := ss[k];
    forall i | 0 <= i < |s.bufs| && s.bufs[i].valid && s.bufs[i].holder == None && !s.bufs[i].stray
      && s.bufs[i].block.Some? && s.bufs[i].block.value !in s.lh
      ensures s.bufs[i].block.value < |s.disk| && s.bufs[i].data == s.disk[s.bufs[i].block.value]
    {
      assert SlotOk(L, s, i);
    }
    forall m | PinnedFrom(s) <= m < |s.lh| ensures Referenced(s, s.lh[m]) {
      assert Pinned(s, s.lh[m]) && Cached(s, s.lh[m]);
      var i :| 0 <= i < |s.bufs| && s.bufs[i].Caches(s.lh[m]);
      assert SlotOk(L, s, i);
    }
  }

  /** Every unheld valid buffer outside the log equals its disk block. */
  predicate Agrees(s: State) {
    forall i :: 0 <= i < |s.bufs| && s.bufs[i].valid && s.bufs[i].holder == None
      && s.bufs[i].block.Some? && s.bufs[i].block.value !in s.lh
      ==> s.bufs[i].block.value < |s.disk| && s.bufs[i].data == s.disk[s.bufs[i].block.value]
  }

  predicate NoStrays(s: State) {
    forall i :: 0 <= i < |s.bufs| ==> !s.bufs[i].stray
  }

  /** The step abandons no change, or one that does no harm. */
  predicate HarmlessStep(s: State, st: Step) {
    st.Abandon? && st.i < |s.bufs| && s.bufs[st.i].block.Some? && s.bufs[st.i].block.value < |s.disk| ==> Harmless(s, st.i)
  }

  /** Exactly when abandoning a change leaves the cache coherent: the block is in the log, or
      the change made no difference. */
  lemma AbandonExactly(L: Layout, s: State, p: Pid, i: nat)
    requires Inv(L, s) && Enabled(L, s, Abandon(p, i)) && Agrees(s)
    ensures Agrees(Apply(L, s, Abandon(p, i))) <==> Harmless(s, i)
  {
    var t := Apply(L, s, Abandon(p, i));
    forall k | 0 <= k < |s.bufs| && k != i ensures t.bufs[k] == s.bufs[k] {
    }
    assert t.bufs[i].holder == None && t.bufs[i].valid;
  }

  lemma {:induction false} NeverStray(L: Layout, ss: seq<State>, sts: seq<Step>, n: nat)
    requires Run(L, ss, sts) && n < |ss| && forall k :: 0 <= k < n ==> HarmlessStep(ss[k], sts[k])
    ensures NoStrays(ss[n])
  {
    if n > 0 {
      var h := n - 1;
      NeverStray(L, ss, sts, h);
      assert Next(L, ss[h], sts[h], ss[h + 1]);
      RunInv(L, ss, sts, h);
      StayClean(L, ss[h], sts[h]);
    }
  }

  lemma StayClean(L: Layout, s: State, st: Step)
    requires Inv(L, s) && Enabled(L, s, st) && NoStrays(s) && HarmlessStep(s, st)
    ensures NoStrays(Apply(L, s, st))
  {
  }

  /** The cache agrees with the disk throughout a run exactly if no change is abandoned that is
      neither logged nor without effect. */
  lemma CoherenceExactly(L: Layout, ss: seq<State>, sts: seq<Step>)
    requires Run(L, ss, sts)
    ensures (forall k :: 0 <= k < |ss| ==> Agrees(ss[k])) <==> (forall k :: 0 <= k < |sts| ==> HarmlessStep(ss[k], sts[k]))
  {
    if forall k :: 0 <= k < |sts| ==> HarmlessStep(ss[k], sts[k]) {
      forall k | 0 <= k < |ss| ensures Agrees(ss[k]) {
        NeverStray(L, ss, sts, k);
        CacheLogCoherence(L, ss, sts, k);
      }
    }
    if forall k :: 0 <= k < |ss| ==> Agrees(ss[k]) {
      forall k | 0 <= k < |sts| ensures HarmlessStep(ss[k], sts[k]) {
        RunInv(L, ss, sts, k);
        assert Next(L, ss[k], sts[k], ss[k + 1]);
        if sts[k].Abandon? {
          AbandonExactly(L, ss[k], sts[k].p, sts[k].i);
        }
      }
    }
  }

  // ---- runs of the store ----

  ghost predicate StoreRun(im: seq<Store>, ev: seq<Event>) {
    && |im| == |ev| + 1
    && forall k :: 0 <= k < |ev| ==> im[k + 1] == Do(im[k], ev[k])
  }

  /** State k has image `im`; its step to the next state is event `ev`. */
  ghost predicate ImageAt(L: Layout, s: State, im: Store) {
    Inv(L, s) && im == Abs(L, s)
  }

  ghost predicate EventAt(L: Layout, s: State, st: Step, t: State, ev: Event) {
    Next(L, s, st, t) && ev == EventOf(L, s, st)
  }

  /** The images and events of a run of the kernel. */
  ghost predicate Traced(L: Layout, ss: seq<State>, sts: seq<Step>, im: seq<Store>, ev: seq<Event>) {
    && |im| == |ss| && |ev| == |sts| && |ss| == |sts| + 1
    && (forall k {:trigger ImageAt(L, ss[k], im[k])} :: 0 <= k < |im| ==> ImageAt(L, ss[k], im[k]))
    && (forall k {:trigger EventAt(L, ss[k], sts[k], ss[k + 1], ev[k])} ::
          0 <= k < |ev| ==> EventAt(L, ss[k], sts[k], ss[k + 1], ev[k]))
  }

  ghost function ImageOf(L: Layout, ss: seq<State>, sts: seq<Step>, k: nat): (im: Store)
    requires Run(L, ss, sts) && k < |ss|
    ensures ImageAt(L, ss[k], im)
  {
    RunInv(L, ss, sts, k);
    Abs(L, ss[k])
  }

  ghost function StepEvent(L: Layout, ss: seq<State>, sts: seq<Step>, k: nat): (ev: Event)
    requires Run(L, ss, sts) && k < |sts|
    ensures EventAt(L, ss[k], sts[k], ss[k + 1], ev)
    ensures ImageOf(L, ss, sts, k + 1) == Do(ImageOf(L, ss, sts, k), ev)
  {
    RunStep(L, ss, sts, k);
    EventOf(L, ss[k], sts[k])
  }

  /** Every run of the kernel, with its crashes and recoveries, is a run of the store. */
  lemma RunRefines(L: Layout, ss: seq<State>, sts: seq<Step>) returns (im: seq<Store>, ev: seq<Event>)
    requires Run(L, ss, sts)
    ensures Traced(L, ss, sts, im, ev) && StoreRun(im, ev)
  {
    im := seq(|ss|, k requires 0 <= k < |ss| && Run(L, ss, sts) => ImageOf(L, ss, sts, k));
    ev := seq(|sts|, k requires 0 <= k < |sts| && Run(L, ss, sts) => StepEvent(L, ss, sts, k));
  }

  // ---- crash atomicity ----

  /** The durable image after n events is what the last commit made durable, whole, or the
      initial durable image when nothing was committed: there is no third case. */
  lemma {:induction false} CrashAtomicity(im: seq<Store>, ev: seq<Event>, n: nat) returns (c: int)
    requires StoreRun(im, ev) && n <= |ev|
    ensures -1 <= c < n
    ensures forall k :: c < k < n ==> ev[k] != Commit
    ensures c == -1 ==> im[n].durable == im[0].durable
    ensures c >= 0 ==> ev[c] == Commit && im[n].durable == Committed(im[c])
  {
    if n == 0 {
      c := -1;
    } else if ev[n - 1] == Commit {
      c := n - 1;
    } else {
      c := CrashAtomicity(im, ev, n - 1);
    }
  }

  /** Whenever nothing waits to be copied home, and so whenever recovery has completed, however
      often it was interrupted, the home blocks on the disk are exactly the durable image. */
  lemma RecoveryInstallsDurable(L: Layout, ss: seq<State>, sts: seq<Step>, n: nat)
    requires Run(L, ss, sts) && n < |ss| && Settled(L, ss[n])
    ensures Inv(L, ss[n]) && HomeContents(L, ss[n].disk) == Abs(L, ss[n]).durable
  {
    RunInv(L, ss, sts, n);
    HomeIsDurable(L, ss[n]);
  }

  /** The write of a non-empty header: the commit point. */
  predicate IsCommit(s: State, st: Step) {
    st.WriteHead? && s.phase.CommitHead?
  }

  /** Crash safety of whole runs: except while a commit or a recovery copies blocks home, so also
      when recovery has completed after any number of crashes, the home blocks on the disk are,
      all of them, what processes saw at the last commit point but for abandoned changes, or what
      the disk stood for at the start if there was none. */
  lemma CrashSafety(L: Layout, ss: seq<State>, sts: seq<Step>, n: nat) returns (c: int)
    requires Run(L, ss, sts) && n < |ss| && Settled(L, ss[n])
    ensures -1 <= c < n && forall k :: c < k < n ==> !IsCommit(ss[k], sts[k])
    ensures |ss[n].disk| == L.blocks
    ensures c >= 0 ==> IsCommit(ss[c], sts[c]) && Inv(L, ss[c]) && HomeContents(L, ss[n].disk) == Committed(Abs(L, ss[c]))
    ensures c < 0 ==> GoodDisk(L, ss[0].disk) && HomeContents(L, ss[n].disk) == Recovered(L, ss[0].disk)
  {
    var im, ev := RunRefines(L, ss, sts);
    c := CrashAtomicity(im, ev, n);
    forall k | 0 <= k < n ensures IsCommit(ss[k], sts[k]) == (ev[k] == Commit) {
      assert EventAt(L, ss[k], sts[k], ss[k + 1], ev[k]);
    }
    assert ImageAt(L, ss[n], im[n]) && ImageAt(L, ss[0], im[0]) && (c >= 0 ==> ImageAt(L, ss[c], im[c]));
    RecoveryInstallsDurable(L, ss, sts, n);
  }

  // ---- durability of finished operations ----

  lemma FinishAt(L: Layout, s: State, b: nat)
    requires Inv(L, s) && s.phase.Finish? && b in HomeBlocks(L)
    ensures Stray(s, b) || Durable(L, s, b) == Live(L, s, b)
  {
    if !Stray(s, b) {
      forall i | 0 <= i < |s.bufs| && s.bufs[i].Caches(b) ensures !s.bufs[i].dirty {
        assert SlotOk(L, s, i);
      }
      ContentOnDisk(L, s, b);
    }
  }

  lemma FinishIsDurable(L: Layout, s: State)
    requires Inv(L, s) && s.phase.Finish?
    ensures Abs(L, s).durable == Committed(Abs(L, s))
  {
    AbsKeys(L, s);
    var a := Abs(L, s);
    forall b | b in HomeBlocks(L) ensures a.durable[b] == Committed(a)[b] {
      AbsAt(L, s, b);
      FinishAt(L, s, b);
    }
    assert a.durable == Committed(a);
  }

  /** The log is committing from the last `end_op` until it clears `committing`, and
      nobody writes meanwhile. */
  lemma CommittingStep(L: Layout, s: State, st: Step)
    requires Inv(L, s) && Enabled(L, s, st) && s.committing && !st.Crash? && !st.FinishCommit?
    ensures Apply(L, s, st).committing
    ensures var e := EventOf(L, s, st); e.Internal? || e.Commit? || (e.Reverted? && e.b in Abs(L, s).stray)
  {
    if st.GetMiss? && s.bufs[st.i].stray {
      assert StrayOk(L, s, st.i);
      var b := s.bufs[st.i].block.value;
      StrayBuffer(L, s, st.i, b);
      AbsAt(L, s, b);
    }
  }

  lemma LastEndOp(L: Layout, s: State, st: Step)
    requires Inv(L, s) && Enabled(L, s, st) && st.EndOp? && s.outstanding == 1
    ensures Apply(L, s, st).committing && EventOf(L, s, st) == Internal
  {
  }

  /** Commit k of a run happens without a crash and ends at the first FinishCommit. */
  ghost predicate CommitSpan(sts: seq<Step>, ss: seq<State>, i: nat, j: nat) {
    && i < j <= |sts| && |ss| == |sts| + 1 && sts[i].EndOp? && ss[i].outstanding == 1
    && forall k :: i < k < j ==> !sts[k].Crash? && !sts[k].FinishCommit?
  }

  /** A commit, and the loss of an abandoned change, keep what is to be made durable. */
  lemma CommittedKept(a: Store, e: Event)
    requires a.durable.Keys == a.live.Keys && (e.Internal? || e.Commit? || (e.Reverted? && e.b in a.stray))
    ensures Committed(Do(a, e)) == Committed(a) && Do(a, e).stray <= a.stray
  {
  }

  lemma {:induction false} CommitKeeps(L: Layout, ss: seq<State>, sts: seq<Step>, im: seq<Store>, ev: seq<Event>, i: nat, j: nat)
    requires Traced(L, ss, sts, im, ev) && StoreRun(im, ev) && CommitSpan(sts, ss, i, j)
    ensures ss[j].committing && Committed(im[j]) == Committed(im[i]) && im[j].stray <= im[i].stray
    decreases j
  {
    var h := j - 1;
    assert ImageAt(L, ss[h], im[h]) && EventAt(L, ss[h], sts[h], ss[h + 1], ev[h]);
    AbsKeys(L, ss[h]);
    if i + 1 < j {
      CommitKeeps(L, ss, sts, im, ev, i, h);
      CommittingStep(L, ss[h], sts[h]);
      CommittedKept(im[h], ev[h]);
    } else {
      LastEndOp(L, ss[i], sts[i]);
    }
  }

  /** The durable image at n is `d`, or what a commit at m or later made durable. */
  ghost predicate DurableFrom(im: seq<Store>, ev: seq<Event>, m: nat, n: nat, d: map<nat, Block>)
    requires StoreRun(im, ev) && m <= n <= |ev|
  {
    im[n].durable == d || exists c :: m <= c < n && ev[c] == Commit && im[n].durable == Committed(im[c])
  }

  lemma {:induction false} DurableSince(im: seq<Store>, ev: seq<Event>, m: nat, n: nat)
    requires StoreRun(im, ev) && m <= n <= |ev|
    ensures DurableFrom(im, ev, m, n, im[m].durable)
    decreases n
  {
    if m < n && ev[n - 1] != Commit {
      DurableSince(im, ev, m, n - 1);
    }
  }

  lemma CommitSpanDurable(L: Layout, ss: seq<State>, sts: seq<Step>, im: seq<Store>, ev: seq<Event>, i: nat, j: nat)
    requires Traced(L, ss, sts, im, ev) && StoreRun(im, ev) && CommitSpan(sts, ss, i, j)
    requires j < |sts| && sts[j].FinishCommit?
    ensures im[j + 1].durable == Committed(im[i]) == Committed(im[j + 1]) && im[j + 1].stray <= im[i].stray
  {
    CommitKeeps(L, ss, sts, im, ev, i, j);
    assert ImageAt(L, ss[j], im[j]) && EventAt(L, ss[j], sts[j], ss[j + 1], ev[j]);
    FinishIsDurable(L, ss[j]);
  }

  /** A transaction whose committing `end_op` returned is never lost: what it logged is
      durable, and every later durable image is that one or the one of a later commit. */
  lemma FinishedNeverLost(L: Layout, ss: seq<State>, sts: seq<Step>, im: seq<Store>, ev: seq<Event>,
                          i: nat, j: nat, n: nat)
    requires Traced(L, ss, sts, im, ev) && StoreRun(im, ev) && CommitSpan(sts, ss, i, j)
    requires j < n <= |sts| && sts[j].FinishCommit?
    ensures DurableFrom(im, ev, j + 1, n, Committed(im[i]))
  {
    CommitSpanDurable(L, ss, sts, im, ev, i, j);
    DurableSince(im, ev, j + 1, n);
  }

  /** Block b has the value v, on disk and in what processes see. */
  predicate Holding(a: Store, b: nat, v: Block) {
    b in a.durable && b in a.live && a.durable[b] == a.live[b] == v && b !in a.stray
  }

  /** No operation is changing block b. */
  predicate Calm(s: State, b: nat) {
    s.phase.Idle? ==> forall i :: 0 <= i < |s.bufs| && s.bufs[i].Caches(b) ==> !s.bufs[i].dirty
  }

  lemma CalmStep(L: Layout, s: State, st: Step, b: nat)
    requires Inv(L, s) && Enabled(L, s, st) && Calm(s, b) && EventOf(L, s, st) != Abandoned(b)
    requires var e := EventOf(L, s, st); !(e.Write? && e.b == b)
    ensures Calm(Apply(L, s, st), b)
  {
    var t := Apply(L, s, st);
    if !s.phase.Idle? && t.phase.Idle? {
      StepInv(L, s, st);
      forall i | 0 <= i < |t.bufs| && t.bufs[i].Caches(b) ensures !t.bufs[i].dirty {
        assert SlotOk(L, t, i);
      }
    }
  }

  /** A calm block is not abandoned, and recycled only when it is clean. */
  lemma CalmEvent(L: Layout, s: State, st: Step, b: nat)
    requires Inv(L, s) && Enabled(L, s, st) && Calm(s, b) && b !in Abs(L, s).stray && b in HomeBlocks(L)
    ensures EventOf(L, s, st) != Abandoned(b) && EventOf(L, s, st) != Reverted(b)
  {
    AbsAt(L, s, b);
    if st.Abandon? {
      assert SlotOk(L, s, st.i) && s.phase.Idle?;
    }
  }

  lemma HoldEvent(a: Store, e: Event, b: nat, v: Block)
    requires Holding(a, b, v) && e != Abandoned(b) && e != Reverted(b) && !(e.Write? && e.b == b)
    ensures Holding(Do(a, e), b, v)
  {
  }

  lemma HoldStep(L: Layout, s: State, st: Step, t: State, e: Event, a: Store, b: nat, v: Block)
    requires ImageAt(L, s, a) && EventAt(L, s, st, t, e) && Holding(a, b, v) && Calm(s, b) && L.Home(b) && !(e.Write? && e.b == b)
    ensures Holding(Do(a, e), b, v) && Calm(t, b)
  {
    CalmEvent(L, s, st, b);
    CalmStep(L, s, st, b);
    HoldEvent(a, e, b, v);
  }

  lemma {:induction false} HoldingKept(L: Layout, ss: seq<State>, sts: seq<Step>, im: seq<Store>, ev: seq<Event>, m: nat, n: nat, b: nat, v: Block)
    requires Traced(L, ss, sts, im, ev) && StoreRun(im, ev) && m <= n <= |ev| && L.Home(b)
    requires Holding(im[m], b, v) && Calm(ss[m], b)
    requires forall k :: m <= k < n && ev[k].Write? ==> ev[k].b != b
    ensures Holding(im[n], b, v) && Calm(ss[n], b)
    decreases n
  {
    if m < n {
      var h := n - 1;
      HoldingKept(L, ss, sts, im, ev, m, h, b, v);
      assert ImageAt(L, ss[h], im[h]) && EventAt(L, ss[h], sts[h], ss[h + 1], ev[h]);
      HoldStep(L, ss[h], sts[h], ss[h + 1], ev[h], im[h], b, v);
    }
  }

  /** A block that a finished transaction left with some content, and had not abandoned, keeps it
      through any later commits of other blocks and any crashes, until it is written again. */
  lemma FinishedBlockKept(L: Layout, ss: seq<State>, sts: seq<Step>, im: seq<Store>, ev: seq<Event>,
                          i: nat, j: nat, n: nat, b: nat)
    requires Traced(L, ss, sts, im, ev) && StoreRun(im, ev) && CommitSpan(sts, ss, i, j)
    requires j < n <= |sts| && sts[j].FinishCommit? && L.Home(b) && b !in im[i].stray
    requires forall k :: j < k < n && ev[k].Write? ==> ev[k].b != b
    ensures b in im[i].live && Holding(im[n], b, im[i].live[b])
  {
    FinishedHeld(L, ss, sts, im, ev, i, j, b);
    assert ImageAt(L, ss[j], im[j]) && EventAt(L, ss[j], sts[j], ss[j + 1], ev[j]);
    FinishedCalm(L, ss[j], sts[j], b);
    HoldingKept(L, ss, sts, im, ev, j + 1, n, b, im[i].live[b]);
  }

  lemma FinishedHeld(L: Layout, ss: seq<State>, sts: seq<Step>, im: seq<Store>, ev: seq<Event>, i: nat, j: nat, b: nat)
    requires Traced(L, ss, sts, im, ev) && StoreRun(im, ev) && CommitSpan(sts, ss, i, j)
    requires j < |sts| && sts[j].FinishCommit? && L.Home(b) && b !in im[i].stray
    ensures b in im[i].live && Holding(im[j + 1], b, im[i].live[b])
  {
    CommitSpanDurable(L, ss, sts, im, ev, i, j);
    ImageKeys(L, ss, sts, im, ev, i);
    ImageKeys(L, ss, sts, im, ev, j + 1);
    HeldAfter(im[i], im[j + 1], b);
  }

  lemma ImageKeys(L: Layout, ss: seq<State>, sts: seq<Step>, im: seq<Store>, ev: seq<Event>, k: nat)
    requires Traced(L, ss, sts, im, ev) && k < |im|
    ensures im[k].durable.Keys == im[k].live.Keys == HomeBlocks(L)
  {
    assert ImageAt(L, ss[k], im[k]);
    AbsKeys(L, ss[k]);
  }

  lemma HeldAfter(a: Store, a': Store, b: nat)
    requires a'.durable == Committed(a) == Committed(a') && a'.stray <= a.stray && b in a.live && b in a'.live && b !in a.stray
    ensures Holding(a', b, a.live[b])
  {
    assert Committed(a)[b] == a.live[b] && Committed(a')[b] == a'.live[b];
  }

  lemma FinishedCalm(L: Layout, s: State, st: Step, b: nat)
    requires Inv(L, s) && Enabled(L, s, st) && st.FinishCommit?
    ensures Calm(Apply(L, s, st), b)
  {
    forall i | 0 <= i < |s.bufs| && s.bufs[i].Caches(b) ensures !s.bufs[i].dirty {
      assert SlotOk(L, s, i);
    }
  }
}
