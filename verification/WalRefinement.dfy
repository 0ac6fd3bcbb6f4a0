/** The logged file system refines a store with atomic commits: a step of the kernel
    or of the recovery code either leaves the store alone, writes one block of the
    volatile image, makes the volatile image durable, or (a crash) falls back to the
    durable image.  Blocks whose change was abandoned are the exception: a commit leaves
    them out, and at any time they may fall back one by one. */
module WalRefinement {
  import opened Common
  import opened WalModel
  import opened WalInvariant

  /** What a completed recovery leaves in home block b. */
  function Durable(L: Layout, s: State, b: nat): Block
    requires GoodDisk(L, s.disk) && b < L.blocks
  {
    Image(L, s.disk, b)
  }

  /** What a process reading block b through the cache gets. */
  ghost function Content(s: State, b: nat): Block
    requires b < |s.disk|
  {
    if i :| 0 <= i < |s.bufs| && s.bufs[i].Caches(b) then s.bufs[i].data else s.disk[b]
  }

  /** Until recovery completes, no process can use the file system, and what it will
      see is the durable image. */
  ghost function Live(L: Layout, s: State, b: nat): Block
    requires Inv(L, s) && b < L.blocks
  {
    if s.phase.Recovering() then Durable(L, s, b) else Content(s, b)
  }

  /** The change of block b that processes see was abandoned. */
  predicate Stray(s: State, b: nat) {
    exists i :: 0 <= i < |s.bufs| && s.bufs[i].stray && s.bufs[i].block == Some(b)
  }

  datatype Store = Store(durable: map<nat, Block>, live: map<nat, Block>, stray: set<nat>)

  ghost function Abs(L: Layout, s: State): Store
    requires Inv(L, s)
  {
    Store(Recovered(L, s.disk), map b | b in HomeBlocks(L) :: Live(L, s, b), set b | b in HomeBlocks(L) && Stray(s, b))
  }

  datatype Event = Internal | Write(b: nat, v: Block) | Commit | PowerLoss
    | Abandoned(b: nat)   // released, changed and unlogged
    | Redeemed(b: nat)     // logged after all, or again what is on the disk
    | Reverted(b: nat)    // an abandoned buffer was recycled

  function EventOf(L: Layout, s: State, st: Step): Event
    requires L.Valid() && |s.disk| == L.blocks && Enabled(L, s, st)
  {
    match st
    case GetMiss(p, i, b) => if s.bufs[i].stray && s.bufs[i].block.Some? then Reverted(s.bufs[i].block.value) else Internal
    case Modify(p, i, v) => Write(s.bufs[i].block.value, v)
    case LogWrite(p, i) => Redeemed(s.bufs[i].block.value)
    case Abandon(p, i) => if Harmless(s, i) then Redeemed(s.bufs[i].block.value) else Abandoned(s.bufs[i].block.value)
    case WriteHead => if s.phase.CommitHead? then Commit else Internal
    case Crash(p) => PowerLoss
    case _ => Internal
  }

  /** What a commit makes durable: what processes see, but for the abandoned changes. */
  function Committed(a: Store): map<nat, Block> {
    map b | b in a.live :: if b in a.stray && b in a.durable then a.durable[b] else a.live[b]
  }

  function Do(a: Store, e: Event): Store {
    match e
    case Internal => a
    case Write(b, v) => a.(live := a.live[b := v])
    case Commit => a.(durable := Committed(a))
    case PowerLoss => a.(live := a.durable, stray := {})
    case Abandoned(b) => a.(stray := a.stray + {b})
    case Redeemed(b) => a.(stray := a.stray - {b})
    case Reverted(b) => a.(live := if b in a.durable then a.live[b := a.durable[b]] else a.live, stray := a.stray - {b})
  }

  // ---- pointwise facts ----

  lemma ContentOf(L: Layout, s: State, i: nat, b: nat)
    requires Inv(L, s) && i < |s.bufs| && s.bufs[i].Caches(b)
    ensures b < |s.disk| && Content(s, b) == s.bufs[i].data
  {
    assert SlotOk(L, s, i);
  }

  lemma ContentOnDisk(L: Layout, s: State, b: nat)
    requires Inv(L, s) && b < L.blocks && !Pinned(s, b) && !Stray(s, b)
    requires forall i :: 0 <= i < |s.bufs| && s.bufs[i].Caches(b) ==> !s.bufs[i].dirty
    ensures Content(s, b) == s.disk[b]
  {
    if i :| 0 <= i < |s.bufs| && s.bufs[i].Caches(b) {
      ContentOf(L, s, i, b);
      assert SlotOk(L, s, i);
    }
  }

  /** No listed block still waits to be copied home: before the commit point, and from the
      last copy on. */
  predicate Settled(L: Layout, s: State) {
    !s.phase.Install? && (s.phase.LoadHead? ==> L.Valid() && |s.disk| == L.blocks && Header(L, s) == [])
  }

  /** Then the home blocks are the durable image; in particular no logged change reaches a home
      block before the commit point. */
  lemma HomeIsDurable(L: Layout, s: State)
    requires Inv(L, s) && Settled(L, s)
    ensures HomeContents(L, s.disk) == Recovered(L, s.disk) == Abs(L, s).durable
  {
    InstalledIsRecovered(L, s.disk);
  }

  // ---- each step refines its event ----

  /** A step that writes no disk block keeps the durable image; one that also keeps
      every cached content keeps the live image. */
  lemma QuietStep(L: Layout, s: State, t: State, b: nat)
    requires Inv(L, s) && Inv(L, t) && t.disk == s.disk && b < L.blocks
    requires s.phase.Recovering() == t.phase.Recovering()
    requires |t.bufs| == |s.bufs|
    requires !s.phase.Recovering() ==> forall i :: 0 <= i < |s.bufs| ==>
      (s.bufs[i].Caches(b) ==> t.bufs[i].Caches(b) && t.bufs[i].data == s.bufs[i].data)
    requires !s.phase.Recovering() ==> forall i :: 0 <= i < |s.bufs| ==>
      (t.bufs[i].Caches(b) && !s.bufs[i].Caches(b) ==> t.bufs[i].data == Content(s, b))
    ensures Durable(L, t, b) == Durable(L, s, b) && Live(L, t, b) == Live(L, s, b)
  {
    if !s.phase.Recovering() {
      if i :| 0 <= i < |s.bufs| && s.bufs[i].Caches(b) {
        ContentOf(L, s, i, b);
        ContentOf(L, t, i, b);
      } else if i :| 0 <= i < |t.bufs| && t.bufs[i].Caches(b) {
        ContentOf(L, t, i, b);
      }
    }
  }

  /** What the event of a step does to home block b. */
  ghost predicate RefinesAt(L: Layout, s: State, st: Step, b: nat)
    requires Inv(L, s) && Enabled(L, s, st) && Inv(L, Apply(L, s, st)) && L.Home(b)
  {
    var t := Apply(L, s, st);
    var e := EventOf(L, s, st);
    && Durable(L, t, b) == (if e.Commit? && !Stray(s, b) then Live(L, s, b) else Durable(L, s, b))
    && Live(L, t, b) == (if e.PowerLoss? || (e.Reverted? && e.b == b) then Durable(L, s, b)
                         else if e.Write? && e.b == b then e.v else Live(L, s, b))
  }

  /** What it does to the abandoned changes. */
  ghost predicate StrayRefinesAt(L: Layout, s: State, st: Step, b: nat)
    requires L.Valid() && |s.disk| == L.blocks && Enabled(L, s, st)
  {
    var e := EventOf(L, s, st);
    Stray(Apply(L, s, st), b) == if e.PowerLoss? || ((e.Redeemed? || e.Reverted?) && e.b == b) then false
                                 else if e.Abandoned? && e.b == b then true else Stray(s, b)
  }

  /** Block b has a stray buffer only if all the buffers that cache it are, and then the disk
      has the durable content. */
  lemma StrayBuffer(L: Layout, s: State, i: nat, b: nat)
    requires Inv(L, s) && i < |s.bufs| && s.bufs[i].block == Some(b)
    ensures Stray(s, b) == s.bufs[i].stray
    ensures s.bufs[i].stray ==> b < L.blocks && Durable(L, s, b) == s.disk[b] && !s.phase.Recovering() && b !in s.lh
  {
    assert forall k :: 0 <= k < |s.bufs| && s.bufs[k].block == s.bufs[i].block ==> k == i;
    assert StrayOk(L, s, i);
    if s.bufs[i].stray {
      var h := Header(L, s);
      if k :| 0 <= k < |h| && h[k] == b {
        assert s.phase.ClearHead? && HomeDone(L, s.disk, h, k);
        ImageListed(L, s.disk, k);
      }
    }
  }

  lemma UseRefines(L: Layout, s: State, st: Step, b: nat)
    requires Inv(L, s) && Enabled(L, s, st) && Inv(L, Apply(L, s, st)) && L.Home(b)
    requires st.GetHit? || st.Lock? || st.Unlock? || st.Abandon? || st.Drop?
    ensures RefinesAt(L, s, st, b)
  {
    QuietStep(L, s, Apply(L, s, st), b);
  }

  lemma OpRefines(L: Layout, s: State, st: Step, b: nat)
    requires Inv(L, s) && Enabled(L, s, st) && Inv(L, Apply(L, s, st)) && L.Home(b)
    requires st.BeginOp? || st.EndOp? || st.LogWrite?
    ensures RefinesAt(L, s, st, b)
  {
    QuietStep(L, s, Apply(L, s, st), b);
  }

  lemma FillRefines(L: Layout, s: State, st: Step, b: nat)
    requires Inv(L, s) && Enabled(L, s, st) && Inv(L, Apply(L, s, st)) && L.Home(b)
    requires st.CopyToLog? || st.FillHead?
    ensures RefinesAt(L, s, st, b)
  {
    QuietStep(L, s, Apply(L, s, st), b);
  }

  lemma TurnRefines(L: Layout, s: State, st: Step, b: nat)
    requires Inv(L, s) && Enabled(L, s, st) && Inv(L, Apply(L, s, st)) && L.Home(b)
    requires st.Unpin? || st.ForgetLog? || st.FinishCommit? || st.ReadHead?
    ensures RefinesAt(L, s, st, b)
  {
    QuietStep(L, s, Apply(L, s, st), b);
  }

  lemma GetMissRefines(L: Layout, s: State, st: Step, b: nat)
    requires Inv(L, s) && Enabled(L, s, st) && Inv(L, Apply(L, s, st)) && L.Home(b) && st.GetMiss?
    ensures RefinesAt(L, s, st, b)
  {
    assert StrayOk(L, s, st.i);
    if s.bufs[st.i].Caches(b) {
      assert SlotOk(L, s, st.i);
      StrayBuffer(L, s, st.i, b);
      if !s.bufs[st.i].stray {
        ContentOnDisk(L, s, b);
      }
    } else {
      QuietStep(L, s, Apply(L, s, st), b);
    }
  }

  lemma ReadRefines(L: Layout, s: State, st: Step, b: nat)
    requires Inv(L, s) && Enabled(L, s, st) && Inv(L, Apply(L, s, st)) && L.Home(b) && st.Read?
    ensures RefinesAt(L, s, st, b)
  {
    QuietStep(L, s, Apply(L, s, st), b);
  }

  lemma ModifyRefines(L: Layout, s: State, st: Step, b: nat)
    requires Inv(L, s) && Enabled(L, s, st) && Inv(L, Apply(L, s, st)) && L.Home(b) && st.Modify?
    ensures RefinesAt(L, s, st, b)
  {
    var t := Apply(L, s, st);
    if s.bufs[st.i].Caches(b) {
      ContentOf(L, t, st.i, b);
    } else {
      QuietStep(L, s, t, b);
    }
  }

  lemma WriteLogRefines(L: Layout, s: State, st: Step, b: nat)
    requires Inv(L, s) && Enabled(L, s, st) && Inv(L, Apply(L, s, st)) && L.Home(b) && st.WriteLogBlock?
    ensures RefinesAt(L, s, st, b)
  {
    LiveAfterBwrite(L, s, Apply(L, s, st), b);
  }

  /** Contents seen through the cache survive the write of a block that is cached. */
  lemma LiveAfterBwrite(L: Layout, s: State, t: State, b: nat)
    requires Inv(L, s) && Inv(L, t) && b < L.blocks && |t.bufs| == |s.bufs|
    requires forall i :: 0 <= i < |s.bufs| ==> Same(t.bufs[i], s.bufs[i])
    requires t.disk[b] == s.disk[b] || Cached(s, b)
    ensures Content(t, b) == Content(s, b)
  {
    if i :| 0 <= i < |s.bufs| && s.bufs[i].Caches(b) {
      ContentOf(L, s, i, b);
      ContentOf(L, t, i, b);
    } else {
      assert forall i :: 0 <= i < |t.bufs| ==> !t.bufs[i].Caches(b);
    }
  }

  lemma CommittedListed(L: Layout, s: State, k: nat)
    requires Inv(L, s) && s.phase.CommitHead? && k < |s.lh|
    ensures Content(s, s.lh[k]) == s.disk[L.start + 1 + k]
  {
    assert CopyDone(L, s, k) && Cached(s, s.lh[k]);
    var i :| 0 <= i < |s.bufs| && s.bufs[i].Caches(s.lh[k]);
    ContentOf(L, s, i, s.lh[k]);
  }

  lemma CommittedUnlisted(L: Layout, s: State, b: nat)
    requires Inv(L, s) && s.phase.CommitHead? && L.Home(b) && b !in s.lh && !Stray(s, b)
    ensures Content(s, b) == s.disk[b]
  {
    forall i | 0 <= i < |s.bufs| && s.bufs[i].Caches(b) ensures !s.bufs[i].dirty {
      assert SlotOk(L, s, i);
    }
    ContentOnDisk(L, s, b);
  }

  lemma NotStray(L: Layout, s: State, b: nat)
    requires Inv(L, s) && (b in s.lh || s.phase.Recovering())
    ensures !Stray(s, b)
  {
    forall i | 0 <= i < |s.bufs| ensures !(s.bufs[i].stray && s.bufs[i].block == Some(b)) {
      assert StrayOk(L, s, i);
    }
  }

  /** The commit point: the non-empty header makes every live content durable. */
  lemma CommitPointRefines(L: Layout, s: State, st: Step, b: nat)
    requires Inv(L, s) && Enabled(L, s, st) && Inv(L, Apply(L, s, st)) && L.Home(b)
    requires st.WriteHead? && s.phase.CommitHead?
    ensures RefinesAt(L, s, st, b)
  {
    var t := Apply(L, s, st);
    LiveAfterBwrite(L, s, t, b);
    assert Header(L, t) == s.lh;
    if b in s.lh {
      var k :| 0 <= k < |s.lh| && s.lh[k] == b;
      ImageListed(L, t.disk, k);
      CommittedListed(L, s, k);
      NotStray(L, s, b);
    } else {
      ImageUnlisted(L, t.disk, b);
      ImageUnlisted(L, s.disk, b);
      if !Stray(s, b) {
        CommittedUnlisted(L, s, b);
      }
    }
  }

  lemma ClearHeadDurable(L: Layout, s: State, st: Step, b: nat)
    requires Inv(L, s) && Enabled(L, s, st) && Inv(L, Apply(L, s, st)) && L.Home(b)
    requires st.WriteHead? && s.phase.ClearHead?
    ensures var t := Apply(L, s, st); Durable(L, t, b) == Durable(L, s, b) == t.disk[b] == s.disk[b]
  {
    ImageUnlisted(L, Apply(L, s, st).disk, b);
    var h := Header(L, s);
    if k :| 0 <= k < |h| && h[k] == b {
      ImageListed(L, s.disk, k);
      assert HomeDone(L, s.disk, h, k);
    }
  }

  lemma ClearHeadRefines(L: Layout, s: State, st: Step, b: nat)
    requires Inv(L, s) && Enabled(L, s, st) && Inv(L, Apply(L, s, st)) && L.Home(b)
    requires st.WriteHead? && s.phase.ClearHead?
    ensures RefinesAt(L, s, st, b)
  {
    var t := Apply(L, s, st);
    ClearHeadDurable(L, s, st, b);
    LiveAfterBwrite(L, s, t, b);
    if s.phase.recovering {
      forall i | 0 <= i < |t.bufs| && t.bufs[i].Caches(b) ensures !t.bufs[i].dirty {
        assert SlotOk(L, t, i);
      }
      NotStray(L, s, b);
      ContentOnDisk(L, t, b);
    }
  }

  lemma CopyHomeRefines(L: Layout, s: State, st: Step, b: nat)
    requires Inv(L, s) && Enabled(L, s, st) && Inv(L, Apply(L, s, st)) && L.Home(b) && st.CopyHome?
    ensures RefinesAt(L, s, st, b)
  {
    assert SlotOk(L, s, st.l);
    if !s.phase.recovering {
      assert CopyDone(L, s, s.phase.tail);
    }
    QuietStep(L, s, Apply(L, s, st), b);
  }

  lemma WriteHomeRefines(L: Layout, s: State, st: Step, b: nat)
    requires Inv(L, s) && Enabled(L, s, st) && Inv(L, Apply(L, s, st)) && L.Home(b) && st.WriteHome?
    ensures RefinesAt(L, s, st, b)
  {
    var t := Apply(L, s, st);
    HomeWriteKeeps(L, s.disk, t.disk, s.phase.tail, b);
    if !s.phase.recovering {
      assert s.bufs[s.phase.copy.buf].Caches(s.lh[s.phase.tail]);
      LiveAfterBwrite(L, s, t, b);
    }
  }

  lemma CrashRefines(L: Layout, s: State, st: Step, b: nat)
    requires Inv(L, s) && Enabled(L, s, st) && Inv(L, Apply(L, s, st)) && L.Home(b) && st.Crash?
    ensures RefinesAt(L, s, st, b)
  {
  }

  lemma StepRefinesAt(L: Layout, s: State, st: Step, b: nat)
    requires Inv(L, s) && Enabled(L, s, st) && Inv(L, Apply(L, s, st)) && L.Home(b)
    ensures RefinesAt(L, s, st, b)
  {
    if st.GetMiss? { GetMissRefines(L, s, st, b); }
    else if st.Read? { ReadRefines(L, s, st, b); }
    else if st.Modify? { ModifyRefines(L, s, st, b); }
    else if st.WriteLogBlock? { WriteLogRefines(L, s, st, b); }
    else if st.WriteHead? && s.phase.CommitHead? { CommitPointRefines(L, s, st, b); }
    else if st.WriteHead? { ClearHeadRefines(L, s, st, b); }
    else if st.CopyHome? { CopyHomeRefines(L, s, st, b); }
    else if st.WriteHome? { WriteHomeRefines(L, s, st, b); }
    else if st.Crash? { CrashRefines(L, s, st, b); }
    else if st.CopyToLog? || st.FillHead? { FillRefines(L, s, st, b); }
    else if st.BeginOp? || st.EndOp? || st.LogWrite? { OpRefines(L, s, st, b); }
    else if st.Unpin? || st.ForgetLog? || st.FinishCommit? || st.ReadHead? { TurnRefines(L, s, st, b); }
    else { UseRefines(L, s, st, b); }
  }

  /** Only `Abandon`, `LogWrite`, `GetMiss` and a crash change who is stray. */
  lemma StraySame(s: State, t: State, b: nat)
    requires |t.bufs| == |s.bufs|
    requires forall i :: 0 <= i < |s.bufs| ==> t.bufs[i].stray == s.bufs[i].stray && (s.bufs[i].stray ==> t.bufs[i].block == s.bufs[i].block)
    ensures Stray(t, b) == Stray(s, b)
  {
    if i :| 0 <= i < |s.bufs| && s.bufs[i].stray && s.bufs[i].block == Some(b) {
      assert t.bufs[i].stray && t.bufs[i].block == Some(b);
    }
  }

  lemma StrayUse(L: Layout, s: State, st: Step, b: nat)
    requires L.Valid() && |s.disk| == L.blocks && Enabled(L, s, st) && Inv(L, s)
    requires st.GetHit? || st.Lock? || st.Read? || st.Modify? || st.Unlock? || st.Drop? || st.BeginOp? || st.EndOp?
    ensures StrayRefinesAt(L, s, st, b)
  {
    StraySame(s, Apply(L, s, st), b);
  }

  lemma StrayRefines(L: Layout, s: State, st: Step, b: nat)
    requires Inv(L, s) && Enabled(L, s, st) && Inv(L, Apply(L, s, st))
    ensures StrayRefinesAt(L, s, st, b)
  {
    if st.GetMiss? || st.LogWrite? || st.Abandon? {
      StrayMoves(L, s, st, b);
    } else if st.GetHit? || st.Lock? || st.Read? || st.Modify? || st.Unlock? || st.Drop? || st.BeginOp? || st.EndOp? {
      StrayUse(L, s, st, b);
    } else if !st.Crash? {
      StraySame(s, Apply(L, s, st), b);
    }
  }

  lemma StrayMoves(L: Layout, s: State, st: Step, b: nat)
    requires Inv(L, s) && Enabled(L, s, st) && Inv(L, Apply(L, s, st)) && (st.GetMiss? || st.LogWrite? || st.Abandon?)
    ensures StrayRefinesAt(L, s, st, b)
  {
    var t, i := Apply(L, s, st), st.i;
    assert StrayOk(L, s, i);
    if s.bufs[i].block == Some(b) {
      StrayBuffer(L, s, i, b);
      if t.bufs[i].block == Some(b) {
        StrayBuffer(L, t, i, b);
      }
    } else if k :| 0 <= k < |s.bufs| && s.bufs[k].stray && s.bufs[k].block == Some(b) {
      assert t.bufs[k] == s.bufs[k];
    }
  }

  /** The refinement theorem: every step of the kernel, of a crash or of recovery is
      its event on the store. */
  lemma StepRefines(L: Layout, s: State, st: Step)
    requires Inv(L, s) && Enabled(L, s, st)
    ensures Inv(L, Apply(L, s, st))
    ensures Abs(L, Apply(L, s, st)) == Do(Abs(L, s), EventOf(L, s, st))
  {
    StepInv(L, s, st);
    forall b | b in HomeBlocks(L) ensures RefinesAt(L, s, st, b) && StrayRefinesAt(L, s, st, b) {
      StepRefinesAt(L, s, st, b);
      StrayRefines(L, s, st, b);
    }
    AbsOfPointwise(L, s, st);
  }

  lemma AbsAt(L: Layout, s: State, b: nat)
    requires Inv(L, s) && b in HomeBlocks(L)
    ensures b in Abs(L, s).durable && Abs(L, s).durable[b] == Durable(L, s, b)
    ensures b in Abs(L, s).live && Abs(L, s).live[b] == Live(L, s, b)
    ensures b in Abs(L, s).stray <==> Stray(s, b)
  {
  }

  lemma AbsKeys(L: Layout, s: State)
    requires Inv(L, s)
    ensures Abs(L, s).durable.Keys == Abs(L, s).live.Keys == HomeBlocks(L) && Abs(L, s).stray <= HomeBlocks(L)
  {
  }

  /** What an event does to one block of the store. */
  predicate DoesAt(a: Store, a': Store, e: Event, b: nat)
    requires b in a.durable && b in a.live && b in a'.durable && b in a'.live
  {
    && a'.durable[b] == (if e.Commit? && b !in a.stray then a.live[b] else a.durable[b])
    && a'.live[b] == (if e.PowerLoss? || (e.Reverted? && e.b == b) then a.durable[b] else if e.Write? && e.b == b then e.v else a.live[b])
    && (b in a'.stray <==> if e.PowerLoss? || ((e.Redeemed? || e.Reverted?) && e.b == b) then false
                           else if e.Abandoned? && e.b == b then true else b in a.stray)
  }

  lemma StoreStep(a: Store, a': Store, e: Event, home: set<nat>)
    requires a.durable.Keys == a.live.Keys == a'.durable.Keys == a'.live.Keys == home && a.stray <= home && a'.stray <= home
    requires e.Write? || e.Abandoned? || e.Redeemed? || e.Reverted? ==> e.b in home
    requires forall b {:trigger DoesAt(a, a', e, b)} :: b in home ==> DoesAt(a, a', e, b)
    ensures a' == Do(a, e)
  {
    var d := Do(a, e);
    forall b | b in home ensures b in d.durable && b in d.live && a'.durable[b] == d.durable[b] && a'.live[b] == d.live[b] {
      assert DoesAt(a, a', e, b);
    }
    assert a'.durable == d.durable;
    assert a'.live == d.live;
    forall b | b in home ensures b in a'.stray <==> b in d.stray {
      assert DoesAt(a, a', e, b);
    }
    assert a'.stray == d.stray;
  }

  lemma EventHome(L: Layout, s: State, st: Step)
    requires Inv(L, s) && Enabled(L, s, st)
    ensures var e := EventOf(L, s, st); e.Write? || e.Abandoned? || e.Redeemed? || e.Reverted? ==> L.Home(e.b)
  {
    if st.Abandon? {
      assert SlotOk(L, s, st.i);
    } else if st.GetMiss? {
      assert StrayOk(L, s, st.i);
    }
  }

  lemma AbsOfPointwise(L: Layout, s: State, st: Step)
    requires Inv(L, s) && Enabled(L, s, st) && Inv(L, Apply(L, s, st))
    requires forall b :: b in HomeBlocks(L) ==> RefinesAt(L, s, st, b) && StrayRefinesAt(L, s, st, b)
    ensures Abs(L, Apply(L, s, st)) == Do(Abs(L, s), EventOf(L, s, st))
  {
    var t, e := Apply(L, s, st), EventOf(L, s, st);
    var a, a' := Abs(L, s), Abs(L, t);
    AbsKeys(L, s);
    AbsKeys(L, t);
    forall b | b in HomeBlocks(L) ensures DoesAt(a, a', e, b) {
      AbsAt(L, s, b);
      AbsAt(L, t, b);
      assert RefinesAt(L, s, st, b) && StrayRefinesAt(L, s, st, b);
    }
    EventHome(L, s, st);
    StoreStep(a, a', e, HomeBlocks(L));
  }
}
