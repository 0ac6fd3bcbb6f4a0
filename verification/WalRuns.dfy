/** Runs from boot that show where the log falls short: a commit that finds no buffer, and a
    change that processes see and that vanishes without a crash. */
module WalRuns {
  import opened Common
  import opened WalModel
  import opened WalInvariant
  import opened WalRefinement
  import opened WalSafety
  import opened WalBuffers

  // ---- putting runs together ----

  /** How often process p calls `log_write`. */
  function Writes(sts: seq<Step>, p: Pid): nat {
    if sts == [] then 0
    else Writes(sts[..|sts| - 1], p) + if sts[|sts| - 1].LogWrite? && sts[|sts| - 1].p == p then 1 else 0
  }

  /** A run that continues one by a step. */
  lemma Extend(L: Layout, ss: seq<State>, sts: seq<Step>, st: Step) returns (ss': seq<State>, sts': seq<Step>)
    requires Run(L, ss, sts) && L.Valid() && |ss[|sts|].disk| == L.blocks && Enabled(L, ss[|sts|], st)
    ensures Run(L, ss', sts') && ss'[0] == ss[0] && sts' == sts + [st] && ss' == ss + [Apply(L, ss[|sts|], st)]
    ensures forall p :: Writes(sts', p) == Writes(sts, p) + if st.LogWrite? && st.p == p then 1 else 0
  {
    var t := Apply(L, ss[|sts|], st);
    ss', sts' := ss + [t], sts + [st];
    assert sts'[..|sts|] == sts;
    forall k | 0 <= k < |sts'| ensures Next(L, ss'[k], sts'[k], ss'[k + 1]) {
      assert k < |sts| ==> Next(L, ss[k], sts[k], ss[k + 1]);
    }
  }

  /** Nobody uses the buffer. */
  predicate Quiet(u: Buf) {
    u.holder == None && u.waiting == {} && u.leaving == {} && !u.dirty
  }

  predicate AllQuiet(s: State) {
    forall i :: 0 <= i < |s.bufs| ==> Quiet(s.bufs[i])
  }

  /** The second run is the first one, continued without a `log_write`. */
  ghost predicate Continues(L: Layout, ss0: seq<State>, sts0: seq<Step>, ss: seq<State>, sts: seq<Step>) {
    && Run(L, ss0, sts0) && Run(L, ss, sts) && ss[0] == ss0[0]
    && forall p :: Writes(sts, p) == Writes(sts0, p)
  }

  lemma FreeIsQuiet(L: Layout, s: State, i: nat)
    requires Inv(L, s) && i < |s.bufs| && s.bufs[i].refcnt == 0
    ensures Quiet(s.bufs[i])
  {
    assert SlotOk(L, s, i) && BufOk(L, s.bufs[i]);
  }

  lemma QuietIsFree(L: Layout, s: State, i: nat)
    requires Inv(L, s) && i < |s.bufs| && Quiet(s.bufs[i]) && (s.bufs[i].block.Some? ==> !Pinned(s, s.bufs[i].block.value))
    ensures s.bufs[i].refcnt == 0
  {
    assert SlotOk(L, s, i);
  }

  /** Buffer i was quiet and is now held by p, with block b in it; nothing else changed. */
  predicate Took(s: State, t: State, p: Pid, i: nat, b: nat) {
    && i < |s.bufs| == |t.bufs| && t == s.(bufs := s.bufs[i := t.bufs[i]]) && Quiet(s.bufs[i])
    && t.bufs[i].HeldBy(p, b) && t.bufs[i].waiting == {p} && t.bufs[i].leaving == {} && !t.bufs[i].dirty
    && (t.bufs[i].stray ==> s.bufs[i].stray)
  }

  lemma HitRun(L: Layout, ss0: seq<State>, sts0: seq<Step>, p: Pid, i: nat, b: nat) returns (ss: seq<State>, sts: seq<Step>)
    requires Run(L, ss0, sts0) && b < L.blocks && i < |ss0[|sts0|].bufs|
    requires ss0[|sts0|].bufs[i].block == Some(b) && Quiet(ss0[|sts0|].bufs[i])
    ensures Continues(L, ss0, sts0, ss, sts) && Took(ss0[|sts0|], ss[|sts|], p, i, b)
  {
    RunInv(L, ss0, sts0, |sts0|);
    ss, sts := Extend(L, ss0, sts0, GetHit(p, i, b));
    ss, sts := Extend(L, ss, sts, Lock(p, i));
    if !ss[|sts|].bufs[i].valid {
      assert StrayOk(L, ss0[|sts0|], i);
      ss, sts := Extend(L, ss, sts, Read(p, i));
    }
  }

  lemma MissRun(L: Layout, ss0: seq<State>, sts0: seq<Step>, p: Pid, i: nat, b: nat) returns (ss: seq<State>, sts: seq<Step>)
    requires Run(L, ss0, sts0) && b < L.blocks && i < |ss0[|sts0|].bufs| && ss0[|sts0|].bufs[i].refcnt == 0
    requires forall k :: 0 <= k < |ss0[|sts0|].bufs| ==> ss0[|sts0|].bufs[k].block != Some(b)
    ensures Continues(L, ss0, sts0, ss, sts) && Took(ss0[|sts0|], ss[|sts|], p, i, b)
  {
    RunInv(L, ss0, sts0, |sts0|);
    FreeIsQuiet(L, ss0[|sts0|], i);
    ss, sts := Extend(L, ss0, sts0, GetMiss(p, i, b));
    ss, sts := Extend(L, ss, sts, Lock(p, i));
    ss, sts := Extend(L, ss, sts, Read(p, i));
  }

  /** `bread`, when `bget` finds a buffer and nobody else uses the block. */
  lemma BreadRun(L: Layout, ss0: seq<State>, sts0: seq<Step>, p: Pid, b: nat) returns (ss: seq<State>, sts: seq<Step>, i: nat)
    requires Run(L, ss0, sts0) && b < L.blocks && !NoBuffer(ss0[|sts0|], b)
    requires forall k :: 0 <= k < |ss0[|sts0|].bufs| && ss0[|sts0|].bufs[k].block == Some(b) ==> Quiet(ss0[|sts0|].bufs[k])
    ensures Continues(L, ss0, sts0, ss, sts) && Took(ss0[|sts0|], ss[|sts|], p, i, b)
  {
    var s := ss0[|sts0|];
    if k :| 0 <= k < |s.bufs| && s.bufs[k].block == Some(b) {
      i := k;
      ss, sts := HitRun(L, ss0, sts0, p, i, b);
    } else {
      i :| 0 <= i < |s.bufs| && s.bufs[i].refcnt == 0;
      ss, sts := MissRun(L, ss0, sts0, p, i, b);
    }
  }

  /** Buffer i, held by p alone, is quiet again. */
  predicate Gave(s: State, t: State, i: nat) {
    && i < |s.bufs| == |t.bufs| && t == s.(bufs := s.bufs[i := t.bufs[i]]) && Quiet(t.bufs[i])
    && t.bufs[i].stray == s.bufs[i].stray && t.bufs[i].block == s.bufs[i].block && t.bufs[i].data == s.bufs[i].data
    && t.bufs[i].valid == s.bufs[i].valid
  }

  lemma BrelseRun(L: Layout, ss0: seq<State>, sts0: seq<Step>, p: Pid, i: nat) returns (ss: seq<State>, sts: seq<Step>)
    requires Run(L, ss0, sts0) && i < |ss0[|sts0|].bufs|
    requires var u := ss0[|sts0|].bufs[i]; u.holder == Some(p) && u.waiting == {p} && u.leaving == {} && !u.dirty
    ensures Continues(L, ss0, sts0, ss, sts) && Gave(ss0[|sts0|], ss[|sts|], i)
  {
    RunInv(L, ss0, sts0, |sts0|);
    assert SlotOk(L, ss0[|sts0|], i);
    ss, sts := Extend(L, ss0, sts0, Unlock(p, i));
    ss, sts := Extend(L, ss, sts, Drop(p, i));
  }

  // ---- recovery ----

  /** Recovery is about to install from `tail` on, and no buffer is in use. */
  predicate Installing(s: State, tail: nat) {
    s.phase == Install(true, tail, Fresh) && s.boss == 0 && AllQuiet(s) && NoStrays(s)
  }

  lemma FindTwo(L: Layout, s: State, l: nat, b: nat)
    requires Inv(L, s) && s.phase.Recovering() && l < |s.bufs| && forall k :: 0 <= k < |s.bufs| && k != l ==> Quiet(s.bufs[k])
    ensures !NoBuffer(s, b)
  {
    var k := if l == 0 then 1 else 0;
    QuietIsFree(L, s, k);
  }

  /** The two reads of a turn of `install_trans`. */
  lemma ReadBothRun(L: Layout, ss0: seq<State>, sts0: seq<Step>, tail: nat)
    returns (ss: seq<State>, sts: seq<Step>, t: State, l: nat, d: nat)
    requires Run(L, ss0, sts0) && Installing(ss0[|sts0|], tail) && tail < |ss0[|sts0|].lh|
    ensures Continues(L, ss0, sts0, ss, sts) && Took(ss0[|sts0|], t, 0, l, L.start + 1 + tail)
    ensures Took(t, ss[|sts|], 0, d, ss0[|sts0|].lh[tail]) && d != l
  {
    var s := ss0[|sts0|];
    RunInv(L, ss0, sts0, |sts0|);
    assert L.Home(s.lh[tail]);
    FindTwo(L, s, 0, L.start + 1 + tail);
    ss, sts, l := BreadRun(L, ss0, sts0, 0, L.start + 1 + tail);
    t := ss[|sts|];
    RunInv(L, ss, sts, |sts|);
    FindTwo(L, t, l, s.lh[tail]);
    var ss1, sts1 := ss, sts;
    ss, sts, d := BreadRun(L, ss1, sts1, 0, s.lh[tail]);
  }

  /** The state after the copy home, with the buffers l and d still held. */
  lemma CopyRun(L: Layout, ss0: seq<State>, sts0: seq<Step>, tail: nat, l: nat, d: nat) returns (ss: seq<State>, sts: seq<Step>)
    requires Run(L, ss0, sts0) && l != d && l < |ss0[|sts0|].bufs| && d < |ss0[|sts0|].bufs|
    requires var s := ss0[|sts0|];
      && L.Valid() && |s.disk| == L.blocks && s.phase == Install(true, tail, Fresh) && tail < |s.lh| && s.lh[tail] < L.blocks
      && s.bufs[l].HeldBy(s.boss, L.start + 1 + tail) && s.bufs[d].HeldBy(s.boss, s.lh[tail])
    ensures Continues(L, ss0, sts0, ss, sts)
    ensures var s, t := ss0[|sts0|], ss[|sts|];
      t == s.(disk := t.disk, phase := AfterInstall(true, s.lh, tail + 1),
              bufs := s.bufs[d := s.bufs[d].(data := s.bufs[l].data, dirty := false)])
  {
    ss, sts := Extend(L, ss0, sts0, CopyHome(l, d));
    ss, sts := Extend(L, ss, sts, WriteHome);
    ss, sts := Extend(L, ss, sts, Unpin);
  }

  /** One turn of `install_trans`. */
  lemma TurnRun(L: Layout, ss0: seq<State>, sts0: seq<Step>, tail: nat) returns (ss: seq<State>, sts: seq<Step>)
    requires Run(L, ss0, sts0) && Installing(ss0[|sts0|], tail) && tail < |ss0[|sts0|].lh|
    ensures Continues(L, ss0, sts0, ss, sts)
    ensures var s, t := ss0[|sts0|], ss[|sts|];
      t == s.(disk := t.disk, bufs := t.bufs, phase := AfterInstall(true, s.lh, tail + 1)) && AllQuiet(t) && NoStrays(t)
  {
    RunInv(L, ss0, sts0, |sts0|);
    var t, l, d;
    assert L.Home(ss0[|sts0|].lh[tail]);
    ss, sts, t, l, d := ReadBothRun(L, ss0, sts0, tail);
    ss, sts := CopyRun(L, ss, sts, tail, l, d);
    ss, sts := BrelseRun(L, ss, sts, 0, l);
    ss, sts := BrelseRun(L, ss, sts, 0, d);
  }

  lemma {:induction false} InstallRun(L: Layout, ss0: seq<State>, sts0: seq<Step>, tail: nat) returns (ss: seq<State>, sts: seq<Step>)
    requires Run(L, ss0, sts0) && Installing(ss0[|sts0|], tail) && tail < |ss0[|sts0|].lh|
    ensures Continues(L, ss0, sts0, ss, sts)
    ensures var s, t := ss0[|sts0|], ss[|sts|];
      t == s.(disk := t.disk, bufs := t.bufs, phase := Forget(true)) && AllQuiet(t) && NoStrays(t)
    decreases |ss0[|sts0|].lh| - tail
  {
    ss, sts := TurnRun(L, ss0, sts0, tail);
    if tail + 1 < |ss0[|sts0|].lh| {
      ss, sts := InstallRun(L, ss, sts, tail + 1);
    }
  }

  /** `read_head`, and the first phase of recovery after it. */
  lemma ReadHeadRun(L: Layout, d: seq<Block>) returns (ss: seq<State>, sts: seq<Step>)
    requires GoodDisk(L, d)
    ensures Run(L, ss, sts) && ss[0] == Rebooted(d, 0) && forall p :: Writes(sts, p) == 0
    ensures var t := ss[|sts|];
      t == Rebooted(d, 0).(bufs := t.bufs, lh := t.lh, phase := AfterInstall(true, t.lh, 0)) && AllQuiet(t) && NoStrays(t)
  {
    ss, sts := [Rebooted(d, 0)], [];
    RunInv(L, ss, sts, 0);
    FindTwo(L, ss[0], 0, L.start);
    var i;
    ss, sts, i := BreadRun(L, ss, sts, 0, L.start);
    RunInv(L, ss, sts, |sts|);
    ss, sts := Extend(L, ss, sts, ReadHead(i));
    ss, sts := BrelseRun(L, ss, sts, 0, i);
  }

  /** `write_head` with an empty log. */
  lemma ClearRun(L: Layout, ss0: seq<State>, sts0: seq<Step>) returns (ss: seq<State>, sts: seq<Step>)
    requires Run(L, ss0, sts0)
    requires var s := ss0[|sts0|]; s.phase == ClearHead(true, None) && s.lh == [] && s.boss == 0 && AllQuiet(s) && NoStrays(s)
    ensures Continues(L, ss0, sts0, ss, sts)
    ensures var s, t := ss0[|sts0|], ss[|sts|]; t == s.(disk := t.disk, bufs := t.bufs, phase := Idle) && AllQuiet(t) && NoStrays(t)
  {
    RunInv(L, ss0, sts0, |sts0|);
    FindTwo(L, ss0[|sts0|], 0, L.start);
    var i;
    ss, sts, i := BreadRun(L, ss0, sts0, 0, L.start);
    RunInv(L, ss, sts, |sts|);
    ss, sts := Extend(L, ss, sts, FillHead(i));
    ss, sts := Extend(L, ss, sts, WriteHead);
    ss, sts := BrelseRun(L, ss, sts, 0, i);
  }

  /** Nothing is going on. */
  predicate AtRest(s: State) {
    s.phase.Idle? && s.lh == [] && s.ops == {} && s.outstanding == 0 && !s.committing && AllQuiet(s) && NoStrays(s)
  }

  /** Recovery of any log. */
  lemma RecoverRun(L: Layout, d: seq<Block>) returns (ss: seq<State>, sts: seq<Step>)
    requires GoodDisk(L, d)
    ensures Run(L, ss, sts) && ss[0] == Rebooted(d, 0) && (forall p :: Writes(sts, p) == 0) && AtRest(ss[|sts|])
  {
    ss, sts := ReadHeadRun(L, d);
    if ss[|sts|].lh != [] {
      ss, sts := InstallRun(L, ss, sts, 0);
    }
    RunInv(L, ss, sts, |sts|);
    ss, sts := Extend(L, ss, sts, ForgetLog);
    ss, sts := ClearRun(L, ss, sts);
  }

  // ---- a run that fills the log ----

  /** Three operations are under way, and the first n blocks of q are logged. */
  predicate FilledTo(s: State, q: seq<nat>, n: nat) {
    && n <= |q| == NBUF && s.phase.Idle? && s.lh == q[..n] && s.ops == {0, 1, 2} && s.outstanding == 3 && !s.committing
    && AllQuiet(s)
  }

  lemma RoomForOne(L: Layout, s: State, b: nat)
    requires Inv(L, s) && s.phase.Idle? && AllQuiet(s) && |s.lh| < NBUF
    ensures !NoBuffer(s, b)
  {
    forall i | 0 <= i < |s.bufs| ensures i !in Busy(s) {
      if i !in PinnedBuffers(s) {
        QuietIsFree(L, s, i);
      }
    }
    assert Busy(s) == {};
    BufferFound(L, s, b);
  }

  /** The calls of each process when n blocks are logged, by one operation after the other. */
  function Share(n: nat, p: Pid): nat {
    if n <= p * MAXOPBLOCKS then 0 else if n >= (p + 1) * MAXOPBLOCKS then MAXOPBLOCKS else n - p * MAXOPBLOCKS
  }

  lemma ShareMore(n: nat, p: Pid)
    ensures Share(n + 1, p) == Share(n, p) + if p == n / MAXOPBLOCKS then 1 else 0
  {
  }

  /** A process reads the next block, logs and releases it. */
  lemma FillOne(L: Layout, ss0: seq<State>, sts0: seq<Step>, q: seq<nat>, n: nat) returns (ss: seq<State>, sts: seq<Step>)
    requires Run(L, ss0, sts0) && GoodList(L, q) && FilledTo(ss0[|sts0|], q, n) && n < NBUF
    ensures Run(L, ss, sts) && ss[0] == ss0[0] && FilledTo(ss[|sts|], q, n + 1)
    ensures forall p :: Writes(sts, p) == Writes(sts0, p) + if p == n / MAXOPBLOCKS then 1 else 0
  {
    var p, i := n / MAXOPBLOCKS, 0;
    RunInv(L, ss0, sts0, |sts0|);
    RoomForOne(L, ss0[|sts0|], q[n]);
    assert L.Home(q[n]) && q[..n + 1] == q[..n] + [q[n]];
    ss, sts, i := BreadRun(L, ss0, sts0, p, q[n]);
    ss, sts := Extend(L, ss, sts, LogWrite(p, i));
    ss, sts := BrelseRun(L, ss, sts, p, i);
  }

  lemma {:induction false} FillAll(L: Layout, ss0: seq<State>, sts0: seq<Step>, q: seq<nat>, n: nat) returns (ss: seq<State>, sts: seq<Step>)
    requires Run(L, ss0, sts0) && GoodList(L, q) && FilledTo(ss0[|sts0|], q, n) && forall p :: Writes(sts0, p) == Share(n, p)
    ensures Run(L, ss, sts) && ss[0] == ss0[0] && FilledTo(ss[|sts|], q, NBUF) && forall p :: Writes(sts, p) == Share(NBUF, p)
    decreases NBUF - n
  {
    if n == NBUF {
      ss, sts := ss0, sts0;
    } else {
      ss, sts := FillOne(L, ss0, sts0, q, n);
      forall p: Pid ensures Writes(sts, p) == Share(n + 1, p) {
        ShareMore(n, p);
      }
      ss, sts := FillAll(L, ss, sts, q, n + 1);
    }
  }

  /** Three calls of `begin_op`. */
  lemma BeginRun(L: Layout, d: seq<Block>, q: seq<nat>) returns (ss: seq<State>, sts: seq<Step>)
    requires GoodDisk(L, d) && |q| == NBUF
    ensures Run(L, ss, sts) && ss[0] == Rebooted(d, 0) && FilledTo(ss[|sts|], q, 0) && forall p :: Writes(sts, p) == 0
  {
    ss, sts := RecoverRun(L, d);
    RunInv(L, ss, sts, |sts|);
    ss, sts := Extend(L, ss, sts, BeginOp(0));
    ss, sts := Extend(L, ss, sts, BeginOp(1));
    ss, sts := Extend(L, ss, sts, BeginOp(2));
  }

  /** Three operations, each within its reservation, fill the log. */
  lemma FullLogReachable(L: Layout, d: seq<Block>, q: seq<nat>) returns (ss: seq<State>, sts: seq<Step>)
    requires GoodDisk(L, d) && GoodList(L, q) && |q| == NBUF
    ensures Fills(L, d, ss, sts)
  {
    ss, sts := BeginRun(L, d, q);
    ss, sts := FillAll(L, ss, sts, q, 0);
    RunInv(L, ss, sts, |sts|);
    ss, sts := Extend(L, ss, sts, EndOp(0));
    ss, sts := Extend(L, ss, sts, EndOp(1));
    ss, sts := Extend(L, ss, sts, EndOp(2));
  }

  /** The run from this disk comes to the commit of a full log, and no process calls `log_write`
      more often than one reservation allows. */
  ghost predicate Fills(L: Layout, d: seq<Block>, ss: seq<State>, sts: seq<Step>) {
    && Run(L, ss, sts) && ss[0].disk == d && FullCommit(ss[|sts|])
    && forall p :: Writes(sts, p) <= MAXOPBLOCKS
  }

  ghost predicate CanFill(L: Layout, d: seq<Block>) {
    exists ss, sts :: Fills(L, d, ss, sts)
  }

  /** Home block number k, in order. */
  function HomeBlock(L: Layout, k: nat): nat {
    if k < L.start then k else k + L.size
  }

  lemma FirstHomes(L: Layout, n: nat)
    requires L.Valid() && n <= LOGSIZE && n < L.size && n <= L.blocks - L.size
    ensures var q := seq(n, k requires k >= 0 => HomeBlock(L, k)); GoodList(L, q) && |q| == n
  {
  }

  /** No list of home blocks is longer than the disk without the log. */
  lemma HomesFit(L: Layout, q: seq<nat>)
    requires L.Valid() && GoodList(L, q)
    ensures |q| <= L.blocks - L.size
  {
    var all, below, upto := Indices(L.blocks), Indices(L.start), Indices(L.start + L.size);
    IndicesSize(L.blocks);
    IndicesSize(L.start);
    IndicesSize(L.start + L.size);
    var logs := upto - below;
    assert below <= upto && upto == below + logs;
    forall i, j | 0 <= i < |q| && 0 <= j < |q| && i != j ensures DiffAt(q, i, j) {
    }
    NoDupSize(q);
    forall b | b in q ensures b in all && b !in logs {
      assert L.Home(b);
    }
    assert Elems(q) !! logs && |Elems(q) + logs| == |Elems(q)| + |logs|;
    SubsetSize(Elems(q) + logs, all);
  }

  /** There is such a run exactly if the log and the disk have room for NBUF home blocks. */
  lemma FullLogExactly(L: Layout, d: seq<Block>)
    requires GoodDisk(L, d)
    ensures CanFill(L, d) <==> NBUF < L.size && NBUF <= L.blocks - L.size
  {
    if NBUF < L.size && NBUF <= L.blocks - L.size {
      FirstHomes(L, NBUF);
      var ss, sts := FullLogReachable(L, d, seq(NBUF, k requires k >= 0 => HomeBlock(L, k)));
      assert Fills(L, d, ss, sts);
    }
    if CanFill(L, d) {
      var ss: seq<State>, sts: seq<Step> :| Fills(L, d, ss, sts);
      RunInv(L, ss, sts, |sts|);
      HomesFit(L, ss[|sts|].lh);
    }
  }

  // ---- a change that vanishes ----

  /** An operation has read block b into buffer i. */
  predicate HasRead(L: Layout, s: State, i: nat, b: nat) {
    && s.phase.Idle? && s.lh == [] && 0 in s.ops && |s.disk| == L.blocks && L.Home(b)
    && i < |s.bufs| && s.bufs[i].HeldBy(0, b) && s.bufs[i].waiting == {0} && s.bufs[i].leaving == {}
  }

  lemma ReadRun(L: Layout, d: seq<Block>, b: nat) returns (ss: seq<State>, sts: seq<Step>, i: nat)
    requires GoodDisk(L, d) && L.Home(b)
    ensures Run(L, ss, sts) && ss[0] == Rebooted(d, 0) && HasRead(L, ss[|sts|], i, b)
  {
    ss, sts := RecoverRun(L, d);
    RunInv(L, ss, sts, |sts|);
    ss, sts := Extend(L, ss, sts, BeginOp(0));
    RunInv(L, ss, sts, |sts|);
    RoomForOne(L, ss[|sts|], b);
    ss, sts, i := BreadRun(L, ss, sts, 0, b);
  }

  /** It changes the block to v and abandons the change, as `writei` does when the copy from the
      user fails in the middle of a block. */
  lemma AbandonRun(L: Layout, ss0: seq<State>, sts0: seq<Step>, i: nat, b: nat, v: Block) returns (ss: seq<State>, sts: seq<Step>)
    requires Run(L, ss0, sts0) && HasRead(L, ss0[|sts0|], i, b)
    ensures Run(L, ss, sts) && ss[0] == ss0[0]
    ensures var s, t := ss0[|sts0|], ss[|sts|];
      && t == s.(bufs := t.bufs) && |t.bufs| == |s.bufs| && t.bufs[i].Caches(b) && t.bufs[i].data == v
      && t.bufs[i].holder == None && t.bufs[i].waiting == {} && t.bufs[i].leaving == {0}
  {
    RunInv(L, ss0, sts0, |sts0|);
    ss, sts := Extend(L, ss0, sts0, Modify(0, i, v));
    ss, sts := Extend(L, ss, sts, Abandon(0, i));
  }

  /** So on every disk, and for every home block, there is a run in which the cache comes to
      disagree with the disk. */
  lemma StrayReachable(L: Layout, d: seq<Block>, b: nat) returns (ss: seq<State>, sts: seq<Step>)
    requires GoodDisk(L, d) && L.Home(b)
    ensures Run(L, ss, sts) && ss[0].disk == d && !Agrees(ss[|sts|])
  {
    var i;
    ss, sts, i := ReadRun(L, d, b);
    var x := ss[|sts|].disk[b];
    var v: Block := x[0 := x[0] + 1];
    assert v[0] != x[0];
    ss, sts := AbandonRun(L, ss, sts, i, b, v);
  }

  /** The blocks in a list of buffers. */
  function BlocksIn(bufs: seq<Buf>): (r: set<nat>)
    ensures |r| <= |bufs|
  {
    if bufs == [] then {}
    else BlocksIn(bufs[1..]) + if bufs[0].block.Some? then {bufs[0].block.value} else {}
  }

  lemma {:induction false} BlockIn(bufs: seq<Buf>, k: nat)
    requires k < |bufs| && bufs[k].block.Some?
    ensures bufs[k].block.value in BlocksIn(bufs)
  {
    if k > 0 {
      BlockIn(bufs[1..], k - 1);
    }
  }

  /** A disk larger than the cache has a block that is not cached. */
  lemma Uncached(L: Layout, s: State) returns (b: nat)
    requires |s.bufs| == NBUF < L.blocks
    ensures b < L.blocks && forall k :: 0 <= k < |s.bufs| ==> s.bufs[k].block != Some(b)
  {
    var all, cached := Indices(L.blocks), BlocksIn(s.bufs);
    IndicesSize(L.blocks);
    if all <= cached {
      SubsetSize(all, cached);
    }
    b :| b in all && b !in cached;
    forall k | 0 <= k < |s.bufs| ensures s.bufs[k].block != Some(b) {
      if s.bufs[k].block.Some? {
        BlockIn(s.bufs, k);
      }
    }
  }

  /** Such a change vanishes: processes see v, and after the buffer was recycled what was there
      before, though nobody has written and there was no crash. */
  lemma LostUpdate(L: Layout, d: seq<Block>, b: nat, v: Block) returns (ss: seq<State>, sts: seq<Step>, k: nat)
    requires GoodDisk(L, d) && L.Home(b) && NBUF < L.blocks
    ensures Run(L, ss, sts) && ss[0].disk == d && k + 2 == |sts| && sts[k].Drop? && sts[k + 1].GetMiss?
    ensures b < |ss[k].disk| == |ss[k + 2].disk| && Content(ss[k], b) == v && Content(ss[k + 2], b) == ss[k].disk[b]
  {
    var i;
    ss, sts, i := ReadRun(L, d, b);
    ss, sts := AbandonRun(L, ss, sts, i, b, v);
    RunInv(L, ss, sts, |sts|);
    k := |sts|;
    var s := ss[k];
    assert SlotOk(L, s, i);
    ContentOf(L, s, i, b);
    ss, sts := Extend(L, ss, sts, Drop(0, i));
    var c := Uncached(L, ss[|sts|]);
    ss, sts := Extend(L, ss, sts, GetMiss(0, i, c));
    assert forall j :: 0 <= j < |s.bufs| && j != i ==> s.bufs[j].block != s.bufs[i].block;
  }
}
