/** The write-ahead log (kernel/log.c) over the buffer cache (kernel/bio.c), as a
    state machine over any number of processes.  One step is one critical section
    of `bcache.lock` or `log.lock`, one acquisition or release of a buffer's sleep
    lock, one in-memory copy of a block, or one disk transfer; processes interleave
    freely, and the machine may crash between any two steps. */
module WalModel {
  import opened Common

  const WORDS := 256 // BSIZE / sizeof(int)

  type Pid = nat
  type Block = b: seq<nat> | |b| == WORDS witness seq(WORDS, i => 0)

  /** Where the log lies on the disk: the header block at `start`, then the copies. */
  datatype Layout = Layout(start: nat, size: nat, blocks: nat) {
    predicate Valid() {
      1 <= size && start + size <= blocks
    }
    predicate Home(b: nat) {
      b < blocks && !(start <= b < start + size)
    }
  }

  /** One cached buffer.  `waiting` are the processes that obtained the buffer in
      `bget` and have not yet released its sleep lock (they wait for it, or are its
      `holder`); `leaving` are those in `brelse` between `releasesleep` and the
      decrement of `refcnt`.  `dirty` says that the holder changed `data` and has
      neither logged nor written it; `stray`, that a changed buffer was released so. */
  datatype Buf = Buf(block: Option<nat>, valid: bool, data: Block, refcnt: nat,
                     holder: Option<Pid>, waiting: set<Pid>, leaving: set<Pid>, dirty: bool, stray: bool)
  {
    predicate Caches(b: nat) {
      valid && block == Some(b)
    }
    predicate HeldBy(p: Pid, b: nat) {
      Caches(b) && holder == Some(p)
    }
  }

  datatype Copy = Fresh | Copied(buf: nat) | Written(buf: nat)

  /** Program counter of the process inside `commit` or `recover_from_log`.  An index
      in `filled` or `Copied` names the buffer that was filled but not yet written. */
  datatype Phase =
    | Idle
    | CopyLog(tail: nat, filled: Option<nat>)                // write_log
    | CommitHead(filled: Option<nat>)                        // write_head, n > 0
    | Install(recovering: bool, tail: nat, copy: Copy)       // install_trans
    | Forget(recovering: bool)                               // log.lh.n = 0
    | ClearHead(recovering: bool, filled: Option<nat>)       // write_head, n == 0
    | Finish                                                 // log.committing = 0
    | LoadHead                                               // read_head
  {
    predicate Recovering() {
      LoadHead? || (Install? && recovering) || (Forget? && recovering) || (ClearHead? && recovering)
    }
  }

  datatype State = State(disk: seq<Block>, bufs: seq<Buf>, lh: seq<nat>, ops: set<Pid>,
                         outstanding: nat, committing: bool, phase: Phase, boss: Pid)

  // ---- the log header block ----

  /** `read_head`: n, then the first n entries, as far as the block goes.  With n > LOGSIZE, for
      which `lh.block` is too short, this is no list that fits the log. */
  function Decode(block: Block): seq<nat> {
    block[1..if block[0] < WORDS then 1 + block[0] else WORDS]
  }

  /** `write_head`: overwrites n and the first n entries, keeps the rest of the block. */
  function Encode(block: Block, lh: seq<nat>): (r: Block)
    requires |lh| <= LOGSIZE
    ensures Decode(r) == lh
  {
    var r := [|lh|] + lh + block[1 + |lh|..];
    assert r[1..1 + |lh|] == lh;
    r
  }

  function Header(L: Layout, s: State): seq<nat>
    requires L.Valid() && |s.disk| == L.blocks
  {
    Decode(s.disk[L.start])
  }

  // ---- what a disk stands for ----

  /** A block list that fits the log and names home blocks once each. */
  predicate GoodList(L: Layout, q: seq<nat>) {
    && |q| <= LOGSIZE && |q| <= L.size - 1 && Distinct(q)
    && forall k :: 0 <= k < |q| ==> L.Home(q[k])
  }

  /** The header on this disk lists distinct home blocks and fits the log. */
  predicate GoodDisk(L: Layout, disk: seq<Block>) {
    L.Valid() && |disk| == L.blocks && GoodList(L, Decode(disk[L.start]))
  }

  /** What a completed recovery of this disk leaves in home block b. */
  function Image(L: Layout, disk: seq<Block>, b: nat): Block
    requires GoodDisk(L, disk) && b < L.blocks
  {
    var h := Decode(disk[L.start]);
    if k :| 0 <= k < |h| && h[k] == b then disk[L.start + 1 + k] else disk[b]
  }

  function HomeBlocks(L: Layout): set<nat> {
    set b: nat | 0 <= b < L.blocks && L.Home(b)
  }

  function Recovered(L: Layout, disk: seq<Block>): map<nat, Block>
    requires GoodDisk(L, disk)
  {
    map b | b in HomeBlocks(L) :: Image(L, disk, b)
  }

  function HomeContents(L: Layout, disk: seq<Block>): map<nat, Block>
    requires |disk| == L.blocks
  {
    map b | b in HomeBlocks(L) :: disk[b]
  }

  lemma ImageListed(L: Layout, disk: seq<Block>, k: nat)
    requires GoodDisk(L, disk) && k < |Decode(disk[L.start])|
    ensures Image(L, disk, Decode(disk[L.start])[k]) == disk[L.start + 1 + k]
  {
  }

  lemma ImageUnlisted(L: Layout, disk: seq<Block>, b: nat)
    requires GoodDisk(L, disk) && b < L.blocks && b !in Decode(disk[L.start])
    ensures Image(L, disk, b) == disk[b]
  {
  }

  /** Writing a listed home block changes nothing for a recovery. */
  lemma HomeWriteKeeps(L: Layout, d: seq<Block>, e: seq<Block>, k: nat, b: nat)
    requires GoodDisk(L, d) && GoodDisk(L, e) && L.Home(b) && e[L.start] == d[L.start] && k < |Decode(d[L.start])|
    requires forall i :: 0 <= i < |d| && i != Decode(d[L.start])[k] ==> e[i] == d[i]
    ensures Image(L, e, b) == Image(L, d, b)
  {
    var h := Decode(d[L.start]);
    assert L.Home(h[k]);
    if m :| 0 <= m < |h| && h[m] == b {
      ImageListed(L, d, m);
      ImageListed(L, e, m);
    }
  }

  predicate HomeDone(L: Layout, disk: seq<Block>, q: seq<nat>, k: nat)
    requires L.Valid() && |disk| == L.blocks && GoodList(L, q) && k < |q|
  {
    disk[q[k]] == disk[L.start + 1 + k]
  }

  /** The first n listed blocks are installed. */
  ghost predicate Installed(L: Layout, d: seq<Block>, n: nat)
    requires GoodDisk(L, d) && n <= |Decode(d[L.start])|
  {
    forall k :: 0 <= k < n ==> HomeDone(L, d, Decode(d[L.start]), k)
  }

  lemma InstalledIsRecovered(L: Layout, d: seq<Block>)
    requires GoodDisk(L, d) && Installed(L, d, |Decode(d[L.start])|)
    ensures HomeContents(L, d) == Recovered(L, d)
  {
    var h := Decode(d[L.start]);
    forall b | b in HomeBlocks(L) ensures Image(L, d, b) == d[b] {
      if m :| 0 <= m < |h| && h[m] == b {
        ImageListed(L, d, m);
        assert HomeDone(L, d, h, m);
      }
    }
  }

  // ---- steps ----

  datatype Step =
    | GetHit(p: Pid, i: nat, b: nat)
    | GetMiss(p: Pid, i: nat, b: nat)
    | Lock(p: Pid, i: nat)
    | Read(p: Pid, i: nat)
    | Modify(p: Pid, i: nat, v: Block)
    | LogWrite(p: Pid, i: nat)
    | Unlock(p: Pid, i: nat)
    | Abandon(p: Pid, i: nat)
    | Drop(p: Pid, i: nat)
    | BeginOp(p: Pid)
    | EndOp(p: Pid)
    | CopyToLog(i: nat, j: nat)
    | WriteLogBlock
    | FillHead(i: nat)
    | WriteHead
    | CopyHome(l: nat, d: nat)
    | WriteHome
    | Unpin
    | ForgetLog
    | FinishCommit
    | ReadHead(i: nat)
    | Crash(p: Pid)

  function AfterCopy(lh: seq<nat>, tail: nat): Phase {
    if tail < |lh| then CopyLog(tail, None) else CommitHead(None)
  }

  function AfterInstall(recovering: bool, lh: seq<nat>, tail: nat): Phase {
    if tail < |lh| then Install(recovering, tail, Fresh) else Forget(recovering)
  }

  const FreshBuf := Buf(None, false, seq(WORDS, i => 0), 0, None, {}, {}, false, false)

  /** Memory after a power cycle: only the disk survives, and process `p` (the first
      one, in `forkret`) runs `initlog`. */
  function Rebooted(disk: seq<Block>, p: Pid): State {
    State(disk, seq(NBUF, i => FreshBuf), [], {}, 0, false, LoadHead, p)
  }

  /** `bwrite` panics unless the caller holds the buffer's lock. */
  predicate CanWrite(L: Layout, s: State, i: nat) {
    && i < |s.bufs| && s.bufs[i].holder == Some(s.boss)
    && s.bufs[i].block.Some? && s.bufs[i].block.value < L.blocks
  }

  /** One block reaches the disk, at the buffer's own block number. */
  function Bwrite(L: Layout, s: State, i: nat): State
    requires |s.disk| == L.blocks && CanWrite(L, s, i)
  {
    s.(disk := s.disk[s.bufs[i].block.value := s.bufs[i].data],
       bufs := s.bufs[i := s.bufs[i].(dirty := false)])
  }

  /** When a process can take the step.  The file system uses the log as in the idiom of
      kernel/log.c:205-213 (modify inside an operation, `log_write`, `brelse`), but for
      `Abandon`: `writei` releases a buffer that it has changed in part and not logged when
      the copy from the user fails (kernel/fs.c:522-525). */
  ghost predicate Enabled(L: Layout, s: State, st: Step)
    requires L.Valid() && |s.disk| == L.blocks
  {
    match st
    case GetHit(p, i, b) =>
      i < |s.bufs| && s.bufs[i].block == Some(b) && p !in s.bufs[i].waiting + s.bufs[i].leaving
    case GetMiss(p, i, b) =>
      && i < |s.bufs| && b < L.blocks && s.bufs[i].refcnt == 0
      && forall k :: 0 <= k < |s.bufs| ==> s.bufs[k].block != Some(b)
    case Lock(p, i) =>
      i < |s.bufs| && p in s.bufs[i].waiting && s.bufs[i].holder == None
    case Read(p, i) =>
      && i < |s.bufs| && s.bufs[i].holder == Some(p) && !s.bufs[i].valid
      && s.bufs[i].block.Some? && s.bufs[i].block.value < L.blocks
    case Modify(p, i, v) =>
      && i < |s.bufs| && s.bufs[i].holder == Some(p) && s.bufs[i].valid && p in s.ops
      && s.bufs[i].block.Some? && L.Home(s.bufs[i].block.value)
    case LogWrite(p, i) =>
      && i < |s.bufs| && s.bufs[i].holder == Some(p) && s.bufs[i].valid && p in s.ops
      && s.bufs[i].block.Some? && L.Home(s.bufs[i].block.value)
      && !(|s.lh| >= LOGSIZE || |s.lh| >= L.size - 1) && s.outstanding >= 1
    case Unlock(p, i) =>
      i < |s.bufs| && s.bufs[i].holder == Some(p) && !s.bufs[i].dirty
    case Abandon(p, i) =>
      && i < |s.bufs| && s.bufs[i].holder == Some(p) && s.bufs[i].dirty && p in s.ops
      && s.bufs[i].block.Some? && s.bufs[i].block.value < L.blocks
    case Drop(p, i) =>
      i < |s.bufs| && p in s.bufs[i].leaving && s.bufs[i].refcnt >= 1
    case BeginOp(p) =>
      && p !in s.ops && !s.committing && !s.phase.Recovering()
      && |s.lh| + (s.outstanding + 1) * MAXOPBLOCKS <= LOGSIZE
    case EndOp(p) =>
      && p in s.ops && s.outstanding >= 1
      && forall i :: 0 <= i < |s.bufs| && s.bufs[i].holder == Some(p) ==> !s.bufs[i].dirty
    case CopyToLog(i, j) =>
      && s.phase.CopyLog? && s.phase.filled == None && s.phase.tail < |s.lh|
      && i < |s.bufs| && s.bufs[i].HeldBy(s.boss, L.start + 1 + s.phase.tail)
      && j < |s.bufs| && s.bufs[j].HeldBy(s.boss, s.lh[s.phase.tail])
    case WriteLogBlock =>
      s.phase.CopyLog? && s.phase.filled.Some? && CanWrite(L, s, s.phase.filled.value)
    case FillHead(i) =>
      && ((s.phase.CommitHead? && s.phase.filled == None) || (s.phase.ClearHead? && s.phase.filled == None))
      && i < |s.bufs| && s.bufs[i].HeldBy(s.boss, L.start) && |s.lh| <= LOGSIZE
    case WriteHead =>
      && ((s.phase.CommitHead? && s.phase.filled.Some?) || (s.phase.ClearHead? && s.phase.filled.Some?))
      && CanWrite(L, s, s.phase.filled.value)
    case CopyHome(l, d) =>
      && s.phase.Install? && s.phase.copy == Fresh && s.phase.tail < |s.lh|
      && l < |s.bufs| && s.bufs[l].HeldBy(s.boss, L.start + 1 + s.phase.tail)
      && d < |s.bufs| && s.bufs[d].HeldBy(s.boss, s.lh[s.phase.tail])
    case WriteHome =>
      s.phase.Install? && s.phase.copy.Copied? && CanWrite(L, s, s.phase.copy.buf)
    case Unpin =>
      && s.phase.Install? && s.phase.copy.Written? && s.phase.copy.buf < |s.bufs|
      && (s.phase.recovering || s.bufs[s.phase.copy.buf].refcnt >= 1)
    case ForgetLog => s.phase.Forget?
    case FinishCommit => s.phase.Finish?
    case ReadHead(i) =>
      s.phase.LoadHead? && i < |s.bufs| && s.bufs[i].HeldBy(s.boss, L.start)
    case Crash(p) => true
  }

  /** Releasing the changed buffer i without logging it does no harm: its block is in the log
      anyway, or the change made no difference. */
  predicate Harmless(s: State, i: nat)
    requires i < |s.bufs| && s.bufs[i].block.Some? && s.bufs[i].block.value < |s.disk|
  {
    s.bufs[i].block.value in s.lh || s.bufs[i].data == s.disk[s.bufs[i].block.value]
  }

  function Apply(L: Layout, s: State, st: Step): State
    requires L.Valid() && |s.disk| == L.blocks && Enabled(L, s, st)
  {
    match st
    case GetHit(p, i, b) =>
      var u := s.bufs[i];
      s.(bufs := s.bufs[i := u.(refcnt := u.refcnt + 1, waiting := u.waiting + {p})])
    case GetMiss(p, i, b) =>
      var u := s.bufs[i];
      s.(bufs := s.bufs[i := u.(block := Some(b), valid := false, refcnt := 1, waiting := {p}, stray := false)])
    case Lock(p, i) =>
      s.(bufs := s.bufs[i := s.bufs[i].(holder := Some(p))])
    case Read(p, i) =>
      var u := s.bufs[i];
      s.(bufs := s.bufs[i := u.(valid := true, data := s.disk[u.block.value])])
    case Modify(p, i, v) =>
      s.(bufs := s.bufs[i := s.bufs[i].(data := v, dirty := true)])
    case LogWrite(p, i) =>
      var u := s.bufs[i].(dirty := false, stray := false);
      if u.block.value in s.lh then // log absorption
        s.(bufs := s.bufs[i := u])
      else
        s.(bufs := s.bufs[i := u.(refcnt := u.refcnt + 1)], lh := s.lh + [u.block.value])
    case Unlock(p, i) =>
      var u := s.bufs[i];
      s.(bufs := s.bufs[i := u.(holder := None, waiting := u.waiting - {p}, leaving := u.leaving + {p})])
    case Abandon(p, i) =>
      var u := s.bufs[i];
      s.(bufs := s.bufs[i := u.(holder := None, waiting := u.waiting - {p}, leaving := u.leaving + {p}, dirty := false,
                                stray := !Harmless(s, i))])
    case Drop(p, i) =>
      var u := s.bufs[i];
      s.(bufs := s.bufs[i := u.(refcnt := u.refcnt - 1, leaving := u.leaving - {p})])
    case BeginOp(p) =>
      s.(ops := s.ops + {p}, outstanding := s.outstanding + 1)
    case EndOp(p) =>
      var t := s.(ops := s.ops - {p}, outstanding := s.outstanding - 1);
      if t.outstanding != 0 then t
      else if |s.lh| > 0 then t.(committing := true, boss := p, phase := CopyLog(0, None))
      else t.(committing := true, boss := p, phase := Finish)
    case CopyToLog(i, j) =>
      s.(bufs := s.bufs[i := s.bufs[i].(data := s.bufs[j].data, dirty := true)],
         phase := CopyLog(s.phase.tail, Some(i)))
    case WriteLogBlock =>
      Bwrite(L, s, s.phase.filled.value).(phase := AfterCopy(s.lh, s.phase.tail + 1))
    case FillHead(i) =>
      s.(bufs := s.bufs[i := s.bufs[i].(data := Encode(s.bufs[i].data, s.lh), dirty := true)],
         phase := if s.phase.CommitHead? then CommitHead(Some(i)) else ClearHead(s.phase.recovering, Some(i)))
    case WriteHead =>
      Bwrite(L, s, s.phase.filled.value).(
        phase := if s.phase.CommitHead? then AfterInstall(false, s.lh, 0)
                 else if s.phase.recovering then Idle else Finish)
    case CopyHome(l, d) =>
      s.(bufs := s.bufs[d := s.bufs[d].(data := s.bufs[l].data, dirty := true)],
         phase := Install(s.phase.recovering, s.phase.tail, Copied(d)))
    case WriteHome =>
      Bwrite(L, s, s.phase.copy.buf).(
        phase := Install(s.phase.recovering, s.phase.tail, Written(s.phase.copy.buf)))
    case Unpin =>
      var d := s.phase.copy.buf;
      var t := s.(phase := AfterInstall(s.phase.recovering, s.lh, s.phase.tail + 1));
      if s.phase.recovering then t
      else t.(bufs := s.bufs[d := s.bufs[d].(refcnt := s.bufs[d].refcnt - 1)])
    case ForgetLog =>
      s.(lh := [], phase := ClearHead(s.phase.recovering, None))
    case FinishCommit =>
      s.(committing := false, phase := Idle)
    case ReadHead(i) =>
      var lh := Decode(s.bufs[i].data);
      s.(lh := lh, phase := AfterInstall(true, lh, 0))
    case Crash(p) => Rebooted(s.disk, p)
  }

  /** The machine when it boots on any disk with a well-formed log header, such as mkfs or a
      crash leaves it. */
  ghost predicate Init(L: Layout, s: State) {
    GoodDisk(L, s.disk) && exists p :: s == Rebooted(s.disk, p)
  }
}
