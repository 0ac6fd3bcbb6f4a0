/** Log space accounting of kernel/log.c: `begin_op` reserves MAXOPBLOCKS blocks for
    every operation, `log_write` uses the space, `end_op` gives the rest back. */
module LogSpace {
  import opened Common

  type Pid = nat

  /** The logged block numbers, and for every operation in progress the distinct blocks
      it has logged; `|ops|` is `log.outstanding`. */
  datatype Space = Space(lh: seq<nat>, ops: map<Pid, set<nat>>, committing: bool)

  datatype Step =
    | BeginOp(p: Pid)
    | LogWrite(p: Pid, b: nat)
    | EndOp(p: Pid)
    | Committed

  const Empty := Space([], map[], false)

  /** The admission test of `begin_op`; while it fails the caller sleeps. */
  predicate Admits(s: Space) {
    !s.committing && |s.lh| + (|s.ops| + 1) * MAXOPBLOCKS <= LOGSIZE
  }

  /** The first test of `log_write`, for a log of `size` disk blocks. */
  predicate TooBig(s: Space, size: nat) {
    |s.lh| >= LOGSIZE || |s.lh| >= size - 1
  }

  function Logged(lh: seq<nat>, b: nat): seq<nat> {
    if b in lh then lh else lh + [b]
  }

  function Apply(s: Space, st: Step): Space {
    match st
    case BeginOp(p) => s.(ops := s.ops[p := {}])
    case LogWrite(p, b) =>
      s.(lh := Logged(s.lh, b), ops := s.ops[p := (if p in s.ops then s.ops[p] else {}) + {b}])
    case EndOp(p) =>
      var ops := s.ops - {p};
      s.(ops := ops, committing := |ops| == 0)
    case Committed => s.(lh := [], committing := false)
  }

  /** What an operation may do: `log_write` a further block while it has logged fewer
      than MAXOPBLOCKS, and, when `relog`, log one of its own blocks again at any time. */
  predicate Allowed(s: Space, st: Step, relog: bool) {
    match st
    case BeginOp(p) => p !in s.ops && Admits(s)
    case LogWrite(p, b) => p in s.ops && (|s.ops[p]| < MAXOPBLOCKS || (relog && b in s.ops[p]))
    case EndOp(p) => p in s.ops
    case Committed => s.committing
  }

  /** A run in which no `log_write` panicked. */
  ghost predicate Run(ss: seq<Space>, sts: seq<Step>, size: nat, relog: bool) {
    && |ss| == |sts| + 1 && ss[0] == Empty
    && forall k {:trigger sts[k]} :: 0 <= k < |sts| ==>
         && Allowed(ss[k], sts[k], relog) && ss[k + 1] == Apply(ss[k], sts[k])
         && (sts[k].LogWrite? ==> !TooBig(ss[k], size))
  }

  /** Some run reaches a `log_write` that panics with "too big a transaction". */
  ghost predicate CanPanic(size: nat, relog: bool) {
    exists ss, sts, p, b :: Panics(ss, sts, p, b, size, relog)
  }

  ghost predicate Panics(ss: seq<Space>, sts: seq<Step>, p: Pid, b: nat, size: nat, relog: bool) {
    && Run(ss, sts, size, relog)
    && Allowed(ss[|sts|], LogWrite(p, b), relog) && TooBig(ss[|sts|], size)
  }

  // ---- unused reservations ----

  ghost function Unused(ops: map<Pid, set<nat>>): int
    decreases |ops|
  {
    if |ops| == 0 then 0
    else
      var p :| p in ops;
      MAXOPBLOCKS - |ops[p]| + Unused(ops - {p})
  }

  lemma {:induction false} UnusedSplit(ops: map<Pid, set<nat>>, p: Pid)
    requires p in ops
    ensures Unused(ops) == MAXOPBLOCKS - |ops[p]| + Unused(ops - {p})
    decreases |ops|
  {
    var q :| q in ops && Unused(ops) == MAXOPBLOCKS - |ops[q]| + Unused(ops - {q});
    if p != q {
      UnusedSplit(ops - {q}, p);
      UnusedSplit(ops - {p}, q);
      assert ops - {q} - {p} == ops - {p} - {q};
    }
  }

  lemma {:induction false} UnusedBound(ops: map<Pid, set<nat>>)
    requires forall p :: p in ops ==> |ops[p]| <= MAXOPBLOCKS
    ensures 0 <= Unused(ops) <= |ops| * MAXOPBLOCKS
    decreases |ops|
  {
    if |ops| != 0 {
      var p :| p in ops && Unused(ops) == MAXOPBLOCKS - |ops[p]| + Unused(ops - {p});
      UnusedBound(ops - {p});
      assert |ops - {p}| == |ops| - 1;
    }
  }

  /** The logged blocks and the unused reservations always fit the log together. */
  ghost predicate Inv(s: Space) {
    && (forall p :: p in s.ops ==> |s.ops[p]| <= MAXOPBLOCKS)
    && (forall p, b :: p in s.ops && b in s.ops[p] ==> b in s.lh)
    && (s.committing ==> |s.ops| == 0)
    && |s.lh| + Unused(s.ops) <= LOGSIZE
  }

  lemma UpdateUnused(ops: map<Pid, set<nat>>, p: Pid, v: set<nat>)
    ensures Unused(ops[p := v]) == MAXOPBLOCKS - |v| + Unused(ops - {p})
  {
    UnusedSplit(ops[p := v], p);
    assert ops[p := v] - {p} == ops - {p};
  }

  lemma LogWriteInv(s: Space, p: Pid, b: nat, relog: bool)
    requires Inv(s) && Allowed(s, LogWrite(p, b), relog)
    ensures Inv(Apply(s, LogWrite(p, b)))
  {
    var w, v := s.ops[p], s.ops[p] + {b};
    UnusedSplit(s.ops, p);
    UpdateUnused(s.ops, p, v);
    if b in w {
      assert v == w && b in s.lh;
    } else {
      assert |v| == |w| + 1;
    }
    var t := Apply(s, LogWrite(p, b));
    forall q, c | q in t.ops && c in t.ops[q] ensures c in t.lh {
      assert q != p ==> c in s.ops[q];
    }
  }

  lemma NewUnused(ops: map<Pid, set<nat>>, p: Pid)
    requires p !in ops
    ensures Unused(ops[p := {}]) == MAXOPBLOCKS + Unused(ops)
  {
    UpdateUnused(ops, p, {});
    assert ops - {p} == ops;
  }

  lemma BeginOpInv(s: Space, p: Pid, relog: bool)
    requires Inv(s) && Allowed(s, BeginOp(p), relog)
    ensures Inv(Apply(s, BeginOp(p)))
  {
    UnusedBound(s.ops);
    assert |s.lh| + Unused(s.ops) + MAXOPBLOCKS <= LOGSIZE;
    NewUnused(s.ops, p);
    var t := Apply(s, BeginOp(p));
    forall q, c | q in t.ops && c in t.ops[q] ensures c in t.lh {
      assert q != p ==> c in s.ops[q];
    }
  }

  lemma StepInv(s: Space, st: Step, relog: bool)
    requires Inv(s) && Allowed(s, st, relog)
    ensures Inv(Apply(s, st))
  {
    match st
    case BeginOp(p) => BeginOpInv(s, p, relog);
    case LogWrite(p, b) => LogWriteInv(s, p, b, relog);
    case EndOp(p) => UnusedSplit(s.ops, p);
    case Committed => UnusedBound(s.ops);
  }

  lemma {:induction false} RunInv(ss: seq<Space>, sts: seq<Step>, size: nat, relog: bool, k: nat)
    requires Run(ss, sts, size, relog) && k < |ss|
    ensures Inv(ss[k])
  {
    if k > 0 {
      RunInv(ss, sts, size, relog, k - 1);
      StepInv(ss[k - 1], sts[k - 1], relog);
    }
  }

  /** With a free reservation, the operation finds room in the log. */
  lemma RoomLeft(s: Space, p: Pid)
    requires Inv(s) && p in s.ops && |s.ops[p]| < MAXOPBLOCKS
    ensures |s.lh| < LOGSIZE
  {
    UnusedSplit(s.ops, p);
    UnusedBound(s.ops - {p});
  }

  lemma SafeRuns(size: nat)
    requires size >= LOGSIZE + 1
    ensures !CanPanic(size, false)
  {
    forall ss, sts, p, b | Panics(ss, sts, p, b, size, false) ensures false {
      RunInv(ss, sts, size, false, |sts|);
      RoomLeft(ss[|sts|], p);
    }
  }

  // ---- runs that fill the log ----

  /** Three operations have started and the first n blocks are logged, ten by each. */
  function Filled(n: nat): Space {
    Space(seq(n, k => k), map p | 0 <= p < 3 :: Share(n, p), false)
  }

  function Share(n: nat, p: nat): set<nat> {
    set b | 0 <= b < n && b / MAXOPBLOCKS == p
  }

  lemma {:induction false} ShareSize(n: nat, p: nat)
    ensures |Share(n, p)| == (if n <= p * MAXOPBLOCKS then 0 else if n <= (p + 1) * MAXOPBLOCKS then n - p * MAXOPBLOCKS else MAXOPBLOCKS)
  {
    if n == 0 {
      assert Share(n, p) == {};
    } else {
      ShareSize(n - 1, p);
      if (n - 1) / MAXOPBLOCKS == p {
        assert Share(n, p) == Share(n - 1, p) + {n - 1};
      } else {
        assert Share(n, p) == Share(n - 1, p);
      }
    }
  }

  lemma FillStep(n: nat)
    requires n < LOGSIZE
    ensures Allowed(Filled(n), LogWrite(n / MAXOPBLOCKS, n), false)
    ensures Apply(Filled(n), LogWrite(n / MAXOPBLOCKS, n)) == Filled(n + 1)
  {
    var p := n / MAXOPBLOCKS;
    ShareSize(n, p);
    var t := Apply(Filled(n), LogWrite(p, n));
    assert n !in Filled(n).lh;
    assert t.lh == Filled(n + 1).lh;
    forall q | 0 <= q < 3 ensures t.ops[q] == Share(n + 1, q) {
      assert q != p ==> Share(n, q) == Share(n + 1, q);
      assert Share(n + 1, p) == Share(n, p) + {n};
    }
    assert t.ops == Filled(n + 1).ops;
  }

  lemma RunExtends(ss: seq<Space>, sts: seq<Step>, st: Step, size: nat, relog: bool)
    requires Run(ss, sts, size, relog) && Allowed(ss[|sts|], st, relog)
    requires st.LogWrite? ==> !TooBig(ss[|sts|], size)
    ensures Run(ss + [Apply(ss[|sts|], st)], sts + [st], size, relog)
  {
  }

  /** The state in which operations 0 to n-1 have started. */
  function Begun(n: nat): (s: Space)
    ensures s.lh == [] && !s.committing && |s.ops| == n
    ensures forall p: nat :: p in s.ops <==> p < n
    ensures forall p :: p in s.ops ==> s.ops[p] == {}
  {
    if n == 0 then Empty else Apply(Begun(n - 1), BeginOp(n - 1))
  }

  lemma {:induction false} BeginRun(n: nat, size: nat, relog: bool) returns (ss: seq<Space>, sts: seq<Step>)
    requires n <= 3
    ensures Run(ss, sts, size, relog) && ss[|sts|] == Begun(n)
  {
    if n == 0 {
      ss, sts := [Empty], [];
    } else {
      var ss', sts' := BeginRun(n - 1, size, relog);
      RunExtends(ss', sts', BeginOp(n - 1), size, relog);
      ss, sts := ss' + [Begun(n)], sts' + [BeginOp(n - 1)];
    }
  }

  lemma {:induction false} FillRun(n: nat, size: nat, relog: bool) returns (ss: seq<Space>, sts: seq<Step>)
    requires n <= LOGSIZE && (n == 0 || n <= size - 1)
    ensures Run(ss, sts, size, relog) && ss[|sts|] == Filled(n)
  {
    if n == 0 {
      ss, sts := BeginRun(3, size, relog);
      assert forall p :: Share(0, p) == {};
      assert Begun(3).ops == Filled(0).ops;
    } else {
      var ss', sts' := FillRun(n - 1, size, relog);
      var st := LogWrite((n - 1) / MAXOPBLOCKS, n - 1);
      FillStep(n - 1);
      RunExtends(ss', sts', st, size, relog);
      ss, sts := ss' + [Filled(n)], sts' + [st];
    }
  }

  lemma ShortLogPanics(size: nat, relog: bool)
    requires size <= LOGSIZE
    ensures CanPanic(size, relog)
  {
    var n := if size == 0 then 0 else size - 1;
    var ss, sts := FillRun(n, size, relog);
    FillStep(n);
    assert Panics(ss, sts, n / MAXOPBLOCKS, n, size, relog);
  }

  /** With 30 distinct blocks logged by three operations, logging any of them once more
      panics, although the block would be absorbed. */
  lemma RelogPanics(size: nat)
    requires size >= LOGSIZE + 1
    ensures CanPanic(size, true)
  {
    var ss, sts := FillRun(LOGSIZE, size, true);
    assert 0 in Share(LOGSIZE, 0);
    assert Panics(ss, sts, 0, 0, size, true);
  }

  /** `log_write` can panic for lack of space exactly when the on-disk log has at most
      LOGSIZE blocks (mkfs makes LOGSIZE), or when operations log a block again after
      using up their reservation. */
  lemma PanicExactly(size: nat, relog: bool)
    ensures CanPanic(size, relog) <==> size <= LOGSIZE || relog
  {
    if size <= LOGSIZE {
      ShortLogPanics(size, relog);
    } else if relog {
      RelogPanics(size);
    } else {
      SafeRuns(size);
    }
  }

  // ---- the code ----

  /** `struct log` without its disk location: `begin_op`, `log_write` and `end_op` as the
      sections they run under `log.lock`. */
  class Log {
    var block: seq<nat>     // lh.block[..lh.n]
    var outstanding: nat
    var committing: bool
    const size: nat
    ghost var ops: map<Pid, set<nat>>

    ghost predicate Valid()
      reads this
    {
      outstanding == |ops| && (committing ==> |ops| == 0)
    }

    ghost function View(): Space
      reads this
    {
      Space(block, ops, committing)
    }

    constructor (nlog: nat)
      ensures Valid() && View() == Empty && size == nlog
    {
      block, outstanding, committing, size, ops := [], 0, false, nlog, map[];
    }

    /** One pass through the loop of `begin_op`; false stands for going to sleep. */
    method BeginOp(ghost p: Pid) returns (admitted: bool)
      requires Valid() && p !in ops
      modifies this`outstanding, this`ops
      ensures Valid()
      ensures admitted == old(Admits(View()))
      ensures View() == if admitted then Apply(old(View()), Step.BeginOp(p)) else old(View())
    {
      if committing {
        admitted := false;
      } else if |block| + (outstanding + 1) * MAXOPBLOCKS > LOGSIZE {
        admitted := false;
      } else {
        outstanding := outstanding + 1;
        ops := ops[p := {}];
        admitted := true;
      }
    }

    /** `log_write`, with the scan for absorption; `ok` is false when it panics. */
    method LogWrite(ghost p: Pid, b: nat) returns (ok: bool)
      requires Valid() && p in ops
      modifies this`block, this`ops
      ensures Valid()
      ensures ok == !old(TooBig(View(), size))
      ensures View() == if ok then Apply(old(View()), Step.LogWrite(p, b)) else old(View())
    {
      if |block| >= LOGSIZE || |block| >= size - 1 {
        return false;
      }
      assert |ops| >= 1 by { assert p in ops.Keys; }
      if outstanding < 1 {
        return false;
      }
      var i := 0;
      while i < |block| && block[i] != b
        invariant 0 <= i <= |block|
        invariant b !in block[..i]
      {
        i := i + 1;
      }
      if i == |block| {
        assert block[..i] == block;
        block := block + [b];
      } else {
        block := block[i := b];
        assert block == old(block) && b in block;
      }
      ops := ops[p := ops[p] + {b}];
      ok := true;
    }

    /** The first section of `end_op`; `commit` tells the caller to commit. */
    method EndOp(ghost p: Pid) returns (commit: bool)
      requires Valid() && p in ops
      modifies this`outstanding, this`committing, this`ops
      ensures Valid()
      ensures View() == Apply(old(View()), Step.EndOp(p))
      ensures commit == committing
    {
      assert |ops| >= 1 by { assert p in ops.Keys; }
      outstanding := outstanding - 1;
      ops := ops - {p};
      assert |ops| == |old(ops)| - 1;
      assert !committing;
      if outstanding == 0 {
        commit := true;
        committing := true;
      } else {
        commit := false;
      }
    }

    /** The second section of `end_op`, after `commit()` emptied the log. */
    method Committed()
      requires Valid() && committing
      modifies this`block, this`committing
      ensures Valid()
      ensures View() == Apply(old(View()), Step.Committed)
    {
      block := [];
      committing := false;
    }
  }
}
