/** The two-level feedback queue (kernel/proc.c): demotion by `yield`, promotion by the scan in
    `sched`, and the order in which `mlfq_scheduler` picks processes. */
module Mlfq {

  const MAX_PRIO := 1
  const PROM_TIME := 5

  datatype Proc = Proc(priority: nat, timer: int, runnable: bool)

  // ---- demotion and promotion ----

  /** What the scan in `sched` does to one process. */
  function Tick(x: Proc): Proc {
    if x.priority > 0 then
      var t := x.timer - 1;
      if t == 0 then x.(priority := 0, timer := t) else x.(timer := t)
    else x
  }

  /** What a timer interrupt does to the running process before it calls `sched`. */
  function Demoted(x: Proc): Proc {
    x.(priority := if x.priority + 1 > MAX_PRIO then x.priority else x.priority + 1, timer := PROM_TIME, runnable := true)
  }

  predicate ProcOk(x: Proc) {
    x.priority <= 1 && (x.priority == 1 ==> 1 <= x.timer <= PROM_TIME)
  }

  /** The loop in `sched`. */
  method Scan(proc: array<Proc>)
    modifies proc
    ensures forall i :: 0 <= i < proc.Length ==> proc[i] == Tick(old(proc[i]))
  {
    var i := 0;
    while i < proc.Length
      invariant 0 <= i <= proc.Length
      invariant forall j :: 0 <= j < proc.Length ==> proc[j] == if j < i then Tick(old(proc[j])) else old(proc[j])
    {
      if proc[i].priority > 0 {
        proc[i] := proc[i].(timer := proc[i].timer - 1);
        if proc[i].timer == 0 {
          proc[i] := proc[i].(priority := 0);
        }
      }
      i := i + 1;
    }
  }

  /** `yield` of process p, up to the switch. */
  method Yield(proc: array<Proc>, p: nat, byTimer: bool)
    requires p < proc.Length
    modifies proc
    ensures forall i :: 0 <= i < proc.Length ==>
      proc[i] == Tick(if i != p then old(proc[i]) else if byTimer then Demoted(old(proc[i])) else old(proc[i]).(runnable := true))
  {
    proc[p] := proc[p].(runnable := true);
    if byTimer {
      proc[p] := proc[p].(priority := if proc[p].priority + 1 > MAX_PRIO then proc[p].priority else proc[p].priority + 1);
      proc[p] := proc[p].(timer := PROM_TIME);
    }
    Scan(proc);
  }

  /** Steps of the processors: each scan is one, as is each `yield` up to its scan. */
  datatype Step = Sched | TimerYield(p: nat) | Fresh(p: nat) | SetRunnable(p: nat, r: bool)

  function Apply(s: seq<Proc>, st: Step): (t: seq<Proc>)
    ensures |t| == |s|
  {
    match st
    case Sched => seq(|s|, i requires 0 <= i < |s| => Tick(s[i]))
    case TimerYield(p) => if p < |s| then s[p := Demoted(s[p])] else s
    case Fresh(p) => if p < |s| then s[p := Proc(0, 0, s[p].runnable)] else s
    case SetRunnable(p, r) => if p < |s| then s[p := s[p].(runnable := r)] else s
  }

  function Run(s: seq<Proc>, steps: seq<Step>): (t: seq<Proc>)
    ensures |t| == |s|
    decreases |steps|
  {
    if steps == [] then s else Run(Apply(s, steps[0]), steps[1..])
  }

  /** Every run keeps priorities within 0 and 1, and the timer of a demoted process running. */
  lemma {:induction false} RunOk(s: seq<Proc>, steps: seq<Step>, i: nat)
    requires i < |s| && ProcOk(s[i])
    ensures ProcOk(Run(s, steps)[i])
    decreases |steps|
  {
    if steps != [] {
      RunOk(Apply(s, steps[0]), steps[1..], i);
    }
  }

  function Scans(steps: seq<Step>): nat {
    if steps == [] then 0 else (if steps[0].Sched? then 1 else 0) + Scans(steps[1..])
  }

  /** No timer interrupt took p off the processor, and its slot was not given to a new process. */
  predicate LeftAlone(steps: seq<Step>, p: nat) {
    forall k :: 0 <= k < |steps| ==> steps[k] != TimerYield(p) && steps[k] != Fresh(p)
  }

  /** A demoted process that is left alone comes back to priority 0 after exactly as many scans
      as its timer says, and stays there. */
  lemma {:induction false} PromotedAfter(s: seq<Proc>, steps: seq<Step>, p: nat)
    requires p < |s| && ProcOk(s[p]) && s[p].priority == 1 && LeftAlone(steps, p)
    ensures Run(s, steps)[p].priority == if Scans(steps) < s[p].timer then 1 else 0
    decreases |steps|
  {
    if steps != [] {
      var t := Apply(s, steps[0]);
      if t[p].priority == 1 {
        PromotedAfter(t, steps[1..], p);
      } else {
        StaysHigh(t, steps[1..], p);
      }
    }
  }

  lemma {:induction false} StaysHigh(s: seq<Proc>, steps: seq<Step>, p: nat)
    requires p < |s| && s[p].priority == 0 && LeftAlone(steps, p)
    ensures Run(s, steps)[p].priority == 0
    decreases |steps|
  {
    if steps != [] {
      StaysHigh(Apply(s, steps[0]), steps[1..], p);
    }
  }

  /** PROM_TIME scans after its last timer interrupt a process has priority 0. */
  lemma PromotedInTime(s: seq<Proc>, steps: seq<Step>, p: nat)
    requires p < |s| && ProcOk(s[p]) && LeftAlone(steps, p) && PROM_TIME <= Scans(steps)
    ensures Run(s, steps)[p].priority == 0
  {
    if s[p].priority == 1 {
      PromotedAfter(s, steps, p);
    } else {
      StaysHigh(s, steps, p);
    }
  }

  // ---- the order of dispatches ----

  predicate High(x: Proc) {
    x.priority == 0 && x.runnable
  }

  /** No runnable process of priority 0 in slots from .. to-1. */
  predicate NoHigh(t: seq<Proc>, from: int, to: int) {
    forall i :: 0 <= i < |t| && from <= i < to ==> !High(t[i])
  }

  predicate NoneRunnable(t: seq<Proc>, from: int, to: int) {
    forall i :: 0 <= i < |t| && from <= i < to ==> !t[i].runnable
  }

  /** Process i was switched to, when the table was `table`. */
  datatype Dispatch = Dispatch(i: nat, table: seq<Proc>)

  predicate IsHigh(d: Dispatch) {
    d.i < |d.table| && High(d.table[d.i])
  }

  predicate IsLow(d: Dispatch) {
    d.i < |d.table| && d.table[d.i].runnable && d.table[d.i].priority > 0
  }

  function Last(log: seq<Dispatch>): int {
    if log == [] then -1 else log[|log| - 1].i
  }

  /** The first runnable process of priority 0 round the table after `prev`. */
  predicate NextHigh(d: Dispatch, prev: int) {
    && IsHigh(d)
    && if prev < d.i then NoHigh(d.table, prev + 1, d.i)
       else NoHigh(d.table, prev + 1, |d.table|) && NoHigh(d.table, 0, d.i)
  }

  /** The next runnable process of low priority, in one walk through the table that starts
      only when no process of priority 0 is runnable. */
  predicate NextLow(d: Dispatch, log: seq<Dispatch>) {
    && IsLow(d)
    && if log != [] && IsLow(log[|log| - 1]) then Last(log) < d.i && NoneRunnable(d.table, Last(log) + 1, d.i)
       else NoHigh(d.table, 0, |d.table|) && NoneRunnable(d.table, 0, d.i)
  }

  /** Dispatch d after those of log: high-priority ones come first, in turn. */
  predicate Justified(log: seq<Dispatch>, d: Dispatch) {
    if log != [] && IsLow(log[|log| - 1]) then NextLow(d, log) else NextHigh(d, Last(log)) || NextLow(d, log)
  }

  predicate InOrder(log: seq<Dispatch>) {
    forall k {:trigger log[..k]} :: 0 <= k < |log| ==> Justified(log[..k], log[k])
  }

  /** The table when process number k is chosen: nobody but the processes that ran changed it. */
  function TableAt(table: seq<Proc>, runs: seq<seq<Proc>>, k: nat): seq<Proc> {
    if 1 <= k <= |runs| then runs[k - 1] else table
  }

  predicate Timely(log: seq<Dispatch>, table: seq<Proc>, runs: seq<seq<Proc>>) {
    |log| <= |runs| + 1 && forall k {:trigger TableAt(table, runs, k)} :: 0 <= k < |log| ==> log[k].table == TableAt(table, runs, k)
  }

  lemma TimelyMore(log: seq<Dispatch>, table: seq<Proc>, runs: seq<seq<Proc>>, d: Dispatch)
    requires Timely(log, table, runs) && |log| <= |runs| && d.table == TableAt(table, runs, |log|)
    ensures Timely(log + [d], table, runs)
  {
  }

  /** When a pass has ended, nothing is runnable after the last dispatch of a low-priority process
      up to where a process of priority 0 was met; and nothing at all if there was none. */
  ghost predicate Complete(log: seq<Dispatch>, t: seq<Proc>) {
    if log != [] && IsLow(log[|log| - 1])
    then exists h: nat :: StoppedAt(t, Last(log), h)
    else NoneRunnable(t, 0, |t|)
  }

  predicate StoppedAt(t: seq<Proc>, last: int, h: nat) {
    last < h <= |t| && NoneRunnable(t, last + 1, h) && (h < |t| ==> High(t[h]))
  }

  lemma Append(log: seq<Dispatch>, d: Dispatch)
    requires InOrder(log) && Justified(log, d)
    ensures InOrder(log + [d])
  {
    var log' := log + [d];
    forall k | 0 <= k < |log'| ensures Justified(log'[..k], log'[k]) {
      assert log'[..k] == log[..k] && log[..|log|] == log;
    }
  }

  /** What the first loop comes to is next in turn, in the round that has had a dispatch or in
      one that has not. */
  lemma HighIsNext(log: seq<Dispatch>, t: seq<Proc>, i: nat, inRound: bool)
    requires InOrder(log) && AllHigh(log) && i < |t| && High(t[i])
    requires if inRound then Last(log) < i && NoHigh(t, Last(log) + 1, i) else NoHigh(t, 0, i) && (log != [] ==> NoHigh(t, Last(log) + 1, |t|))
    ensures InOrder(log + [Dispatch(i, t)]) && AllHigh(log + [Dispatch(i, t)])
  {
    Append(log, Dispatch(i, t));
  }

  lemma LowIsNext(log0: seq<Dispatch>, log: seq<Dispatch>, t: seq<Proc>, i: nat)
    requires InOrder(log) && AllHigh(log0) && i < |t| && IsLow(Dispatch(i, t))
    requires if |log| == |log0| then log == log0 && NoHigh(t, 0, |t|) && NoneRunnable(t, 0, i)
             else log != [] && IsLow(log[|log| - 1]) && Last(log) < i && NoneRunnable(t, Last(log) + 1, i)
    ensures InOrder(log + [Dispatch(i, t)])
  {
    Append(log, Dispatch(i, t));
  }

  /** One call of `mlfq_scheduler` on the only processor.  The process switched to for the n-th
      time leaves the table as runs[n]; nothing else changes it.  After the last of `runs`
      another scheduler has been chosen, and the call returns. */
  method Pass(table: seq<Proc>, runs: seq<seq<Proc>>) returns (log: seq<Dispatch>)
    requires forall n :: 0 <= n < |runs| ==> |runs[n]| == |table|
    ensures InOrder(log) && Timely(log, table, runs)
    ensures |log| <= |runs| ==> Complete(log, TableAt(table, runs, |log|))
  {
    log := [];
    var t, quit := table, false;
    var highAvail := true;
    while highAvail
      invariant |log| <= |runs| && AllHigh(log) && InOrder(log) && Timely(log, table, runs) && t == TableAt(table, runs, |log|)
      invariant log != [] ==> NoHigh(t, Last(log) + 1, |t|)
      invariant !highAvail ==> NoHigh(t, 0, |t|)
      decreases |runs| - |log|, highAvail
    {
      highAvail, quit, log := HighRound(table, runs, log);
      if quit {
        return;
      }
      t := TableAt(table, runs, |log|);
    }
    log := LowRound(table, runs, log);
  }

  predicate AllHigh(log: seq<Dispatch>) {
    forall k :: 0 <= k < |log| ==> IsHigh(log[k])
  }

  /** One round of the first loop. */
  method HighRound(table: seq<Proc>, runs: seq<seq<Proc>>, log0: seq<Dispatch>)
    returns (highAvail: bool, quit: bool, log: seq<Dispatch>)
    requires forall n :: 0 <= n < |runs| ==> |runs[n]| == |table|
    requires |log0| <= |runs| && AllHigh(log0) && InOrder(log0) && Timely(log0, table, runs)
    requires log0 != [] ==> NoHigh(TableAt(table, runs, |log0|), Last(log0) + 1, |table|)
    ensures AllHigh(log) && InOrder(log) && Timely(log, table, runs)
    ensures quit ==> |log| == |runs| + 1
    ensures !quit ==> |log| <= |runs| && (highAvail ==> |log0| < |log|)
    ensures !quit && log != [] ==> NoHigh(TableAt(table, runs, |log|), Last(log) + 1, |table|)
    ensures !quit && !highAvail ==> NoHigh(TableAt(table, runs, |log|), 0, |table|)
  {
    highAvail, quit, log := false, false, log0;
    var t, i := TableAt(table, runs, |log0|), 0;
    while i < |t|
      invariant 0 <= i <= |t| && |t| == |table| && |log0| <= |log| <= |runs| && t == TableAt(table, runs, |log|)
      invariant AllHigh(log) && InOrder(log) && Timely(log, table, runs)
      invariant highAvail == (|log0| < |log|)
      invariant if highAvail then Last(log) < i && NoHigh(t, Last(log) + 1, i) else log == log0 && NoHigh(t, 0, i)
    {
      if t[i].priority == 0 && t[i].runnable {
        HighIsNext(log, t, i, highAvail);
        TimelyMore(log, table, runs, Dispatch(i, t));
        highAvail := true;
        log := log + [Dispatch(i, t)];
        if |log| > |runs| {
          quit := true;
          return;
        }
        t := runs[|log| - 1];
      }
      i := i + 1;
    }
  }

  /** The second loop. */
  method LowRound(table: seq<Proc>, runs: seq<seq<Proc>>, log0: seq<Dispatch>) returns (log: seq<Dispatch>)
    requires forall n :: 0 <= n < |runs| ==> |runs[n]| == |table|
    requires |log0| <= |runs| && AllHigh(log0) && InOrder(log0) && Timely(log0, table, runs)
    requires NoHigh(TableAt(table, runs, |log0|), 0, |table|)
    ensures InOrder(log) && Timely(log, table, runs)
    ensures |log| <= |runs| ==> Complete(log, TableAt(table, runs, |log|))
  {
    log := log0;
    var t, i := TableAt(table, runs, |log0|), 0;
    while i < |t|
      invariant 0 <= i <= |t| && |t| == |table| && |log0| <= |log| <= |runs| && t == TableAt(table, runs, |log|)
      invariant InOrder(log) && Timely(log, table, runs)
      invariant if |log| == |log0| then log == log0 && NoneRunnable(t, 0, i)
                else IsLow(log[|log| - 1]) && Last(log) < i && NoneRunnable(t, Last(log) + 1, i)
    {
      if t[i].priority == 0 && t[i].runnable {
        break;
      }
      if t[i].runnable {
        LowIsNext(log0, log, t, i);
        TimelyMore(log, table, runs, Dispatch(i, t));
        log := log + [Dispatch(i, t)];
        if |log| > |runs| {
          return;
        }
        t := runs[|log| - 1];
      }
      i := i + 1;
    }
    assert |log0| < |log| ==> StoppedAt(t, Last(log), i);
  }

  // ---- the scheduler's loop over passes ----

  /** Dispatch k belongs to the pass that began with dispatch from[k], which is the pass of the
      dispatch before it, or a new one after that pass has ended. */
  ghost predicate PassAt(all: seq<Dispatch>, from: seq<nat>, k: nat)
    requires |from| == |all| && k < |all|
  {
    && from[k] <= k && Justified(all[from[k]..k], all[k])
    && (k > 0 ==> from[k - 1] <= k && (from[k] == from[k - 1] || (from[k] == k && Complete(all[from[k - 1]..k], all[k].table))))
  }

  ghost predicate Scheduled(all: seq<Dispatch>, from: seq<nat>) {
    |from| == |all| && forall k {:trigger PassAt(all, from, k)} :: 0 <= k < |all| ==> PassAt(all, from, k)
  }

  /** The part of the pass of dispatch k up to k. */
  function PassSoFar(all: seq<Dispatch>, from: seq<nat>, k: nat): seq<Dispatch> {
    if k < |all| && k < |from| && from[k] <= k then all[from[k]..k + 1] else []
  }

  lemma SlicePrefix(a: seq<Dispatch>, b: seq<Dispatch>, i: nat, j: nat)
    requires i <= j <= |a|
    ensures (a + b)[i..j] == a[i..j]
  {
  }

  lemma SliceGrows(a: seq<Dispatch>, i: nat, j: nat)
    requires i <= j < |a|
    ensures a[i..j + 1] == a[i..j] + [a[j]]
  {
  }

  lemma PassKept(all: seq<Dispatch>, from: seq<nat>, log: seq<Dispatch>, more: seq<nat>, k: nat)
    requires Scheduled(all, from) && k < |all| && |more| == |log|
    ensures PassAt(all + log, from + more, k)
  {
    assert PassAt(all, from, k);
    SlicePrefix(all, log, from[k], k);
    if k > 0 {
      SlicePrefix(all, log, from[k - 1], k);
    }
  }

  lemma PassNew(all: seq<Dispatch>, from: seq<nat>, log: seq<Dispatch>, k: nat)
    requires Scheduled(all, from) && InOrder(log) && k < |log|
    requires all != [] ==> from[|all| - 1] <= |all| && Complete(all[from[|all| - 1]..], log[0].table)
    ensures PassAt(all + log, from + seq(|log|, j => |all|), |all| + k)
  {
    var n, all' := |all|, all + log;
    assert all'[n..n + k] == log[..k];
    if k == 0 && n > 0 {
      SlicePrefix(all, log, from[n - 1], n);
    }
  }

  /** The dispatches of a pass follow those of the passes before it. */
  lemma NextPass(all: seq<Dispatch>, from: seq<nat>, log: seq<Dispatch>)
    requires Scheduled(all, from) && InOrder(log) && log != []
    requires all != [] ==> from[|all| - 1] <= |all| && Complete(all[from[|all| - 1]..], log[0].table)
    ensures Scheduled(all + log, from + seq(|log|, k => |all|))
  {
    var all', from' := all + log, from + seq(|log|, k => |all|);
    forall k | 0 <= k < |all'| ensures PassAt(all', from', k) {
      if k < |all| {
        PassKept(all, from, log, seq(|log|, k => |all|), k);
      } else {
        PassNew(all, from, log, k - |all|);
      }
    }
  }

  lemma TimelyThen(all: seq<Dispatch>, log: seq<Dispatch>, table: seq<Proc>, runs: seq<seq<Proc>>)
    requires Timely(all, table, runs) && |all| <= |runs| && Timely(log, TableAt(table, runs, |all|), runs[|all|..])
    ensures Timely(all + log, table, runs)
  {
    var n := |all|;
    forall k | 0 <= k < |all + log| ensures (all + log)[k].table == TableAt(table, runs, k) {
      assert k >= n ==> log[k - n].table == TableAt(TableAt(table, runs, n), runs[n..], k - n);
    }
  }

  /** `scheduler`: one pass after the other, as long as there is something to run. */
  method Scheduler(table: seq<Proc>, runs: seq<seq<Proc>>) returns (all: seq<Dispatch>, ghost from: seq<nat>)
    requires forall n :: 0 <= n < |runs| ==> |runs[n]| == |table|
    ensures Scheduled(all, from) && Timely(all, table, runs)
    ensures |all| <= |runs| ==> NoneRunnable(TableAt(table, runs, |all|), 0, |table|)
  {
    all, from := [], [];
    while |all| <= |runs|
      invariant Scheduled(all, from) && Timely(all, table, runs)
      invariant all != [] && |all| <= |runs| ==>
        from[|all| - 1] <= |all| && Complete(all[from[|all| - 1]..], TableAt(table, runs, |all|))
      decreases |runs| + 1 - |all|
    {
      ghost var n := |all|;
      var t := TableAt(table, runs, |all|);
      var log := Pass(t, runs[|all|..]);
      if log == [] {
        return;
      }
      assert log[0].table == TableAt(t, runs[n..], 0);
      NextPass(all, from, log);
      TimelyThen(all, log, table, runs);
      from := from + seq(|log|, k => n);
      all := all + log;
      assert all[n..] == log;
    }
  }

  // ---- no starvation ----

  /** How many slots the scheduler comes to, after prev and going round, before p. */
  function Ahead(n: nat, prev: int, p: nat): nat
    requires prev < n && p < n
  {
    if prev < p then (if prev < 0 then p else p - prev - 1) else n - prev - 1 + p
  }

  /** At most so many others are dispatched before p, which has priority 0 from now on: in a walk
      over the low priorities those that are left of it, and then those before p. */
  function Left(log: seq<Dispatch>, n: nat, p: nat): nat {
    if log == [] || Last(log) >= n || p >= n then 0
    else if IsLow(log[|log| - 1]) then n - 1 - Last(log) + p
    else Ahead(n, Last(log), p)
  }

  lemma OneCloser(log: seq<Dispatch>, d: Dispatch, log': seq<Dispatch>, p: nat)
    requires log != [] && Last(log) < |d.table| && p < |d.table| && High(d.table[p]) && d.i != p
    requires (log' == log + [d] && Justified(log, d)) || (log' == [d] && Justified([], d) && Complete(log, d.table))
    ensures d.i < |d.table| && Left(log', |d.table|, p) < Left(log, |d.table|, p)
  {
    assert !NoHigh(d.table, 0, |d.table|);
  }

  /** The entry of p changes by the scan of each switch and by nothing else. */
  predicate Waits(all: seq<Dispatch>, p: nat, m: nat, n: nat) {
    && m < n <= |all|
    && (forall k :: m <= k < n ==> all[k].i != p && p < |all[k].table| && |all[k].table| == |all[m].table|)
    && forall k {:trigger TickAt(all, p, k)} :: m < k < n ==> TickAt(all, p, k)
  }

  predicate TickAt(all: seq<Dispatch>, p: nat, k: nat) {
    0 < k < |all| && p < |all[k].table| && p < |all[k - 1].table| && all[k].table[p] == Tick(all[k - 1].table[p])
  }

  /** The scans after which p has priority 0. */
  function Due(x: Proc): int {
    if x.priority == 0 then 0 else x.timer
  }

  lemma {:induction false} Ticking(all: seq<Dispatch>, p: nat, m: nat, n: nat, k: nat)
    requires Waits(all, p, m, n) && m <= k < n && ProcOk(all[m].table[p])
    ensures var x, y := all[m].table[p], all[k].table[p];
      ProcOk(y) && y.runnable == x.runnable && Due(y) == if k - m < Due(x) then Due(x) - (k - m) else 0
    decreases k
  {
    if m < k {
      Ticking(all, p, m, n, k - 1);
      assert TickAt(all, p, k);
    }
  }

  /** Dispatch k continues the pass of the one before it, or begins a new pass. */
  lemma PassGoesOn(all: seq<Dispatch>, from: seq<nat>, k: nat)
    requires Scheduled(all, from) && 0 < k < |all|
    ensures var log, log', d := PassSoFar(all, from, k - 1), PassSoFar(all, from, k), all[k];
      && log != [] && log[|log| - 1] == all[k - 1]
      && ((log' == log + [d] && Justified(log, d)) || (log' == [d] && Justified([], d) && Complete(log, d.table)))
  {
    var h := k - 1;
    assert PassAt(all, from, h) && PassAt(all, from, k);
    SliceGrows(all, from[h], h);
    SliceGrows(all, from[k], k);
    SliceGrows(all, from[h], k);
  }

  lemma LeftAtMost(all: seq<Dispatch>, from: seq<nat>, k: nat, n: nat, p: nat)
    requires Scheduled(all, from) && k < |all| && p < n == |all[k].table|
    ensures Left(PassSoFar(all, from, k), n, p) <= 2 * n - 2
  {
    assert PassAt(all, from, k);
    SliceGrows(all, from[k], k);
  }

  lemma CloserAt(all: seq<Dispatch>, from: seq<nat>, k: nat, n: nat, p: nat)
    requires Scheduled(all, from) && 0 < k < |all| && p < n == |all[k].table| == |all[k - 1].table|
    requires High(all[k].table[p]) && all[k].i != p
    ensures Left(PassSoFar(all, from, k), n, p) < Left(PassSoFar(all, from, k - 1), n, p)
  {
    assert PassAt(all, from, k - 1);
    PassGoesOn(all, from, k);
    OneCloser(PassSoFar(all, from, k - 1), all[k], PassSoFar(all, from, k), p);
  }

  lemma {:induction false} Approaching(all: seq<Dispatch>, from: seq<nat>, p: nat, m: nat, n: nat, k: nat)
    requires Scheduled(all, from) && Waits(all, p, m, n) && m <= k < n
    requires forall j :: m <= j < n ==> High(all[j].table[p])
    ensures Left(PassSoFar(all, from, k), |all[m].table|, p) <= 2 * |all[m].table| - 2 - (k - m)
    decreases k
  {
    if k == m {
      LeftAtMost(all, from, k, |all[m].table|, p);
    } else {
      Approaching(all, from, p, m, n, k - 1);
      CloserAt(all, from, k, |all[m].table|, p);
    }
  }

  /** Nothing but scans changes the entry of p: it is runnable and waits. */
  predicate Untouched(steps: seq<Step>, p: nat) {
    LeftAlone(steps, p) && forall k :: 0 <= k < |steps| && steps[k].SetRunnable? ==> steps[k].p != p
  }

  lemma {:induction false} OneScan(s: seq<Proc>, steps: seq<Step>, p: nat)
    requires p < |s| && Untouched(steps, p) && Scans(steps) <= 1
    ensures Run(s, steps)[p] == if Scans(steps) == 1 then Tick(s[p]) else s[p]
    decreases |steps|
  {
    if steps != [] {
      OneScan(Apply(s, steps[0]), steps[1..], p);
    }
  }

  /** From dispatch m up to dispatch n others run, the process of dispatch k taking the steps
      runs[k] with the one scan of its `sched`, and p waits. */
  ghost predicate OthersRun(all: seq<Dispatch>, runs: seq<seq<Step>>, p: nat, m: nat, n: nat) {
    && m < n <= |all| && n <= |runs| + 1 && p < |all[m].table|
    && (forall k :: m <= k < n ==> all[k].i != p)
    && forall k {:trigger runs[k]} :: m <= k < n - 1 ==>
         Scans(runs[k]) == 1 && Untouched(runs[k], p) && all[k + 1].table == Run(all[k].table, runs[k])
  }

  lemma {:induction false} SameSize(all: seq<Dispatch>, runs: seq<seq<Step>>, p: nat, m: nat, n: nat, k: nat)
    requires OthersRun(all, runs, p, m, n) && m <= k < n
    ensures |all[k].table| == |all[m].table|
    decreases k
  {
    if m < k {
      SameSize(all, runs, p, m, n, k - 1);
      assert all[k - 1 + 1].table == Run(all[k - 1].table, runs[k - 1]);
    }
  }

  lemma OthersRunWaits(all: seq<Dispatch>, runs: seq<seq<Step>>, p: nat, m: nat, n: nat)
    requires OthersRun(all, runs, p, m, n)
    ensures Waits(all, p, m, n)
  {
    forall k | m <= k < n ensures |all[k].table| == |all[m].table| {
      SameSize(all, runs, p, m, n, k);
    }
    forall k | m < k < n ensures TickAt(all, p, k) {
      var h := k - 1;
      assert all[h + 1].table == Run(all[h].table, runs[h]);
      OneScan(all[h].table, runs[h], p);
    }
  }

  /** No starvation: a runnable process is dispatched before 2 * NPROC others are, after the scans
      that promote it, at most PROM_TIME. */
  lemma NoStarvation(all: seq<Dispatch>, from: seq<nat>, runs: seq<seq<Step>>, p: nat, m: nat, n: nat)
    requires Scheduled(all, from) && OthersRun(all, runs, p, m, n)
    requires var x := all[m].table[p]; ProcOk(x) && x.runnable
    ensures n - m < Due(all[m].table[p]) + 2 * |all[m].table| && Due(all[m].table[p]) <= PROM_TIME
  {
    OthersRunWaits(all, runs, p, m, n);
    var h := m + Due(all[m].table[p]);
    if h < n {
      forall k | h <= k < n ensures High(all[k].table[p]) {
        Ticking(all, p, m, n, k);
      }
      Approaching(all, from, p, h, n, n - 1);
    }
  }
}
