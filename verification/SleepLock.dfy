/** Sleep locks over `sleep` and `wakeup` (kernel/sleeplock.c, kernel/proc.c), as the steps of
    any number of processes between which the others may run.  Spinlocks are taken and given
    up in single steps; `kill` may wake a sleeper at any time. */
module SleepLock {
  import opened Common

  /** Where a process is.  Test to Leave are in `acquiresleep` with the inner spinlock held,
      Commit to Tidy in `sleep`, and Clear to Unlock in `releasesleep`. */
  datatype Pc =
    | Idle | Enter | Test | Take | Leave
    | Commit | Committed | Mark | Switch | Asleep | Tidy | Reacquire
    | Holding | Exit | Clear | Waking(k: nat) | Unlock

  /** One sleep lock: its spinlock, `locked` and `pid`; of every process where it is, whether
      its state is SLEEPING with this lock as channel, and whether its `p->lock` is taken. */
  datatype State = State(inner: Option<nat>, locked: bool, pid: nat, pc: seq<Pc>, sleeping: seq<bool>, plock: seq<bool>)

  datatype Step =
    | Begin(p: nat)       // a call of acquiresleep or releasesleep
    | Spin(p: nat)        // acquire(&lk->lk)
    | Check(p: nat)       // while (lk->locked)
    | Lock(p: nat)        // lk->locked = 1; lk->pid = ...
    | Release(p: nat)     // release(&lk->lk)
    | Own(p: nat)         // acquire(&p->lock) in sleep
    | Sleep(p: nat)       // p->chan = chan; p->state = SLEEPING
    | Yield(p: nat)       // sched(): the scheduler releases p->lock
    | Run(p: nat)         // the scheduler runs p again, with p->lock held
    | Clean(p: nat)       // p->chan = 0; release(&p->lock)
    | Unset(p: nat)       // lk->locked = 0; lk->pid = 0
    | Wake(p: nat)        // one turn of the loop in wakeup
    | Kill(p: nat)        // kill() of p

  predicate HoldsInner(pc: Pc) {
    pc.Test? || pc.Take? || pc.Leave? || pc.Commit? || pc.Committed? || pc.Clear? || pc.Waking? || pc.Unlock?
  }

  /** Between setting `locked` and clearing it. */
  predicate Owns(pc: Pc) {
    pc.Leave? || pc.Holding? || pc.Exit? || pc.Clear?
  }

  predicate HoldsPlock(pc: Pc) {
    pc.Committed? || pc.Mark? || pc.Switch? || pc.Tidy?
  }

  /** Asleep on the lock, or committed to it without the spinlock. */
  predicate Waiting(s: State, p: nat)
    requires p < |s.pc| && |s.sleeping| == |s.pc|
  {
    s.pc[p].Mark? || s.pc[p].Switch? || (s.pc[p].Asleep? && s.sleeping[p])
  }

  predicate Enabled(s: State, st: Step) {
    && |s.sleeping| == |s.plock| == |s.pc| && st.p < |s.pc|
    && var pc := s.pc[st.p];
       match st
       case Begin(_) => pc.Idle? || pc.Holding?
       case Spin(_) => (pc.Enter? || pc.Reacquire? || pc.Exit?) && s.inner.None?
       case Check(_) => pc.Test?
       case Lock(_) => pc.Take?
       case Release(_) => pc.Leave? || pc.Committed? || pc.Unlock?
       case Own(_) => pc.Commit? && !s.plock[st.p]
       case Sleep(_) => pc.Mark?
       case Yield(_) => pc.Switch?
       case Run(_) => pc.Asleep? && !s.sleeping[st.p] && !s.plock[st.p]
       case Clean(_) => pc.Tidy?
       case Unset(_) => pc.Clear?
       case Wake(_) => pc.Waking? && (pc.k < |s.pc| && pc.k != st.p ==> !s.plock[pc.k])
       case Kill(_) => !s.plock[st.p]
  }

  function Go(s: State, p: nat, pc: Pc): State
    requires p < |s.pc|
  {
    s.(pc := s.pc[p := pc])
  }

  function Apply(s: State, st: Step): State
    requires Enabled(s, st)
  {
    var p, pc := st.p, s.pc[st.p];
    match st
    case Begin(_) => Go(s, p, if pc.Idle? then Enter else Exit)
    case Spin(_) => Go(s, p, if pc.Exit? then Clear else Test).(inner := Some(p))
    case Check(_) => Go(s, p, if s.locked then Commit else Take)
    case Lock(_) => Go(s, p, Leave).(locked := true, pid := p)
    case Release(_) => Go(s, p, if pc.Leave? then Holding else if pc.Committed? then Mark else Idle).(inner := None)
    case Own(_) => Go(s, p, Committed).(plock := s.plock[p := true])
    case Sleep(_) => Go(s, p, Switch).(sleeping := s.sleeping[p := true])
    case Yield(_) => Go(s, p, Asleep).(plock := s.plock[p := false])
    case Run(_) => Go(s, p, Tidy).(plock := s.plock[p := true])
    case Clean(_) => Go(s, p, Reacquire).(plock := s.plock[p := false])
    case Unset(_) => Go(s, p, Waking(0)).(locked := false, pid := 0)
    case Wake(_) =>
      if pc.k < |s.pc| then
        Go(s, p, Waking(pc.k + 1)).(sleeping := if pc.k != p then s.sleeping[pc.k := false] else s.sleeping)
      else Go(s, p, Unlock)
    case Kill(_) => s.(sleeping := s.sleeping[p := false])
  }

  // ---- the invariant ----

  predicate ProcOk(s: State, p: nat)
    requires |s.sleeping| == |s.plock| == |s.pc| && p < |s.pc|
  {
    && (HoldsInner(s.pc[p]) <==> s.inner == Some(p))
    && (Owns(s.pc[p]) ==> s.locked && s.pid == p)
    && (HoldsPlock(s.pc[p]) ==> s.plock[p])
    && (s.sleeping[p] ==> s.pc[p].Switch? || s.pc[p].Asleep?)
    && (s.pc[p].Commit? || s.pc[p].Committed? ==> s.locked)
    && (s.pc[p].Take? || s.pc[p].Waking? || s.pc[p].Unlock? ==> !s.locked)
    && (Waiting(s, p) ==> s.locked || ToBeWoken(s, p))
  }

  /** The process in `releasesleep` has yet to come to p in its walk through the table. */
  predicate ToBeWoken(s: State, p: nat) {
    s.inner.Some? && s.inner.value < |s.pc| && s.pc[s.inner.value].Waking? && s.pc[s.inner.value].k <= p
  }

  ghost predicate Inv(s: State) {
    && |s.sleeping| == |s.plock| == |s.pc|
    && (s.locked ==> s.pid < |s.pc| && Owns(s.pc[s.pid]))
    && (s.inner.Some? ==> s.inner.value < |s.pc|)
    && forall p {:trigger ProcOk(s, p)} :: 0 <= p < |s.pc| ==> ProcOk(s, p)
  }

  function Init(n: nat): State {
    State(None, false, 0, seq(n, i => Idle), seq(n, i => false), seq(n, i => false))
  }

  lemma InitInv(n: nat)
    ensures Inv(Init(n))
  {
  }

  /** What a step does to any process q, group by group. */
  lemma SpinSteps(s: State, st: Step, q: nat)
    requires Inv(s) && Enabled(s, st) && q < |s.pc| && (st.Begin? || st.Spin? || st.Release?)
    ensures ProcOk(Apply(s, st), q)
  {
    assert ProcOk(s, q) && ProcOk(s, st.p);
  }

  lemma LockSteps(s: State, st: Step, q: nat)
    requires Inv(s) && Enabled(s, st) && q < |s.pc| && (st.Check? || st.Lock? || st.Unset?)
    ensures ProcOk(Apply(s, st), q)
  {
    assert ProcOk(s, q) && ProcOk(s, st.p);
  }

  lemma SleepSteps(s: State, st: Step, q: nat)
    requires Inv(s) && Enabled(s, st) && q < |s.pc| && (st.Own? || st.Sleep?)
    ensures ProcOk(Apply(s, st), q)
  {
    assert ProcOk(s, q) && ProcOk(s, st.p);
  }

  lemma SwitchSteps(s: State, st: Step, q: nat)
    requires Inv(s) && Enabled(s, st) && q < |s.pc| && (st.Yield? || st.Run? || st.Clean?)
    ensures ProcOk(Apply(s, st), q)
  {
    assert ProcOk(s, q) && ProcOk(s, st.p);
  }

  lemma WakeSteps(s: State, st: Step, q: nat)
    requires Inv(s) && Enabled(s, st) && q < |s.pc| && (st.Wake? || st.Kill?)
    ensures ProcOk(Apply(s, st), q)
  {
    assert ProcOk(s, q) && ProcOk(s, st.p);
  }

  lemma StepInv(s: State, st: Step)
    requires Inv(s) && Enabled(s, st)
    ensures Inv(Apply(s, st))
  {
    var t := Apply(s, st);
    assert ProcOk(s, st.p);
    forall q | 0 <= q < |t.pc| ensures ProcOk(t, q) {
      if st.Begin? || st.Spin? || st.Release? {
        SpinSteps(s, st, q);
      } else if st.Check? || st.Lock? || st.Unset? {
        LockSteps(s, st, q);
      } else if st.Wake? || st.Kill? {
        WakeSteps(s, st, q);
      } else if st.Own? || st.Sleep? {
        SleepSteps(s, st, q);
      } else {
        SwitchSteps(s, st, q);
      }
    }
  }

  // ---- runs ----

  /** The steps lead from s to t. */
  predicate Leads(s: State, steps: seq<Step>, t: State)
    decreases |steps|
  {
    if steps == [] then s == t else Enabled(s, steps[0]) && Leads(Apply(s, steps[0]), steps[1..], t)
  }

  ghost predicate Reachable(n: nat, s: State) {
    exists steps :: Leads(Init(n), steps, s)
  }

  lemma {:induction false} LeadsInv(s: State, steps: seq<Step>, t: State)
    requires Inv(s) && Leads(s, steps, t)
    ensures Inv(t)
    decreases |steps|
  {
    if steps != [] {
      StepInv(s, steps[0]);
      LeadsInv(Apply(s, steps[0]), steps[1..], t);
    }
  }

  lemma ReachableInv(n: nat, s: State)
    requires Reachable(n, s)
    ensures Inv(s)
  {
    var steps :| Leads(Init(n), steps, s);
    InitInv(n);
    LeadsInv(Init(n), steps, s);
  }

  /** No lost wakeup: while the spinlock is free, whoever sleeps on the lock, or is about to,
      does so because another process has it and will call `wakeup`. */
  lemma NoLostWakeup(n: nat, s: State, p: nat)
    requires Reachable(n, s) && s.inner.None?
    ensures |s.pc| == |s.sleeping| && (p < |s.pc| && Waiting(s, p) ==> s.locked && s.pid < |s.pc| && s.pid != p && Owns(s.pc[s.pid]))
  {
    ReachableInv(n, s);
    assert p < |s.pc| ==> ProcOk(s, p);
  }

  /** At most one process has the sleep lock. */
  lemma MutualExclusion(n: nat, s: State, p: nat, q: nat)
    requires Reachable(n, s) && p < |s.pc| && q < |s.pc| && Owns(s.pc[p]) && Owns(s.pc[q])
    ensures p == q
  {
    ReachableInv(n, s);
    assert ProcOk(s, p) && ProcOk(s, q);
  }

  /** When `wakeup` has gone through the table, nobody is left waiting. */
  lemma AllWoken(n: nat, s: State, r: nat, p: nat)
    requires Reachable(n, s) && r < |s.pc| && s.pc[r].Unlock? && p < |s.pc|
    ensures |s.sleeping| == |s.pc| && !Waiting(s, p)
  {
    ReachableInv(n, s);
    assert ProcOk(s, p) && ProcOk(s, r);
  }
}
