/** Creation, exit and reaping of processes (kernel/proc.c), as the steps of concurrent calls
    of `fork`, `exit`, `wait` and `kill`.  A step is what happens between acquiring and releasing
    locks; `wait_lock` may be held over many steps. */
module ProcessLifecycle {
  import opened Common

  /** SLEEPING, RUNNABLE and RUNNING are one here: alive.  Who sleeps in `wait` shows in `pc`. */
  datatype Status = Unused | Used | Alive | Zombie

  /** Where a live process is in its current call. */
  datatype Pc =
    | User
    | Forking(child: nat)            // allocproc has given a slot
    | Adopted(child: nat)            // np->parent = p is done
    | Exiting(k: nat)                // reparent has come to slot k; wait_lock held
    | Leaving                        // wakeup(p->parent) is done; wait_lock held
    | Waiting(k: nat, kids: bool)    // the scan in wait has come to slot k; wait_lock held
    | Asleep                         // sleep(p, &wait_lock)
    | Woken                          // runnable, about to acquire wait_lock again

  /** `maker` records who is still creating a process. */
  datatype Proc = Proc(status: Status, pid: nat, parent: Option<nat>, xstate: int, pc: Pc, maker: Option<nat>)

  const Empty := Proc(Unused, 0, None, 0, User, None)

  /** `exited` and `reaped` record, by pid, the statuses given to `exit` and returned by `wait`. */
  datatype State = State(proc: seq<Proc>, nextpid: nat, waitLock: Option<nat>, exited: map<nat, int>, reaped: map<nat, int>)

  /** Slot 0 is `initproc`. */
  const INIT := 0

  datatype Step =
    | Alloc(p: nat, q: nat)          // fork: allocproc finds slot q
    | ForkFails(p: nat)              // fork: out of memory
    | Adopt(p: nat)                  // fork: np->parent = p
    | Launch(p: nat)                 // fork: np->state = RUNNABLE
    | ExitBegins(p: nat)             // exit: acquire(&wait_lock)
    | Reparent(p: nat)               // exit: one turn of the loop in reparent, with its wakeup
    | WakeParent(p: nat)             // exit: wakeup(p->parent)
    | Die(p: nat, status: int)       // exit: ZOMBIE, release(&wait_lock)
    | WaitBegins(p: nat)             // wait: acquire(&wait_lock)
    | Look(p: nat)                   // wait: a slot that is not a zombie child
    | Reap(p: nat)                   // wait: a zombie child
    | CopyFails(p: nat)              // wait: a zombie child, but copyout fails
    | GiveUp(p: nat)                 // wait: end of the scan: no children, or killed
    | Sleep(p: nat)                  // wait: end of the scan: sleep, which releases wait_lock
    | Resume(p: nat)                 // wait: sleep returns, with wait_lock
    | Kill(p: nat, q: nat)           // kill: a sleeping process is woken

  predicate Free(s: State) {
    s.waitLock.None?
  }

  predicate Enabled(s: State, st: Step) {
    && st.p < |s.proc| && s.proc[st.p].status.Alive?
    && var pc := s.proc[st.p].pc;
       match st
       case Alloc(_, q) => pc.User? && q < |s.proc| && s.proc[q].status.Unused?
       case ForkFails(_) => pc.Forking? && pc.child < |s.proc|
       case Adopt(_) => pc.Forking? && pc.child < |s.proc| && Free(s)
       case Launch(_) => pc.Adopted? && pc.child < |s.proc|
       case ExitBegins(p) => pc.User? && p != INIT && Free(s)
       case Reparent(_) => pc.Exiting? && pc.k < |s.proc|
       case WakeParent(_) => pc.Exiting? && pc.k == |s.proc|
       case Die(_, _) => pc.Leaving?
       case WaitBegins(_) => pc.User? && Free(s)
       case Look(p) => pc.Waiting? && pc.k < |s.proc| && !(s.proc[pc.k].parent == Some(p) && s.proc[pc.k].status.Zombie?)
       case Reap(p) => pc.Waiting? && pc.k < |s.proc| && s.proc[pc.k].parent == Some(p) && s.proc[pc.k].status.Zombie?
       case CopyFails(p) => pc.Waiting? && pc.k < |s.proc| && s.proc[pc.k].parent == Some(p) && s.proc[pc.k].status.Zombie?
       case GiveUp(_) => pc.Waiting? && pc.k == |s.proc|
       case Sleep(_) => pc.Waiting? && pc.k == |s.proc| && pc.kids
       case Resume(_) => pc.Woken? && Free(s)
       case Kill(_, q) => pc.User? && q < |s.proc|
  }

  function Set(s: State, p: nat, x: Proc): State
    requires p < |s.proc|
  {
    s.(proc := s.proc[p := x])
  }

  function Go(s: State, p: nat, pc: Pc): State
    requires p < |s.proc|
  {
    Set(s, p, s.proc[p].(pc := pc))
  }

  /** `wakeup` on the channel that process q sleeps on in `wait`. */
  function Wake(s: State, q: nat): State {
    if q < |s.proc| && s.proc[q].pc.Asleep? then Go(s, q, Woken) else s
  }

  /** One turn of the loop in `reparent` of process p. */
  function Reparented(s: State, p: nat): State
    requires p < |s.proc|
  {
    var pc := s.proc[p].pc;
    if !pc.Exiting? || pc.k >= |s.proc| then s
    else Go(if s.proc[pc.k].parent == Some(p) then Set(s, pc.k, s.proc[pc.k].(parent := Some(INIT))) else s, p, Exiting(pc.k + 1))
  }

  function Apply(s: State, st: Step): State
    requires Enabled(s, st)
  {
    var p, pc := st.p, s.proc[st.p].pc;
    match st
    case Alloc(_, q) => Go(Set(s, q, Empty.(status := Used, pid := s.nextpid, maker := Some(p))), p, Forking(q)).(nextpid := s.nextpid + 1)
    case ForkFails(_) => Go(Set(s, pc.child, Empty), p, User)
    case Adopt(_) => Go(Set(s, pc.child, s.proc[pc.child].(parent := Some(p))), p, Adopted(pc.child))
    case Launch(_) => Go(Set(s, pc.child, s.proc[pc.child].(status := Alive, maker := None)), p, User)
    case ExitBegins(_) => Go(s, p, Exiting(0)).(waitLock := Some(p))
    case Reparent(_) => Reparented(if s.proc[pc.k].parent == Some(p) then Wake(s, INIT) else s, p)
    case WakeParent(_) => Go(if s.proc[p].parent.Some? then Wake(s, s.proc[p].parent.value) else s, p, Leaving)
    case Die(_, status) =>
      Set(s, p, s.proc[p].(status := Zombie, xstate := status, pc := User)).(waitLock := None, exited := s.exited[s.proc[p].pid := status])
    case WaitBegins(_) => Go(s, p, Waiting(0, false)).(waitLock := Some(p))
    case Look(_) => Go(s, p, Waiting(pc.k + 1, pc.kids || s.proc[pc.k].parent == Some(p)))
    case Reap(_) =>
      Go(Set(s, pc.k, Empty), p, User).(waitLock := None, reaped := s.reaped[s.proc[pc.k].pid := s.proc[pc.k].xstate])
    case CopyFails(_) => Go(s, p, User).(waitLock := None)
    case GiveUp(_) => Go(s, p, User).(waitLock := None)
    case Sleep(_) => Go(s, p, Asleep).(waitLock := None)
    case Resume(_) => Go(s, p, Waiting(0, false)).(waitLock := Some(p))
    case Kill(_, q) => Wake(s, q)
  }

  // ---- the invariant ----

  predicate IsChild(s: State, j: nat, p: nat)
    requires j < |s.proc|
  {
    s.proc[j].parent == Some(p)
  }

  ghost predicate NoChildBelow(s: State, p: nat, k: nat) {
    k <= |s.proc| && forall j {:trigger IsChild(s, j, p)} :: 0 <= j < k ==> !IsChild(s, j, p)
  }

  predicate AliveAt(s: State, p: nat) {
    p < |s.proc| && s.proc[p].status.Alive?
  }

  /** Parents are alive; a process that runs or has died has one, except init. */
  predicate FamilyOk(s: State, q: nat)
    requires q < |s.proc|
  {
    var x := s.proc[q];
    && (x.parent.Some? ==> AliveAt(s, x.parent.value) && x.parent.value != q && q != INIT && !x.status.Unused?)
    && (x.status.Alive? || x.status.Zombie? ==> q == INIT || x.parent.Some?)
    && (x.status.Unused? ==> x == Empty)
  }

  predicate MadeBy(x: Proc, pc: Pc, q: nat) {
    x.pc.User? && ((pc == Forking(q) && x.parent == None) || (pc == Adopted(q) && x.parent == x.maker))
  }

  /** A process being created belongs to the `fork` of one live process. */
  predicate MakerOk(s: State, q: nat)
    requires q < |s.proc|
  {
    var x := s.proc[q];
    && (x.status.Used? ==> x.maker.Some? && AliveAt(s, x.maker.value) && MadeBy(x, s.proc[x.maker.value].pc, q))
    && (!x.status.Used? ==> x.maker == None)
    && (!x.status.Alive? ==> x.pc.User?)
    && (x.pc.Forking? || x.pc.Adopted? ==> x.pc.child < |s.proc| && s.proc[x.pc.child].status.Used? && s.proc[x.pc.child].maker == Some(q))
  }

  ghost predicate LockOk(s: State, q: nat)
    requires q < |s.proc|
  {
    var pc := s.proc[q].pc;
    && (s.waitLock == Some(q) <==> pc.Exiting? || pc.Leaving? || pc.Waiting?)
    && (pc.Exiting? ==> q != INIT && NoChildBelow(s, q, pc.k))
    && (pc.Leaving? ==> q != INIT && NoChildBelow(s, q, |s.proc|))
    && (pc.Waiting? ==> pc.k <= |s.proc| && (!pc.kids ==> NoChildBelow(s, q, pc.k)))
  }

  predicate DeadChild(s: State, j: nat, p: nat)
    requires j < |s.proc|
  {
    s.proc[j].parent == Some(p) && s.proc[j].status.Zombie?
  }

  ghost predicate NoDeadBelow(s: State, p: nat, k: nat) {
    k <= |s.proc| && forall j {:trigger DeadChild(s, j, p)} :: 0 <= j < k ==> !DeadChild(s, j, p)
  }

  /** The scan of `wait` has found no zombie so far, nobody sleeps in `wait` with a zombie child,
      and the parent of a process that is about to be one does not sleep. */
  ghost predicate SleepOk(s: State, q: nat)
    requires q < |s.proc|
  {
    var x := s.proc[q];
    && (x.pc.Waiting? ==> NoDeadBelow(s, q, x.pc.k)) && (x.pc.Asleep? ==> NoDeadBelow(s, q, |s.proc|))
    && (x.pc.Leaving? && x.parent.Some? && x.parent.value < |s.proc| ==> !s.proc[x.parent.value].pc.Asleep?)
  }

  predicate PidOk(s: State, q: nat)
    requires q < |s.proc|
  {
    var x := s.proc[q];
    && (!x.status.Unused? ==> 0 < x.pid < s.nextpid && x.pid !in s.reaped)
    && (x.status.Zombie? ==> x.pid in s.exited && s.exited[x.pid] == x.xstate)
    && (x.status.Used? || x.status.Alive? ==> x.pid !in s.exited)
  }

  predicate PidsDiffer(s: State, i: nat, j: nat)
    requires i < |s.proc| && j < |s.proc|
  {
    s.proc[i].status.Unused? || s.proc[j].status.Unused? || s.proc[i].pid != s.proc[j].pid
  }

  ghost predicate ProcOk(s: State, q: nat)
    requires q < |s.proc|
  {
    FamilyOk(s, q) && MakerOk(s, q) && LockOk(s, q) && PidOk(s, q)
  }

  ghost predicate Inv(s: State) {
    && AliveAt(s, INIT) && 0 < s.nextpid
    && (forall q {:trigger ProcOk(s, q)} :: 0 <= q < |s.proc| ==> ProcOk(s, q))
    && (forall i, j {:trigger PidsDiffer(s, i, j)} :: 0 <= i < j < |s.proc| ==> PidsDiffer(s, i, j))
    && HistoryOk(s)
    && (forall q {:trigger SleepOk(s, q)} :: 0 <= q < |s.proc| ==> SleepOk(s, q))
  }

  ghost predicate HistoryOk(s: State) {
    && (forall i {:trigger i in s.exited} :: i in s.exited ==> i < s.nextpid)
    && (forall i {:trigger i in s.reaped} :: i in s.reaped ==> i in s.exited && s.reaped[i] == s.exited[i])
  }

  /** The first process, made by `userinit`. */
  function Init(n: nat): State
    requires 0 < n
  {
    State(seq(n, i => if i == INIT then Proc(Alive, 1, None, 0, User, None) else Empty), 2, None, map[], map[])
  }

  lemma InitInv(n: nat)
    requires 0 < n
    ensures Inv(Init(n))
  {
  }

  predicate ForkStep(st: Step) {
    st.Alloc? || st.ForkFails? || st.Adopt? || st.Launch?
  }

  lemma ForkFamily(s: State, st: Step, q: nat)
    requires Inv(s) && Enabled(s, st) && q < |s.proc| && ProcOk(s, st.p) && ForkStep(st)
    ensures FamilyOk(Apply(s, st), q) && PidOk(Apply(s, st), q)
  {
    assert ProcOk(s, q);
  }

  lemma ForkMaker(s: State, st: Step, q: nat)
    requires Inv(s) && Enabled(s, st) && q < |s.proc| && ProcOk(s, st.p) && ForkStep(st)
    ensures MakerOk(Apply(s, st), q)
  {
    assert ProcOk(s, q);
  }

  lemma ForkLock(s: State, st: Step, q: nat)
    requires Inv(s) && Enabled(s, st) && q < |s.proc| && ProcOk(s, st.p) && ForkStep(st)
    ensures LockOk(Apply(s, st), q)
  {
    assert ProcOk(s, q);
    var t := Apply(s, st);
    forall j | 0 <= j < |s.proc| ensures IsChild(t, j, q) ==> IsChild(s, j, q) || (st.Adopt? && q == st.p) {
      assert ProcOk(s, j);
    }
  }

  /** Distinct slots in use have distinct pids. */
  lemma Differ(s: State, i: nat, j: nat)
    requires Inv(s) && i < |s.proc| && j < |s.proc| && i != j
    ensures PidsDiffer(s, i, j)
  {
    assert if i < j then PidsDiffer(s, i, j) else PidsDiffer(s, j, i);
  }

  lemma DieStep(s: State, st: Step, q: nat)
    requires Inv(s) && Enabled(s, st) && q < |s.proc| && ProcOk(s, st.p) && st.Die?
    ensures ProcOk(Apply(s, st), q)
  {
    assert ProcOk(s, q) && !IsChild(s, q, st.p);
    if q != st.p {
      Differ(s, q, st.p);
    }
    var t := Apply(s, st);
    forall j | 0 <= j < |s.proc| ensures IsChild(t, j, q) ==> IsChild(s, j, q) {
    }
  }

  lemma ExitStep(s: State, st: Step, q: nat)
    requires Inv(s) && Enabled(s, st) && q < |s.proc| && ProcOk(s, st.p) && st.ExitBegins?
    ensures ProcOk(Apply(s, st), q)
  {
    assert ProcOk(s, q);
    var t := Apply(s, st);
    forall j | 0 <= j < |s.proc| ensures IsChild(t, j, q) ==> IsChild(s, j, q) {
    }
  }

  lemma ReapStep(s: State, st: Step, q: nat)
    requires Inv(s) && Enabled(s, st) && q < |s.proc| && ProcOk(s, st.p) && st.Reap?
    ensures ProcOk(Apply(s, st), q)
  {
    var k := s.proc[st.p].pc.k;
    assert ProcOk(s, q) && ProcOk(s, k);
    if q != k {
      Differ(s, q, k);
    }
    var t := Apply(s, st);
    forall j | 0 <= j < |s.proc| ensures IsChild(t, j, q) ==> IsChild(s, j, q) {
    }
  }

  lemma WaitSteps(s: State, st: Step, q: nat)
    requires Inv(s) && Enabled(s, st) && q < |s.proc| && ProcOk(s, st.p)
    requires st.WaitBegins? || st.Look? || st.CopyFails? || st.GiveUp? || st.Sleep? || st.Resume?
    ensures ProcOk(Apply(s, st), q)
  {
    assert ProcOk(s, q);
    var t := Apply(s, st);
    forall j | 0 <= j < |s.proc| ensures IsChild(t, j, q) ==> IsChild(s, j, q) {
    }
  }

  /** The steps that are not a wakeup, or a turn of `reparent` with its wakeup. */
  predicate PlainStep(st: Step) {
    !st.Reparent? && !st.WakeParent? && !st.Kill?
  }

  lemma ProcStep(s: State, st: Step, q: nat)
    requires Inv(s) && Enabled(s, st) && q < |s.proc| && ProcOk(s, st.p) && PlainStep(st)
    ensures ProcOk(Apply(s, st), q)
  {
    if ForkStep(st) {
      ForkFamily(s, st, q);
      ForkMaker(s, st, q);
      ForkLock(s, st, q);
    } else if st.Die? {
      DieStep(s, st, q);
    } else if st.ExitBegins? {
      ExitStep(s, st, q);
    } else if st.Reap? {
      ReapStep(s, st, q);
    } else {
      WaitSteps(s, st, q);
    }
  }

  lemma PidStep(s: State, st: Step, i: nat, j: nat)
    requires Inv(s) && Enabled(s, st) && i < j < |s.proc| && ProcOk(s, st.p) && (ForkStep(st) || st.Die? || st.Reap?)
    ensures PidsDiffer(Apply(s, st), i, j)
  {
    assert PidsDiffer(s, i, j) && ProcOk(s, i) && ProcOk(s, j);
  }

  /** Steps that change neither pids nor statuses. */
  lemma SamePids(s: State, t: State)
    requires Inv(s) && |t.proc| == |s.proc|
    requires forall i :: 0 <= i < |s.proc| ==> t.proc[i].status == s.proc[i].status && t.proc[i].pid == s.proc[i].pid
    ensures forall i, j {:trigger PidsDiffer(t, i, j)} :: 0 <= i < j < |t.proc| ==> PidsDiffer(t, i, j)
  {
    forall i, j | 0 <= i < j < |t.proc| ensures PidsDiffer(t, i, j) {
      assert PidsDiffer(s, i, j);
    }
  }

  lemma PidSteps(s: State, st: Step)
    requires Inv(s) && Enabled(s, st) && ProcOk(s, st.p) && PlainStep(st)
    ensures var t := Apply(s, st);
      |t.proc| == |s.proc| && forall i, j {:trigger PidsDiffer(t, i, j)} :: 0 <= i < j < |t.proc| ==> PidsDiffer(t, i, j)
  {
    var t := Apply(s, st);
    if ForkStep(st) || st.Die? || st.Reap? {
      forall i, j | 0 <= i < j < |t.proc| ensures PidsDiffer(t, i, j) {
        PidStep(s, st, i, j);
      }
    } else {
      SamePids(s, t);
    }
  }

  lemma HistoryStep(s: State, st: Step)
    requires Inv(s) && Enabled(s, st) && ProcOk(s, st.p) && PlainStep(st)
    ensures HistoryOk(Apply(s, st)) && AliveAt(Apply(s, st), INIT)
  {
    assert ProcOk(s, INIT);
    if st.Reap? {
      assert ProcOk(s, s.proc[st.p].pc.k);
    }
  }

  // ---- sleeping in wait ----

  lemma ForkSleep(s: State, st: Step, q: nat)
    requires Inv(s) && Enabled(s, st) && q < |s.proc| && ProcOk(s, st.p) && ProcOk(s, q) && SleepOk(s, q) && ForkStep(st)
    ensures SleepOk(Apply(s, st), q)
  {
    var t := Apply(s, st);
    forall j | 0 <= j < |s.proc| && DeadChild(t, j, q) ensures DeadChild(s, j, q) {
      assert ProcOk(s, j);
    }
  }

  /** A process becomes a zombie when its parent does not sleep, and nobody scans. */
  lemma DieSleep(s: State, st: Step, q: nat)
    requires Inv(s) && Enabled(s, st) && q < |s.proc| && ProcOk(s, st.p) && ProcOk(s, q) && SleepOk(s, q) && SleepOk(s, st.p) && st.Die?
    ensures SleepOk(Apply(s, st), q)
  {
    var t := Apply(s, st);
    forall j | 0 <= j < |s.proc| && DeadChild(t, j, q) ensures DeadChild(s, j, q) || j == st.p {
    }
  }

  lemma WaitSleep(s: State, st: Step, q: nat)
    requires Inv(s) && Enabled(s, st) && q < |s.proc| && ProcOk(s, st.p) && ProcOk(s, q) && SleepOk(s, q)
    requires st.ExitBegins? || st.WaitBegins? || st.Look? || st.Reap? || st.CopyFails? || st.GiveUp? || st.Sleep? || st.Resume?
    ensures SleepOk(Apply(s, st), q)
  {
    var t := Apply(s, st);
    forall j | 0 <= j < |s.proc| && DeadChild(t, j, q) ensures DeadChild(s, j, q) {
    }
  }

  // ---- wakeups ----

  lemma WakeProc(s: State, w: nat, q: nat)
    requires Inv(s) && w < |s.proc| && s.proc[w].pc.Asleep? && q < |s.proc| && ProcOk(s, w) && ProcOk(s, q) && SleepOk(s, q)
    ensures var t := Go(s, w, Woken); ProcOk(t, q) && SleepOk(t, q)
  {
    var t := Go(s, w, Woken);
    forall j | 0 <= j < |s.proc| ensures IsChild(t, j, q) == IsChild(s, j, q) && DeadChild(t, j, q) == DeadChild(s, j, q) {
    }
  }

  lemma WakeInv(s: State, w: nat)
    requires Inv(s)
    ensures Inv(Wake(s, w))
  {
    if w < |s.proc| && s.proc[w].pc.Asleep? {
      var t := Wake(s, w);
      assert ProcOk(s, w);
      forall q | 0 <= q < |t.proc| ensures ProcOk(t, q) && SleepOk(t, q) {
        assert ProcOk(s, q) && SleepOk(s, q);
        WakeProc(s, w, q);
      }
      SamePids(s, t);
    }
  }

  /** Process p is in the loop of `reparent`, at a child only if init does not sleep. */
  ghost predicate InReparent(s: State, p: nat) {
    && Inv(s) && p < |s.proc| && s.proc[p].status.Alive? && s.proc[p].pc.Exiting? && s.proc[p].pc.k < |s.proc| && ProcOk(s, p)
    && (s.proc[s.proc[p].pc.k].parent == Some(p) ==> !s.proc[INIT].pc.Asleep?)
  }

  lemma ReparentFamily(s: State, p: nat, q: nat)
    requires InReparent(s, p) && q < |s.proc| && ProcOk(s, q)
    ensures var t := Reparented(s, p); FamilyOk(t, q) && MakerOk(t, q) && PidOk(t, q)
  {
  }

  lemma ReparentLock(s: State, p: nat, q: nat)
    requires InReparent(s, p) && q < |s.proc| && ProcOk(s, q) && SleepOk(s, q)
    ensures var t := Reparented(s, p); LockOk(t, q) && SleepOk(t, q)
  {
    var t := Reparented(s, p);
    forall j | 0 <= j < |s.proc| ensures IsChild(t, j, q) ==> IsChild(s, j, q) || (q == INIT && j == s.proc[p].pc.k && IsChild(s, j, p)) {
    }
    forall j | 0 <= j < |s.proc| ensures DeadChild(t, j, q) ==> DeadChild(s, j, q) || (q == INIT && IsChild(s, s.proc[p].pc.k, p)) {
    }
  }

  lemma ReparentInv(s: State, p: nat)
    requires InReparent(s, p)
    ensures Inv(Reparented(s, p))
  {
    var t := Reparented(s, p);
    forall q | 0 <= q < |t.proc| ensures ProcOk(t, q) && SleepOk(t, q) {
      assert ProcOk(s, q) && SleepOk(s, q);
      ReparentFamily(s, p, q);
      ReparentLock(s, p, q);
    }
    SamePids(s, t);
  }

  /** `exit` after the wakeup of the parent. */
  ghost predicate ParentWoken(s: State, p: nat) {
    && Inv(s) && p < |s.proc| && s.proc[p].status.Alive? && s.proc[p].pc == Exiting(|s.proc|) && ProcOk(s, p)
    && (s.proc[p].parent.Some? && s.proc[p].parent.value < |s.proc| ==> !s.proc[s.proc[p].parent.value].pc.Asleep?)
  }

  lemma LeavingProc(s: State, p: nat, q: nat)
    requires ParentWoken(s, p) && q < |s.proc| && ProcOk(s, q) && SleepOk(s, q)
    ensures var t := Go(s, p, Leaving); ProcOk(t, q) && SleepOk(t, q)
  {
    var t := Go(s, p, Leaving);
    forall j | 0 <= j < |s.proc| ensures IsChild(t, j, q) == IsChild(s, j, q) && DeadChild(t, j, q) == DeadChild(s, j, q) {
    }
  }

  lemma LeavingInv(s: State, p: nat)
    requires ParentWoken(s, p)
    ensures Inv(Go(s, p, Leaving))
  {
    var t := Go(s, p, Leaving);
    forall q | 0 <= q < |t.proc| ensures ProcOk(t, q) && SleepOk(t, q) {
      assert ProcOk(s, q) && SleepOk(s, q);
      LeavingProc(s, p, q);
    }
    SamePids(s, t);
  }

  // ---- every step ----

  lemma PlainInv(s: State, st: Step)
    requires Inv(s) && Enabled(s, st) && PlainStep(st)
    ensures Inv(Apply(s, st))
  {
    assert ProcOk(s, st.p) && SleepOk(s, st.p);
    var t := Apply(s, st);
    PidSteps(s, st);
    HistoryStep(s, st);
    forall q | 0 <= q < |t.proc| ensures ProcOk(t, q) && SleepOk(t, q) {
      assert ProcOk(s, q) && SleepOk(s, q);
      ProcStep(s, st, q);
      if ForkStep(st) {
        ForkSleep(s, st, q);
      } else if st.Die? {
        DieSleep(s, st, q);
      } else {
        WaitSleep(s, st, q);
      }
    }
  }

  lemma StepInv(s: State, st: Step)
    requires Inv(s) && Enabled(s, st)
    ensures Inv(Apply(s, st))
  {
    var p := st.p;
    assert ProcOk(s, p);
    if st.Kill? {
      WakeInv(s, st.q);
    } else if st.Reparent? {
      var u := if s.proc[s.proc[p].pc.k].parent == Some(p) then Wake(s, INIT) else s;
      WakeInv(s, INIT);
      assert ProcOk(u, p);
      ReparentInv(u, p);
    } else if st.WakeParent? {
      var u := if s.proc[p].parent.Some? then Wake(s, s.proc[p].parent.value) else s;
      if s.proc[p].parent.Some? {
        WakeInv(s, s.proc[p].parent.value);
      }
      assert ProcOk(u, p);
      LeavingInv(u, p);
    } else {
      PlainInv(s, st);
    }
  }

  // ---- runs ----

  /** The steps lead from s to t. */
  predicate Leads(s: State, steps: seq<Step>, t: State)
    decreases |steps|
  {
    if steps == [] then s == t
    else Enabled(s, steps[0]) && Leads(Apply(s, steps[0]), steps[1..], t)
  }

  ghost predicate Reachable(n: nat, s: State) {
    0 < n && exists steps :: Leads(Init(n), steps, s)
  }

  lemma {:induction false} LeadsInv(s: State, steps: seq<Step>, t: State)
    requires Inv(s) && Leads(s, steps, t)
    ensures Inv(t)
    decreases |steps|
  {
    if steps != [] {
      StepInv(s, steps[0]);
      LeadsInv(Apply(s, steps[0]), steps[1..], t);
    }
  }

  lemma ReachableInv(n: nat, s: State)
    requires Reachable(n, s)
    ensures Inv(s)
  {
    var steps :| Leads(Init(n), steps, s);
    InitInv(n);
    LeadsInv(Init(n), steps, s);
  }

  /** A parent is always alive, and every zombie has one that can reap it. */
  lemma LiveParents(n: nat, s: State, q: nat)
    requires Reachable(n, s) && q < |s.proc|
    ensures s.proc[q].parent.Some? ==> AliveAt(s, s.proc[q].parent.value)
    ensures s.proc[q].status.Zombie? ==> s.proc[q].parent.Some?
  {
    ReachableInv(n, s);
    assert ProcOk(s, q);
    assert q == INIT ==> !s.proc[q].status.Zombie?;
  }

  /** `wait` frees a child that has exited and was not freed before, and gives out the status
      that it exited with. */
  lemma ReapedOnce(n: nat, s: State, st: Step)
    requires Reachable(n, s) && Enabled(s, st) && st.Reap?
    ensures var child := s.proc[s.proc[st.p].pc.k];
      child.pid !in s.reaped && child.pid in s.exited && child.xstate == s.exited[child.pid]
  {
    ReachableInv(n, s);
    assert ProcOk(s, s.proc[st.p].pc.k);
  }

  /** `wait` gives up for lack of children only when there are none. */
  lemma NoChildren(n: nat, s: State, st: Step, q: nat)
    requires Reachable(n, s) && Enabled(s, st) && st.GiveUp? && !s.proc[st.p].pc.kids && q < |s.proc|
    ensures s.proc[q].parent != Some(st.p)
  {
    ReachableInv(n, s);
    assert ProcOk(s, st.p) && !IsChild(s, q, st.p);
  }

  /** No lost wakeup: a process that sleeps in `wait` has no zombie child; what it waits for is
      still to come. */
  lemma NoMissedExit(n: nat, s: State, p: nat, q: nat)
    requires Reachable(n, s) && p < |s.proc| && s.proc[p].pc.Asleep? && q < |s.proc| && s.proc[q].parent == Some(p)
    ensures !s.proc[q].status.Zombie?
  {
    ReachableInv(n, s);
    assert SleepOk(s, p) && !DeadChild(s, q, p);
  }

  /** Processes that exist have different pids. */
  lemma DistinctPids(n: nat, s: State, i: nat, j: nat)
    requires Reachable(n, s) && i < |s.proc| && j < |s.proc| && i != j
    requires !s.proc[i].status.Unused? && !s.proc[j].status.Unused?
    ensures s.proc[i].pid != s.proc[j].pid
  {
    ReachableInv(n, s);
    Differ(s, i, j);
  }
}
