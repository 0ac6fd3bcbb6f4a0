/** The user-level thread library (user/uthread.c) with the set-up in `_main` (user/ulib.c):
    a table of 16 slots and a cooperative round-robin scheduler. */
module Uthread {

  const SLOTS := 16

  datatype Slot = Null | Runnable | Running | Exited

  type Table = t: seq<Slot> | |t| == SLOTS witness seq(SLOTS, i => Null)

  /** How many steps from slot `from`, round the table, to slot `to`; a full round to itself. */
  function Distance(from: nat, to: nat): (d: nat)
    requires from < SLOTS && to < SLOTS
    ensures 1 <= d <= SLOTS
  {
    if from < to then to - from else to + SLOTS - from
  }

  /** The slot d steps on: (from + d) % 16. */
  function Ahead(from: nat, d: nat): (to: nat)
    requires from < SLOTS && 1 <= d <= SLOTS
    ensures to < SLOTS && Distance(from, to) == d && to == (from + d) % SLOTS
  {
    if from + d < SLOTS then from + d else from + d - SLOTS
  }

  /** Slot n is the runnable thread that comes first after c. */
  predicate NextAfter(t: Table, c: nat, n: nat)
    requires c < SLOTS
  {
    n < SLOTS && t[n] == Runnable && forall j :: 0 <= j < SLOTS && t[j] == Runnable ==> Distance(c, n) <= Distance(c, j)
  }

  class Library {
    var threads: Table
    var current: nat

    /** Main sits in slot 0.  While a created thread is current, main is runnable, so there is
        always a thread to switch to. */
    ghost predicate Valid()
      reads this
    {
      && current < SLOTS && threads[0] != Null && threads[0] != Exited
      && threads[current] != Null && threads[current] != Exited
      && (current != 0 ==> threads[0] == Runnable && threads[current] == Runnable)
      && forall j :: 1 <= j < SLOTS ==> threads[j] != Running
    }

    /** `_main` up to the call of main. */
    constructor ()
      ensures Valid() && current == 0 && threads[0] == Running && forall j :: 1 <= j < SLOTS ==> threads[j] == Null
    {
      threads := seq(SLOTS, i => if i == 0 then Running else Null);
      current := 0;
    }

    /** `tsched`: the next runnable thread round the table becomes current; if there is none,
        nothing changes. */
    method Tsched() returns (switched: bool)
      requires current < SLOTS
      modifies this`current
      ensures current < SLOTS
      ensures switched ==> NextAfter(threads, old(current), current)
      ensures !switched ==> current == old(current) && forall j :: 0 <= j < SLOTS ==> threads[j] != Runnable
    {
      var c := current;
      var i := 1;
      while i < 17
        invariant 1 <= i <= 17 && current == c
        invariant forall j {:trigger Distance(c, j)} :: 0 <= j < SLOTS && Distance(c, j) < i ==> threads[j] != Runnable
      {
        var next := (c + i) % SLOTS;
        assert next == Ahead(c, i);
        if threads[next] == Runnable {
          current := next;
          forall j | 0 <= j < SLOTS && threads[j] == Runnable ensures Distance(c, next) <= Distance(c, j) {
          }
          return true;
        }
        forall j | 0 <= j < SLOTS && Distance(c, j) == i ensures j == next {
        }
        i := i + 1;
      }
      forall j | 0 <= j < SLOTS ensures threads[j] != Runnable {
        assert Distance(c, j) < 17;
      }
      return false;
    }

    /** `tyield` */
    method Tyield()
      requires Valid()
      modifies this
      ensures Valid() && threads == old(threads)[old(current) := Runnable] && NextAfter(threads, old(current), current)
    {
      threads := threads[current := Runnable];
      var switched := Tsched();
    }

    /** The end of `thread_wrapper`: a created thread is done, and another one runs. */
    method ThreadExit()
      requires Valid() && current != 0
      modifies this
      ensures Valid() && threads == old(threads)[old(current) := Exited] && NextAfter(threads, old(current), current)
      ensures current != old(current)
    {
      threads := threads[current := Exited];
      var switched := Tsched();
      assert threads[0] == Runnable;
    }

    /** The table part of `tcreate`: the first empty slot, if there is one. */
    method Tcreate() returns (ok: bool, i: nat)
      requires Valid()
      modifies this`threads
      ensures Valid()
      ensures ok ==> i < SLOTS && old(threads)[i] == Null && threads == old(threads)[i := Runnable]
      ensures ok ==> forall j :: 0 <= j < i ==> old(threads)[j] != Null
      ensures !ok ==> threads == old(threads) && forall j :: 0 <= j < SLOTS ==> threads[j] != Null
    {
      i := 0;
      while i < SLOTS
        invariant 0 <= i <= SLOTS && threads == old(threads)
        invariant forall j :: 0 <= j < i ==> threads[j] != Null
      {
        if threads[i] == Null {
          threads := threads[i := Runnable];
          return true, i;
        }
        i := i + 1;
      }
      return false, i;
    }
  }

  // ---- fairness ----

  /** One switch: the table may have changed in any way since the last one. */
  datatype Switch = Switch(table: Table, from: nat, to: nat)

  predicate SwitchOk(s: Switch) {
    s.from < SLOTS && NextAfter(s.table, s.from, s.to)
  }

  /** A run of calls of `tsched`, each from the thread that the one before switched to. */
  ghost predicate Run(r: seq<Switch>) {
    && (forall k {:trigger r[k]} :: 0 <= k < |r| ==> SwitchOk(r[k]))
    && (forall k {:trigger Follows(r, k)} :: 0 <= k < |r| - 1 ==> Follows(r, k))
  }

  predicate Follows(r: seq<Switch>, k: nat)
    requires k + 1 < |r|
  {
    r[k + 1].from == r[k].to
  }

  /** A runnable thread that is not switched to has come closer. */
  lemma Closer(s: Switch, j: nat)
    requires SwitchOk(s) && j < SLOTS && s.table[j] == Runnable && s.to != j
    ensures Distance(s.to, j) < Distance(s.from, j)
  {
    assert Distance(s.from, s.to) <= Distance(s.from, j);
  }

  /** A thread that stays runnable runs within as many calls of `tsched` as it is slots away,
      so within 16. */
  lemma {:induction false} RunsWithin(r: seq<Switch>, j: nat)
    requires Run(r) && r != [] && j < SLOTS && Distance(r[0].from, j) <= |r|
    requires forall k {:trigger r[k]} :: 0 <= k < |r| ==> r[k].table[j] == Runnable
    ensures exists k :: 0 <= k < Distance(r[0].from, j) && k < |r| && r[k].to == j
    decreases |r|
  {
    assert SwitchOk(r[0]);
    if r[0].to != j {
      Closer(r[0], j);
      var rest := r[1..];
      assert Follows(r, 0) && rest[0] == r[1];
      forall k | 0 <= k < |rest| - 1 ensures Follows(rest, k) {
        assert Follows(r, k + 1);
      }
      RunsWithin(rest, j);
      var k :| 0 <= k < Distance(rest[0].from, j) && k < |rest| && rest[k].to == j;
      assert r[k + 1].to == j;
    }
  }

  lemma Fair(r: seq<Switch>, j: nat)
    requires Run(r) && |r| == SLOTS && j < SLOTS
    requires forall k {:trigger r[k]} :: 0 <= k < |r| ==> r[k].table[j] == Runnable
    ensures exists k :: 0 <= k < SLOTS && r[k].to == j
  {
    assert SwitchOk(r[0]);
    RunsWithin(r, j);
  }
}
