/** Good states in which a step goes wrong: one for every clause of the condition under which steps are
    safe. */
module ProcExamples {
  import opened Base
  import opened ProcSpec
  import opened ProcQueueLaws
  import opened ProcInv
  import opened ProcSteps
  import opened ProcRuns
  import opened ProcFates
  import opened ProcTheorems

  /** The step panics or ends in a state that breaks the invariant. */
  ghost predicate Harms(s: Sys, e: Event) {
    Enabled(s, e) && !(Step(s, e).Ok? && Inv(Step(s, e).value))
  }

  /** All entries from `n` on. */
  function Range(n: nat): seq<Slot>
    requires n <= 256
  {
    seq(256 - n, i requires 0 <= i < 256 - n => n + i)
  }

  lemma RangeMembers(n: nat, p: Slot)
    requires n <= 256
    ensures NoDup(Range(n)) && (p in Range(n) <==> p >= n)
  {
    if p >= n { assert Range(n)[p - n] == p; }
  }

  /** Queues with at most one zombie and at most one waiting process. */
  function Few(free: seq<Slot>, z: Ptr, w: Ptr): Queues {
    seq(27, k =>
      if k == FREE then free
      else if k == ZOMBIE && z != NULL then [z]
      else if k == WAITING && w != NULL then [w]
      else [])
  }

  /** Every process is where its state says. */
  ghost predicate Suits(t: Table, free: seq<Slot>, z: Ptr, w: Ptr, p: Slot) {
    && (p in free <==> Home(t[p]) == FREE) && (p == z <==> Home(t[p]) == ZOMBIE) && (p == w <==> Home(t[p]) == WAITING)
    && (Home(t[p]) == FREE || Home(t[p]) == ZOMBIE || Home(t[p]) == WAITING || Home(t[p]) == NULL)
  }

  lemma FewFiled(t: Table, free: seq<Slot>, z: Ptr, w: Ptr)
    requires NoDup(free) && forall p: Slot :: Suits(t, free, z, w, p)
    ensures Filed(t, Few(free, z, w), {})
  {
    hide Few, Suits, Home;
    var q := Few(free, z, w);
    forall p: Slot, k: Qid ensures p in q[k] <==> Home(t[p]) == k { FewPlaced(t, free, z, w, p, k); }
    forall k: Qid ensures Sorted(OrderOf(k), t, q[k]) && NoDup(q[k]) { FewSorted(t, free, z, w, k); }
  }

  lemma FewPlaced(t: Table, free: seq<Slot>, z: Ptr, w: Ptr, p: Slot, k: Qid)
    requires Suits(t, free, z, w, p)
    ensures p in Few(free, z, w)[k] <==> Home(t[p]) == k
  {
    hide Home;
  }

  lemma FewSorted(t: Table, free: seq<Slot>, z: Ptr, w: Ptr, k: Qid)
    requires NoDup(free)
    ensures var q := Few(free, z, w); Sorted(OrderOf(k), t, q[k]) && NoDup(q[k])
  {
  }

  /** init runs alone. */
  function Alone(nextPid: nat): Sys {
    var init := BLANK.(pid := 1, state := Running, ticks := TICKS_PER_PROCESS);
    Sys(seq(256, i => if i == 0 then init else BLANK),
        Few(Range(1), NULL, NULL), 0, 0, nextPid, 0, [])
  }

  lemma AloneGood(nextPid: nat)
    requires 1 < nextPid < PID_MOD
    ensures Inv(Alone(nextPid))
  {
    hide Filed, Few, Range;
    var s := Alone(nextPid);
    forall p: Slot ensures Suits(s.t, Range(1), NULL, NULL, p) && ProperAt(s.t[p], p == 0) { RangeMembers(1, p); }
    RangeMembers(1, 0);
    FewFiled(s.t, Range(1), NULL, NULL);
  }

  /** An exit of init panics; a fork whose address space cannot be cloned leaves a PCB that is in no queue;
      and the fork that would issue pid 65535 wraps the pid counter. */
  lemma UnsafeAlone()
    ensures var s := Alone(2); Inv(s) && Harms(s, Do(Exit(0))) && Harms(s, Do(Fork(false))) && !Harms(s, Do(Fork(true)))
    ensures var s := Alone(PID_MOD - 1); Inv(s) && Harms(s, Do(Fork(true)))
  {
    hide Inv, Step;
    AloneGood(2);
    AloneGood(PID_MOD - 1);
    StepExact(Alone(2), Do(Exit(0)));
    StepExact(Alone(2), Do(Fork(false)));
    StepExact(Alone(2), Do(Fork(true)));
    StepExact(Alone(PID_MOD - 1), Do(Fork(true)));
  }

  /** init runs and has a zombie child. */
  function Parent(): Sys {
    var init := BLANK.(pid := 1, state := Running, ticks := TICKS_PER_PROCESS);
    var child := BLANK.(pid := 2, parent := 0, state := Zombie);
    Sys(seq(256, i => if i == 0 then init else if i == 1 then child else BLANK),
        Few(Range(2), 1, NULL), 0, 0, 3, 0, [])
  }

  /** waitpid that finds its zombie at once frees the zombie's PCB but leaves it in the zombie queue. */
  lemma UnsafeReap()
    ensures Inv(Parent()) && Harms(Parent(), Do(Waitpid(0, 8)))
  {
    hide Inv, FirstMatch, Step;
    ParentGood();
    var s := Parent();
    assert s.t[1].state.Zombie? && s.t[1].parent == 0;
    StepExact(s, Do(Waitpid(0, 8)));
  }

  lemma ParentGood()
    ensures Inv(Parent())
  {
    hide Filed, Family, Few, Range;
    var s := Parent();
    forall p: Slot ensures Suits(s.t, Range(2), 1, NULL, p) && ProperAt(s.t[p], p == 0) { RangeMembers(2, p); }
    RangeMembers(2, 0);
    FewFiled(s.t, Range(2), 1, NULL);
    ParentFamily();
  }

  lemma ParentFamily()
    ensures var s := Parent(); Family(s.t, s.init, s.nextPid)
  {
    var t := Parent().t;
    forall p: Slot | Live(t[p]) ensures p <= 1 && t[p].pid == p + 1 {}
    assert t[1].parent == 0 && t[0].pid == 1 && Alive(t[0]);
  }

  /** init waits for pid 9; the running process has a zombie child with another pid. */
  function Grandparent(): Sys {
    var init := BLANK.(pid := 1, state := Blocked, syscall := SYS_waitpid, arg1 := 9);
    var parent := BLANK.(pid := 2, parent := 0, state := Running, ticks := TICKS_PER_PROCESS);
    var child := BLANK.(pid := 3, parent := 1, state := Zombie);
    Sys(seq(256, i => if i == 0 then init else if i == 1 then parent else if i == 2 then child else BLANK),
        Few(Range(3), 2, 0), 1, 0, 4, 0, [])
  }

  /** When the running process exits, init is taken off the waitpid queue for a zombie it does not want,
      and stays blocked in no queue. */
  lemma UnsafeStrand()
    ensures Inv(Grandparent()) && Harms(Grandparent(), Do(Exit(0)))
  {
    hide Inv, LastZombie, Step;
    GrandparentGood();
    var s := Grandparent();
    assert s.t[2].state.Zombie? && s.t[2].parent == 1;
    var z := LastZombie(s.t, 1, 256);
    assert z >= 2 && s.t[z].parent == 1;
    StepExact(s, Do(Exit(0)));
  }

  lemma GrandparentGood()
    ensures Inv(Grandparent())
  {
    hide Filed, Family, Few, Range;
    var s := Grandparent();
    forall p: Slot ensures Suits(s.t, Range(3), 2, 0, p) && ProperAt(s.t[p], p == 1) { RangeMembers(3, p); }
    RangeMembers(3, 0);
    FewFiled(s.t, Range(3), 2, 0);
    GrandparentFamily();
  }

  lemma GrandparentFamily()
    ensures var s := Grandparent(); Family(s.t, s.init, s.nextPid)
  {
    var t := Grandparent().t;
    forall p: Slot | Live(t[p]) ensures p <= 2 && t[p].pid == p + 1 {}
    assert t[1].parent == 0 && t[2].parent == 1 && t[0].pid == 1 && t[1].pid == 2 && Alive(t[0]) && Alive(t[1]);
  }

  // ---------------------------------------------------------------- a wake-up time that does not fit

  /** At tick 5, init asks to sleep for as long as it can: the next tick wakes it. */
  lemma LongSleepShort()
    ensures var s, e := Alone(2).(now := 5), Do(Sleep(U64 - 1));
      && Inv(s) && Safe(s, e) && Step(s, e).Ok?
      && OnTick(Step(s, e).value).Ok? && Runnable(OnTick(Step(s, e).value).value.t[0])
  {
    hide Inv, DoSleep, OnTick;
    var s, ms := Alone(2).(now := 5), U64 - 1;
    AloneGood(2);
    ClockKeeps(Alone(2), 5);
    StepExact(s, Do(Sleep(ms)));
    var s' := Step(s, Do(Sleep(ms))).value;
    SleepSets(s, ms, s');
    forall x: Slot | x != 0 ensures s'.t[x].state.Unused? { SleepUndisturbed(Enter(s, Sleep(ms)), 0, ms, x); }
    OnlySleeper(s', 0);
    WrapWakesAtOnce(s, ms, s');
  }

  lemma OnlySleeper(s: Sys, c: Slot)
    requires Inv(s) && Asleep(s.t[c]) && forall x: Slot :: x != c ==> s.t[x].state.Unused?
    ensures s.q[SLEEPING] != [] && s.q[SLEEPING][0] == c
  {
    hide Family;
    assert Home(s.t[c]) == SLEEPING;
    var x := s.q[SLEEPING][0];
    assert x in s.q[SLEEPING];
  }
}
