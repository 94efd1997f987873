/** Every step keeps the invariant and raises no panic exactly when a condition on the state before
    it holds; hence both hold in every state of every run of such steps. */
module ProcSteps {
  import opened Base
  import opened ProcSpec
  import opened ProcQueueLaws
  import opened ProcInv

  // ---------------------------------------------------------------- tick

  ghost predicate AllOf(ps: seq<Slot>, f: set<Slot>) {
    forall p: Slot :: p in f <==> p in ps
  }

  lemma ScheduleKeeps(s: Sys, run: Ptr, p: Slot, f: set<Slot>)
    requires Mid(s, run, f) && p in f && s.t[p].state.Blocked? && p != run
    ensures Schedule(s, p).Ok?
    ensures var s' := Schedule(s, p).value;
      && Mid(s', run, f - {p})
      && s' == s.(t := s'.t, q := s'.q, log := s'.log)
      && s'.q == s.q[READY := s'.q[READY]]
      && s'.t == s.t[p := s.t[p].(state := Ready, syscall := 0)]
  {
    hide Filed, Family;
    ScheduleFiles(s, p, f);
    var s' := Schedule(s, p).value;
    FamilyStable(s.t, s'.t, s.init, s.nextPid);
    forall x: Slot | x !in f - {p} ensures ProperAt(s'.t[x], x == run) {
      if x != p { assert ProperAt(s.t[x], x == run); }
    }
  }

  ghost predicate AllAsleep(t: Table, run: Ptr, ps: seq<Slot>) {
    forall p :: p in ps ==> t[p].state.Blocked? && p != run
  }

  /** The table once every process in `ps` has been made ready. */
  ghost predicate Awoken(t: Table, t': Table, ps: seq<Slot>) {
    forall p: Slot :: t'[p] == if p in ps then t[p].(state := Ready, syscall := 0) else t[p]
  }

  /** Scheduling a run of unqueued sleepers puts each in the ready queue and touches nothing else. */
  lemma {:induction false} ScheduleAllKeeps(s: Sys, run: Ptr, ps: seq<Slot>, f: set<Slot>)
    requires Mid(s, run, f) && NoDup(ps) && AllOf(ps, f) && AllAsleep(s.t, run, ps)
    ensures ScheduleAll(s, ps).Ok?
    ensures var s' := ScheduleAll(s, ps).value;
      && Mid(s', run, {})
      && s' == s.(t := s'.t, q := s'.q, log := s'.log)
      && s'.q == s.q[READY := s'.q[READY]]
      && Awoken(s.t, s'.t, ps)
    decreases |ps|
  {
    hide Mid, Schedule;
    if ps == [] {
      assert f == {};
    } else {
      var p := ps[0];
      Rest(ps);
      ScheduleKeeps(s, run, p, f);
      var s1 := Schedule(s, p).value;
      ScheduleAllKeeps(s1, run, ps[1..], f - {p});
      AwokenMore(s.t, s1.t, ScheduleAll(s1, ps[1..]).value.t, ps);
    }
  }

  lemma AwokenMore(t: Table, t1: Table, t2: Table, ps: seq<Slot>)
    requires NoDup(ps) && ps != [] && t1 == t[ps[0] := t[ps[0]].(state := Ready, syscall := 0)]
    requires Awoken(t1, t2, ps[1..])
    ensures Awoken(t, t2, ps)
  {
    Rest(ps);
  }

  lemma Rest(ps: seq<Slot>)
    requires NoDup(ps) && ps != []
    ensures NoDup(ps[1..]) && forall x: Slot :: x in ps[1..] <==> x in ps && x != ps[0]
  {
  }

  /** The woken are the longest prefix of the sleep queue all of whose members are overdue. */
  lemma {:induction false} DuePrefixLongest(t: Table, xs: seq<Slot>, now: nat)
    ensures var n := DuePrefix(t, xs, now);
      && (forall i :: 0 <= i < n ==> t[xs[i]].wakeup < now)
      && (n < |xs| ==> t[xs[n]].wakeup >= now)
  {
    if xs != [] && t[xs[0]].wakeup < now {
      DuePrefixLongest(t, xs[1..], now);
      forall i | 0 < i < |xs| ensures xs[i] == xs[1..][i - 1] {}
    }
  }

  /** Taking a prefix off a queue leaves exactly its members between queues. */
  lemma {:induction false} TakePrefix(t: Table, q: Queues, k: Qid, n: nat, f: set<Slot>)
    requires Filed(t, q, {}) && n <= |q[k]| && AllOf(q[k][..n], f)
    ensures Filed(t, q[k := q[k][n..]], f)
  {
    var q' := q[k := q[k][n..]];
    assert NoDup(q[k]);
    forall p: Slot, j: Qid ensures p in q'[j] <==> p !in f && Home(t[p]) == j {
      if j == k {
        if p in q[k] {
          var i :| 0 <= i < |q[k]| && q[k][i] == p;
          assert i < n ==> q[k][..n][i] == p;
          assert i >= n ==> q[k][n..][i - n] == p;
        }
      } else if p in f {
        assert p in q[k];
      }
    }
    assert Sorted(OrderOf(k), t, q[k]);
  }

  lemma SleepersOut(s: Sys, n: nat) returns (f: set<Slot>)
    requires Inv(s) && n <= |s.q[SLEEPING]|
    ensures var ps := s.q[SLEEPING][..n];
      AllOf(ps, f) && NoDup(ps) && AllAsleep(s.t, s.current, ps)
    ensures Mid(s.(q := s.q[SLEEPING := s.q[SLEEPING][n..]]), s.current, f)
  {
    var xs := s.q[SLEEPING];
    f := set p: Slot | p in xs[..n];
    assert AllOf(xs[..n], f);
    TakePrefix(s.t, s.q, SLEEPING, n, f);
    assert NoDup(xs);
    forall p | p in xs[..n] ensures s.t[p].state.Blocked? && p != s.current {
      assert p in xs;
      assert ProperAt(s.t[p], p == s.current);
    }
    hide Filed, Family;
  }

  lemma WakeKeeps(s: Sys)
    requires Inv(s)
    ensures WakeSleepers(s).Ok?
    ensures var s' := WakeSleepers(s).value;
      var n := DuePrefix(s.t, s.q[SLEEPING], s.now);
      && Inv(s')
      && s' == s.(t := s'.t, q := s'.q, log := s'.log)
      && s'.q == s.q[READY := s'.q[READY]][SLEEPING := s.q[SLEEPING][n..]]
      && Awoken(s.t, s'.t, s.q[SLEEPING][..n])
  {
    hide Mid, ScheduleAll;
    var xs := s.q[SLEEPING];
    var n := DuePrefix(s.t, xs, s.now);
    var f := SleepersOut(s, n);
    ScheduleAllKeeps(s.(q := s.q[SLEEPING := xs[n..]]), s.current, xs[..n], f);
  }

  lemma ChargeKeeps(s: Sys)
    requires Inv(s)
    ensures ChargeTick(s).Ok? && Inv(ChargeTick(s).value)
  {
    if s.current != NULL {
      var p: Slot := s.current;
      assert ProperAt(s.t[p], true);
      var s1 := s.Put(p, s.t[p].(ticks := Decrement(s.t[p].ticks)));
      Refile(s.t, s1.t, s.q, {});
      FamilyStable(s.t, s1.t, s.init, s.nextPid);
      forall x: Slot ensures ProperAt(s1.t[x], x == p) { assert ProperAt(s.t[x], x == p); }
      if s1.t[p].ticks < 1 { YieldKeeps(s1, p); }
    }
  }

  /** The running process gives up the processor but stays ready. */
  lemma YieldKeeps(s: Sys, c: Slot)
    requires Mid(s, c, {}) && s.t[c].state.Running?
    ensures Schedule(s, c).Ok? && Dispatch(Schedule(s, c).value.(current := NULL)).Ok?
    ensures Inv(Dispatch(Schedule(s, c).value.(current := NULL)).value)
  {
    Float(s.t, s.q, {}, c);
    assert {} + {c} == {c} && {c} - {c} == {};
    ScheduleFiles(s, c, {c});
    var s1 := Schedule(s, c).value.(current := NULL);
    FamilyStable(s.t, s1.t, s.init, s.nextPid);
    forall x: Slot ensures ProperAt(s1.t[x], x == NULL) { assert ProperAt(s.t[x], x == c); }
    DispatchKeeps(s1);
  }

  lemma ClockKeeps(s: Sys, now: nat)
    requires Inv(s)
    ensures Inv(s.(now := now))
  {
  }

  lemma TickKeeps(s: Sys)
    requires Inv(s)
    ensures OnTick(s).Ok? && Inv(OnTick(s).value)
  {
    hide Inv, WakeSleepers, ChargeTick;
    var s0 := s.(now := (s.now + 1) % U64);
    ClockKeeps(s, s0.now);
    WakeKeeps(s0);
    ChargeKeeps(WakeSleepers(s0).value);
  }

  // ---------------------------------------------------------------- exit

  /** May `v` be turned into a zombie? */
  ghost predicate MayDie(s: Sys, v: Slot) { v != s.init && !Strands(s, v) }

  lemma StrandedBreaks(s: Sys)
    requires Stranded(s)
    ensures !Inv(s)
  {
    assert s.init !in s.q[WAITING];
  }

  lemma ExitExact(s: Sys, c: Slot, code: nat)
    requires Mid(s, c, {c}) && s.current == NULL && Caller(s, c)
    ensures var r := DoExit(s, c, code); (r.Ok? && Inv(r.value)) <==> MayDie(s, c)
  {
    hide Filed, Family, Zombify, Dispatch;
    var s1 := s.Put(c, s.t[c].(exitStatus := code % 256));
    Refile(s.t, s1.t, s.q, {c});
    FamilyStable(s.t, s1.t, s.init, s.nextPid);
    assert Proper(s1.t, c, {c}) by {
      forall x: Slot | x != c ensures ProperAt(s1.t[x], x == c) { assert ProperAt(s.t[x], x == c); }
    }
    SameZombies(s.t, s1.t, c, 256);
    InitImmortal(s1, c, {c});
    if c != s.init {
      if Strands(s1, c) {
        ZombifyStrands(s1, c, c);
        if Zombify(s1, c).Ok? {
          DispatchStranded(Zombify(s1, c).value);
          StrandedBreaks(Dispatch(Zombify(s1, c).value).value);
        }
      } else {
        ZombifyKeeps(s1, c, c);
        DispatchKeeps(Zombify(s1, c).value);
      }
    }
  }

  // ---------------------------------------------------------------- waitpid

  lemma BlockKeeps(s: Sys, c: Slot, k: Qid)
    requires Mid(s, c, {c}) && s.current == NULL && s.t[c].state.Blocked?
    requires Home(s.t[c]) == k && (k == WAITING || k == SLEEPING)
    ensures var r := Enqueue(s, k, c);
      r.Ok? && Dispatch(r.value).Ok? && Inv(Dispatch(r.value).value)
  {
    hide Filed, Family, Dispatch;
    EnqueueFiles(s, k, c, {c});
    var s' := Enqueue(s, k, c).value;
    assert {c} - {c} == {};
    forall x: Slot ensures ProperAt(s'.t[x], x == NULL) {
      if x != c { assert ProperAt(s.t[x], x == c); }
    }
    DispatchKeeps(s');
  }

  /** Reaping a zombie at once frees its entry while it is still in the zombie queue. */
  lemma ReapBreaks(s: Sys, c: Slot, z: Slot, s1: Sys, s': Sys)
    requires z in s.q[ZOMBIE] && z != c && s1.q == s.q && Free(s1, z) == Ok(s')
    ensures forall r: int :: !Inv(Return(s', c, r))
  {
    forall r: int ensures !Inv(Return(s', c, r)) {
      var f := Return(s', c, r);
      assert Home(f.t[z]) == FREE && z in f.q[ZOMBIE];
    }
  }

  lemma WaitExact(s: Sys, c: Slot, pid: nat)
    requires Mid(s, c, {c}) && s.current == NULL && Caller(s, c) && s.t[c].syscall == SYS_waitpid
    ensures var r := DoWaitpid(s, c, pid); (r.Ok? && Inv(r.value)) <==> FirstMatch(s.t, c, pid % PID_MOD, 0) == NULL
  {
    hide Mid, Inv, Free, Dispatch, Enqueue;
    var z := FirstMatch(s.t, c, pid % PID_MOD, 0);
    if z == NULL {
      PutKeeps(s, c, {c}, c, s.t[c].(state := Blocked));
      BlockKeeps(s.Put(c, s.t[c].(state := Blocked)), c, WAITING);
    } else {
      ZombieQueued(s, c, {c}, z);
      var s1 := s.Put(c, s.t[c].(status := s.t[z].exitStatus));
      if Free(s1, z).Ok? { ReapBreaks(s, c, z, s1, Free(s1, z).value); }
    }
  }

  // ---------------------------------------------------------------- sleep and setprio

  lemma NapKeeps(s: Sys, c: Slot)
    requires Mid(s, c, {c}) && s.current == NULL && s.t[c].state.Running? && s.t[c].syscall != SYS_waitpid
    ensures var r := Schedule(s, c); r.Ok? && Dispatch(r.value).Ok? && Inv(Dispatch(r.value).value)
  {
    hide Mid, Inv, Schedule, Dispatch;
    RunnerBack(s, c);
    YieldKeeps(s, c);
    assert Schedule(s, c).value.(current := NULL) == Schedule(s, c).value by { ScheduleCurrent(s, c); }
  }

  /** The sleep queue is ordered by pid, so entering it before or after blocking is the same. */
  lemma EnqueueThenPut(s: Sys, k: Qid, p: Slot, pcb: Pcb)
    requires OrderOf(k).Pid? && pcb.pid == s.t[p].pid && Enqueue(s.Put(p, pcb), k, p).Ok?
    ensures Enqueue(s, k, p).Ok?
    ensures Enqueue(s, k, p).value.Put(p, pcb) == Enqueue(s.Put(p, pcb), k, p).value
  {
    RankPut(Pid, s.t, s.t[p := pcb], s.q[k], pcb.pid);
  }

  lemma SleepKeeps(s: Sys, c: Slot, ms: nat)
    requires Mid(s, c, {c}) && s.current == NULL && Caller(s, c) && s.t[c].syscall == SYS_sleep
    ensures DoSleep(s, c, ms).Ok? && Inv(DoSleep(s, c, ms).value)
  {
    hide Mid, Inv, Schedule, Dispatch;
    if ms == 0 {
      PutKeeps(s, c, {c}, c, s.t[c].(ret := 0));
      NapKeeps(s.Put(c, s.t[c].(ret := 0)), c);
    } else {
      var s1 := s.Put(c, s.t[c].(wakeup := (s.now + ms) % U64));
      var blocked := s1.t[c].(state := Blocked);
      PutKeeps(s, c, {c}, c, s1.t[c]);
      PutKeeps(s1, c, {c}, c, blocked);
      BlockKeeps(s1.Put(c, blocked), c, SLEEPING);
      EnqueueThenPut(s1, SLEEPING, c, blocked);
      assert Enqueue(s1, SLEEPING, c).value.t[c] == s1.t[c];
    }
  }

  lemma ExecKeeps(s: Sys, c: Slot, loaded: bool, argc: nat)
    requires Mid(s, c, {c}) && s.current == NULL && Caller(s, c) && s.t[c].syscall == SYS_exec
    ensures DoExec(s, c, loaded, argc).Ok? && Inv(DoExec(s, c, loaded, argc).value)
  {
    hide Mid, Inv, Schedule, Dispatch;
    if loaded {
      PutKeeps(s, c, {c}, c, s.t[c].(arg1 := argc, arg2 := 0, ret := 0));
      NapKeeps(s.Put(c, s.t[c].(arg1 := argc, arg2 := 0, ret := 0)), c);
    } else {
      RunnerBack(s, c);
      ReturnKeeps(s, c, 1);
    }
  }

  lemma ScheduleCurrent(s: Sys, c: Slot)
    requires Schedule(s, c).Ok?
    ensures Schedule(s, c).value.current == s.current && Schedule(s, c).value.nextPid == s.nextPid
  {
  }

  /** Only the running process changes its priority, so the ready queue stays sorted. */
  lemma SetprioKeeps(s: Sys, c: Slot, prio: nat)
    requires Mid(s, c, {c}) && Caller(s, c) && s.t[c].syscall != SYS_waitpid
    ensures Inv(DoSetprio(s, c, prio))
  {
    hide Mid, Inv;
    var s1 := s.Put(c, s.t[c].(ret := s.t[c].priority, priority := prio % 0x1_0000_0000));
    PutKeeps(s, c, {c}, c, s1.t[c]);
    RunnerBack(s1, c);
    ReturnKeeps(s1, c, 0);
  }
}
