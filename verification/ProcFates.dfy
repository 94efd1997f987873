/** What can happen to a blocked process in a step, and to whom kill can happen. */
module ProcFates {
  import opened Base
  import opened ProcSpec
  import opened ProcQueueLaws
  import opened ProcInv
  import opened ProcSteps
  import opened ProcForkKill
  import opened ProcRuns

  predicate SameButParent(a: Pcb, b: Pcb) { b == a.(parent := b.parent) }

  predicate Runnable(p: Pcb) { p.state.Ready? || p.state.Running? }

  /** `x` returns from waitpid with `ch`: a child of `x`, or (for init) a zombie child of the dying
      process `v` that init has just inherited; the one it asked for; and its entry is free now. */
  ghost predicate Collects(s: Sys, t': Table, v: Slot, x: Slot, ch: Slot) {
    && s.t[x].state.Blocked? && s.t[x].syscall == SYS_waitpid && Accepts(s.t[x], s.t[ch])
    && (s.t[ch].parent == x || (x == s.init && s.t[ch].state.Zombie? && s.t[ch].parent == v))
    && (ch == v || s.t[ch].state.Zombie?)
    && t'[x].ret == s.t[ch].pid
    && (s.t[x].arg2 != 0 ==> t'[x].status == s.t[ch].exitStatus)
    && Runnable(t'[x]) && t'[ch].state.Unused?
  }

  /** The fate of `x` when `v` is zombified. */
  ghost predicate Fate(s: Sys, t': Table, v: Slot, x: Slot) {
    if x == v then !Alive(t'[x])
    else
      || SameButParent(s.t[x], t'[x])
      || (exists ch: Slot :: Collects(s, t', v, x, ch))
      || (s.t[x].state.Zombie? && t'[x].state.Unused?)
  }

  /** What the invariant says about those a dying process `v` concerns. */
  ghost predicate Bereaved(s: Sys, v: Slot) {
    var parent := s.t[v].parent;
    && Alive(s.t[v]) && s.init != v && Alive(s.t[s.init])
    && parent != NULL && parent != v && Alive(s.t[parent])
    && (s.t[parent].syscall == SYS_waitpid ==> s.t[parent].state.Blocked?)
    && (s.t[s.init].syscall == SYS_waitpid ==> s.t[s.init].state.Blocked?)
  }

  lemma MidBereaved(s: Sys, run: Ptr, v: Slot)
    requires Mid(s, run, {v}) && s.init != v && Alive(s.t[v])
    ensures Bereaved(s, v)
  {
    hide Filed;
    assert ParentOk(s.t, v);
    assert ProperAt(s.t[s.t[v].parent], s.t[v].parent == run);
    assert ProperAt(s.t[s.init], s.init == run);
  }

  lemma ReparentedAt(t: Table, v: Slot, init: Slot, x: Slot)
    ensures SameButParent(t[x], Reparented(t, v, init)[x])
  {
  }

  lemma TableFate(s: Sys, s': Sys, v: Slot, x: Slot)
    requires Bereaved(s, v) && !Strands(s, v) && Zombified(s, s', v)
    ensures Fate(s, s'.t, v, x)
  {
    var z := LastZombie(s.t, v, 256);
    var parent := s.t[v].parent;
    var t1 := Reparented(s.t, v, s.init);
    ReparentedAt(s.t, v, s.init, x);
    ReparentedAt(s.t, v, s.init, v);
    ReparentedAt(s.t, v, s.init, parent);
    ReparentedAt(s.t, v, s.init, s.init);
    if z != NULL { ReparentedAt(s.t, v, s.init, z); }
    hide Reparented;
    var t2 := AdoptedTable(t1, s.init, z);
    if x == parent && t2[parent].syscall == SYS_waitpid && Accepts(t2[parent], t2[v]) {
      assert Collects(s, s'.t, v, x, v);
    } else if x == s.init && z != NULL && s.t[s.init].syscall == SYS_waitpid {
      assert Collects(s, s'.t, v, x, z);
    }
  }

  lemma ZombifyFate(s: Sys, run: Ptr, v: Slot, x: Slot)
    requires Mid(s, run, {v}) && s.init != v && Alive(s.t[v]) && !Strands(s, v)
    ensures Zombify(s, v).Ok? && Fate(s, Zombify(s, v).value.t, v, x)
  {
    hide Mid, Zombify, Fate, Strands;
    MidBereaved(s, run, v);
    ZombifyKeeps(s, run, v);
    TableFate(s, Zombify(s, v).value, v, x);
  }

  lemma DispatchFate(s: Sys, x: Slot)
    requires Dispatch(s).Ok?
    ensures var p := Dispatch(s).value.t[x];
      p == s.t[x] || (x in s.q[READY] && p == s.t[x].(state := Running, ticks := TICKS_PER_PROCESS, syscall := 0))
  {
  }

  lemma NotQueuedReady(s: Sys, run: Ptr, x: Slot)
    requires Mid(s, run, {}) && x in s.q[READY]
    ensures s.t[x].state.Ready?
  {
  }

  /** After the dying, somebody is dispatched: still the same fate. */
  lemma DispatchedFate(s: Sys, s1: Sys, v: Slot, x: Slot)
    requires Fate(s, s1.t, v, x) && Mid(s1, NULL, {}) && Dispatch(s1).Ok? && !s.t[x].state.Ready?
    ensures Fate(s, Dispatch(s1).value.t, v, x)
  {
    var t' := Dispatch(s1).value.t;
    DispatchFate(s1, x);
    if x in s1.q[READY] { NotQueuedReady(s1, NULL, x); }
    if x != v && exists ch: Slot :: Collects(s, s1.t, v, x, ch) {
      var ch: Slot :| Collects(s, s1.t, v, x, ch);
      DispatchFate(s1, ch);
      if ch in s1.q[READY] { NotQueuedReady(s1, NULL, ch); }
      hide Mid, Dispatch;
      assert Collects(s, t', v, x, ch);
    }
    hide Mid, Dispatch;
  }

  // ---------------------------------------------------------------- system calls

  /** The process a call puts to death, if any. */
  ghost function Dying(s: Sys, call: Call): Ptr
    requires s.current != NULL
  {
    match call
    case Exit(_) => s.current
    case BadNumber(_) => s.current
    case Kill(pid) =>
      var v := Lookup(s.t, pid % PID_MOD);
      if v != NULL && Owned(s.t, s.t[s.current].pid, v) && !s.t[v].state.Zombie? then v else NULL
    case _ => NULL
  }

  /** The state in which it dies, its exit status filled in. */
  function Deathbed(s: Sys, call: Call, v: Slot): Sys
    requires s.current != NULL
  {
    var e := Enter(s, call);
    e.Put(v, e.t[v].(exitStatus := if call.Exit? then call.code % 256 else 1))
  }

  lemma ExitFate(s: Sys, c: Slot, code: nat, x: Slot)
    requires Mid(s, c, {c}) && s.current == NULL && Caller(s, c) && MayDie(s, c) && !s.t[x].state.Ready?
    ensures DoExit(s, c, code).Ok?
    ensures Fate(s.Put(c, s.t[c].(exitStatus := code % 256)), DoExit(s, c, code).value.t, c, x)
  {
    hide Mid, Fate, Zombify, Dispatch;
    var s1 := s.Put(c, s.t[c].(exitStatus := code % 256));
    PutKeeps(s, c, {c}, c, s1.t[c]);
    SameZombies(s.t, s1.t, c, 256);
    ZombifyFate(s1, c, c, x);
    ZombifyKeeps(s1, c, c);
    DispatchKeeps(Zombify(s1, c).value);
    DispatchedFate(s1, Zombify(s1, c).value, c, x);
  }

  lemma FateDepends(a: Sys, b: Sys, t': Table, v: Slot, x: Slot)
    requires a.t == b.t && a.init == b.init && Fate(a, t', v, x)
    ensures Fate(b, t', v, x)
  {
    if x != v && exists ch: Slot :: Collects(a, t', v, x, ch) {
      var ch: Slot :| Collects(a, t', v, x, ch);
      assert Collects(b, t', v, x, ch);
    }
  }

  /** Returning to the caller touches nobody else. */
  lemma ReturnFate(s: Sys, s1: Sys, c: Slot, r: int, v: Slot, x: Slot)
    requires Fate(s, s1.t, v, x) && x != c && s1.t[c].state.Running?
    ensures Fate(s, Return(s1, c, r).t, v, x)
  {
    var t' := Return(s1, c, r).t;
    if x != v && exists ch: Slot :: Collects(s, s1.t, v, x, ch) {
      var ch: Slot :| Collects(s, s1.t, v, x, ch);
      assert Collects(s, t', v, x, ch);
    }
  }

  lemma FellFate(s: Sys, c: Slot, v: Slot, k: Qid, x: Slot)
    requires Mid(s, c, {}) && Caller(s, c) && Alive(s.t[v]) && Home(s.t[v]) == k && MayDie(s, v) && x != c
    ensures Fell(s, c, v, k).Ok?
    ensures Fate(s.Put(v, s.t[v].(exitStatus := 1)), Fell(s, c, v, k).value.t, v, x)
  {
    hide Mid, Fate, Zombify, Strands;
    InQueue(s, c, v, k);
    VictimFloats(s, c, v, k);
    var s0 := s.Put(v, s.t[v].(exitStatus := 1));
    var s1 := s0.Unqueue(k, v);
    var s2 := if k == READY then s1.(log := s1.log + [Withdraw(v)]) else s1;
    MidLog(s1, c, {v}, s2.log);
    assert Strands(s2, v) == Strands(s1, v) by { StrandsDepends(s1, s2, v); }
    ZombifyFate(s2, c, v, x);
    ZombifyKeeps(s2, c, v);
    var s3 := Zombify(s2, v).value;
    StillRunning(s3, c);
    FateDepends(s2, s0, s3.t, v, x);
    ReturnFate(s0, s3, c, 0, v, x);
  }

  lemma StrandsDepends(a: Sys, b: Sys, v: Slot)
    requires a.t == b.t && a.init == b.init
    ensures Strands(a, v) == Strands(b, v)
  {
  }

  /** A scheduling of somebody else, then a dispatch: `x`, not in the ready queue, notices nothing. */
  lemma YieldUndisturbed(s: Sys, c: Slot, x: Slot)
    requires Schedule(s, c).Ok? && Dispatch(Schedule(s, c).value).Ok? && x != c && x !in s.q[READY]
    ensures Dispatch(Schedule(s, c).value).value.t[x] == s.t[x]
  {
    var s1 := Schedule(s, c).value;
    var t1 := s.t[c := s.t[c].(state := Ready, syscall := 0)];
    SpliceMembers(s.q[READY], Rank(Prio, t1, s.q[READY], Key(Prio, t1[c])), c);
    DispatchFate(s1, x);
  }

  lemma SleepUndisturbed(s: Sys, c: Slot, ms: nat, x: Slot)
    requires DoSleep(s, c, ms).Ok? && x != c && x !in s.q[READY]
    ensures DoSleep(s, c, ms).value.t[x] == s.t[x]
  {
    if ms == 0 {
      hide Schedule, Dispatch;
      YieldUndisturbed(s.Put(c, s.t[c].(ret := 0)), c, x);
    } else if !Linked(s.q, c) {
      var s1 := s.Put(c, s.t[c].(wakeup := (s.now + ms) % U64));
      var s2 := Enqueue(s1, SLEEPING, c).value;
      hide Dispatch;
      DispatchFate(s2.Put(c, s2.t[c].(state := Blocked)), x);
    }
  }

  lemma ExecUndisturbed(s: Sys, c: Slot, loaded: bool, argc: nat, x: Slot)
    requires DoExec(s, c, loaded, argc).Ok? && x != c && x !in s.q[READY]
    ensures DoExec(s, c, loaded, argc).value.t[x] == s.t[x]
  {
    hide Schedule, Dispatch;
    if loaded { YieldUndisturbed(s.Put(c, s.t[c].(arg1 := argc, arg2 := 0, ret := 0)), c, x); }
  }

  lemma WaitUndisturbed(s: Sys, c: Slot, pid: nat, x: Slot)
    requires DoWaitpid(s, c, pid).Ok? && FirstMatch(s.t, c, pid % PID_MOD, 0) == NULL && x != c && x !in s.q[READY]
    ensures DoWaitpid(s, c, pid).value.t[x] == s.t[x]
  {
    var s1 := Enqueue(s.Put(c, s.t[c].(state := Blocked)), WAITING, c).value;
    hide Dispatch;
    DispatchFate(s1, x);
  }

  lemma ForkUndisturbed(s: Sys, c: Slot, cloned: bool, x: Slot)
    requires DoFork(s, c, cloned).Ok? && x != c && (s.q[FREE] != [] ==> x != s.q[FREE][0])
    ensures DoFork(s, c, cloned).value.t[x] == s.t[x]
  {
  }

  lemma BlockedWhere(s: Sys, run: Ptr, x: Slot)
    requires Mid(s, run, {}) && s.t[x].state.Blocked?
    ensures x != run && x !in s.q[READY] && x !in s.q[FREE]
    ensures s.t[x].syscall == SYS_waitpid || s.t[x].syscall == SYS_sleep
  {
    assert ProperAt(s.t[x], x == run);
  }

  lemma EnterBlocked(s: Sys, call: Call, x: Slot)
    requires Inv(s) && s.current != NULL && s.t[x].state.Blocked?
    ensures var e := Enter(s, call);
      x != s.current && e.t[x] == s.t[x] && x !in e.q[READY] && x !in e.q[FREE]
  {
    BlockedWhere(s, s.current, x);
    hide Mid;
  }

  /** A call that puts nobody to death leaves every blocked process as it is. */
  lemma QuietCall(s: Sys, call: Call, x: Slot)
    requires Inv(s) && s.current != NULL && call.Valid() && Safe(s, Do(call)) && DoCall(s, call).Ok?
    requires Dying(s, call) == NULL && s.t[x].state.Blocked?
    ensures DoCall(s, call).value.t[x] == s.t[x]
  {
    hide Inv, DoExit, DoWaitpid, DoFork, DoKill, DoSleep, DoExec, MayKill, Owned, Strands;
    var c: Slot := s.current;
    var e := Enter(s, call);
    EnterBlocked(s, call, x);
    match call
    case Waitpid(pid, _) =>
      SameMatches(s.t, e.t, c, pid % PID_MOD, 0);
      WaitUndisturbed(e, c, pid, x);
    case Fork(cloned) => ForkUndisturbed(e, c, cloned, x);
    case Sleep(ms) => SleepUndisturbed(e, c, ms, x);
    case Exec(loaded, argc) => ExecUndisturbed(e, c, loaded, argc, x);
    case Kill(pid) => SpareKill(s, call, pid);
    case Setprio(_) =>
    case Other(_, _) =>
  }

  lemma SpareKill(s: Sys, call: Call, pid: nat)
    requires s.current != NULL && call == Kill(pid) && Dying(s, call) == NULL
    ensures exists r :: DoKill(Enter(s, call), s.current, pid) == Ok(Return(Enter(s, call), s.current, r))
  {
    var e := Enter(s, call);
    SamePids(s.t, e.t, pid % PID_MOD, 0);
    var v := Lookup(s.t, pid % PID_MOD);
    if v != NULL { SameOwned(s.t, e.t, s.t[s.current].pid, v); }
    hide Owned;
    var r := if v == NULL || !Owned(s.t, s.t[s.current].pid, v) then 1 else 0;
    assert DoKill(e, s.current, pid) == Ok(Return(e, s.current, r));
  }

  lemma SlayFate(s: Sys, c: Slot, v: Slot, x: Slot)
    requires Mid(s, c, {}) && Mid(s, c, {c}) && s.current == NULL && Caller(s, c)
    requires Alive(s.t[v]) && MayDie(s, v) && x != c && !s.t[x].state.Ready?
    ensures Slay(s, c, v).Ok? && Fate(s.Put(v, s.t[v].(exitStatus := 1)), Slay(s, c, v).value.t, v, x)
  {
    assert ProperAt(s.t[v], v == c);
    hide Mid, Fate, Fell, DoExit, Strands;
    match s.t[v].state
    case Ready => FellFate(s, c, v, READY, x);
    case Blocked => FellFate(s, c, v, WAIT + s.t[v].syscall, x);
    case Running => ExitFate(s, c, 1, x);
  }

  /** A call that puts `v` to death gives every blocked process one of the fates above. */
  lemma DeathCall(s: Sys, call: Call, x: Slot)
    requires Inv(s) && s.current != NULL && call.Valid() && Safe(s, Do(call)) && DoCall(s, call).Ok?
    requires Dying(s, call) != NULL && s.t[x].state.Blocked?
    ensures Fate(Deathbed(s, call, Dying(s, call)), DoCall(s, call).value.t, Dying(s, call), x)
  {
    hide Inv, Mid, Fate, DoExit, Slay, Owned, Strands;
    var c: Slot := s.current;
    var e := Enter(s, call);
    var v: Slot := Dying(s, call);
    EnterKeeps(s, call);
    EnterBlocked(s, call, x);
    EnterStrands(s, call, v);
    RunnerBack(e, c);
    match call
    case Exit(code) => ExitFate(e, c, code, x);
    case BadNumber(_) => ExitFate(e, c, 1, x);
    case Kill(pid) =>
      SamePids(s.t, e.t, pid % PID_MOD, 0);
      SameOwned(s.t, e.t, s.t[c].pid, v);
      SlayFate(e, c, v, x);
  }
}
