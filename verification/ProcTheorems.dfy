/** What the system promises its processes: who is woken, by whom, when, and who can be killed. */
module ProcTheorems {
  import opened Base
  import opened ProcSpec
  import opened ProcQueueLaws
  import opened ProcInv
  import opened ProcSteps
  import opened ProcForkKill
  import opened ProcRuns
  import opened ProcFates

  // ---------------------------------------------------------------- ticks

  lemma ChargeFate(s: Sys, x: Slot)
    requires ChargeTick(s).Ok? && x != s.current
    ensures var p := ChargeTick(s).value.t[x];
      || p == s.t[x]
      || (x in s.q[READY] && p == s.t[x].(state := Running, ticks := TICKS_PER_PROCESS, syscall := 0))
  {
    if s.current != NULL {
      var c: Slot := s.current;
      var s1 := s.Put(c, s.t[c].(ticks := Decrement(s.t[c].ticks)));
      if s1.t[c].ticks < 1 {
        var s2 := Schedule(s1, c).value;
        SpliceMembers(s1.q[READY], Rank(Prio, s2.t, s1.q[READY], Key(Prio, s2.t[c])), c);
        DispatchFate(s2.(current := NULL), x);
      }
    }
  }

  /** On every tick the processes woken are exactly the longest prefix of the sleep queue whose
      members all have a wake-up time below the new tick count; no other blocked process changes. */
  lemma TickWakes(s: Sys, x: Slot)
    requires Inv(s) && s.t[x].state.Blocked?
    ensures OnTick(s).Ok?
    ensures var s' := OnTick(s).value;
      var now := (s.now + 1) % U64;
      var due := s.q[SLEEPING][..DuePrefix(s.t, s.q[SLEEPING], now)];
      && s'.now == now
      && (x in due ==> s.t[x].wakeup < now && Runnable(s'.t[x]))
      && (x !in due ==> s'.t[x] == s.t[x])
  {
    hide Inv, Mid, WakeSleepers, ChargeTick;
    var s0 := s.(now := (s.now + 1) % U64);
    var xs := s.q[SLEEPING];
    TickKeeps(s);
    ClockKeeps(s, s0.now);
    DuePrefixLongest(s0.t, xs, s0.now);
    WakeKeeps(s0);
    var s1 := WakeSleepers(s0).value;
    assert s1.now == s0.now;
    InvBlocked(s, x);
    ChargeFate(s1, x);
    if x in s1.q[READY] { InvReady(s1, x); }
    ChargeNow(s1);
  }

  lemma ChargeNow(s: Sys)
    requires ChargeTick(s).Ok?
    ensures ChargeTick(s).value.now == s.now
  {
  }

  lemma InvBlocked(s: Sys, x: Slot)
    requires Inv(s) && s.t[x].state.Blocked?
    ensures x != s.current && x !in s.q[READY] && x !in s.q[FREE]
    ensures s.t[x].syscall == SYS_waitpid || s.t[x].syscall == SYS_sleep
    ensures s.t[x].syscall == SYS_waitpid ==> x !in s.q[SLEEPING]
  {
    BlockedWhere(s, s.current, x);
  }

  lemma InvReady(s: Sys, x: Slot)
    requires Inv(s) && x in s.q[READY]
    ensures s.t[x].state.Ready?
  {
  }

  // ---------------------------------------------------------------- waitpid

  ghost predicate StillBlocked(s: Sys, s': Sys, x: Slot) { SameButParent(s.t[x], s'.t[x]) }

  /** The call `e` put `x` itself to death. */
  ghost predicate PutToDeath(s: Sys, e: Event, s': Sys, x: Slot) {
    e.Do? && s.current != NULL && Dying(s, e.call) == x && !Alive(s'.t[x])
  }

  /** `e` ended some process, and `x` returns from waitpid with a child it was waiting for, whose
      entry has now, and only now, entered the free list. */
  ghost predicate ReturnsChild(s: Sys, e: Event, s': Sys, x: Slot) {
    && e.Do? && s.current != NULL && Dying(s, e.call) != NULL
    && var v := Dying(s, e.call);
       exists ch: Slot ::
         && Collects(Deathbed(s, e.call, v), s'.t, v, x, ch)
         && ch !in s.q[FREE] && ch in s'.q[FREE]
  }

  lemma FreedNow(s: Sys, s': Sys, ch: Slot)
    requires Inv(s) && Inv(s') && Live(s.t[ch]) && s'.t[ch].state.Unused?
    ensures ch !in s.q[FREE] && ch in s'.q[FREE]
  {
    assert Home(s'.t[ch]) == FREE;
  }

  lemma WaiterDeathCall(s: Sys, call: Call, s': Sys, x: Slot)
    requires Inv(s) && StepsTo(s, Do(call), s') && s.t[x].state.Blocked? && Dying(s, call) != NULL
    ensures
      || StillBlocked(s, s', x)
      || PutToDeath(s, Do(call), s', x)
      || (s.t[x].syscall == SYS_waitpid && ReturnsChild(s, Do(call), s', x))
  {
    hide Inv, DoCall;
    var v: Slot := Dying(s, call);
    var d := Deathbed(s, call, v);
    StepExact(s, Do(call));
    InvBlocked(s, x);
    DeathCall(s, call, x);
    if x != v && exists ch: Slot :: Collects(d, s'.t, v, x, ch) {
      var ch: Slot :| Collects(d, s'.t, v, x, ch);
      DyingAlive(s, call);
      FreedNow(s, s', ch);
    }
  }

  lemma DyingAlive(s: Sys, call: Call)
    requires Inv(s) && s.current != NULL && Dying(s, call) != NULL
    ensures Live(s.t[Dying(s, call)])
  {
    assert ProperAt(s.t[s.current], true);
  }

  /** A process blocked in waitpid stays blocked, is put to death, or returns with the pid (and the
      exit status) of a process that is its child at that moment and matches what it asked for. */
  lemma WaitpidReturns(s: Sys, e: Event, s': Sys, x: Slot)
    requires Inv(s) && StepsTo(s, e, s') && s.t[x].state.Blocked? && s.t[x].syscall == SYS_waitpid
    ensures StillBlocked(s, s', x) || PutToDeath(s, e, s', x) || ReturnsChild(s, e, s', x)
  {
    hide Inv, OnTick, DoCall, Dispatch, Dying, Safe;
    InvBlocked(s, x);
    match e
    case Tick =>
      TickWakes(s, x);
      PrefixIn(s.q[SLEEPING], DuePrefix(s.t, s.q[SLEEPING], (s.now + 1) % U64), x);
    case Resume => DispatchFate(s, x);
    case Do(call) => if Dying(s, call) == NULL { QuietCall(s, call, x); } else { WaiterDeathCall(s, call, s', x); }
  }

  lemma PrefixIn(xs: seq<Slot>, n: nat, x: Slot)
    requires n <= |xs|
    ensures x in xs[..n] ==> x in xs
  {
  }

  // ---------------------------------------------------------------- sleep

  predicate Asleep(p: Pcb) { p.state.Blocked? && p.syscall == SYS_sleep }

  /** A sleeper sleeps on with the same wake-up time, or a tick later than that time makes it
      runnable, or it is put to death. */
  lemma SleeperFate(s: Sys, e: Event, s': Sys, x: Slot)
    requires Inv(s) && StepsTo(s, e, s') && Asleep(s.t[x])
    ensures || StillBlocked(s, s', x)
            || (e.Tick? && s.t[x].wakeup < s'.now && Runnable(s'.t[x]))
            || PutToDeath(s, e, s', x)
  {
    hide Inv, OnTick, DoCall, Dispatch, Dying, Safe;
    InvBlocked(s, x);
    match e
    case Tick => TickWakes(s, x);
    case Resume => DispatchFate(s, x);
    case Do(call) => if Dying(s, call) == NULL { QuietCall(s, call, x); } else { WaiterDeathCall(s, call, s', x); }
  }

  lemma ZombifyNow(s: Sys, v: Slot)
    requires Zombify(s, v).Ok?
    ensures Zombify(s, v).value.now == s.now
  {
    hide Schedule, Free;
    forall x: Sys, p: Slot ensures Schedule(x, p).Ok? ==> Schedule(x, p).value.now == x.now { ScheduleNow(x, p); }
    forall x: Sys, p: Slot ensures Free(x, p).Ok? ==> Free(x, p).value.now == x.now { FreeNow(x, p); }
  }

  lemma ScheduleNow(s: Sys, p: Slot)
    ensures Schedule(s, p).Ok? ==> Schedule(s, p).value.now == s.now
  {
  }

  lemma FreeNow(s: Sys, p: Slot)
    ensures Free(s, p).Ok? ==> Free(s, p).value.now == s.now
  {
  }

  lemma DispatchNow(s: Sys)
    requires Dispatch(s).Ok?
    ensures Dispatch(s).value.now == s.now
  {
  }

  lemma ExitNow(s: Sys, c: Slot, code: nat)
    requires DoExit(s, c, code).Ok?
    ensures DoExit(s, c, code).value.now == s.now
  {
    hide Zombify, Dispatch;
    var s1 := s.Put(c, s.t[c].(exitStatus := code % 256));
    ZombifyNow(s1, c);
    DispatchNow(Zombify(s1, c).value);
  }

  lemma KillNow(s: Sys, c: Slot, pid: nat)
    requires DoKill(s, c, pid).Ok?
    ensures DoKill(s, c, pid).value.now == s.now
  {
    hide Zombify, DoExit, Owned;
    var v := Lookup(s.t, pid % PID_MOD);
    if v != NULL && Owned(s.t, s.t[c].pid, v) {
      match s.t[v].state
      case Ready => FellNow(s, c, v, READY);
      case Blocked => FellNow(s, c, v, WAIT + s.t[v].syscall);
      case Running => ExitNow(s, c, 1);
      case _ =>
    }
  }

  lemma FellNow(s: Sys, c: Slot, v: Slot, k: Qid)
    requires Fell(s, c, v, k).Ok?
    ensures Fell(s, c, v, k).value.now == s.now
  {
    hide Zombify;
    var s1 := s.Put(v, s.t[v].(exitStatus := 1)).Unqueue(k, v);
    ZombifyNow(if k == READY then s1.(log := s1.log + [Withdraw(v)]) else s1, v);
  }

  lemma CallNow(s: Sys, call: Call)
    requires s.current != NULL && DoCall(s, call).Ok?
    ensures DoCall(s, call).value.now == s.now
  {
    hide DoExit, DoKill, DoWaitpid, DoFork, DoSleep, DoExec;
    var c: Slot := s.current;
    var e := Enter(s, call);
    match call
    case Exit(code) => ExitNow(e, c, code);
    case BadNumber(_) => ExitNow(e, c, 1);
    case Kill(pid) => KillNow(e, c, pid);
    case Waitpid(pid, _) => WaitNow(e, c, pid);
    case Fork(cloned) => ForkNow(e, c, cloned);
    case Sleep(ms) => SleepNow(e, c, ms);
    case Exec(loaded, argc) => ExecNow(e, c, loaded, argc);
    case _ =>
  }

  lemma WaitNow(s: Sys, c: Slot, pid: nat)
    requires DoWaitpid(s, c, pid).Ok?
    ensures DoWaitpid(s, c, pid).value.now == s.now
  {
  }

  lemma ForkNow(s: Sys, c: Slot, cloned: bool)
    requires DoFork(s, c, cloned).Ok?
    ensures DoFork(s, c, cloned).value.now == s.now
  {
  }

  lemma SleepNow(s: Sys, c: Slot, ms: nat)
    requires DoSleep(s, c, ms).Ok?
    ensures DoSleep(s, c, ms).value.now == s.now
  {
  }

  lemma ExecNow(s: Sys, c: Slot, loaded: bool, argc: nat)
    requires DoExec(s, c, loaded, argc).Ok?
    ensures DoExec(s, c, loaded, argc).value.now == s.now
  {
  }

  /** Only ticks move the clock. */
  lemma StepNow(s: Sys, e: Event, s': Sys)
    requires Inv(s) && StepsTo(s, e, s')
    ensures s'.now == if e.Tick? then (s.now + 1) % U64 else s.now
  {
    hide Inv, Safe, ChargeTick, WakeSleepers, DoCall;
    match e
    case Tick =>
      var s0 := s.(now := (s.now + 1) % U64);
      ClockKeeps(s, s0.now);
      WakeKeeps(s0);
      ChargeNow(WakeSleepers(s0).value);
    case Resume =>
    case Do(call) => CallNow(s, call);
  }

  function Ticks(es: seq<Event>): nat {
    if es == [] then 0 else Ticks(es[..|es| - 1]) + if es[|es| - 1].Tick? then 1 else 0
  }

  lemma {:induction false} RunNow(r: Trace, i: nat, j: nat)
    requires r.Legal() && Inv(r.states[0]) && i <= j < |r.states|
    requires r.states[i].now < U64
    ensures r.states[j].now == (r.states[i].now + Ticks(r.events[i..j])) % U64
    decreases j
  {
    hide Inv, StepsTo;
    if i < j {
      var es := r.events[i..j];
      assert es[..|es| - 1] == r.events[i..j - 1];
      assert es[|es| - 1] == r.events[j - 1];
      RunNow(r, i, j - 1);
      RunInv(r, j - 1);
      assert StepsTo(r.states[j - 1], r.events[j - 1], r.states[j]);
      StepNow(r.states[j - 1], r.events[j - 1], r.states[j]);
      ClockTurns(r.states[i].now + Ticks(r.events[i..j - 1]));
    }
  }

  lemma ClockTurns(n: nat)
    ensures (n % U64 + 1) % U64 == (n + 1) % U64
  {
  }

  lemma {:induction false} WakeupKept(r: Trace, x: Slot, i: nat, j: nat)
    requires r.Legal() && Inv(r.states[0]) && i <= j < |r.states|
    requires forall k :: i <= k <= j ==> Asleep(r.states[k].t[x])
    ensures r.states[j].t[x].wakeup == r.states[i].t[x].wakeup
    decreases j
  {
    hide Inv, StepsTo, Dying;
    if i < j {
      WakeupKept(r, x, i, j - 1);
      RunInv(r, j - 1);
      assert StepsTo(r.states[j - 1], r.events[j - 1], r.states[j]);
      SleeperFate(r.states[j - 1], r.events[j - 1], r.states[j], x);
    }
  }

  lemma DoSleepSets(s: Sys, c: Slot, ms: nat)
    requires 0 < ms && !Linked(s.q, c) && c !in s.q[READY] && DoSleep(s, c, ms).Ok? && s.t[c].syscall == SYS_sleep
    ensures var p := DoSleep(s, c, ms).value.t[c]; p.wakeup == (s.now + ms) % U64 && Asleep(p)
    ensures DoSleep(s, c, ms).value.now == s.now
  {
    hide Linked, Dispatch;
    var s1 := s.Put(c, s.t[c].(wakeup := (s.now + ms) % U64));
    var s2 := Enqueue(s1, SLEEPING, c).value;
    var s3 := s2.Put(c, s2.t[c].(state := Blocked));
    DispatchFate(s3, c);
    DispatchNow(s3);
  }

  lemma CallerUnqueued(s: Sys, c: Slot)
    requires Mid(s, c, {c})
    ensures !Linked(s.q, c) && c !in s.q[READY]
  {
    NotLinked(s.t, s.q, {c}, c);
  }

  lemma SleepSets(s: Sys, ms: nat, s': Sys)
    requires Inv(s) && s.current != NULL && 0 < ms && DoCall(s, Sleep(ms)) == Ok(s')
    ensures s'.t[s.current].wakeup == (s.now + ms) % U64 && s'.now == s.now
    ensures Asleep(s'.t[s.current])
  {
    hide Inv, Mid, DoSleep, Linked;
    EnterKeeps(s, Sleep(ms));
    CallerUnqueued(Enter(s, Sleep(ms)), s.current);
    DoSleepSets(Enter(s, Sleep(ms)), s.current, ms);
  }

  /** Over any run a process that sleeps for `ms` ticks is not made runnable before more than `ms`
      ticks have passed, if the wake-up time fits the 64-bit tick counter or the counter is at its last
      value; the counter itself may wrap around meanwhile. */
  lemma NeverWokenEarly(r: Trace, x: Slot, i: nat, j: nat, ms: nat)
    requires r.Legal() && Inv(r.states[0]) && i + 1 < j < |r.states|
    requires r.states[i].current == x && r.events[i] == Do(Sleep(ms)) && 0 < ms
    requires forall k :: i < k < j ==> Asleep(r.states[k].t[x])
    requires Runnable(r.states[j].t[x])
    requires r.states[i].now + ms < U64 || r.states[i].now + 1 == U64
    ensures Ticks(r.events[i + 1..j]) > ms
  {
    hide Inv, Step, Ticks;
    RunInv(r, i);
    RunInv(r, j - 1);
    assert StepsTo(r.states[i], r.events[i], r.states[i + 1]);
    assert StepsTo(r.states[j - 1], r.events[j - 1], r.states[j]);
    SleepCall(r.states[i], ms, r.states[i + 1]);
    WakeupKept(r, x, i + 1, j - 1);
    SleeperFate(r.states[j - 1], r.events[j - 1], r.states[j], x);
    RunNow(r, i + 1, j);
    LastTick(r.events[i + 1..j]);
    EarlyNever(r.states[i].now, ms, Ticks(r.events[i + 1..j]));
  }

  lemma LastTick(es: seq<Event>)
    requires es != [] && es[|es| - 1].Tick?
    ensures Ticks(es) > 0
  {
  }

  /** Only after more than `ms` ticks does the clock pass such a wake-up time. */
  lemma EarlyNever(now: nat, ms: nat, ticks: nat)
    requires now < U64 && ms < U64 && (now + ms < U64 || now + 1 == U64)
    ensures ticks > 0 && (now + ms) % U64 < (now + ticks) % U64 ==> ticks > ms
  {
  }

  lemma SleepCall(s: Sys, ms: nat, s': Sys)
    requires Inv(s) && StepsTo(s, Do(Sleep(ms)), s') && 0 < ms
    ensures s'.t[s.current].wakeup == (s.now + ms) % U64 && s'.now == s.now
  {
    hide Inv, DoCall;
    SleepSets(s, ms, s');
  }

  /** When the wake-up time does not fit the counter, the sleeper is overdue at once: the next tick
      wakes it if it heads the sleep queue, however long it asked to sleep. */
  lemma WrapWakesAtOnce(s: Sys, ms: nat, s': Sys)
    requires Inv(s) && StepsTo(s, Do(Sleep(ms)), s') && 0 < ms && s.now + ms >= U64 && s.now + 1 < U64
    requires s'.q[SLEEPING] != [] && s'.q[SLEEPING][0] == s.current
    ensures OnTick(s').Ok? && Runnable(OnTick(s').value.t[s.current])
  {
    hide Inv, DoCall, OnTick;
    var c: Slot := s.current;
    StepExact(s, Do(Sleep(ms)));
    SleepSets(s, ms, s');
    TickWakes(s', c);
    assert s'.t[c].wakeup < s'.now + 1;
    assert DuePrefix(s'.t, s'.q[SLEEPING], s'.now + 1) >= 1;
  }

  // ---------------------------------------------------------------- kill

  lemma FateAlive(s: Sys, t': Table, v: Slot, x: Slot)
    requires Fate(s, t', v, x) && Alive(s.t[x])
    ensures Alive(t'[x]) <==> x != v
  {
  }

  lemma ExitEnds(s: Sys, c: Slot, code: nat, x: Slot)
    requires Mid(s, c, {c}) && s.current == NULL && Caller(s, c) && MayDie(s, c) && Alive(s.t[x])
    ensures DoExit(s, c, code).Ok? && (Alive(DoExit(s, c, code).value.t[x]) <==> x != c)
  {
    hide Mid, Zombify, Dispatch, Strands;
    var s1 := s.Put(c, s.t[c].(exitStatus := code % 256));
    PutKeeps(s, c, {c}, c, s1.t[c]);
    assert Strands(s1, c) == Strands(s, c) by { PutStrands(s, c, code % 256); }
    ZombifyFate(s1, c, c, x);
    FateAlive(s1, Zombify(s1, c).value.t, c, x);
    ZombifyKeeps(s1, c, c);
    var s2 := Zombify(s1, c).value;
    DispatchKeeps(s2);
    DispatchFate(s2, x);
    if x in s2.q[READY] { NotQueuedReady(s2, NULL, x); }
  }

  lemma PutStrands(s: Sys, v: Slot, code: nat)
    ensures Strands(s.Put(v, s.t[v].(exitStatus := code)), v) == Strands(s, v)
  {
    SameZombies(s.t, s.t[v := s.t[v].(exitStatus := code)], v, 256);
  }

  lemma FellEnds(s: Sys, c: Slot, v: Slot, k: Qid, x: Slot)
    requires Mid(s, c, {}) && Caller(s, c) && Alive(s.t[v]) && Home(s.t[v]) == k && MayDie(s, v) && Alive(s.t[x])
    ensures Fell(s, c, v, k).Ok? && (Alive(Fell(s, c, v, k).value.t[x]) <==> x != v)
  {
    if x == c {
      FellExact(s, c, v, k);
      StillAlive(s, c, v, k);
    } else {
      FellFate(s, c, v, k, x);
      FateAlive(s.Put(v, s.t[v].(exitStatus := 1)), Fell(s, c, v, k).value.t, v, x);
    }
  }

  lemma StillAlive(s: Sys, c: Slot, v: Slot, k: Qid)
    requires Fell(s, c, v, k).Ok? && Inv(Fell(s, c, v, k).value)
    ensures Alive(Fell(s, c, v, k).value.t[c])
  {
    var s' := Fell(s, c, v, k).value;
    assert s'.current == c;
    hide Fell;
    assert ProperAt(s'.t[c], true);
  }

  lemma SlayEnds(s: Sys, c: Slot, v: Slot, x: Slot)
    requires Mid(s, c, {}) && Mid(s, c, {c}) && s.current == NULL && Caller(s, c)
    requires Alive(s.t[v]) && MayDie(s, v) && Alive(s.t[x])
    ensures Slay(s, c, v).Ok? && (Alive(Slay(s, c, v).value.t[x]) <==> x != v)
  {
    assert ProperAt(s.t[v], v == c);
    hide Mid, Fell, DoExit, Strands;
    match s.t[v].state
    case Ready => FellEnds(s, c, v, READY, x);
    case Blocked => FellEnds(s, c, v, WAIT + s.t[v].syscall, x);
    case Running => ExitEnds(s, c, 1, x);
  }

  lemma UniquePid(s: Sys, a: Slot, b: Slot)
    requires Inv(s) && Live(s.t[a]) && Live(s.t[b])
    ensures s.t[a].pid == s.t[b].pid ==> a == b
    ensures 1 <= s.t[a].pid
  {
  }

  lemma InvOwned(s: Sys, v: Slot)
    requires Inv(s) && s.current != NULL && Live(s.t[v])
    ensures Live(s.t[s.current]) && (Owned(s.t, s.t[s.current].pid, v) <==> Ancestor(s.t, s.current, v))
  {
    assert ProperAt(s.t[s.current], true);
    OwnedMeans(s.t, s.init, s.nextPid, s.current, v);
  }

  /** kill(pid) ends the life of exactly the process with that pid, and that only if it is the
      caller or one of the caller's descendants. */
  lemma KillEnds(s: Sys, pid: nat, s': Sys, x: Slot)
    requires Inv(s) && StepsTo(s, Do(Kill(pid)), s') && Alive(s.t[x])
    ensures !Alive(s'.t[x]) <==> s.t[x].pid == pid % PID_MOD && Ancestor(s.t, s.current, x)
  {
    hide Inv, Mid, Slay, Owned, Ancestor, Strands;
    var call := Kill(pid);
    var c: Slot := s.current;
    var e := Enter(s, call);
    var v := Lookup(s.t, pid % PID_MOD);
    InvOwned(s, x);
    UniquePid(s, x, x);
    SamePids(s.t, e.t, pid % PID_MOD, 0);
    if v != NULL {
      UniquePid(s, v, x);
      InvOwned(s, v);
      SameOwned(s.t, e.t, s.t[c].pid, v);
      if Owned(s.t, s.t[c].pid, v) && !s.t[v].state.Zombie? {
        EnterKeeps(s, call);
        EnterStrands(s, call, v);
        RunnerBack(e, c);
        SlayEnds(e, c, v, x);
      } else if Owned(s.t, s.t[c].pid, v) {
        assert Slay(e, c, v) == Ok(Return(e, c, 0)) by { SlayZombie(e, c, v); }
      }
    }
  }

  lemma SlayZombie(s: Sys, c: Slot, v: Slot)
    requires s.t[v].state.Zombie?
    ensures Slay(s, c, v) == Ok(Return(s, c, 0))
  {
  }

  // ---------------------------------------------------------------- fork

  /** A successful fork makes the first free entry a ready child of the caller with a pid nobody has and the
      caller's priority; the caller gets the pid, the child gets 0, and no other process changes. */
  lemma ForkMakes(s: Sys, s': Sys)
    requires Inv(s) && StepsTo(s, Do(Fork(true)), s') && s.q[FREE] != []
    ensures var c, ch := s.current, s.q[FREE][0];
      && ch != c && !Live(s.t[ch]) && (forall x: Slot :: Live(s.t[x]) ==> s.t[x].pid != s.nextPid)
      && s'.t[ch].state.Ready? && ch in s'.q[READY]
      && s'.t[ch].parent == c && s'.t[ch].pid == s.nextPid && s'.t[ch].priority == s.t[c].priority && s'.t[ch].ret == 0
      && s'.current == c && s'.t[c].ret == s.nextPid
      && forall x: Slot :: x != c && x != ch ==> s'.t[x] == s.t[x]
  {
    hide Inv, Schedule;
    var c: Slot, ch := s.current, s.q[FREE][0];
    var e := Enter(s, Fork(true));
    StepExact(s, Do(Fork(true)));
    FreshChild(s, ch);
    var b := Born(e, c, ch);
    ScheduleMakes(b, ch);
    var r := Schedule(b, ch).value;
    assert s' == Return(r, c, 0);
    ReadyQueued(s', ch);
  }

  lemma FreshChild(s: Sys, ch: Slot)
    requires Inv(s) && s.current != NULL && ch in s.q[FREE]
    ensures ch != s.current && !Live(s.t[ch]) && forall x: Slot :: Live(s.t[x]) ==> s.t[x].pid != s.nextPid
  {
    assert ProperAt(s.t[s.current], true);
  }

  lemma ScheduleMakes(s: Sys, p: Slot)
    ensures var r := Schedule(s, p);
      r.Ok? ==> r.value.t == s.t[p := s.t[p].(state := Ready, syscall := 0)]
  {
  }

  lemma ReadyQueued(s: Sys, x: Slot)
    requires Inv(s) && s.t[x].state.Ready?
    ensures x in s.q[READY]
  {
    assert Home(s.t[x]) == READY;
  }
}
