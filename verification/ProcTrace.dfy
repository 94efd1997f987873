/** Every step's effect on the ready queue is what its log entries say; bounded overtaking in runs. */
module ProcTrace {
  import opened Base
  import opened ProcSpec
  import opened ProcQueueLaws
  import opened ProcInv
  import opened ProcSteps
  import opened ProcForkKill
  import opened ProcRuns
  import opened ProcFairness

  function ReadyView(s: Sys): seq<Ticket> { View(s.t, s.q[READY]) }

  /** From `s` to `s'` the ready queue changed exactly as the new log entries tell. */
  ghost predicate Traced(s: Sys, s': Sys) {
    s.log <= s'.log && Replay(ReadyView(s), s'.log[|s.log|..]) == Ok(ReadyView(s'))
  }

  lemma {:induction false} ReplayConcat(rq: seq<Ticket>, a: seq<Sched>, b: seq<Sched>)
    requires Replay(rq, a).Ok?
    ensures Replay(rq, a + b) == Replay(Replay(rq, a).value, b)
    decreases |a|
  {
    if a == [] {
      assert a + b == b;
    } else {
      assert (a + b)[1..] == a[1..] + b;
      ReplayConcat(Apply(rq, a[0]).value, a[1..], b);
    }
  }

  lemma TracedTrans(a: Sys, b: Sys, c: Sys)
    requires Traced(a, b) && Traced(b, c)
    ensures Traced(a, c)
  {
    hide View;
    ReplayConcat(ReadyView(a), b.log[|a.log|..], c.log[|b.log|..]);
    assert c.log[|a.log|..] == b.log[|a.log|..] + c.log[|b.log|..];
  }

  /** Nothing the ready queue depends on has changed. */
  ghost predicate Quiet(s: Sys, s': Sys) {
    && s'.log == s.log && s'.q[READY] == s.q[READY]
    && forall p: Slot :: p in s.q[READY] ==> s'.t[p].priority == s.t[p].priority
  }

  lemma QuietTraced(s: Sys, s': Sys)
    requires Quiet(s, s')
    ensures Traced(s, s')
  {
    assert ReadyView(s') == ReadyView(s);
    assert s'.log[|s.log|..] == [];
  }

  lemma {:induction false} ViewAhead(t: Table, xs: seq<Slot>, prio: nat)
    ensures Ahead(View(t, xs), prio) == Rank(Prio, t, xs, prio)
  {
    if xs != [] {
      ViewAhead(t, xs[1..], prio);
      assert View(t, xs)[1..] == View(t, xs[1..]);
    }
  }

  lemma {:induction false} ViewPlace(t: Table, xs: seq<Slot>, p: Slot)
    ensures Place(View(t, xs), p) == if p in xs then IndexOf(xs, p) else |xs|
  {
    if xs != [] {
      ViewPlace(t, xs[1..], p);
      assert View(t, xs)[1..] == View(t, xs[1..]);
    }
  }

  lemma ReplayOne(rq: seq<Ticket>, e: Sched)
    ensures Replay(rq, [e]) == Apply(rq, e)
  {
    if Apply(rq, e).Ok? { assert Replay(Apply(rq, e).value, [e][1..]) == Apply(rq, e); }
  }

  lemma ScheduleTraced(s: Sys, p: Slot)
    requires p !in s.q[READY] && Schedule(s, p).Ok?
    ensures Traced(s, Schedule(s, p).value)
  {
    var s' := Schedule(s, p).value;
    var xs := s.q[READY];
    var prio := s.t[p].priority;
    RankPut(Prio, s.t, s'.t, xs, prio);
    ViewAhead(s.t, xs, prio);
    ViewPlace(s.t, xs, p);
    var i := Rank(Prio, s.t, xs, prio);
    assert s'.q[READY] == xs[..i] + [p] + xs[i..];
    assert ReadyView(s') == View(s.t, xs)[..i] + [(p, prio)] + View(s.t, xs)[i..];
    assert s'.log[|s.log|..] == [Arrive(p, prio)];
    ReplayOne(ReadyView(s), Arrive(p, prio));
  }

  lemma DispatchTraced(s: Sys)
    requires Dispatch(s).Ok?
    ensures Traced(s, Dispatch(s).value)
  {
    var s' := Dispatch(s).value;
    if s.q[READY] == [] {
      QuietTraced(s, s');
    } else {
      var p := s.q[READY][0];
      assert s'.log[|s.log|..] == [Run(p)];
      assert ReadyView(s') == ReadyView(s)[1..];
      ReplayOne(ReadyView(s), Run(p));
    }
  }

  lemma WithdrawTraced(s: Sys, p: Slot)
    requires p in s.q[READY]
    ensures Traced(s, s.Unqueue(READY, p).(log := s.log + [Withdraw(p)]))
  {
    var s' := s.Unqueue(READY, p).(log := s.log + [Withdraw(p)]);
    var i := IndexOf(s.q[READY], p);
    ViewPlace(s.t, s.q[READY], p);
    assert ReadyView(s') == ReadyView(s)[..i] + ReadyView(s)[i + 1..];
    assert s'.log[|s.log|..] == [Withdraw(p)];
    ReplayOne(ReadyView(s), Withdraw(p));
  }

  /** A quiet change followed by a scheduling. */
  lemma QuietSchedule(s: Sys, s1: Sys, p: Slot)
    requires Quiet(s, s1) && p !in s.q[READY] && Schedule(s1, p).Ok?
    ensures Traced(s, Schedule(s1, p).value)
  {
    hide Traced, Schedule;
    QuietTraced(s, s1);
    ScheduleTraced(s1, p);
    TracedTrans(s, s1, Schedule(s1, p).value);
  }

  lemma FreeQuiet(s: Sys, p: Slot)
    requires Free(s, p).Ok?
    ensures Quiet(s, Free(s, p).value)
  {
  }

  lemma ReadyAbsent(s: Sys, run: Ptr, f: set<Slot>, p: Slot)
    requires Mid(s, run, f) && (p in f || Home(s.t[p]) != READY)
    ensures p !in s.q[READY]
  {
  }

  // ---------------------------------------------------------------- zombify

  lemma AdoptTraced(s: Sys, z: Slot)
    requires Adopt(s, z).Ok? && s.init !in s.q[READY]
    ensures Traced(s, Adopt(s, z).value)
  {
    hide Traced, Schedule, Free;
    var s1 := s.Unqueue(ZOMBIE, z).Unqueue(WAITING, s.init);
    var s2: Sys;
    if Accepts(s.t[s.init], s.t[z]) {
      var s1' := s1.Put(s.init, Collected(s.t[s.init], s.t[z]));
      QuietSchedule(s, s1', s.init);
      s2 := Schedule(s1', s.init).value;
    } else {
      QuietTraced(s, s1);
      s2 := s1;
    }
    FreeQuiet(s2, z);
    QuietTraced(s2, Free(s2, z).value);
    TracedTrans(s, s2, Free(s2, z).value);
  }

  lemma BuryTraced(s: Sys, parent: Slot, v: Slot)
    requires Bury(s, parent, v).Ok?
    requires s.t[parent].syscall == SYS_waitpid ==> parent !in s.q[READY]
    ensures Traced(s, Bury(s, parent, v).value)
  {
    hide Traced, Schedule, Free;
    if s.t[parent].syscall == SYS_waitpid && Accepts(s.t[parent], s.t[v]) {
      var s1 := s.Put(parent, Collected(s.t[parent], s.t[v])).Unqueue(WAITING, parent);
      QuietSchedule(s, s1, parent);
      var s2 := Schedule(s1, parent).value;
      FreeQuiet(s2, v);
      QuietTraced(s2, Free(s2, v).value);
      TracedTrans(s, s2, Free(s2, v).value);
    } else {
      QuietTraced(s, Bury(s, parent, v).value);
    }
  }

  lemma WaiterNotReady(s: Sys, run: Ptr, v: Slot, w: Slot)
    requires Mid(s, run, {v}) && s.t[w].syscall == SYS_waitpid && (w == s.init || s.t[v].parent == w)
    requires s.init != v && Live(s.t[v])
    ensures w !in s.q[READY]
  {
    assert ParentOk(s.t, v);
    WaiterQueued(s, run, {v}, w);
    ReadyAbsent(s, run, {v}, w);
  }

  lemma SettleTraced(s: Sys, run: Ptr, v: Slot, z: Ptr)
    requires Orphaned(s, run, v, z)
    requires z != NULL && s.t[s.init].syscall == SYS_waitpid ==> Accepts(s.t[s.init], s.t[z])
    requires Settle(s, z, s.t[v].parent, v).Ok?
    ensures Traced(s, Settle(s, z, s.t[v].parent, v).value)
  {
    hide Traced, Mid, Adopt, Bury;
    var parent := s.t[v].parent;
    if z != NULL && s.t[s.init].syscall == SYS_waitpid {
      WaiterNotReady(s, run, v, s.init);
      AdoptTraced(s, z);
      AdoptKeeps(s, run, v, z);
      var s2 := Adopt(s, z).value;
      if s2.t[parent].syscall == SYS_waitpid { WaiterNotReady(s2, run, v, parent); }
      BuryTraced(s2, parent, v);
      TracedTrans(s, s2, Bury(s2, parent, v).value);
    } else {
      if s.t[parent].syscall == SYS_waitpid { WaiterNotReady(s, run, v, parent); }
      BuryTraced(s, parent, v);
    }
  }

  lemma ZombifyTraced(s: Sys, run: Ptr, v: Slot)
    requires Mid(s, run, {v}) && s.init != v && Alive(s.t[v]) && !Strands(s, v) && Zombify(s, v).Ok?
    ensures Traced(s, Zombify(s, v).value)
  {
    var s1 := s.(t := Reparented(s.t, v, s.init));
    assert Quiet(s, s1);
    hide Traced, Mid, Settle, Reparented;
    QuietTraced(s, s1);
    ReparentOrphans(s, run, v);
    SettleTraced(s1, run, v, LastZombie(s.t, v, 256));
    TracedTrans(s, s1, Zombify(s, v).value);
  }

  // ---------------------------------------------------------------- tick

  lemma {:induction false} ScheduleAllTraced(s: Sys, run: Ptr, ps: seq<Slot>, f: set<Slot>)
    requires Mid(s, run, f) && NoDup(ps) && AllOf(ps, f) && AllAsleep(s.t, run, ps) && ScheduleAll(s, ps).Ok?
    ensures Traced(s, ScheduleAll(s, ps).value)
    decreases |ps|
  {
    hide Traced, Mid, Schedule;
    if ps == [] {
      QuietTraced(s, s);
    } else {
      var p := ps[0];
      Rest(ps);
      ReadyAbsent(s, run, f, p);
      ScheduleTraced(s, p);
      ScheduleKeeps(s, run, p, f);
      var s' := Schedule(s, p).value;
      ScheduleAllTraced(s', run, ps[1..], f - {p});
      TracedTrans(s, s', ScheduleAll(s, ps).value);
    }
  }

  lemma WakeTraced(s: Sys)
    requires Inv(s) && WakeSleepers(s).Ok?
    ensures Traced(s, WakeSleepers(s).value)
  {
    hide Traced, Mid, ScheduleAll;
    var xs := s.q[SLEEPING];
    var n := DuePrefix(s.t, xs, s.now);
    var s1 := s.(q := s.q[SLEEPING := xs[n..]]);
    QuietTraced(s, s1);
    var f := SleepersOut(s, n);
    ScheduleAllTraced(s1, s.current, xs[..n], f);
    TracedTrans(s, s1, WakeSleepers(s).value);
  }

  /** `s1` is `s` up to a quiet change; `p` is scheduled and then somebody is dispatched. */
  lemma YieldTraced(s: Sys, s1: Sys, p: Slot)
    requires Quiet(s, s1) && p !in s.q[READY] && Schedule(s1, p).Ok?
    requires Dispatch(Schedule(s1, p).value.(current := NULL)).Ok?
    ensures Traced(s, Dispatch(Schedule(s1, p).value.(current := NULL)).value)
  {
    hide Traced, Schedule, Dispatch;
    var s2 := Schedule(s1, p).value;
    var s3 := s2.(current := NULL);
    QuietSchedule(s, s1, p);
    QuietTraced(s2, s3);
    TracedTrans(s, s2, s3);
    DispatchTraced(s3);
    TracedTrans(s, s3, Dispatch(s3).value);
  }

  lemma RunnerNotReady(s: Sys, run: Ptr, f: set<Slot>)
    requires Mid(s, run, f) && run != NULL
    ensures run !in s.q[READY]
  {
    if run !in f { assert ProperAt(s.t[run], true); }
  }

  lemma ChargeTraced(s: Sys)
    requires Inv(s) && ChargeTick(s).Ok?
    ensures Traced(s, ChargeTick(s).value)
  {
    hide Traced, Mid, Schedule, Dispatch;
    if s.current == NULL {
      QuietTraced(s, s);
    } else {
      var p: Slot := s.current;
      var s1 := s.Put(p, s.t[p].(ticks := Decrement(s.t[p].ticks)));
      RunnerNotReady(s, p, {});
      if s1.t[p].ticks >= 1 { QuietTraced(s, s1); } else { YieldTraced(s, s1, p); }
    }
  }

  lemma TickTraced(s: Sys)
    requires Inv(s)
    ensures OnTick(s).Ok? && Traced(s, OnTick(s).value)
  {
    hide Inv, Traced, WakeSleepers, ChargeTick;
    var s0 := s.(now := (s.now + 1) % U64);
    TickKeeps(s);
    ClockKeeps(s, s0.now);
    QuietTraced(s, s0);
    WakeKeeps(s0);
    WakeTraced(s0);
    var s1 := WakeSleepers(s0).value;
    ChargeTraced(s1);
    TracedTrans(s, s0, s1);
    TracedTrans(s, s1, OnTick(s).value);
  }

  // ---------------------------------------------------------------- system calls

  lemma ExitTraced(s: Sys, c: Slot, code: nat)
    requires Mid(s, c, {c}) && Caller(s, c) && MayDie(s, c) && DoExit(s, c, code).Ok?
    ensures Traced(s, DoExit(s, c, code).value)
  {
    hide Mid, Traced, Zombify, Dispatch;
    var s1 := s.Put(c, s.t[c].(exitStatus := code % 256));
    QuietTraced(s, s1);
    PutKeeps(s, c, {c}, c, s1.t[c]);
    SameZombies(s.t, s1.t, c, 256);
    ZombifyTraced(s1, c, c);
    var s2 := Zombify(s1, c).value;
    DispatchTraced(s2);
    TracedTrans(s, s1, s2);
    TracedTrans(s, s2, Dispatch(s2).value);
  }

  lemma WaitTraced(s: Sys, c: Slot, pid: nat)
    requires FirstMatch(s.t, c, pid % PID_MOD, 0) == NULL && DoWaitpid(s, c, pid).Ok?
    ensures Traced(s, DoWaitpid(s, c, pid).value)
  {
    var s1 := Enqueue(s.Put(c, s.t[c].(state := Blocked)), WAITING, c).value;
    assert Quiet(s, s1);
    hide Traced, Dispatch, Enqueue;
    QuietTraced(s, s1);
    DispatchTraced(s1);
    TracedTrans(s, s1, Dispatch(s1).value);
  }

  lemma ReturnTraced(s: Sys, c: Slot, r: int)
    ensures Traced(s, Return(s, c, r))
  {
    hide Traced;
    QuietTraced(s, Return(s, c, r));
  }

  lemma ForkTraced(s: Sys, c: Slot, cloned: bool)
    requires Mid(s, c, {}) && Caller(s, c) && MayFork(s, cloned) && DoFork(s, c, cloned).Ok?
    ensures Traced(s, DoFork(s, c, cloned).value)
  {
    hide Mid, Traced, Schedule, Return, Filed;
    if s.q[FREE] == [] {
      ReturnTraced(s, c, -1);
    } else {
      var ch := s.q[FREE][0];
      FirstFree(s, c);
      ReadyAbsent(s, c, {}, ch);
      BornShape(s, c, ch);
      hide Born;
      QuietSchedule(s, Born(s, c, ch), ch);
      var s1 := Schedule(Born(s, c, ch), ch).value;
      ReturnTraced(s1, c, 0);
      TracedTrans(s, s1, Return(s1, c, 0));
    }
  }

  lemma SetprioTraced(s: Sys, c: Slot, prio: nat)
    requires Mid(s, c, {c})
    ensures Traced(s, DoSetprio(s, c, prio))
  {
    hide Mid, Traced;
    ReadyAbsent(s, c, {c}, c);
    QuietTraced(s, DoSetprio(s, c, prio));
  }

  lemma NapTraced(s: Sys, s1: Sys, c: Slot)
    requires Mid(s, c, {c}) && s.current == NULL && s1 == s.Put(c, s1.t[c]) && Schedule(s1, c).Ok?
    requires Dispatch(Schedule(s1, c).value).Ok?
    ensures Traced(s, Dispatch(Schedule(s1, c).value).value)
  {
    hide Mid, Traced, Dispatch, Schedule;
    ReadyAbsent(s, c, {c}, c);
    ScheduleCurrent(s1, c);
    assert Schedule(s1, c).value.(current := NULL) == Schedule(s1, c).value;
    YieldTraced(s, s1, c);
  }

  lemma ExecTraced(s: Sys, c: Slot, loaded: bool, argc: nat)
    requires Mid(s, c, {c}) && s.current == NULL && DoExec(s, c, loaded, argc).Ok?
    ensures Traced(s, DoExec(s, c, loaded, argc).value)
  {
    hide Mid, Traced, Dispatch, Schedule;
    if loaded { NapTraced(s, s.Put(c, s.t[c].(arg1 := argc, arg2 := 0, ret := 0)), c); } else { ReturnTraced(s, c, 1); }
  }

  lemma SleepTraced(s: Sys, c: Slot, ms: nat)
    requires Mid(s, c, {c}) && s.current == NULL && DoSleep(s, c, ms).Ok?
    ensures Traced(s, DoSleep(s, c, ms).value)
  {
    hide Mid, Traced, Dispatch, Schedule;
    if ms == 0 {
      NapTraced(s, s.Put(c, s.t[c].(ret := 0)), c);
    } else {
      var s1 := s.Put(c, s.t[c].(wakeup := (s.now + ms) % U64));
      if Linked(s.q, c) {
        QuietTraced(s, Return(s1, c, 1));
      } else {
        var s2 := Enqueue(s1, SLEEPING, c).value;
        var s3 := s2.Put(c, s2.t[c].(state := Blocked));
        QuietTraced(s, s3);
        DispatchTraced(s3);
        TracedTrans(s, s3, Dispatch(s3).value);
      }
    }
  }

  lemma FellTraced(s: Sys, c: Slot, v: Slot, k: Qid)
    requires Mid(s, c, {}) && Alive(s.t[v]) && Home(s.t[v]) == k && MayDie(s, v) && Fell(s, c, v, k).Ok?
    ensures Traced(s, Fell(s, c, v, k).value)
  {
    hide Mid, Traced, Zombify, Return;
    InQueue(s, c, v, k);
    VictimFloats(s, c, v, k);
    var s0 := s.Put(v, s.t[v].(exitStatus := 1));
    var s1 := s0.Unqueue(k, v);
    var s2 := if k == READY then s1.(log := s1.log + [Withdraw(v)]) else s1;
    QuietTraced(s, s0);
    if k == READY { WithdrawTraced(s0, v); } else { QuietTraced(s0, s2); }
    TracedTrans(s, s0, s2);
    MidLog(s1, c, {v}, s2.log);
    ZombifyTraced(s2, c, v);
    var s3 := Zombify(s2, v).value;
    ReturnTraced(s3, c, 0);
    TracedTrans(s, s2, s3);
    TracedTrans(s, s3, Return(s3, c, 0));
  }

  lemma KillTraced(s: Sys, c: Slot, pid: nat)
    requires Mid(s, c, {}) && Mid(s, c, {c}) && Caller(s, c) && MayKill(s, c, pid) && DoKill(s, c, pid).Ok?
    ensures Traced(s, DoKill(s, c, pid).value)
  {
    hide Traced, Fell, DoExit, Return, Owned, Strands;
    var v := Lookup(s.t, pid % PID_MOD);
    if v == NULL || !Owned(s.t, s.t[c].pid, v) {
      ReturnTraced(s, c, 1);
    } else {
      assert ProperAt(s.t[v], v == c);
      hide Mid;
      match s.t[v].state
      case Zombie => ReturnTraced(s, c, 0);
      case Ready => FellTraced(s, c, v, READY);
      case Blocked => FellTraced(s, c, v, WAIT + s.t[v].syscall);
      case Running => ExitTraced(s, c, 1);
    }
  }

  lemma CallTraced(s: Sys, call: Call)
    requires Inv(s) && s.current != NULL && call.Valid() && Safe(s, Do(call)) && DoCall(s, call).Ok?
    ensures Traced(s, DoCall(s, call).value)
  {
    hide Inv, Mid, Traced, Strands, MayKill, Owned;
    hide DoExit, DoWaitpid, DoFork, DoKill, DoSleep, DoExec, DoSetprio, Return;
    var c: Slot := s.current;
    var e := Enter(s, call);
    EnterKeeps(s, call);
    QuietTraced(s, e);
    if call.Number() != SYS_waitpid {
      EnterStrands(s, call, c);
      RunnerBack(e, c);
    }
    match call {
      case Exit(code) => ExitTraced(e, c, code);
      case BadNumber(_) => ExitTraced(e, c, 1);
      case Waitpid(pid, _) =>
        SameMatches(s.t, e.t, c, pid % PID_MOD, 0);
        WaitTraced(e, c, pid);
      case Fork(cloned) => ForkTraced(e, c, cloned);
      case Setprio(prio) => SetprioTraced(e, c, prio);
      case Kill(pid) =>
        EnterMayKill(s, call, pid);
        KillTraced(e, c, pid);
      case Sleep(ms) => SleepTraced(e, c, ms);
      case Exec(loaded, argc) => ExecTraced(e, c, loaded, argc);
      case Other(_, r) => ReturnTraced(e, c, r);
    }
    TracedTrans(s, e, DoCall(s, call).value);
  }

  lemma StepTraced(s: Sys, e: Event, s': Sys)
    requires Inv(s) && StepsTo(s, e, s')
    ensures Traced(s, s')
  {
    hide Inv, Traced, OnTick, DoCall, Dispatch, Safe;
    match e
    case Tick => TickTraced(s);
    case Resume => DispatchTraced(s);
    case Do(call) => CallTraced(s, call);
  }

  // ---------------------------------------------------------------- runs

  lemma {:induction false} RunTraced(r: Trace, i: nat, j: nat)
    requires r.Legal() && Inv(r.states[0]) && i <= j < |r.states|
    ensures Traced(r.states[i], r.states[j])
    decreases j
  {
    hide Inv, Traced, StepsTo;
    if i == j {
      QuietTraced(r.states[i], r.states[i]);
    } else {
      RunTraced(r, i, j - 1);
      RunInv(r, j - 1);
      assert StepsTo(r.states[j - 1], r.events[j - 1], r.states[j]);
      StepTraced(r.states[j - 1], r.events[j - 1], r.states[j]);
      TracedTrans(r.states[i], r.states[j - 1], r.states[j]);
    }
  }

  lemma ViewHolds(s: Sys, p: Slot)
    requires Inv(s) && p in s.q[READY]
    ensures Prioritised(ReadyView(s)) && Holds(ReadyView(s), p, s.t[p].priority, IndexOf(s.q[READY], p))
  {
    assert Sorted(Prio, s.t, s.q[READY]) by { assert Sorted(OrderOf(READY), s.t, s.q[READY]); }
    hide Mid;
    ViewPlace(s.t, s.q[READY], p);
  }

  /** In any run, a process that is ready in state `i` with `k` others ahead of it is dispatched (or
      killed) before more than `k` dispatches have happened, not counting those made up for by
      arrivals with a strictly smaller priority value. */
  lemma BoundedOvertaking(r: Trace, i: nat, j: nat, p: Slot)
    requires r.Legal() && Inv(r.states[0]) && i <= j < |r.states| && p in r.states[i].q[READY]
    ensures r.states[i].log <= r.states[j].log
    ensures var es := r.states[j].log[|r.states[i].log|..];
      var k := IndexOf(r.states[i].q[READY], p);
      Runs(es) > k + Urgent(es, r.states[i].t[p].priority) ==> Run(p) in es || Withdraw(p) in es
  {
    var s := r.states[i];
    RunTraced(r, i, j);
    RunInv(r, i);
    ViewHolds(s, p);
    hide Inv, Holds, Prioritised;
    var es := r.states[j].log[|s.log|..];
    var k := IndexOf(s.q[READY], p);
    if Runs(es) > k + Urgent(es, s.t[p].priority) { MustLeave(ReadyView(s), es, p, s.t[p].priority, k); }
  }

  lemma ViewPosition(s: Sys, p: Slot, prio: nat, k: nat)
    requires Holds(ReadyView(s), p, prio, k)
    ensures p in s.q[READY] && IndexOf(s.q[READY], p) == k
  {
    ViewPlace(s.t, s.q[READY], p);
  }

  /** While no event concerns `p` it stays ready, and its place moves back only by arrivals with a
      strictly smaller priority value; every dispatch brings it one place forward. */
  lemma PlaceInQueue(r: Trace, i: nat, j: nat, p: Slot)
    requires r.Legal() && Inv(r.states[0]) && i <= j < |r.states| && p in r.states[i].q[READY]
    requires forall n :: |r.states[i].log| <= n < |r.states[j].log| ==> r.states[j].log[n].who != p
    ensures r.states[i].log <= r.states[j].log && p in r.states[j].q[READY]
    ensures var es := r.states[j].log[|r.states[i].log|..];
      IndexOf(r.states[j].q[READY], p) + Runs(es)
        <= IndexOf(r.states[i].q[READY], p) + Urgent(es, r.states[i].t[p].priority)
  {
    var s := r.states[i];
    RunTraced(r, i, j);
    RunInv(r, i);
    ViewHolds(s, p);
    hide Inv, Holds, Prioritised;
    var es := r.states[j].log[|s.log|..];
    forall e | e in es ensures e.who != p {}
    var k' := Overtaking(ReadyView(s), es, p, s.t[p].priority, IndexOf(s.q[READY], p));
    ViewPosition(r.states[j], p, s.t[p].priority, k');
  }
}
