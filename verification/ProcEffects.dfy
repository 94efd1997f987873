/** What every step does, process by process, in terms of the state before it. */
module ProcEffects {
  import opened Base
  import opened ProcSpec
  import opened ProcQueueLaws
  import opened ProcInv
  import opened ProcSteps
  import opened ProcFairness
  import opened ProcTrace
  import opened ProcTheorems

  // ---------------------------------------------------------------- who runs next

  /** With the ready queue `rq` and the table `u`, the head of the queue runs with three ticks and in no call,
      and nobody runs if the queue is empty. */
  ghost predicate Elected(rq: seq<Ticket>, u: Table, log: seq<Sched>, s': Sys) {
    if rq == [] then s'.current == NULL && s'.t == u && s'.q[READY] == [] && s'.log == log
    else
      var p := rq[0].0;
      && rq[0].1 == u[p].priority && s'.current == p
      && s'.t == u[p := u[p].(state := Running, ticks := 3, syscall := 0)]
      && ReadyView(s') == rq[1..] && s'.log == log + [Run(p)]
  }

  /** The table becomes `u`, `es` happens to the ready queue, and then the processor is given to its head. */
  ghost predicate Elects(s: Sys, es: seq<Sched>, u: Table, s': Sys) {
    var rq := Replay(ReadyView(s), es); rq.Ok? && Elected(rq.value, u, s.log + es, s')
  }

  /** The table becomes `u`, `es` happens to the ready queue, and whoever was running runs on. */
  ghost predicate Continues(s: Sys, es: seq<Sched>, u: Table, s': Sys) {
    && s'.current == s.current && s'.t == u && s'.log == s.log + es
    && Replay(ReadyView(s), es) == Ok(ReadyView(s'))
  }

  lemma DispatchElects(s: Sys, s1: Sys, es: seq<Sched>, s': Sys)
    requires Traced(s, s1) && s1.log == s.log + es && Dispatch(s1) == Ok(s')
    ensures Elects(s, es, s1.t, s')
  {
    assert s1.log[|s.log|..] == es;
    if s1.q[READY] != [] { assert ReadyView(s') == ReadyView(s1)[1..]; }
  }

  lemma TracedContinues(s: Sys, es: seq<Sched>, s': Sys)
    requires Traced(s, s') && s'.log == s.log + es && s'.current == s.current
    ensures Continues(s, es, s'.t, s')
  {
    assert s'.log[|s.log|..] == es;
  }

  lemma {:induction false} ReplayMembers(rq: seq<Ticket>, es: seq<Sched>, k: nat)
    requires Replay(rq, es).Ok? && k < |Replay(rq, es).value|
    ensures var p := Replay(rq, es).value[k];
      (exists i :: 0 <= i < |rq| && rq[i] == p) || Arrive(p.0, p.1) in es
    decreases |es|
  {
    if es != [] {
      var r1 := Apply(rq, es[0]).value;
      ReplayMembers(r1, es[1..], k);
      var p := Replay(rq, es).value[k];
      if i :| 0 <= i < |r1| && r1[i] == p { ApplyMember(rq, es[0], i); }
    }
  }

  lemma ApplyMember(rq: seq<Ticket>, e: Sched, i: nat)
    requires Apply(rq, e).Ok? && i < |Apply(rq, e).value|
    ensures var p := Apply(rq, e).value[i];
      (exists j :: 0 <= j < |rq| && rq[j] == p) || e == Arrive(p.0, p.1)
  {
    hide Place, Ahead;
  }

  /** Only a process that was ready, or has just become so, is elected; all others are as in `u`. */
  lemma ElectsOther(s: Sys, es: seq<Sched>, u: Table, s': Sys, x: Slot)
    requires Elects(s, es, u, s') && x !in s.q[READY] && forall a :: a in es ==> a.who != x
    ensures s'.t[x] == u[x] && s'.current != x
  {
    var rq := Replay(ReadyView(s), es).value;
    if rq != [] { ReplayMembers(ReadyView(s), es, 0); }
  }

  /** An elected process keeps all but its state, its ticks and its call number. */
  lemma ElectsAny(s: Sys, es: seq<Sched>, u: Table, s': Sys, x: Slot)
    requires Elects(s, es, u, s')
    ensures s'.t[x] == u[x] || s'.t[x] == u[x].(state := Running, ticks := 3, syscall := 0)
  {
  }

  /** An idle processor takes the head of the ready queue. */
  lemma ResumeElects(s: Sys, s': Sys)
    requires Enabled(s, Resume) && Step(s, Resume) == Ok(s')
    ensures Elects(s, [], s.t, s')
  {
    QuietTraced(s, s);
    DispatchElects(s, s, [], s');
  }

  // ---------------------------------------------------------------- the tick

  /** The first `n` sleepers are due, and the next one is not. */
  ghost predicate Due(s: Sys, now: nat, n: nat) {
    var xs := s.q[SLEEPING];
    n <= |xs| && (forall i :: 0 <= i < n ==> s.t[xs[i]].wakeup < now) && (n < |xs| ==> s.t[xs[n]].wakeup >= now)
  }

  function Arrivals(t: Table, ps: seq<Slot>): seq<Sched> {
    seq(|ps|, i requires 0 <= i < |ps| => Arrive(ps[i], t[ps[i]].priority))
  }

  /** The processes `ps` are ready, and nobody else changed. */
  ghost predicate Woken(t: Table, u: Table, ps: seq<Slot>) {
    forall x: Slot :: u[x] == if x in ps then t[x].(state := Ready, syscall := 0) else t[x]
  }

  lemma {:induction false} ScheduleAllLog(s: Sys, ps: seq<Slot>)
    requires ScheduleAll(s, ps).Ok? && NoDup(ps)
    ensures ScheduleAll(s, ps).value.log == s.log + Arrivals(s.t, ps)
    decreases |ps|
  {
    hide Enqueue;
    if ps != [] {
      var s1 := Schedule(s, ps[0]).value;
      ScheduleLog(s, ps[0]);
      ScheduleAllLog(s1, ps[1..]);
      assert Arrivals(s.t, ps) == [Arrive(ps[0], s.t[ps[0]].priority)] + Arrivals(s1.t, ps[1..]);
    }
  }

  lemma ScheduleLog(s: Sys, p: Slot)
    requires Schedule(s, p).Ok?
    ensures Schedule(s, p).value.log == s.log + [Arrive(p, s.t[p].priority)]
    ensures Schedule(s, p).value.t == s.t[p := s.t[p].(state := Ready, syscall := 0)]
  {
  }

  /** What becomes of the running process, once the sleepers that are due are awake and `es` is logged. */
  ghost predicate Charged(s: Sys, es: seq<Sched>, u: Table, s': Sys) {
    var c := s.current;
    if c == NULL then Continues(s, es, u, s')
    else if s.t[c].ticks > 1 then Continues(s, es, u[c := s.t[c].(ticks := s.t[c].ticks - 1)], s')
    else Elects(s, es + [Arrive(c, s.t[c].priority)], u[c := s.t[c].(state := Ready, ticks := 0)], s')
  }

  lemma {:induction false} DueOnce(t: Table, xs: seq<Slot>, now: nat, n: nat)
    requires n <= |xs| && (forall i :: 0 <= i < n ==> t[xs[i]].wakeup < now) && (n < |xs| ==> t[xs[n]].wakeup >= now)
    ensures DuePrefix(t, xs, now) == n
  {
    DuePrefixLongest(t, xs, now);
  }

  lemma RunnerFacts(s: Sys)
    requires Inv(s) && s.current != NULL
    ensures var p := s.t[s.current];
      p.state.Running? && p.syscall == 0 && 1 <= p.ticks <= 3 && s.current !in s.q[READY] && s.current !in s.q[SLEEPING]
  {
    hide Family;
    assert ProperAt(s.t[s.current], true);
  }

  lemma ChargeCharges(s: Sys, es: seq<Sched>, s1: Sys, s': Sys)
    requires Inv(s1) && Traced(s, s1) && s1.log == s.log + es && s1.current == s.current
    requires s.current != NULL ==> s1.t[s.current] == s.t[s.current]
    requires ChargeTick(s1) == Ok(s')
    ensures Charged(s, es, s1.t, s')
  {
    hide Inv, Traced, Schedule, Dispatch, Elects, Continues;
    if s.current == NULL {
      TracedContinues(s, es, s1);
    } else {
      RunnerFacts(s1);
      var c: Slot := s.current;
      var s2 := s1.Put(c, s1.t[c].(ticks := s1.t[c].ticks - 1));
      QuietTraced(s1, s2);
      TracedTrans(s, s1, s2);
      if s.t[c].ticks > 1 {
        TracedContinues(s, es, s2);
      } else {
        ScheduleLog(s2, c);
        QuietSchedule(s1, s2, c);
        var s3 := Schedule(s2, c).value;
        var s4 := s3.(current := NULL);
        TracedTrans(s, s1, s3);
        QuietTraced(s3, s4);
        TracedTrans(s, s3, s4);
        assert s4.log == s.log + (es + [Arrive(c, s.t[c].priority)]);
        assert s4.t == s1.t[c := s.t[c].(state := Ready, ticks := 0)];
        DispatchElects(s, s4, es + [Arrive(c, s.t[c].priority)], s');
      }
    }
  }

  lemma PrefixNoDup(s: Sys, k: Qid, n: nat)
    requires Inv(s) && n <= |s.q[k]|
    ensures NoDup(s.q[k][..n])
  {
    assert NoDup(s.q[k]);
  }

  /** A tick wakes the sleepers that are due.  A running process with more than one tick left goes on with one
      tick less; with its last tick gone it is ready again, and the head of the queue runs. */
  lemma TickElects(s: Sys, s': Sys, n: nat)
    requires Inv(s) && Step(s, Tick) == Ok(s') && Due(s, (s.now + 1) % 0x1_0000_0000_0000_0000, n)
    ensures s'.now == (s.now + 1) % 0x1_0000_0000_0000_0000
    ensures exists u: Table ::
      Woken(s.t, u, s.q[SLEEPING][..n]) && Charged(s, Arrivals(s.t, s.q[SLEEPING][..n]), u, s')
  {
    hide Inv, Traced, ScheduleAll, ChargeTick, Charged;
    var s0 := s.(now := (s.now + 1) % U64);
    ClockKeeps(s, s0.now);
    DueOnce(s.t, s.q[SLEEPING], s0.now, n);
    WakeKeeps(s0);
    WakeTraced(s0);
    PrefixNoDup(s0, SLEEPING, n);
    var ps := s.q[SLEEPING][..n];
    var s1 := WakeSleepers(s0).value;
    ScheduleAllLog(s0.(q := s0.q[SLEEPING := s0.q[SLEEPING][n..]]), ps);
    QuietTraced(s, s0);
    TracedTrans(s, s0, s1);
    ChargeNow(s1);
    if s.current != NULL { RunnerFacts(s); }
    ChargeCharges(s, Arrivals(s.t, ps), s1, s');
    assert Woken(s.t, s1.t, ps);
  }

  // ---------------------------------------------------------------- calls that return

  /** The caller goes on as `p`, up to its argument registers, and nothing else changes. */
  ghost predicate Goes(s: Sys, p: Pcb, s': Sys)
    requires s.current != NULL
  {
    var c: Slot := s.current;
    s' == s.(t := s.t[c := p.(arg1 := s'.t[c].arg1, arg2 := s'.t[c].arg2)])
  }

  /** The caller goes on with result `r`. */
  ghost predicate Answers(s: Sys, r: int, s': Sys)
    requires s.current != NULL
  {
    Goes(s, s.t[s.current].(ret := r), s')
  }

  lemma OtherAnswers(s: Sys, num: nat, r: int, s': Sys)
    requires Inv(s) && Enabled(s, Do(Other(num, r))) && Step(s, Do(Other(num, r))) == Ok(s')
    ensures Answers(s, r, s')
  {
    RunnerFacts(s);
    hide Inv;
  }

  lemma SetprioAnswers(s: Sys, prio: nat, s': Sys)
    requires Inv(s) && Enabled(s, Do(Setprio(prio))) && Step(s, Do(Setprio(prio))) == Ok(s')
    ensures var p := s.t[s.current];
      Goes(s, p.(ret := p.priority, priority := prio % 0x1_0000_0000), s')
  {
    RunnerFacts(s);
    hide Inv;
  }

  /** exec of a program that cannot be loaded returns 1; a loaded one starts afresh when its turn comes. */
  lemma ExecAnswers(s: Sys, loaded: bool, argc: nat, s': Sys)
    requires Inv(s) && Enabled(s, Do(Exec(loaded, argc))) && Step(s, Do(Exec(loaded, argc))) == Ok(s')
    ensures !loaded ==> Answers(s, 1, s')
    ensures loaded ==>
      var c: Slot := s.current;
      var p := s.t[c].(state := Ready, arg1 := argc, arg2 := 0, ret := 0);
      Elects(s, [Arrive(c, p.priority)], s.t[c := p], s')
  {
    hide Inv, Elects, Schedule, Dispatch, Return, Quiet;
    RunnerFacts(s);
    var e, c: Slot := Enter(s, Exec(loaded, argc)), s.current;
    EnterQuiet(s, Exec(loaded, argc));
    if loaded {
      var s1 := e.Put(c, e.t[c].(arg1 := argc, arg2 := 0, ret := 0));
      QuietPut(s, e, c, s1.t[c]);
      YieldElects(s, s1, s');
      assert s1.t[c := s1.t[c].(state := Ready, syscall := 0)]
          == s.t[c := s.t[c].(state := Ready, arg1 := argc, arg2 := 0, ret := 0)];
    } else {
      ReturnGoes(s, e, 1);
    }
  }

  lemma EnterQuiet(s: Sys, call: Call)
    requires s.current != NULL && s.current !in s.q[READY]
    ensures Quiet(s, Enter(s, call))
  {
  }

  lemma QuietPut(s: Sys, s1: Sys, c: Slot, p: Pcb)
    requires Quiet(s, s1) && c !in s.q[READY]
    ensures Quiet(s, s1.Put(c, p))
  {
  }

  lemma ReturnGoes(s: Sys, e: Sys, r: int)
    requires s.current != NULL && s.t[s.current].syscall == 0
    requires e == s.(t := s.t[s.current := e.t[s.current]], current := NULL)
    requires var p := e.t[s.current];
      p == s.t[s.current].(syscall := p.syscall, arg1 := p.arg1, arg2 := p.arg2, ret := 0)
    ensures Answers(s, r, Return(e, s.current, r))
  {
  }

  /** The caller is ready again, and the head of the queue runs. */
  lemma YieldElects(s: Sys, s1: Sys, s': Sys)
    requires s.current != NULL && s.current !in s.q[READY] && s1.current == NULL
    requires Quiet(s, s1) && s1.t[s.current].priority == s.t[s.current].priority
    requires Schedule(s1, s.current).Ok? && Dispatch(Schedule(s1, s.current).value) == Ok(s')
    ensures var c: Slot := s.current;
      Elects(s, [Arrive(c, s.t[c].priority)], s1.t[c := s1.t[c].(state := Ready, syscall := 0)], s')
  {
    hide Elects, Schedule, Dispatch, Traced;
    var c: Slot := s.current;
    QuietSchedule(s, s1, c);
    ScheduleLog(s1, c);
    DispatchElects(s, Schedule(s1, c).value, [Arrive(c, s.t[c].priority)], s');
  }

  /** sleep(0) gives way to the others; any other sleep blocks until the clock has passed the wake-up time. */
  lemma SleepElects(s: Sys, ms: nat, s': Sys)
    requires Inv(s) && Enabled(s, Do(Sleep(ms))) && Step(s, Do(Sleep(ms))) == Ok(s')
    ensures var c: Slot := s.current;
      var p := s.t[c].(arg1 := ms, arg2 := 0, ret := 0);
      if ms == 0 then Elects(s, [Arrive(c, p.priority)], s.t[c := p.(state := Ready)], s')
      else
        var wakeup := (s.now + ms) % 0x1_0000_0000_0000_0000;
        Elects(s, [], s.t[c := p.(state := Blocked, syscall := 14, wakeup := wakeup)], s')
  {
    hide Inv, Elects, Schedule, Dispatch, Linked, Quiet, Enqueue;
    RunnerFacts(s);
    NobodyLinked(s, s.current);
    var e, c: Slot := Enter(s, Sleep(ms)), s.current;
    EnterQuiet(s, Sleep(ms));
    if ms == 0 {
      QuietPut(s, e, c, e.t[c].(ret := 0));
      YieldElects(s, e.Put(c, e.t[c].(ret := 0)), s');
      assert e.t[c := e.t[c].(ret := 0)][c := e.t[c].(ret := 0, state := Ready, syscall := 0)]
          == s.t[c := s.t[c].(arg1 := ms, arg2 := 0, ret := 0, state := Ready)];
    } else {
      var s1 := e.Put(c, e.t[c].(wakeup := (s.now + ms) % U64));
      var s2 := Enqueue(s1, SLEEPING, c).value;
      QuietPut(s, e, c, s1.t[c]);
      QuietEnqueue(s, s1, SLEEPING, c);
      QuietPut(s, s2, c, s2.t[c].(state := Blocked));
      QuietElects(s, s2.Put(c, s2.t[c].(state := Blocked)), s');
      var p := s.t[c].(arg1 := ms, arg2 := 0, ret := 0);
      assert s2.t[c := s2.t[c].(state := Blocked)]
          == s.t[c := p.(state := Blocked, syscall := 14, wakeup := (s.now + ms) % U64)];
    }
  }

  lemma QuietEnqueue(s: Sys, s1: Sys, k: Qid, c: Slot)
    requires Quiet(s, s1) && k != READY && Enqueue(s1, k, c).Ok?
    ensures Quiet(s, Enqueue(s1, k, c).value) && Enqueue(s1, k, c).value.t == s1.t
  {
    hide Linked, Inserted;
  }

  lemma QuietElects(s: Sys, s1: Sys, s': Sys)
    requires Quiet(s, s1) && Dispatch(s1) == Ok(s')
    ensures Elects(s, [], s1.t, s')
  {
    hide Elects, Dispatch, Traced;
    QuietTraced(s, s1);
    assert s1.log == s.log + [];
    DispatchElects(s, s1, [], s');
  }

  /** The running process is in no queue. */
  lemma NobodyLinked(s: Sys, c: Slot)
    requires Inv(s) && s.current == c
    ensures !Linked(s.q, c)
  {
    hide Family;
    assert ProperAt(s.t[c], true);
    Float(s.t, s.q, {}, c);
    NotLinked(s.t, s.q, {} + {c}, c);
  }

  // ---------------------------------------------------------------- waitpid

  /** `z` is a dead child of `c` that waitpid(pid) asks for. */
  predicate Matches(t: Table, c: Slot, pid: nat, z: Slot) {
    t[z].state.Zombie? && t[z].parent == c && (pid % 0x1_0000 == 0 || pid % 0x1_0000 == t[z].pid)
  }

  /** Without a dead child that matches, the caller blocks with its request. */
  lemma WaitElects(s: Sys, pid: nat, ptr: nat, s': Sys)
    requires Inv(s) && Enabled(s, Do(Waitpid(pid, ptr))) && Step(s, Do(Waitpid(pid, ptr))) == Ok(s')
    requires forall z: Slot :: !Matches(s.t, s.current, pid, z)
    ensures var c: Slot := s.current;
      var p := s.t[c].(state := Blocked, syscall := 1, arg1 := pid, arg2 := ptr, ret := 0);
      Elects(s, [], s.t[c := p], s')
  {
    hide Inv, Elects, Dispatch, Quiet, Enqueue, FirstMatch, Free;
    RunnerFacts(s);
    var call := Waitpid(pid, ptr);
    var e, c: Slot := Enter(s, call), s.current;
    EnterQuiet(s, call);
    var z := FirstMatch(e.t, c, pid % PID_MOD, 0);
    assert z != NULL ==> Matches(s.t, c, pid, z);
    var s1 := e.Put(c, e.t[c].(state := Blocked));
    QuietPut(s, e, c, s1.t[c]);
    QuietEnqueue(s, s1, WAITING, c);
    QuietElects(s, Enqueue(s1, WAITING, c).value, s');
    assert s1.t == s.t[c := s.t[c].(state := Blocked, syscall := 1, arg1 := pid, arg2 := ptr, ret := 0)];
  }

  /** With one, the call returns the pid of the first in the table at once, writes its status through a pointer
      that must not be NULL, and frees its entry. */
  lemma WaitReaps(s: Sys, pid: nat, ptr: nat, s': Sys, z: Slot)
    requires Inv(s) && Enabled(s, Do(Waitpid(pid, ptr))) && Step(s, Do(Waitpid(pid, ptr))) == Ok(s')
    requires Matches(s.t, s.current, pid, z) && forall y: Slot :: y < z ==> !Matches(s.t, s.current, pid, y)
    ensures var c: Slot := s.current;
      && ptr != 0 && s'.current == c && s'.log == s.log
      && s'.t == s.t[z := s.t[z].(state := Unused)]
                    [c := s.t[c].(arg1 := pid, arg2 := ptr, ret := s.t[z].pid, status := s.t[z].exitStatus)]
  {
    hide Inv, Free, Dispatch, Enqueue, FirstMatch;
    RunnerFacts(s);
    var e, c: Slot := Enter(s, Waitpid(pid, ptr)), s.current;
    forall y: Slot ensures Matches(e.t, c, pid, y) == Matches(s.t, c, pid, y) {}
    FirstIs(e.t, c, pid, 0, z);
    PidPositive(s, z);
    FreeShape(e.Put(c, e.t[c].(status := e.t[z].exitStatus)), z);
  }

  lemma FreeShape(s: Sys, p: Slot)
    ensures Free(s, p).Ok? ==>
      var s' := Free(s, p).value;
      s'.t == s.t[p := s.t[p].(state := Unused)] && s'.log == s.log && s'.current == s.current && s'.init == s.init
  {
  }

  lemma {:induction false} FirstIs(t: Table, c: Slot, pid: nat, i: nat, z: Slot)
    requires i <= z && Matches(t, c, pid, z) && forall y: Slot :: i <= y < z ==> !Matches(t, c, pid, y)
    ensures FirstMatch(t, c, pid % PID_MOD, i) == z
    decreases z - i
  {
    assert i < z ==> !Matches(t, c, pid, i);
    if i < z { FirstIs(t, c, pid, i + 1, z); }
  }

  lemma PidPositive(s: Sys, z: Slot)
    requires Inv(s) && Live(s.t[z])
    ensures s.t[z].pid >= 1
  {
  }

  // ---------------------------------------------------------------- fork

  /** fork returns -1 exactly when no entry is free or the address space cannot be copied.  Otherwise the first
      free entry becomes a ready child that sees 0, and the caller goes on with its pid. */
  lemma ForkAnswers(s: Sys, cloned: bool, s': Sys)
    requires Inv(s) && Enabled(s, Do(Fork(cloned))) && Step(s, Do(Fork(cloned))) == Ok(s')
    ensures s'.current == s.current && (s'.t[s.current].ret == -1 <==> s.q[FREE] == [] || !cloned)
    ensures s.q[FREE] == [] ==> Answers(s, -1, s')
    ensures s.q[FREE] != [] && !cloned ==>
      s'.t[s.q[FREE][0]].state.New? && s'.q == s.q[FREE := s.q[FREE][1..]] && s'.log == s.log
    ensures s.q[FREE] != [] && cloned ==>
      var c: Slot, ch, u := s.current, s.q[FREE][0], s'.t;
      && Continues(s, [Arrive(ch, s.t[c].priority)], u, s')
      && u[ch] == s.t[ch].(pid := s.nextPid, parent := c, state := Ready, priority := s.t[c].priority, ticks := 0,
                           syscall := 0, ret := 0, arg1 := u[c].arg1, arg2 := u[c].arg2)
      && u[c] == s.t[c].(ret := s.nextPid, arg1 := u[c].arg1, arg2 := u[c].arg2)
      && forall x: Slot :: x != c && x != ch ==> u[x] == s.t[x]
  {
    hide Inv, Continues, Schedule, Born, Alloced, Return;
    RunnerFacts(s);
    var e, c: Slot := Enter(s, Fork(cloned)), s.current;
    if s.q[FREE] == [] {
      ReturnGoes(s, e, -1);
    } else {
      var ch := s.q[FREE][0];
      FreeFacts(s, ch);
      if cloned { ForkBears(s, e, ch, s'); } else { ForkLeaves(e, c, ch); }
    }
  }

  lemma FreeFacts(s: Sys, ch: Slot)
    requires Inv(s) && ch in s.q[FREE]
    ensures ch != s.current && ch !in s.q[READY] && s.nextPid >= 0
  {
    hide Family;
    assert Home(s.t[ch]) == FREE;
    if s.current != NULL { assert ProperAt(s.t[s.current], true); }
  }

  lemma ForkLeaves(s: Sys, c: Slot, ch: Slot)
    requires s.q[FREE] != [] && ch != c
    ensures var s' := Return(Alloced(s, c, ch), c, -1);
      && s'.current == c && s'.t[c].ret == -1 && s'.t[ch].state.New?
      && s'.q == s.q[FREE := s.q[FREE][1..]] && s'.log == s.log
  {
  }

  lemma ForkBears(s: Sys, e: Sys, ch: Slot, s': Sys)
    requires s.current != NULL && s.q[FREE] != [] && ch == s.q[FREE][0] && ch != s.current
    requires ch !in s.q[READY] && s.current !in s.q[READY] && s.t[s.current].syscall == 0 && e == Enter(s, Fork(true))
    requires var b := Schedule(Born(e, s.current, ch), ch); b.Ok? && s' == Return(b.value, s.current, 0)
    ensures var c: Slot, u := s.current, s'.t;
      && s'.current == c && Continues(s, [Arrive(ch, s.t[c].priority)], u, s')
      && u[ch] == s.t[ch].(pid := s.nextPid, parent := c, state := Ready, priority := s.t[c].priority, ticks := 0,
                           syscall := 0, ret := 0, arg1 := u[c].arg1, arg2 := u[c].arg2)
      && u[c] == s.t[c].(ret := s.nextPid, arg1 := u[c].arg1, arg2 := u[c].arg2)
      && forall x: Slot :: x != c && x != ch ==> u[x] == s.t[x]
  {
    hide Continues, Schedule, Traced;
    var c: Slot := s.current;
    var b := Born(e, c, ch);
    var s1 := Schedule(b, ch).value;
    ScheduleLog(b, ch);
    QuietSchedule(s, b, ch);
    ReturnTraced(s1, c, 0);
    TracedTrans(s, s1, s');
    TracedContinues(s, [Arrive(ch, s.t[c].priority)], s');
  }
}
