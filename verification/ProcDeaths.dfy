/** What the death of a process means for every other: who inherits its children, who returns from waitpid. */
module ProcDeaths {
  import opened ProcSpec
  import opened ProcQueueLaws
  import opened ProcInv
  import opened ProcSteps
  import opened ProcForkKill
  import opened ProcRuns
  import opened ProcTrace
  import opened ProcFates
  import opened ProcTheorems
  import opened ProcEffects

  /** `z` is the zombie child of `v` with the highest index in the table, or NULL if there is none. */
  ghost predicate LastDead(t: Table, v: Slot, z: Ptr) {
    && (z != NULL ==> t[z].state.Zombie? && t[z].parent == v)
    && forall y: Slot :: y > z ==> !(t[y].state.Zombie? && t[y].parent == v)
  }

  /** Blocked in waitpid. */
  predicate Waits(p: Pcb) { p.state.Blocked? && p.syscall == 1 }

  /** Blocked in waitpid for this pid, or for any child. */
  predicate Wants(p: Pcb, pid: nat) { Waits(p) && (p.arg1 % 0x1_0000 == 0 || p.arg1 % 0x1_0000 == pid) }

  /** `p` once its waitpid has returned. */
  function Served(p: Pcb, pid: nat, status: nat): Pcb {
    p.(state := Ready, syscall := 0, ret := pid, status := if p.arg2 != 0 then status else p.status)
  }

  /** A waiting init returns with the zombie `z` that it inherits from the dead. */
  predicate Inherits(s: Sys, z: Ptr) { z != NULL && Waits(s.t[s.init]) }

  /** The parent of `v` waits for it, and has not just been served as init. */
  predicate Claims(s: Sys, v: Slot, z: Ptr) {
    var w := s.t[v].parent; w != NULL && Wants(s.t[w], s.t[v].pid) && !(w == s.init && Inherits(s, z))
  }

  /** What the death of `v` with exit status `code` makes of `x`. */
  function Bereft(s: Sys, v: Slot, code: nat, z: Ptr, x: Slot): Pcb {
    var p := if !s.t[x].state.Unused? && s.t[x].parent == v then s.t[x].(parent := s.init) else s.t[x];
    if x == v then p.(exitStatus := code, state := if Claims(s, v, z) then Unused else Zombie)
    else if Inherits(s, z) && x == s.init then Served(p, s.t[z].pid, s.t[z].exitStatus)
    else if Inherits(s, z) && x == z then p.(state := Unused)
    else if Claims(s, v, z) && x == s.t[v].parent then Served(p, s.t[v].pid, code)
    else p
  }

  /** Those who return from waitpid join the ready queue, init first. */
  function Comers(s: Sys, v: Slot, z: Ptr): seq<Sched> {
    (if Inherits(s, z) then [Arrive(s.init, s.t[s.init].priority)] else [])
    + if Claims(s, v, z) then [Arrive(s.t[v].parent, s.t[s.t[v].parent].priority)] else []
  }

  // ---------------------------------------------------------------- zombify

  lemma {:induction false} LastIs(t: Table, v: Slot, z: Ptr, n: nat)
    requires LastDead(t, v, z) && z < n <= 256
    ensures LastZombie(t, v, n) == z
  {
    if z < n - 1 { LastIs(t, v, z, n - 1); }
  }

  lemma ReparentedIs(t: Table, v: Slot, init: Slot, x: Slot)
    ensures Reparented(t, v, init)[x]
         == if !t[x].state.Unused? && t[x].parent == v then t[x].(parent := init) else t[x]
  {
  }

  /** The dying process and its parent are not waiting for anybody by mistake. */
  lemma WaitsMeans(s: Sys, v: Slot)
    requires Bereaved(s, v)
    ensures Waits(s.t[s.init]) <==> s.t[s.init].syscall == SYS_waitpid
    ensures Waits(s.t[s.t[v].parent]) <==> s.t[s.t[v].parent].syscall == SYS_waitpid
  {
  }

  /** Before the dead process itself is dealt with: its children are init's, and init may be served. */
  function Adopted(s: Sys, v: Slot, z: Ptr, x: Slot): Pcb {
    var p := if !s.t[x].state.Unused? && s.t[x].parent == v then s.t[x].(parent := s.init) else s.t[x];
    if Inherits(s, z) && x == s.init then Served(p, s.t[z].pid, s.t[z].exitStatus)
    else if Inherits(s, z) && x == z then p.(state := Unused)
    else p
  }

  lemma TableAdopted(s: Sys, v: Slot, z: Ptr, x: Slot)
    requires Bereaved(s, v) && !Strands(s, v) && z == LastZombie(s.t, v, 256)
    ensures AdoptedTable(Reparented(s.t, v, s.init), s.init, z)[x] == Adopted(s, v, z, x)
  {
    hide Reparented, LastZombie;
    WaitsMeans(s, v);
    ReparentedIs(s.t, v, s.init, x);
    ReparentedIs(s.t, v, s.init, s.init);
    if z != NULL { ReparentedIs(s.t, v, s.init, z); }
  }

  lemma TableBereft(s: Sys, s': Sys, v: Slot, z: Ptr, x: Slot)
    requires Bereaved(s, v) && !Strands(s, v) && Zombified(s, s', v) && LastDead(s.t, v, z)
    ensures s'.t[x] == Bereft(s, v, s.t[v].exitStatus, z, x)
  {
    hide Reparented, LastZombie, AdoptedTable, Strands;
    LastIs(s.t, v, z, 256);
    WaitsMeans(s, v);
    TableAdopted(s, v, z, x);
    TableAdopted(s, v, z, v);
    TableAdopted(s, v, z, s.t[v].parent);
  }

  lemma AdoptLog(s: Sys, z: Slot)
    requires Adopt(s, z).Ok? && Accepts(s.t[s.init], s.t[z]) && z != s.init
    ensures var s' := Adopt(s, z).value;
      && s'.log == s.log + [Arrive(s.init, s.t[s.init].priority)] && s'.init == s.init
      && s'.t == s.t[s.init := Collected(s.t[s.init], s.t[z]).(state := Ready, syscall := 0)]
                    [z := s.t[z].(state := Unused)]
  {
    hide Schedule, Free;
    var s1 := s.Unqueue(ZOMBIE, z).Unqueue(WAITING, s.init).Put(s.init, Collected(s.t[s.init], s.t[z]));
    ScheduleLog(s1, s.init);
    ScheduleInit(s1, s.init);
    FreeShape(Schedule(s1, s.init).value, z);
  }

  lemma ScheduleInit(s: Sys, p: Slot)
    requires Schedule(s, p).Ok?
    ensures Schedule(s, p).value.init == s.init
  {
  }

  lemma BuryLog(s: Sys, parent: Slot, v: Slot)
    requires Bury(s, parent, v).Ok?
    ensures Bury(s, parent, v).value.log == s.log
      + if s.t[parent].syscall == SYS_waitpid && Accepts(s.t[parent], s.t[v])
        then [Arrive(parent, s.t[parent].priority)] else []
  {
    hide Schedule, Free;
    if s.t[parent].syscall == SYS_waitpid && Accepts(s.t[parent], s.t[v]) {
      var s1 := s.Put(parent, Collected(s.t[parent], s.t[v])).Unqueue(WAITING, parent);
      ScheduleLog(s1, parent);
      FreeShape(Schedule(s1, parent).value, v);
    }
  }

  lemma SettleLog(s: Sys, z: Ptr, parent: Slot, v: Slot)
    requires Settle(s, z, parent, v).Ok? && z != s.init
    requires z != NULL && s.t[s.init].syscall == SYS_waitpid ==> Accepts(s.t[s.init], s.t[z])
    ensures var u := AdoptedTable(s.t, s.init, z);
      Settle(s, z, parent, v).value.log == s.log
        + (if z != NULL && s.t[s.init].syscall == SYS_waitpid then [Arrive(s.init, s.t[s.init].priority)] else [])
        + if u[parent].syscall == SYS_waitpid && Accepts(u[parent], u[v])
          then [Arrive(parent, u[parent].priority)] else []
  {
    hide Adopt, Bury;
    if z != NULL && s.t[s.init].syscall == SYS_waitpid {
      AdoptLog(s, z);
      BuryLog(Adopt(s, z).value, parent, v);
    } else {
      BuryLog(s, parent, v);
    }
  }

  lemma ZombifyLog(s: Sys, v: Slot, z: Ptr)
    requires Bereaved(s, v) && !Strands(s, v) && Zombify(s, v).Ok? && LastDead(s.t, v, z)
    ensures Zombify(s, v).value.log == s.log + Comers(s, v, z)
  {
    hide Reparented, LastZombie, AdoptedTable, Settle, Strands;
    LastIs(s.t, v, z, 256);
    WaitsMeans(s, v);
    TableAdopted(s, v, z, v);
    TableAdopted(s, v, z, s.t[v].parent);
    var s1 := s.(t := Reparented(s.t, v, s.init));
    ReparentedIs(s.t, v, s.init, s.init);
    if z != NULL { ReparentedIs(s.t, v, s.init, z); }
    StrandsNot(s, v, z);
    SettleLog(s1, z, s.t[v].parent, v);
  }

  lemma StrandsNot(s: Sys, v: Slot, z: Ptr)
    requires !Strands(s, v) && z == LastZombie(s.t, v, 256)
    ensures z != NULL && s.t[s.init].syscall == SYS_waitpid ==> Accepts(s.t[s.init], s.t[z])
  {
  }

  /** Where zombify leads from a good state. */
  lemma ZombifyBereaves(s: Sys, run: Ptr, v: Slot, z: Ptr)
    requires Mid(s, run, {v}) && s.init != v && Alive(s.t[v]) && !Strands(s, v) && LastDead(s.t, v, z)
    ensures Zombify(s, v).Ok?
    ensures var s' := Zombify(s, v).value;
      && (forall x: Slot :: s'.t[x] == Bereft(s, v, s.t[v].exitStatus, z, x))
      && s'.log == s.log + Comers(s, v, z) && s'.current == s.current && Traced(s, s')
  {
    hide Mid, Zombify, Strands, Bereft, Traced, Zombified, Bereaved, LastDead;
    MidBereaved(s, run, v);
    ZombifyKeeps(s, run, v);
    var s' := Zombify(s, v).value;
    forall x: Slot ensures s'.t[x] == Bereft(s, v, s.t[v].exitStatus, z, x) { TableBereft(s, s', v, z, x); }
    ZombifyLog(s, v, z);
    ZombifyTraced(s, run, v);
  }

  // ---------------------------------------------------------------- exit and kill

  /** All of a process but the registers and the number of a call in progress. */
  function Bare(p: Pcb): Pcb { p.(ret := 0, syscall := 0, arg1 := 0, arg2 := 0) }

  /** `v` has died with exit status `code`, and the table is `u`. */
  ghost predicate Departed(s: Sys, v: Slot, code: nat, z: Ptr, u: Table) {
    forall x: Slot ::
      if x == s.current then Bare(u[x]) == Bare(Bereft(s, v, code, z, x)) else u[x] == Bereft(s, v, code, z, x)
  }

  /** The running process has entered a call, and the exit status of `v` is filled in. */
  ghost predicate Prepared(s: Sys, s1: Sys, v: Slot, code: nat) {
    && s1.init == s.init && s.current != NULL && s.t[s.current].state.Running?
    && forall y: Slot ::
      var p := if y == v then s.t[y].(exitStatus := code) else s.t[y];
      if y == s.current then Bare(s1.t[y]) == Bare(p) else s1.t[y] == p
  }

  lemma PreparedSame(s: Sys, s1: Sys, v: Slot, code: nat, z: Ptr)
    requires Prepared(s, s1, v, code) && !s.t[v].state.Zombie? && s.init != v && s.t[v].parent != v
    ensures LastDead(s1.t, v, z) <==> LastDead(s.t, v, z)
    ensures Inherits(s1, z) <==> Inherits(s, z)
    ensures Claims(s1, v, z) <==> Claims(s, v, z)
    ensures Comers(s1, v, z) == Comers(s, v, z)
  {
    forall y: Slot
      ensures s1.t[y].state == s.t[y].state && s1.t[y].parent == s.t[y].parent && s1.t[y].pid == s.t[y].pid
      ensures s1.t[y].priority == s.t[y].priority
      ensures Waits(s1.t[y]) == Waits(s.t[y]) && Wants(s1.t[y], s.t[v].pid) == Wants(s.t[y], s.t[v].pid)
    {
      assert Bare(s1.t[y]) == Bare(if y == v then s.t[y].(exitStatus := code) else s.t[y]);
    }
  }

  /** Neither those who wait nor the zombie is running. */
  lemma Bystanders(s: Sys, v: Slot, z: Ptr)
    requires s.current != NULL && s.t[s.current].state.Running? && Alive(s.t[v]) && LastDead(s.t, v, z)
    ensures Inherits(s, z) ==> z != NULL && z != v && z != s.current && s.init != s.current
    ensures Claims(s, v, z) ==> s.t[v].parent != NULL && s.t[v].parent != s.current
  {
  }

  lemma PreparedBereft(s: Sys, s1: Sys, v: Slot, code: nat, z: Ptr, x: Slot)
    requires Prepared(s, s1, v, code) && Alive(s.t[v]) && s.init != v && s.t[v].parent != v && LastDead(s.t, v, z)
    ensures var p, p1 := Bereft(s, v, code, z, x), Bereft(s1, v, code, z, x);
      if x == s.current then Bare(p1) == Bare(p) else p1 == p
  {
    hide LastDead, Claims, Inherits, Comers;
    PreparedSame(s, s1, v, code, z);
    Bystanders(s, v, z);
  }

  lemma LiveParent(s: Sys, v: Slot)
    requires Inv(s) && Live(s.t[v]) && v != s.init
    ensures s.t[v].parent != v
  {
    hide Filed, Proper;
    assert ParentOk(s.t, v);
  }

  lemma AllDeparted(s: Sys, s1: Sys, v: Slot, code: nat, z: Ptr, u: Table)
    requires Prepared(s, s1, v, code) && Alive(s.t[v]) && s.init != v && s.t[v].parent != v && LastDead(s.t, v, z)
    requires forall x: Slot :: u[x] == Bereft(s1, v, code, z, x)
    ensures Departed(s, v, code, z, u)
  {
    hide Prepared, Bereft, LastDead;
    forall x: Slot
      ensures if x == s.current then Bare(u[x]) == Bare(Bereft(s, v, code, z, x)) else u[x] == Bereft(s, v, code, z, x)
    {
      PreparedBereft(s, s1, v, code, z, x);
    }
  }

  lemma ExitPrepared(s: Sys, call: Call, code: nat)
    requires Inv(s) && s.current != NULL && call.Number() != SYS_waitpid && MayDie(s, s.current)
    ensures var c: Slot, e := s.current, Enter(s, call);
      var s1 := e.Put(c, e.t[c].(exitStatus := code));
      && Mid(s1, c, {c}) && !Strands(s1, c) && Alive(s1.t[c]) && Prepared(s, s1, c, code)
      && Quiet(s, s1)
  {
    hide Inv, Mid, Strands;
    RunnerFacts(s);
    var c: Slot, e := s.current, Enter(s, call);
    EnterKeeps(s, call);
    EnterStrands(s, call, c);
    PutKeeps(e, c, {c}, c, e.t[c].(exitStatus := code));
    PutStrands(e, c, code);
  }

  /** The caller dies, and the processor goes to the head of the queue. */
  lemma ExitDeparts(s: Sys, call: Call, code: nat, s': Sys, z: Ptr)
    requires Inv(s) && s.current != NULL && call.Number() != SYS_waitpid && MayDie(s, s.current)
    requires DoExit(Enter(s, call), s.current, code) == Ok(s') && LastDead(s.t, s.current, z)
    ensures exists u: Table ::
      Departed(s, s.current, code % 256, z, u) && Elects(s, Comers(s, s.current, z), u, s')
  {
    hide Inv, Mid, Strands, Zombify, Dispatch, Elects, Departed, Comers, LastDead, Prepared, Traced, Quiet;
    var c: Slot, e := s.current, Enter(s, call);
    var s1 := e.Put(c, e.t[c].(exitStatus := code % 256));
    RunnerFacts(s);
    LiveParent(s, c);
    ExitPrepared(s, call, code % 256);
    PreparedSame(s, s1, c, code % 256, z);
    ZombifyBereaves(s1, c, c, z);
    var s2 := Zombify(s1, c).value;
    AllDeparted(s, s1, c, code % 256, z, s2.t);
    QuietTraced(s, s1);
    QuietLog(s, s1);
    TracedTrans(s, s1, s2);
    DispatchElects(s, s2, Comers(s, c, z), s');
  }

  lemma QuietLog(s: Sys, s1: Sys)
    requires Quiet(s, s1)
    ensures s1.log == s.log
  {
  }

  /** exit, and a call number out of range, end the caller with the low byte of its code, or with 1. */
  lemma ExitElects(s: Sys, call: Call, s': Sys, z: Ptr)
    requires Inv(s) && StepsTo(s, Do(call), s') && (call.Exit? || call.BadNumber?) && LastDead(s.t, s.current, z)
    ensures var code := if call.Exit? then call.code % 256 else 1;
      exists u: Table :: Departed(s, s.current, code, z, u) && Elects(s, Comers(s, s.current, z), u, s')
  {
    hide Inv, Departed, Elects, Comers, LastDead, DoExit;
    ExitDeparts(s, call, if call.Exit? then call.code else 1, s', z);
  }

  // ---------------------------------------------------------------- kill

  /** `v` is the caller or a descendant of it, and kill(pid) names it. */
  ghost predicate Named(s: Sys, pid: nat, v: Slot)
    requires s.current != NULL
  {
    !s.t[v].state.Unused? && s.t[v].pid == pid % 0x1_0000 && Ancestor(s.t, s.current, v)
  }

  lemma LookupNamed(s: Sys, pid: nat, v: Slot)
    requires Inv(s) && s.current != NULL && Named(s, pid, v)
    ensures var e := Enter(s, Kill(pid));
      Lookup(e.t, pid % PID_MOD) == v && Owned(e.t, e.t[s.current].pid, v)
  {
    hide Inv, Owned, Ancestor;
    var e := Enter(s, Kill(pid));
    UniquePid(s, v, v);
    SamePids(s.t, e.t, pid % PID_MOD, 0);
    var w := Lookup(s.t, pid % PID_MOD);
    if w != NULL { UniquePid(s, v, w); }
    InvOwned(s, v);
    SameOwned(s.t, e.t, s.t[s.current].pid, v);
  }

  lemma LookupOther(s: Sys, pid: nat)
    requires Inv(s) && s.current != NULL && forall v: Slot :: !Named(s, pid, v)
    ensures var e := Enter(s, Kill(pid));
      var v := Lookup(e.t, pid % PID_MOD);
      v == NULL || !Owned(e.t, e.t[s.current].pid, v)
  {
    hide Inv, Owned, Ancestor;
    var e := Enter(s, Kill(pid));
    SamePids(s.t, e.t, pid % PID_MOD, 0);
    var v := Lookup(s.t, pid % PID_MOD);
    if v != NULL {
      InvOwned(s, v);
      SameOwned(s.t, e.t, s.t[s.current].pid, v);
      assert !Named(s, pid, v);
    }
  }

  /** kill of a pid that names nobody below the caller returns 1, and of one that is dead already 0. */
  lemma KillSpares(s: Sys, pid: nat, s': Sys)
    requires Inv(s) && Enabled(s, Do(Kill(pid))) && Step(s, Do(Kill(pid))) == Ok(s')
    ensures (forall v: Slot :: !Named(s, pid, v)) ==> Answers(s, 1, s')
    ensures (exists v: Slot :: Named(s, pid, v) && s.t[v].state.Zombie?) ==> Answers(s, 0, s')
  {
    hide Inv, Owned, Named, Return, Answers, Lookup, Fell, DoExit;
    RunnerFacts(s);
    var e := Enter(s, Kill(pid));
    if forall v: Slot :: !Named(s, pid, v) {
      LookupOther(s, pid);
      ReturnGoes(s, e, 1);
    }
    if v: Slot :| Named(s, pid, v) && s.t[v].state.Zombie? {
      LookupNamed(s, pid, v);
      ReturnGoes(s, e, 0);
    }
  }

  /** kill of oneself is an exit with status 1. */
  lemma KillSelf(s: Sys, pid: nat, s': Sys, z: Ptr)
    requires Inv(s) && StepsTo(s, Do(Kill(pid)), s') && Named(s, pid, s.current) && LastDead(s.t, s.current, z)
    ensures exists u: Table ::
      Departed(s, s.current, 1, z, u) && Elects(s, Comers(s, s.current, z), u, s')
  {
    hide Inv, Owned, Lookup, DoExit, Departed, Elects, Comers, LastDead, MayDie, Fell, Return, Ancestor;
    RunnerFacts(s);
    LookupNamed(s, pid, s.current);
    EnterMayKill(s, Kill(pid), pid);
    MayDieEntered(s, Kill(pid), s.current);
    ExitDeparts(s, Kill(pid), 1, s', z);
  }

  lemma MayDieEntered(s: Sys, call: Call, v: Slot)
    requires Inv(s) && s.current != NULL && call.Number() != SYS_waitpid
    ensures MayDie(Enter(s, call), v) == MayDie(s, v)
  {
    hide Inv, Strands;
    EnterStrands(s, call, v);
  }

  lemma FellPrepared(s: Sys, v: Slot, k: Qid, pid: nat)
    requires Inv(s) && s.current != NULL && v != s.current && Alive(s.t[v]) && Home(s.t[v]) == k && MayDie(s, v)
    ensures var c: Slot, e := s.current, Enter(s, Kill(pid));
      var s1 := e.Put(v, e.t[v].(exitStatus := 1)).Unqueue(k, v);
      var s2 := if k == READY then s1.(log := s1.log + [Withdraw(v)]) else s1;
      && Mid(e, c, {}) && MayDie(e, v)
      && Mid(s2, c, {v}) && !Strands(s2, v) && Alive(s2.t[v]) && Prepared(s, s2, v, 1)
      && s2.log == s.log + if k == READY then [Withdraw(v)] else []
  {
    hide Inv, Mid, Strands;
    RunnerFacts(s);
    var c: Slot, e := s.current, Enter(s, Kill(pid));
    EnterKeeps(s, Kill(pid));
    EnterStrands(s, Kill(pid), v);
    RunnerBack(e, c);
    InQueue(e, c, v, k);
    VictimFloats(e, c, v, k);
    var s1 := e.Put(v, e.t[v].(exitStatus := 1)).Unqueue(k, v);
    var s2 := if k == READY then s1.(log := s1.log + [Withdraw(v)]) else s1;
    MidLog(s1, c, {v}, s2.log);
    StrandsDepends(s1, s2, v);
  }

  /** The caller goes on; `v` is dead. */
  lemma FellDeparts(s: Sys, v: Slot, k: Qid, pid: nat, s': Sys, z: Ptr)
    requires Inv(s) && s.current != NULL && v != s.current && Alive(s.t[v]) && Home(s.t[v]) == k && MayDie(s, v)
    requires Fell(Enter(s, Kill(pid)), s.current, v, k) == Ok(s') && LastDead(s.t, v, z)
    ensures Departed(s, v, 1, z, s'.t) && s'.t[s.current].ret == 0
    ensures Continues(s, (if k == READY then [Withdraw(v)] else []) + Comers(s, v, z), s'.t, s')
  {
    hide Inv, Mid, Strands, Zombify, Departed, Comers, LastDead, Prepared, Traced, Quiet, Return, Bereft, Continues;
    var c: Slot, e := s.current, Enter(s, Kill(pid));
    var s1 := e.Put(v, e.t[v].(exitStatus := 1)).Unqueue(k, v);
    var s2 := if k == READY then s1.(log := s1.log + [Withdraw(v)]) else s1;
    var es := if k == READY then [Withdraw(v)] else [];
    RunnerFacts(s);
    LiveParent(s, v);
    FellPrepared(s, v, k, pid);
    PreparedSame(s, s2, v, 1, z);
    ZombifyBereaves(s2, c, v, z);
    var s3 := Zombify(s2, v).value;
    AllDeparted(s, s2, v, 1, z, s3.t);
    CallerStays(s2, v, z, c);
    ReturnDeparted(s, v, z, s3);
    FellTraced(e, c, v, k);
    EnterQuiet(s, Kill(pid));
    QuietTraced(s, e);
    TracedTrans(s, e, s');
    assert s'.log == s.log + (es + Comers(s, v, z)) by { ReturnLog(s3, c, 0); }
    ReturnLog(s3, c, 0);
    TracedContinues(s, es + Comers(s, v, z), s');
  }

  lemma ReturnLog(s: Sys, c: Slot, r: int)
    ensures Return(s, c, r).log == s.log && Return(s, c, r).current == c
  {
  }

  /** A process that does not wait keeps its registers. */
  lemma CallerStays(s: Sys, v: Slot, z: Ptr, c: Slot)
    requires c != v && s.t[c].state.Running? && LastDead(s.t, v, z)
    ensures Bereft(s, v, s.t[v].exitStatus, z, c).ret == s.t[c].ret
  {
  }

  lemma ReturnDeparted(s: Sys, v: Slot, z: Ptr, s3: Sys)
    requires s.current != NULL && Departed(s, v, 1, z, s3.t) && s3.t[s.current].ret == 0
    ensures Departed(s, v, 1, z, Return(s3, s.current, 0).t) && Return(s3, s.current, 0).t[s.current].ret == 0
  {
    hide Bereft;
  }

  /** kill of a living descendant ends it with status 1, and the caller goes on with 0. */
  lemma KillOther(s: Sys, pid: nat, s': Sys, v: Slot, z: Ptr)
    requires Inv(s) && StepsTo(s, Do(Kill(pid)), s') && Named(s, pid, v) && v != s.current
    requires !s.t[v].state.Zombie? && LastDead(s.t, v, z)
    ensures Departed(s, v, 1, z, s'.t) && s'.t[s.current].ret == 0
    ensures Continues(s, (if s.t[v].state.Ready? then [Withdraw(v)] else []) + Comers(s, v, z), s'.t, s')
  {
    hide Inv, Owned, Lookup, DoExit, Departed, Continues, Comers, LastDead, MayDie, Fell, Return, Ancestor;
    LookupNamed(s, pid, v);
    EnterMayKill(s, Kill(pid), pid);
    MayDieEntered(s, Kill(pid), v);
    VictimState(s, v);
    FellDeparts(s, v, Home(s.t[v]), pid, s', z);
  }

  lemma VictimState(s: Sys, v: Slot)
    requires Inv(s) && Alive(s.t[v]) && v != s.current
    ensures s.t[v].state.Ready? || (s.t[v].state.Blocked? && s.t[v].syscall < N_SYSCALLS)
    ensures Home(s.t[v]) == READY <==> s.t[v].state.Ready?
  {
    hide Family, Filed;
    assert ProperAt(s.t[v], v == s.current);
  }

  /** Whatever kill does to others, a caller that it does not name gets 1 if it names nobody below the caller,
      and 0 otherwise. */
  lemma KillResult(s: Sys, pid: nat, s': Sys)
    requires Inv(s) && Enabled(s, Do(Kill(pid))) && Step(s, Do(Kill(pid))) == Ok(s')
    requires !Named(s, pid, s.current)
    ensures s'.current == s.current
    ensures s'.t[s.current].ret == if exists v: Slot :: Named(s, pid, v) then 0 else 1
  {
    hide Inv, Owned, Named, Return, Lookup, Fell, DoExit;
    RunnerFacts(s);
    KillSpares(s, pid, s');
    if v: Slot :| Named(s, pid, v) && !s.t[v].state.Zombie? {
      LookupNamed(s, pid, v);
      NamedAlive(s, pid, v);
      VictimState(s, v);
      FellReturns(Enter(s, Kill(pid)), s.current, v, Home(s.t[v]), s');
    }
  }

  lemma NamedAlive(s: Sys, pid: nat, v: Slot)
    requires s.current != NULL && Named(s, pid, v) && !s.t[v].state.Zombie?
    ensures Alive(s.t[v])
  {
  }

  lemma FellReturns(s: Sys, c: Slot, v: Slot, k: Qid, s': Sys)
    requires c != v && s.t[c].ret == 0 && s.t[c].syscall != SYS_waitpid && Fell(s, c, v, k) == Ok(s')
    ensures s'.current == c && s'.t[c].ret == 0
  {
    hide Zombify;
    var s1 := s.Put(v, s.t[v].(exitStatus := 1)).Unqueue(k, v);
    ZombifySpares(if k == READY then s1.(log := s1.log + [Withdraw(v)]) else s1, v, c);
  }

  /** Only those who wait get a result when somebody dies. */
  lemma ZombifySpares(s: Sys, v: Slot, c: Slot)
    requires Zombify(s, v).Ok? && c != v && s.t[c].syscall != SYS_waitpid
    ensures Zombify(s, v).value.t[c].ret == s.t[c].ret
  {
    hide Schedule, Free, Reparented, LastZombie, Enqueue;
    var s1 := s.(t := Reparented(s.t, v, s.init));
    ReparentedIs(s.t, v, s.init, c);
    ReparentedIs(s.t, v, s.init, s.init);
    var z := LastZombie(s.t, v, 256);
    if z != NULL && s1.t[s.init].syscall == SYS_waitpid {
      AdoptSpares(s1, z, c);
      BurySpares(Adopt(s1, z).value, s.t[v].parent, v, c);
    } else {
      BurySpares(s1, s.t[v].parent, v, c);
    }
  }

  lemma AdoptSpares(s: Sys, z: Slot, c: Slot)
    requires Adopt(s, z).Ok? && s.init != c
    ensures var p := Adopt(s, z).value.t[c]; p.ret == s.t[c].ret && p.syscall == s.t[c].syscall
  {
    hide Schedule, Free;
    var s1 := s.Unqueue(ZOMBIE, z).Unqueue(WAITING, s.init);
    if Accepts(s.t[s.init], s.t[z]) {
      var s2 := s1.Put(s.init, Collected(s.t[s.init], s.t[z]));
      ScheduleLog(s2, s.init);
      FreeShape(Schedule(s2, s.init).value, z);
    } else {
      FreeShape(s1, z);
    }
  }

  lemma BurySpares(s: Sys, parent: Slot, v: Slot, c: Slot)
    requires Bury(s, parent, v).Ok? && c != v && s.t[c].syscall != SYS_waitpid
    ensures Bury(s, parent, v).value.t[c].ret == s.t[c].ret
  {
    hide Schedule, Free;
    if s.t[parent].syscall == SYS_waitpid && Accepts(s.t[parent], s.t[v]) {
      var s1 := s.Put(parent, Collected(s.t[parent], s.t[v])).Unqueue(WAITING, parent);
      ScheduleLog(s1, parent);
      FreeShape(Schedule(s1, parent).value, v);
    }
  }

  // ---------------------------------------------------------------- who returns from waitpid

  /** The call ends `v` with exit status `code`. */
  ghost predicate Ends(s: Sys, call: Call, v: Slot, code: nat)
    requires s.current != NULL
  {
    match call
    case Exit(a) => v == s.current && code == a % 256
    case BadNumber(_) => v == s.current && code == 1
    case Kill(pid) => Named(s, pid, v) && !s.t[v].state.Zombie? && code == 1
    case _ => false
  }

  /** Up to the process that runs next, `x` is what the death makes of it. */
  ghost predicate After(s: Sys, v: Slot, code: nat, z: Ptr, s': Sys, x: Slot) {
    var p := Bereft(s, v, code, z, x);
    s'.t[x] == p || (p.state.Ready? && s'.t[x] == p.(state := Running, ticks := 3, syscall := 0))
  }

  lemma ReadyStays(s: Sys, v: Slot, code: nat, z: Ptr, x: Slot)
    requires x != v && LastDead(s.t, v, z)
    requires s.t[x].state.Ready? || exists a :: a in Comers(s, v, z) && a.who == x
    ensures Bereft(s, v, code, z, x).state.Ready?
  {
  }

  lemma ElectsAfter(s: Sys, v: Slot, code: nat, z: Ptr, u: Table, s': Sys, x: Slot)
    requires Inv(s) && LastDead(s.t, v, z) && v == s.current && x != v
    requires Departed(s, v, code, z, u) && Elects(s, Comers(s, v, z), u, s')
    ensures After(s, v, code, z, s', x)
  {
    hide Inv, Elects, Bereft, Comers, LastDead;
    ElectsAny(s, Comers(s, v, z), u, s', x);
    if x in s.q[READY] {
      InvReady(s, x);
      ReadyStays(s, v, code, z, x);
    } else if exists a :: a in Comers(s, v, z) && a.who == x {
      ReadyStays(s, v, code, z, x);
    } else {
      ElectsOther(s, Comers(s, v, z), u, s', x);
    }
  }

  lemma DeadStays(s: Sys, v: Slot, code: nat, z: Ptr, u: Table, s': Sys)
    requires Inv(s) && v == s.current && LastDead(s.t, v, z)
    requires Departed(s, v, code, z, u) && Elects(s, Comers(s, v, z), u, s')
    ensures s'.t[v].state == Bereft(s, v, code, z, v).state
  {
    hide Inv, Elects, Bereft;
    RunnerFacts(s);
    assert Bare(u[v]) == Bare(Bereft(s, v, code, z, v));
    ComersOther(s, v, z);
    ElectsOther(s, Comers(s, v, z), u, s', v);
  }

  lemma ComersOther(s: Sys, v: Slot, z: Ptr)
    requires s.t[v].state.Running?
    ensures forall a :: a in Comers(s, v, z) ==> a.who != v
  {
  }

  /** A call that ends `v` makes of every process, bar the caller, what the death makes of it. */
  lemma DeathTable(s: Sys, call: Call, s': Sys, v: Slot, code: nat, z: Ptr)
    requires Inv(s) && StepsTo(s, Do(call), s') && Ends(s, call, v, code) && LastDead(s.t, v, z)
    ensures forall x: Slot :: x != s.current && x != v ==> After(s, v, code, z, s', x)
    ensures s'.t[v].state == Bereft(s, v, code, z, v).state
  {
    hide Inv, LastDead, Step, Safe, Elects, Comers, Bereft, After, Continues, Named;
    if v == s.current {
      var u: Table;
      if call.Kill? {
        KillSelf(s, call.pid, s', z);
        u :| Departed(s, v, code, z, u) && Elects(s, Comers(s, v, z), u, s');
      } else {
        ExitElects(s, call, s', z);
        u :| Departed(s, v, code, z, u) && Elects(s, Comers(s, v, z), u, s');
      }
      DeadStays(s, v, code, z, u, s');
      forall x: Slot | x != v ensures After(s, v, code, z, s', x) { ElectsAfter(s, v, code, z, u, s', x); }
    } else {
      KillOther(s, call.pid, s', v, z);
      forall x: Slot | x != s.current && x != v ensures After(s, v, code, z, s', x) { Unmoved(s, v, code, z, s', x); }
    }
  }

  lemma Unmoved(s: Sys, v: Slot, code: nat, z: Ptr, s': Sys, x: Slot)
    requires Departed(s, v, code, z, s'.t) && x != s.current
    ensures After(s, v, code, z, s', x)
  {
    hide Bereft;
  }

  lemma FiledDead(s: Sys, x: Slot)
    requires Inv(s)
    ensures s.t[x].state.Unused? ==> x in s.q[FREE]
    ensures s.t[x].state.Zombie? ==> x in s.q[ZOMBIE]
  {
    assert Home(s.t[x]) == FREE || Home(s.t[x]) == ZOMBIE || Alive(s.t[x]);
  }

  /** When `v` dies, its waiting parent `w` returns with its pid and status, and the entry of `v` is free again,
      if and only if `w` asked for that pid or for any child; otherwise `w` does not change, and `v` is a zombie,
      as it is if `w` does not wait.  (A waiting init that inherits a zombie returns with that one instead.) */
  lemma DeathServes(s: Sys, call: Call, s': Sys, v: Slot, code: nat, w: Slot)
    requires Inv(s) && StepsTo(s, Do(call), s') && Ends(s, call, v, code) && s.t[v].parent == w
    requires w == s.init ==> forall y: Slot :: !(s.t[y].state.Zombie? && s.t[y].parent == v)
    ensures var p, p' := s.t[w], s'.t[w];
      if p.state.Blocked? && p.syscall == 1 && (p.arg1 % 0x1_0000 == 0 || p.arg1 % 0x1_0000 == s.t[v].pid) then
        && Runnable(p') && p'.ret == s.t[v].pid && p'.status == (if p.arg2 != 0 then code else p.status)
        && s'.t[v].state.Unused? && v in s'.q[FREE]
      else
        && (p.state.Blocked? ==> p' == p)
        && s'.t[v].state.Zombie? && v in s'.q[ZOMBIE]
  {
    hide Inv, Step, Safe;
    var z := LastZombie(s.t, v, 256);
    StepExact(s, Do(call));
    EndsParent(s, call, v, code);
    DeathTable(s, call, s', v, code, z);
    FiledDead(s', v);
    assert w != s.current ==> After(s, v, code, z, s', w);
  }

  lemma EndsParent(s: Sys, call: Call, v: Slot, code: nat)
    requires Inv(s) && Enabled(s, Do(call)) && Safe(s, Do(call)) && Ends(s, call, v, code)
    ensures Alive(s.t[v]) && v != s.init && s.t[v].parent != v && s.t[s.current].state.Running?
    ensures s.t[v].parent != NULL && s.t[s.t[v].parent].parent != v
  {
    hide Filed, Strands, Owned, Ancestor, Lookup;
    EndsAlive(s, call, v, code);
    assert ParentOk(s.t, v);
    var w := s.t[v].parent;
    if w != s.init { assert ParentOk(s.t, w); }
  }

  lemma EndsAlive(s: Sys, call: Call, v: Slot, code: nat)
    requires Inv(s) && Enabled(s, Do(call)) && Safe(s, Do(call)) && Ends(s, call, v, code)
    ensures Alive(s.t[v]) && v != s.init && s.t[s.current].state.Running?
  {
    hide Inv, Strands, Owned, Ancestor, Lookup;
    RunnerFacts(s);
    if call.Kill? {
      LookupNamed(s, call.pid, v);
      EnterMayKill(s, call, call.pid);
      MayDieEntered(s, call, v);
    }
  }

  /** A waiting init returns with the zombie that it inherits from the dead process, the one of the highest index,
      whose entry is free again. */
  lemma DeathInherits(s: Sys, call: Call, s': Sys, v: Slot, code: nat, z: Slot)
    requires Inv(s) && StepsTo(s, Do(call), s') && Ends(s, call, v, code) && LastDead(s.t, v, z)
    requires var p := s.t[s.init]; p.state.Blocked? && p.syscall == 1
    ensures var p, p' := s.t[s.init], s'.t[s.init];
      && (p.arg1 % 0x1_0000 == 0 || p.arg1 % 0x1_0000 == s.t[z].pid)
      && Runnable(p') && p'.ret == s.t[z].pid && p'.status == (if p.arg2 != 0 then s.t[z].exitStatus else p.status)
      && s'.t[z].state.Unused? && z in s'.q[FREE]
      && (s.t[v].parent == s.init ==> s'.t[v].state.Zombie? && v in s'.q[ZOMBIE])
  {
    hide Inv, Step, Safe, Strands, Ends;
    StepExact(s, Do(call));
    EndsParent(s, call, v, code);
    DeathTable(s, call, s', v, code, z);
    FiledDead(s', v);
    FiledDead(s', z);
    EndsServes(s, call, v, code, z);
    assert After(s, v, code, z, s', s.init) && After(s, v, code, z, s', z);
  }

  lemma EndsServes(s: Sys, call: Call, v: Slot, code: nat, z: Slot)
    requires Inv(s) && Enabled(s, Do(call)) && Safe(s, Do(call)) && Ends(s, call, v, code) && LastDead(s.t, v, z)
    requires Waits(s.t[s.init])
    ensures Wants(s.t[s.init], s.t[z].pid)
  {
    hide Inv, Strands, Owned, Ancestor, Lookup;
    StrandsMeans(s, v, z);
    if call.Kill? {
      LookupNamed(s, call.pid, v);
      EnterMayKill(s, call, call.pid);
      MayDieEntered(s, call, v);
    }
  }

  /** The children of the dead process are init's. */
  lemma DeathReparents(s: Sys, call: Call, s': Sys, v: Slot, code: nat, x: Slot)
    requires Inv(s) && StepsTo(s, Do(call), s') && Ends(s, call, v, code) && x != s.current && x != v
    requires !s.t[x].state.Unused?
    ensures s'.t[x].parent == if s.t[x].parent == v then s.init else s.t[x].parent
  {
    hide Inv, Step, Safe, Ends;
    var z := LastZombie(s.t, v, 256);
    DeathTable(s, call, s', v, code, z);
    assert After(s, v, code, z, s', x);
  }

  /** The condition under which a death is safe, read off the table. */
  lemma StrandsMeans(s: Sys, v: Slot, z: Ptr)
    requires Inv(s) && LastDead(s.t, v, z)
    ensures var p := s.t[s.init];
      Strands(s, v) <==>
        z != NULL && p.state.Blocked? && p.syscall == 1 && p.arg1 % 0x1_0000 != 0 && p.arg1 % 0x1_0000 != s.t[z].pid
  {
  }
}
