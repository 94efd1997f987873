/** The system invariant and the exact conditions under which each step keeps it. */
module ProcInv {
  import opened ProcSpec
  import opened ProcQueueLaws

  predicate Live(p: Pcb) { !p.state.Unused? }
  predicate Alive(p: Pcb) { !p.state.Unused? && !p.state.Zombie? }

  /** Every process but init has a living, older parent. */
  ghost predicate ParentOk(t: Table, p: Slot) {
    t[p].parent != NULL && Alive(t[t[p].parent]) && t[t[p].parent].pid < t[p].pid
  }

  ghost predicate Pids(t: Table, nextPid: nat) {
    && 1 < nextPid < PID_MOD
    && (forall p: Slot :: Live(t[p]) ==> 1 <= t[p].pid < nextPid)
    && (forall p: Slot, r: Slot :: Live(t[p]) && Live(t[r]) && t[p].pid == t[r].pid ==> p == r)
  }

  ghost predicate Family(t: Table, init: Slot, nextPid: nat) {
    && t[init].pid == 1 && t[init].parent == NULL && Alive(t[init])
    && Pids(t, nextPid)
    && (forall p: Slot :: Live(t[p]) && p != init ==> ParentOk(t, p))
  }

  /** `run` is the one running process; only waitpid and sleep block. */
  ghost predicate Proper(t: Table, run: Ptr, f: set<Slot>) {
    forall p: Slot :: p !in f ==> ProperAt(t[p], p == run)
  }

  ghost predicate ProperAt(p: Pcb, runs: bool) {
    && (p.state.Running? <==> runs)
    && !p.state.New?
    && (p.state.Ready? ==> p.syscall == 0)
    && (p.state.Blocked? ==> p.syscall == SYS_waitpid || p.syscall == SYS_sleep)
    && (p.state.Running? ==> p.syscall != SYS_waitpid)
  }

  /** The invariant in the middle of a step: `f` are between queues, `run` is the caller. */
  ghost predicate Mid(s: Sys, run: Ptr, f: set<Slot>) {
    Filed(s.t, s.q, f) && Proper(s.t, run, f) && Family(s.t, s.init, s.nextPid)
  }

  ghost predicate Inv(s: Sys) {
    && Mid(s, s.current, {})
    && (s.current != NULL ==> s.t[s.current].syscall == 0 && 1 <= s.t[s.current].ticks <= TICKS_PER_PROCESS)
  }

  // ---------------------------------------------------------------- building blocks

  lemma FamilyStable(t: Table, t': Table, init: Slot, nextPid: nat)
    requires Family(t, init, nextPid)
    requires forall p: Slot ::
      Live(t[p]) == Live(t'[p]) && Alive(t[p]) == Alive(t'[p]) && t[p].pid == t'[p].pid && t[p].parent == t'[p].parent
    ensures Family(t', init, nextPid)
  {
    forall p: Slot | Live(t'[p]) && p != init ensures ParentOk(t', p) { assert ParentOk(t, p); }
  }

  /** A process nobody calls parent may die or leave the table. */
  lemma FamilyLosing(t: Table, t': Table, init: Slot, nextPid: nat, v: Slot)
    requires Family(t, init, nextPid) && v != init
    requires forall p: Slot :: p != v && Live(t[p]) ==> t[p].parent != v
    requires t' == t[v := t'[v]] && t'[v].pid == t[v].pid && t'[v].parent == t[v].parent && (Live(t'[v]) ==> Live(t[v]))
    requires Live(t[v]) && t[v].parent != v
    ensures Family(t', init, nextPid)
  {
    forall p: Slot | Live(t'[p]) && p != init ensures ParentOk(t', p) { assert ParentOk(t, p); }
  }

  lemma FamilyReparented(t: Table, init: Slot, nextPid: nat, v: Slot)
    requires Family(t, init, nextPid) && v != init && Live(t[v])
    ensures Family(Reparented(t, v, init), init, nextPid)
  {
    var t' := Reparented(t, v, init);
    assert ParentOk(t, v);
    forall p: Slot | Live(t'[p]) && p != init ensures ParentOk(t', p) { assert ParentOk(t, p); }
  }

  lemma ReparentKeeps(s: Sys, v: Slot, run: Ptr)
    requires Mid(s, run, {v}) && v != s.init && Live(s.t[v])
    ensures var s1 := s.(t := Reparented(s.t, v, s.init));
      && Mid(s1, run, {v})
      && s1.t[v] == s.t[v]
      && (forall p: Slot :: Live(s1.t[p]) ==> s1.t[p].parent != v)
  {
    hide Filed;
    var t := s.t;
    var t' := Reparented(s.t, v, s.init);
    assert ParentOk(t, v);
    FamilyReparented(t, s.init, s.nextPid, v);
    hide Family;
    Refile(t, t', s.q, {v});
    forall p: Slot | p != v ensures ProperAt(t'[p], p == run) { assert ProperAt(t[p], p == run); }
  }

  // ---------------------------------------------------------------- zombify

  /** init waits for one particular pid, and the zombie that `v` leaves behind is another one. */
  ghost predicate Strands(s: Sys, v: Slot) {
    var z := LastZombie(s.t, v, 256);
    z != NULL && s.t[s.init].syscall == SYS_waitpid && !Accepts(s.t[s.init], s.t[z])
  }

  /** What zombify leaves alone. */
  ghost predicate Apart(s: Sys, s': Sys) {
    && s'.current == s.current && s'.init == s.init && s'.nextPid == s.nextPid && s'.now == s.now
    && s'.q[SLEEPING] == s.q[SLEEPING]
    && SameTicks(s.t, s'.t)
  }

  ghost predicate SameTicks(t: Table, t': Table) {
    forall p: Slot :: t'[p].ticks == t[p].ticks
  }

  lemma WaiterQueued(s: Sys, run: Ptr, f: set<Slot>, w: Slot)
    requires Mid(s, run, f) && w !in f && Alive(s.t[w]) && s.t[w].syscall == SYS_waitpid
    ensures w in s.q[WAITING] && s.t[w].state.Blocked? && w != run
  {
    assert ProperAt(s.t[w], w == run);
    assert Home(s.t[w]) == WAITING;
  }

  lemma InitWaits(s: Sys, run: Ptr, f: set<Slot>)
    requires Mid(s, run, f) && s.init !in f && s.t[s.init].syscall == SYS_waitpid
    ensures s.init in s.q[WAITING] && s.t[s.init].state.Blocked?
  {
    hide Filed, Proper;
    WaiterQueued(s, run, f, s.init);
  }

  lemma CollectKeeps(s: Sys, run: Ptr, v: Slot, f: set<Slot>, w: Slot)
    requires Mid(s, run, f) && v in f && w !in f && Alive(s.t[w]) && s.t[w].syscall == SYS_waitpid
    ensures var r := Schedule(s.Put(w, Collected(s.t[w], s.t[v])).Unqueue(WAITING, w), w);
      && r.Ok?
      && Mid(r.value, run, f)
      && r.value.t == s.t[w := Collected(s.t[w], s.t[v]).(state := Ready, syscall := 0)]
      && Apart(s, r.value)
  {
    hide Filed, Family;
    WaiterQueued(s, run, f, w);
    var s1 := s.Unqueue(WAITING, w);
    UnqueueFloats(s.t, s.q, WAITING, w, f);
    var s2 := s1.Put(w, Collected(s.t[w], s.t[v]));
    Refile(s1.t, s2.t, s1.q, f + {w});
    assert s2 == s.Put(w, Collected(s.t[w], s.t[v])).Unqueue(WAITING, w);
    ScheduleFiles(s2, w, f + {w});
    assert f + {w} - {w} == f;
    FamilyStable(s.t, Schedule(s2, w).value.t, s.init, s.nextPid);
  }

  lemma FreeKeeps(s: Sys, run: Ptr, f: set<Slot>, p: Slot)
    requires Mid(s, run, f) && p in f && p != s.init && Live(s.t[p]) && s.t[p].parent != p
    requires forall x: Slot :: x != p && Live(s.t[x]) ==> s.t[x].parent != p
    ensures var r := Free(s, p);
      && r.Ok?
      && Mid(r.value, if run == p then NULL else run, f - {p})
      && r.value.t == s.t[p := s.t[p].(state := Unused)]
      && Apart(s, r.value)
  {
    hide Filed, Family;
    FreeFiles(s, p, f);
    FamilyLosing(s.t, Free(s, p).value.t, s.init, s.nextPid, p);
    forall x: Slot | x !in f - {p} ensures ProperAt(Free(s, p).value.t[x], x == if run == p then NULL else run) {
      if x != p { assert ProperAt(s.t[x], x == run); }
    }
  }

  lemma UnqueueKeeps(s: Sys, run: Ptr, f: set<Slot>, k: Qid, p: Slot)
    requires Mid(s, run, f) && p in s.q[k]
    ensures Mid(s.Unqueue(k, p), run, f + {p})
  {
    UnqueueFloats(s.t, s.q, k, p, f);
  }

  /** Zombies have no children. */
  lemma ZombieChildless(s: Sys, run: Ptr, f: set<Slot>, z: Slot)
    requires Mid(s, run, f) && s.t[z].state.Zombie?
    ensures z != s.init && s.t[z].parent != NULL
    ensures forall x: Slot :: Live(s.t[x]) ==> s.t[x].parent != z
  {
    hide Filed, Proper;
    forall x: Slot | Live(s.t[x]) ensures s.t[x].parent != z {
      if x != s.init { assert ParentOk(s.t, x); }
    }
    assert ParentOk(s.t, z);
  }

  lemma ZombieQueued(s: Sys, run: Ptr, f: set<Slot>, z: Slot)
    requires Mid(s, run, f) && z !in f && s.t[z].state.Zombie?
    ensures z in s.q[ZOMBIE] && z != run
  {
    assert ProperAt(s.t[z], z == run);
    assert Home(s.t[z]) == ZOMBIE;
  }

  lemma AdoptKeeps(s: Sys, run: Ptr, v: Slot, z: Slot)
    requires Mid(s, run, {v}) && s.init != v && z != v && s.t[z].state.Zombie?
    requires s.t[s.init].syscall == SYS_waitpid && Accepts(s.t[s.init], s.t[z])
    ensures Adopt(s, z).Ok?
    ensures var s' := Adopt(s, z).value;
      && Mid(s', run, {v})
      && s'.t == s.t[s.init := Collected(s.t[s.init], s.t[z]).(state := Ready, syscall := 0)]
                    [z := s.t[z].(state := Unused)]
      && Apart(s, s')
  {
    hide Mid;
    var i := s.init;
    InitWaits(s, run, {v});
    ZombieQueued(s, run, {v}, z);
    ZombieChildless(s, run, {v}, z);
    UnqueueKeeps(s, run, {v}, ZOMBIE, z);
    var s1 := s.Unqueue(ZOMBIE, z);
    CollectKeeps(s1, run, z, {v} + {z}, i);
    var s2 := Schedule(s1.Put(i, Collected(s.t[i], s.t[z])).Unqueue(WAITING, i), i).value;
    assert s1.Unqueue(WAITING, i).Put(i, Collected(s.t[i], s.t[z]))
        == s1.Put(i, Collected(s.t[i], s.t[z])).Unqueue(WAITING, i);
    FreeKeeps(s2, run, {v} + {z}, z);
    assert {v} + {z} - {z} == {v};
  }

  /** The state `Bury` ends in: a matching waiting parent is made ready and the victim's entry is
      free again, or the victim is a zombie. */
  ghost predicate Buried(s: Sys, s': Sys, parent: Slot, v: Slot) {
    if s.t[parent].syscall == SYS_waitpid && Accepts(s.t[parent], s.t[v]) then
      s'.t == s.t[parent := Collected(s.t[parent], s.t[v]).(state := Ready, syscall := 0)]
                 [v := s.t[v].(state := Unused)]
    else
      s'.t == s.t[v := s.t[v].(state := Zombie)]
  }

  lemma BuryKeeps(s: Sys, run: Ptr, v: Slot, f: set<Slot>)
    requires Mid(s, run, f) && v in f && s.init != v && Live(s.t[v]) && s.t[v].parent != NULL
    requires forall x: Slot :: Live(s.t[x]) ==> s.t[x].parent != v
    requires var w := s.t[v].parent; w in f ==> !(s.t[w].syscall == SYS_waitpid && Accepts(s.t[w], s.t[v]))
    ensures Bury(s, s.t[v].parent, v).Ok?
    ensures var s' := Bury(s, s.t[v].parent, v).value;
      Mid(s', if run == v then NULL else run, f - {v}) && Buried(s, s', s.t[v].parent, v) && Apart(s, s')
  {
    assert ParentOk(s.t, v);
    var parent := s.t[v].parent;
    if s.t[parent].syscall == SYS_waitpid && Accepts(s.t[parent], s.t[v]) {
      WaiterQueued(s, run, f, parent);
      CollectKeeps(s, run, v, f, parent);
      var s1 := Schedule(s.Put(parent, Collected(s.t[parent], s.t[v])).Unqueue(WAITING, parent), parent).value;
      FreeKeeps(s1, run, f, v);
    } else {
      EntombKeeps(s, run, v, f);
    }
  }

  lemma EntombKeeps(s: Sys, run: Ptr, v: Slot, f: set<Slot>)
    requires Mid(s, run, f) && v in f && s.init != v && Live(s.t[v])
    requires forall x: Slot :: Live(s.t[x]) ==> s.t[x].parent != v
    ensures var r := Enqueue(s.Put(v, s.t[v].(state := Zombie)), ZOMBIE, v);
      && r.Ok?
      && Mid(r.value, if run == v then NULL else run, f - {v})
      && r.value.t == s.t[v := s.t[v].(state := Zombie)]
      && Apart(s, r.value)
  {
    hide Filed, Family;
    var s1 := s.Put(v, s.t[v].(state := Zombie));
    Refile(s.t, s1.t, s.q, f);
    EnqueueFiles(s1, ZOMBIE, v, f);
    FamilyLosing(s.t, s1.t, s.init, s.nextPid, v);
    forall x: Slot | x !in f - {v} ensures ProperAt(s1.t[x], x == if run == v then NULL else run) {
      if x != v { assert ProperAt(s.t[x], x == run); }
    }
  }

  /** The table after a waiting init has collected the zombie `z`. */
  function AdoptedTable(t: Table, init: Slot, z: Ptr): Table {
    if z != NULL && t[init].syscall == SYS_waitpid
    then t[init := Collected(t[init], t[z]).(state := Ready, syscall := 0)][z := t[z].(state := Unused)]
    else t
  }

  /** Where zombify leads, table-wise: reparent, let a waiting init collect, then bury. */
  ghost predicate Zombified(s: Sys, s': Sys, v: Slot) {
    var t1 := Reparented(s.t, v, s.init);
    s.t[v].parent != NULL && Buried(s.(t := AdoptedTable(t1, s.init, LastZombie(s.t, v, 256))), s', s.t[v].parent, v)
  }

  ghost predicate Orphaned(s: Sys, run: Ptr, v: Slot, z: Ptr) {
    && Mid(s, run, {v}) && s.init != v && Alive(s.t[v]) && s.t[v].parent != NULL
    && (forall x: Slot :: Live(s.t[x]) ==> s.t[x].parent != v)
    && (z != NULL ==> s.t[z].state.Zombie?)
  }

  lemma SettleKeeps(s: Sys, run: Ptr, v: Slot, z: Ptr)
    requires Orphaned(s, run, v, z)
    requires z != NULL && s.t[s.init].syscall == SYS_waitpid ==> Accepts(s.t[s.init], s.t[z])
    ensures Settle(s, z, s.t[v].parent, v).Ok?
    ensures var s' := Settle(s, z, s.t[v].parent, v).value;
      && Mid(s', if run == v then NULL else run, {})
      && Buried(s.(t := AdoptedTable(s.t, s.init, z)), s', s.t[v].parent, v)
      && Apart(s, s')
  {
    hide Mid, Adopt, Bury;
    if z != NULL && s.t[s.init].syscall == SYS_waitpid {
      InitWaits(s, run, {v});
      AdoptKeeps(s, run, v, z);
      BuryKeeps(Adopt(s, z).value, run, v, {v});
    } else {
      BuryKeeps(s, run, v, {v});
    }
    assert {v} - {v} == {};
  }

  lemma ReparentOrphans(s: Sys, run: Ptr, v: Slot)
    requires Mid(s, run, {v}) && s.init != v && Alive(s.t[v])
    ensures s.t[v].parent != NULL && s.t[v].pid != 1
    ensures var s1 := s.(t := Reparented(s.t, v, s.init));
      && Orphaned(s1, run, v, LastZombie(s.t, v, 256))
      && s1.t[v] == s.t[v] && SameCall(s1.t[s.init], s.t[s.init])
      && (forall x: Slot :: s1.t[x].pid == s.t[x].pid)
      && SameTicks(s.t, s1.t)
  {
    assert ParentOk(s.t, v);
    ReparentKeeps(s, v, run);
    hide Mid;
  }

  ghost predicate SameCall(a: Pcb, b: Pcb) { a.syscall == b.syscall && a.arg1 == b.arg1 }

  lemma ZombifyKeeps(s: Sys, run: Ptr, v: Slot)
    requires Mid(s, run, {v}) && s.init != v && Alive(s.t[v]) && !Strands(s, v)
    ensures Zombify(s, v).Ok?
    ensures var s' := Zombify(s, v).value;
      Mid(s', if run == v then NULL else run, {}) && Zombified(s, s', v) && Apart(s, s')
  {
    hide Mid, Settle, Reparented;
    ReparentOrphans(s, run, v);
    SettleKeeps(s.(t := Reparented(s.t, v, s.init)), run, v, LastZombie(s.t, v, 256));
  }

  /** init has been taken off the waitpid queue although it is still blocked there. */
  ghost predicate Stranded(s: Sys) {
    Filed(s.t, s.q, {s.init}) && Home(s.t[s.init]) == WAITING
  }

  lemma FloatAbsent(s: Sys, run: Ptr, f: set<Slot>, p: Slot, k: Qid)
    requires Mid(s, run, f) && p in f
    ensures p !in s.q[k]
  {
  }

  lemma InitImmortal(s: Sys, run: Ptr, f: set<Slot>)
    requires Mid(s, run, f)
    ensures Zombify(s, s.init).Panic?
  {
  }

  lemma StrandedMid(s: Sys, run: Ptr)
    requires Mid(s, run, {s.init}) && Home(s.t[s.init]) == WAITING
    ensures Stranded(s)
  {
    hide Filed;
  }

  lemma AdoptStrands(s: Sys, run: Ptr, v: Slot, z: Slot)
    requires Mid(s, run, {v}) && s.init != v && z != v && s.t[z].state.Zombie?
    requires s.t[s.init].syscall == SYS_waitpid && !Accepts(s.t[s.init], s.t[z])
    ensures Adopt(s, z).Ok?
    ensures var s' := Adopt(s, z).value;
      && Mid(s', run, {v, s.init})
      && s'.t == s.t[z := s.t[z].(state := Unused)]
      && Home(s'.t[s.init]) == WAITING
      && Apart(s, s')
  {
    hide Mid;
    var i := s.init;
    InitWaits(s, run, {v});
    ZombieQueued(s, run, {v}, z);
    ZombieChildless(s, run, {v}, z);
    UnqueueKeeps(s, run, {v}, ZOMBIE, z);
    var s1 := s.Unqueue(ZOMBIE, z);
    UnqueueKeeps(s1, run, {v} + {z}, WAITING, i);
    var s2 := s1.Unqueue(WAITING, i);
    FreeKeeps(s2, run, {v} + {z} + {i}, z);
    assert {v} + {z} + {i} - {z} == {v, i};
  }

  lemma SettleStrands(s: Sys, run: Ptr, v: Slot, z: Slot)
    requires Orphaned(s, run, v, z)
    requires s.t[s.init].syscall == SYS_waitpid && !Accepts(s.t[s.init], s.t[z])
    ensures var r := Settle(s, z, s.t[v].parent, v);
      r.Ok? ==> Stranded(r.value) && Apart(s, r.value)
  {
    hide Mid, Adopt;
    InitWaits(s, run, {v});
    AdoptStrands(s, run, v, z);
    var s2 := Adopt(s, z).value;
    var parent := s.t[v].parent;
    FloatAbsent(s2, run, {v, s.init}, s.init, WAITING);
    if !(parent == s.init && Accepts(s2.t[parent], s2.t[v])) {
      BuryKeeps(s2, run, v, {v, s.init});
      assert {v, s.init} - {v} == {s.init};
      StrandedMid(Bury(s2, parent, v).value, if run == v then NULL else run);
    }
  }

  lemma ZombifyStrands(s: Sys, run: Ptr, v: Slot)
    requires Mid(s, run, {v}) && s.init != v && Alive(s.t[v]) && Strands(s, v)
    ensures var r := Zombify(s, v);
      r.Ok? ==> Stranded(r.value) && Apart(s, r.value)
  {
    hide Mid, Settle, Reparented;
    ReparentOrphans(s, run, v);
    SettleStrands(s.(t := Reparented(s.t, v, s.init)), run, v, LastZombie(s.t, v, 256));
  }

  // ---------------------------------------------------------------- dispatching and returning

  lemma DispatchKeeps(s: Sys)
    requires Mid(s, NULL, {}) && s.current == NULL
    ensures Dispatch(s).Ok? && Inv(Dispatch(s).value)
  {
    if s.q[READY] != [] {
      var p := s.q[READY][0];
      var s' := Dispatch(s).value;
      assert p in s.q[READY];
      RemoveFirst(s.q[READY]);
      UnqueueFloats(s.t, s.q, READY, p, {});
      Refile(s.t, s'.t, s'.q, {p});
      Float(s'.t, s'.q, {}, p);
      assert {} + {p} == {p};
      forall x: Slot ensures ProperAt(s'.t[x], x == p) { assert ProperAt(s.t[x], x == NULL); }
      FamilyStable(s.t, s'.t, s.init, s.nextPid);
    }
  }

  lemma DispatchStranded(s: Sys)
    requires Stranded(s) && s.current == NULL
    ensures Dispatch(s).Ok? && Stranded(Dispatch(s).value)
  {
    if s.q[READY] != [] {
      var p := s.q[READY][0];
      var s' := Dispatch(s).value;
      assert p in s.q[READY];
      RemoveFirst(s.q[READY]);
      UnqueueFloats(s.t, s.q, READY, p, {s.init});
      Refile(s.t, s'.t, s'.q, {s.init} + {p});
      Float(s'.t, s'.q, {s.init}, p);
    }
  }

  ghost predicate Caller(s: Sys, c: Slot) {
    s.t[c].state.Running? && 1 <= s.t[c].ticks <= TICKS_PER_PROCESS
  }

  lemma ReturnKeeps(s: Sys, c: Slot, r: int)
    requires Mid(s, c, {}) && Caller(s, c)
    ensures Inv(Return(s, c, r))
  {
    var s' := Return(s, c, r);
    Refile(s.t, s'.t, s.q, {});
    forall x: Slot ensures ProperAt(s'.t[x], x == c) { assert ProperAt(s.t[x], x == c); }
    FamilyStable(s.t, s'.t, s.init, s.nextPid);
  }

  /** Changing fields of an unqueued process that the family tree does not look at. */
  lemma PutKeeps(s: Sys, run: Ptr, f: set<Slot>, p: Slot, pcb: Pcb)
    requires Mid(s, run, f) && p in f
    requires pcb.pid == s.t[p].pid && pcb.parent == s.t[p].parent && Live(pcb) == Live(s.t[p])
    requires Alive(pcb) == Alive(s.t[p])
    ensures Mid(s.Put(p, pcb), run, f)
  {
    hide Filed, Family;
    var t' := s.t[p := pcb];
    Refile(s.t, t', s.q, f);
    FamilyStable(s.t, t', s.init, s.nextPid);
    forall x: Slot | x !in f ensures ProperAt(t'[x], x == run) { assert ProperAt(s.t[x], x == run); }
  }

  lemma RunnerBack(s: Sys, c: Slot)
    requires Mid(s, c, {c}) && s.t[c].state.Running? && s.t[c].syscall != SYS_waitpid
    ensures Mid(s, c, {})
  {
    hide Filed, Family;
    Float(s.t, s.q, {}, c);
    assert {} + {c} == {c};
  }

  lemma EnterKeeps(s: Sys, call: Call)
    requires Inv(s) && s.current != NULL
    ensures var e := Enter(s, call);
      && Mid(e, s.current, {s.current}) && Caller(e, s.current) && e.t[s.current].syscall == call.Number()
  {
    var c: Slot := s.current;
    var e := Enter(s, call);
    assert ProperAt(s.t[c], true);
    Float(s.t, s.q, {}, c);
    assert {} + {c} == {c};
    assert Mid(s, c, {c}) by { hide Filed, Family; }
    hide Mid;
    PutKeeps(s, c, {c}, c, e.t[c]);
    MidCurrent(s.Put(c, e.t[c]), c, {c}, NULL);
  }

  lemma EnterStrands(s: Sys, call: Call, v: Slot)
    requires Inv(s) && s.current != NULL && call.Number() != SYS_waitpid
    ensures Strands(Enter(s, call), v) == Strands(s, v)
  {
    hide Mid;
    SameZombies(s.t, Enter(s, call).t, v, 256);
  }

  lemma MidCurrent(s: Sys, run: Ptr, f: set<Slot>, current: Ptr)
    requires Mid(s, run, f)
    ensures Mid(s.(current := current), run, f)
  {
    hide Filed, Proper, Family;
  }

  lemma {:induction false} SameZombies(t: Table, t': Table, v: Slot, n: nat)
    requires n <= 256
    requires forall p: Slot :: t[p].state.Zombie? == t'[p].state.Zombie? && t[p].parent == t'[p].parent
    ensures LastZombie(t, v, n) == LastZombie(t', v, n)
  {
    if n > 0 { SameZombies(t, t', v, n - 1); }
  }
}
