/** fork and kill: who joins the family tree, and who may cut a branch off it. */
module ProcForkKill {
  import opened ProcSpec
  import opened ProcQueueLaws
  import opened ProcInv
  import opened ProcSteps

  // ---------------------------------------------------------------- fork

  lemma FamilyGains(t: Table, t': Table, init: Slot, nextPid: nat, ch: Slot, c: Slot)
    requires Family(t, init, nextPid) && nextPid + 1 < PID_MOD
    requires t[ch].state.Unused? && Alive(t[c])
    requires t'[ch].pid == nextPid && t'[ch].parent == c && Alive(t'[ch])
    requires forall p: Slot :: p != ch ==>
      t'[p].pid == t[p].pid && t'[p].parent == t[p].parent && t'[p].state == t[p].state
    ensures Family(t', init, nextPid + 1)
  {
    forall p: Slot | Live(t'[p]) && p != init ensures ParentOk(t', p) {
      if p != ch { assert ParentOk(t, p); }
    }
  }

  lemma FirstFree(s: Sys, c: Slot)
    requires Mid(s, c, {}) && Caller(s, c) && s.q[FREE] != []
    ensures var ch := s.q[FREE][0];
      && s.t[ch].state.Unused? && ch != c
      && Filed(s.t, s.q[FREE := s.q[FREE][1..]], {ch})
      && s.nextPid < PID_MOD
  {
    var ch := s.q[FREE][0];
    hide Family, Proper;
    assert Home(s.t[ch]) == FREE by { assert ch in s.q[FREE]; }
    RemoveFirst(s.q[FREE]);
    UnqueueFloats(s.t, s.q, FREE, ch, {});
    assert {} + {ch} == {ch};
    hide Filed;
    assert s.nextPid < PID_MOD by { NextPidBound(s, c, {}); }
  }

  lemma NextPidBound(s: Sys, run: Ptr, f: set<Slot>)
    requires Mid(s, run, f)
    ensures 1 < s.nextPid < PID_MOD
  {
    hide Filed, Proper;
  }

  lemma BornShape(s: Sys, c: Slot, ch: Slot)
    requires s.q[FREE] != [] && ch != c && s.nextPid + 1 < PID_MOD
    ensures var s' := Born(s, c, ch); var kid := s'.t[ch];
      && kid.pid == s.nextPid && kid.parent == c && kid.state.Ready?
      && s' == s.(t := s.t[ch := kid][c := s.t[c].(ret := s.nextPid)],
                  q := s.q[FREE := s.q[FREE][1..]], nextPid := s.nextPid + 1)
  {
  }

  lemma BornKeeps(s: Sys, c: Slot, ch: Slot)
    requires Mid(s, c, {}) && Caller(s, c) && s.q[FREE] != [] && ch == s.q[FREE][0] && s.nextPid + 1 < PID_MOD
    ensures Mid(Born(s, c, ch), c, {ch}) && ch != c
  {
    FirstFree(s, c);
    BornShape(s, c, ch);
    hide Born, Filed, Family;
    var s' := Born(s, c, ch);
    FamilyGains(s.t, s'.t, s.init, s.nextPid, ch, c);
    Refile(s.t, s'.t, s'.q, {ch});
    forall x: Slot | x != ch ensures ProperAt(s'.t[x], x == c) { assert ProperAt(s.t[x], x == c); }
  }

  lemma ChildScheduled(s: Sys, c: Slot, ch: Slot)
    requires Mid(s, c, {ch}) && ch != c && s.t[ch].state.Ready?
    ensures var r := Schedule(s, ch);
      && r.Ok? && Mid(r.value, c, {}) && r.value.t[c] == s.t[c]
  {
    hide Filed, Family;
    ScheduleFiles(s, ch, {ch});
    assert {ch} - {ch} == {};
    var s' := Schedule(s, ch).value;
    FamilyStable(s.t, s'.t, s.init, s.nextPid);
    forall x: Slot ensures ProperAt(s'.t[x], x == c) {
      if x != ch { assert ProperAt(s.t[x], x == c); }
    }
  }

  ghost predicate MayFork(s: Sys, cloned: bool) {
    s.q[FREE] == [] || (cloned && s.nextPid + 1 < PID_MOD)
  }

  lemma ForkKeeps(s: Sys, c: Slot, cloned: bool)
    requires Mid(s, c, {}) && Caller(s, c) && MayFork(s, cloned)
    ensures DoFork(s, c, cloned).Ok? && Inv(DoFork(s, c, cloned).value)
  {
    hide Mid, Inv, Schedule;
    if s.q[FREE] == [] {
      ReturnKeeps(s, c, -1);
    } else {
      var ch := s.q[FREE][0];
      BornKeeps(s, c, ch);
      var s' := Born(s, c, ch);
      ChildScheduled(s', c, ch);
      ReturnKeeps(Schedule(s', ch).value, c, 0);
    }
  }

  lemma ForkBreaks(s: Sys, c: Slot, cloned: bool)
    requires Mid(s, c, {}) && Caller(s, c) && !MayFork(s, cloned)
    ensures var r := DoFork(s, c, cloned); r.Ok? ==> !Inv(r.value)
  {
    hide Mid, Filed, Inv, Schedule, Born, Alloced;
    FirstFree(s, c);
    var ch := s.q[FREE][0];
    if cloned {
      ForkWraps(s, c, ch);
    } else {
      ForkLeaks(s, c, ch);
    }
  }

  lemma ForkWraps(s: Sys, c: Slot, ch: Slot)
    requires s.q[FREE] != [] && s.nextPid + 1 == PID_MOD
    ensures var r := Schedule(Born(s, c, ch), ch);
      r.Ok? ==> !Inv(Return(r.value, c, 0))
  {
    hide Inv, Schedule;
    assert Born(s, c, ch).nextPid == 0;
    var r := Schedule(Born(s, c, ch), ch);
    if r.Ok? {
      ScheduleCurrent(Born(s, c, ch), ch);
      NextPidWrapped(Return(r.value, c, 0));
    }
  }

  lemma ForkLeaks(s: Sys, c: Slot, ch: Slot)
    requires s.q[FREE] != [] && ch != c
    ensures !Inv(Return(Alloced(s, c, ch), c, -1))
  {
    hide Inv;
    NewbornLeft(Return(Alloced(s, c, ch), c, -1), ch);
  }

  lemma NextPidWrapped(s: Sys)
    requires s.nextPid == 0
    ensures !Inv(s)
  {
    hide Filed, Proper;
  }

  lemma NewbornLeft(s: Sys, ch: Slot)
    requires s.t[ch].state.New?
    ensures !Inv(s)
  {
    hide Filed, Family;
    assert !ProperAt(s.t[ch], ch == s.current);
  }

  // ---------------------------------------------------------------- kill

  /** Climbing from a process reaches ever smaller pids. */
  lemma {:induction false} PathDescends(t: Table, init: Slot, nextPid: nat, path: seq<Slot>)
    requires Family(t, init, nextPid) && ParentPath(t, path) && Live(t[path[0]])
    ensures forall i :: 0 <= i < |path| ==> Live(t[path[i]])
    ensures |path| > 1 ==> t[path[|path| - 1]].pid < t[path[0]].pid && Alive(t[path[|path| - 1]])
    decreases |path|
  {
    if |path| > 1 {
      assert t[path[0]].parent == path[1];
      assert ParentOk(t, path[0]);
      PathDescends(t, init, nextPid, path[1..]);
      forall i | 0 < i < |path| ensures Live(t[path[i]]) { assert path[i] == path[1..][i - 1]; }
    }
  }

  /** One step of the climb. */
  lemma AncestorStep(t: Table, anc: Slot, v: Slot)
    ensures Ancestor(t, anc, v) <==> anc == v || (t[v].parent != NULL && Ancestor(t, anc, t[v].parent))
  {
    if anc == v {
      assert ParentPath(t, [v]);
    }
    if t[v].parent != NULL && Ancestor(t, anc, t[v].parent) {
      var path: seq<Slot> :| ParentPath(t, path) && path[0] == t[v].parent && path[|path| - 1] == anc;
      var longer: seq<Slot> := [v] + path;
      assert ParentPath(t, longer) && longer[0] == v && longer[|longer| - 1] == anc;
    }
    if Ancestor(t, anc, v) && anc != v {
      var path: seq<Slot> :| ParentPath(t, path) && path[0] == v && path[|path| - 1] == anc;
      assert ParentPath(t, path[1..]) && path[1..][0] == t[v].parent;
    }
  }

  /** Only init itself is an ancestor of init; a pid names one ancestor at most, and the caller's
      pid names the caller. */
  lemma OwnedMeans(t: Table, init: Slot, nextPid: nat, c: Slot, v: Slot)
    requires Family(t, init, nextPid) && Live(t[c]) && Live(t[v])
    ensures Owned(t, t[c].pid, v) <==> Ancestor(t, c, v)
    ensures Owned(t, t[c].pid, init) ==> c == init
  {
    forall anc: Slot, w: Slot | Ancestor(t, anc, w) && Live(t[w]) ensures Live(t[anc]) {
      var path: seq<Slot> :| ParentPath(t, path) && path[0] == w && path[|path| - 1] == anc;
      PathDescends(t, init, nextPid, path);
    }
    forall anc: Slot | Ancestor(t, anc, init) ensures anc == init { AncestorStep(t, anc, init); }
  }

  ghost predicate MayKill(s: Sys, c: Slot, pid: nat) {
    var v := Lookup(s.t, pid % PID_MOD);
    v == NULL || !Owned(s.t, s.t[c].pid, v) || s.t[v].state.Zombie? || MayDie(s, v)
  }

  lemma VictimFloats(s: Sys, c: Slot, v: Slot, k: Qid)
    requires Mid(s, c, {}) && v in s.q[k] && Alive(s.t[v])
    ensures var s1 := s.Put(v, s.t[v].(exitStatus := 1)).Unqueue(k, v);
      && Mid(s1, c, {v}) && Alive(s1.t[v]) && Strands(s1, v) == Strands(s, v)
  {
    hide Mid;
    UnqueueKeeps(s, c, {}, k, v);
    assert {} + {v} == {v};
    var s0 := s.Unqueue(k, v);
    PutKeeps(s0, c, {v}, v, s.t[v].(exitStatus := 1));
    SameZombies(s.t, s.t[v := s.t[v].(exitStatus := 1)], v, 256);
  }

  lemma StrandedReturn(s: Sys, c: Slot, r: int)
    requires Stranded(s) && s.init != c
    ensures !Inv(Return(s, c, r))
  {
    assert s.init !in s.q[WAITING];
    assert Home(Return(s, c, r).t[s.init]) == WAITING;
  }

  lemma StillRunning(s: Sys, c: Slot)
    requires Mid(s, c, {})
    ensures s.t[c].state.Running?
  {
    hide Filed, Family;
    assert ProperAt(s.t[c], true);
  }

  lemma MidLog(s: Sys, run: Ptr, f: set<Slot>, log: seq<Sched>)
    requires Mid(s, run, f)
    ensures Mid(s.(log := log), run, f)
  {
    hide Filed, Proper, Family;
  }

  lemma InQueue(s: Sys, run: Ptr, p: Slot, k: Qid)
    requires Mid(s, run, {}) && Home(s.t[p]) == k
    ensures p in s.q[k]
  {
  }

  /** The victim, taken off its queue, is zombified and the caller goes on. */
  lemma ZombifyExact(s: Sys, c: Slot, v: Slot)
    requires Mid(s, c, {v}) && Caller(s, c) && c != v && s.init != v && Alive(s.t[v])
    ensures var r := Zombify(s, v);
      (r.Ok? && Inv(Return(r.value, c, 0))) <==> !Strands(s, v)
  {
    hide Mid, Zombify, Inv;
    if Strands(s, v) {
      InitWaits(s, c, {v});
      ZombifyStrands(s, c, v);
      if Zombify(s, v).Ok? { StrandedReturn(Zombify(s, v).value, c, 0); }
    } else {
      ZombifyKeeps(s, c, v);
      StillRunning(Zombify(s, v).value, c);
      ReturnKeeps(Zombify(s, v).value, c, 0);
    }
  }

  lemma FellExact(s: Sys, c: Slot, v: Slot, k: Qid)
    requires Mid(s, c, {}) && Caller(s, c) && v != s.init && Alive(s.t[v]) && Home(s.t[v]) == k
    ensures var r := Fell(s, c, v, k); (r.Ok? && Inv(r.value)) <==> !Strands(s, v)
  {
    hide Mid, Inv, Zombify;
    InQueue(s, c, v, k);
    VictimFloats(s, c, v, k);
    var s1 := s.Put(v, s.t[v].(exitStatus := 1)).Unqueue(k, v);
    var s2 := if k == READY then s1.(log := s1.log + [Withdraw(v)]) else s1;
    MidLog(s1, c, {v}, s2.log);
    ZombifyExact(s2, c, v);
  }

  lemma SlayExact(s: Sys, c: Slot, v: Slot)
    requires Mid(s, c, {}) && Mid(s, c, {c}) && s.current == NULL && Caller(s, c)
    requires Live(s.t[v]) && (v == s.init ==> c == s.init)
    ensures var r := Slay(s, c, v); (r.Ok? && Inv(r.value)) <==> s.t[v].state.Zombie? || MayDie(s, v)
  {
    assert ProperAt(s.t[v], v == c);
    assert ProperAt(s.t[c], true);
    hide Mid, Inv, Fell;
    match s.t[v].state
    case Zombie => ReturnKeeps(s, c, 0);
    case Ready => FellExact(s, c, v, READY);
    case Blocked => FellExact(s, c, v, WAIT + s.t[v].syscall);
    case Running => ExitExact(s, c, 1);
  }

  /** kill accepts exactly the caller and its descendants, and keeps the invariant exactly when the
      accepted victim may die. */
  lemma KillExact(s: Sys, c: Slot, pid: nat)
    requires Mid(s, c, {}) && Mid(s, c, {c}) && s.current == NULL && Caller(s, c)
    ensures var r := DoKill(s, c, pid); (r.Ok? && Inv(r.value)) <==> MayKill(s, c, pid)
  {
    var v := Lookup(s.t, pid % PID_MOD);
    if v == NULL || !Owned(s.t, s.t[c].pid, v) {
      hide Mid, Inv;
      ReturnKeeps(s, c, 1);
    } else {
      OwnedMeans(s.t, s.init, s.nextPid, c, v);
      hide Mid, Inv, Owned;
      SlayExact(s, c, v);
    }
  }
}
