/** Process control blocks, their queues and the scheduler as values: what one timer tick or one
    system call does to the process table.  The kernel class is proved to compute these functions. */
module ProcSpec {
  import opened Base

  const N_PROCS := 256
  const N_SYSCALLS := 24
  const NULL: int := -1

  /** A pointer into the process table is the index of the entry; NULL is -1. */
  type Slot = x: int | 0 <= x < 256
  type Ptr = x: int | -1 <= x < 256

  /** Either the new state, or a failed assertion or explicit panic that stops the kernel. */
  datatype Outcome<+T> = Panic | Ok(value: T) {
    predicate IsFailure() { Panic? }
    function PropagateFailure<U>(): Outcome<U> requires Panic? { Panic }
    function Extract(): T requires Ok? { value }
  }

  datatype State = Unused | New | Ready | Running | Blocked | Zombie

  /** `arg1`, `arg2` and `ret` are the saved registers rdi, rsi and rax; `status` is the user's word
      that a waitpid status pointer (`arg2`) designates. */
  datatype Pcb = Pcb(pid: nat, parent: Ptr, state: State, priority: nat, ticks: nat, syscall: nat,
                     wakeup: nat, exitStatus: nat, arg1: nat, arg2: nat, ret: int, status: int)

  datatype Order = Fifo | Prio | Pid | Wakeup

  const BLANK := Pcb(0, -1, Unused, 0, 0, 0, 0, 0, 0, 0, 0, 0)
  type Table = t: seq<Pcb> | |t| == 256 witness seq(256, i => BLANK)

  /** The queues: free list, ready queue, zombie queue, then one wait queue per system call. */
  type Qid = k: int | 0 <= k < 27
  type Queues = q: seq<seq<Slot>> | |q| == 27 witness seq(27, i => [])
  const FREE: Qid := 0
  const READY: Qid := 1
  const ZOMBIE: Qid := 2
  const WAIT := 3

  const SYS_exit := 0
  const SYS_waitpid := 1
  const SYS_fork := 2
  const SYS_exec := 3
  const SYS_setprio := 12
  const SYS_kill := 13
  const SYS_sleep := 14
  const WAITING: Qid := WAIT + SYS_waitpid
  const SLEEPING: Qid := WAIT + SYS_sleep

  const TICKS_PER_PROCESS := 3
  const PID_MOD := 0x1_0000

  function OrderOf(k: Qid): Order { if k == FREE then Fifo else if k == READY then Prio else Pid }

  /** The queue a process belongs in, or none. */
  function Home(p: Pcb): int {
    match p.state
    case Unused => FREE
    case Ready => READY
    case Zombie => ZOMBIE
    case Blocked => WAIT + p.syscall
    case _ => NULL
  }

  function Key(o: Order, p: Pcb): nat {
    match o
    case Fifo => 0
    case Prio => p.priority
    case Pid => p.pid
    case Wakeup => p.wakeup
  }

  // ---------------------------------------------------------------- queues as sequences

  /** How many leading members have a key not above `key`. */
  function Rank(o: Order, t: Table, xs: seq<Slot>, key: nat): (r: nat)
    ensures r <= |xs|
  {
    if xs == [] || Key(o, t[xs[0]]) > key then 0 else 1 + Rank(o, t, xs[1..], key)
  }

  function Splice(xs: seq<Slot>, i: nat, p: Slot): seq<Slot>
    requires i <= |xs|
  {
    xs[..i] + [p] + xs[i..]
  }

  function Inserted(o: Order, t: Table, xs: seq<Slot>, p: Slot): seq<Slot> {
    Splice(xs, Rank(o, t, xs, Key(o, t[p])), p)
  }

  function IndexOf(xs: seq<Slot>, p: Slot): (i: nat)
    requires p in xs
    ensures i < |xs| && xs[i] == p && p !in xs[..i]
  {
    if xs[0] == p then 0 else 1 + IndexOf(xs[1..], p)
  }

  function Removed(xs: seq<Slot>, p: Slot): seq<Slot> {
    if p in xs then xs[..IndexOf(xs, p)] + xs[IndexOf(xs, p) + 1..] else xs
  }

  ghost predicate Sorted(o: Order, t: Table, xs: seq<Slot>) {
    forall i, j :: 0 <= i < j < |xs| ==> Key(o, t[xs[i]]) <= Key(o, t[xs[j]])
  }

  // ---------------------------------------------------------------- the system state

  /** History of the ready queue: arrivals with the priority they came with, dispatches, and
      removals of a process that was killed while ready. */
  datatype Sched = Arrive(who: Slot, prio: nat) | Run(who: Slot) | Withdraw(who: Slot)

  datatype Sys = Sys(t: Table, q: Queues, current: Ptr, init: Slot, nextPid: nat, now: nat,
                     log: seq<Sched>) {
    function Put(p: Slot, pcb: Pcb): Sys { this.(t := t[p := pcb]) }
    function Unqueue(k: Qid, p: Slot): Sys { this.(q := q[k := Removed(q[k], p)]) }
  }

  /** The `next` field of `p` is not NULL: `p` sits in a queue, and not at its end. */
  ghost predicate Linked(q: Queues, p: Slot) {
    exists k: Qid, i: nat :: i + 1 < |q[k]| && q[k][i] == p
  }

  /** pcb_queue_insert, in the callers that panic when it fails. */
  ghost function Enqueue(s: Sys, k: Qid, p: Slot): Outcome<Sys> {
    if Linked(s.q, p) then Panic
    else Ok(s.(q := s.q[k := Inserted(OrderOf(k), s.t, s.q[k], p)]))
  }

  ghost function Free(s: Sys, p: Slot): Outcome<Sys> {
    Enqueue(s.Put(p, s.t[p].(state := Unused)), FREE, p)
  }

  ghost function Schedule(s: Sys, p: Slot): Outcome<Sys> {
    if s.t[p].state.Unused? || s.t[p].state.Zombie? then Panic
    else
      var s' :- Enqueue(s.Put(p, s.t[p].(state := Ready, syscall := 0)), READY, p);
      Ok(s'.(log := s'.log + [Arrive(p, s.t[p].priority)]))
  }

  /** One pass of the dispatcher's loop; an empty ready queue leaves the processor idle. */
  ghost function Dispatch(s: Sys): Outcome<Sys> {
    if s.current != NULL then Panic
    else if s.q[READY] == [] then Ok(s)
    else
      var p := s.q[READY][0];
      Ok(s.Put(p, s.t[p].(state := Running, ticks := TICKS_PER_PROCESS, syscall := 0))
          .(q := s.q[READY := s.q[READY][1..]], current := p, log := s.log + [Run(p)]))
  }

  function Reparented(t: Table, v: Slot, init: Slot): Table {
    seq(256, i requires 0 <= i < 256 =>
      if !t[i].state.Unused? && t[i].parent == v then t[i].(parent := init) else t[i])
  }

  /** The zombie child of `v` with the highest table index below `n`. */
  function LastZombie(t: Table, v: Slot, n: nat): (z: Ptr)
    requires n <= 256
    ensures z < n
    ensures z != NULL ==> t[z].state.Zombie? && t[z].parent == v
    ensures forall i :: z < i < n ==> !(t[i].state.Zombie? && t[i].parent == v)
  {
    if n == 0 then NULL
    else if t[n - 1].state.Zombie? && t[n - 1].parent == v then n - 1
    else LastZombie(t, v, n - 1)
  }

  /** Does `waiter`, blocked in waitpid, accept `child`? */
  predicate Accepts(waiter: Pcb, child: Pcb) {
    var pid := waiter.arg1 % PID_MOD;
    pid == 0 || pid == child.pid
  }

  /** The waiter's registers and status word once its waitpid returns `child`. */
  function Collected(waiter: Pcb, child: Pcb): Pcb {
    waiter.(ret := child.pid, status := if waiter.arg2 != 0 then child.exitStatus else waiter.status)
  }

  /** Hand the zombie `z`, just reparented to init, over to init's pending waitpid. */
  ghost function Adopt(s: Sys, z: Slot): Outcome<Sys> {
    if z !in s.q[ZOMBIE] || s.init !in s.q[WAITING] then Panic
    else
      var s1 := s.Unqueue(ZOMBIE, z).Unqueue(WAITING, s.init);
      var s2 :- if Accepts(s.t[s.init], s.t[z])
                then Schedule(s1.Put(s.init, Collected(s.t[s.init], s.t[z])), s.init)
                else Ok(s1);
      Free(s2, z)
  }

  /** Wake the waiting parent with the victim's pid, or keep the victim as a zombie. */
  ghost function Bury(s: Sys, parent: Slot, v: Slot): Outcome<Sys> {
    if s.t[parent].syscall == SYS_waitpid && Accepts(s.t[parent], s.t[v]) then
      if parent !in s.q[WAITING] then Panic
      else
        var s1 :- Schedule(s.Put(parent, Collected(s.t[parent], s.t[v])).Unqueue(WAITING, parent), parent);
        Free(s1, v)
    else Enqueue(s.Put(v, s.t[v].(state := Zombie)), ZOMBIE, v)
  }

  /** The victim's children now belong to init, `z` being the last zombie among them, if any. */
  ghost function Settle(s: Sys, z: Ptr, parent: Slot, v: Slot): Outcome<Sys> {
    var s' :- if z != NULL && s.t[s.init].syscall == SYS_waitpid then Adopt(s, z) else Ok(s);
    Bury(s', parent, v)
  }

  ghost function Zombify(s: Sys, v: Slot): Outcome<Sys> {
    if s.t[v].pid == 1 || s.t[v].parent == NULL then Panic
    else Settle(s.(t := Reparented(s.t, v, s.init)), LastZombie(s.t, v, 256), s.t[v].parent, v)
  }

  // ---------------------------------------------------------------- the timer tick

  /** Length of the longest prefix of `xs` whose members are all overdue. */
  function DuePrefix(t: Table, xs: seq<Slot>, now: nat): (n: nat)
    ensures n <= |xs|
  {
    if xs == [] || t[xs[0]].wakeup >= now then 0 else 1 + DuePrefix(t, xs[1..], now)
  }

  ghost function ScheduleAll(s: Sys, ps: seq<Slot>): Outcome<Sys>
    decreases |ps|
  {
    if ps == [] then Ok(s)
    else
      var s' :- Schedule(s, ps[0]);
      ScheduleAll(s', ps[1..])
  }

  ghost function WakeSleepers(s: Sys): Outcome<Sys> {
    var xs := s.q[SLEEPING];
    var n := DuePrefix(s.t, xs, s.now);
    ScheduleAll(s.(q := s.q[SLEEPING := xs[n..]]), xs[..n])
  }

  function Decrement(n: nat): nat { if n == 0 then U64 - 1 else n - 1 }

  ghost function ChargeTick(s: Sys): Outcome<Sys> {
    if s.current == NULL then Ok(s)
    else
      var p: Slot := s.current;
      var left := Decrement(s.t[p].ticks);
      var s1 := s.Put(p, s.t[p].(ticks := left));
      if left >= 1 then Ok(s1)
      else
        var s2 :- Schedule(s1, p);
        Dispatch(s2.(current := NULL))
  }

  ghost function OnTick(s: Sys): Outcome<Sys> {
    var s' :- WakeSleepers(s.(now := (s.now + 1) % U64));
    ChargeTick(s')
  }

  // ---------------------------------------------------------------- system calls

  /** What the running process asks for.  `cloned` says whether copying the address space worked, `loaded`
      whether the new program was loaded, with `argc` arguments; `Other` is any call that only computes a
      result, `BadNumber` a call number out of range. */
  datatype Call = Exit(code: nat) | Waitpid(pid: nat, ptr: nat) | Fork(cloned: bool) | Setprio(prio: nat)
                | Kill(pid: nat) | Sleep(ms: nat) | Exec(loaded: bool, argc: nat)
                | Other(num: nat, result: int) | BadNumber(num: nat)
  {
    /** The call numbers and arguments that the registers can hold. */
    predicate Valid() {
      match this
      case Other(num, _) =>
        && num < N_SYSCALLS
        && num !in {SYS_exit, SYS_waitpid, SYS_fork, SYS_exec, SYS_setprio, SYS_kill, SYS_sleep}
      case BadNumber(num) => num >= N_SYSCALLS
      case Sleep(ms) => ms < U64
      case _ => true
    }

    function Number(): nat {
      match this
      case Exit(_) => SYS_exit
      case Waitpid(_, _) => SYS_waitpid
      case Fork(_) => SYS_fork
      case Setprio(_) => SYS_setprio
      case Kill(_) => SYS_kill
      case Sleep(_) => SYS_sleep
      case Exec(_, _) => SYS_exec
      case Other(num, _) => num
      case BadNumber(num) => num
    }

    function Arg1(): nat {
      match this
      case Exit(a) => a
      case Waitpid(a, _) => a
      case Setprio(a) => a
      case Kill(a) => a
      case Sleep(a) => a
      case _ => 0
    }

    function Arg2(): nat { if Waitpid? then ptr else 0 }
  }

  function Enter(s: Sys, call: Call): Sys
    requires s.current != NULL
  {
    s.Put(s.current, s.t[s.current].(ret := 0, syscall := call.Number(), arg1 := call.Arg1(), arg2 := call.Arg2()))
     .(current := NULL)
  }

  /** Back to the caller `c` with result `r`; a zero result leaves the register as the call set it. */
  function Return(s: Sys, c: Slot, r: int): Sys {
    s.Put(c, s.t[c].(ret := if r != 0 then r else s.t[c].ret, syscall := 0)).(current := c)
  }

  ghost function DoExit(s: Sys, c: Slot, code: nat): Outcome<Sys> {
    var s' :- Zombify(s.Put(c, s.t[c].(exitStatus := code % 256)), c);
    Dispatch(s')
  }

  /** The first zombie child of `c`, from table index `i` on, that waitpid(pid) matches. */
  function FirstMatch(t: Table, c: Slot, pid: nat, i: nat): (z: Ptr)
    requires i <= 256
    ensures z != NULL ==> i <= z && t[z].state.Zombie? && t[z].parent == c && (pid == 0 || pid == t[z].pid)
    ensures z == NULL ==> forall j :: i <= j < 256 ==>
      !(t[j].state.Zombie? && t[j].parent == c && (pid == 0 || pid == t[j].pid))
    decreases 256 - i
  {
    if i == 256 then NULL
    else if t[i].state.Zombie? && t[i].parent == c && (pid == 0 || pid == t[i].pid) then i
    else FirstMatch(t, c, pid, i + 1)
  }

  /** A zombie that matches is reaped at once, its status written through the caller's pointer; a NULL pointer
      faults there, which stops the kernel.  Otherwise the caller blocks. */
  ghost function DoWaitpid(s: Sys, c: Slot, pid: nat): Outcome<Sys> {
    var z := FirstMatch(s.t, c, pid % PID_MOD, 0);
    if z == NULL then
      var s' :- Enqueue(s.Put(c, s.t[c].(state := Blocked)), WAITING, c);
      Dispatch(s')
    else if s.t[c].arg2 == 0 then Panic
    else
      var s' :- Free(s.Put(c, s.t[c].(status := s.t[z].exitStatus)), z);
      Ok(Return(s', c, s.t[z].pid))
  }

  /** pcb_alloc has taken entry `ch`, and the caller's registers are copied into it. */
  function Alloced(s: Sys, c: Slot, ch: Slot): Sys
    requires s.q[FREE] != []
  {
    s.Put(ch, s.t[ch].(pid := s.nextPid, state := New, arg1 := s.t[c].arg1, arg2 := s.t[c].arg2, ret := s.t[c].ret))
     .(q := s.q[FREE := s.q[FREE][1..]], nextPid := (s.nextPid + 1) % PID_MOD)
  }

  /** The state in which fork hands the child to the scheduler. */
  function Born(s: Sys, c: Slot, ch: Slot): Sys
    requires s.q[FREE] != []
  {
    var s1 := Alloced(s, c, ch);
    s1.Put(ch, s1.t[ch].(parent := c, state := Ready, priority := s.t[c].priority, ticks := 0, ret := 0))
      .Put(c, s.t[c].(ret := s.nextPid))
  }

  ghost function DoFork(s: Sys, c: Slot, cloned: bool): Outcome<Sys> {
    if s.q[FREE] == [] then Ok(Return(s, c, -1))
    else
      var ch := s.q[FREE][0];
      if !cloned then Ok(Return(Alloced(s, c, ch), c, -1))
      else
        var s' :- Schedule(Born(s, c, ch), ch);
        Ok(Return(s', c, 0))
  }

  function DoSetprio(s: Sys, c: Slot, prio: nat): Sys {
    Return(s.Put(c, s.t[c].(ret := s.t[c].priority, priority := prio % 0x1_0000_0000)), c, 0)
  }

  /** The live process with that pid at the lowest table index from `i` on. */
  function FindPid(t: Table, pid: nat, i: nat): (p: Ptr)
    requires i <= 256
    ensures p != NULL ==> i <= p && t[p].pid == pid && !t[p].state.Unused?
    ensures p == NULL ==> forall j :: i <= j < 256 ==> t[j].pid != pid || t[j].state.Unused?
    decreases 256 - i
  {
    if i == 256 then NULL
    else if t[i].pid == pid && !t[i].state.Unused? then i
    else FindPid(t, pid, i + 1)
  }

  function Lookup(t: Table, pid: nat): Ptr { if pid < 1 then NULL else FindPid(t, pid, 0) }

  /** `path` climbs parent links. */
  ghost predicate ParentPath(t: Table, path: seq<Slot>) {
    && |path| > 0
    && forall i :: 0 <= i < |path| - 1 ==> t[path[i]].parent == path[i + 1]
  }

  /** `anc` is `v` or one of the ancestors of `v`. */
  ghost predicate Ancestor(t: Table, anc: Slot, v: Slot) {
    exists path: seq<Slot> :: ParentPath(t, path) && path[0] == v && path[|path| - 1] == anc
  }

  /** Some process with that pid is `v` or one of its ancestors. */
  ghost predicate Owned(t: Table, pid: nat, v: Slot) {
    exists anc: Slot :: t[anc].pid == pid && Ancestor(t, anc, v)
  }

  /** The caller `c` kills `v`, one of its own, from queue `k`. */
  ghost function Fell(s: Sys, c: Slot, v: Slot, k: Qid): Outcome<Sys> {
    var s1 := s.Put(v, s.t[v].(exitStatus := 1)).Unqueue(k, v);
    var s2 :- Zombify(if k == READY then s1.(log := s1.log + [Withdraw(v)]) else s1, v);
    Ok(Return(s2, c, 0))
  }

  ghost function Slay(s: Sys, c: Slot, v: Slot): Outcome<Sys> {
    match s.t[v].state
    case Zombie => Ok(Return(s, c, 0))
    case Ready => Fell(s, c, v, READY)
    case Blocked => if s.t[v].syscall < N_SYSCALLS then Fell(s, c, v, WAIT + s.t[v].syscall) else Panic
    case Running => DoExit(s, c, 1)
    case _ => Ok(Return(s, c, 1))
  }

  ghost function DoKill(s: Sys, c: Slot, pid: nat): Outcome<Sys> {
    var v := Lookup(s.t, pid % PID_MOD);
    if v == NULL || !Owned(s.t, s.t[c].pid, v) then Ok(Return(s, c, 1)) else Slay(s, c, v)
  }

  ghost function DoSleep(s: Sys, c: Slot, ms: nat): Outcome<Sys> {
    if ms == 0 then
      var s' :- Schedule(s.Put(c, s.t[c].(ret := 0)), c);
      Dispatch(s')
    else
      var s1 := s.Put(c, s.t[c].(wakeup := (s.now + ms) % U64));
      if Linked(s.q, c) then Ok(Return(s1, c, 1))
      else
        var s2 :- Enqueue(s1, SLEEPING, c);
        Dispatch(s2.Put(c, s2.t[c].(state := Blocked)))
  }

  /** A program that was loaded starts with fresh registers when its turn comes. */
  ghost function DoExec(s: Sys, c: Slot, loaded: bool, argc: nat): Outcome<Sys> {
    if !loaded then Ok(Return(s, c, 1))
    else
      var s' :- Schedule(s.Put(c, s.t[c].(arg1 := argc, arg2 := 0, ret := 0)), c);
      Dispatch(s')
  }

  ghost function DoCall(s: Sys, call: Call): Outcome<Sys>
    requires s.current != NULL
  {
    var c: Slot := s.current;
    var e := Enter(s, call);
    match call
    case Exit(code) => DoExit(e, c, code)
    case Waitpid(pid, _) => DoWaitpid(e, c, pid)
    case Fork(cloned) => DoFork(e, c, cloned)
    case Setprio(prio) => Ok(DoSetprio(e, c, prio))
    case Kill(pid) => DoKill(e, c, pid)
    case Sleep(ms) => DoSleep(e, c, ms)
    case Exec(loaded, argc) => DoExec(e, c, loaded, argc)
    case Other(_, r) => Ok(Return(e, c, r))
    case BadNumber(_) => DoExit(e, c, 1)
  }

  /** A timer interrupt, one turn of the idle dispatcher, or a system call of the running process. */
  datatype Event = Tick | Resume | Do(call: Call)

  ghost predicate Enabled(s: Sys, e: Event) {
    match e
    case Tick => true
    case Resume => s.current == NULL
    case Do(call) => s.current != NULL && call.Valid()
  }

  ghost function Step(s: Sys, e: Event): Outcome<Sys>
    requires Enabled(s, e)
  {
    match e
    case Tick => OnTick(s)
    case Resume => Dispatch(s)
    case Do(call) => DoCall(s, call)
  }
}
