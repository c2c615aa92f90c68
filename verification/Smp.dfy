/** Several CPUs around the big kernel lock (sched/kern/spinlock.c, trap.c, sched.c), and
    the messages that environments exchange (sched/lib/ipc.c), as steps of one machine. */
module Smp {
  import opened Base
  import opened Envs
  import opened Lifecycle

  datatype Origin = FromUser | FromHalt | FromBoot

  // Where a CPU is. `again` says that a second lock_kernel() call follows in trap().
  datatype Mode =
    | User | Halted                      // running curenv; in the hlt loop of sched_halt
    | Enter(o: Origin)                   // at the exchange of cpu_status in trap()
    | Lock(o: Origin, again: bool)       // calling spin_lock
    | Spin(o: Origin, again: bool)       // at its atomic exchange
    | Got(o: Origin, again: bool)        // past it, before lk->cpu is recorded
    | InKernel(o: Origin)
    | Unlock(halt: bool)                 // calling spin_unlock
    | Leave(halt: bool)                  // lk->cpu cleared, before the exchange
    | InMonitor                          // in the kernel monitor, for good
    | Broken                             // a lock panic, a failed assert(curenv), or in the kernel unlocked

  datatype Msg = Msg(from: int, value: nat)

  datatype Machine = Machine(
    k: Kern,
    mode: seq<Mode>,
    halted: seq<bool>,            // cpu_status == CPU_HALTED
    locked: bool,                 // kernel_lock.locked
    holder: Option<nat>,          // kernel_lock.cpu
    awaiting: seq<bool>,          // the environment is inside ipc_recv
    sent: seq<seq<Msg>>,          // successful sends to this incarnation
    got: seq<seq<Msg>>)           // what its ipc_recv calls returned

  datatype Step =
    | Trap(c: nat)                               // an interrupt, fault or system call begins
    | Next(c: nat)                               // the next action on the lock
    | Serve(c: nat, call: Call, pick: nat)       // what the CPU does while it holds the lock
    | Create(vm: bool)                           // env_create during boot
    | Read(c: nat)                               // the end of ipc_recv in user mode

  function SetMode(m: Machine, c: nat, md: Mode): Machine
    requires c < |m.mode|
  {
    m.(mode := m.mode[c := md])
  }

  // ---------------------------------------------------------------- the lock

  predicate Holding(m: Machine, c: nat) { m.locked && m.holder == Some(c) }

  function NextStep(m: Machine, c: nat): Machine
    requires c < |m.mode| == |m.halted|
  {
    match m.mode[c]
    case Enter(o) =>
      var m1 := m.(halted := m.halted[c := false]);
      if m.halted[c] then SetMode(m1, c, Lock(o, o == FromUser))
      else SetMode(m1, c, if o == FromUser then Lock(o, false) else Broken)
    case Lock(o, again) => SetMode(m, c, if Holding(m, c) then Broken else Spin(o, again))
    case Spin(o, again) => if m.locked then m else SetMode(m, c, Got(o, again)).(locked := true)
    case Got(o, again) => SetMode(m, c, if again then Lock(o, false) else InKernel(o)).(holder := Some(c))
    case Unlock(halt) => if Holding(m, c) then SetMode(m, c, Leave(halt)).(holder := None) else SetMode(m, c, Broken)
    case Leave(halt) => SetMode(m, c, if halt then Halted else User).(locked := false)
    case _ => m
  }

  function TrapStep(m: Machine, c: nat): Machine
    requires c < |m.mode|
  {
    match m.mode[c]
    case User => SetMode(m, c, Enter(FromUser))
    case Halted => SetMode(m, c, Enter(FromHalt))
    case _ => m
  }

  predicate Holds(md: Mode) { md.Got? || md.InKernel? || md.Unlock? || md.Leave? || md.InMonitor? }
  predicate Recorded(md: Mode) { md.InKernel? || md.Unlock? || md.InMonitor? }
  predicate Asleep(md: Mode) {
    md.Halted? || (md.Enter? && md.o == FromHalt) || (md.Unlock? && md.halt) || (md.Leave? && md.halt)
  }
  predicate Legal(md: Mode) {
    && !md.Broken? && (md.Enter? ==> md.o != FromBoot)
    && ((md.Lock? || md.Spin? || md.Got?) ==> !md.again)
  }

  /** The lock discipline. */
  ghost predicate LockOk(m: Machine) {
    && |m.mode| == |m.halted| == |m.k.cur|
    && (forall c: nat :: c < |m.mode| ==> Legal(m.mode[c]) && (m.halted[c] <==> Asleep(m.mode[c])))
    && (forall c: nat :: c < |m.mode| && Holds(m.mode[c]) ==> m.locked)
    && (m.locked ==> exists c: nat :: c < |m.mode| && Holds(m.mode[c]))
    && (forall c: nat, d: nat :: c < |m.mode| && d < |m.mode| && Holds(m.mode[c]) && Holds(m.mode[d]) ==> c == d)
    && (forall c: nat :: c < |m.mode| ==> (m.holder == Some(c) <==> Recorded(m.mode[c])))
  }

  // One CPU moves on, and the lock changes as its part in it does.
  lemma LockMove(m: Machine, c: nat, m1: Machine)
    requires LockOk(m) && c < |m.mode| && |m1.mode| == |m1.halted| == |m.mode| && m1.k == m.k
    requires m1.mode == m.mode[c := m1.mode[c]] && m1.halted == m.halted[c := Asleep(m1.mode[c])] && Legal(m1.mode[c])
    requires Holds(m1.mode[c]) == Holds(m.mode[c]) ==> m1.locked == m.locked
    requires Holds(m1.mode[c]) && !Holds(m.mode[c]) ==> !m.locked && m1.locked
    requires !Holds(m1.mode[c]) && Holds(m.mode[c]) ==> !m1.locked
    requires m1.holder == if Recorded(m1.mode[c]) then Some(c) else if Recorded(m.mode[c]) then None else m.holder
    requires Recorded(m1.mode[c]) ==> Holds(m.mode[c])
    ensures LockOk(m1)
  {
    if m1.locked && !Holds(m1.mode[c]) {
      var d: nat :| d < |m.mode| && Holds(m.mode[d]);
      assert Holds(m1.mode[d]);
    }
  }

  lemma NextKeepsLock(m: Machine, c: nat)
    requires LockOk(m) && c < |m.mode|
    ensures LockOk(NextStep(m, c))
  {
    if NextStep(m, c) != m {
      LockMove(m, c, NextStep(m, c));
    }
  }

  lemma TrapKeepsLock(m: Machine, c: nat)
    requires LockOk(m) && c < |m.mode|
    ensures LockOk(TrapStep(m, c))
  {
    if TrapStep(m, c) != m {
      LockMove(m, c, TrapStep(m, c));
    }
  }

  // ---------------------------------------------------------------- kernel work

  // The CPU leaves the kernel as `out` says, with the new tables.
  function Finish(m: Machine, c: nat, k: Kern, out: Outcome): Machine
    requires c < |m.mode| == |m.halted|
  {
    match out
    case Run => SetMode(m, c, Unlock(false)).(k := k)
    case Halt => SetMode(m, c, Unlock(true)).(k := k, halted := m.halted[c := true])
    case Monitor => SetMode(m, c, InMonitor).(k := k)
  }

  // The books kept about a system call of p that ended as d.
  ghost function Log(m: Machine, p: nat, call: Call, d: Done): Machine
    requires Sized(m) && p < NENV
  {
    match call
    case Send(id, value, _, _, _, _) =>
      var e := Envid2Env(m.k.tab, p, id, false);
      if d.r == 0 && e.Some?
      then m.(sent := m.sent[e.value := m.sent[e.value] + [Msg(m.k.tab.envs[p].id, value)]])
      else m
    case Exofork(vm) => if d.r > 0 && m.k.tab.free != [] && m.k.tab.free[0] < NENV then Newborn(m, m.k.tab.free[0]) else m
    case Recv(dstva) => if d.r == 0 then m.(awaiting := m.awaiting[p := true]) else m
    case _ => m
  }

  function Newborn(m: Machine, e: nat): Machine
    requires |m.sent| == |m.got| == |m.awaiting| == NENV && e < NENV
  {
    m.(sent := m.sent[e := []], got := m.got[e := []], awaiting := m.awaiting[e := false])
  }

  // Every kernel visit from taking the lock to releasing it.
  ghost function ServeStep(m: Machine, c: nat, call: Call, pick: nat): Machine
    requires Inv(m) && c < |m.mode|
  {
    match m.mode[c]
    case InKernel(FromUser) =>
      KernelNotStuck(m, c);
      if m.k.cur[c].None? then SetMode(m, c, Broken)
      else
        var p := m.k.cur[c].value;
        assert On(m.k, c, p) && Current(m.k, p);
        var (k1, out) := TrapUser(m.k, c, call, pick);
        Finish(if St(m.k, p) == DYING then m else Log(m, p, call, Handle(m.k, c, p, call)), c, k1, out)
    case InKernel(_) =>
      KernelNotStuck(m, c);
      var (k1, out) := SchedYield(m.k, c, pick);
      Finish(m, c, k1, out)
    case _ => m
  }

  // env_create on the boot CPU, which panics when there is no environment or memory left.
  ghost function CreateStep(m: Machine, vm: bool): Machine
    requires Inv(m)
  {
    if 0 < |m.mode| && m.mode[0] == InKernel(FromBoot) then
      KernelNotStuck(m, 0);
      var (t, r) := EnvAlloc(m.k.tab, 0, vm);
      if r < 0 then SetMode(m, 0, InMonitor)
      else Newborn(m, m.k.tab.free[0]).(k := m.k.(tab := t))
    else m
  }

  // ipc_recv reads env_ipc_from and env_ipc_value after the system call returned.
  ghost function ReadStep(m: Machine, c: nat): Machine
    requires Inv(m) && c < |m.mode|
  {
    if m.mode[c] == User && m.k.cur[c].Some? && m.k.cur[c].value < NENV && m.awaiting[m.k.cur[c].value] then
      var e := m.k.cur[c].value;
      var v := m.k.tab.envs[e];
      m.(got := m.got[e := m.got[e] + [Msg(v.from, v.value)]], awaiting := m.awaiting[e := false])
    else m
  }

  // ---------------------------------------------------------------- the invariant

  ghost predicate Stuck(m: Machine) { exists c: nat :: c < |m.mode| && m.mode[c] == InMonitor }

  // A CPU has a current environment while it runs it or traps out of it.
  predicate HasEnv(md: Mode) {
    || md.User? || (md.Enter? && md.o == FromUser) || (md.Lock? && md.o == FromUser) || (md.Spin? && md.o == FromUser)
    || (md.Got? && md.o == FromUser) || (md.InKernel? && md.o == FromUser)
    || (md.Unlock? && !md.halt) || (md.Leave? && !md.halt)
  }

  // Sends and receives agree, but for one message that was delivered and not yet read.
  ghost predicate Agree(m: Machine, e: nat)
    requires Sized(m) && e < NENV
  {
    var v := m.k.tab.envs[e];
    && (v.recving ==> m.awaiting[e])
    && m.sent[e] == m.got[e] + if m.awaiting[e] && !v.recving then [Msg(v.from, v.value)] else []
  }

  ghost predicate Sized(m: Machine) { |m.sent| == |m.got| == |m.awaiting| == NENV == |m.k.tab.envs| }

  ghost predicate Tables(m: Machine)
    requires Sized(m)
  {
    && Kept(m.k) && |m.mode| == |m.k.cur|
    && (forall c: nat :: c < |m.mode| ==> (m.k.cur[c].Some? <==> HasEnv(m.mode[c])))
    && (forall e: nat :: e < NENV && St(m.k, e) != FREE ==> Agree(m, e))
  }

  ghost predicate Inv(m: Machine) {
    && LockOk(m) && Sized(m)
    && (!Stuck(m) ==> Tables(m))
  }

  lemma KernelNotStuck(m: Machine, c: nat)
    requires Inv(m) && c < |m.mode| && Holds(m.mode[c]) && m.mode[c] != InMonitor
    ensures !Stuck(m) && Tables(m)
  {
  }

  // ---------------------------------------------------------------- the steps keep it

  // The environments differ in nothing that a message shows.
  ghost predicate Quiet(k: Kern, k1: Kern) {
    && |k.tab.envs| == NENV == |k1.tab.envs|
    && forall e: nat :: e < NENV && St(k1, e) != FREE ==>
         var v, w := k.tab.envs[e], k1.tab.envs[e];
         v.status != FREE && w.recving == v.recving && w.from == v.from && w.value == v.value
  }

  // The current environments of the other CPUs are the same, and c's is as it leaves the kernel.
  ghost predicate LeavesWith(k: Kern, c: nat, k1: Kern, out: Outcome) {
    && |k1.cur| == |k.cur| && c < |k.cur|
    && (forall d: nat :: d < |k.cur| && d != c ==> k1.cur[d] == k.cur[d])
    && (out == Run ==> k1.cur[c].Some?) && (out == Halt ==> k1.cur[c].None?)
  }

  lemma YieldEffect(k: Kern, c: nat, pick: nat)
    requires KernOk(k) && c < |k.cur|
    ensures var (k1, out) := SchedYield(k, c, pick);
            Quiet(k, k1) && LeavesWith(k, c, k1, out)
  {
  }

  // The end of a system call that Handle left as d.
  lemma TrapEffect(k: Kern, c: nat, p: nat, call: Call, pick: nat, d: Done)
    requires Life(k) && On(k, c, p) && St(k, p) != DYING && St(k, p) != FREE && d == Handle(k, c, p, call)
    ensures var (k1, out) := TrapUser(k, c, call, pick);
            Quiet(d.k, k1) && LeavesWith(k, c, k1, out)
  {
    if !d.resched && d.k.cur[c].Some? && St(d.k, d.k.cur[c].value) == RUNNING {
    } else {
      YieldEffect(d.k, c, pick);
    }
  }

  ghost predicate Books(m: Machine)
    requires Sized(m)
  {
    forall e: nat :: e < NENV && St(m.k, e) != FREE ==> Agree(m, e)
  }

  lemma QuietBooks(m: Machine, k: Kern, k1: Kern)
    requires Sized(m) && |k.tab.envs| == |k1.tab.envs| == NENV && Books(m.(k := k)) && Quiet(k, k1)
    ensures Books(m.(k := k1))
  {
    forall e: nat | e < NENV && St(k1, e) != FREE ensures Agree(m.(k := k1), e) {
      assert Agree(m.(k := k), e);
    }
  }

  lemma SendBooks(m: Machine, c: nat, p: nat, call: Call, d: Done)
    requires Sized(m) && Kept(m.k) && Books(m) && On(m.k, c, p) && St(m.k, p) == RUNNING
    requires call.Send? && d == SysIpcTrySend(m.k, p, call.id, call.value, call.srcva, call.perm, call.writable, call.mem)
    ensures Books(Log(m, p, call, d).(k := d.k))
  {
    var m1 := Log(m, p, call, d).(k := d.k);
    forall e: nat | e < NENV && St(d.k, e) != FREE ensures Agree(m1, e) {
      assert Agree(m, e);
    }
  }

  lemma ExoforkBooks(m: Machine, c: nat, p: nat, vm: bool, d: Done)
    requires Sized(m) && Kept(m.k) && Books(m) && On(m.k, c, p) && St(m.k, p) == RUNNING
    requires d == SysExofork(m.k, p, vm)
    ensures Books(Log(m, p, Exofork(vm), d).(k := d.k))
  {
    var m1 := Log(m, p, Exofork(vm), d).(k := d.k);
    AllocId(m.k.tab, m.k.tab.envs[p].id, vm);
    forall e: nat | e < NENV && St(d.k, e) != FREE ensures Agree(m1, e) {
      if St(m.k, e) != FREE {
        assert Agree(m, e);
      }
    }
  }

  // A successful env_alloc makes a positive id.
  lemma AllocId(t: Table, parent: int, vm: bool)
    requires TableOk(t)
    ensures var (u, r) := EnvAlloc(t, parent, vm); r == 0 ==> t.free != [] && u.envs[t.free[0]].id > 0
  {
    if t.free != [] {
      NewIdOk(t.envs[t.free[0]].id, t.free[0]);
    }
  }

  lemma HandleQuiet(k: Kern, c: nat, p: nat, call: Call)
    requires KernOk(k) && c < |k.cur| && p < NENV && St(k, p) != FREE
    requires call.SetStatusOf? || call.Destroy? || call.Yield? || call.Other?
    ensures Quiet(k, Handle(k, c, p, call).k)
  {
  }

  lemma LogBooks(m: Machine, c: nat, p: nat, call: Call, d: Done)
    requires Sized(m) && Kept(m.k) && Books(m) && On(m.k, c, p) && St(m.k, p) == RUNNING
    requires d == Handle(m.k, c, p, call) && Benign(m.k, c, p, call)
    requires m.awaiting[p] ==> !call.Recv?
    ensures Books(Log(m, p, call, d).(k := d.k))
  {
    match call
    case Send(_, _, _, _, _, _) => SendBooks(m, c, p, call, d);
    case Exofork(vm) => ExoforkBooks(m, c, p, vm, d);
    case Recv(_) =>
      var m1 := Log(m, p, call, d).(k := d.k);
      forall e: nat | e < NENV && St(d.k, e) != FREE ensures Agree(m1, e) {
        assert Agree(m, e);
      }
    case _ =>
      HandleQuiet(m.k, c, p, call);
      QuietBooks(m, m.k, d.k);
      assert m.(k := m.k) == m;
  }

  lemma FinishKeepsLock(m: Machine, c: nat, k: Kern, out: Outcome)
    requires LockOk(m) && c < |m.mode| && m.mode[c].InKernel? && |k.cur| == |m.mode|
    ensures LockOk(Finish(m, c, k, out))
    ensures !Stuck(m) && out != Monitor ==> !Stuck(Finish(m, c, k, out))
  {
    assert Holds(Finish(m, c, k, out).mode[c]);
  }

  lemma FinishKeeps(m: Machine, c: nat, k: Kern, out: Outcome)
    requires LockOk(m) && c < |m.mode| && m.mode[c].InKernel? && Sized(m) && |k.tab.envs| == NENV
    requires |k.cur| == |m.mode|
    requires !Stuck(m) && out != Monitor ==> Kept(k) && Books(m.(k := k)) && Tables(m) && LeavesWith(m.k, c, k, out)
    requires out == Monitor || !Stuck(m)
    ensures Inv(Finish(m, c, k, out))
  {
    var m1 := Finish(m, c, k, out);
    FinishKeepsLock(m, c, k, out);
    if out == Monitor {
      assert m1.mode[c] == InMonitor;
    } else {
      forall e: nat | e < NENV && St(k, e) != FREE ensures Agree(m1, e) {
        assert Agree(m.(k := k), e);
      }
    }
  }

  // What the steps may be: the guarded system calls of Lifecycle, and no second system call
  // of an environment before ipc_recv has returned.
  ghost predicate Good(m: Machine, s: Step)
    requires Inv(m)
  {
    match s
    case Serve(c, call, pick) =>
      c < |m.mode| && m.mode[c] == InKernel(FromUser) && m.k.cur[c].Some? && m.k.cur[c].value < NENV
      && St(m.k, m.k.cur[c].value) != DYING ==>
        && Benign(m.k, c, m.k.cur[c].value, call)
        && (m.awaiting[m.k.cur[c].value] ==> call == Yield || call == Other || call == Destroy(0))
    case _ => true
  }

  ghost function Apply(m: Machine, s: Step): Machine
    requires Inv(m)
  {
    match s
    case Trap(c) => if c < |m.mode| then TrapStep(m, c) else m
    case Next(c) => if c < |m.mode| then NextStep(m, c) else m
    case Serve(c, call, pick) => if c < |m.mode| then ServeStep(m, c, call, pick) else m
    case Create(vm) => CreateStep(m, vm)
    case Read(c) => if c < |m.mode| then ReadStep(m, c) else m
  }

  // A move on the lock changes no table and no more about the CPU than Unmoved says.
  ghost predicate Unmoved(m: Machine, m1: Machine) {
    && m1 == m.(mode := m1.mode, halted := m1.halted, locked := m1.locked, holder := m1.holder)
    && |m1.mode| == |m.mode|
    && forall d: nat :: d < |m.mode| ==>
         HasEnv(m1.mode[d]) == HasEnv(m.mode[d]) && (m1.mode[d] == InMonitor <==> m.mode[d] == InMonitor)
  }

  lemma NextEffect(m: Machine, c: nat)
    requires LockOk(m) && c < |m.mode|
    ensures Unmoved(m, NextStep(m, c))
  {
    var m1 := NextStep(m, c);
    assert m1.mode == m.mode[c := m1.mode[c]];
    assert HasEnv(m1.mode[c]) == HasEnv(m.mode[c]);
  }

  lemma TrapUnmoved(m: Machine, c: nat)
    requires LockOk(m) && c < |m.mode|
    ensures Unmoved(m, TrapStep(m, c))
  {
  }

  lemma MoveKeeps(m: Machine, c: nat, m1: Machine)
    requires Inv(m) && c < |m.mode| && (m1 == NextStep(m, c) || m1 == TrapStep(m, c))
    ensures Inv(m1)
  {
    if m1 == NextStep(m, c) {
      NextKeepsLock(m, c);
      NextEffect(m, c);
    } else {
      TrapKeepsLock(m, c);
      TrapUnmoved(m, c);
    }
    SameTables(m, m1);
  }

  lemma SameTables(m: Machine, m1: Machine)
    requires Inv(m) && LockOk(m1) && Unmoved(m, m1)
    ensures Inv(m1)
  {
    if Stuck(m) {
      var d: nat :| d < |m.mode| && m.mode[d] == InMonitor;
      assert m1.mode[d] == InMonitor;
    } else {
      forall e: nat | e < NENV && St(m.k, e) != FREE ensures Agree(m1, e) {
        assert Agree(m, e);
      }
    }
  }

  lemma ServeKeeps(m: Machine, c: nat, call: Call, pick: nat)
    requires Inv(m) && c < |m.mode| && Good(m, Serve(c, call, pick))
    ensures Inv(ServeStep(m, c, call, pick))
  {
    if m.mode[c] == InKernel(FromUser) {
      KernelNotStuck(m, c);
      var p := m.k.cur[c].value;
      assert On(m.k, c, p) && Current(m.k, p);
      if St(m.k, p) == DYING {
        ReapKeepsInv(m, c, p, call, pick);
      } else {
        CallKeepsInv(m, c, p, call, pick);
      }
    } else if m.mode[c].InKernel? {
      KernelNotStuck(m, c);
      IdleKeepsInv(m, c, pick);
    }
  }

  lemma IdleKeepsInv(m: Machine, c: nat, pick: nat)
    requires Inv(m) && c < |m.mode| && m.mode[c].InKernel? && m.mode[c].o != FromUser && !Stuck(m)
    ensures var (k1, out) := SchedYield(m.k, c, pick); Inv(Finish(m, c, k1, out))
  {
    var (k1, out) := SchedYield(m.k, c, pick);
    YieldEffect(m.k, c, pick);
    YieldKeeps(m.k, c, 0, pick);
    QuietBooks(m, m.k, k1);
    FinishKeeps(m, c, k1, out);
  }

  lemma ReapKeepsInv(m: Machine, c: nat, p: nat, call: Call, pick: nat)
    requires Inv(m) && c < |m.mode| && m.mode[c] == InKernel(FromUser) && !Stuck(m)
    requires On(m.k, c, p) && St(m.k, p) == DYING
    ensures var (k1, out) := TrapUser(m.k, c, call, pick); Inv(Finish(m, c, k1, out))
  {
    var (k1, out) := TrapUser(m.k, c, call, pick);
    var k0 := Kern(FreeSlot(m.k.tab, p), m.k.cur[c := None]);
    FreeKeeps(m.k.tab, p);
    YieldEffect(k0, c, pick);
    ReapKeeps(m.k, c, p, call, pick);
    QuietBooks(m, m.k, k0);
    QuietBooks(m, k0, k1);
    FinishKeeps(m, c, k1, out);
  }

  lemma CallKeepsInv(m: Machine, c: nat, p: nat, call: Call, pick: nat)
    requires Inv(m) && c < |m.mode| && m.mode[c] == InKernel(FromUser) && !Stuck(m)
    requires On(m.k, c, p) && St(m.k, p) != DYING && St(m.k, p) != FREE && Good(m, Serve(c, call, pick))
    ensures var (k1, out) := TrapUser(m.k, c, call, pick);
            Inv(Finish(Log(m, p, call, Handle(m.k, c, p, call)), c, k1, out))
  {
    var (k1, out) := TrapUser(m.k, c, call, pick);
    var d := Handle(m.k, c, p, call);
    var m1 := Log(m, p, call, d);
    LogBooks(m, c, p, call, d);
    TrapEffect(m.k, c, p, call, pick, d);
    QuietBooks(m1, d.k, k1);
    BenignKeeps(m.k, c, p, call, pick);
    CallFinish(m, m1, c, k1, out);
  }

  lemma CallFinish(m: Machine, m1: Machine, c: nat, k1: Kern, out: Outcome)
    requires Inv(m) && c < |m.mode| && m.mode[c] == InKernel(FromUser) && !Stuck(m)
    requires m1 == m.(sent := m1.sent, got := m1.got, awaiting := m1.awaiting) && Sized(m1)
    requires KernOk(k1) && LeavesWith(m.k, c, k1, out) && (out != Monitor ==> Kept(k1)) && Books(m1.(k := k1))
    ensures Inv(Finish(m1, c, k1, out))
  {
  }

  lemma CreateKeeps(m: Machine, vm: bool)
    requires Inv(m)
    ensures Inv(CreateStep(m, vm))
  {
    if 0 < |m.mode| && m.mode[0] == InKernel(FromBoot) {
      KernelNotStuck(m, 0);
      var m1 := CreateStep(m, vm);
      AllocKeeps(m.k.tab, 0, vm);
      if m1.mode[0] == InMonitor {
        assert LockOk(m1) by { FinishKeepsLock(m, 0, m.k, Monitor); }
      } else {
        CreatedKept(m.k, vm, m1.k);
        forall e: nat | e < NENV && St(m1.k, e) != FREE ensures Agree(m1, e) {
          if e != m.k.tab.free[0] {
            assert Agree(m, e);
          }
        }
      }
    }
  }

  lemma CreatedKept(k: Kern, vm: bool, k1: Kern)
    requires Kept(k) && k.tab.free != [] && vm && k1 == k.(tab := EnvAlloc(k.tab, 0, vm).0)
    ensures Kept(k1)
  {
    AllocKeeps(k.tab, 0, vm);
    assert forall d, f: nat :: On(k1, d, f) <==> On(k, d, f);
    forall f: nat ensures Current(k1, f) <==> Current(k, f) {
      SameCurrent(k, k1, f);
    }
  }

  lemma ReadKeeps(m: Machine, c: nat)
    requires Inv(m) && c < |m.mode|
    ensures Inv(ReadStep(m, c))
  {
    var m1 := ReadStep(m, c);
    if Stuck(m) {
      assert Stuck(m1);
    } else if m1 != m {
      var p := m.k.cur[c].value;
      assert On(m.k, c, p) && Current(m.k, p);
      forall e: nat | e < NENV && St(m.k, e) != FREE ensures Agree(m1, e) {
        assert Agree(m, e);
      }
    }
  }

  lemma StepKeeps(m: Machine, s: Step)
    requires Inv(m) && Good(m, s)
    ensures Inv(Apply(m, s))
  {
    match s
    case Trap(c) => if c < |m.mode| { MoveKeeps(m, c, TrapStep(m, c)); }
    case Next(c) => if c < |m.mode| { MoveKeeps(m, c, NextStep(m, c)); }
    case Serve(c, call, pick) => if c < |m.mode| { ServeKeeps(m, c, call, pick); }
    case Create(vm) => CreateKeeps(m, vm);
    case Read(c) => if c < |m.mode| { ReadKeeps(m, c); }
  }

  // ---------------------------------------------------------------- runs

  // The boot CPU has the lock and the others wait for it; no environment exists.
  ghost predicate Boot(m: Machine) {
    && 0 < |m.mode| == |m.halted| == |m.k.cur| && Sized(m)
    && TableOk(m.k.tab) && (forall e: nat :: e < NENV ==> St(m.k, e) == FREE)
    && m.locked && m.holder == Some(0) && m.mode[0] == InKernel(FromBoot)
    && (forall c: nat :: 0 < c < |m.mode| ==> m.mode[c] == Lock(FromBoot, false))
    && (forall c: nat :: c < |m.mode| ==> !m.halted[c] && m.k.cur[c] == None)
  }

  ghost predicate Reaches(m: Machine, steps: seq<Step>, m1: Machine)
    decreases |steps|
  {
    if steps == [] then m1 == m
    else Inv(m) && Good(m, steps[0]) && Reaches(Apply(m, steps[0]), steps[1..], m1)
  }

  lemma BootOk(m: Machine)
    requires Boot(m)
    ensures Inv(m)
  {
    assert Holds(m.mode[0]);
    assert LockOk(m);
    forall e: nat | e < NENV ensures !Current(m.k, e) {
      assert forall c: int :: !On(m.k, c, e);
    }
    assert Kept(m.k);
  }

  lemma {:induction false} RunKeepsInv(m: Machine, steps: seq<Step>, m1: Machine)
    requires Inv(m) && Reaches(m, steps, m1)
    ensures Inv(m1)
    decreases |steps|
  {
    if steps != [] {
      StepKeeps(m, steps[0]);
      RunKeepsInv(Apply(m, steps[0]), steps[1..], m1);
    }
  }

  /** Safety over all runs from boot: no lock panic, no failed assertion, at most one CPU in the
      kernel; and whenever the lock is free, every environment is RUNNING or DYING exactly when
      it is current on exactly one CPU, the free list is exactly the FREE slots, and a receiver
      sleeps on no CPU. */
  lemma SafeRuns(m0: Machine, steps: seq<Step>, m: Machine)
    requires Boot(m0) && Reaches(m0, steps, m)
    ensures forall c: nat :: c < |m.mode| ==> m.mode[c] != Broken
    ensures forall c: nat, d: nat :: c < |m.mode| && d < |m.mode| && m.mode[c].InKernel? && m.mode[d].InKernel? ==> c == d
    ensures !m.locked ==>
              && Life(m.k)
              && (forall e: nat :: e < NENV ==> (St(m.k, e) == FREE <==> e in m.k.tab.free))
              && (forall e: nat :: e < NENV && St(m.k, e) != FREE && m.k.tab.envs[e].recving ==> !Current(m.k, e))
    ensures (exists c: nat :: c < |m.mode| && m.mode[c] == InMonitor) ==> m.locked
  {
    BootOk(m0);
    RunKeepsInv(m0, steps, m);
  }

  /** Exactly-once, in-order delivery over all runs from boot: the sends that succeeded to an
      environment are what its receives returned, then at most one message not yet read. */
  lemma ExactlyOnce(m0: Machine, steps: seq<Step>, m: Machine, e: nat)
    requires Boot(m0) && Reaches(m0, steps, m) && !Stuck(m)
    requires e < NENV && |m.k.tab.envs| == NENV && St(m.k, e) != FREE
    ensures |m.sent| == |m.got| == NENV
    ensures m.got[e] <= m.sent[e] && |m.sent[e]| <= |m.got[e]| + 1
    ensures |m.sent[e]| > |m.got[e]| ==>
              m.sent[e][|m.got[e]|] == Msg(m.k.tab.envs[e].from, m.k.tab.envs[e].value) && !m.k.tab.envs[e].recving
  {
    BootOk(m0);
    RunKeepsInv(m0, steps, m);
    assert Agree(m, e);
  }
}
