/** What the kernel does to environments while a CPU holds the big lock
    (sched/kern/env.c, trap.c, syscall.c): lifecycle and IPC. */
module Lifecycle {
  import opened Base
  import opened Envs
  import Paging
  import AddressSpace
  import Sched

  // envs[], env_free_list and the curenv of every CPU.
  datatype Kern = Kern(tab: Table, cur: seq<Option<nat>>)

  // How a CPU leaves the kernel; Monitor is the kernel monitor, which it never leaves.
  datatype Outcome = Run | Halt | Monitor

  ghost predicate KernOk(k: Kern) {
    TableOk(k.tab) && forall c :: 0 <= c < |k.cur| && k.cur[c].Some? ==> k.cur[c].value < NENV
  }

  function St(k: Kern, e: nat): Status
    requires e < |k.tab.envs|
  {
    k.tab.envs[e].status
  }

  ghost predicate Current(k: Kern, e: nat) { exists c :: On(k, c, e) }

  predicate On(k: Kern, c: int, e: nat) { 0 <= c < |k.cur| && k.cur[c] == Some(e) }

  // No environment on two CPUs.
  ghost predicate Unique(k: Kern) { forall c, d, e: nat :: On(k, c, e) && On(k, d, e) ==> c == d }

  /** The lifecycle invariant: RUNNING and DYING environments are current on exactly one CPU,
      all others on none. The free list is part of TableOk. */
  ghost predicate Life(k: Kern) {
    && KernOk(k)
    && (forall e: nat :: e < NENV ==> (St(k, e) == RUNNING || St(k, e) == DYING <==> Current(k, e)))
    && Unique(k)
  }

  // ---------------------------------------------------------------- scheduling

  function Put(k: Kern, e: nat, v: Env): Kern
    requires e < |k.tab.envs|
  {
    k.(tab := k.tab.(envs := k.tab.envs[e := v]))
  }

  function SetStatus(k: Kern, e: nat, st: Status): Kern
    requires e < |k.tab.envs|
  {
    Put(k, e, k.tab.envs[e].(status := st))
  }

  function EnvRun(k: Kern, c: nat, e: nat): Kern
    requires KernOk(k) && c < |k.cur| && e < NENV
  {
    var k1 := if k.cur[c].Some? && St(k, k.cur[c].value) == RUNNING then SetStatus(k, k.cur[c].value, RUNNABLE) else k;
    SetStatus(k1, e, RUNNING).(cur := k1.cur[c := Some(e)])
  }

  // The test of sched_halt before it gives up for good.
  ghost predicate Idle(k: Kern)
    requires |k.tab.envs| == NENV
  {
    forall e: nat :: e < NENV ==> St(k, e) == FREE || St(k, e) == NOT_RUNNABLE
  }

  // sched_yield; `pick` is the RUNNABLE environment that the scheduler prefers, if it is one.
  ghost function SchedYield(k: Kern, c: nat, pick: nat): (Kern, Outcome)
    requires KernOk(k) && c < |k.cur|
  {
    if pick < NENV && St(k, pick) == RUNNABLE then (EnvRun(k, c, pick), Run)
    else if k.cur[c].Some? && St(k, k.cur[c].value) == RUNNING then (EnvRun(k, c, k.cur[c].value), Run)
    else if Idle(k) then (k, Monitor)
    else (k.(cur := k.cur[c := None]), Halt)
  }

  // `s` is what the scheduler of CPU c sees of k.
  ghost predicate Sees(s: Sched.Sched, k: Kern, c: nat) {
    && Sched.Ok(s) && KernOk(k) && c < |k.cur| && s.cur == k.cur[c]
    && forall e: nat :: e < NENV ==> s.status[e] == St(k, e)
  }

  lemma RunSees(s: Sched.Sched, k: Kern, c: nat, e: nat)
    requires Sees(s, k, c) && e < NENV && St(k, e) != FREE
    ensures var k1 := EnvRun(k, c, e);
            && KernOk(k1) && c < |k1.cur| && k1.cur[c] == Some(e)
            && forall f: nat :: f < NENV ==> Sched.EnvRun(s, e).status[f] == St(k1, f)
  {
    EnvRunAt(k, c, e, EnvRun(k, c, e));
  }

  // A choice that follows the rules, and its effect.
  ghost predicate Chosen(s: Sched.Sched, t: Sched.Sched, ran: Option<nat>) {
    && Sched.Ok(s) && Sched.Ok(t) && t.cur == ran
    && (ran.Some? ==> ran.value < NENV && t.status == Sched.EnvRun(s, ran.value).status
                      && (s.status[ran.value] == RUNNABLE || (s.cur == ran && s.status[ran.value] == RUNNING)))
    && (ran.None? ==> t.status == s.status && (s.cur.Some? ==> s.status[s.cur.value] != RUNNING))
  }

  lemma SchedulersChoose(s: Sched.Sched, priorities: bool, t: Sched.Sched, ran: Option<nat>)
    requires Sched.Ok(s) && (t, ran) == if priorities then Sched.Yield(s) else Sched.YieldRR(s)
    ensures Chosen(s, t, ran)
  {
    if priorities {
      Sched.YieldChooses(s);
      Sched.YieldAges(s);
      Sched.YieldStatus(s);
    } else {
      Sched.FirstIsNearest(s, Sched.Start(s), 1);
    }
  }

  /** Both schedulers are instances: with the environment they choose as `pick`, sched_yield
      leaves the statuses and the curenv that they leave. */
  lemma SchedulersAreInstances(s: Sched.Sched, k: Kern, c: nat, priorities: bool, t: Sched.Sched, ran: Option<nat>)
    requires Sees(s, k, c) && (t, ran) == if priorities then Sched.Yield(s) else Sched.YieldRR(s)
    ensures var (k1, out) := SchedYield(k, c, if ran.Some? then ran.value else NENV);
            && (out == Run <==> ran.Some?)
            && (out != Monitor ==> Sees(t, k1, c))
  {
    SchedulersChoose(s, priorities, t, ran);
    if ran.Some? {
      RunSees(s, k, c, ran.value);
    }
  }

  // ---------------------------------------------------------------- system calls

  datatype Call =
    | Exofork(vm: bool)
    | SetStatusOf(id: int, to: Status)
    | Destroy(id: int)
    | Send(id: int, value: nat, srcva: nat, perm: nat, writable: bool, mem: int)
    | Recv(dstva: nat)
    | Yield
    | Other

  // State, result, and whether the handler went to the scheduler itself.
  datatype Done = Done(k: Kern, r: int, resched: bool)

  function SysExofork(k: Kern, p: nat, vm: bool): Done
    requires KernOk(k) && p < NENV
  {
    var (t, r) := EnvAlloc(k.tab, k.tab.envs[p].id, vm);
    if r < 0 then Done(k, r, false)
    else var e := k.tab.free[0]; Done(SetStatus(k.(tab := t), e, NOT_RUNNABLE), t.envs[e].id, false)
  }

  function SysEnvSetStatus(k: Kern, p: nat, id: int, to: Status): (d: Done)
    requires KernOk(k) && p < NENV && St(k, p) != FREE
    ensures KernOk(d.k)
  {
    if to != RUNNABLE && to != NOT_RUNNABLE then Done(k, E_INVAL, false)
    else match Envid2Env(k.tab, p, id, true)
      case None => Done(k, E_BAD_ENV, false)
      case Some(e) => PutKeepsTable(k, e, k.tab.envs[e].(status := to)); Done(SetStatus(k, e, to), 0, false)
  }

  function EnvDestroy(k: Kern, c: nat, e: nat): Done
    requires KernOk(k) && c < |k.cur| && e < NENV
  {
    if St(k, e) == RUNNING && k.cur[c] != Some(e) then Done(SetStatus(k, e, DYING), 0, false)
    else
      var k1 := k.(tab := FreeSlot(k.tab, e));
      if k.cur[c] == Some(e) then Done(k1.(cur := k.cur[c := None]), 0, true) else Done(k1, 0, false)
  }

  function SysEnvDestroy(k: Kern, c: nat, p: nat, id: int): (d: Done)
    requires KernOk(k) && c < |k.cur| && p < NENV && St(k, p) != FREE
    ensures KernOk(d.k) && |d.k.cur| == |k.cur|
  {
    match Envid2Env(k.tab, p, id, true)
    case None => Done(k, E_BAD_ENV, false)
    case Some(e) => DestroyKeepsTable(k, c, e); EnvDestroy(k, c, e)
  }

  // perm | PTE_U | PTE_P
  function WithUP(perm: nat): nat {
    perm + (if perm % 2 == 0 then Paging.PTE_P else 0) + (if perm / 4 % 2 == 0 then Paging.PTE_U else 0)
  }

  // The receiver once the message is in, but for env_ipc_perm.
  function Woken(v: Env, from: int, value: nat): Env {
    v.(from := from, value := value, recving := false, status := RUNNABLE)
  }

  // sys_ipc_try_send; `writable` is the PTE_W bit of the caller's page at srcva, `mem` what
  // env_page_alloc and env_page_map return for the receiver.
  function SysIpcTrySend(k: Kern, p: nat, id: int, value: nat, srcva: nat, perm: nat, writable: bool, mem: int): (d: Done)
    requires KernOk(k) && p < NENV && St(k, p) != FREE
    ensures KernOk(d.k)
  {
    match Envid2Env(k.tab, p, id, false)
    case None => Done(k, E_BAD_ENV, false)
    case Some(e) =>
      var v := k.tab.envs[e];
      if !v.recving then Done(k, E_IPC_NOT_RECV, false)
      else if srcva >= Paging.UTOP then Deliver(k, p, e, v.(perm := 0), value)
      else if srcva % Paging.PGSIZE != 0 then Done(k, E_INVAL, false)
      else if AddressSpace.Writable(perm) && !writable then Done(k, E_INVAL, false)
      else if v.dstva == 0 then Deliver(k, p, e, v, value)
      else if mem < 0 then Done(k, mem, false)
      else Deliver(k, p, e, v.(perm := WithUP(perm)), value)
  }

  function Deliver(k: Kern, p: nat, e: nat, v: Env, value: nat): (d: Done)
    requires KernOk(k) && p < NENV && e < NENV && St(k, e) != FREE && v.id == k.tab.envs[e].id
    ensures KernOk(d.k)
  {
    PutKeepsTable(k, e, Woken(v, k.tab.envs[p].id, value));
    Done(Put(k, e, Woken(v, k.tab.envs[p].id, value)), 0, false)
  }

  predicate GoodDst(dstva: nat) { dstva < Paging.UTOP && dstva % Paging.PGSIZE == 0 }

  // sys_ipc_recv; the flag is set before the address is checked.
  function SysIpcRecv(k: Kern, p: nat, dstva: nat): (d: Done)
    requires KernOk(k) && p < NENV && St(k, p) != FREE
    ensures KernOk(d.k)
  {
    var v := k.tab.envs[p].(recving := true);
    if !GoodDst(dstva) then Done(Put(k, p, v), E_INVAL, false)
    else Done(Put(k, p, v.(dstva := dstva, status := NOT_RUNNABLE)), 0, true)
  }

  function Handle(k: Kern, c: nat, p: nat, call: Call): (d: Done)
    requires KernOk(k) && c < |k.cur| && p < NENV && St(k, p) != FREE
    ensures KernOk(d.k) && |d.k.cur| == |k.cur|
  {
    match call
    case Exofork(vm) =>
      ExoforkKeepsTable(k, p, vm); SysExofork(k, p, vm)
    case SetStatusOf(id, to) =>
      SysEnvSetStatus(k, p, id, to)
    case Destroy(id) =>
      SysEnvDestroy(k, c, p, id)
    case Send(id, value, srcva, perm, writable, mem) =>
      SysIpcTrySend(k, p, id, value, srcva, perm, writable, mem)
    case Recv(dstva) =>
      SysIpcRecv(k, p, dstva)
    case Yield => Done(k, 0, true)
    case Other => Done(k, 0, false)
  }

  lemma PutKeepsTable(k: Kern, e: nat, v: Env)
    requires KernOk(k) && e < NENV && St(k, e) != FREE && v.status != FREE && v.id == k.tab.envs[e].id
    ensures KernOk(Put(k, e, v))
  {
  }

  lemma ExoforkKeepsTable(k: Kern, p: nat, vm: bool)
    requires KernOk(k) && p < NENV
    ensures KernOk(SysExofork(k, p, vm).k)
  {
    AllocKeeps(k.tab, k.tab.envs[p].id, vm);
    var (t, r) := EnvAlloc(k.tab, k.tab.envs[p].id, vm);
    if r == 0 {
      var e := k.tab.free[0];
      PutKeepsTable(k.(tab := t), e, t.envs[e].(status := NOT_RUNNABLE));
    }
  }

  lemma DestroyKeepsTable(k: Kern, c: nat, e: nat)
    requires KernOk(k) && c < |k.cur| && e < NENV && St(k, e) != FREE
    ensures KernOk(EnvDestroy(k, c, e).k)
  {
    FreeKeeps(k.tab, e);
    PutKeepsTable(k, e, k.tab.envs[e].(status := DYING));
  }

  // trap, from the moment the lock is held, for a trap out of user mode.
  ghost function TrapUser(k: Kern, c: nat, call: Call, pick: nat): (Kern, Outcome)
    requires Life(k) && c < |k.cur| && k.cur[c].Some?
  {
    var p := k.cur[c].value;
    assert On(k, c, p) && Current(k, p);
    if St(k, p) == DYING then
      FreeKeeps(k.tab, p);
      SchedYield(Kern(FreeSlot(k.tab, p), k.cur[c := None]), c, pick)
    else
      var d := Handle(k, c, p, call);
      if !d.resched && d.k.cur[c].Some? && St(d.k, d.k.cur[c].value) == RUNNING
      then (EnvRun(d.k, c, d.k.cur[c].value), Run)
      else SchedYield(d.k, c, pick)
  }

  // ---------------------------------------------------------------- the invariants

  // A receiver sleeps. FREE slots keep a stale flag.
  ghost predicate RecvOk(k: Kern)
    requires KernOk(k)
  {
    forall e: nat :: e < NENV && St(k, e) != FREE && k.tab.envs[e].recving ==> St(k, e) == NOT_RUNNABLE
  }

  ghost predicate Kept(k: Kern) { Life(k) && RecvOk(k) }

  // The guards that three system calls leave out.
  ghost predicate Benign(k: Kern, c: nat, p: nat, call: Call)
    requires KernOk(k) && p < NENV
  {
    match call
    case SetStatusOf(id, to) =>
      var e := Envid2Env(k.tab, p, id, true);
      (to == RUNNABLE || to == NOT_RUNNABLE) && e.Some? ==>
        && (forall d :: On(k, d, e.value) ==> d == c)
        && (to == RUNNABLE ==> !k.tab.envs[e.value].recving)
    case Destroy(id) =>
      var e := Envid2Env(k.tab, p, id, true);
      e.Some? ==> St(k, e.value) != DYING
    case Recv(dstva) => GoodDst(dstva)
    case _ => true
  }

  // In the kernel, on behalf of p: like Kept, but p may have any status.
  ghost predicate Midway(k: Kern, c: nat, p: nat) {
    && KernOk(k) && RecvOk(k) && c < |k.cur| && p < NENV
    && (k.cur[c] == None || k.cur[c] == Some(p))
    && (k.cur[c] == Some(p) ==> St(k, p) in {RUNNING, RUNNABLE, NOT_RUNNABLE})
    && (forall e: nat :: e < NENV && e != p ==> (St(k, e) == RUNNING || St(k, e) == DYING <==> Current(k, e)))
    && (k.cur[c] == None ==> (St(k, p) == RUNNING || St(k, p) == DYING <==> Current(k, p)))
    && Unique(k)
  }

  lemma SameCurrent(k: Kern, k1: Kern, f: nat)
    requires forall d :: On(k1, d, f) <==> On(k, d, f)
    ensures Current(k1, f) <==> Current(k, f)
  {
  }

  lemma EnvRunAt(k: Kern, c: nat, e: nat, k1: Kern)
    requires KernOk(k) && c < |k.cur| && e < NENV && k1 == EnvRun(k, c, e) && St(k, e) != FREE
    ensures KernOk(k1) && |k1.cur| == |k.cur|
    ensures forall d, f: nat :: On(k1, d, f) <==> if d == c then f == e else On(k, d, f)
    ensures forall f: nat :: f < NENV ==> k1.tab.envs[f].recving == k.tab.envs[f].recving
    ensures forall f: nat :: f < NENV ==>
              St(k1, f) == if f == e then RUNNING
                           else if k.cur[c] == Some(f) && St(k, f) == RUNNING then RUNNABLE else St(k, f)
  {
  }

  lemma RunKeeps(k: Kern, c: nat, p: nat, e: nat)
    requires Midway(k, c, p) && e < NENV
    requires St(k, e) == RUNNABLE || (k.cur[c] == Some(e) && St(k, e) == RUNNING)
    ensures Kept(EnvRun(k, c, e))
  {
    var k1 := EnvRun(k, c, e);
    EnvRunAt(k, c, e, k1);
    OnlyHere(k, c, p, e);
    forall f: nat | f < NENV ensures (St(k1, f) == RUNNING || St(k1, f) == DYING <==> Current(k1, f)) {
      if f == e {
        assert On(k1, c, f);
      } else if k.cur[c] == Some(f) {
        assert On(k, c, f);
      } else {
        assert !On(k, c, f);
        SameCurrent(k, k1, f);
      }
    }
  }

  lemma OnlyHere(k: Kern, c: nat, p: nat, e: nat)
    requires Midway(k, c, p) && e < NENV
    requires St(k, e) == RUNNABLE || (k.cur[c] == Some(e) && St(k, e) == RUNNING)
    ensures forall d :: On(k, d, e) ==> d == c
  {
    if k.cur[c] == Some(e) {
      assert On(k, c, e);
    } else {
      assert !Current(k, e);
    }
  }

  lemma YieldKeeps(k: Kern, c: nat, p: nat, pick: nat)
    requires Midway(k, c, p)
    ensures var (k1, out) := SchedYield(k, c, pick);
            out != Monitor ==> Kept(k1)
  {
    var (k1, out) := SchedYield(k, c, pick);
    if pick < NENV && St(k, pick) == RUNNABLE {
      RunKeeps(k, c, p, pick);
    } else if k.cur[c].Some? && St(k, k.cur[c].value) == RUNNING {
      RunKeeps(k, c, p, k.cur[c].value);
    } else if out == Halt {
      HaltKeeps(k, c, p, k1);
    }
  }

  lemma HaltKeeps(k: Kern, c: nat, p: nat, k1: Kern)
    requires Midway(k, c, p) && k1 == k.(cur := k.cur[c := None])
    requires k.cur[c] == Some(p) ==> St(k, p) != RUNNING
    ensures Kept(k1)
  {
    assert forall d, f: nat :: On(k1, d, f) <==> On(k, d, f) && d != c;
    forall f: nat | f < NENV ensures (St(k1, f) == RUNNING || St(k1, f) == DYING <==> Current(k1, f)) {
      if k.cur[c] == Some(f) {
        assert On(k, c, f);
      } else {
        assert !On(k, c, f);
        SameCurrent(k, k1, f);
      }
    }
  }

  // The state after a new value for environment e: some other one, or p itself.
  lemma PutMidway(k: Kern, c: nat, p: nat, e: nat, v: Env, k1: Kern)
    requires Kept(k) && On(k, c, p) && e < NENV
    requires k1.cur == k.cur && k1.tab.envs == k.tab.envs[e := v] && KernOk(k1)
    requires v.status != FREE && v.recving ==> v.status == NOT_RUNNABLE
    requires if e == p then v.status in {RUNNING, RUNNABLE, NOT_RUNNABLE}
             else (v.status == RUNNING || v.status == DYING <==> Current(k, e)) && St(k, p) == RUNNING
    ensures Midway(k1, c, p)
  {
    assert forall d, f: nat :: On(k1, d, f) <==> On(k, d, f);
    forall f: nat ensures Current(k1, f) <==> Current(k, f) {
      SameCurrent(k, k1, f);
    }
  }

  // ... or its end, p's own included.
  lemma FreeMidway(k: Kern, c: nat, p: nat, e: nat, k1: Kern)
    requires Kept(k) && On(k, c, p) && e < NENV && St(k, e) != FREE
    requires e == p || (St(k, p) == RUNNING && !Current(k, e))
    requires k1 == Kern(FreeSlot(k.tab, e), if e == p then k.cur[c := None] else k.cur)
    ensures Midway(k1, c, p)
  {
    FreeKeeps(k.tab, e);
    FreeOn(k, c, p, e, k1);
    forall f: nat | f < NENV && (f != p || e == p) ensures St(k1, f) == RUNNING || St(k1, f) == DYING <==> Current(k1, f) {
      if f != p {
        SameCurrent(k, k1, f);
      }
    }
  }

  lemma FreeOn(k: Kern, c: nat, p: nat, e: nat, k1: Kern)
    requires Kept(k) && On(k, c, p)
    requires k1.cur == if e == p then k.cur[c := None] else k.cur
    ensures forall d, f: nat :: On(k1, d, f) <==> On(k, d, f) && !(e == p && d == c)
    ensures Unique(k1)
    ensures e == p ==> !Current(k1, p)
  {
  }

  lemma ExoforkMidway(k: Kern, c: nat, p: nat, vm: bool, d: Done)
    requires Kept(k) && On(k, c, p) && St(k, p) == RUNNING && d == SysExofork(k, p, vm)
    ensures Midway(d.k, c, p)
  {
    ExoforkKeepsTable(k, p, vm);
    if d.r > 0 {
      var e := k.tab.free[0];
      PutMidway(k, c, p, e, d.k.tab.envs[e], d.k);
    }
  }

  lemma DestroyMidway(k: Kern, c: nat, p: nat, id: int, d: Done)
    requires Kept(k) && On(k, c, p) && St(k, p) == RUNNING && d == SysEnvDestroy(k, c, p, id)
    requires Benign(k, c, p, Destroy(id))
    ensures Midway(d.k, c, p)
  {
    var e := Envid2Env(k.tab, p, id, true);
    if e.Some? {
      if e.value != p && St(k, e.value) == RUNNING {
        PutMidway(k, c, p, e.value, d.k.tab.envs[e.value], d.k);
      } else {
        FreeMidway(k, c, p, e.value, d.k);
      }
    }
  }

  lemma SendMidway(k: Kern, c: nat, p: nat, call: Call, d: Done)
    requires Kept(k) && On(k, c, p) && St(k, p) == RUNNING && call.Send?
    requires d == SysIpcTrySend(k, p, call.id, call.value, call.srcva, call.perm, call.writable, call.mem)
    ensures Midway(d.k, c, p)
  {
    var e := Envid2Env(k.tab, p, call.id, false);
    if e.Some? && d.r == 0 {
      PutMidway(k, c, p, e.value, d.k.tab.envs[e.value], d.k);
    }
  }

  lemma HandleMidway(k: Kern, c: nat, p: nat, call: Call)
    requires Kept(k) && On(k, c, p) && St(k, p) == RUNNING && Benign(k, c, p, call)
    ensures Midway(Handle(k, c, p, call).k, c, p)
  {
    var d := Handle(k, c, p, call);
    match call
    case Exofork(vm) => ExoforkMidway(k, c, p, vm, d);
    case SetStatusOf(id, to) =>
      var e := Envid2Env(k.tab, p, id, true);
      if e.Some? && d.r == 0 {
        PutMidway(k, c, p, e.value, d.k.tab.envs[e.value], d.k);
      }
    case Destroy(id) => DestroyMidway(k, c, p, id, d);
    case Send(_, _, _, _, _, _) => SendMidway(k, c, p, call, d);
    case Recv(dstva) => PutMidway(k, c, p, p, d.k.tab.envs[p], d.k);
    case _ =>
  }

  // ---------------------------------------------------------------- which calls keep them

  // A system call that p makes on CPU c, up to the return to user mode.
  lemma BenignKeeps(k: Kern, c: nat, p: nat, call: Call, pick: nat)
    requires Kept(k) && On(k, c, p) && St(k, p) == RUNNING && Benign(k, c, p, call)
    ensures var (k1, out) := TrapUser(k, c, call, pick);
            out != Monitor ==> Kept(k1)
  {
    var d := Handle(k, c, p, call);
    HandleMidway(k, c, p, call);
    if !d.resched && d.k.cur[c].Some? && St(d.k, d.k.cur[c].value) == RUNNING {
      RunKeeps(d.k, c, p, p);
    } else {
      YieldKeeps(d.k, c, p, pick);
    }
  }

  // A DYING environment traps: it is freed, and the CPU goes on to another one.
  lemma ReapKeeps(k: Kern, c: nat, p: nat, call: Call, pick: nat)
    requires Kept(k) && On(k, c, p) && St(k, p) == DYING
    ensures var (k1, out) := TrapUser(k, c, call, pick);
            out != Monitor ==> Kept(k1)
  {
    FreeMidway(k, c, p, p, Kern(FreeSlot(k.tab, p), k.cur[c := None]));
    YieldKeeps(Kern(FreeSlot(k.tab, p), k.cur[c := None]), c, p, pick);
  }

  // Without the guards the caller goes on running, in a state that breaks the invariants.
  lemma HarmfulBreaks(k: Kern, c: nat, p: nat, call: Call, pick: nat)
    requires Kept(k) && On(k, c, p) && St(k, p) == RUNNING && !Benign(k, c, p, call)
    ensures var (k1, out) := TrapUser(k, c, call, pick);
            out == Run && !Kept(k1)
  {
    var d := Handle(k, c, p, call);
    var k1 := EnvRun(d.k, c, p);
    match call
    case SetStatusOf(id, to) =>
      var e := Envid2Env(k.tab, p, id, true).value;
      assert k1.tab.envs[e].status == to;
      if x :| On(k, x, e) && x != c {
        assert On(k1, x, e);
      }
    case Destroy(id) =>
      var e := Envid2Env(k.tab, p, id, true).value;
      assert k1.tab.envs[e].status == FREE;
      assert Current(k, e);
      var x :| On(k, x, e);
      assert On(k1, x, e);
    case Recv(dstva) =>
      assert k1.tab.envs[p].recving;
  }

  // A parent on CPU 0 and its child on CPU 1; all other slots are free.
  function TwoCpus(child: Status): Kern {
    var unused := Env(FREE, 0, 0, false, 0, 0, 0, 0);
    var parent := unused.(status := RUNNING, id := NthId(1, 0));
    var other := unused.(status := child, id := NthId(1, 1), parent := NthId(1, 0));
    var rest: seq<Env> := seq(NENV - 2, _ => unused);
    Kern(Table([parent, other] + rest, seq(NENV - 2, i requires i >= 0 => i + 2)), [Some(0), Some(1)])
  }

  /** Each of the three unguarded calls does break a state that satisfies the invariants: a
      parent makes its child RUNNABLE while another CPU runs it, destroys it again while it is
      DYING there, or receives at an address that is not page-aligned. */
  lemma HarmfulStates(child: Status, call: Call, pick: nat)
    requires || (child == RUNNING && call == SetStatusOf(NthId(1, 1), RUNNABLE))
             || (child == DYING && call == Destroy(NthId(1, 1)))
             || (child == RUNNING && call == Recv(1))
    ensures Kept(TwoCpus(child)) && On(TwoCpus(child), 0, 0)
    ensures !Kept(TrapUser(TwoCpus(child), 0, call, pick).0)
  {
    var k := TwoCpus(child);
    TwoCpusKept(child);
    assert On(k, 1, 1);
    HarmfulBreaks(k, 0, 0, call, pick);
  }

  lemma TwoCpusKept(child: Status)
    requires child == RUNNING || child == DYING
    ensures Kept(TwoCpus(child)) && On(TwoCpus(child), 0, 0)
  {
    var k := TwoCpus(child);
    assert |k.tab.envs| == NENV && k.tab.envs[0].id == NthId(1, 0) && k.tab.envs[1].id == NthId(1, 1);
    assert forall e: nat :: 2 <= e < NENV ==> k.tab.envs[e].status == FREE && k.tab.envs[e].id == 0;
    assert IdOk(NthId(1, 0), 0) && IdOk(NthId(1, 1), 1);
    forall e: nat | 2 <= e < NENV ensures e in k.tab.free {
      assert k.tab.free[e - 2] == e;
    }
    assert TableOk(k.tab);
    forall d, e: nat ensures On(k, d, e) <==> (d == 0 && e == 0) || (d == 1 && e == 1) {
    }
    assert On(k, 0, 0) && On(k, 1, 1);
  }

  /** Exactly the guarded calls keep the invariants, unless the CPU ends in the monitor. */
  lemma TrapKeepsExactly(k: Kern, c: nat, call: Call, pick: nat)
    requires Kept(k) && c < |k.cur| && k.cur[c].Some?
    ensures var (k1, out) := TrapUser(k, c, call, pick);
            out != Monitor ==>
              (Kept(k1) <==> St(k, k.cur[c].value) == DYING || Benign(k, c, k.cur[c].value, call))
  {
    var p := k.cur[c].value;
    assert On(k, c, p) && Current(k, p);
    if St(k, p) == DYING {
      ReapKeeps(k, c, p, call, pick);
    } else if Benign(k, c, p, call) {
      BenignKeeps(k, c, p, call, pick);
    } else {
      HarmfulBreaks(k, c, p, call, pick);
    }
  }

  // ---------------------------------------------------------------- what IPC reports

  /** A send succeeds only at a waiting receiver, which it wakes with the sender's id and value.
      The documented permission field, that of the page or 0, comes out except when the sender
      offers a page that the receiver did not ask for: then the field keeps its old value. */
  lemma SendReports(k: Kern, p: nat, id: int, value: nat, srcva: nat, perm: nat, writable: bool, mem: int, d: Done)
    requires KernOk(k) && p < NENV && St(k, p) != FREE && mem <= 0
    requires d == SysIpcTrySend(k, p, id, value, srcva, perm, writable, mem)
    ensures d.r != 0 ==> d.k == k
    ensures d.r == 0 ==>
              var e := Envid2Env(k.tab, p, id, false);
              && e.Some? && k.tab.envs[e.value].recving
              && var v, w := k.tab.envs[e.value], d.k.tab.envs[e.value];
              && !w.recving && w.status == RUNNABLE && w.from == k.tab.envs[p].id && w.value == value
              && (forall f: nat :: f < NENV && f != e.value ==> d.k.tab.envs[f] == k.tab.envs[f])
              && (w.perm == (if srcva < Paging.UTOP && v.dstva != 0 then WithUP(perm) else 0)
                  <==> !(srcva < Paging.UTOP && v.dstva == 0 && v.perm != 0))
  {
  }

  // ---------------------------------------------------------------- the code

  /** envs[] and the curenv of every CPU, updated in place by the CPU that holds the lock. */
  class Kernel {
    const table: EnvTable
    const cur: array<Option<nat>>

    ghost function State(): Kern
      reads this, table, table.envs, cur
    {
      Kern(table.State(), cur[..])
    }

    ghost predicate Valid()
      reads this, table, table.envs, table.links, cur
    {
      table.Valid() && KernOk(State())
    }

    constructor (ncpu: nat)
      ensures Valid() && Kept(State()) && cur.Length == ncpu
      ensures fresh(table) && fresh(table.envs) && fresh(table.links) && fresh(cur)
    {
      table := new EnvTable.EnvInit();
      cur := new Option<nat>[ncpu](_ => None);
      new;
      assert forall e: nat :: e < NENV ==> table.free[e] == e;
      assert forall c, e: nat :: !On(State(), c, e);
    }

    method PutStatus(e: nat, st: Status)
      requires Valid() && e < NENV && table.envs[e].status != FREE && st != FREE
      modifies table.envs
      ensures Valid() && State() == SetStatus(old(State()), e, st)
    {
      PutKeepsTable(State(), e, table.envs[e].(status := st));
      table.envs[e] := table.envs[e].(status := st);
    }

    method Run(c: nat, e: nat)
      requires Valid() && c < cur.Length && e < NENV && table.envs[e].status != FREE
      modifies table.envs, cur
      ensures Valid() && State() == EnvRun(old(State()), c, e)
    {
      if cur[c].Some? && table.envs[cur[c].value].status == RUNNING {
        PutStatus(cur[c].value, RUNNABLE);
      }
      cur[c] := Some(e);
      PutStatus(e, RUNNING);
    }

    // The end of sched_yield and sched_halt, once the scheduler has its preference.
    method Reschedule(c: nat, pick: nat) returns (out: Outcome)
      requires Valid() && c < cur.Length
      modifies table.envs, cur
      ensures Valid() && (State(), out) == SchedYield(old(State()), c, pick)
    {
      if pick < NENV && table.envs[pick].status == RUNNABLE {
        Run(c, pick);
        return Outcome.Run;
      }
      if cur[c].Some? && table.envs[cur[c].value].status == RUNNING {
        Run(c, cur[c].value);
        return Outcome.Run;
      }
      var i := 0;
      while i < NENV && (table.envs[i].status == FREE || table.envs[i].status == NOT_RUNNABLE)
        invariant 0 <= i <= NENV
        invariant forall e: nat :: e < i ==> St(State(), e) == FREE || St(State(), e) == NOT_RUNNABLE
      {
        i := i + 1;
      }
      assert i < NENV ==> St(State(), i) != FREE && St(State(), i) != NOT_RUNNABLE;
      if i == NENV {
        return Monitor;
      }
      cur[c] := None;
      out := Halt;
    }

    method Exofork(p: nat, vm: bool) returns (r: int)
      requires Valid() && p < NENV
      modifies table`freeList, table`free, table.envs
      ensures Valid() && Done(State(), r, false) == SysExofork(old(State()), p, vm)
    {
      ExoforkKeepsTable(State(), p, vm);
      var err, e := table.Alloc(table.envs[p].id, vm);
      if err < 0 {
        return err;
      }
      PutStatus(e, NOT_RUNNABLE);
      r := table.envs[e].id;
    }

    method EnvSetStatus(p: nat, id: int, to: Status) returns (r: int)
      requires Valid() && p < NENV && table.envs[p].status != FREE
      modifies table.envs
      ensures Valid() && Done(State(), r, false) == SysEnvSetStatus(old(State()), p, id, to)
    {
      if to != RUNNABLE && to != NOT_RUNNABLE {
        return E_INVAL;
      }
      var e := table.Lookup(p, id, true);
      if e.None? {
        return E_BAD_ENV;
      }
      PutStatus(e.value, to);
      r := 0;
    }

    method DestroyEnv(c: nat, e: nat) returns (resched: bool)
      requires Valid() && c < cur.Length && e < NENV && table.envs[e].status != FREE
      modifies table`freeList, table`free, table.envs, table.links, cur
      ensures Valid() && Done(State(), 0, resched) == EnvDestroy(old(State()), c, e)
    {
      if table.envs[e].status == RUNNING && cur[c] != Some(e) {
        PutStatus(e, DYING);
        return false;
      }
      table.Free(e);
      resched := cur[c] == Some(e);
      if resched {
        cur[c] := None;
      }
    }

    method IpcTrySend(p: nat, id: int, value: nat, srcva: nat, perm: nat, writable: bool, mem: int) returns (r: int)
      requires Valid() && p < NENV && table.envs[p].status != FREE
      modifies table.envs
      ensures Valid() && Done(State(), r, false) == SysIpcTrySend(old(State()), p, id, value, srcva, perm, writable, mem)
    {
      var dst := table.Lookup(p, id, false);
      if dst.None? {
        return E_BAD_ENV;
      }
      var e := dst.value;
      var v := table.envs[e];
      if !v.recving {
        return E_IPC_NOT_RECV;
      }
      if srcva >= Paging.UTOP {
        v := v.(perm := 0);
      } else {
        if srcva % Paging.PGSIZE != 0 {
          return E_INVAL;
        }
        if AddressSpace.Writable(perm) && !writable {
          return E_INVAL;
        }
        if v.dstva != 0 {
          if mem < 0 {
            return mem;
          }
          v := v.(perm := WithUP(perm));
        }
      }
      PutKeepsTable(State(), e, Woken(v, table.envs[p].id, value));
      table.envs[e] := Woken(v, table.envs[p].id, value);
      r := 0;
    }

    method IpcRecv(p: nat, dstva: nat) returns (r: int, resched: bool)
      requires Valid() && p < NENV && table.envs[p].status != FREE
      modifies table.envs
      ensures Valid() && Done(State(), r, resched) == SysIpcRecv(old(State()), p, dstva)
    {
      table.envs[p] := table.envs[p].(recving := true);
      if !GoodDst(dstva) {
        return E_INVAL, false;
      }
      table.envs[p] := table.envs[p].(dstva := dstva);
      table.envs[p] := table.envs[p].(status := NOT_RUNNABLE);
      r, resched := 0, true;
    }

    // syscall(), restricted to the calls modelled here.
    method Dispatch(c: nat, p: nat, call: Call) returns (r: int, resched: bool)
      requires Valid() && c < cur.Length && p < NENV && table.envs[p].status != FREE
      modifies table`freeList, table`free, table.envs, table.links, cur
      ensures Valid() && Done(State(), r, resched) == Handle(old(State()), c, p, call)
    {
      resched := false;
      match call
      case Exofork(vm) => r := Exofork(p, vm);
      case SetStatusOf(id, to) => r := EnvSetStatus(p, id, to);
      case Destroy(id) =>
        var e := table.Lookup(p, id, true);
        if e.None? {
          r := E_BAD_ENV;
        } else {
          r := 0;
          resched := DestroyEnv(c, e.value);
        }
      case Send(id, value, srcva, perm, writable, mem) =>
        r := IpcTrySend(p, id, value, srcva, perm, writable, mem);
      case Recv(dstva) => r, resched := IpcRecv(p, dstva);
      case Yield => r, resched := 0, true;
      case Other => r := 0;
    }

    /** trap, between taking the lock and leaving the kernel, for a trap out of user mode. */
    method Trap(c: nat, call: Call, pick: nat) returns (out: Outcome)
      requires Valid() && Life(State()) && c < cur.Length && cur[c].Some?
      modifies table`freeList, table`free, table.envs, table.links, cur
      ensures Valid() && (State(), out) == TrapUser(old(State()), c, call, pick)
    {
      var p := cur[c].value;
      assert On(State(), c, p) && Current(State(), p);
      if table.envs[p].status == DYING {
        table.Free(p);
        cur[c] := None;
        out := Reschedule(c, pick);
        return;
      }
      var r, resched := Dispatch(c, p, call);
      if !resched && cur[c].Some? && table.envs[cur[c].value].status == RUNNING {
        Run(c, cur[c].value);
        return Outcome.Run;
      }
      out := Reschedule(c, pick);
    }
  }
}
