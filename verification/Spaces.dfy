/** The environment table and the page directories together (sched/kern/env.c): env_alloc and
    env_free change both, the memory system calls only the directories' contents. */
module Spaces {
  import opened Base
  import Envs
  import P = Paging
  import A = AddressSpace
  import L = Lifecycle

  datatype Kern = Kern(tab: Envs.Table, vm: P.Vm)

  predicate Taken(k: Kern, e: nat) { e < |k.tab.envs| && k.tab.envs[e].status != FREE }

  ghost predicate Joint(k: Kern) {
    Envs.TableOk(k.tab) && P.Inv(k.vm) && forall e: nat :: e < NENV ==> (Taken(k, e) <==> P.Dir(k.vm, e).Some?)
  }

  datatype Op =
    | New(parent: int)                        // env_alloc
    | Gone(e: nat)                            // env_free
    | Mark(e: nat, status: Status)            // any other change of env_status
    | Memory(op: A.Op)                        // a system call, a message or a store

  // A system call below the table: it creates and frees no environment.
  predicate Inside(op: A.Op) { !op.Setup? && !op.Free? }

  // env_alloc: the slot's directory first, then the table.
  function EnvAlloc(k: Kern, parent: int): (r: (Kern, int))
    requires Envs.TableOk(k.tab)
  {
    if k.tab.free == [] then (k, E_NO_FREE_ENV)
    else
      var (vm, ok) := P.SetupVm(k.vm, k.tab.free[0]);
      var (tab, r) := Envs.EnvAlloc(k.tab, parent, ok);
      (Kern(tab, vm), r)
  }

  function EnvFree(k: Kern, e: nat): Kern
    requires e < |k.tab.envs|
  {
    Kern(Envs.FreeSlot(k.tab, e), P.EnvFree(k.vm, e))
  }

  function Apply(k: Kern, op: Op): Kern
    requires Envs.TableOk(k.tab)
  {
    match op
    case New(parent) => EnvAlloc(k, parent).0
    case Gone(e) => if Taken(k, e) then EnvFree(k, e) else k
    case Mark(e, status) =>
      if Taken(k, e) && status != FREE then k.(tab := k.tab.(envs := k.tab.envs[e := k.tab.envs[e].(status := status)]))
      else k
    case Memory(m) => if Inside(m) then k.(vm := A.Apply(k.vm, m)) else k
  }

  /** env_alloc: no slot of the free list has a directory, so none is overwritten; the call
      fails exactly when the table is full or no page is free, and then changes nothing. */
  lemma EnvAllocOk(k: Kern, k1: Kern, r: int, parent: int)
    requires Joint(k) && (k1, r) == EnvAlloc(k, parent)
    ensures Joint(k1) && P.Held(k1.vm) == P.Held(k.vm)
    ensures r == if k.tab.free == [] then E_NO_FREE_ENV else if k.vm.free == [] then E_NO_MEM else 0
    ensures r != 0 ==> k1 == k
    ensures r == 0 ==> var e := k.tab.free[0];
                       e < NENV && !Taken(k, e) && P.Dir(k.vm, e).None? && Taken(k1, e) && A.View(k1.vm, e) == map[]
    ensures forall f: nat :: f < NENV && Taken(k, f) ==> Taken(k1, f) && A.View(k1.vm, f) == A.View(k.vm, f)
  {
    if k.tab.free != [] {
      var e := k.tab.free[0];
      assert !Taken(k, e);
      var (vm, ok) := P.SetupVm(k.vm, e);
      P.SetupOk(k.vm, vm, ok, e);
      Envs.AllocKeeps(k.tab, parent, ok);
      A.AllocViews(k.vm, vm);
      if ok {
        NoView(k.vm, e);
      }
    }
  }

  lemma NoView(s: P.Vm, e: nat)
    requires P.Dir(s, e).None?
    ensures A.View(s, e) == map[]
  {
  }

  /** env_free: the slot loses its directory as it joins the free list; nobody else's memory
      changes and no page is lost. */
  lemma EnvFreeOk(k: Kern, k1: Kern, e: nat)
    requires Joint(k) && Taken(k, e) && k1 == EnvFree(k, e)
    ensures Joint(k1) && !Taken(k1, e) && P.Held(k1.vm) == P.Held(k.vm)
    ensures forall f: nat :: f < NENV && f != e ==> (Taken(k1, f) <==> Taken(k, f)) && A.View(k1.vm, f) == A.View(k.vm, f)
  {
    P.EnvFreeOk(k.vm, k1.vm, e);
    Envs.FreeKeeps(k.tab, e);
    forall f: nat | f < NENV && f != e ensures A.View(k1.vm, f) == A.View(k.vm, f) {
      forall u: nat | u < A.NVPN ensures A.EntryAt(k1.vm, f, u) == A.EntryAt(k.vm, f, u) {
        A.Vpn(u);
      }
      A.SameView(k.vm, k1.vm, f);
    }
  }

  lemma SameDirs(s: P.Vm, op: A.Op)
    requires P.Inv(s) && A.Room(s) && Inside(op)
    ensures A.Apply(s, op).dir == s.dir
  {
    var t := A.Apply(s, op);
    match op
    case PageAlloc(e, v, perm) => if A.Live(s, e, v) { A.EnvPageAllocOk(s, t, A.EnvPageAlloc(s, e, v, perm).1, e, v, perm); }
    case PageMap(e, sv, de, v, perm) =>
      if A.Live(s, e, sv) && A.Live(s, de, v) && perm < P.PGSIZE {
        A.EnvPageMapOk(s, t, A.EnvPageMap(s, e, sv, de, v, perm).1, e, sv, de, v, perm);
      }
    case SendPage(e, sv, de, v, perm) =>
      if A.Live(s, e, sv) && A.Live(s, de, v) && e != de && perm < P.PGSIZE && A.EntryAt(s, e, sv) != 0 {
        A.MappedIsUser(s, e, sv);
        A.IpcPageOk(s, t, A.IpcPage(s, e, sv, de, v, perm).1, e, sv, de, v, perm);
      }
    case Unmap(e, v) => if A.Live(s, e, v) { A.RemoveRefines(s, t, e, v); }
    case UserWrite(e, v, i, w) => if A.Live(s, e, v) { A.UserStoreOk(s, t, e, v, i, w); }
  }

  lemma ApplyKeeps(k: Kern, op: Op)
    requires Joint(k) && A.Room(k.vm)
    ensures Joint(Apply(k, op))
  {
    match op
    case New(parent) => EnvAllocOk(k, EnvAlloc(k, parent).0, EnvAlloc(k, parent).1, parent);
    case Gone(e) => if Taken(k, e) { EnvFreeOk(k, EnvFree(k, e), e); }
    case Mark(_, _) =>
    case Memory(m) =>
      if Inside(m) {
        A.ApplyOk(k.vm, m);
        SameDirs(k.vm, m);
        assert forall e: nat :: Taken(Apply(k, op), e) <==> Taken(k, e);
      }
  }

  ghost predicate Run(k: Kern, ops: seq<Op>, k': Kern)
    decreases |ops|
  {
    if ops == [] then k' == k
    else Envs.TableOk(k.tab) && A.Room(k.vm) && Run(Apply(k, ops[0]), ops[1..], k')
  }

  /** In every reachable state an environment is live exactly if it has a page directory, so
      whatever envid2env finds can be handed to the memory functions. */
  lemma {:induction false} RunKeepsJoint(k: Kern, ops: seq<Op>, k': Kern)
    requires Joint(k) && Run(k, ops, k')
    ensures Joint(k')
    ensures forall cur: nat, id: int :: cur < NENV && Taken(k', cur) && Envs.Envid2Env(k'.tab, cur, id, true).Some? ==>
              A.Live(k'.vm, Envs.Envid2Env(k'.tab, cur, id, true).value, 0)
    decreases |ops|
  {
    if ops != [] {
      ApplyKeeps(k, ops[0]);
      RunKeepsJoint(Apply(k, ops[0]), ops[1..], k');
    } else {
      assert forall e: nat :: e < NENV && Taken(k', e) ==> A.Live(k'.vm, e, 0);
    }
  }

  // After env_init and page_init.
  ghost predicate Boot(k: Kern) {
    Envs.TableOk(k.tab) && A.Boot(k.vm) && forall e: nat :: e < NENV ==> k.tab.envs[e].status == FREE
  }

  lemma BootJoint(k: Kern)
    requires Boot(k)
    ensures Joint(k)
  {
    A.BootOk(k.vm);
  }

  /** From boot, for one environment: it is live exactly if it has a page directory, and then
      every page it maps is a data page that the allocator knows. */
  lemma Reachable(k: Kern, ops: seq<Op>, k': Kern, e: nat)
    requires Boot(k) && Run(k, ops, k') && e < NENV
    ensures Taken(k', e) <==> P.Dir(k'.vm, e).Some?
    ensures e in k'.tab.free <==> P.Dir(k'.vm, e).None?
    ensures forall v :: v in A.View(k'.vm, e) ==> Taken(k', e) && P.User(k'.vm, A.View(k'.vm, e)[v].page)
  {
    BootJoint(k);
    RunKeepsJoint(k, ops, k');
    assert Taken(k', e) <==> e !in k'.tab.free;
    if P.Dir(k'.vm, e).None? {
      NoView(k'.vm, e);
    }
    forall v | v in A.View(k'.vm, e) ensures P.User(k'.vm, A.View(k'.vm, e)[v].page) {
      A.MappedIsUser(k'.vm, e, v);
    }
  }

  // ---------------------------------------------------------------- system calls on both

  // sys_exofork, whose env_alloc asks the page allocator for a directory.
  function Exofork(k: L.Kern, s: P.Vm, p: nat): (L.Done, P.Vm)
    requires L.KernOk(k) && p < NENV
  {
    if k.tab.free == [] then (L.SysExofork(k, p, false), s)
    else
      var (t, ok) := P.SetupVm(s, k.tab.free[0]);
      (L.SysExofork(k, p, ok), t)
  }

  /** sys_exofork: a failure changes neither table nor memory, and when it fails; a success gives
      a child of the caller that does not run yet and has no memory. */
  lemma ExoforkOk(k: L.Kern, s: P.Vm, p: nat, d: L.Done, t: P.Vm)
    requires L.KernOk(k) && Joint(Kern(k.tab, s)) && p < NENV && (d, t) == Exofork(k, s, p)
    ensures Joint(Kern(d.k.tab, t))
    ensures if k.tab.free == [] then d.r == E_NO_FREE_ENV else if s.free == [] then d.r == E_NO_MEM else d.r > 0
    ensures d.r <= 0 ==> d.k == k && t == s
    ensures d.r > 0 ==>
              var e := k.tab.free[0];
              && e < NENV && !Taken(Kern(k.tab, s), e) && A.View(t, e) == map[]
              && L.St(d.k, e) == NOT_RUNNABLE && d.k.tab.envs[e].id == d.r && d.k.tab.envs[e].parent == k.tab.envs[p].id
    ensures forall f: nat :: f < NENV && Taken(Kern(k.tab, s), f) ==>
              d.k.tab.envs[f] == k.tab.envs[f] && A.View(t, f) == A.View(s, f)
  {
    var (k1, r) := EnvAlloc(Kern(k.tab, s), k.tab.envs[p].id);
    EnvAllocOk(Kern(k.tab, s), k1, r, k.tab.envs[p].id);
    L.ExoforkKeepsTable(k, p, r == 0);
    if r == 0 {
      Envs.NewIdOk(k.tab.envs[k.tab.free[0]].id, k.tab.free[0]);
    }
  }

  // Every receiver asks for its page at an address that sys_ipc_recv has accepted.
  ghost predicate DstOk(k: L.Kern)
    requires L.KernOk(k)
  {
    forall e: nat :: e < NENV ==> L.GoodDst(k.tab.envs[e].dstva)
  }

  lemma HandleKeepsDst(k: L.Kern, c: nat, p: nat, call: L.Call)
    requires L.KernOk(k) && c < |k.cur| && p < NENV && L.St(k, p) != FREE && DstOk(k)
    ensures DstOk(L.Handle(k, c, p, call).k)
  {
    var k1 := L.Handle(k, c, p, call).k;
    match call {
      case Exofork(vm) => ExoforkDst(k, p, vm);
      case SetStatusOf(_, _) =>
      case Destroy(id) => DestroyDst(k, c, p, id);
      case Send(id, value, srcva, perm, writable, mem) => SendDst(k, p, id, value, srcva, perm, writable, mem);
      case _ =>
    }
    assert forall e: nat :: e < NENV && k1.tab.envs[e].dstva != k.tab.envs[e].dstva ==> L.GoodDst(k1.tab.envs[e].dstva);
  }

  lemma ExoforkDst(k: L.Kern, p: nat, vm: bool)
    requires L.KernOk(k) && p < NENV
    ensures forall e: nat :: e < NENV ==> L.SysExofork(k, p, vm).k.tab.envs[e].dstva == k.tab.envs[e].dstva
  {
    L.ExoforkKeepsTable(k, p, vm);
  }

  lemma DestroyDst(k: L.Kern, c: nat, p: nat, id: int)
    requires L.KernOk(k) && c < |k.cur| && p < NENV && L.St(k, p) != FREE
    ensures forall e: nat :: e < NENV ==> L.SysEnvDestroy(k, c, p, id).k.tab.envs[e].dstva == k.tab.envs[e].dstva
  {
  }

  lemma SendDst(k: L.Kern, p: nat, id: int, value: nat, srcva: nat, perm: nat, writable: bool, mem: int)
    requires L.KernOk(k) && p < NENV && L.St(k, p) != FREE
    ensures var k1 := L.SysIpcTrySend(k, p, id, value, srcva, perm, writable, mem).k;
            forall e: nat :: e < NENV ==> k1.tab.envs[e].dstva == k.tab.envs[e].dstva
  {
  }

  // sys_ipc_try_send gets as far as the page.
  predicate MovesPage(k: L.Kern, s: P.Vm, p: nat, id: int, srcva: nat, perm: nat)
    requires |k.tab.envs| == NENV && p < NENV
  {
    var e := Envs.Envid2Env(k.tab, p, id, false);
    && e.Some? && e.value < NENV && k.tab.envs[e.value].recving && k.tab.envs[e.value].dstva != 0
    && srcva < P.UTOP && srcva % P.PGSIZE == 0 && (A.Writable(perm) ==> SourceWritable(s, p, srcva))
  }

  // *srcpte & PTE_W
  predicate SourceWritable(s: P.Vm, p: nat, srcva: nat) { A.Writable(A.EntryAt(s, p, srcva / P.PGSIZE)) }

  function TrySend(k: L.Kern, s: P.Vm, p: nat, id: int, value: nat, srcva: nat, perm: nat): (L.Done, P.Vm)
    requires L.KernOk(k) && p < NENV && L.St(k, p) != FREE
  {
    var (t, r) :=
      if MovesPage(k, s, p, id, srcva, perm) then
        var e := Envs.Envid2Env(k.tab, p, id, false).value;
        A.IpcPage(s, p, srcva / P.PGSIZE, e, k.tab.envs[e].dstva / P.PGSIZE, L.WithUP(perm))
      else (s, 0);
    (L.SysIpcTrySend(k, p, id, value, srcva, perm, SourceWritable(s, p, srcva), r), t)
  }

  lemma WithUPBits(perm: nat)
    requires perm < P.PGSIZE
    ensures L.WithUP(perm) < P.PGSIZE && A.Writable(L.WithUP(perm)) == A.Writable(perm)
    ensures L.WithUP(perm) % 2 == 1 && L.WithUP(perm) / 4 % 2 == 1
  {
    var q, r := perm / 8, perm % 8;
    LowBits(perm, q, r);
    LowBits(L.WithUP(perm), q, if r / 2 % 2 == 1 then 7 else 5);
  }

  lemma LowBits(w: nat, q: nat, r: nat)
    requires r < 8 && w == 8 * q + r
    ensures w % 2 == r % 2 && w / 4 % 2 == r / 4 && A.Writable(w) == (r / 2 % 2 == 1)
  {
    assert w / 4 == 2 * q + r / 4 && w / 2 == 2 * (2 * q) + r / 2;
  }

  /** A message with a page arrives whole or not at all: value, sender, permission and mapping
      together, or an error with every environment and every map as before; without a page no
      map changes. */
  lemma TrySendOk(k: L.Kern, s: P.Vm, p: nat, id: int, value: nat, srcva: nat, perm: nat, d: L.Done, t: P.Vm)
    requires L.KernOk(k) && L.RecvOk(k) && DstOk(k) && Joint(Kern(k.tab, s)) && A.Room(s) && perm < P.PGSIZE
    requires p < NENV && L.St(k, p) == RUNNING && (MovesPage(k, s, p, id, srcva, perm) ==> srcva / P.PGSIZE in A.View(s, p))
    requires (d, t) == TrySend(k, s, p, id, value, srcva, perm)
    ensures Joint(Kern(d.k.tab, t))
    ensures d.r != 0 ==> d.k == k && forall f: nat :: f < NENV ==> A.View(t, f) == A.View(s, f)
    ensures d.r == 0 && !MovesPage(k, s, p, id, srcva, perm) ==> t == s
    ensures d.r == 0 && MovesPage(k, s, p, id, srcva, perm) ==>
              var e := Envs.Envid2Env(k.tab, p, id, false).value;
              var page := A.View(s, p)[srcva / P.PGSIZE].page;
              && d.k.tab.envs[e] == L.Woken(k.tab.envs[e], k.tab.envs[p].id, value).(perm := L.WithUP(perm))
              && A.View(t, e) == A.View(s, e)[k.tab.envs[e].dstva / P.PGSIZE := A.Mapping(page, L.WithUP(perm))]
              && forall f: nat :: f < NENV && f != e ==> A.View(t, f) == A.View(s, f)
  {
    if MovesPage(k, s, p, id, srcva, perm) {
      var r := MemoryResult(k, s, p, id, srcva, perm);
      SendMemory(k, s, p, id, srcva, perm, t, r);
      SendTable(k, s, p, id, value, srcva, perm, d, r);
    } else {
      SendTable(k, s, p, id, value, srcva, perm, d, 0);
    }
    StillJoint(k, s, d.k, t);
  }

  lemma StillJoint(k: L.Kern, s: P.Vm, k1: L.Kern, t: P.Vm)
    requires Joint(Kern(k.tab, s)) && L.KernOk(k1) && P.Inv(t) && t.dir == s.dir
    requires forall e: nat :: e < NENV ==> (Taken(Kern(k1.tab, s), e) <==> Taken(Kern(k.tab, s), e))
    ensures Joint(Kern(k1.tab, t))
  {
    assert forall e: nat :: e < NENV ==> (Taken(Kern(k1.tab, t), e) <==> Taken(Kern(k.tab, s), e));
  }

  function MemoryResult(k: L.Kern, s: P.Vm, p: nat, id: int, srcva: nat, perm: nat): int
    requires |k.tab.envs| == NENV && p < NENV && MovesPage(k, s, p, id, srcva, perm)
  {
    var e := Envs.Envid2Env(k.tab, p, id, false).value;
    A.IpcPage(s, p, srcva / P.PGSIZE, e, k.tab.envs[e].dstva / P.PGSIZE, L.WithUP(perm)).1
  }

  lemma SendMemory(k: L.Kern, s: P.Vm, p: nat, id: int, srcva: nat, perm: nat, t: P.Vm, r: int)
    requires L.KernOk(k) && L.RecvOk(k) && DstOk(k) && Joint(Kern(k.tab, s)) && A.Room(s) && perm < P.PGSIZE
    requires p < NENV && L.St(k, p) == RUNNING && MovesPage(k, s, p, id, srcva, perm) && srcva / P.PGSIZE in A.View(s, p)
    requires var e := Envs.Envid2Env(k.tab, p, id, false).value;
             (t, r) == A.IpcPage(s, p, srcva / P.PGSIZE, e, k.tab.envs[e].dstva / P.PGSIZE, L.WithUP(perm))
    ensures P.Inv(t) && t.dir == s.dir && r <= 0
    ensures r != 0 ==> forall f: nat :: f < NENV ==> A.View(t, f) == A.View(s, f)
    ensures r == 0 ==>
              var e := Envs.Envid2Env(k.tab, p, id, false).value;
              var page := A.View(s, p)[srcva / P.PGSIZE].page;
              && A.View(t, e) == A.View(s, e)[k.tab.envs[e].dstva / P.PGSIZE := A.Mapping(page, L.WithUP(perm))]
              && forall f: nat :: f < NENV && f != e ==> A.View(t, f) == A.View(s, f)
  {
    var e := Envs.Envid2Env(k.tab, p, id, false).value;
    assert Taken(Kern(k.tab, s), e) && Taken(Kern(k.tab, s), p) && e != p;
    WithUPBits(perm);
    A.WritableFlag(A.EntryAt(s, p, srcva / P.PGSIZE));
    A.MappedIsUser(s, p, srcva / P.PGSIZE);
    A.IpcPageOk(s, t, r, p, srcva / P.PGSIZE, e, k.tab.envs[e].dstva / P.PGSIZE, L.WithUP(perm));
  }

  lemma SendTable(k: L.Kern, s: P.Vm, p: nat, id: int, value: nat, srcva: nat, perm: nat, d: L.Done, r: int)
    requires L.KernOk(k) && p < NENV && L.St(k, p) != FREE && r <= 0 && (!MovesPage(k, s, p, id, srcva, perm) ==> r == 0)
    requires d == L.SysIpcTrySend(k, p, id, value, srcva, perm, SourceWritable(s, p, srcva), r)
    ensures d.r != 0 ==> d.k == k
    ensures forall e: nat :: e < NENV ==> (Taken(Kern(d.k.tab, s), e) <==> Taken(Kern(k.tab, s), e))
    ensures MovesPage(k, s, p, id, srcva, perm) ==> d.r == r
    ensures MovesPage(k, s, p, id, srcva, perm) && r == 0 ==>
              var e := Envs.Envid2Env(k.tab, p, id, false).value;
              d.k.tab.envs[e] == L.Woken(k.tab.envs[e], k.tab.envs[p].id, value).(perm := L.WithUP(perm))
  {
  }
}
