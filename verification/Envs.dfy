/** The environment table of sched/kern/env.c: allocation, freeing, and environment ids. */
module Envs {
  import opened Base
  import opened Links

  const GEN := 4096              // 1 << ENVGENSHIFT
  const GENS: nat := 524287      // positive generations in 32 bits: 2^19 - 1

  datatype Env = Env(
    status: Status, id: int, parent: int,
    recving: bool, dstva: nat, from: int, value: nat, perm: nat)

  datatype Table = Table(envs: seq<Env>, free: seq<nat>)   // envs[], env_free_list

  // ---------------------------------------------------------------- ids

  // The new id of a slot: env_id + (1 << ENVGENSHIFT) on an int32_t, low bits replaced.
  function NextId(id: int, slot: nat): int {
    var generation := Wrap32(id + GEN) / NENV * NENV;
    (if generation <= 0 then GEN else generation) + slot
  }

  function ENVX(id: int): nat { id % NENV }

  // The k-th id that a slot gets, counting from 1.
  function NthId(k: nat, slot: nat): int { GEN * k + slot }

  ghost predicate IdOk(id: int, slot: nat) {
    id == 0 || exists k: nat :: 1 <= k <= GENS && id == NthId(k, slot)
  }

  function After(id: int, slot: nat, n: nat): int
    decreases n
  {
    if n == 0 then id else NextId(After(id, slot, n - 1), slot)
  }

  lemma NthIdOk(k: nat, slot: nat)
    requires 1 <= k <= GENS && slot < NENV
    ensures NthId(k, slot) > 0 && ENVX(NthId(k, slot)) == slot
  {
    Chunk(4 * k, slot);
  }

  lemma NextNth(k: nat, slot: nat)
    requires k <= GENS && slot < NENV
    ensures NextId(NthId(k, slot), slot) == NthId(if k == GENS then 1 else k + 1, slot) || k == 0
    ensures NextId(0, slot) == NthId(1, slot)
  {
    var x := NthId(k, slot) + GEN;
    assert x == GEN * (k + 1) + slot;
    if k < GENS {
      assert Wrap32(x) == x;
      Chunk(4 * (k + 1), slot);
    } else {
      assert Wrap32(x) < 0;
    }
  }

  lemma Chunk(m: nat, slot: nat)
    requires slot < NENV
    ensures (NENV * m + slot) / NENV == m && (NENV * m + slot) % NENV == slot
  {
  }

  lemma {:induction false} AfterNth(k: nat, slot: nat, n: nat)
    requires 1 <= k <= GENS && slot < NENV
    ensures After(NthId(k, slot), slot, n) == NthId((k - 1 + n) % GENS + 1, slot)
  {
    if n > 0 {
      AfterNth(k, slot, n - 1);
      NextNth((k - 1 + n - 1) % GENS + 1, slot);
      Successor(k - 1 + n - 1);
    }
  }

  lemma Successor(m: nat)
    ensures (m + 1) % GENS == if m % GENS == GENS - 1 then 0 else m % GENS + 1
  {
  }

  /** A used slot gets its id back after exactly every 2^19 - 1 further allocations. */
  lemma IdRecurs(id: int, slot: nat, n: nat)
    requires slot < NENV && IdOk(id, slot) && id != 0
    ensures IdOk(After(id, slot, n), slot) && After(id, slot, n) != 0
    ensures After(id, slot, n) == id <==> n % GENS == 0
  {
    var k: nat :| 1 <= k <= GENS && id == NthId(k, slot);
    AfterNth(k, slot, n);
    Residue(k - 1, n);
  }

  lemma Residue(j: nat, n: nat)
    requires j < GENS
    ensures (j + n) % GENS == j <==> n % GENS == 0
  {
    assert (j + n) % GENS == (j + n % GENS) % GENS by {
      assert j + n == (j + n % GENS) + GENS * (n / GENS);
      Shift(j + n % GENS, n / GENS);
    }
  }

  lemma {:induction false} Shift(a: nat, q: nat)
    ensures (a + GENS * q) % GENS == a % GENS
  {
    if q > 0 {
      Shift(a, q - 1);
    }
  }

  // ---------------------------------------------------------------- the table

  ghost predicate TableOk(t: Table) {
    && |t.envs| == NENV
    && (forall e: nat :: e < NENV ==> (t.envs[e].status == FREE <==> e in t.free) && IdOk(t.envs[e].id, e))
    && (forall e: nat :: e < NENV && t.envs[e].status != FREE ==> t.envs[e].id != 0)
    && (forall k :: 0 <= k < |t.free| ==> t.free[k] < NENV)
    && (forall k, l :: 0 <= k < l < |t.free| ==> t.free[k] != t.free[l])
  }

  // The environment that env_alloc leaves in slot e; the IPC fields but the flag are stale.
  function Fresh(v: Env, e: nat, parent: int): Env {
    v.(status := RUNNABLE, id := NextId(v.id, e), parent := parent, recving := false)
  }

  // env_alloc; `vm` says whether env_setup_vm found memory.
  function EnvAlloc(t: Table, parent: int, vm: bool): (Table, int)
    requires TableOk(t)
  {
    if t.free == [] then (t, E_NO_FREE_ENV)
    else if !vm then (t, E_NO_MEM)
    else
      var e := t.free[0];
      (Table(t.envs[e := Fresh(t.envs[e], e, parent)], t.free[1..]), 0)
  }

  // The table part of env_free.
  function FreeSlot(t: Table, e: nat): Table
    requires e < |t.envs|
  {
    Table(t.envs[e := t.envs[e].(status := FREE)], [e] + t.free)
  }

  // envid2env, for a CPU that runs `cur`.
  function Envid2Env(t: Table, cur: nat, id: int, checkperm: bool): Option<nat>
    requires |t.envs| == NENV && cur < NENV
  {
    if id == 0 then Some(cur)
    else
      var e := ENVX(id);
      if t.envs[e].status == FREE || t.envs[e].id != id then None
      else if checkperm && e != cur && t.envs[e].parent != t.envs[cur].id then None
      else Some(e)
  }

  lemma AllocKeeps(t: Table, parent: int, vm: bool)
    requires TableOk(t)
    ensures TableOk(EnvAlloc(t, parent, vm).0)
  {
    if t.free != [] && vm {
      var e := t.free[0];
      NewIdOk(t.envs[e].id, e);
      var u := EnvAlloc(t, parent, vm).0;
      assert t.free == [e] + u.free;
      assert forall f: nat :: f != e ==> (f in t.free <==> f in u.free);
    }
  }

  lemma NewIdOk(id: int, e: nat)
    requires e < NENV && IdOk(id, e)
    ensures IdOk(NextId(id, e), e) && NextId(id, e) > 0
  {
    if id == 0 {
      NextNth(1, e);
      NthIdOk(1, e);
    } else {
      var k: nat :| 1 <= k <= GENS && id == NthId(k, e);
      NextNth(k, e);
      NthIdOk(if k == GENS then 1 else k + 1, e);
    }
  }

  lemma FreeKeeps(t: Table, e: nat)
    requires TableOk(t) && e < NENV && t.envs[e].status != FREE
    ensures TableOk(FreeSlot(t, e))
  {
    assert forall f: nat :: f in FreeSlot(t, e).free <==> f == e || f in t.free;
  }

  /** Lookup is exact: an id other than 0 finds the one live environment that carries it, and
      with the permission check only the caller or a child of the caller. */
  lemma LookupExact(t: Table, cur: nat, id: int, e: nat, checkperm: bool)
    requires TableOk(t) && cur < NENV && id != 0 && e < NENV
    ensures Envid2Env(t, cur, id, checkperm) == Some(e) <==>
              && t.envs[e].status != FREE && t.envs[e].id == id
              && (checkperm ==> e == cur || t.envs[e].parent == t.envs[cur].id)
  {
    if t.envs[e].status != FREE && t.envs[e].id == id {
      var k: nat :| 1 <= k <= GENS && id == NthId(k, e);
      NthIdOk(k, e);
    }
  }

  // ---------------------------------------------------------------- runs of the table

  datatype TableOp = Alloc(parent: int, vm: bool) | Release(e: nat)

  function Apply(t: Table, op: TableOp): (u: Table)
    requires TableOk(t)
    ensures TableOk(u)
  {
    match op
    case Alloc(parent, vm) => AllocKeeps(t, parent, vm); EnvAlloc(t, parent, vm).0
    case Release(e) =>
      if e < NENV && t.envs[e].status != FREE then FreeKeeps(t, e); FreeSlot(t, e) else t
  }

  function Run(t: Table, ops: seq<TableOp>): (u: Table)
    requires TableOk(t)
    ensures TableOk(u)
    decreases |ops|
  {
    if ops == [] then t else Apply(Run(t, ops[..|ops| - 1]), ops[|ops| - 1])
  }

  ghost predicate Takes(t: Table, op: TableOp, e: nat) {
    op.Alloc? && op.vm && t.free != [] && t.free[0] == e
  }

  // How often the run allocates slot e.
  ghost function Reuses(t: Table, ops: seq<TableOp>, e: nat): nat
    requires TableOk(t)
    decreases |ops|
  {
    if ops == [] then 0
    else
      var before := ops[..|ops| - 1];
      Reuses(t, before, e) + if Takes(Run(t, before), ops[|ops| - 1], e) then 1 else 0
  }

  lemma ApplyId(t: Table, op: TableOp, e: nat)
    requires TableOk(t) && e < NENV
    ensures Apply(t, op).envs[e].id == if Takes(t, op, e) then NextId(t.envs[e].id, e) else t.envs[e].id
  {
  }

  lemma {:induction false} RunIds(t: Table, ops: seq<TableOp>, e: nat, n: nat)
    requires TableOk(t) && e < NENV && n == Reuses(t, ops, e)
    ensures Run(t, ops).envs[e].id == After(t.envs[e].id, e, n)
    decreases |ops|
  {
    if ops != [] {
      var before := ops[..|ops| - 1];
      RunIds(t, before, e, Reuses(t, before, e));
      ApplyId(Run(t, before), ops[|ops| - 1], e);
    }
  }

  /** No stale id is accepted: after any run of allocations and releases, the id an environment
      had is accepted again exactly if its slot is in use and has been reallocated a multiple
      of 2^19 - 1 times since; so not through the next 2^19 - 2 reallocations. */
  lemma StaleIds(t: Table, ops: seq<TableOp>, u: Table, n: nat, e: nat, cur: nat)
    requires TableOk(t) && e < NENV && cur < NENV && t.envs[e].status != FREE
    requires u == Run(t, ops) && n == Reuses(t, ops, e)
    ensures Envid2Env(u, cur, t.envs[e].id, false).Some? <==> u.envs[e].status != FREE && n % GENS == 0
    ensures 0 < n < GENS ==> Envid2Env(u, cur, t.envs[e].id, false).None?
  {
    RunIds(t, ops, e, n);
    IdFindsSlot(t, u, e, cur, n);
  }

  lemma IdFindsSlot(t: Table, u: Table, e: nat, cur: nat, n: nat)
    requires TableOk(t) && TableOk(u) && e < NENV && cur < NENV && t.envs[e].status != FREE
    requires u.envs[e].id == After(t.envs[e].id, e, n)
    ensures Envid2Env(u, cur, t.envs[e].id, false).Some? <==> u.envs[e].status != FREE && n % GENS == 0
    ensures 0 < n < GENS ==> n % GENS != 0
  {
    var id := t.envs[e].id;
    IdRecurs(id, e, n);
    var k: nat :| 1 <= k <= GENS && id == NthId(k, e);
    NthIdOk(k, e);
  }

  // ---------------------------------------------------------------- the code

  const UNUSED := Env(FREE, 0, 0, false, 0, 0, 0, 0)

  // The loop of env_init over the links.
  method LinkAll(links: array<int>)
    requires links.Length == NENV
    modifies links
    ensures forall e :: 0 <= e < NENV ==> links[e] == if e == NENV - 1 then NULL else e + 1
  {
    for i := 0 to NENV
      invariant forall e :: 0 <= e < i ==> links[e] == e + 1
    {
      links[i] := i + 1;
    }
    links[NENV - 1] := NULL;
  }

  lemma AllUnused(envs: seq<Env>, free: seq<nat>)
    requires |envs| == |free| == NENV && forall e :: 0 <= e < NENV ==> envs[e] == UNUSED && free[e] == e
    ensures TableOk(Table(envs, free))
  {
    assert forall e: nat :: e < NENV ==> free[e] == e && envs[e] == UNUSED;
  }

  class EnvTable {
    const envs: array<Env>
    const links: array<int>     // env_link
    var freeList: int           // env_free_list
    ghost var free: seq<nat>

    ghost function State(): Table
      reads this, envs
    {
      Table(envs[..], free)
    }

    ghost predicate Valid()
      reads this, envs, links
    {
      links.Length == NENV && TableOk(State()) && ListFrom(freeList, links[..], free)
    }

    /** env_init: every slot free, and handed out in the order of the array. */
    constructor EnvInit()
      ensures Valid() && fresh(envs) && fresh(links)
      ensures |free| == NENV && forall e :: 0 <= e < NENV ==> free[e] == e && envs[e].id == 0
    {
      envs := new Env[NENV](_ => UNUSED);
      links := new int[NENV];
      new;
      LinkAll(links);
      freeList := 0;
      free := Upto(0);
      assert ListFrom(freeList, links[..], free) by {
        UptoList(0, links[..]);
      }
      assert TableOk(State()) by {
        AllUnused(envs[..], free);
      }
    }

    method Alloc(parent: int, vm: bool) returns (r: int, e: nat)
      requires Valid()
      modifies this`freeList, this`free, envs
      ensures Valid() && (State(), r) == EnvAlloc(old(State()), parent, vm)
      ensures r == 0 ==> old(free) != [] && e == old(free)[0] && old(envs[..])[e].status == FREE
    {
      AllocKeeps(State(), parent, vm);
      if freeList == NULL {
        return E_NO_FREE_ENV, 0;
      }
      e := freeList;
      if !vm {
        return E_NO_MEM, e;
      }
      var generation := Wrap32(envs[e].id + GEN) / NENV * NENV;
      if generation <= 0 {
        generation := GEN;
      }
      envs[e] := envs[e].(status := RUNNABLE, id := generation + e, parent := parent, recving := false);
      freeList := links[e];
      free := free[1..];
      r := 0;
    }

    method Free(e: nat)
      requires Valid() && e < NENV && envs[e].status != FREE
      modifies this`freeList, this`free, envs, links
      ensures Valid() && State() == FreeSlot(old(State()), e)
    {
      FreeKeeps(State(), e);
      ListFrame(freeList, links[..], free, e, freeList);
      envs[e] := envs[e].(status := FREE);
      links[e] := freeList;
      freeList := e;
      assert ([e] + free)[1..] == free;
      free := [e] + free;
    }

    method Lookup(cur: nat, id: int, checkperm: bool) returns (e: Option<nat>)
      requires Valid() && cur < NENV
      ensures e == Envid2Env(State(), cur, id, checkperm)
    {
      if id == 0 {
        return Some(cur);
      }
      var i := ENVX(id);
      if envs[i].status == FREE || envs[i].id != id {
        return None;
      }
      if checkperm && i != cur && envs[i].parent != envs[cur].id {
        return None;
      }
      e := Some(i);
    }
  }

  ghost function Upto(i: nat): (s: seq<nat>)
    requires i <= NENV
    ensures |s| == NENV - i && forall k :: 0 <= k < |s| ==> s[k] == i + k
  {
    seq(NENV - i, k requires k >= 0 => i + k)
  }

  lemma {:induction false} UptoList(i: nat, links: seq<int>)
    requires i <= NENV && |links| == NENV
    requires forall e :: 0 <= e < NENV ==> links[e] == if e == NENV - 1 then NULL else e + 1
    ensures ListFrom(if i == NENV then NULL else i, links, Upto(i))
    decreases NENV - i
  {
    if i < NENV {
      UptoList(i + 1, links);
      assert Upto(i)[1..] == Upto(i + 1);
    }
  }
}
