/** Physical pages, reference counts and two-level page tables of the JOS kernel
    (sched/kern/pmap.c, sched/kern/env.c), as values.

    Page tables are stored where the kernel stores them: in the words of the physical
    pages that the allocator hands out.  A page is named by its number, a page-table
    slot below UTOP by its directory index `i` and its table index `j`. */
module Paging {
  import opened Base

  const UTOP := 0xEEC0_0000
  const NPDU: nat := 955      // PDX(UTOP)
  const NPTE: nat := 1024
  const PTE_P := 1
  const PTE_W := 2
  const PTE_U := 4
  const PGSIZE := 4096
  const REFWRAP := 65536      // pp_ref is a uint16_t

  datatype Vm = Vm(
    pool: set<nat>,           // pages that page_init gave to the allocator
    ref: seq<nat>,            // pages[p].pp_ref
    free: seq<nat>,           // page_free_list, head first
    mem: seq<seq<nat>>,       // the words of every physical page
    dir: seq<Option<nat>>,    // envs[e].env_pgdir, as a page number
    kern: seq<nat>)           // kern_pgdir, the template for new directories

  // Everything that counts as a reference to a page.
  datatype Ref = DirRef(e: nat) | TabRef(e: nat, i: nat) | PteRef(e: nat, i: nat, j: nat)

  predicate ValidRef(r: Ref) {
    r.e < NENV && (r.TabRef? ==> r.i < NPDU) && (r.PteRef? ==> r.i < NPDU && r.j < NPTE)
  }

  ghost function AllRefs(): (s: set<Ref>)
    ensures forall r :: r in s <==> ValidRef(r)
  {
    var ds := set e: nat | e < NENV :: DirRef(e);
    var ts := set e: nat, i: nat | e < NENV && i < NPDU :: TabRef(e, i);
    var ps := set e: nat, i: nat, j: nat | e < NENV && i < NPDU && j < NPTE :: PteRef(e, i, j);
    assert forall r :: ValidRef(r) && r.DirRef? ==> r == DirRef(r.e);
    ds + ts + ps
  }

  // ---------------------------------------------------------------- reading the tables

  function Word(s: Vm, p: nat, k: nat): nat {
    if p < |s.mem| && k < |s.mem[p]| then s.mem[p][k] else 0
  }

  function Frame(w: nat): nat { w / PGSIZE }
  function Perm(w: nat): nat { w % PGSIZE }

  function Dir(s: Vm, e: nat): Option<nat> {
    if e < |s.dir| then s.dir[e] else None
  }

  function Pde(s: Vm, e: nat, i: nat): nat {
    match Dir(s, e) case None => 0 case Some(d) => Word(s, d, i)
  }

  function Pte(s: Vm, e: nat, i: nat, j: nat): nat {
    if Pde(s, e, i) == 0 then 0 else Word(s, Frame(Pde(s, e, i)), j)
  }

  function Target(s: Vm, r: Ref): Option<nat> {
    match r
    case DirRef(e) => Dir(s, e)
    case TabRef(e, i) => if Pde(s, e, i) == 0 then None else Some(Frame(Pde(s, e, i)))
    case PteRef(e, i, j) => if Pte(s, e, i, j) == 0 then None else Some(Frame(Pte(s, e, i, j)))
  }

  function RefCount(s: Vm, p: nat): nat { if p < |s.ref| then s.ref[p] else 0 }

  ghost function Refs(s: Vm, p: nat): set<Ref> {
    set r | r in AllRefs() && Target(s, r) == Some(p)
  }

  // ---------------------------------------------------------------- the invariant

  ghost predicate Shape(s: Vm) {
    && |s.ref| == |s.mem| && |s.dir| == NENV && |s.kern| == NPTE
    && (forall p :: 0 <= p < |s.mem| ==> |s.mem[p]| == NPTE)
    && (forall p :: 0 <= p < |s.ref| ==> s.ref[p] < REFWRAP)
    && (forall p :: p in s.pool ==> 0 < p < |s.mem|)
    && (forall i :: 0 <= i < NPDU ==> s.kern[i] == 0)
  }

  ghost predicate FreeOk(s: Vm)
    requires Shape(s)
  {
    && (forall k :: 0 <= k < |s.free| ==> s.free[k] in s.pool && s.ref[s.free[k]] == 0)
    && (forall k, l :: 0 <= k < l < |s.free| ==> s.free[k] != s.free[l])
  }

  ghost predicate Targets(s: Vm) {
    forall r :: ValidRef(r) && Target(s, r).Some? ==> Target(s, r).value in s.pool && Target(s, r).value !in s.free
  }

  // A page named twice is a user page in both places: tables and directories are never
  // shared and never user data.
  ghost predicate Unique(s: Vm) {
    forall r, q :: ValidRef(r) && ValidRef(q) && r != q && Target(s, r).Some? && Target(s, r) == Target(s, q)
      ==> r.PteRef? && q.PteRef?
  }

  // An entry is 0 or present, so `*pte && PTE_P` and `*pte & PTE_P` agree.
  ghost predicate Bits(s: Vm) {
    && (forall e: nat, i: nat :: e < NENV && i < NPDU ==> Pde(s, e, i) == 0 || Perm(Pde(s, e, i)) == 7)
    && (forall e: nat, i: nat, j: nat :: e < NENV && i < NPDU && j < NPTE ==> Pte(s, e, i, j) == 0 || Pte(s, e, i, j) % 2 == 1)
  }

  // `extra` is a page whose count page_insert has raised but not yet stored.
  ghost predicate Counts(s: Vm, extra: Option<nat>)
    requires Shape(s)
  {
    forall p :: p in s.pool ==> s.ref[p] == |Refs(s, p)| + if extra == Some(p) then 1 else 0
  }

  ghost predicate InvPlus(s: Vm, extra: Option<nat>) {
    Shape(s) && FreeOk(s) && Targets(s) && Unique(s) && Bits(s) && Counts(s, extra)
  }

  ghost predicate Inv(s: Vm) { InvPlus(s, None) }

  // Allocated but mapped nowhere: the pages in hand, or lost.
  ghost function Held(s: Vm): set<nat> {
    set p | p in s.pool && p !in s.free && Refs(s, p) == {}
  }

  // ---------------------------------------------------------------- how counts move

  lemma SameRefs(s: Vm, t: Vm)
    requires forall r :: ValidRef(r) ==> Target(t, r) == Target(s, r)
    ensures forall p :: Refs(t, p) == Refs(s, p)
  {
  }

  lemma OneMoreRef(s: Vm, t: Vm, r0: Ref, p: nat)
    requires ValidRef(r0) && Target(s, r0) == None && Target(t, r0) == Some(p)
    requires forall r :: ValidRef(r) && r != r0 ==> Target(t, r) == Target(s, r)
    ensures Refs(t, p) == Refs(s, p) + {r0} && |Refs(t, p)| == |Refs(s, p)| + 1
    ensures forall q :: q != p ==> Refs(t, q) == Refs(s, q)
  {
    assert Refs(t, p) == Refs(s, p) + {r0};
    forall q | q != p ensures Refs(t, q) == Refs(s, q) {
      assert forall r :: r in Refs(t, q) <==> r in Refs(s, q);
    }
  }

  // A stored reference that page_insert, pgdir_walk or env_setup_vm has already counted.
  lemma AddInv(s: Vm, t: Vm, r0: Ref, p: nat)
    requires InvPlus(s, Some(p)) && Shape(t) && Bits(t)
    requires t.pool == s.pool && t.ref == s.ref && t.free == s.free
    requires p in s.pool && p !in s.free
    requires ValidRef(r0) && Target(s, r0) == None && Target(t, r0) == Some(p)
    requires forall r :: ValidRef(r) && r != r0 ==> Target(t, r) == Target(s, r)
    requires forall r :: ValidRef(r) && Target(s, r) == Some(p) ==> r.PteRef? && r0.PteRef?
    ensures Inv(t)
  {
    OneMoreRef(s, t, r0, p);
  }

  // Without wrap-around, page_decref subtracts one and frees at zero.
  lemma DecrefPlain(s: Vm, p: nat)
    requires p < |s.ref| && 1 <= s.ref[p] < REFWRAP
    ensures Decref(s, p).ref == s.ref[p := s.ref[p] - 1]
    ensures Decref(s, p).free == (if s.ref[p] == 1 then [p] else []) + s.free
  {
    var n := s.ref[p];
    assert (n + REFWRAP - 1) % REFWRAP == n - 1;
  }

  lemma DropCounts(s: Vm, t: Vm, r0: Ref, p: nat, extra: Option<nat>)
    requires Shape(s) && Counts(s, extra) && Shape(t) && t.pool == s.pool && p in s.pool
    requires t.ref == Decref(s, p).ref
    requires ValidRef(r0) && Target(s, r0) == Some(p) && Target(t, r0) == None
    requires forall r :: ValidRef(r) && r != r0 ==> Target(t, r) == Target(s, r)
    ensures s.ref[p] >= 1 && t.ref == s.ref[p := s.ref[p] - 1] && Counts(t, extra)
    ensures s.ref[p] == 1 ==> Refs(t, p) == {}
  {
    OneMoreRef(t, s, r0, p);
    assert s.ref[p] >= |Refs(s, p)| >= 1;
    DecrefPlain(s, p);
    forall q | q in t.pool && q != p ensures t.ref[q] == |Refs(t, q)| + if extra == Some(q) then 1 else 0 {
      assert Refs(t, q) == Refs(s, q) && t.ref[q] == s.ref[q];
    }
  }

  // The count of page p falls by one, and p becomes free with its last reference.
  ghost predicate LostOne(s: Vm, t: Vm, p: nat) {
    && p < |s.ref| && s.ref[p] > 0 && t.ref == s.ref[p := s.ref[p] - 1]
    && t.free == (if s.ref[p] == 1 then [p] else []) + s.free
  }

  // A reference that is gone from the tables, with page_decref done for it.
  lemma DropInv(s: Vm, t: Vm, r0: Ref, p: nat, extra: Option<nat>)
    requires InvPlus(s, extra) && Shape(t) && Bits(t)
    requires t.pool == s.pool && p in s.pool
    requires t.ref == Decref(s, p).ref && t.free == Decref(s, p).free
    requires ValidRef(r0) && Target(s, r0) == Some(p) && Target(t, r0) == None
    requires forall r :: ValidRef(r) && r != r0 ==> Target(t, r) == Target(s, r)
    ensures InvPlus(t, extra) && LostOne(s, t, p)
  {
    DropCounts(s, t, r0, p, extra);
    DropFree(s, t, p);
    assert Targets(t) by {
      forall r | ValidRef(r) && Target(t, r).Some? ensures Target(t, r).value in s.pool && Target(t, r).value !in t.free {
        assert r in Refs(t, Target(t, r).value);
      }
    }
  }

  lemma DropFree(s: Vm, t: Vm, p: nat)
    requires Shape(s) && FreeOk(s) && Shape(t) && t.pool == s.pool && p in s.pool && p !in s.free
    requires s.ref[p] >= 1 && t.ref == s.ref[p := s.ref[p] - 1] && t.free == Decref(s, p).free
    ensures FreeOk(t) && t.free == (if s.ref[p] == 1 then [p] else []) + s.free
  {
    DecrefPlain(s, p);
    if s.ref[p] == 1 {
      FreePrepended(s, t, p);
    } else {
      assert t.free == s.free;
    }
  }

  lemma FreePrepended(s: Vm, t: Vm, p: nat)
    requires Shape(s) && FreeOk(s) && Shape(t) && t.pool == s.pool && p in s.pool && p !in s.free
    requires t.ref == s.ref[p := 0] && t.free == [p] + s.free
    ensures FreeOk(t)
  {
    assert forall k :: 1 <= k < |t.free| ==> t.free[k] == s.free[k - 1];
  }

  // A page that is no table and no directory can be overwritten: the tables stay.
  lemma FrameMem(s: Vm, t: Vm, p: nat)
    requires t.dir == s.dir && |t.mem| == |s.mem|
    requires forall q :: 0 <= q < |s.mem| && q != p ==> t.mem[q] == s.mem[q]
    requires forall r :: ValidRef(r) && Target(s, r) == Some(p) ==> r.PteRef?
    ensures forall e: nat, i: nat :: e < NENV && i < NPDU ==> Pde(t, e, i) == Pde(s, e, i)
    ensures forall e: nat, i: nat, j: nat :: e < NENV && i < NPDU && j < NPTE ==> Pte(t, e, i, j) == Pte(s, e, i, j)
    ensures forall r :: ValidRef(r) ==> Target(t, r) == Target(s, r)
  {
    forall e: nat, i: nat | e < NENV && i < NPDU ensures Pde(t, e, i) == Pde(s, e, i) {
      assert Target(s, DirRef(e)) != Some(p);
    }
    forall e: nat, i: nat, j: nat | e < NENV && i < NPDU && j < NPTE ensures Pte(t, e, i, j) == Pte(s, e, i, j) {
      assert Target(s, TabRef(e, i)) != Some(p);
    }
  }

  lemma SameTables(s: Vm, t: Vm)
    requires t.mem == s.mem && t.dir == s.dir
    ensures forall e: nat, i: nat :: Pde(t, e, i) == Pde(s, e, i)
    ensures forall e: nat, i: nat, j: nat :: Pte(t, e, i, j) == Pte(s, e, i, j)
    ensures forall r :: Target(t, r) == Target(s, r)
    ensures forall p :: Refs(t, p) == Refs(s, p)
  {
    SameRefs(s, t);
  }

  // ---------------------------------------------------------------- stores into tables

  function Store(s: Vm, p: nat, k: nat, w: nat): Vm {
    if p < |s.mem| && k < |s.mem[p]| then
      var page: seq<nat> := s.mem[p][k := w];
      s.(mem := s.mem[p := page])
    else s
  }

  function Decref(s: Vm, p: nat): Vm {
    if p >= |s.ref| then s else
    var n: nat := (s.ref[p] + REFWRAP - 1) % REFWRAP;
    var s1 := s.(ref := s.ref[p := n]);
    if n == 0 then s1.(free := [p] + s1.free) else s1
  }

  function Incref(s: Vm, p: nat): Vm {
    if p >= |s.ref| then s else s.(ref := s.ref[p := (s.ref[p] + 1) % REFWRAP])
  }

  lemma SetPte(s: Vm, t: Vm, e: nat, i: nat, j: nat, w: nat)
    requires Shape(s) && Unique(s) && Targets(s) && e < NENV && i < NPDU && j < NPTE
    requires Pde(s, e, i) != 0 && t == Store(s, Frame(Pde(s, e, i)), j, w)
    ensures Shape(t) && t.dir == s.dir
    ensures forall f: nat, k: nat :: f < NENV && k < NPDU ==> Pde(t, f, k) == Pde(s, f, k)
    ensures forall f: nat, k: nat, l: nat :: f < NENV && k < NPDU && l < NPTE ==>
              Pte(t, f, k, l) == if f == e && k == i && l == j then w else Pte(s, f, k, l)
    ensures forall r :: ValidRef(r) && r != PteRef(e, i, j) ==> Target(t, r) == Target(s, r)
  {
    var p := Frame(Pde(s, e, i));
    assert Target(s, TabRef(e, i)) == Some(p);
    forall f: nat, k: nat | f < NENV && k < NPDU ensures Pde(t, f, k) == Pde(s, f, k) {
      assert Target(s, DirRef(f)) != Some(p);
    }
    forall f: nat, k: nat, l: nat | f < NENV && k < NPDU && l < NPTE
      ensures Pte(t, f, k, l) == if f == e && k == i && l == j then w else Pte(s, f, k, l)
    {
      assert Target(s, TabRef(f, k)) == Some(p) ==> TabRef(f, k) == TabRef(e, i);
    }
  }

  lemma SetPde(s: Vm, t: Vm, e: nat, i: nat, w: nat)
    requires Shape(s) && Unique(s) && Targets(s) && e < NENV && i < NPDU
    requires Dir(s, e).Some? && t == Store(s, Dir(s, e).value, i, w)
    ensures Shape(t) && t.dir == s.dir
    ensures forall f: nat, k: nat :: f < NENV && k < NPDU ==>
              Pde(t, f, k) == if f == e && k == i then w else Pde(s, f, k)
    ensures forall f: nat, k: nat, l: nat :: f < NENV && k < NPDU && l < NPTE && !(f == e && k == i) ==>
              Pte(t, f, k, l) == Pte(s, f, k, l)
  {
    var p := Dir(s, e).value;
    assert Target(s, DirRef(e)) == Some(p);
    forall f: nat, k: nat | f < NENV && k < NPDU
      ensures Pde(t, f, k) == if f == e && k == i then w else Pde(s, f, k)
    {
      assert Target(s, DirRef(f)) == Some(p) ==> f == e;
    }
    forall f: nat, k: nat, l: nat | f < NENV && k < NPDU && l < NPTE && !(f == e && k == i)
      ensures Pte(t, f, k, l) == Pte(s, f, k, l)
    {
      assert Target(s, TabRef(f, k)) != Some(p);
    }
  }

  // ---------------------------------------------------------------- pmap.c operations

  function PermP(perm: nat): nat { if perm % 2 == 1 then perm else perm + 1 }   // perm | PTE_P

  function ZeroPage(): (z: seq<nat>)
    ensures |z| == NPTE && forall k :: 0 <= k < NPTE ==> z[k] == 0
  {
    seq(NPTE, _ => 0)
  }

  // page_alloc
  function Alloc(s: Vm, zero: bool): (Vm, Option<nat>) {
    if s.free == [] then (s, None) else
    var p := s.free[0];
    var s1 := s.(free := s.free[1..]);
    (if zero && p < |s.mem| then s1.(mem := s.mem[p := ZeroPage()]) else s1, Some(p))
  }

  // pgdir_walk: the caller learns whether the slot has a page table.
  function Walk(s: Vm, e: nat, i: nat, create: bool): (Vm, bool) {
    if Dir(s, e).Some? && Pde(s, e, i) == 0 && create && s.free != [] then
      var (s1, p) := Alloc(s, true);
      var s2 := Incref(s1, p.value);
      (Store(s2, Dir(s, e).value, i, p.value * PGSIZE + 7), true)
    else
      (s, Pde(s, e, i) != 0)
  }

  // page_lookup
  function Lookup(s: Vm, e: nat, i: nat, j: nat): Option<nat> {
    if Pte(s, e, i, j) == 0 then None else Some(Frame(Pte(s, e, i, j)))
  }

  // page_remove
  function Remove(s: Vm, e: nat, i: nat, j: nat): Vm {
    if Pte(s, e, i, j) == 0 then s
    else Store(Decref(s, Frame(Pte(s, e, i, j))), Frame(Pde(s, e, i)), j, 0)
  }

  // page_insert
  function Insert(s: Vm, pp: nat, e: nat, i: nat, j: nat, perm: nat): (Vm, bool) {
    var (s1, ok) := Walk(s, e, i, true);
    if !ok then (s1, false) else
    var s2 := Remove(Incref(s1, pp), e, i, j);
    (Store(s2, Frame(Pde(s1, e, i)), j, Entry(pp, perm)), true)
  }

  // Allocated, and neither a table nor a directory.
  ghost predicate User(s: Vm, p: nat) {
    p in s.pool && p !in s.free && forall r :: ValidRef(r) && Target(s, r) == Some(p) ==> r.PteRef?
  }

  ghost predicate SameUserPages(s: Vm, t: Vm) {
    |t.mem| == |s.mem| && t.pool == s.pool && t.kern == s.kern
    && forall p: nat :: User(s, p) && p < |s.mem| ==> t.mem[p] == s.mem[p]
  }

  // The page-table entries of every address space agree except at one slot.
  ghost predicate SameButOne(s: Vm, t: Vm, e: nat, i: nat, j: nat) {
    && t.dir == s.dir
    && (forall f: nat, k: nat, l: nat :: f < NENV && k < NPDU && l < NPTE && !(f == e && k == i && l == j) ==>
          Pte(t, f, k, l) == Pte(s, f, k, l))
  }

  ghost predicate SlotOk(s: Vm, e: nat, i: nat, j: nat) {
    e < NENV && i < NPDU && j < NPTE && Dir(s, e).Some?
  }

  lemma AllocOk(s: Vm, t: Vm, p: Option<nat>, zero: bool)
    requires Inv(s) && (t, p) == Alloc(s, zero)
    ensures Inv(t)
    ensures (p.None? <==> s.free == []) && (p.None? ==> t == s)
    ensures p.Some? ==>
              && p.value in s.pool && s.free == [p.value] + t.free && User(t, p.value)
              && Refs(t, p.value) == {} && t.ref[p.value] == 0
              && (zero ==> t.mem[p.value] == ZeroPage())
    ensures t.dir == s.dir && t.ref == s.ref && SameUserPages(s, t)
    ensures forall r :: ValidRef(r) ==> Target(t, r) == Target(s, r)
    ensures forall e: nat, i: nat :: e < NENV && i < NPDU ==> Pde(t, e, i) == Pde(s, e, i)
    ensures forall e: nat, i: nat, j: nat :: e < NENV && i < NPDU && j < NPTE ==> Pte(t, e, i, j) == Pte(s, e, i, j)
  {
    if s.free != [] {
      FrameMem(s, t, p.value);
      SameRefs(s, t);
      assert forall k :: 0 <= k < |t.free| ==> t.free[k] == s.free[k + 1];
      assert Refs(t, p.value) == {};
    }
  }

  // pgdir_walk keeps every mapping; what it may add is one empty table from the free list.
  ghost predicate WalkTables(s: Vm, t: Vm, e: nat, i: nat) {
    && t.dir == s.dir
    && (forall f: nat, k: nat :: f < NENV && k < NPDU && !(f == e && k == i) ==> Pde(t, f, k) == Pde(s, f, k))
    && (forall f: nat, k: nat, l: nat :: f < NENV && k < NPDU && l < NPTE ==> Pte(t, f, k, l) == Pte(s, f, k, l))
  }

  lemma NewTable(s: Vm, t: Vm, e: nat, i: nat, p: nat)
    requires InvPlus(s, Some(p)) && SlotOk(s, e, i, 0) && Pde(s, e, i) == 0
    requires User(s, p) && Refs(s, p) == {} && s.mem[p] == ZeroPage()
    requires t == Store(s, Dir(s, e).value, i, p * PGSIZE + 7)
    ensures Inv(t) && WalkTables(s, t, e, i) && Pde(t, e, i) == p * PGSIZE + 7 && SameUserPages(s, t)
  {
    var w := p * PGSIZE + 7;
    var d := Dir(s, e).value;
    assert Target(s, DirRef(e)) == Some(d);
    assert DirRef(e) in Refs(s, d);
    SetPde(s, t, e, i, w);
    assert Frame(w) == p && t.mem[p] == ZeroPage();
    assert forall l: nat :: l < NPTE ==> Pte(t, e, i, l) == 0;
    forall r | ValidRef(r) && r != TabRef(e, i) ensures Target(t, r) == Target(s, r) {
    }
    assert forall r :: ValidRef(r) && Target(s, r) == Some(p) ==> r in Refs(s, p);
    AddInv(s, t, TabRef(e, i), p);
  }

  // A count raised before the reference is stored.
  lemma RaisedInv(s: Vm, s2: Vm, pp: nat)
    requires Inv(s) && User(s, pp) && s.ref[pp] < REFWRAP - 1 && s2 == Incref(s, pp)
    ensures InvPlus(s2, Some(pp)) && User(s2, pp) && s2.dir == s.dir && s2.mem == s.mem && s2.free == s.free
    ensures s2.ref == s.ref[pp := s.ref[pp] + 1]
    ensures forall e: nat, i: nat :: Pde(s2, e, i) == Pde(s, e, i)
    ensures forall e: nat, i: nat, j: nat :: Pte(s2, e, i, j) == Pte(s, e, i, j)
    ensures forall r :: Target(s2, r) == Target(s, r)
    ensures forall p :: Refs(s2, p) == Refs(s, p)
  {
    SameTables(s, s2);
  }

  lemma WalkOk(s: Vm, t: Vm, ok: bool, e: nat, i: nat, create: bool)
    requires Inv(s) && SlotOk(s, e, i, 0) && (t, ok) == Walk(s, e, i, create)
    ensures Inv(t) && WalkTables(s, t, e, i) && SameUserPages(s, t)
    ensures ok <==> Pde(t, e, i) != 0
    ensures ok <==> Pde(s, e, i) != 0 || (create && s.free != [])
    ensures forall q: nat :: User(s, q) ==> User(t, q)
    ensures t != s ==> Pde(s, e, i) == 0 && create && s.free != [] && t.free == s.free[1..]
    ensures forall q :: 0 <= q < |s.ref| && (s.free == [] || q != s.free[0]) ==> t.ref[q] == s.ref[q]
  {
    if Pde(s, e, i) == 0 && create && s.free != [] {
      var (s1, p) := Alloc(s, true);
      AllocOk(s, s1, p, true);
      var s2 := Incref(s1, p.value);
      RaisedInv(s1, s2, p.value);
      NewTable(s2, t, e, i, p.value);
      WalkUserPages(s, s1, s2, t, e, i);
    }
  }

  lemma WalkUserPages(s: Vm, s1: Vm, s2: Vm, t: Vm, e: nat, i: nat)
    requires Shape(s) && Shape(s1) && SameUserPages(s, s1) && SameUserPages(s2, t)
    requires s2.mem == s1.mem && s2.pool == s1.pool && s2.free == s1.free && s2.kern == s1.kern
    requires s.free != [] && s1.free == s.free[1..]
    requires forall r :: ValidRef(r) ==> Target(s2, r) == Target(s, r)
    requires WalkTables(s2, t, e, i) && Pde(t, e, i) == s.free[0] * PGSIZE + 7 && t.free == s2.free
    ensures SameUserPages(s, t) && forall q: nat :: User(s, q) ==> User(t, q)
  {
    forall q: nat | User(s, q) ensures User(s2, q) && User(t, q) {
      forall r | ValidRef(r) && Target(t, r) == Some(q) ensures r.PteRef? {
        assert r != TabRef(e, i);
      }
    }
  }

  lemma RemoveTables(s: Vm, t: Vm, e: nat, i: nat, j: nat)
    requires Shape(s) && Unique(s) && Targets(s) && SlotOk(s, e, i, j) && t == Remove(s, e, i, j)
    ensures Shape(t) && SameButOne(s, t, e, i, j) && Pte(t, e, i, j) == 0 && SameUserPages(s, t)
    ensures forall f: nat, k: nat :: f < NENV && k < NPDU ==> Pde(t, f, k) == Pde(s, f, k)
    ensures forall r :: ValidRef(r) && r != PteRef(e, i, j) ==> Target(t, r) == Target(s, r)
  {
    if Pte(s, e, i, j) != 0 {
      var p := Frame(Pte(s, e, i, j));
      assert Target(s, PteRef(e, i, j)) == Some(p);
      assert Target(s, TabRef(e, i)) == Some(Frame(Pde(s, e, i)));
      var u := Store(s, Frame(Pde(s, e, i)), j, 0);
      SetPte(s, u, e, i, j, 0);
      SameTables(u, t);
    }
  }

  // What page_remove does to the allocator.
  ghost predicate RemoveCounts(s: Vm, t: Vm, r0: Ref) {
    match Target(s, r0)
    case None => t.ref == s.ref && t.free == s.free
    case Some(p) => LostOne(s, t, p)
  }

  lemma RemoveOk(s: Vm, t: Vm, e: nat, i: nat, j: nat, extra: Option<nat>)
    requires InvPlus(s, extra) && SlotOk(s, e, i, j) && t == Remove(s, e, i, j)
    ensures InvPlus(t, extra) && SameButOne(s, t, e, i, j) && Pte(t, e, i, j) == 0 && SameUserPages(s, t)
    ensures forall f: nat, k: nat :: f < NENV && k < NPDU ==> Pde(t, f, k) == Pde(s, f, k)
    ensures RemoveCounts(s, t, PteRef(e, i, j))
  {
    RemoveTables(s, t, e, i, j);
    if Pte(s, e, i, j) != 0 {
      var p := Frame(Pte(s, e, i, j));
      RemovedRef(s, t, e, i, j, p);
      DropInv(s, t, PteRef(e, i, j), p, extra);
    }
  }

  // The slot's page is an allocator page that the slot alone may count for; the slot is now empty.
  lemma RemovedRef(s: Vm, t: Vm, e: nat, i: nat, j: nat, p: nat)
    requires Shape(s) && FreeOk(s) && Targets(s) && Unique(s) && Bits(s) && SlotOk(s, e, i, j) && t == Remove(s, e, i, j)
    requires Pte(s, e, i, j) != 0 && p == Frame(Pte(s, e, i, j)) && Pte(t, e, i, j) == 0 && SameButOne(s, t, e, i, j)
    requires forall f: nat, k: nat :: f < NENV && k < NPDU ==> Pde(t, f, k) == Pde(s, f, k)
    ensures ValidRef(PteRef(e, i, j)) && Target(s, PteRef(e, i, j)) == Some(p) && Target(t, PteRef(e, i, j)) == None
    ensures p in s.pool && p !in s.free && PteRef(e, i, j) in Refs(s, p)
    ensures t.pool == s.pool && t.ref == Decref(s, p).ref && t.free == Decref(s, p).free
    ensures Bits(t)
  {
    assert Target(s, PteRef(e, i, j)) == Some(p);
  }

  // The last store of page_insert, into a slot that is empty by then.
  lemma StoreOk(s: Vm, t: Vm, pp: nat, e: nat, i: nat, j: nat, w: nat)
    requires InvPlus(s, Some(pp)) && SlotOk(s, e, i, j) && Pde(s, e, i) != 0 && Pte(s, e, i, j) == 0
    requires User(s, pp) && w % 2 == 1 && Frame(w) == pp
    requires t == Store(s, Frame(Pde(s, e, i)), j, w)
    ensures Inv(t)
    ensures Pte(t, e, i, j) == w
    ensures forall f: nat, k: nat :: f < NENV && k < NPDU ==> Pde(t, f, k) == Pde(s, f, k)
    ensures SameButOne(s, t, e, i, j) && SameUserPages(s, t)
  {
    assert Target(s, TabRef(e, i)) == Some(Frame(Pde(s, e, i)));
    SetPte(s, t, e, i, j, w);
    AddInv(s, t, PteRef(e, i, j), pp);
  }

  function Entry(pp: nat, perm: nat): nat { pp * PGSIZE + PermP(perm) }

  lemma EntryWord(pp: nat, perm: nat)
    requires perm < PGSIZE
    ensures Entry(pp, perm) % 2 == 1 && Frame(Entry(pp, perm)) == pp && Perm(Entry(pp, perm)) == PermP(perm)
  {
  }

  // Re-inserting the page that is already there: its count is raised first, so the
  // removal of the old mapping does not free it.
  lemma RaisedPageStays(s: Vm, t: Vm, pp: nat, e: nat, i: nat, j: nat)
    requires InvPlus(s, Some(pp)) && SlotOk(s, e, i, j) && User(s, pp)
    requires t == Remove(s, e, i, j)
    ensures User(t, pp)
  {
    RemoveTables(s, t, e, i, j);
    var r0 := PteRef(e, i, j);
    if Target(s, r0) == Some(pp) {
      assert r0 in Refs(s, pp);
    }
  }

  // Page q has lost one reference, and has become free if that was its last.
  ghost predicate GivenBack(s: Vm, t: Vm, q: nat) { t.free == (if RefCount(s, q) == 1 then [q] else []) + s.free }

  lemma InsertAfterWalk(s: Vm, t: Vm, pp: nat, e: nat, i: nat, j: nat, perm: nat)
    requires Inv(s) && SlotOk(s, e, i, j) && Pde(s, e, i) != 0 && User(s, pp) && perm < PGSIZE
    requires s.ref[pp] < REFWRAP - 1
    requires t == Store(Remove(Incref(s, pp), e, i, j), Frame(Pde(s, e, i)), j, Entry(pp, perm))
    ensures Inv(t) && Pte(t, e, i, j) == Entry(pp, perm) && SameButOne(s, t, e, i, j)
    ensures forall f: nat, k: nat :: f < NENV && k < NPDU ==> Pde(t, f, k) == Pde(s, f, k)
    ensures Lookup(s, e, i, j) == None || Lookup(s, e, i, j) == Some(pp) ==> t.free == s.free
    ensures Lookup(s, e, i, j).Some? && Lookup(s, e, i, j) != Some(pp) ==> GivenBack(s, t, Lookup(s, e, i, j).value)
  {
    var s2 := Incref(s, pp);
    RaisedInv(s, s2, pp);
    var s3 := Remove(s2, e, i, j);
    RemoveOk(s2, s3, e, i, j, Some(pp));
    RaisedPageStays(s2, s3, pp, e, i, j);
    EntryWord(pp, perm);
    StoreOk(s3, t, pp, e, i, j, Entry(pp, perm));
  }

  lemma InsertUserPages(s: Vm, t: Vm, pp: nat, e: nat, i: nat, j: nat, w: nat)
    requires Shape(s) && SlotOk(s, e, i, j) && Pde(s, e, i) != 0
    requires t == Store(Remove(Incref(s, pp), e, i, j), Frame(Pde(s, e, i)), j, w)
    ensures SameUserPages(s, t)
  {
    assert Target(s, TabRef(e, i)) == Some(Frame(Pde(s, e, i)));
    SameTables(s, Incref(s, pp));
  }

  lemma SameUserPagesTrans(s: Vm, s1: Vm, t: Vm)
    requires SameUserPages(s, s1) && SameUserPages(s1, t) && forall q: nat :: User(s, q) ==> User(s1, q)
    ensures SameUserPages(s, t)
  {
  }

  // Slot i of the directory of `e` has a table now; no other directory slot has changed.
  ghost predicate TableTaken(s: Vm, t: Vm, e: nat, i: nat) {
    && Pde(t, e, i) != 0
    && forall f: nat, k: nat :: f < NENV && k < NPDU && !(f == e && k == i) ==> Pde(t, f, k) == Pde(s, f, k)
  }

  // The free list has lost its head to a missing table, and nothing else.
  ghost predicate FreeTaken(s: Vm, t: Vm, e: nat, i: nat) {
    if Pde(s, e, i) != 0 then t.free == s.free else s.free != [] && t.free == s.free[1..]
  }

  lemma InsertOk(s: Vm, t: Vm, ok: bool, pp: nat, e: nat, i: nat, j: nat, perm: nat)
    requires Inv(s) && SlotOk(s, e, i, j) && User(s, pp) && perm < PGSIZE
    requires s.ref[pp] < REFWRAP - 1 && (t, ok) == Insert(s, pp, e, i, j, perm)
    ensures Inv(t) && (ok <==> Pde(s, e, i) != 0 || s.free != []) && (!ok ==> t == s)
    ensures ok ==> Pte(t, e, i, j) == Entry(pp, perm)
    ensures SameButOne(s, t, e, i, j) && SameUserPages(s, t)
    ensures ok ==> TableTaken(s, t, e, i)
    ensures ok && (Lookup(s, e, i, j) == None || Lookup(s, e, i, j) == Some(pp)) ==> FreeTaken(s, t, e, i)
    ensures ok && Lookup(s, e, i, j).Some? && Lookup(s, e, i, j) != Some(pp) ==> GivenBack(s, t, Lookup(s, e, i, j).value)
  {
    var (s1, ok1) := Walk(s, e, i, true);
    WalkOk(s, s1, ok1, e, i, true);
    if ok {
      InsertAfterWalk(s1, t, pp, e, i, j, perm);
      InsertUserPages(s1, t, pp, e, i, j, Entry(pp, perm));
      SameUserPagesTrans(s, s1, t);
    }
  }

  // ---------------------------------------------------------------- no page is lost

  lemma AddHeld(s: Vm, t: Vm, r0: Ref, p: nat)
    requires t.pool == s.pool && t.free == s.free
    requires ValidRef(r0) && Target(s, r0) == None && Target(t, r0) == Some(p)
    requires forall r :: ValidRef(r) && r != r0 ==> Target(t, r) == Target(s, r)
    ensures Held(t) == Held(s) - {p}
  {
    OneMoreRef(s, t, r0, p);
    assert r0 in Refs(t, p);
  }

  lemma DropHeld(s: Vm, t: Vm, r0: Ref, p: nat)
    requires Inv(s) && t.pool == s.pool && p in s.pool
    requires t.free == (if s.ref[p] == 1 then [p] else []) + s.free
    requires ValidRef(r0) && Target(s, r0) == Some(p) && Target(t, r0) == None
    requires forall r :: ValidRef(r) && r != r0 ==> Target(t, r) == Target(s, r)
    ensures Held(t) == Held(s)
  {
    OneMoreRef(t, s, r0, p);
    assert r0 in Refs(s, p);
    NotHeldNow(s, t, p);
    forall q | q != p ensures q in Held(t) <==> q in Held(s) {
      assert Refs(t, q) == Refs(s, q) && (q in t.free <==> q in s.free);
    }
  }

  // A page that loses one reference either keeps another or becomes free.
  lemma NotHeldNow(s: Vm, t: Vm, p: nat)
    requires Shape(s) && Counts(s, None) && p in s.pool && |Refs(s, p)| == |Refs(t, p)| + 1
    requires t.free == (if s.ref[p] == 1 then [p] else []) + s.free
    ensures p !in Held(t) && p !in Held(s)
  {
    if s.ref[p] == 1 {
      assert t.free[0] == p;
    } else {
      assert |Refs(t, p)| > 0;
    }
  }

  // ---------------------------------------------------------------- env.c: directories

  const PDX_UVPT := 957

  // The copy of kern_pgdir with the self-map at UVPT.
  function DirPage(kern: seq<nat>, p: nat): seq<nat> {
    if PDX_UVPT < |kern| then kern[PDX_UVPT := p * PGSIZE + 5] else kern
  }

  // env_setup_vm
  function SetupVm(s: Vm, e: nat): (Vm, bool) {
    var (s1, p) := Alloc(s, true);
    if p.None? || p.value >= |s1.mem| || e >= |s1.dir| then (s, false)
    else (Incref(s1, p.value).(dir := s1.dir[e := p], mem := s1.mem[p.value := DirPage(s.kern, p.value)]), true)
  }

  lemma SetupTables(s: Vm, t: Vm, e: nat, p: nat)
    requires InvPlus(s, Some(p)) && e < NENV && Dir(s, e) == None && User(s, p) && Refs(s, p) == {}
    requires t == s.(dir := s.dir[e := Some(p)], mem := s.mem[p := DirPage(s.kern, p)])
    ensures Inv(t)
    ensures forall i: nat :: i < NPDU ==> Pde(t, e, i) == 0
    ensures forall f: nat, k: nat, l: nat :: f < NENV && k < NPDU && l < NPTE ==> Pte(t, f, k, l) == Pte(s, f, k, l)
    ensures Held(t) == Held(s) - {p}
  {
    assert forall r :: ValidRef(r) && Target(s, r) == Some(p) ==> r in Refs(s, p);
    assert forall f: nat :: f < NENV && f != e ==> Target(s, DirRef(f)) == Dir(t, f);
    assert forall i: nat :: i < NPDU ==> Pde(t, e, i) == 0;
    forall f: nat, k: nat | f < NENV && k < NPDU ensures Pde(t, f, k) == Pde(s, f, k) {
    }
    forall f: nat, k: nat, l: nat | f < NENV && k < NPDU && l < NPTE ensures Pte(t, f, k, l) == Pte(s, f, k, l) {
      assert Target(s, TabRef(f, k)) != Some(p);
    }
    assert forall r :: ValidRef(r) && r != DirRef(e) ==> Target(t, r) == Target(s, r);
    AddInv(s, t, DirRef(e), p);
    AddHeld(s, t, DirRef(e), p);
  }

  lemma SetupUserPages(s: Vm, s1: Vm, t: Vm, p: nat)
    requires Shape(s) && SameUserPages(s, s1) && p < |s.mem| && s.free != [] && p == s.free[0]
    requires t.mem == s1.mem[p := DirPage(s.kern, p)] && t.pool == s.pool && t.kern == s.kern
    ensures SameUserPages(s, t)
  {
    forall q: nat | User(s, q) && q < |s.mem| ensures t.mem[q] == s.mem[q] {
      assert q != p;
    }
  }

  lemma SetupOk(s: Vm, t: Vm, ok: bool, e: nat)
    requires Inv(s) && e < NENV && Dir(s, e) == None && (t, ok) == SetupVm(s, e)
    ensures Inv(t) && SameUserPages(s, t) && Held(t) == Held(s)
    ensures ok <==> s.free != []
    ensures if ok then Dir(t, e) == Some(s.free[0]) && t.free == s.free[1..] else t == s
    ensures ok ==> forall i: nat :: i < NPDU ==> Pde(t, e, i) == 0
    ensures forall f: nat :: f < NENV && f != e ==> Dir(t, f) == Dir(s, f)
    ensures forall f: nat, k: nat, l: nat :: f < NENV && k < NPDU && l < NPTE ==> Pte(t, f, k, l) == Pte(s, f, k, l)
  {
    if s.free != [] {
      var (s1, p) := Alloc(s, true);
      AllocOk(s, s1, p, true);
      var s2 := Incref(s1, p.value);
      RaisedInv(s1, s2, p.value);
      SetupTables(s2, t, e, p.value);
      SetupUserPages(s, s1, t, p.value);
      AllocHeld(s, s1, s2, p.value);
    }
  }

  lemma AllocHeld(s: Vm, s1: Vm, s2: Vm, p: nat)
    requires s1.pool == s.pool && p in s.pool && s.free == [p] + s1.free && p !in s1.free && Refs(s1, p) == {}
    requires forall r :: ValidRef(r) ==> Target(s1, r) == Target(s, r)
    requires s2.pool == s1.pool && s2.free == s1.free && forall q :: Refs(s2, q) == Refs(s1, q)
    ensures Held(s2) - {p} == Held(s)
  {
    SameRefs(s, s1);
  }

  // ---------------------------------------------------------------- env.c: env_free

  // page_remove for table slots j, j+1, ... of one page table.
  function FreePtes(s: Vm, e: nat, i: nat, j: nat): Vm
    decreases NPTE - j, |s.mem|
  {
    if j >= NPTE then s else FreePtes(Remove(s, e, i, j), e, i, j + 1)
  }

  // Drop the page table itself.
  function FreeTable(s: Vm, e: nat, i: nat): Vm {
    if Pde(s, e, i) == 0 || Dir(s, e).None? then s
    else Decref(Store(s, Dir(s, e).value, i, 0), Frame(Pde(s, e, i)))
  }

  // One directory slot: its mappings, then its page table.
  function FreeSlot(s: Vm, e: nat, i: nat): Vm {
    if Pde(s, e, i) == 0 then s else FreeTable(FreePtes(s, e, i, 0), e, i)
  }

  function FreeTables(s: Vm, e: nat, i: nat): Vm
    decreases NPDU - i, |s.mem|
  {
    if i >= NPDU then s else FreeTables(FreeSlot(s, e, i), e, i + 1)
  }

  // Drop the page directory.
  function FreeDir(s: Vm, e: nat): Vm {
    if Dir(s, e).None? || e >= |s.dir| then s
    else Decref(s.(dir := s.dir[e := None]), Dir(s, e).value)
  }

  function EnvFree(s: Vm, e: nat): Vm { FreeDir(FreeTables(s, e, 0), e) }

  // What every step of env_free keeps: only references of `e` disappear, every page that
  // loses its last one returns to the free list, and the other pages keep their contents.
  ghost predicate Shrinks(s: Vm, t: Vm, e: nat) {
    && Inv(t) && Held(t) == Held(s)
    && |t.mem| == |s.mem| && t.pool == s.pool && t.kern == s.kern
    && (forall p: nat :: User(t, p) && p < |s.mem| ==> t.mem[p] == s.mem[p])
    && (forall r :: ValidRef(r) && r.e != e ==> Target(t, r) == Target(s, r))
    && (forall r :: ValidRef(r) && r.e == e ==> Target(t, r) == Target(s, r) || Target(t, r) == None)
    && (forall f: nat, k: nat, l: nat :: f < NENV && f != e && k < NPDU && l < NPTE ==> Pte(t, f, k, l) == Pte(s, f, k, l))
  }

  lemma UserBefore(s: Vm, t: Vm, e: nat, p: nat)
    requires Inv(s) && Shrinks(s, t, e) && User(t, p)
    ensures User(s, p)
  {
    assert Refs(t, p) <= Refs(s, p);
    InPool(s, p);
    InPool(t, p);
    assert p !in s.free;
    forall r | ValidRef(r) && Target(s, r) == Some(p) ensures r.PteRef? {
      assert r in Refs(s, p) && p !in Held(s);
      assert Refs(t, p) != {};
      var q :| q in Refs(t, p);
      assert Target(s, q) == Some(p);
    }
  }

  lemma ShrinksTrans(s: Vm, s1: Vm, t: Vm, e: nat)
    requires Inv(s) && Shrinks(s, s1, e) && Shrinks(s1, t, e)
    ensures Shrinks(s, t, e)
  {
    forall p: nat | User(t, p) && p < |s.mem| ensures t.mem[p] == s.mem[p] {
      UserBefore(s1, t, e, p);
    }
  }

  lemma RemoveShrinks(s: Vm, t: Vm, e: nat, i: nat, j: nat)
    requires Inv(s) && SlotOk(s, e, i, j) && t == Remove(s, e, i, j)
    ensures Shrinks(s, t, e) && Dir(t, e) == Dir(s, e) && SameButOne(s, t, e, i, j) && Pte(t, e, i, j) == 0
    ensures forall k: nat :: k < NPDU ==> Pde(t, e, k) == Pde(s, e, k)
  {
    RemoveOk(s, t, e, i, j, None);
    RemoveTables(s, t, e, i, j);
    if Pte(s, e, i, j) != 0 {
      var p := Frame(Pte(s, e, i, j));
      assert Target(s, PteRef(e, i, j)) == Some(p);
      DropHeld(s, t, PteRef(e, i, j), p);
      RemoveMem(s, t, e, i, j);
    }
  }

  lemma RemoveMem(s: Vm, t: Vm, e: nat, i: nat, j: nat)
    requires Shape(s) && SlotOk(s, e, i, j) && t == Remove(s, e, i, j) && Pde(s, e, i) != 0
    requires Pde(t, e, i) == Pde(s, e, i)
    ensures forall p: nat :: User(t, p) && p < |s.mem| ==> t.mem[p] == s.mem[p]
  {
    assert Target(t, TabRef(e, i)) == Some(Frame(Pde(s, e, i)));
  }

  lemma {:induction false} FreePtesOk(s: Vm, t: Vm, e: nat, i: nat, j: nat)
    requires Inv(s) && SlotOk(s, e, i, 0) && j <= NPTE && t == FreePtes(s, e, i, j)
    ensures Shrinks(s, t, e) && Dir(t, e) == Dir(s, e)
    ensures forall k: nat :: k < NPDU ==> Pde(t, e, k) == Pde(s, e, k)
    ensures forall l: nat :: l < NPTE ==> Pte(t, e, i, l) == if l < j then Pte(s, e, i, l) else 0
    decreases NPTE - j
  {
    if j < NPTE {
      var s1 := Remove(s, e, i, j);
      RemoveShrinks(s, s1, e, i, j);
      FreePtesOk(s1, t, e, i, j + 1);
      ShrinksTrans(s, s1, t, e);
    }
  }

  lemma FreeTableTables(s: Vm, t: Vm, e: nat, i: nat)
    requires Shape(s) && Unique(s) && Targets(s) && Bits(s)
    requires SlotOk(s, e, i, 0) && Pde(s, e, i) != 0 && t == FreeTable(s, e, i)
    requires forall l: nat :: l < NPTE ==> Pte(s, e, i, l) == 0
    ensures Shape(t) && Bits(t) && t.dir == s.dir
    ensures forall f: nat, k: nat :: f < NENV && k < NPDU ==> Pde(t, f, k) == if f == e && k == i then 0 else Pde(s, f, k)
    ensures forall f: nat, k: nat, l: nat :: f < NENV && k < NPDU && l < NPTE ==> Pte(t, f, k, l) == Pte(s, f, k, l)
    ensures forall r :: ValidRef(r) && r != TabRef(e, i) ==> Target(t, r) == Target(s, r)
    ensures forall p: nat :: p < |s.mem| && p != Dir(s, e).value ==> t.mem[p] == s.mem[p]
  {
    var d := Dir(s, e).value;
    var u := Store(s, d, i, 0);
    assert Target(s, DirRef(e)) == Some(d) && Target(s, TabRef(e, i)) == Some(Frame(Pde(s, e, i)));
    SetPde(s, u, e, i, 0);
    SameTables(u, t);
  }

  lemma FreeTableOk(s: Vm, t: Vm, e: nat, i: nat)
    requires Inv(s) && SlotOk(s, e, i, 0) && Pde(s, e, i) != 0 && t == FreeTable(s, e, i)
    requires forall l: nat :: l < NPTE ==> Pte(s, e, i, l) == 0
    ensures Shrinks(s, t, e) && Dir(t, e) == Dir(s, e)
    ensures forall k: nat :: k < NPDU ==> Pde(t, e, k) == if k == i then 0 else Pde(s, e, k)
  {
    FreeTableTables(s, t, e, i);
    var r0 := TabRef(e, i);
    var p := Frame(Pde(s, e, i));
    assert Target(s, r0) == Some(p) && r0 in Refs(s, p);
    DropInv(s, t, r0, p, None);
    DropHeld(s, t, r0, p);
    assert Target(t, DirRef(e)) == Dir(s, e);
  }

  lemma FreeDirOk(s: Vm, t: Vm, e: nat)
    requires Inv(s) && e < NENV && Dir(s, e).Some? && t == FreeDir(s, e)
    requires forall k: nat :: k < NPDU ==> Pde(s, e, k) == 0
    ensures Shrinks(s, t, e) && Dir(t, e) == None
  {
    var r0 := DirRef(e);
    var p := Dir(s, e).value;
    assert Target(s, r0) == Some(p) && r0 in Refs(s, p);
    assert forall f: nat, k: nat :: f < NENV && k < NPDU ==> Pde(t, f, k) == Pde(s, f, k);
    assert forall f: nat, k: nat, l: nat :: f < NENV && k < NPDU && l < NPTE ==> Pte(t, f, k, l) == Pte(s, f, k, l);
    assert forall r :: ValidRef(r) && r != r0 ==> Target(t, r) == Target(s, r);
    DropInv(s, t, r0, p, None);
    DropHeld(s, t, r0, p);
  }

  // Directory slots i, i+1, ... are empty; the slots below are as before.
  ghost predicate Cleared(s: Vm, t: Vm, e: nat, i: nat) {
    && Shrinks(s, t, e) && Dir(t, e) == Dir(s, e)
    && forall k: nat :: k < NPDU ==> Pde(t, e, k) == if k < i then Pde(s, e, k) else 0
  }

  lemma FreeOneTable(s: Vm, t: Vm, e: nat, i: nat)
    requires Inv(s) && SlotOk(s, e, i, 0) && t == FreeSlot(s, e, i)
    ensures Shrinks(s, t, e) && Dir(t, e) == Dir(s, e)
    ensures forall k: nat :: k < NPDU ==> Pde(t, e, k) == if k == i then 0 else Pde(s, e, k)
  {
    if Pde(s, e, i) != 0 {
      var s1 := FreePtes(s, e, i, 0);
      FreePtesOk(s, s1, e, i, 0);
      FreeTableOk(s1, t, e, i);
      ShrinksTrans(s, s1, t, e);
    }
  }

  lemma ClearedStep(s: Vm, s1: Vm, t: Vm, e: nat, i: nat)
    requires Inv(s) && Shrinks(s, s1, e) && Dir(s1, e) == Dir(s, e)
    requires forall k: nat :: k < NPDU ==> Pde(s1, e, k) == if k == i then 0 else Pde(s, e, k)
    requires Cleared(s1, t, e, i + 1)
    ensures Cleared(s, t, e, i)
  {
    ShrinksTrans(s, s1, t, e);
  }

  lemma {:induction false} FreeTablesOk(s: Vm, t: Vm, e: nat, i: nat)
    requires Inv(s) && e < NENV && Dir(s, e).Some? && i <= NPDU && t == FreeTables(s, e, i)
    ensures Cleared(s, t, e, i)
    decreases NPDU - i
  {
    if i < NPDU {
      var s1 := FreeSlot(s, e, i);
      FreeOneTable(s, s1, e, i);
      FreeTablesOk(s1, t, e, i + 1);
      ClearedStep(s, s1, t, e, i);
    }
  }

  /** env_free: the free set gains exactly the pages that only `e` referenced, every other
      page loses exactly the references of `e`, and every other address space is unchanged. */
  lemma EnvFreeOk(s: Vm, t: Vm, e: nat)
    requires Inv(s) && e < NENV && Dir(s, e).Some? && t == EnvFree(s, e)
    ensures Inv(t) && t.pool == s.pool && |t.mem| == |s.mem| && Dir(t, e) == None && Held(t) == Held(s)
    ensures forall p :: p in t.free <==> p in s.free || (Refs(s, p) != {} && forall r :: r in Refs(s, p) ==> r.e == e)
    ensures forall p :: p in t.pool ==> t.ref[p] == |set r | r in Refs(s, p) && r.e != e|
    ensures forall f: nat :: f < NENV && f != e ==> Dir(t, f) == Dir(s, f)
    ensures forall f: nat, k: nat, l: nat :: f < NENV && f != e && k < NPDU && l < NPTE ==> Pte(t, f, k, l) == Pte(s, f, k, l)
    ensures forall p: nat :: User(t, p) && p < |s.mem| ==> t.mem[p] == s.mem[p]
  {
    var s1 := FreeTables(s, e, 0);
    FreeTablesOk(s, s1, e, 0);
    FreeDirOk(s1, t, e);
    ShrinksTrans(s, s1, t, e);
    forall f: nat | f < NENV && f != e ensures Dir(t, f) == Dir(s, f) {
      assert Target(t, DirRef(f)) == Target(s, DirRef(f));
    }
    FreedPages(s, t, e);
  }

  lemma FreedPages(s: Vm, t: Vm, e: nat)
    requires Inv(s) && Shrinks(s, t, e) && e < NENV && Dir(t, e) == None
    ensures forall p :: p in t.free <==> p in s.free || (Refs(s, p) != {} && forall r :: r in Refs(s, p) ==> r.e == e)
    ensures forall p :: p in t.pool ==> t.ref[p] == |set r | r in Refs(s, p) && r.e != e|
  {
    assert forall r :: ValidRef(r) && r.e == e ==> Target(t, r) == None;
    forall p ensures Refs(t, p) == set r | r in Refs(s, p) && r.e != e {
    }
    forall p ensures p in t.free <==> p in s.free || (Refs(s, p) != {} && forall r :: r in Refs(s, p) ==> r.e == e) {
      InPool(s, p);
      InPool(t, p);
    }
  }

  // Every allocator page is free, or referenced, or in hand.
  lemma InPool(s: Vm, p: nat)
    requires Inv(s)
    ensures p in s.pool <==> p in s.free || Refs(s, p) != {} || p in Held(s)
    ensures p in s.free ==> Refs(s, p) == {} && p !in Held(s)
  {
    if Refs(s, p) != {} {
      var r :| r in Refs(s, p);
    }
  }
}
