/** The page tables seen as a plain map from virtual page number to (page, permissions),
    the two page system calls on top of it, and runs of all operations. */
module AddressSpace {
  import opened Base
  import opened Paging

  const NVPN: nat := 977920   // virtual pages below UTOP: NPDU * NPTE

  function Pdx(v: nat): nat { v / NPTE }
  function Ptx(v: nat): nat { v % NPTE }

  datatype Mapping = Mapping(page: nat, perm: nat)

  function EntryAt(s: Vm, e: nat, v: nat): nat { Pte(s, e, Pdx(v), Ptx(v)) }

  ghost function View(s: Vm, e: nat): map<nat, Mapping> {
    map v: nat | v < NVPN && EntryAt(s, e, v) != 0 :: Mapping(Frame(EntryAt(s, e, v)), Perm(EntryAt(s, e, v)))
  }

  lemma Vpn(v: nat)
    requires v < NVPN
    ensures Pdx(v) < NPDU && Ptx(v) < NPTE && v == Pdx(v) * NPTE + Ptx(v)
  {
  }

  lemma SameView(s: Vm, t: Vm, e: nat)
    requires forall v: nat :: v < NVPN ==> EntryAt(t, e, v) == EntryAt(s, e, v)
    ensures View(t, e) == View(s, e)
  {
  }

  ghost predicate OthersSame(s: Vm, t: Vm, e: nat, v: nat) {
    && t.dir == s.dir
    && forall f: nat, u: nat :: f < NENV && u < NVPN && !(f == e && u == v) ==> EntryAt(t, f, u) == EntryAt(s, f, u)
  }

  // One slot of one address space differs: the maps differ at that key only.
  lemma OneSlot(s: Vm, t: Vm, e: nat, v: nat)
    requires v < NVPN && e < NENV && SameButOne(s, t, e, Pdx(v), Ptx(v))
    ensures OthersSame(s, t, e, v)
  {
    Vpn(v);
    forall f: nat, u: nat | f < NENV && u < NVPN && !(f == e && u == v) ensures EntryAt(t, f, u) == EntryAt(s, f, u) {
      Vpn(u);
    }
  }

  lemma ViewWith(s: Vm, t: Vm, e: nat, v: nat, m: Mapping)
    requires e < NENV && v < NVPN && OthersSame(s, t, e, v) && EntryAt(t, e, v) != 0
    requires m == Mapping(Frame(EntryAt(t, e, v)), Perm(EntryAt(t, e, v)))
    ensures View(t, e) == View(s, e)[v := m]
  {
  }

  /** page_insert is a map update of one key, and a failed call changes nothing. */
  lemma InsertRefines(s: Vm, t: Vm, ok: bool, pp: nat, e: nat, v: nat, perm: nat)
    requires Inv(s) && v < NVPN && e < NENV && Dir(s, e).Some? && User(s, pp) && perm < PGSIZE
    requires s.ref[pp] < REFWRAP - 1 && (t, ok) == Insert(s, pp, e, Pdx(v), Ptx(v), perm)
    ensures Inv(t) && (ok <==> Pde(s, e, Pdx(v)) != 0 || s.free != []) && (!ok ==> t == s)
    ensures ok ==> View(t, e) == View(s, e)[v := Mapping(pp, PermP(perm))]
    ensures forall f: nat :: f < NENV && f != e ==> View(t, f) == View(s, f)
    ensures SameUserPages(s, t) && OthersSame(s, t, e, v) && (ok ==> EntryAt(t, e, v) == Entry(pp, perm))
    ensures ok ==> TableTaken(s, t, e, Pdx(v))
    ensures ok && (EntryAt(s, e, v) == 0 || Frame(EntryAt(s, e, v)) == pp) ==> FreeTaken(s, t, e, Pdx(v))
    ensures ok && EntryAt(s, e, v) != 0 && Frame(EntryAt(s, e, v)) != pp ==> GivenBack(s, t, Frame(EntryAt(s, e, v)))
  {
    Vpn(v);
    InsertOk(s, t, ok, pp, e, Pdx(v), Ptx(v), perm);
    OneSlot(s, t, e, v);
    EntryWord(pp, perm);
    if ok {
      ViewWith(s, t, e, v, Mapping(pp, PermP(perm)));
    }
    forall f: nat | f < NENV && f != e ensures View(t, f) == View(s, f) {
      SameView(s, t, f);
    }
  }

  lemma ViewWithout(s: Vm, t: Vm, e: nat, v: nat)
    requires EntryAt(t, e, v) == 0
    requires forall u: nat :: u < NVPN && u != v ==> EntryAt(t, e, u) == EntryAt(s, e, u)
    ensures View(t, e) == View(s, e) - {v}
  {
  }

  /** page_remove deletes one key. */
  lemma RemoveRefines(s: Vm, t: Vm, e: nat, v: nat)
    requires Inv(s) && v < NVPN && e < NENV && Dir(s, e).Some? && t == Remove(s, e, Pdx(v), Ptx(v))
    ensures Inv(t) && View(t, e) == View(s, e) - {v} && SameUserPages(s, t)
    ensures OthersSame(s, t, e, v) && EntryAt(t, e, v) == 0
    ensures forall f: nat :: f < NENV && f != e ==> View(t, f) == View(s, f)
    ensures forall f: nat, k: nat :: f < NENV && k < NPDU ==> Pde(t, f, k) == Pde(s, f, k)
    ensures EntryAt(s, e, v) != 0 ==> GivenBack(s, t, Frame(EntryAt(s, e, v)))
  {
    Vpn(v);
    RemoveOk(s, t, e, Pdx(v), Ptx(v), None);
    OneSlot(s, t, e, v);
    ViewWithout(s, t, e, v);
    forall f: nat | f < NENV && f != e ensures View(t, f) == View(s, f) {
      SameView(s, t, f);
    }
  }

  /** page_lookup reads the map; its test `*pte && PTE_P` is the test of the present bit. */
  lemma LookupRefines(s: Vm, e: nat, v: nat)
    requires Inv(s) && v < NVPN && e < NENV
    ensures Lookup(s, e, Pdx(v), Ptx(v)) == if v in View(s, e) then Some(View(s, e)[v].page) else None
    ensures EntryAt(s, e, v) != 0 <==> EntryAt(s, e, v) % 2 == 1
  {
    Vpn(v);
  }

  /** pgdir_walk creates tables without changing any map. */
  lemma WalkRefines(s: Vm, t: Vm, ok: bool, e: nat, v: nat, create: bool)
    requires Inv(s) && v < NVPN && e < NENV && Dir(s, e).Some? && (t, ok) == Walk(s, e, Pdx(v), create)
    ensures Inv(t) && forall f: nat :: f < NENV ==> View(t, f) == View(s, f)
    ensures ok <==> Pde(s, e, Pdx(v)) != 0 || (create && s.free != [])
  {
    Vpn(v);
    WalkOk(s, t, ok, e, Pdx(v), create);
    forall f: nat | f < NENV ensures View(t, f) == View(s, f) {
      forall u: nat | u < NVPN ensures EntryAt(t, f, u) == EntryAt(s, f, u) {
        Vpn(u);
      }
      SameView(s, t, f);
    }
  }

  // ---------------------------------------------------------------- system calls

  // check_perm(perm, NULL) == 0: no bit outside PTE_SYSCALL (0xE07), and both P and U.
  predicate PermOk(perm: nat) {
    perm < PGSIZE && (perm / 8) % 64 == 0 && perm % 2 == 1 && (perm / 4) % 2 == 1
  }

  predicate Writable(w: nat) { (w / 2) % 2 == 1 }

  // env_page_alloc
  function EnvPageAlloc(s: Vm, e: nat, v: nat, perm: nat): (Vm, int) {
    if !PermOk(perm) then (s, E_INVAL) else
    var (s1, p) := Alloc(s, true);
    if p.None? then (s1, E_NO_MEM) else
    var (t, ok) := Insert(s1, p.value, e, Pdx(v), Ptx(v), perm);
    (t, if ok then 0 else E_NO_MEM)
  }

  // env_page_map
  function EnvPageMap(s: Vm, se: nat, sv: nat, de: nat, dv: nat, perm: nat): (Vm, int) {
    match Lookup(s, se, Pdx(sv), Ptx(sv))
    case None => (s, E_INVAL)
    case Some(p) =>
      if Writable(perm) && !Writable(EntryAt(s, se, sv)) then (s, E_INVAL) else
      var (t, ok) := Insert(s, p, de, Pdx(dv), Ptx(dv), perm);
      (t, if ok then 0 else E_NO_MEM)
  }

  // The page is allocated but its page table cannot be: the page stays in hand for ever.
  predicate LosesPage(s: Vm, e: nat, v: nat) {
    |s.free| == 1 && Pde(s, e, Pdx(v)) == 0
  }

  // The pages that a new page at a slot takes: its own and perhaps a table, less the page that
  // was there if nobody else maps it.
  function AllocCost(s: Vm, e: nat, v: nat): nat {
    if Pde(s, e, Pdx(v)) == 0 then 2
    else if EntryAt(s, e, v) != 0 && RefCount(s, Frame(EntryAt(s, e, v))) == 1 then 0
    else 1
  }

  /** env_page_alloc maps one fresh zeroed page or fails; a failure leaves every map as it
      was, but it loses a page exactly when that page was the last one and a table was missing. */
  lemma EnvPageAllocOk(s: Vm, t: Vm, r: int, e: nat, v: nat, perm: nat)
    requires Inv(s) && v < NVPN && e < NENV && Dir(s, e).Some? && (t, r) == EnvPageAlloc(s, e, v, perm)
    ensures Inv(t) && SameUserPages(s, t) && t.dir == s.dir
    ensures r == if !PermOk(perm) then E_INVAL else if s.free == [] || LosesPage(s, e, v) then E_NO_MEM else 0
    ensures r == 0 ==> View(t, e) == View(s, e)[v := Mapping(s.free[0], perm)] && EntryAt(t, e, v) == Entry(s.free[0], perm)
                       && s.free[0] < |t.mem| && t.mem[s.free[0]] == ZeroPage()
    ensures OthersSame(s, t, e, v)
    ensures r != 0 ==> View(t, e) == View(s, e)
    ensures forall f: nat :: f < NENV && f != e ==> View(t, f) == View(s, f)
    ensures r != 0 && !LosesPage(s, e, v) ==> t == s
    ensures r == 0 ==> TableTaken(s, t, e, Pdx(v))
    ensures r == 0 ==> |t.free| + AllocCost(s, e, v) == |s.free|
    ensures PermOk(perm) && LosesPage(s, e, v) ==> t.free == [] && Held(t) == Held(s) + {s.free[0]}
  {
    if PermOk(perm) && s.free != [] {
      Vpn(v);
      var (s1, p) := Alloc(s, true);
      AllocOk(s, s1, p, true);
      assert s1.free == s.free[1..];
      InsertRefines(s1, t, r == 0, p.value, e, v, perm);
      AllocViews(s, s1);
      AllocUserPages(s, s1, t);
      if r != 0 {
        assert Held(t) == Held(s) + {p.value};
      }
    }
  }

  lemma AllocViews(s: Vm, s1: Vm)
    requires forall e: nat, i: nat, j: nat :: e < NENV && i < NPDU && j < NPTE ==> Pte(s1, e, i, j) == Pte(s, e, i, j)
    ensures forall f: nat, u: nat :: f < NENV && u < NVPN ==> EntryAt(s1, f, u) == EntryAt(s, f, u)
    ensures forall f: nat :: f < NENV ==> View(s1, f) == View(s, f)
  {
    forall f: nat, u: nat | f < NENV && u < NVPN ensures EntryAt(s1, f, u) == EntryAt(s, f, u) {
      Vpn(u);
    }
    forall f: nat | f < NENV ensures View(s1, f) == View(s, f) {
      SameView(s, s1, f);
    }
  }

  lemma AllocUserPages(s: Vm, s1: Vm, t: Vm)
    requires SameUserPages(s, s1) && SameUserPages(s1, t) && s.free != [] && s1.free == s.free[1..]
    requires forall r :: ValidRef(r) ==> Target(s1, r) == Target(s, r)
    ensures SameUserPages(s, t)
  {
    forall q: nat | User(s, q) ensures User(s1, q) {
    }
    SameUserPagesTrans(s, s1, t);
  }

  /** env_page_map shares the source page, never adding write permission to a read-only one. */
  lemma EnvPageMapOk(s: Vm, t: Vm, r: int, se: nat, sv: nat, de: nat, dv: nat, perm: nat)
    requires Inv(s) && sv < NVPN && dv < NVPN && se < NENV && de < NENV && Dir(s, de).Some? && perm < PGSIZE
    requires (t, r) == EnvPageMap(s, se, sv, de, dv, perm)
    requires sv in View(s, se) ==> RefCount(s, View(s, se)[sv].page) < REFWRAP - 1
    ensures Inv(t) && SameUserPages(s, t) && t.dir == s.dir && (r != 0 ==> t == s)
    ensures r == E_INVAL <==> sv !in View(s, se) || (Writable(perm) && !Writable(View(s, se)[sv].perm))
    ensures r == E_NO_MEM <==> r != E_INVAL && Pde(s, de, Pdx(dv)) == 0 && s.free == []
    ensures r == 0 || r == E_INVAL || r == E_NO_MEM
    ensures r == 0 ==> View(t, de) == View(s, de)[dv := Mapping(View(s, se)[sv].page, PermP(perm))]
                       && EntryAt(t, de, dv) == Entry(View(s, se)[sv].page, perm)
    ensures OthersSame(s, t, de, dv)
    ensures r == 0 ==> TableTaken(s, t, de, Pdx(dv))
    ensures r == 0 && (EntryAt(s, de, dv) == 0 || Frame(EntryAt(s, de, dv)) == View(s, se)[sv].page) ==>
              FreeTaken(s, t, de, Pdx(dv))
    ensures r == 0 && EntryAt(s, de, dv) != 0 && Frame(EntryAt(s, de, dv)) != View(s, se)[sv].page ==>
              GivenBack(s, t, Frame(EntryAt(s, de, dv)))
    ensures forall f: nat :: f < NENV && f != de ==> View(t, f) == View(s, f)
  {
    LookupRefines(s, se, sv);
    Vpn(sv);
    Vpn(dv);
    if sv in View(s, se) {
      var w := EntryAt(s, se, sv);
      WritableFlag(w);
      MappedIsUser(s, se, sv);
      if !(Writable(perm) && !Writable(w)) {
        InsertRefines(s, t, r == 0, Frame(w), de, dv, perm);
      }
    }
  }

  // The page transfer of sys_ipc_try_send, with `perm` after its `|= PTE_U | PTE_P`: `de` first
  // gets a page of its own at dv, which the sender's page then replaces.
  function IpcPage(s: Vm, se: nat, sv: nat, de: nat, dv: nat, perm: nat): (Vm, int) {
    if Writable(perm) && !Writable(EntryAt(s, se, sv)) then (s, E_INVAL) else
    var (s1, r) := EnvPageAlloc(s, de, dv, perm);
    if r < 0 then (s1, r) else EnvPageMap(s1, se, sv, de, dv, perm)
  }

  /** A page sent by message: the receiver's map gains the sender's page at the one address
      it asked for, and a send that fails changes no map at all. */
  lemma IpcPageOk(s: Vm, t: Vm, r: int, se: nat, sv: nat, de: nat, dv: nat, perm: nat)
    requires Inv(s) && Live(s, se, sv) && Live(s, de, dv) && se != de && sv in View(s, se) && perm < PGSIZE
    requires RefCount(s, View(s, se)[sv].page) < REFWRAP - 1 && (t, r) == IpcPage(s, se, sv, de, dv, perm)
    ensures Inv(t) && t.dir == s.dir && t.pool == s.pool && SamePage(s, t, View(s, se)[sv].page)
    ensures r == if (Writable(perm) && !Writable(View(s, se)[sv].perm)) || !PermOk(perm) then E_INVAL
                 else if s.free == [] || LosesPage(s, de, dv) then E_NO_MEM else 0
    ensures View(t, de) == if r == 0 then View(s, de)[dv := Mapping(View(s, se)[sv].page, perm)] else View(s, de)
    ensures forall f: nat :: f < NENV && f != de ==> View(t, f) == View(s, f)
  {
    WritableFlag(EntryAt(s, se, sv));
    MappedIsUser(s, se, sv);
    if !(Writable(perm) && !Writable(EntryAt(s, se, sv))) {
      var (s1, r1) := EnvPageAlloc(s, de, dv, perm);
      EnvPageAllocOk(s, s1, r1, de, dv, perm);
      if r1 == 0 {
        IpcMapOk(s, s1, t, r, se, sv, de, dv, perm);
      }
    }
  }

  ghost predicate SamePage(s: Vm, t: Vm, p: nat) { p < |s.mem| && p < |t.mem| && t.mem[p] == s.mem[p] }

  lemma IpcMapOk(s: Vm, s1: Vm, t: Vm, r: int, se: nat, sv: nat, de: nat, dv: nat, perm: nat)
    requires Inv(s) && Live(s, se, sv) && Live(s, de, dv) && se != de && sv in View(s, se) && PermOk(perm)
    requires RefCount(s, View(s, se)[sv].page) < REFWRAP - 1 && (Writable(perm) ==> Writable(View(s, se)[sv].perm))
    requires Inv(s1) && OthersSame(s, s1, de, dv) && SameUserPages(s, s1) && TableTaken(s, s1, de, Pdx(dv))
    requires s.free != [] && EntryAt(s1, de, dv) == Entry(s.free[0], perm) && View(s1, se) == View(s, se)
    requires View(s1, de) == View(s, de)[dv := Mapping(s.free[0], perm)]
    requires forall f: nat :: f < NENV && f != de ==> View(s1, f) == View(s, f)
    requires (t, r) == EnvPageMap(s1, se, sv, de, dv, perm)
    ensures Inv(t) && t.dir == s.dir && t.pool == s.pool && SamePage(s, t, View(s, se)[sv].page) && r == 0
    ensures View(t, de) == View(s, de)[dv := Mapping(View(s, se)[sv].page, perm)]
    ensures forall f: nat :: f < NENV && f != de ==> View(t, f) == View(s, f)
  {
    SourceStays(s, s1, se, sv, de, dv, perm);
    EnvPageMapOk(s1, t, r, se, sv, de, dv, perm);
    MapTwice(View(s, de), dv, Mapping(s.free[0], perm), Mapping(View(s, se)[sv].page, perm));
  }

  lemma MapTwice(m: map<nat, Mapping>, v: nat, a: Mapping, b: Mapping)
    ensures m[v := a][v := b] == m[v := b]
  {
  }

  // The sender's page is still data after the allocation, with no more references.
  lemma SourceStays(s: Vm, s1: Vm, se: nat, sv: nat, de: nat, dv: nat, perm: nat)
    requires Inv(s) && Inv(s1) && Live(s, se, sv) && de < NENV && OthersSame(s, s1, de, dv) && SameUserPages(s, s1)
    requires View(s1, se) == View(s, se) && sv in View(s, se)
    requires s.free != [] && perm < PGSIZE && EntryAt(s1, de, dv) == Entry(s.free[0], perm)
    ensures User(s1, View(s, se)[sv].page) && SamePage(s, s1, View(s, se)[sv].page)
    ensures RefCount(s1, View(s, se)[sv].page) <= RefCount(s, View(s, se)[sv].page)
  {
    MappedIsUser(s, se, sv);
    MappedIsUser(s1, se, sv);
    EntryWord(s.free[0], perm);
    RefsShrink(s, s1, de, dv, View(s, se)[sv].page);
  }

  // Remapping one slot to another page adds no reference to a page that is data before and after.
  lemma RefsShrink(s: Vm, t: Vm, e: nat, v: nat, p: nat)
    requires Inv(s) && Inv(t) && OthersSame(s, t, e, v) && User(s, p) && User(t, p) && Frame(EntryAt(t, e, v)) != p
    ensures RefCount(t, p) <= RefCount(s, p)
  {
    forall r | r in Refs(t, p) ensures r in Refs(s, p) {
      var u := r.i * NPTE + r.j;
      assert Pdx(u) == r.i && Ptx(u) == r.j;
      assert EntryAt(t, r.e, u) != 0 && EntryAt(t, r.e, u) == EntryAt(s, r.e, u);
    }
    SubsetSize(Refs(t, p), Refs(s, p));
  }

  lemma {:induction false} SubsetSize<T>(a: set<T>, b: set<T>)
    requires a <= b
    ensures |a| <= |b|
  {
    if a != {} {
      var x :| x in a;
      SubsetSize(a - {x}, b - {x});
    }
  }

  lemma WritableFlag(w: nat)
    ensures Writable(Perm(w)) == Writable(w)
  {
    assert w / 2 == 2048 * Frame(w) + Perm(w) / 2;
  }

  lemma MappedIsUser(s: Vm, e: nat, v: nat)
    requires Inv(s) && e < NENV && v in View(s, e)
    ensures User(s, View(s, e)[v].page) && View(s, e)[v].page < |s.ref|
  {
    Vpn(v);
    var r0 := PteRef(e, Pdx(v), Ptx(v));
    assert Target(s, r0) == Some(View(s, e)[v].page);
  }

  // A store by user code, which the MMU lets through for a present, writable, user entry.
  function UserStore(s: Vm, e: nat, v: nat, k: nat, w: nat): Vm {
    var pte := EntryAt(s, e, v);
    if pte % 2 == 1 && Writable(pte) && (pte / 4) % 2 == 1 then Store(s, Frame(pte), k, w) else s
  }

  /** User code cannot reach a table through its own pages: a store changes one word of
      one data page and no mapping at all. */
  lemma UserStoreOk(s: Vm, t: Vm, e: nat, v: nat, k: nat, w: nat)
    requires Inv(s) && v < NVPN && e < NENV && t == UserStore(s, e, v, k, w)
    ensures Inv(t) && t.dir == s.dir && t.ref == s.ref && t.free == s.free && t.pool == s.pool && t.kern == s.kern
    ensures forall f: nat, i: nat, j: nat :: f < NENV && i < NPDU && j < NPTE ==> Pte(t, f, i, j) == Pte(s, f, i, j)
    ensures forall r :: ValidRef(r) ==> Target(t, r) == Target(s, r)
    ensures forall p: nat :: p < |s.mem| && !(v in View(s, e) && p == View(s, e)[v].page) ==> t.mem[p] == s.mem[p]
  {
    Vpn(v);
    if EntryAt(s, e, v) != 0 {
      MappedIsUser(s, e, v);
      FrameMem(s, t, Frame(EntryAt(s, e, v)));
      SameRefs(s, t);
    }
  }

  // ---------------------------------------------------------------- whole runs

  datatype Op =
    | Setup(e: nat)
    | Free(e: nat)
    | PageAlloc(e: nat, v: nat, perm: nat)
    | PageMap(e: nat, sv: nat, de: nat, v: nat, perm: nat)
    | SendPage(e: nat, sv: nat, de: nat, v: nat, perm: nat)   // a message to a waiting `de`
    | Unmap(e: nat, v: nat)
    | UserWrite(e: nat, v: nat, k: nat, w: nat)

  predicate Live(s: Vm, e: nat, v: nat) { e < NENV && Dir(s, e).Some? && v < NVPN }

  // The kernel's own checks: envid2env, va < UTOP, and a free slot for a new environment; a
  // page is sent by an environment that has one there, to another that waits.
  function Apply(s: Vm, op: Op): Vm {
    match op
    case Setup(e) => if e < NENV && Dir(s, e).None? then SetupVm(s, e).0 else s
    case Free(e) => if Live(s, e, 0) then EnvFree(s, e) else s
    case PageAlloc(e, v, perm) => if Live(s, e, v) then EnvPageAlloc(s, e, v, perm).0 else s
    case PageMap(e, sv, de, v, perm) =>
      if Live(s, e, sv) && Live(s, de, v) && perm < PGSIZE then EnvPageMap(s, e, sv, de, v, perm).0 else s
    case SendPage(e, sv, de, v, perm) =>
      if Live(s, e, sv) && Live(s, de, v) && e != de && perm < PGSIZE && EntryAt(s, e, sv) != 0
      then IpcPage(s, e, sv, de, v, perm).0 else s
    case Unmap(e, v) => if Live(s, e, v) then Remove(s, e, Pdx(v), Ptx(v)) else s
    case UserWrite(e, v, k, w) => if Live(s, e, v) then UserStore(s, e, v, k, w) else s
  }

  // pp_ref has 16 bits: no page may be mapped 65535 times or more.
  ghost predicate Room(s: Vm) { forall p :: 0 <= p < |s.ref| ==> s.ref[p] < REFWRAP - 1 }

  ghost function Run(s: Vm, ops: seq<Op>): Vm
    decreases |ops|
  {
    if ops == [] then s else Run(Apply(s, ops[0]), ops[1..])
  }

  ghost predicate RoomRun(s: Vm, ops: seq<Op>)
    decreases |ops|
  {
    Room(s) && (ops != [] ==> RoomRun(Apply(s, ops[0]), ops[1..]))
  }

  // After boot: no environment, and every allocator page on the free list once.
  ghost predicate Boot(s: Vm) {
    && Shape(s) && FreeOk(s)
    && (forall p :: p in s.pool ==> p in s.free)
    && (forall e :: 0 <= e < NENV ==> s.dir[e] == None)
  }

  lemma BootOk(s: Vm)
    requires Boot(s)
    ensures Inv(s)
  {
    assert forall r :: Target(s, r) == None;
    assert forall p :: Refs(s, p) == {};
    forall p | p in s.pool ensures s.ref[p] == 0 {
      var k :| 0 <= k < |s.free| && s.free[k] == p;
    }
  }

  lemma ApplyOk(s: Vm, op: Op)
    requires Inv(s) && Room(s)
    ensures Inv(Apply(s, op)) && Apply(s, op).pool == s.pool
  {
    var t := Apply(s, op);
    match op
    case Setup(e) => if e < NENV && Dir(s, e).None? { SetupOk(s, t, SetupVm(s, e).1, e); }
    case Free(e) => if Live(s, e, 0) { EnvFreeOk(s, t, e); }
    case PageAlloc(e, v, perm) => if Live(s, e, v) { EnvPageAllocOk(s, t, EnvPageAlloc(s, e, v, perm).1, e, v, perm); }
    case PageMap(e, sv, de, v, perm) =>
      if Live(s, e, sv) && Live(s, de, v) && perm < PGSIZE {
        EnvPageMapOk(s, t, EnvPageMap(s, e, sv, de, v, perm).1, e, sv, de, v, perm);
      }
    case SendPage(e, sv, de, v, perm) =>
      if Live(s, e, sv) && Live(s, de, v) && e != de && perm < PGSIZE && EntryAt(s, e, sv) != 0 {
        MappedIsUser(s, e, sv);
        IpcPageOk(s, t, IpcPage(s, e, sv, de, v, perm).1, e, sv, de, v, perm);
      }
    case Unmap(e, v) => if Live(s, e, v) { RemoveRefines(s, t, e, v); }
    case UserWrite(e, v, k, w) => if Live(s, e, v) { UserStoreOk(s, t, e, v, k, w); }
  }

  /** In every state that any sequence of operations reaches from boot, each count is the
      number of references, the free list is duplicate-free and unreferenced, tables and
      directories are never user data, and every allocator page is free, referenced or held. */
  lemma {:induction false} RunKeepsInv(s: Vm, ops: seq<Op>)
    requires Inv(s) && RoomRun(s, ops)
    ensures Inv(Run(s, ops)) && Run(s, ops).pool == s.pool
    decreases |ops|
  {
    if ops != [] {
      ApplyOk(s, ops[0]);
      RunKeepsInv(Apply(s, ops[0]), ops[1..]);
    }
  }

  /** The same from boot, spelled out for one page `p`. */
  lemma Reachable(s: Vm, ops: seq<Op>, p: nat)
    requires Boot(s) && RoomRun(s, ops) && p in s.pool
    ensures var t := Run(s, ops);
            && p < |t.ref| && t.ref[p] == |Refs(t, p)| && p in t.pool
            && (p in t.free <==> Refs(t, p) == {} && p !in Held(t))
            && (forall r, q :: r in Refs(t, p) && q in Refs(t, p) && r != q ==> r.PteRef? && q.PteRef?)
            && |t.free| <= |t.pool|
  {
    BootOk(s);
    RunKeepsInv(s, ops);
    var t := Run(s, ops);
    InPool(t, p);
    NoDupLength(t.free, t.pool);
  }

  lemma {:induction false} NoDupLength(f: seq<nat>, pool: set<nat>)
    requires forall k :: 0 <= k < |f| ==> f[k] in pool
    requires forall k, l :: 0 <= k < l < |f| ==> f[k] != f[l]
    ensures |f| <= |pool|
  {
    if f != [] {
      var last := f[|f| - 1];
      NoDupLength(f[..|f| - 1], pool - {last});
    }
  }
}
