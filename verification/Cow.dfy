/** Copy-on-write fork (sched/lib/fork.c) on top of the page tables, against a reference in
    which every environment has a private memory and fork copies it.

    A step is one action of one environment; steps of different environments interleave
    freely, inside a fork and inside a fault handler too.  A step that runs out of memory
    panics, and the run ends. */
module Cow {
  import opened Base
  import opened Paging
  import opened AddressSpace

  const PTE_COW := 2048
  const PFTEMP: nat := 2047       // (UTEMP + PTSIZE - PGSIZE) >> PGSHIFT
  const XSTACK: nat := 977919     // (UXSTACKTOP >> PGSHIFT) - 1
  const RW := 7                   // PTE_P | PTE_U | PTE_W

  predicate IsCow(w: nat) { (w / PTE_COW) % 2 == 1 }
  predicate IsUser(w: nat) { (w / 4) % 2 == 1 }
  predicate IsIo(w: nat) { (w / 8) % 2 == 1 || (w / 16) % 2 == 1 }   // PTE_PWT, PTE_PCD

  // ---------------------------------------------------------------- fork.c

  // sys_page_map by number of virtual page; None when the call fails and its caller panics.
  function MapPage(s: Vm, se: nat, sv: nat, de: nat, dv: nat, perm: nat): Option<Vm> {
    var (t, r) := EnvPageMap(s, se, sv, de, dv, perm);
    if r == 0 then Some(t) else None
  }

  function AllocPage(s: Vm, e: nat, v: nat, perm: nat): Option<Vm> {
    var (t, r) := EnvPageAlloc(s, e, v, perm);
    if r == 0 then Some(t) else None
  }

  // PTE_U | PTE_P, and the cache bits when the parent's entry has one of them.
  function DupPerm(pte: nat): nat { if IsIo(pte) then 29 else 5 }

  function DupPage(s: Vm, p: nat, c: nat, v: nat): Option<Vm> {
    var pte := EntryAt(s, p, v);
    if pte % 2 == 0 || !IsUser(pte) then None
    else if Writable(pte) || IsCow(pte) then
      match MapPage(s, p, v, c, v, DupPerm(pte) + PTE_COW)
      case None => None
      case Some(s1) => MapPage(s1, p, v, p, v, DupPerm(pte) + PTE_COW)
    else
      MapPage(s, p, v, c, v, DupPerm(pte))
  }

  // memmove of one page through the mappings of `e`.
  function CopyPage(s: Vm, e: nat, dst: nat, src: nat): Vm {
    var p := Frame(EntryAt(s, e, dst));
    var q := Frame(EntryAt(s, e, src));
    if p < |s.mem| && q < |s.mem| then s.(mem := s.mem[p := s.mem[q]]) else s
  }

  // The handler, run without interruption.  Its first test combines FEC_WR (2) with a 0/1
  // value and never holds, so the page is copied whatever its PTE_COW bit says.
  function PgFault(s: Vm, e: nat, v: nat): Option<Vm> {
    match AllocPage(s, e, PFTEMP, RW)
    case None => None
    case Some(s1) =>
      match MapPage(CopyPage(s1, e, PFTEMP, v), e, PFTEMP, e, v, RW)
      case None => None
      case Some(s2) => Some(Remove(s2, e, Pdx(PFTEMP), Ptx(PFTEMP)))
  }

  // How far the handler of one environment has come: page allocated at PFTEMP, contents
  // copied there, page mapped at the faulting slot as well.
  datatype Stage = Allocated | Copied | Moved
  datatype Fault = Fault(v: nat, stage: Stage)

  // The environments inside their handler.
  type Faults = map<nat, Fault>

  // ---------------------------------------------------------------- contents

  function PageOf(s: Vm, p: nat): seq<nat> { if p < |s.mem| then s.mem[p] else [] }

  predicate Mapped(s: Vm, e: nat, v: nat) { e < NENV && v < NVPN && EntryAt(s, e, v) != 0 }

  function FrameAt(s: Vm, e: nat, v: nat): nat { Frame(EntryAt(s, e, v)) }

  // What environment f reads at u, if anything.
  ghost function Reads(s: Vm, f: nat, u: nat): Option<seq<nat>> {
    if EntryAt(s, f, u) == 0 then None else Some(PageOf(s, FrameAt(s, f, u)))
  }

  // What environment `e` reads at each of its virtual pages; PFTEMP is the handler's.
  ghost function Data(s: Vm, e: nat): map<nat, seq<nat>> {
    map v: nat | v < NVPN && v != PFTEMP && EntryAt(s, e, v) != 0 :: PageOf(s, FrameAt(s, e, v))
  }

  // ---------------------------------------------------------------- the invariant

  // The temporary slot and the faulting slot, once the handler has mapped its page at both.
  predicate Twins(faults: Faults, e: nat, v: nat, u: nat) {
    && e in faults && faults[e].stage.Moved?
    && ((v == PFTEMP && u == faults[e].v) || (u == PFTEMP && v == faults[e].v))
  }

  // A page is mapped at one virtual page number only, in however many environments, and a
  // page at PFTEMP in one environment only; the exception is the pair above.
  predicate MayShare(faults: Faults, e: nat, v: nat, f: nat, u: nat) {
    (v == u && (e == f || v != PFTEMP)) || (e == f && Twins(faults, e, v, u))
  }

  ghost predicate Sharing(s: Vm, faults: Faults) {
    forall e: nat, f: nat, v: nat, u: nat :: Mapped(s, e, v) && Mapped(s, f, u) && FrameAt(s, e, v) == FrameAt(s, f, u) ==>
      MayShare(faults, e, v, f, u)
  }

  // A page mapped by two environments is writable in neither.
  ghost predicate SharedReadOnly(s: Vm) {
    forall e: nat, f: nat, v: nat :: Mapped(s, e, v) && Mapped(s, f, v) && e != f && FrameAt(s, e, v) == FrameAt(s, f, v) ==>
      !Writable(EntryAt(s, e, v))
  }

  ghost predicate UserBits(s: Vm) {
    forall e: nat, v: nat :: Mapped(s, e, v) ==> EntryAt(s, e, v) % 2 == 1 && IsUser(EntryAt(s, e, v))
  }

  ghost predicate FaultOk(s: Vm, e: nat, h: Fault) {
    && h.v != PFTEMP && Mapped(s, e, h.v) && Mapped(s, e, PFTEMP) && Writable(EntryAt(s, e, PFTEMP))
    && (h.stage.Copied? ==> Reads(s, e, PFTEMP) == Reads(s, e, h.v))
    && (h.stage.Moved? ==> FrameAt(s, e, PFTEMP) == FrameAt(s, e, h.v) && Writable(EntryAt(s, e, h.v)))
  }

  // The temporary slot is in use exactly inside the handler.
  ghost predicate Handlers(s: Vm, faults: Faults) {
    && (forall e :: e in faults ==> FaultOk(s, e, faults[e]))
    && (forall e: nat :: Mapped(s, e, PFTEMP) ==> e in faults)
  }

  // The invariant without its permission part, which duppage breaks between its two calls.
  ghost predicate WeakInv(s: Vm, faults: Faults) { Inv(s) && Sharing(s, faults) && UserBits(s) && Handlers(s, faults) }

  ghost predicate CowInv(s: Vm, faults: Faults) { WeakInv(s, faults) && SharedReadOnly(s) }

  // ---------------------------------------------------------------- counts stay small

  lemma MappedPage(s: Vm, e: nat, v: nat)
    requires Inv(s) && Mapped(s, e, v)
    ensures User(s, FrameAt(s, e, v)) && FrameAt(s, e, v) < |s.ref|
    ensures v in View(s, e) && View(s, e)[v].page == FrameAt(s, e, v)
  {
    MappedIsUser(s, e, v);
  }

  // The page of this slot is mapped at this virtual page number only.
  ghost predicate OneNumber(s: Vm, e: nat, v: nat) {
    Mapped(s, e, v) ==> forall f: nat, u: nat :: Mapped(s, f, u) && FrameAt(s, f, u) == FrameAt(s, e, v) ==> u == v
  }

  lemma NotTwin(s: Vm, faults: Faults, e: nat, v: nat)
    requires Sharing(s, faults) && (e in faults ==> !faults[e].stage.Moved?)
    ensures OneNumber(s, e, v)
  {
  }

  // Such a page has one reference in each environment at most, so pp_ref cannot overflow.
  lemma RefsOfPage(s: Vm, e: nat, v: nat)
    requires Inv(s) && OneNumber(s, e, v) && Mapped(s, e, v)
    ensures RefCount(s, FrameAt(s, e, v)) <= NENV
  {
    var p := FrameAt(s, e, v);
    Vpn(v);
    MappedPage(s, e, v);
    var all := set f: nat | f < NENV :: PteRef(f, Pdx(v), Ptx(v));
    forall r | r in Refs(s, p) ensures r in all {
      var u := r.i * NPTE + r.j;
      assert Pdx(u) == r.i && Ptx(u) == r.j;
      assert Mapped(s, r.e, u) && FrameAt(s, r.e, u) == p;
    }
    EnvSlots(NENV, Pdx(v), Ptx(v));
    SubsetSize(Refs(s, p), all);
  }

  lemma {:induction false} EnvSlots(n: nat, i: nat, j: nat)
    ensures |set f: nat | f < n :: PteRef(f, i, j)| <= n
  {
    if n > 0 {
      EnvSlots(n - 1, i, j);
      assert (set f: nat | f < n :: PteRef(f, i, j)) == (set f: nat | f < n - 1 :: PteRef(f, i, j)) + {PteRef(n - 1, i, j)};
    }
  }

  // ---------------------------------------------------------------- one mapping changes

  // Slot (e, v) now holds `w`; every other slot of every environment is as before.
  ghost predicate Remapped(s: Vm, t: Vm, e: nat, v: nat, w: nat) {
    EntryAt(t, e, v) == w && OthersSame(s, t, e, v)
  }

  // Every slot but (e, v) reads as before.
  ghost predicate SameReads(s: Vm, t: Vm, e: nat, v: nat) {
    forall f: nat, u: nat :: f < NENV && u < NVPN && !(f == e && u == v) ==> Reads(t, f, u) == Reads(s, f, u)
  }

  lemma ReadsRemapped(s: Vm, t: Vm, e: nat, v: nat, w: nat)
    requires Inv(s) && Remapped(s, t, e, v, w) && SameUserPages(s, t)
    ensures SameReads(s, t, e, v)
  {
    forall f: nat, u: nat | f < NENV && u < NVPN && !(f == e && u == v) ensures Reads(t, f, u) == Reads(s, f, u) {
      if Mapped(s, f, u) {
        MappedPage(s, f, u);
      }
    }
  }

  lemma SharingRemapped(s: Vm, t: Vm, faults: Faults, e: nat, v: nat, w: nat)
    requires Sharing(s, faults) && Remapped(s, t, e, v, w)
    requires w != 0 ==> forall f: nat, u: nat :: Mapped(s, f, u) && FrameAt(s, f, u) == Frame(w) ==>
                          MayShare(faults, e, v, f, u)
    ensures Sharing(t, faults)
  {
    forall f: nat, g: nat, x: nat, y: nat | Mapped(t, f, x) && Mapped(t, g, y) && FrameAt(t, f, x) == FrameAt(t, g, y)
      ensures MayShare(faults, f, x, g, y)
    {
      assert (f == e && x == v) || Mapped(s, f, x);
      assert (g == e && y == v) || Mapped(s, g, y);
    }
  }

  lemma UserBitsRemapped(s: Vm, t: Vm, e: nat, v: nat, w: nat)
    requires UserBits(s) && Remapped(s, t, e, v, w) && (w != 0 ==> w % 2 == 1 && IsUser(w))
    ensures UserBits(t)
  {
    forall f: nat, u: nat | Mapped(t, f, u) ensures EntryAt(t, f, u) % 2 == 1 && IsUser(EntryAt(t, f, u)) {
      assert (f == e && u == v) || Mapped(s, f, u);
    }
  }

  // The handlers of the other environments notice nothing.
  ghost predicate OtherHandlers(s: Vm, faults: Faults, e: nat) {
    && (forall f :: f in faults && f != e ==> FaultOk(s, f, faults[f]))
    && (forall f: nat :: f != e && Mapped(s, f, PFTEMP) ==> f in faults)
  }

  lemma HandlersRemapped(s: Vm, t: Vm, faults: Faults, e: nat, v: nat, w: nat)
    requires Handlers(s, faults) && Remapped(s, t, e, v, w) && SameReads(s, t, e, v)
    ensures OtherHandlers(t, faults, e)
    ensures e !in faults && v != PFTEMP ==> Handlers(t, faults)
  {
    forall f | f in faults && f != e ensures FaultOk(t, f, faults[f]) {
      var h := faults[f];
      assert FaultOk(s, f, h);
      assert Reads(t, f, PFTEMP) == Reads(s, f, PFTEMP) && Reads(t, f, h.v) == Reads(s, f, h.v);
    }
    forall f: nat | !(f == e && v == PFTEMP) && Mapped(t, f, PFTEMP) ensures f in faults {
      assert Mapped(s, f, PFTEMP);
    }
  }

  lemma DataSame(s: Vm, t: Vm, f: nat)
    requires forall u: nat :: u < NVPN && u != PFTEMP ==> Reads(t, f, u) == Reads(s, f, u)
    ensures Data(t, f) == Data(s, f)
  {
    forall u: nat | u < NVPN ensures u in Data(t, f) <==> u in Data(s, f) {
      assert u != PFTEMP ==> Reads(t, f, u) == Reads(s, f, u);
    }
    forall u | u in Data(s, f) ensures Data(t, f)[u] == Data(s, f)[u] {
      assert Reads(t, f, u) == Reads(s, f, u);
    }
  }

  lemma DataSet(s: Vm, t: Vm, f: nat, v: nat, content: Option<seq<nat>>)
    requires v < NVPN && v != PFTEMP && Reads(t, f, v) == content
    requires forall u: nat :: u < NVPN && u != v ==> Reads(t, f, u) == Reads(s, f, u)
    ensures Data(t, f) == if content.Some? then Data(s, f)[v := content.value] else Data(s, f) - {v}
  {
    forall u: nat | u < NVPN && u != v ensures u in Data(t, f) <==> u in Data(s, f) {
      assert Reads(t, f, u) == Reads(s, f, u);
    }
    forall u | u in Data(s, f) && u != v ensures Data(t, f)[u] == Data(s, f)[u] {
      assert Reads(t, f, u) == Reads(s, f, u);
    }
    assert v in Data(t, f) <==> content.Some?;
  }

  // Contents change in one environment only.
  ghost predicate OtherData(s: Vm, t: Vm, e: nat) {
    forall f: nat :: f < NENV && f != e ==> Data(t, f) == Data(s, f)
  }

  lemma DataRemapped(s: Vm, t: Vm, e: nat, v: nat, w: nat)
    requires e < NENV && v < NVPN && v != PFTEMP && Remapped(s, t, e, v, w) && SameReads(s, t, e, v)
    ensures Data(t, e) == if w != 0 then Data(s, e)[v := PageOf(t, Frame(w))] else Data(s, e) - {v}
    ensures OtherData(s, t, e)
  {
    DataSet(s, t, e, v, if w != 0 then Some(PageOf(t, Frame(w))) else None);
    forall f: nat | f < NENV && f != e ensures Data(t, f) == Data(s, f) {
      DataSame(s, t, f);
    }
  }

  lemma MapPageOk(s: Vm, t: Vm, se: nat, sv: nat, de: nat, dv: nat, perm: nat)
    requires Inv(s) && OneNumber(s, se, sv) && Live(s, se, sv) && Live(s, de, dv) && perm % 2 == 1 && perm < PGSIZE
    requires MapPage(s, se, sv, de, dv, perm) == Some(t)
    ensures Mapped(s, se, sv) && Inv(t) && SameUserPages(s, t)
    ensures Remapped(s, t, de, dv, Entry(FrameAt(s, se, sv), perm))
    ensures PageOf(t, FrameAt(s, se, sv)) == PageOf(s, FrameAt(s, se, sv))
    ensures Writable(perm) ==> Writable(EntryAt(s, se, sv))
    ensures TableTaken(s, t, de, Pdx(dv))
    ensures EntryAt(s, de, dv) == 0 || FrameAt(s, de, dv) == FrameAt(s, se, sv) ==> FreeTaken(s, t, de, Pdx(dv))
    ensures EntryAt(s, de, dv) != 0 && FrameAt(s, de, dv) != FrameAt(s, se, sv) ==> GivenBack(s, t, FrameAt(s, de, dv))
  {
    if Mapped(s, se, sv) {
      RefsOfPage(s, se, sv);
      MappedPage(s, se, sv);
    }
    EnvPageMapOk(s, t, 0, se, sv, de, dv, perm);
  }

  /** sys_page_map succeeds exactly when the source is mapped, write permission is not added,
      and the destination has a page table or a page is left for one. */
  lemma MapPageSome(s: Vm, se: nat, sv: nat, de: nat, dv: nat, perm: nat)
    requires Inv(s) && OneNumber(s, se, sv) && Live(s, se, sv) && Live(s, de, dv) && perm < PGSIZE
    ensures MapPage(s, se, sv, de, dv, perm).Some? <==>
              && Mapped(s, se, sv) && (Writable(perm) ==> Writable(EntryAt(s, se, sv)))
              && (Pde(s, de, Pdx(dv)) != 0 || s.free != [])
  {
    if Mapped(s, se, sv) {
      RefsOfPage(s, se, sv);
      MappedPage(s, se, sv);
      WritableFlag(EntryAt(s, se, sv));
    }
    var (t, r) := EnvPageMap(s, se, sv, de, dv, perm);
    EnvPageMapOk(s, t, r, se, sv, de, dv, perm);
  }

  lemma AllocPageOk(s: Vm, t: Vm, e: nat, v: nat, perm: nat)
    requires Inv(s) && Live(s, e, v) && PermOk(perm) && AllocPage(s, e, v, perm) == Some(t)
    ensures s.free != [] && Inv(t) && SameUserPages(s, t)
    ensures Remapped(s, t, e, v, Entry(s.free[0], perm)) && PageOf(t, s.free[0]) == ZeroPage()
    ensures NowhereMapped(s, s.free[0]) && TableTaken(s, t, e, Pdx(v))
    ensures |t.free| + AllocCost(s, e, v) == |s.free|
  {
    EnvPageAllocOk(s, t, 0, e, v, perm);
    forall f: nat, u: nat | Mapped(s, f, u) ensures FrameAt(s, f, u) != s.free[0] {
      MappedPage(s, f, u);
    }
  }

  ghost predicate NowhereMapped(s: Vm, q: nat) {
    forall f: nat, u: nat :: Mapped(s, f, u) ==> FrameAt(s, f, u) != q
  }

  /** sys_page_alloc succeeds exactly when a page is free and is not lost to a missing table. */
  lemma AllocPageSome(s: Vm, e: nat, v: nat, perm: nat)
    requires Inv(s) && Live(s, e, v) && PermOk(perm)
    ensures AllocPage(s, e, v, perm).Some? <==> s.free != [] && !LosesPage(s, e, v)
  {
    var (t, r) := EnvPageAlloc(s, e, v, perm);
    EnvPageAllocOk(s, t, r, e, v, perm);
  }

  // ---------------------------------------------------------------- duppage

  lemma DupPerms(pte: nat, page: nat, cow: nat)
    requires cow == 0 || cow == PTE_COW
    ensures var d := DupPerm(pte) + cow;
            d % 2 == 1 && d < PGSIZE && Entry(page, d) % 2 == 1 && IsUser(Entry(page, d)) && !Writable(Entry(page, d))
            && !Writable(d) && Frame(Entry(page, d)) == page
  {
    var d := DupPerm(pte) + cow;
    assert d == 5 || d == 29 || d == 5 + PTE_COW || d == 29 + PTE_COW;
    assert PermP(d) == d;
  }

  // The page of slot v is now read-only in both p and c; nothing else moved.
  lemma SharedDup(s: Vm, t: Vm, p: nat, c: nat, v: nat)
    requires SharedReadOnly(s) && Mapped(s, p, v) && !Writable(EntryAt(t, p, v)) && !Writable(EntryAt(t, c, v))
    requires FrameAt(t, p, v) == FrameAt(t, c, v) == FrameAt(s, p, v)
    requires forall f: nat, u: nat :: f < NENV && u < NVPN && !(f == p && u == v) && !(f == c && u == v) ==>
               EntryAt(t, f, u) == EntryAt(s, f, u)
    ensures SharedReadOnly(t)
  {
    forall f: nat, g: nat, u: nat | Mapped(t, f, u) && Mapped(t, g, u) && f != g && FrameAt(t, f, u) == FrameAt(t, g, u)
      ensures !Writable(EntryAt(t, f, u))
    {
      if u != v || (f != p && f != c) {
        assert Mapped(s, f, u);
        assert (u == v && (g == p || g == c)) || Mapped(s, g, u);
      }
    }
  }

  lemma DupEffect(s: Vm, t: Vm, faults: Faults, p: nat, c: nat, v: nat, w: nat)
    requires WeakInv(s, faults) && Mapped(s, p, v) && c < NENV && v != PFTEMP && Inv(t) && SameUserPages(s, t)
    requires p !in faults && c !in faults
    requires Remapped(s, t, c, v, w) && Frame(w) == FrameAt(s, p, v) && w % 2 == 1 && IsUser(w)
    requires PageOf(t, FrameAt(s, p, v)) == PageOf(s, FrameAt(s, p, v))
    ensures WeakInv(t, faults)
    ensures Data(t, c) == Data(s, c)[v := Data(s, p)[v]] && OtherData(s, t, c)
  {
    NotTwin(s, faults, p, v);
    SharingRemapped(s, t, faults, c, v, w);
    UserBitsRemapped(s, t, c, v, w);
    ReadsRemapped(s, t, c, v, w);
    HandlersRemapped(s, t, faults, c, v, w);
    DataRemapped(s, t, c, v, w);
  }

  // Who takes part in a fork and at which page.
  ghost predicate DupReady(s: Vm, faults: Faults, p: nat, c: nat, v: nat) {
    Live(s, p, v) && Live(s, c, v) && v != PFTEMP && p !in faults && c !in faults
  }

  // What duppage does to the memories.
  ghost predicate Duplicated(s: Vm, t: Vm, p: nat, c: nat, v: nat) {
    v in Data(s, p) && Data(t, c) == Data(s, c)[v := Data(s, p)[v]] && OtherData(s, t, c)
  }

  // One sys_page_map of duppage: slot v of `p` copied to slot v of `c` (possibly the same).
  lemma DupStep(s: Vm, t: Vm, faults: Faults, p: nat, c: nat, v: nat, perm: nat, w: nat)
    requires WeakInv(s, faults) && DupReady(s, faults, p, c, v)
    requires perm % 2 == 1 && perm < PGSIZE && w == Entry(FrameAt(s, p, v), perm) && w % 2 == 1 && IsUser(w)
    requires MapPage(s, p, v, c, v, perm) == Some(t)
    ensures Mapped(s, p, v) && WeakInv(t, faults) && Remapped(s, t, c, v, w)
    ensures Duplicated(s, t, p, c, v)
    ensures TableTaken(s, t, c, Pdx(v))
    ensures EntryAt(s, c, v) == 0 || FrameAt(s, c, v) == FrameAt(s, p, v) ==> FreeTaken(s, t, c, Pdx(v))
  {
    NotTwin(s, faults, p, v);
    MapPageOk(s, t, p, v, c, v, perm);
    EntryWord(FrameAt(s, p, v), perm);
    DupEffect(s, t, faults, p, c, v, w);
  }

  // What duppage takes from the allocator: one page if the child lacks the table.
  ghost predicate DupTakes(s: Vm, t: Vm, c: nat, v: nat) {
    && Pde(t, c, Pdx(v)) != 0
    && (forall k: nat :: k < NPDU && k != Pdx(v) ==> Pde(t, c, k) == Pde(s, c, k))
    && (EntryAt(s, c, v) == 0 ==> FreeTaken(s, t, c, Pdx(v)))
  }

  // What duppage does to the parent's own slots: the page itself becomes read-only if it was
  // writable, and is then shared with the child.
  ghost predicate DupSlots(s: Vm, t: Vm, p: nat, c: nat, v: nat) {
    && (forall u: nat :: u < NVPN && u != v ==> EntryAt(t, p, u) == EntryAt(s, p, u) && EntryAt(t, c, u) == EntryAt(s, c, u))
    && Mapped(t, p, v) && Mapped(t, c, v) && FrameAt(t, c, v) == FrameAt(t, p, v) && !Writable(EntryAt(t, p, v))
    && (forall k: nat :: k < NPDU ==> (Pde(t, p, k) == 0 <==> Pde(s, p, k) == 0))
  }

  lemma DupOnce(s: Vm, t: Vm, faults: Faults, p: nat, c: nat, v: nat, perm: nat)
    requires CowInv(s, faults) && DupReady(s, faults, p, c, v) && p != c
    requires perm == DupPerm(EntryAt(s, p, v)) && MapPage(s, p, v, c, v, perm) == Some(t)
    requires !Writable(EntryAt(s, p, v))
    ensures CowInv(t, faults) && t.dir == s.dir && Duplicated(s, t, p, c, v) && DupTakes(s, t, c, v) && DupSlots(s, t, p, c, v)
  {
    DupPerms(EntryAt(s, p, v), FrameAt(s, p, v), 0);
    DupStep(s, t, faults, p, c, v, perm, Entry(FrameAt(s, p, v), perm));
    SharedDup(s, t, p, c, v);
    Vpn(v);
  }

  lemma SharedDupTwice(s: Vm, s1: Vm, t: Vm, p: nat, c: nat, v: nat, w: nat)
    requires SharedReadOnly(s) && Mapped(s, p, v) && p != c && c < NENV && v < NVPN
    requires Remapped(s, s1, c, v, w) && Remapped(s1, t, p, v, w) && Frame(w) == FrameAt(s, p, v) && !Writable(w)
    ensures SharedReadOnly(t)
  {
    assert EntryAt(t, c, v) == EntryAt(s1, c, v) == w;
    SharedDup(s, t, p, c, v);
  }

  lemma DupTwice(s: Vm, s1: Vm, t: Vm, faults: Faults, p: nat, c: nat, v: nat, perm: nat)
    requires CowInv(s, faults) && DupReady(s, faults, p, c, v) && p != c
    requires perm == DupPerm(EntryAt(s, p, v)) + PTE_COW
    requires MapPage(s, p, v, c, v, perm) == Some(s1) && MapPage(s1, p, v, p, v, perm) == Some(t)
    ensures CowInv(t, faults) && t.dir == s.dir && Duplicated(s, t, p, c, v) && DupTakes(s, t, c, v) && DupSlots(s, t, p, c, v)
  {
    DupPerms(EntryAt(s, p, v), FrameAt(s, p, v), PTE_COW);
    var w := Entry(FrameAt(s, p, v), perm);
    DupStep(s, s1, faults, p, c, v, perm, w);
    DupStep(s1, t, faults, p, p, v, perm, w);
    SharedDupTwice(s, s1, t, p, c, v, w);
    TwiceTakes(s, s1, t, p, c, v);
    TwiceData(s, s1, t, p, c, v);
    TwiceSlots(s, s1, t, p, c, v, w);
  }

  lemma TwiceData(s: Vm, s1: Vm, t: Vm, p: nat, c: nat, v: nat)
    requires p < NENV && c < NENV && p != c && Duplicated(s, s1, p, c, v) && Duplicated(s1, t, p, p, v)
    ensures Duplicated(s, t, p, c, v)
  {
    assert Data(t, p) == Data(s1, p);
  }

  lemma TwiceTakes(s: Vm, s1: Vm, t: Vm, p: nat, c: nat, v: nat)
    requires p < NENV && c < NENV && v < NVPN && p != c && Pde(s1, p, Pdx(v)) != 0
    requires TableTaken(s, s1, c, Pdx(v)) && TableTaken(s1, t, p, Pdx(v)) && FreeTaken(s1, t, p, Pdx(v))
    requires EntryAt(s, c, v) == 0 ==> FreeTaken(s, s1, c, Pdx(v))
    ensures DupTakes(s, t, c, v)
  {
    Vpn(v);
  }

  lemma TwiceSlots(s: Vm, s1: Vm, t: Vm, p: nat, c: nat, v: nat, w: nat)
    requires p < NENV && c < NENV && v < NVPN && p != c && Mapped(s, p, v) && w % 2 == 1 && !Writable(w)
    requires Remapped(s, s1, c, v, w) && Remapped(s1, t, p, v, w) && TableTaken(s, s1, c, Pdx(v)) && TableTaken(s1, t, p, Pdx(v))
    ensures DupSlots(s, t, p, c, v)
  {
    Vpn(v);
    assert EntryAt(t, c, v) == w;
  }

  /** duppage gives the child the parent's page contents and changes what no other
      environment reads; afterwards no environment can write the shared page. */
  lemma DupOk(s: Vm, t: Vm, faults: Faults, p: nat, c: nat, v: nat)
    requires CowInv(s, faults) && DupReady(s, faults, p, c, v) && p != c && DupPage(s, p, c, v) == Some(t)
    ensures CowInv(t, faults) && t.dir == s.dir && Duplicated(s, t, p, c, v) && DupTakes(s, t, c, v) && DupSlots(s, t, p, c, v)
  {
    var pte := EntryAt(s, p, v);
    if Writable(pte) || IsCow(pte) {
      var perm := DupPerm(pte) + PTE_COW;
      DupTwice(s, MapPage(s, p, v, c, v, perm).value, t, faults, p, c, v, perm);
    } else {
      DupOnce(s, t, faults, p, c, v, DupPerm(pte));
    }
  }

  /** duppage succeeds exactly when the page is there and the child has a table for it or a
      page is free: re-mapping the parent's own slot never fails. */
  lemma DupSome(s: Vm, faults: Faults, p: nat, c: nat, v: nat)
    requires CowInv(s, faults) && DupReady(s, faults, p, c, v) && p != c
    ensures DupPage(s, p, c, v).Some? <==> Mapped(s, p, v) && (Pde(s, c, Pdx(v)) != 0 || s.free != [])
  {
    NotTwin(s, faults, p, v);
    var pte := EntryAt(s, p, v);
    var cow := if Writable(pte) || IsCow(pte) then PTE_COW else 0;
    var perm := DupPerm(pte) + cow;
    DupPerms(pte, Frame(pte), cow);
    MapPageSome(s, p, v, c, v, perm);
    if MapPage(s, p, v, c, v, perm).Some? {
      var s1 := MapPage(s, p, v, c, v, perm).value;
      DupStep(s, s1, faults, p, c, v, perm, Entry(Frame(pte), perm));
      NotTwin(s1, faults, p, v);
      MapPageSome(s1, p, v, p, v, perm);
    }
  }

  // ---------------------------------------------------------------- the fault handler

  // A data page overwritten: mappings stay, and only the mappings of that page read anew.
  lemma PokeOk(s: Vm, t: Vm, q: nat, page: seq<nat>)
    requires Inv(s) && User(s, q) && q < |s.mem| && |page| == NPTE && t == s.(mem := s.mem[q := page])
    ensures Inv(t) && SameEntries(s, t)
    ensures forall f: nat, u: nat :: f < NENV && u < NVPN && FrameAt(s, f, u) != q ==> Reads(t, f, u) == Reads(s, f, u)
    ensures forall f: nat, k: nat :: f < NENV && k < NPDU ==> Pde(t, f, k) == Pde(s, f, k)
  {
    FrameMem(s, t, q);
    SameRefs(s, t);
    AllocViews(s, t);
  }

  ghost predicate SameEntries(s: Vm, t: Vm) {
    t.dir == s.dir && forall f: nat, u: nat :: f < NENV && u < NVPN ==> EntryAt(t, f, u) == EntryAt(s, f, u)
  }

  lemma SameEntriesInv(s: Vm, t: Vm, faults: Faults)
    requires SameEntries(s, t)
    ensures Sharing(s, faults) ==> Sharing(t, faults)
    ensures SharedReadOnly(s) ==> SharedReadOnly(t)
    ensures UserBits(s) ==> UserBits(t)
  {
    assert forall f: nat, u: nat :: Mapped(t, f, u) <==> Mapped(s, f, u);
  }

  // A slot that moves to a page mapped nowhere else may be writable; an emptied slot is fine.
  lemma FreshPage(s: Vm, t: Vm, faults: Faults, e: nat, v: nat, w: nat)
    requires Sharing(s, faults) && SharedReadOnly(s) && UserBits(s) && Remapped(s, t, e, v, w) && e < NENV && v < NVPN
    requires w != 0 ==> w % 2 == 1 && IsUser(w) && NowhereMapped(s, Frame(w))
    ensures Sharing(t, faults) && SharedReadOnly(t) && UserBits(t)
  {
    forall f: nat, g: nat, x: nat, y: nat | Mapped(t, f, x) && Mapped(t, g, y) && FrameAt(t, f, x) == FrameAt(t, g, y)
      ensures MayShare(faults, f, x, g, y) && (f != g ==> !Writable(EntryAt(t, f, x)))
    {
      assert (f == e && x == v) || Mapped(s, f, x);
      assert (g == e && y == v) || Mapped(s, g, y);
    }
    UserBitsRemapped(s, t, e, v, w);
  }

  lemma RwWord(q: nat, w: nat)
    requires w == Entry(q, RW)
    ensures w % 2 == 1 && IsUser(w) && Writable(w) && Frame(w) == q
  {
    assert w == q * PGSIZE + 7;
  }

  // Inside the handler every environment reads what it read before.
  ghost predicate Stutter(s: Vm, t: Vm) {
    t.dir == s.dir && forall f: nat :: f < NENV ==> Data(t, f) == Data(s, f)
  }

  lemma StutterOnce(s: Vm, t: Vm, e: nat)
    requires t.dir == s.dir && SameReads(s, t, e, PFTEMP)
    ensures Stutter(s, t)
  {
    forall f: nat | f < NENV ensures Data(t, f) == Data(s, f) {
      DataSame(s, t, f);
    }
  }

  // sys_page_alloc at PFTEMP.
  lemma FaultStart(s: Vm, t: Vm, faults: Faults, e: nat, v: nat)
    requires CowInv(s, faults) && Mapped(s, e, v) && v != PFTEMP && e !in faults && Live(s, e, v)
    requires AllocPage(s, e, PFTEMP, RW) == Some(t)
    ensures CowInv(t, faults[e := Fault(v, Allocated)]) && Stutter(s, t)
  {
    AllocPageOk(s, t, e, PFTEMP, RW);
    var w := Entry(s.free[0], RW);
    RwWord(s.free[0], w);
    FreshPage(s, t, faults, e, PFTEMP, w);
    ReadsRemapped(s, t, e, PFTEMP, w);
    HandlersRemapped(s, t, faults, e, PFTEMP, w);
    StutterOnce(s, t, e);
    assert Mapped(t, e, v);
    Advance(t, faults, e, Fault(v, Allocated));
  }

  lemma FaultsAgain(faults: Faults, e: nat, a: Fault, b: Fault)
    ensures faults[e := a][e := b] == faults[e := b]
    ensures e !in faults ==> faults[e := a] - {e} == faults
  {
  }

  ghost predicate SameButFor(faults: Faults, after: Faults, e: nat) {
    forall f: nat :: f != e ==> (f in faults <==> f in after) && (f in faults ==> after[f] == faults[f])
  }

  // One handler moves on; the sharing it allows does not shrink.
  lemma SharingChange(t: Vm, faults: Faults, after: Faults, e: nat)
    requires Sharing(t, faults) && SameButFor(faults, after, e)
    requires e in faults && faults[e].stage.Moved? ==> !Mapped(t, e, PFTEMP)
    ensures Sharing(t, after)
  {
  }

  lemma HandlersChange(t: Vm, faults: Faults, after: Faults, e: nat)
    requires OtherHandlers(t, faults, e) && SameButFor(faults, after, e)
    requires (e in after ==> FaultOk(t, e, after[e])) && (Mapped(t, e, PFTEMP) ==> e in after)
    ensures Handlers(t, after)
  {
  }

  lemma Advance(t: Vm, faults: Faults, e: nat, h: Fault)
    requires Sharing(t, faults) && OtherHandlers(t, faults, e) && FaultOk(t, e, h)
    requires e in faults ==> !faults[e].stage.Moved?
    ensures Sharing(t, faults[e := h]) && Handlers(t, faults[e := h])
  {
    SharingChange(t, faults, faults[e := h], e);
    HandlersChange(t, faults, faults[e := h], e);
  }

  lemma Retire(t: Vm, faults: Faults, e: nat)
    requires Sharing(t, faults) && OtherHandlers(t, faults, e) && !Mapped(t, e, PFTEMP)
    ensures Sharing(t, faults - {e}) && Handlers(t, faults - {e})
  {
    SharingChange(t, faults, faults - {e}, e);
    HandlersChange(t, faults, faults - {e}, e);
  }

  // memmove to PFTEMP.
  lemma FaultCopy(s: Vm, t: Vm, faults: Faults, e: nat)
    requires CowInv(s, faults) && e in faults && faults[e].stage.Allocated? && t == CopyPage(s, e, PFTEMP, faults[e].v)
    ensures CowInv(t, faults[e := Fault(faults[e].v, Copied)]) && Stutter(s, t)
  {
    var h := faults[e];
    assert FaultOk(s, e, h);
    MappedPage(s, e, PFTEMP);
    MappedPage(s, e, h.v);
    NotTwin(s, faults, e, PFTEMP);
    assert FrameAt(s, e, h.v) != FrameAt(s, e, PFTEMP);
    PokeOk(s, t, FrameAt(s, e, PFTEMP), PageOf(s, FrameAt(s, e, h.v)));
    SameEntriesInv(s, t, faults);
    OnlyTemp(s, faults, e);
    assert Remapped(s, t, e, PFTEMP, EntryAt(s, e, PFTEMP));
    HandlersRemapped(s, t, faults, e, PFTEMP, EntryAt(s, e, PFTEMP));
    StutterOnce(s, t, e);
    Advance(t, faults, e, Fault(h.v, Copied));
  }

  // Before it is moved, the handler's page is mapped at PFTEMP and nowhere else.
  lemma OnlyTemp(s: Vm, faults: Faults, e: nat)
    requires Sharing(s, faults) && e in faults && !faults[e].stage.Moved? && Mapped(s, e, PFTEMP)
    ensures forall f: nat, u: nat :: Mapped(s, f, u) && !(f == e && u == PFTEMP) ==> FrameAt(s, f, u) != FrameAt(s, e, PFTEMP)
  {
  }

  // sys_page_map from PFTEMP to the faulting slot.
  lemma FaultMove(s: Vm, t: Vm, faults: Faults, e: nat)
    requires CowInv(s, faults) && e in faults && faults[e].stage.Copied? && Live(s, e, faults[e].v)
    requires MapPage(s, e, PFTEMP, e, faults[e].v, RW) == Some(t)
    ensures CowInv(t, faults[e := Fault(faults[e].v, Moved)]) && Stutter(s, t)
  {
    var v := faults[e].v;
    assert FaultOk(s, e, faults[e]);
    NotTwin(s, faults, e, PFTEMP);
    MapPageOk(s, t, e, PFTEMP, e, v, RW);
    var w := Entry(FrameAt(s, e, PFTEMP), RW);
    RwWord(FrameAt(s, e, PFTEMP), w);
    OnlyTemp(s, faults, e);
    ReadsRemapped(s, t, e, v, w);
    HandlersRemapped(s, t, faults, e, v, w);
    MovedSlots(s, t, faults, e, w);
    MovedData(s, t, e, v);
  }

  lemma MovedData(s: Vm, t: Vm, e: nat, v: nat)
    requires t.dir == s.dir && SameReads(s, t, e, v) && Reads(t, e, v) == Reads(s, e, v)
    ensures Stutter(s, t)
  {
    forall f: nat | f < NENV ensures Data(t, f) == Data(s, f) {
      DataSame(s, t, f);
    }
  }

  lemma MovedSlots(s: Vm, t: Vm, faults: Faults, e: nat, w: nat)
    requires CowInv(s, faults) && Inv(t) && e in faults && faults[e].stage.Copied?
    requires w % 2 == 1 && IsUser(w) && Writable(w) && Frame(w) == FrameAt(s, e, PFTEMP) && Remapped(s, t, e, faults[e].v, w)
    requires OtherHandlers(t, faults, e)
    requires forall f: nat, u: nat :: Mapped(s, f, u) && !(f == e && u == PFTEMP) ==> FrameAt(s, f, u) != Frame(w)
    ensures CowInv(t, faults[e := Fault(faults[e].v, Moved)])
  {
    var v := faults[e].v;
    var after := faults[e := Fault(v, Moved)];
    assert FaultOk(s, e, faults[e]);
    SharingChange(s, faults, after, e);
    SharingRemapped(s, t, after, e, v, w);
    UserBitsRemapped(s, t, e, v, w);
    MovedReadOnly(s, t, e, v, w);
    HandlersChange(t, faults, after, e);
  }

  lemma MovedReadOnly(s: Vm, t: Vm, e: nat, v: nat, w: nat)
    requires SharedReadOnly(s) && Remapped(s, t, e, v, w) && v != PFTEMP
    requires forall f: nat, u: nat :: Mapped(s, f, u) && !(f == e && u == PFTEMP) ==> FrameAt(s, f, u) != Frame(w)
    ensures SharedReadOnly(t)
  {
    forall f: nat, g: nat, u: nat | Mapped(t, f, u) && Mapped(t, g, u) && f != g && FrameAt(t, f, u) == FrameAt(t, g, u)
      ensures !Writable(EntryAt(t, f, u))
    {
      assert (f == e && u == v) || Mapped(s, f, u);
      assert (g == e && u == v) || Mapped(s, g, u);
    }
  }

  // sys_page_unmap of PFTEMP: the retried store will go through.
  lemma FaultEnd(s: Vm, t: Vm, faults: Faults, e: nat)
    requires CowInv(s, faults) && e in faults && faults[e].stage.Moved? && t == Remove(s, e, Pdx(PFTEMP), Ptx(PFTEMP))
    ensures CowInv(t, faults - {e}) && Stutter(s, t)
    ensures Mapped(t, e, faults[e].v) && Writable(EntryAt(t, e, faults[e].v))
  {
    var v := faults[e].v;
    assert FaultOk(s, e, faults[e]);
    RemoveRefines(s, t, e, PFTEMP);
    assert EntryAt(t, e, v) == EntryAt(s, e, v);
    FreshPage(s, t, faults, e, PFTEMP, 0);
    ReadsRemapped(s, t, e, PFTEMP, 0);
    HandlersRemapped(s, t, faults, e, PFTEMP, 0);
    StutterOnce(s, t, e);
    Retire(t, faults, e);
  }

  // ---------------------------------------------------------------- stores, allocation, exit

  lemma UserStoreReads(s: Vm, t: Vm, faults: Faults, e: nat, v: nat, k: nat, w: nat)
    requires CowInv(s, faults) && Live(s, e, v) && Mapped(s, e, v) && Writable(EntryAt(s, e, v)) && k < NPTE
    requires v != PFTEMP && (e in faults ==> v != faults[e].v)
    requires t == UserStore(s, e, v, k, w)
    ensures CowInv(t, faults) && t.dir == s.dir && SameReads(s, t, e, v)
    ensures Reads(s, e, v).Some? && k < |Reads(s, e, v).value| && Reads(t, e, v) == Some(Reads(s, e, v).value[k := w])
  {
    var q := FrameAt(s, e, v);
    MappedPage(s, e, v);
    var page: seq<nat> := s.mem[q][k := w];
    PokeOk(s, t, q, page);
    SameEntriesInv(s, t, faults);
    OwnPage(s, faults, e, v);
    StoreHandlers(s, t, faults, e, v);
  }

  // A writable page outside a handler is mapped at one slot only.
  lemma OwnPage(s: Vm, faults: Faults, e: nat, v: nat)
    requires CowInv(s, faults) && Mapped(s, e, v) && Writable(EntryAt(s, e, v)) && v != PFTEMP
    requires e in faults ==> v != faults[e].v
    ensures forall f: nat, u: nat :: f < NENV && u < NVPN && !(f == e && u == v) && EntryAt(s, f, u) != 0 ==>
              FrameAt(s, f, u) != FrameAt(s, e, v)
  {
    forall f: nat, u: nat | f < NENV && u < NVPN && !(f == e && u == v) && EntryAt(s, f, u) != 0
      ensures FrameAt(s, f, u) != FrameAt(s, e, v)
    {
      assert Mapped(s, f, u);
    }
  }

  lemma StoreHandlers(s: Vm, t: Vm, faults: Faults, e: nat, v: nat)
    requires Handlers(s, faults) && SameEntries(s, t) && SameReads(s, t, e, v)
    requires v != PFTEMP && (e in faults ==> v != faults[e].v)
    ensures Handlers(t, faults)
  {
    forall f | f in faults ensures FaultOk(t, f, faults[f]) {
      var h := faults[f];
      assert FaultOk(s, f, h);
      assert Reads(t, f, PFTEMP) == Reads(s, f, PFTEMP) && Reads(t, f, h.v) == Reads(s, f, h.v);
    }
    forall f: nat | Mapped(t, f, PFTEMP) ensures f in faults {
      assert Mapped(s, f, PFTEMP);
    }
  }

  function WithPage(m: map<nat, seq<nat>>, v: nat, page: seq<nat>): map<nat, seq<nat>> { m[v := page] }

  function WithWord(m: map<nat, seq<nat>>, v: nat, k: nat, w: nat): map<nat, seq<nat>>
    requires v in m && k < |m[v]|
  {
    var page: seq<nat> := m[v][k := w];
    m[v := page]
  }

  /** A store by the program changes the one word that was stored, in the one environment
      that stored it. */
  lemma StoreOk(s: Vm, t: Vm, faults: Faults, e: nat, v: nat, k: nat, w: nat)
    requires CowInv(s, faults) && Live(s, e, v) && Mapped(s, e, v) && Writable(EntryAt(s, e, v)) && k < NPTE
    requires v != PFTEMP && (e in faults ==> v != faults[e].v) && t == UserStore(s, e, v, k, w)
    ensures CowInv(t, faults) && t.dir == s.dir && v in Data(s, e) && k < |Data(s, e)[v]|
    ensures Data(t, e) == WithWord(Data(s, e), v, k, w) && OtherData(s, t, e)
  {
    UserStoreReads(s, t, faults, e, v, k, w);
    DataSet(s, t, e, v, Some(WithWord(Data(s, e), v, k, w)[v]));
    forall f: nat | f < NENV && f != e ensures Data(t, f) == Data(s, f) {
      DataSame(s, t, f);
    }
  }

  lemma AllocOkCow(s: Vm, t: Vm, faults: Faults, e: nat, v: nat, perm: nat)
    requires CowInv(s, faults) && Live(s, e, v) && v != PFTEMP && e !in faults
    requires PermOk(perm) && AllocPage(s, e, v, perm) == Some(t)
    ensures CowInv(t, faults) && t.dir == s.dir && Data(t, e) == Data(s, e)[v := ZeroPage()] && OtherData(s, t, e)
  {
    AllocPageOk(s, t, e, v, perm);
    var w := Entry(s.free[0], perm);
    EntryWord(s.free[0], perm);
    PermBits(s.free[0], perm);
    FreshPage(s, t, faults, e, v, w);
    ReadsRemapped(s, t, e, v, w);
    HandlersRemapped(s, t, faults, e, v, w);
    DataRemapped(s, t, e, v, w);
  }

  lemma PermBits(page: nat, perm: nat)
    requires perm % 2 == 1 && IsUser(perm)
    ensures IsUser(Entry(page, perm))
  {
    var q, r := perm / 4, perm % 4;
    QuarterOf(page * 1024 + q, r, Entry(page, perm));
    EvenPlus(page * 512, q);
  }

  lemma QuarterOf(n: nat, r: nat, w: nat)
    requires r < 4 && w == 4 * n + r
    ensures w / 4 == n
  {
  }

  lemma EvenPlus(n: nat, q: nat)
    ensures (2 * n + q) % 2 == q % 2
  {
  }

  lemma UnmapOk(s: Vm, t: Vm, faults: Faults, e: nat, v: nat)
    requires CowInv(s, faults) && Live(s, e, v) && v != PFTEMP && e !in faults && t == Remove(s, e, Pdx(v), Ptx(v))
    ensures CowInv(t, faults) && t.dir == s.dir && Data(t, e) == Data(s, e) - {v} && OtherData(s, t, e)
  {
    RemoveRefines(s, t, e, v);
    FreshPage(s, t, faults, e, v, 0);
    ReadsRemapped(s, t, e, v, 0);
    HandlersRemapped(s, t, faults, e, v, 0);
    DataRemapped(s, t, e, v, 0);
  }

  // Memories change in one environment only.
  ghost predicate OthersKept(s: Vm, t: Vm, e: nat) {
    OtherData(s, t, e) && forall f: nat :: f < NENV && f != e ==> Dir(t, f) == Dir(s, f)
  }

  lemma CreateOk(s: Vm, t: Vm, faults: Faults, c: nat)
    requires CowInv(s, faults) && c < NENV && Dir(s, c).None? && (t, true) == SetupVm(s, c)
    ensures CowInv(t, faults) && Dir(t, c).Some? && Data(t, c) == map[] && OthersKept(s, t, c)
    ensures s.free != [] && t.free == s.free[1..] && c !in faults
    ensures forall i: nat :: i < NPDU ==> Pde(t, c, i) == 0
  {
    SetupOk(s, t, true, c);
    AllocViews(s, t);
    KeptEntries(s, t, faults);
    EmptySpace(t, c);
    NoHandlerYet(s, faults, c);
  }

  // Without a directory there is no handler.
  lemma NoHandlerYet(s: Vm, faults: Faults, c: nat)
    requires Handlers(s, faults) && Dir(s, c).None?
    ensures c !in faults
  {
    assert c in faults ==> FaultOk(s, c, faults[c]);
  }

  // New environments change no mapping and no mapped page.
  lemma KeptEntries(s: Vm, t: Vm, faults: Faults)
    requires CowInv(s, faults) && Inv(t) && SameUserPages(s, t)
    requires forall f: nat, u: nat :: f < NENV && u < NVPN ==> EntryAt(t, f, u) == EntryAt(s, f, u)
    ensures CowInv(t, faults) && forall f: nat :: f < NENV ==> Data(t, f) == Data(s, f)
  {
    assert forall f: nat, u: nat :: Mapped(t, f, u) <==> Mapped(s, f, u);
    forall f: nat, u: nat | f < NENV && u < NVPN ensures Reads(t, f, u) == Reads(s, f, u) {
      if Mapped(s, f, u) {
        MappedPage(s, f, u);
      }
    }
    forall f | f in faults ensures FaultOk(t, f, faults[f]) {
      assert FaultOk(s, f, faults[f]);
    }
    forall f: nat | f < NENV ensures Data(t, f) == Data(s, f) {
      DataSame(s, t, f);
    }
  }

  lemma EmptySpace(s: Vm, c: nat)
    requires forall u: nat :: u < NVPN ==> EntryAt(s, c, u) == 0
    ensures Data(s, c) == map[]
  {
  }

  // What env_free leaves behind, as EnvFreeOk states it.
  ghost predicate Freed(s: Vm, t: Vm, e: nat) {
    && Inv(t) && Dir(t, e).None? && |t.mem| == |s.mem|
    && (forall f: nat :: f < NENV && f != e ==> Dir(t, f) == Dir(s, f))
    && (forall f: nat, k: nat, l: nat :: f < NENV && f != e && k < NPDU && l < NPTE ==> Pte(t, f, k, l) == Pte(s, f, k, l))
    && (forall p: nat :: User(t, p) && p < |s.mem| ==> t.mem[p] == s.mem[p])
  }

  lemma FreedOk(s: Vm, t: Vm, e: nat)
    requires Inv(s) && Live(s, e, 0) && t == EnvFree(s, e)
    ensures Freed(s, t, e)
  {
    EnvFreeOk(s, t, e);
  }

  lemma ExitOk(s: Vm, t: Vm, faults: Faults, e: nat)
    requires CowInv(s, faults) && Live(s, e, 0) && Freed(s, t, e)
    ensures CowInv(t, faults - {e}) && OthersKept(s, t, e)
  {
    forall f: nat, u: nat | f < NENV && f != e && u < NVPN ensures EntryAt(t, f, u) == EntryAt(s, f, u) {
      Vpn(u);
    }
    ExitReads(s, t, e);
    ExitEntries(s, t, faults, e);
  }

  lemma ExitReads(s: Vm, t: Vm, e: nat)
    requires Inv(t) && |t.mem| == |s.mem|
    requires forall f: nat, u: nat :: f < NENV && f != e && u < NVPN ==> EntryAt(t, f, u) == EntryAt(s, f, u)
    requires forall p: nat :: User(t, p) && p < |s.mem| ==> t.mem[p] == s.mem[p]
    ensures forall f: nat, u: nat :: f < NENV && f != e && u < NVPN ==> Reads(t, f, u) == Reads(s, f, u)
    ensures OtherData(s, t, e)
  {
    forall f: nat, u: nat | f < NENV && f != e && u < NVPN ensures Reads(t, f, u) == Reads(s, f, u) {
      if Mapped(t, f, u) {
        MappedPage(t, f, u);
      }
    }
    forall f: nat | f < NENV && f != e ensures Data(t, f) == Data(s, f) {
      DataSame(s, t, f);
    }
  }

  lemma ExitEntries(s: Vm, t: Vm, faults: Faults, e: nat)
    requires CowInv(s, faults) && Inv(t) && Dir(t, e).None?
    requires forall f: nat, u: nat :: f < NENV && f != e && u < NVPN ==> EntryAt(t, f, u) == EntryAt(s, f, u)
    requires forall f: nat, u: nat :: f < NENV && f != e && u < NVPN ==> Reads(t, f, u) == Reads(s, f, u)
    ensures CowInv(t, faults - {e})
  {
    assert forall f: nat, u: nat :: Mapped(t, f, u) <==> f != e && Mapped(s, f, u);
    forall f | f in faults && f != e ensures FaultOk(t, f, faults[f]) {
      assert FaultOk(s, f, faults[f]);
    }
    Retire(t, faults, e);
  }

  // ---------------------------------------------------------------- the reference machine

  // Every environment has its own memory: virtual page number to contents.
  type Private = map<nat, map<nat, seq<nat>>>

  datatype Step =
    | Create(c: nat)                                  // sys_exofork
    | Dup(p: nat, c: nat, v: nat)                     // one page of fork
    | AllocAt(e: nat, v: nat, perm: nat)              // sys_page_alloc
    | UnmapAt(e: nat, v: nat)                         // sys_page_unmap
    | StoreAt(e: nat, v: nat, k: nat, w: nat)         // a store instruction that does not fault
    | FaultAt(e: nat, v: nat)                         // a store that faults; the handler's sys_page_alloc
    | CopyTemp(e: nat)                                // the handler's memmove
    | MoveTemp(e: nat)                                // the handler's sys_page_map
    | DropTemp(e: nat)                                // the handler's sys_page_unmap
    | Exit(e: nat)                                    // env_destroy

  // The handler is invisible here: its four steps change nothing.
  ghost function PrivateStep(m: Private, op: Step): Private {
    match op
    case Create(c) => m[c := map[]]
    case Dup(p, c, v) => if p in m && c in m && v in m[p] then m[c := WithPage(m[c], v, m[p][v])] else m
    case AllocAt(e, v, _) => if e in m then m[e := WithPage(m[e], v, ZeroPage())] else m
    case UnmapAt(e, v) => if e in m then m[e := m[e] - {v}] else m
    case StoreAt(e, v, k, w) =>
      if e in m && v in m[e] && k < |m[e][v]| then m[e := WithWord(m[e], v, k, w)] else m
    case FaultAt(_, _) => m
    case CopyTemp(_) => m
    case MoveTemp(_) => m
    case DropTemp(_) => m
    case Exit(e) => m - {e}
  }

  ghost function AllData(s: Vm): Private {
    map e: nat | e < NENV && Dir(s, e).Some? :: Data(s, e)
  }

  datatype System = System(vm: Vm, faults: Faults)

  ghost predicate SystemInv(y: System) { CowInv(y.vm, y.faults) }

  // What the programs may do: no explicit sharing, PFTEMP belongs to the handler, and an
  // environment inside its handler only goes on with it or stores elsewhere.
  ghost predicate Legal(y: System, op: Step) {
    match op
    case Create(c) => c < NENV && Dir(y.vm, c).None?
    case Dup(p, c, v) => DupReady(y.vm, y.faults, p, c, v) && p != c
    case AllocAt(e, v, perm) => Live(y.vm, e, v) && v != PFTEMP && PermOk(perm) && e !in y.faults
    case UnmapAt(e, v) => Live(y.vm, e, v) && v != PFTEMP && e !in y.faults
    case StoreAt(e, v, k, w) =>
      && Live(y.vm, e, v) && v != PFTEMP && Mapped(y.vm, e, v) && k < NPTE && Writable(EntryAt(y.vm, e, v))
      && (e in y.faults ==> v != y.faults[e].v)
    case FaultAt(e, v) =>
      Live(y.vm, e, v) && v != PFTEMP && Mapped(y.vm, e, v) && !Writable(EntryAt(y.vm, e, v)) && e !in y.faults
    case CopyTemp(e) => e in y.faults && y.faults[e].stage.Allocated?
    case MoveTemp(e) => e in y.faults && y.faults[e].stage.Copied?
    case DropTemp(e) => e in y.faults && y.faults[e].stage.Moved?
    case Exit(e) => Live(y.vm, e, 0)
  }

  ghost function Memory(y: System, op: Step): Option<Vm>
    requires Legal(y, op)
  {
    var s := y.vm;
    match op
    case Create(c) => if SetupVm(s, c).1 then Some(SetupVm(s, c).0) else None
    case Dup(p, c, v) => DupPage(s, p, c, v)
    case AllocAt(e, v, perm) => AllocPage(s, e, v, perm)
    case UnmapAt(e, v) => Some(Remove(s, e, Pdx(v), Ptx(v)))
    case StoreAt(e, v, k, w) => Some(UserStore(s, e, v, k, w))
    case FaultAt(e, v) => AllocPage(s, e, PFTEMP, RW)
    case CopyTemp(e) => Some(CopyPage(s, e, PFTEMP, y.faults[e].v))
    case MoveTemp(e) => MapPage(s, e, PFTEMP, e, y.faults[e].v, RW)
    case DropTemp(e) => Some(Remove(s, e, Pdx(PFTEMP), Ptx(PFTEMP)))
    case Exit(e) => Some(EnvFree(s, e))
  }

  function NextFaults(faults: Faults, op: Step): Faults {
    match op
    case FaultAt(e, v) => faults[e := Fault(v, Allocated)]
    case CopyTemp(e) => if e in faults then faults[e := Fault(faults[e].v, Copied)] else faults
    case MoveTemp(e) => if e in faults then faults[e := Fault(faults[e].v, Moved)] else faults
    case DropTemp(e) => faults - {e}
    case Exit(e) => faults - {e}
    case _ => faults
  }

  // None: out of memory, and the program panics.
  ghost function CowStep(y: System, op: Step): Option<System>
    requires Legal(y, op)
  {
    match Memory(y, op)
    case None => None
    case Some(t) => Some(System(t, NextFaults(y.faults, op)))
  }

  /** Exactly which steps run out of memory: those that need a page, or a table, and find
      neither; the handler can fail at its first step only. */
  ghost predicate Enough(s: Vm, op: Step) {
    match op
    case Create(c) => s.free != []
    case Dup(p, c, v) => Mapped(s, p, v) && (Pde(s, c, Pdx(v)) != 0 || s.free != [])
    case AllocAt(e, v, _) => s.free != [] && !LosesPage(s, e, v)
    case FaultAt(e, _) => s.free != [] && !LosesPage(s, e, PFTEMP)
    case _ => true
  }

  lemma StepEnabled(y: System, op: Step)
    requires SystemInv(y) && Legal(y, op)
    ensures CowStep(y, op).Some? <==> Enough(y.vm, op)
  {
    match op
    case Create(c) => SetupOk(y.vm, SetupVm(y.vm, c).0, SetupVm(y.vm, c).1, c);
    case Dup(p, c, v) => DupSome(y.vm, y.faults, p, c, v);
    case AllocAt(e, v, perm) => AllocPageSome(y.vm, e, v, perm);
    case FaultAt(e, v) => AllocPageSome(y.vm, e, PFTEMP, RW);
    case MoveTemp(e) => MoveEnabled(y.vm, y.faults, e);
    case _ =>
  }

  lemma MoveEnabled(s: Vm, faults: Faults, e: nat)
    requires CowInv(s, faults) && e in faults && !faults[e].stage.Moved?
    ensures MapPage(s, e, PFTEMP, e, faults[e].v, RW).Some?
  {
    assert FaultOk(s, e, faults[e]);
    NotTwin(s, faults, e, PFTEMP);
    MapPageSome(s, e, PFTEMP, e, faults[e].v, RW);
  }

  // ---------------------------------------------------------------- refinement

  lemma AllDataAt(s: Vm, t: Vm, e: nat, data: map<nat, seq<nat>>)
    requires e < NENV && Dir(t, e).Some? && Data(t, e) == data && OthersKept(s, t, e)
    ensures AllData(t) == AllData(s)[e := data]
  {
  }

  // The same when no environment was created.
  lemma AllDataIn(s: Vm, t: Vm, e: nat, data: map<nat, seq<nat>>)
    requires e < NENV && Dir(s, e).Some? && t.dir == s.dir && Data(t, e) == data && OtherData(s, t, e)
    ensures AllData(t) == AllData(s)[e := data] && e in AllData(s) && AllData(s)[e] == Data(s, e)
  {
    AllDataAt(s, t, e, data);
  }

  lemma AllDataStutter(s: Vm, t: Vm)
    requires Stutter(s, t)
    ensures AllData(t) == AllData(s)
  {
  }

  lemma AllDataWithout(s: Vm, t: Vm, e: nat)
    requires Dir(t, e).None? && OthersKept(s, t, e)
    ensures AllData(t) == AllData(s) - {e}
  {
  }

  lemma DupRefines(s: Vm, t: Vm, faults: Faults, p: nat, c: nat, v: nat)
    requires CowInv(s, faults) && DupReady(s, faults, p, c, v) && p != c && DupPage(s, p, c, v) == Some(t)
    ensures CowInv(t, faults) && AllData(t) == PrivateStep(AllData(s), Dup(p, c, v))
  {
    DupOk(s, t, faults, p, c, v);
    AllDataIn(s, t, c, WithPage(Data(s, c), v, Data(s, p)[v]));
    assert p in AllData(s) && AllData(s)[p] == Data(s, p);
  }

  lemma StoreRefines(s: Vm, t: Vm, faults: Faults, e: nat, v: nat, k: nat, w: nat)
    requires CowInv(s, faults) && Legal(System(s, faults), StoreAt(e, v, k, w)) && t == UserStore(s, e, v, k, w)
    ensures CowInv(t, faults) && AllData(t) == PrivateStep(AllData(s), StoreAt(e, v, k, w))
  {
    StoreOk(s, t, faults, e, v, k, w);
    AllDataIn(s, t, e, WithWord(Data(s, e), v, k, w));
  }

  lemma PageRefines(s: Vm, t: Vm, faults: Faults, e: nat, v: nat, perm: nat)
    requires CowInv(s, faults) && Legal(System(s, faults), AllocAt(e, v, perm)) && AllocPage(s, e, v, perm) == Some(t)
    ensures CowInv(t, faults) && AllData(t) == PrivateStep(AllData(s), AllocAt(e, v, perm))
  {
    AllocOkCow(s, t, faults, e, v, perm);
    AllDataIn(s, t, e, WithPage(Data(s, e), v, ZeroPage()));
  }

  lemma UnmapRefines(s: Vm, t: Vm, faults: Faults, e: nat, v: nat)
    requires CowInv(s, faults) && Legal(System(s, faults), UnmapAt(e, v)) && t == Remove(s, e, Pdx(v), Ptx(v))
    ensures CowInv(t, faults) && AllData(t) == PrivateStep(AllData(s), UnmapAt(e, v))
  {
    UnmapOk(s, t, faults, e, v);
    AllDataIn(s, t, e, Data(s, e) - {v});
  }

  lemma CreateRefines(s: Vm, t: Vm, faults: Faults, c: nat)
    requires CowInv(s, faults) && c < NENV && Dir(s, c).None? && (t, true) == SetupVm(s, c)
    ensures CowInv(t, faults) && AllData(t) == PrivateStep(AllData(s), Create(c))
  {
    CreateOk(s, t, faults, c);
    AllDataAt(s, t, c, map[]);
  }

  lemma ExitRefines(s: Vm, t: Vm, faults: Faults, e: nat)
    requires CowInv(s, faults) && Live(s, e, 0) && t == EnvFree(s, e)
    ensures CowInv(t, faults - {e}) && AllData(t) == PrivateStep(AllData(s), Exit(e))
  {
    FreedOk(s, t, e);
    ExitOk(s, t, faults, e);
    AllDataWithout(s, t, e);
  }

  // The four steps of the handler.
  predicate Handling(op: Step) { op.FaultAt? || op.CopyTemp? || op.MoveTemp? || op.DropTemp? }

  lemma HandlingRefines(y: System, z: System, op: Step)
    requires SystemInv(y) && Legal(y, op) && CowStep(y, op) == Some(z) && Handling(op)
    ensures SystemInv(z) && AllData(z.vm) == AllData(y.vm)
  {
    match op {
      case FaultAt(e, v) => FaultStart(y.vm, z.vm, y.faults, e, v);
      case CopyTemp(e) => FaultCopy(y.vm, z.vm, y.faults, e);
      case MoveTemp(e) => MoveLive(y, e); FaultMove(y.vm, z.vm, y.faults, e);
      case DropTemp(e) => FaultEnd(y.vm, z.vm, y.faults, e);
    }
    AllDataStutter(y.vm, z.vm);
  }

  lemma MoveLive(y: System, e: nat)
    requires SystemInv(y) && e in y.faults
    ensures Live(y.vm, e, y.faults[e].v)
  {
    assert FaultOk(y.vm, e, y.faults[e]);
  }

  /** One step of the copy-on-write system is one step of the private-memory system, or none
      at all inside the fault handler. */
  lemma StepRefines(y: System, z: System, op: Step)
    requires SystemInv(y) && Legal(y, op) && CowStep(y, op) == Some(z)
    ensures SystemInv(z) && AllData(z.vm) == PrivateStep(AllData(y.vm), op)
  {
    if Handling(op) {
      HandlingRefines(y, z, op);
    }
    match op
    case Create(c) => CreateRefines(y.vm, z.vm, y.faults, c);
    case Dup(p, c, v) => DupRefines(y.vm, z.vm, y.faults, p, c, v);
    case AllocAt(e, v, perm) => PageRefines(y.vm, z.vm, y.faults, e, v, perm);
    case UnmapAt(e, v) => UnmapRefines(y.vm, z.vm, y.faults, e, v);
    case StoreAt(e, v, k, w) => StoreRefines(y.vm, z.vm, y.faults, e, v, k, w);
    case Exit(e) => ExitRefines(y.vm, z.vm, y.faults, e);
    case _ =>
  }

  ghost function PrivateRun(m: Private, ops: seq<Step>): Private
    decreases |ops|
  {
    if ops == [] then m else PrivateRun(PrivateStep(m, ops[0]), ops[1..])
  }

  ghost predicate CowRun(y: System, ops: seq<Step>, z: System)
    decreases |ops|
  {
    if ops == [] then z == y
    else Legal(y, ops[0]) && CowStep(y, ops[0]).Some? && CowRun(CowStep(y, ops[0]).value, ops[1..], z)
  }

  /** Copy-on-write refines private memory: after any run, with handlers of any number of
      environments under way, every environment reads at every page exactly what it would
      with memory of its own. */
  lemma {:induction false} RunRefines(y: System, ops: seq<Step>, z: System)
    requires SystemInv(y) && CowRun(y, ops, z)
    ensures SystemInv(z) && AllData(z.vm) == PrivateRun(AllData(y.vm), ops)
    decreases |ops|
  {
    if ops != [] {
      var y1 := CowStep(y, ops[0]).value;
      StepRefines(y, y1, ops[0]);
      RunRefines(y1, ops[1..], z);
    }
  }

  lemma BootCow(s: Vm)
    requires Boot(s)
    ensures SystemInv(System(s, map[])) && AllData(s) == map[]
  {
    BootOk(s);
    assert forall e: nat, v: nat :: !Mapped(s, e, v);
  }

  // ---------------------------------------------------------------- the handler in one go

  /** The handler succeeds exactly when a page is free that is not lost to a missing table for
      PFTEMP; then nobody's contents change and the faulting page is writable. */
  lemma PgFaultOk(s: Vm, faults: Faults, e: nat, v: nat)
    requires CowInv(s, faults) && Live(s, e, v) && Mapped(s, e, v) && v != PFTEMP && e !in faults
    ensures PgFault(s, e, v).Some? <==> s.free != [] && !LosesPage(s, e, PFTEMP)
    ensures PgFault(s, e, v).Some? ==>
              var t := PgFault(s, e, v).value;
              CowInv(t, faults) && Stutter(s, t) && Mapped(t, e, v) && Writable(EntryAt(t, e, v))
  {
    AllocPageSome(s, e, PFTEMP, RW);
    if AllocPage(s, e, PFTEMP, RW).Some? {
      var s1 := AllocPage(s, e, PFTEMP, RW).value;
      var s2 := CopyPage(s1, e, PFTEMP, v);
      HandlerHalf(s, s1, s2, faults, e, v);
      MoveEnabled(s2, faults[e := Fault(v, Copied)], e);
      var s3 := MapPage(s2, e, PFTEMP, e, v, RW).value;
      HandlerRest(s2, s3, Remove(s3, e, Pdx(PFTEMP), Ptx(PFTEMP)), faults, e, v);
    }
  }

  lemma HandlerHalf(s: Vm, s1: Vm, s2: Vm, faults: Faults, e: nat, v: nat)
    requires CowInv(s, faults) && Live(s, e, v) && Mapped(s, e, v) && v != PFTEMP && e !in faults
    requires AllocPage(s, e, PFTEMP, RW) == Some(s1) && s2 == CopyPage(s1, e, PFTEMP, v)
    ensures CowInv(s1, faults[e := Fault(v, Allocated)])
    ensures CowInv(s2, faults[e := Fault(v, Copied)]) && Stutter(s, s2)
  {
    FaultsAgain(faults, e, Fault(v, Allocated), Fault(v, Copied));
    FaultStart(s, s1, faults, e, v);
    FaultCopy(s1, s2, faults[e := Fault(v, Allocated)], e);
  }

  lemma HandlerRest(s: Vm, s3: Vm, t: Vm, faults: Faults, e: nat, v: nat)
    requires CowInv(s, faults[e := Fault(v, Copied)]) && Live(s, e, v) && e !in faults
    requires MapPage(s, e, PFTEMP, e, v, RW) == Some(s3) && t == Remove(s3, e, Pdx(PFTEMP), Ptx(PFTEMP))
    ensures CowInv(s3, faults[e := Fault(v, Moved)])
    ensures CowInv(t, faults) && Stutter(s, t) && Mapped(t, e, v) && Writable(EntryAt(t, e, v))
  {
    FaultsAgain(faults, e, Fault(v, Copied), Fault(v, Moved));
    FaultsAgain(faults, e, Fault(v, Moved), Fault(v, Moved));
    FaultMove(s, s3, faults[e := Fault(v, Copied)], e);
    FaultEnd(s3, t, faults[e := Fault(v, Moved)], e);
  }

  // ---------------------------------------------------------------- what the handler costs

  // A page mapped at two slots has two references.
  lemma TwoRefs(s: Vm, e: nat, v: nat, f: nat, u: nat)
    requires Inv(s) && Mapped(s, e, v) && Mapped(s, f, u) && (e != f || v != u) && FrameAt(s, e, v) == FrameAt(s, f, u)
    ensures RefCount(s, FrameAt(s, e, v)) >= 2
  {
    MappedPage(s, e, v);
    Vpn(v);
    Vpn(u);
    var a, b := PteRef(e, Pdx(v), Ptx(v)), PteRef(f, Pdx(u), Ptx(u));
    assert a in Refs(s, FrameAt(s, e, v)) && b in Refs(s, FrameAt(s, e, v));
    SubsetSize({a, b}, Refs(s, FrameAt(s, e, v)));
  }

  // The handler's new page, and the table for PFTEMP if there is none yet.
  function FaultPages(s: Vm, e: nat): nat { AllocCost(s, e, PFTEMP) }

  // The handler has changed slot v only, and has left a table for PFTEMP.
  ghost predicate FaultSlots(s: Vm, t: Vm, e: nat, v: nat) {
    && OthersSame(s, t, e, v) && Pde(t, e, Pdx(PFTEMP)) != 0
    && forall f: nat, k: nat :: f < NENV && k < NPDU && !(f == e && k == Pdx(PFTEMP)) ==>
         (Pde(t, f, k) == 0 <==> Pde(s, f, k) == 0)
  }

  // One page comes back if slot v alone mapped it.
  function BackPages(s: Vm, e: nat, v: nat): nat { if RefCount(s, FrameAt(s, e, v)) == 1 then 1 else 0 }

  /** A handled write fault costs a page and perhaps a table, gives the old page back if nobody
      else maps it, and touches no other slot of anybody. */
  lemma FaultTakes(s: Vm, t: Vm, faults: Faults, e: nat, v: nat)
    requires CowInv(s, faults) && Live(s, e, v) && Mapped(s, e, v) && v != PFTEMP && e !in faults
    requires PgFault(s, e, v) == Some(t)
    ensures |t.free| + FaultPages(s, e) == |s.free| + BackPages(s, e, v) && FaultSlots(s, t, e, v)
    ensures EntryAt(s, e, PFTEMP) == 0
  {
    var s1 := AllocPage(s, e, PFTEMP, RW).value;
    var s2 := CopyPage(s1, e, PFTEMP, v);
    var s3 := MapPage(s2, e, PFTEMP, e, v, RW).value;
    HandlerHalf(s, s1, s2, faults, e, v);
    FirstTakes(s, s1, s2, faults, e, v);
    RestTakes(s2, s3, t, faults[e := Fault(v, Copied)], e, v);
    NoTempBefore(s, faults, e);
    BothHalves(s, s2, t, e, v);
  }

  lemma NoTempBefore(s: Vm, faults: Faults, e: nat)
    requires Handlers(s, faults) && e < NENV && e !in faults
    ensures EntryAt(s, e, PFTEMP) == 0
  {
    assert !Mapped(s, e, PFTEMP);
  }

  lemma FirstTakes(s: Vm, s1: Vm, s2: Vm, faults: Faults, e: nat, v: nat)
    requires CowInv(s, faults) && Live(s, e, v) && Mapped(s, e, v) && v != PFTEMP && e !in faults
    requires AllocPage(s, e, PFTEMP, RW) == Some(s1) && s2 == CopyPage(s1, e, PFTEMP, v)
    requires CowInv(s1, faults[e := Fault(v, Allocated)]) && CowInv(s2, faults[e := Fault(v, Copied)])
    ensures |s2.free| + FaultPages(s, e) == |s.free| && OthersSame(s, s2, e, PFTEMP) && TableTaken(s, s2, e, Pdx(PFTEMP))
    ensures RefCount(s2, FrameAt(s, e, v)) == RefCount(s, FrameAt(s, e, v))
  {
    AllocPageOk(s, s1, e, PFTEMP, RW);
    assert FaultOk(s1, e, faults[e := Fault(v, Allocated)][e]);
    MappedPage(s1, e, PFTEMP);
    MappedPage(s1, e, v);
    PokeOk(s1, s2, FrameAt(s1, e, PFTEMP), PageOf(s1, FrameAt(s1, e, v)));
    Vpn(PFTEMP);
    SameCount(s, s2, faults, e, v);
  }

  // The references to the faulting page are as before the allocation.
  lemma SameCount(s: Vm, s2: Vm, faults: Faults, e: nat, v: nat)
    requires CowInv(s, faults) && Mapped(s, e, v) && v != PFTEMP && e !in faults && OthersSame(s, s2, e, PFTEMP)
    requires CowInv(s2, faults[e := Fault(v, Copied)])
    ensures RefCount(s2, FrameAt(s, e, v)) == RefCount(s, FrameAt(s, e, v))
  {
    NoTempBefore(s, faults, e);
    assert FaultOk(s2, e, faults[e := Fault(v, Copied)][e]);
    OnlyTemp(s2, faults[e := Fault(v, Copied)], e);
    MappedPage(s, e, v);
    MappedPage(s2, e, v);
    RefsShrink(s, s2, e, PFTEMP, FrameAt(s, e, v));
    RefsShrink(s2, s, e, PFTEMP, FrameAt(s, e, v));
  }

  lemma RestTakes(s2: Vm, s3: Vm, t: Vm, faults: Faults, e: nat, v: nat)
    requires CowInv(s2, faults) && e in faults && faults[e] == Fault(v, Copied) && Live(s2, e, v)
    requires MapPage(s2, e, PFTEMP, e, v, RW) == Some(s3) && t == Remove(s3, e, Pdx(PFTEMP), Ptx(PFTEMP))
    ensures |t.free| == |s2.free| + BackPages(s2, e, v) && t.dir == s2.dir && EntryAt(t, e, PFTEMP) == 0
    ensures forall g: nat, u: nat :: g < NENV && u < NVPN && !(g == e && (u == v || u == PFTEMP)) ==> EntryAt(t, g, u) == EntryAt(s2, g, u)
    ensures forall g: nat, k: nat :: g < NENV && k < NPDU ==> (Pde(t, g, k) == 0 <==> Pde(s2, g, k) == 0)
  {
    assert FaultOk(s2, e, faults[e]);
    NotTwin(s2, faults, e, PFTEMP);
    OnlyTemp(s2, faults, e);
    MapPageOk(s2, s3, e, PFTEMP, e, v, RW);
    RwWord(FrameAt(s2, e, PFTEMP), EntryAt(s3, e, v));
    TwoRefs(s3, e, PFTEMP, e, v);
    RemoveRefines(s3, t, e, PFTEMP);
    Vpn(v);
  }

  lemma BothHalves(s: Vm, s2: Vm, t: Vm, e: nat, v: nat)
    requires e < NENV && v < NVPN && EntryAt(s, e, PFTEMP) == 0 && EntryAt(t, e, PFTEMP) == 0 && t.dir == s2.dir
    requires OthersSame(s, s2, e, PFTEMP) && TableTaken(s, s2, e, Pdx(PFTEMP))
    requires forall g: nat, u: nat :: g < NENV && u < NVPN && !(g == e && (u == v || u == PFTEMP)) ==> EntryAt(t, g, u) == EntryAt(s2, g, u)
    requires forall g: nat, k: nat :: g < NENV && k < NPDU ==> (Pde(t, g, k) == 0 <==> Pde(s2, g, k) == 0)
    ensures FaultSlots(s, t, e, v)
  {
    Vpn(PFTEMP);
  }
}
