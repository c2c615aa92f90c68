/** The user library's fork and page-fault handler (sched/lib/fork.c) as loops of system
    calls on the kernel object, run without interruption while other environments may be
    anywhere inside handlers of their own.  What the program stores itself faults as it would:
    the word of _pgfault_handler, and the stack, which fork has just made copy-on-write. */
module Fork {
  import opened Base
  import opened Paging
  import opened AddressSpace
  import opened Pmap
  import opened Cow

  // uvpd[pn >> 10] and uvpt[pn]: the self-map shows a program its own page-table entries.
  method Uvpt(k: Kernel, e: nat, pn: nat) returns (pte: nat)
    requires k.Valid() && Inv(k.State()) && Live(k.State(), e, pn)
    ensures pte == EntryAt(k.State(), e, pn)
  {
    Vpn(pn);
    RealSlot(k.State(), e, Pdx(pn), Ptx(pn), None);
    var pde := k.memory[k.pgdirs[e].value][Pdx(pn)];
    pte := if pde == 0 then 0 else k.memory[Paging.Frame(pde)][Ptx(pn)];
  }

  method SysPageMap(k: Kernel, se: nat, sv: nat, de: nat, dv: nat, perm: nat) returns (ok: bool)
    requires k.Valid() && Inv(k.State()) && OneNumber(k.State(), se, sv) && Live(k.State(), se, sv) && Live(k.State(), de, dv)
    requires perm < PGSIZE
    modifies k`freeList, k`free, k.links, k.refs, k.memory
    ensures k.Valid() && ok == MapPage(old(k.State()), se, sv, de, dv, perm).Some?
    ensures ok ==> k.State() == MapPage(old(k.State()), se, sv, de, dv, perm).value
  {
    PageAddress(sv);
    PageAddress(dv);
    if Mapped(k.State(), se, sv) {
      RefsOfPage(k.State(), se, sv);
    }
    var r := k.EnvPageMapping(se, sv * PGSIZE, de, dv * PGSIZE, perm);
    ok := r == 0;
  }

  lemma PageAddress(v: nat)
    requires v < NVPN
    ensures v * PGSIZE < UTOP && PGNUM(v * PGSIZE) == v && PDX(v * PGSIZE) == Pdx(v) && PTX(v * PGSIZE) == Ptx(v)
  {
    Indexes(v * PGSIZE);
  }

  method Duppage(k: Kernel, p: nat, c: nat, pn: nat, ghost faults: Faults) returns (ok: bool)
    requires k.Valid() && CowInv(k.State(), faults) && DupReady(k.State(), faults, p, c, pn) && p != c
    modifies k`freeList, k`free, k.links, k.refs, k.memory
    ensures k.Valid() && ok == DupPage(old(k.State()), p, c, pn).Some?
    ensures ok ==> k.State() == DupPage(old(k.State()), p, c, pn).value
  {
    ghost var s := k.State();
    NotTwin(s, faults, p, pn);
    var pte := Uvpt(k, p, pn);
    if pte % 2 == 0 || !IsUser(pte) {
      return false;
    }
    var perm := DupPerm(pte);
    if Writable(pte) || IsCow(pte) {
      DupPerms(pte, Paging.Frame(pte), PTE_COW);
      ok := SysPageMap(k, p, pn, c, pn, perm + PTE_COW);
      if ok {
        DupStep(s, k.State(), faults, p, c, pn, perm + PTE_COW, Entry(Paging.Frame(pte), perm + PTE_COW));
        NotTwin(k.State(), faults, p, pn);
        ok := SysPageMap(k, p, pn, p, pn, perm + PTE_COW);
      }
    } else {
      DupPerms(pte, Paging.Frame(pte), 0);
      ok := SysPageMap(k, p, pn, c, pn, perm);
    }
  }

  // The pages below `v`, without the exception stack.
  ghost function Below(m: map<nat, seq<nat>>, v: nat): map<nat, seq<nat>> {
    map u | u in m && u < v && u != XSTACK :: m[u]
  }

  lemma BelowNext(m: map<nat, seq<nat>>, v: nat)
    ensures Below(m, v + 1) == if v in m && v != XSTACK then Below(m, v)[v := m[v]] else Below(m, v)
  {
  }

  // The directory slots that a memory touches: one page table each.
  ghost function Tables(m: map<nat, seq<nat>>): set<nat> { set v | v in m :: Pdx(v) }

  lemma TablesNext(m: map<nat, seq<nat>>, v: nat)
    ensures Tables(Below(m, v + 1)) == Tables(Below(m, v)) + if v in m && v != XSTACK then {Pdx(v)} else {}
  {
    forall i ensures i in Tables(Below(m, v + 1)) <==> i in Tables(Below(m, v)) || (v in m && v != XSTACK && i == Pdx(v)) {
      if i in Tables(Below(m, v)) {
        var u :| u in Below(m, v) && Pdx(u) == i;
        assert u in Below(m, v + 1);
      }
      if v in m && v != XSTACK && i == Pdx(v) {
        assert v in Below(m, v + 1);
      }
    }
  }

  lemma TablesGrow(m: map<nat, seq<nat>>, v: nat)
    requires v <= NVPN
    ensures |Tables(Below(m, v))| <= |Tables(Below(m, NVPN))|
  {
    assert Below(m, v).Keys <= Below(m, NVPN).Keys;
    SubsetSize(Tables(Below(m, v)), Tables(Below(m, NVPN)));
  }

  // ---------------------------------------------------------------- a store that may fault

  // page_fault_handler destroys an environment without a writable exception stack.
  predicate HasStack(s: Vm, e: nat) { Mapped(s, e, XSTACK) && Writable(EntryAt(s, e, XSTACK)) }

  // Slot v made writable by the fault that a store to it takes, if any; None ends the program.
  function Written(s: Vm, e: nat, v: nat): Option<Vm> {
    if Writable(EntryAt(s, e, v)) then Some(s) else if HasStack(s, e) then PgFault(s, e, v) else None
  }

  // What that takes from the free list and gives back to it.
  function WriteTakes(s: Vm, e: nat, v: nat): nat { if Writable(EntryAt(s, e, v)) then 0 else FaultPages(s, e) }
  function WriteGives(s: Vm, e: nat, v: nat): nat { if Writable(EntryAt(s, e, v)) then 0 else BackPages(s, e, v) }

  // Directory slots in use stay so, and no other comes into use but that of PFTEMP in e.
  ghost predicate SameSlots(s: Vm, t: Vm, e: nat) {
    forall f: nat, k: nat :: f < NENV && k < NPDU && !(f == e && k == Pdx(PFTEMP)) ==> (Pde(t, f, k) == 0 <==> Pde(s, f, k) == 0)
  }

  lemma WrittenOk(s: Vm, faults: Faults, e: nat, v: nat)
    requires CowInv(s, faults) && Live(s, e, v) && Mapped(s, e, v) && v != PFTEMP && e !in faults
    ensures Written(s, e, v).Some? <==> Writable(EntryAt(s, e, v)) || (HasStack(s, e) && |s.free| >= FaultPages(s, e))
    ensures Written(s, e, v).Some? ==> WrittenTo(s, Written(s, e, v).value, faults, e, v)
  {
    if !Writable(EntryAt(s, e, v)) {
      PgFaultOk(s, faults, e, v);
      NoTempBefore(s, faults, e);
      if PgFault(s, e, v).Some? {
        FaultTakes(s, PgFault(s, e, v).value, faults, e, v);
      }
    }
  }

  ghost predicate WrittenTo(s: Vm, t: Vm, faults: Faults, e: nat, v: nat) {
    && CowInv(t, faults) && Stutter(s, t) && Mapped(t, e, v) && Writable(EntryAt(t, e, v))
    && OthersSame(s, t, e, v) && SameSlots(s, t, e)
    && |t.free| + WriteTakes(s, e, v) == |s.free| + WriteGives(s, e, v)
    && (Pde(t, e, Pdx(PFTEMP)) == 0 <==> Pde(s, e, Pdx(PFTEMP)) == 0 && Writable(EntryAt(s, e, v)))
  }

  /** A store to page v, up to the point where it goes through. */
  method MakeWritable(k: Kernel, e: nat, v: nat, ghost faults: Faults) returns (ok: bool)
    requires k.Valid() && CowInv(k.State(), faults) && Live(k.State(), e, v) && Mapped(k.State(), e, v)
    requires v != PFTEMP && e !in faults
    modifies k`freeList, k`free, k.links, k.refs, k.memory
    ensures k.Valid() && ok == Written(old(k.State()), e, v).Some?
    ensures ok ==> k.State() == Written(old(k.State()), e, v).value
  {
    var pte := Uvpt(k, e, v);
    if Writable(pte) {
      return true;
    }
    var stack := Uvpt(k, e, XSTACK);
    if stack == 0 || !Writable(stack) {
      return false;
    }
    ok := Pgfault(k, e, v, faults);
  }

  // ---------------------------------------------------------------- set_pgfault_handler

  // The first time it allocates the exception stack; then it stores word w at index i of page hv.
  // Before that first store a fault finds no handler to call.
  function HandlerSet(s: Vm, e: nat, hv: nat, i: nat, w: nat, first: bool): Option<Vm> {
    match (if first then AllocPage(s, e, XSTACK, RW) else Some(s))
    case None => None
    case Some(s1) =>
      if first && !Writable(EntryAt(s1, e, hv)) then None
      else match Written(s1, e, hv)
        case None => None
        case Some(t) => Some(UserStore(t, e, hv, i, w))
  }

  // The words of _pgfault_handler lie in page hv of e, the frame of fork in page `stack`.
  ghost predicate ForkReady(s: Vm, faults: Faults, e: nat, hv: nat, i: nat, stack: nat) {
    && CowInv(s, faults) && e !in faults && Live(s, e, 0) && i < NPTE
    && Mapped(s, e, hv) && hv != PFTEMP && hv != XSTACK
    && Mapped(s, e, stack) && stack != PFTEMP && stack != XSTACK && Writable(EntryAt(s, e, stack))
  }

  // The memory of the parent when exofork is called.
  ghost function Prepared(m: map<nat, seq<nat>>, hv: nat, i: nat, w: nat, first: bool): map<nat, seq<nat>>
    requires hv in m && i < |m[hv]| && hv != XSTACK
  {
    WithWord(if first then m[XSTACK := ZeroPage()] else m, hv, i, w)
  }

  // What set_pgfault_handler takes from the free list, less what it gives back.
  function SetTakes(s: Vm, e: nat, hv: nat, first: bool): nat {
    if first then AllocCost(s, e, XSTACK) else WriteTakes(s, e, hv)
  }

  function SetGives(s: Vm, e: nat, hv: nat, first: bool): nat { if first then 0 else WriteGives(s, e, hv) }

  // Whether its own store, and every later fault, can be handled at all.
  predicate CanFault(s: Vm, e: nat, hv: nat, first: bool) {
    if first then Writable(EntryAt(s, e, hv)) else HasStack(s, e)
  }

  lemma FirstStack(s: Vm, s1: Vm, faults: Faults, e: nat)
    requires CowInv(s, faults) && e !in faults && Live(s, e, 0) && AllocPage(s, e, XSTACK, RW) == Some(s1)
    ensures CowInv(s1, faults) && s1.dir == s.dir && OtherData(s, s1, e) && Data(s1, e) == Data(s, e)[XSTACK := ZeroPage()]
    ensures HasStack(s1, e) && OthersSame(s, s1, e, XSTACK) && |s1.free| + AllocCost(s, e, XSTACK) == |s.free|
    ensures Pde(s1, e, Pdx(PFTEMP)) == Pde(s, e, Pdx(PFTEMP))
  {
    AllocPageOk(s, s1, e, XSTACK, RW);
    AllocOkCow(s, s1, faults, e, XSTACK, RW);
    RwWord(s.free[0], EntryAt(s1, e, XSTACK));
  }

  lemma StoreKeeps(s: Vm, t: Vm, e: nat, v: nat, i: nat, w: nat)
    requires Inv(s) && e < NENV && v < NVPN && t == UserStore(s, e, v, i, w)
    ensures t.free == s.free && forall f: nat, u: nat :: f < NENV && u < NVPN ==> EntryAt(t, f, u) == EntryAt(s, f, u)
    ensures forall f: nat, k: nat :: f < NENV && k < NPDU ==> (Pde(t, f, k) == 0 <==> Pde(s, f, k) == 0)
  {
    UserStoreOk(s, t, e, v, i, w);
    forall f: nat, u: nat | f < NENV && u < NVPN ensures EntryAt(t, f, u) == EntryAt(s, f, u) {
      Vpn(u);
    }
    forall f: nat, k: nat | f < NENV && k < NPDU ensures Pde(t, f, k) == 0 <==> Pde(s, f, k) == 0 {
      assert Target(t, TabRef(f, k)) == Target(s, TabRef(f, k));
    }
  }

  // What a successful set_pgfault_handler leaves.
  ghost predicate HandlerSetTo(s: Vm, t: Vm, faults: Faults, e: nat, hv: nat, i: nat, w: nat, first: bool)
  {
    && CowInv(t, faults) && t.dir == s.dir && OtherData(s, t, e)
    && hv in Data(s, e) && i < |Data(s, e)[hv]| && hv != XSTACK && Data(t, e) == Prepared(Data(s, e), hv, i, w, first)
    && (HasStack(t, e) <==> first || HasStack(s, e))
    && |t.free| + SetTakes(s, e, hv, first) == |s.free| + SetGives(s, e, hv, first)
    && (Pde(t, e, Pdx(PFTEMP)) == 0 <==> Pde(s, e, Pdx(PFTEMP)) == 0 && Writable(EntryAt(s, e, hv)))
  }

  /** set_pgfault_handler succeeds exactly when the exception stack can be had the first time,
      and when later its store does not fault or the fault can be handled. */
  lemma HandlerSetSome(s: Vm, faults: Faults, e: nat, hv: nat, i: nat, w: nat, first: bool, stack: nat)
    requires ForkReady(s, faults, e, hv, i, stack)
    ensures HandlerSet(s, e, hv, i, w, first).Some? <==> Settable(s, e, hv, first)
  {
    if first {
      AllocPageSome(s, e, XSTACK, RW);
      if AllocPage(s, e, XSTACK, RW).Some? {
        FirstStack(s, AllocPage(s, e, XSTACK, RW).value, faults, e);
      }
    } else {
      WrittenOk(s, faults, e, hv);
    }
  }

  lemma HandlerSetOk(s: Vm, t: Vm, faults: Faults, e: nat, hv: nat, i: nat, w: nat, first: bool, stack: nat)
    requires ForkReady(s, faults, e, hv, i, stack) && HandlerSet(s, e, hv, i, w, first) == Some(t)
    ensures HandlerSetTo(s, t, faults, e, hv, i, w, first) && ForkReady(t, faults, e, hv, i, stack)
  {
    if first {
      var s1 := AllocPage(s, e, XSTACK, RW).value;
      assert EntryAt(s1, e, hv) == EntryAt(s, e, hv) by { FirstStack(s, s1, faults, e); }
      SetFirst(s, s1, t, faults, e, hv, i, w, stack);
    } else {
      var s1 := Written(s, e, hv).value;
      assert WrittenTo(s, s1, faults, e, hv) by { WrittenOk(s, faults, e, hv); }
      SetAgain(s, s1, t, faults, e, hv, i, w, stack);
    }
  }

  predicate Settable(s: Vm, e: nat, hv: nat, first: bool) {
    if first then s.free != [] && !LosesPage(s, e, XSTACK) && Writable(EntryAt(s, e, hv))
    else Writable(EntryAt(s, e, hv)) || (HasStack(s, e) && |s.free| >= FaultPages(s, e))
  }

  lemma SetFirst(s: Vm, s1: Vm, t: Vm, faults: Faults, e: nat, hv: nat, i: nat, w: nat, stack: nat)
    requires ForkReady(s, faults, e, hv, i, stack) && AllocPage(s, e, XSTACK, RW) == Some(s1)
    requires Writable(EntryAt(s, e, hv)) && t == UserStore(s1, e, hv, i, w)
    ensures Writable(EntryAt(s1, e, hv)) && HandlerSetTo(s, t, faults, e, hv, i, w, true) && ForkReady(t, faults, e, hv, i, stack)
  {
    FirstStack(s, s1, faults, e);
    assert ForkReady(s1, faults, e, hv, i, stack);
    WordStored(s1, t, faults, e, hv, i, w, stack);
  }

  lemma SetAgain(s: Vm, s1: Vm, t: Vm, faults: Faults, e: nat, hv: nat, i: nat, w: nat, stack: nat)
    requires ForkReady(s, faults, e, hv, i, stack) && WrittenTo(s, s1, faults, e, hv) && t == UserStore(s1, e, hv, i, w)
    ensures HandlerSetTo(s, t, faults, e, hv, i, w, false) && ForkReady(t, faults, e, hv, i, stack)
  {
    assert EntryAt(s1, e, XSTACK) == EntryAt(s, e, XSTACK);
    assert ForkReady(s1, faults, e, hv, i, stack);
    WordStored(s1, t, faults, e, hv, i, w, stack);
  }

  lemma WordStored(s: Vm, t: Vm, faults: Faults, e: nat, hv: nat, i: nat, w: nat, stack: nat)
    requires ForkReady(s, faults, e, hv, i, stack) && Writable(EntryAt(s, e, hv)) && t == UserStore(s, e, hv, i, w)
    ensures ForkReady(t, faults, e, hv, i, stack) && t.dir == s.dir && OtherData(s, t, e) && t.free == s.free
    ensures hv in Data(s, e) && i < |Data(s, e)[hv]| && Data(t, e) == WithWord(Data(s, e), hv, i, w)
    ensures (HasStack(t, e) <==> HasStack(s, e)) && (Pde(t, e, Pdx(PFTEMP)) == 0 <==> Pde(s, e, Pdx(PFTEMP)) == 0)
  {
    Cow.StoreOk(s, t, faults, e, hv, i, w);
    StoreKeeps(s, t, e, hv, i, w);
    Vpn(PFTEMP);
  }

  /** set_pgfault_handler: what HandlerSet says.  Where the C code gives up on the exception stack and
      returns, exofork fails next, for want of the same page. */
  method SetPgfaultHandler(k: Kernel, e: nat, hv: nat, i: nat, w: nat, first: bool, ghost faults: Faults, ghost stack: nat)
    returns (ok: bool)
    requires k.Valid() && ForkReady(k.State(), faults, e, hv, i, stack)
    modifies k`freeList, k`free, k.links, k.refs, k.memory
    ensures k.Valid() && ok == HandlerSet(old(k.State()), e, hv, i, w, first).Some?
    ensures ok ==> k.State() == HandlerSet(old(k.State()), e, hv, i, w, first).value
  {
    ghost var s := k.State();
    if first {
      PageAddress(XSTACK);
      var r := k.EnvPageAllocate(e, XSTACK * PGSIZE, RW);
      if r < 0 {
        return false;
      }
      FirstStack(s, k.State(), faults, e);
      var pte := Uvpt(k, e, hv);
      if !Writable(pte) {
        return false;
      }
    }
    ok := StoreHandler(k, e, hv, i, w, faults);
  }

  // _pgfault_handler = handler
  method StoreHandler(k: Kernel, e: nat, hv: nat, i: nat, w: nat, ghost faults: Faults) returns (ok: bool)
    requires k.Valid() && CowInv(k.State(), faults) && e !in faults && Live(k.State(), e, hv) && Mapped(k.State(), e, hv)
    requires hv != PFTEMP && i < NPTE
    modifies k`freeList, k`free, k.links, k.refs, k.memory
    ensures k.Valid() && ok == Written(old(k.State()), e, hv).Some?
    ensures ok ==> k.State() == UserStore(Written(old(k.State()), e, hv).value, e, hv, i, w)
  {
    WrittenOk(k.State(), faults, e, hv);
    ok := MakeWritable(k, e, hv, faults);
    if ok {
      StoreWord(k, e, hv, i, w);
    }
  }

  // A store that goes through.
  method StoreWord(k: Kernel, e: nat, v: nat, i: nat, w: nat)
    requires k.Valid() && Inv(k.State()) && Live(k.State(), e, v) && Mapped(k.State(), e, v) && i < NPTE
    requires UserBits(k.State()) && Writable(EntryAt(k.State(), e, v))
    modifies k.memory
    ensures k.Valid() && k.State() == UserStore(old(k.State()), e, v, i, w)
  {
    MappedPage(k.State(), e, v);
    var pte := Uvpt(k, e, v);
    var page: seq<nat> := k.memory[Paging.Frame(pte)][i := w];
    k.memory[Paging.Frame(pte)] := page;
  }

  // ---------------------------------------------------------------- fork

  // What fork takes from the free list: a directory, an exception stack and a page table for each
  // region that the child's memory touches; and for the parent a new page for its stack, which
  // the loop makes copy-on-write and the next call writes, with a table for PFTEMP if need be.
  ghost function ForkPages(s: Vm, p: nat): nat { 2 + |Tables(Child(Data(s, p)))| + FaultPages(s, p) }

  // The child's memory after fork: the parent's, with a fresh exception stack.
  ghost function Child(m: map<nat, seq<nat>>): map<nat, seq<nat>> { Below(m, NVPN)[XSTACK := ZeroPage()] }

  // The pages already taken for the parent's stack: none before slot `stack` is copied, and none
  // until the first store after that.
  function StackPaid(s: Vm, t: Vm, p: nat, pn: nat, stack: nat): nat {
    if pn > stack && Writable(EntryAt(t, p, stack)) then FaultPages(s, p) else 0
  }

  // The parent's stack is writable, or has been copied and is shared with the child.
  ghost predicate StackState(s: Vm, t: Vm, p: nat, c: nat, pn: nat, stack: nat) {
    && Mapped(t, p, stack) && (HasStack(t, p) <==> HasStack(s, p))
    && (pn > stack && Writable(EntryAt(t, p, stack)) ==> HasStack(s, p))
    && (Writable(EntryAt(t, p, stack)) || (pn > stack && Mapped(t, c, stack) && FrameAt(t, c, stack) == FrameAt(t, p, stack)))
    && (StackPaid(s, t, p, pn, stack) == 0 ==> (Pde(t, p, Pdx(PFTEMP)) == 0 <==> Pde(s, p, Pdx(PFTEMP)) == 0))
  }

  // The child has the parent's pages below pn and one table for each region they touch; the
  // free list has paid for those and for the parent's stack; nothing else has changed.
  ghost predicate CopiedTo(s: Vm, t: Vm, faults: Faults, p: nat, c: nat, pn: nat, stack: nat) {
    && CowInv(t, faults) && t.dir == s.dir && Data(t, c) == Below(Data(s, p), pn) && OtherData(s, t, c)
    && ChildSlots(t, c, Tables(Below(Data(s, p), pn)))
    && |t.free| + |Tables(Below(Data(s, p), pn))| + StackPaid(s, t, p, pn, stack) == |s.free|
    && StackState(s, t, p, c, pn, stack)
  }

  ghost predicate ChildSlots(t: Vm, c: nat, tables: set<nat>) {
    forall i: nat :: i < NPDU ==> (Pde(t, c, i) != 0 <==> i in tables)
  }

  // Who forks, at which page the loop may be.
  ghost predicate Forking(s: Vm, faults: Faults, p: nat, c: nat, stack: nat) {
    && DupReady(s, faults, p, c, 0) && p != c && Mapped(s, p, stack) && stack != PFTEMP && stack != XSTACK
    && EntryAt(s, p, PFTEMP) == 0
  }

  lemma CopiedStart(s: Vm, faults: Faults, p: nat, c: nat, stack: nat)
    requires CowInv(s, faults) && Forking(s, faults, p, c, stack) && Writable(EntryAt(s, p, stack))
    requires Data(s, c) == map[] && forall i: nat :: i < NPDU ==> Pde(s, c, i) == 0
    ensures CopiedTo(s, s, faults, p, c, 0, stack)
  {
    assert Below(Data(s, p), 0) == map[];
    assert Tables(map[]) == {};
  }

  lemma CopiedSkip(s: Vm, t: Vm, faults: Faults, p: nat, c: nat, pn: nat, stack: nat)
    requires CopiedTo(s, t, faults, p, c, pn, stack) && Forking(s, faults, p, c, stack)
    requires pn !in Data(s, p) || pn == XSTACK
    ensures CopiedTo(s, t, faults, p, c, pn + 1, stack)
  {
    BelowNext(Data(s, p), pn);
  }

  // The parent stores to its stack.
  lemma CopiedPushed(s: Vm, t: Vm, t': Vm, faults: Faults, p: nat, c: nat, pn: nat, stack: nat)
    requires CopiedTo(s, t, faults, p, c, pn, stack) && Forking(s, faults, p, c, stack) && Written(t, p, stack) == Some(t')
    ensures CopiedTo(s, t', faults, p, c, pn, stack) && Writable(EntryAt(t', p, stack))
  {
    WrittenOk(t, faults, p, stack);
    if !Writable(EntryAt(t, p, stack)) {
      TwoRefs(t, p, stack, c, stack);
      PushedSlots(s, t, t', faults, p, c, pn, stack);
      PushedCount(s, t, t', faults, p, c, pn, stack);
    }
  }

  lemma PushedSlots(s: Vm, t: Vm, t': Vm, faults: Faults, p: nat, c: nat, pn: nat, stack: nat)
    requires CopiedTo(s, t, faults, p, c, pn, stack) && Forking(s, faults, p, c, stack) && WrittenTo(t, t', faults, p, stack)
    requires !Writable(EntryAt(t, p, stack))
    ensures ChildSlots(t', c, Tables(Below(Data(s, p), pn))) && t'.dir == s.dir && OtherData(s, t', c)
    ensures Data(t', c) == Below(Data(s, p), pn) && (HasStack(t', p) <==> HasStack(s, p)) && pn > stack
  {
    assert EntryAt(t', p, XSTACK) == EntryAt(t, p, XSTACK);
  }

  lemma PushedCount(s: Vm, t: Vm, t': Vm, faults: Faults, p: nat, c: nat, pn: nat, stack: nat)
    requires CopiedTo(s, t, faults, p, c, pn, stack) && Forking(s, faults, p, c, stack) && WrittenTo(t, t', faults, p, stack)
    requires !Writable(EntryAt(t, p, stack)) && RefCount(t, FrameAt(t, p, stack)) >= 2
    ensures |t'.free| + FaultPages(s, p) == |t.free|
  {
    NoTempBefore(t, faults, p);
  }

  lemma PushRefused(s: Vm, t: Vm, faults: Faults, p: nat, c: nat, pn: nat, stack: nat)
    requires CopiedTo(s, t, faults, p, c, pn, stack) && Forking(s, faults, p, c, stack) && pn <= NVPN
    requires Written(t, p, stack) == None && HasStack(s, p)
    ensures |Tables(Below(Data(s, p), NVPN))| + FaultPages(s, p) > |s.free|
  {
    WrittenOk(t, faults, p, stack);
    NoTempBefore(t, faults, p);
    TablesGrow(Data(s, p), pn);
  }

  lemma CopiedDup(s: Vm, t: Vm, t': Vm, faults: Faults, p: nat, c: nat, pn: nat, stack: nat)
    requires CopiedTo(s, t, faults, p, c, pn, stack) && Forking(s, faults, p, c, stack) && Writable(EntryAt(t, p, stack))
    requires DupReady(t, faults, p, c, pn) && pn != XSTACK && DupPage(t, p, c, pn) == Some(t')
    ensures CopiedTo(s, t', faults, p, c, pn + 1, stack)
  {
    DupOk(t, t', faults, p, c, pn);
    BelowNext(Data(s, p), pn);
    TablesNext(Data(s, p), pn);
    NotYetCopied(s, t, p, c, pn);
    DupPaid(t, t', c, pn, Tables(Below(Data(s, p), pn)));
    DupStack(s, t, t', p, c, pn, stack);
  }

  // Copying the stack's own page makes it read-only; copying another one leaves it as it was.
  lemma DupStack(s: Vm, t: Vm, t': Vm, p: nat, c: nat, pn: nat, stack: nat)
    requires StackState(s, t, p, c, pn, stack) && Writable(EntryAt(t, p, stack)) && DupSlots(t, t', p, c, pn) && pn != XSTACK
    requires stack < NVPN && pn < NVPN
    ensures StackState(s, t', p, c, pn + 1, stack) && StackPaid(s, t', p, pn + 1, stack) == StackPaid(s, t, p, pn, stack)
  {
    Vpn(PFTEMP);
    assert EntryAt(t', p, XSTACK) == EntryAt(t, p, XSTACK);
  }

  lemma NotYetCopied(s: Vm, t: Vm, p: nat, c: nat, pn: nat)
    requires Data(t, c) == Below(Data(s, p), pn) && pn < NVPN && pn != PFTEMP
    ensures EntryAt(t, c, pn) == 0
  {
    assert pn !in Data(t, c);
  }

  lemma DupPaid(t: Vm, t': Vm, c: nat, v: nat, tables: set<nat>)
    requires ChildSlots(t, c, tables) && DupTakes(t, t', c, v) && EntryAt(t, c, v) == 0 && v < NVPN
    ensures ChildSlots(t', c, tables + {Pdx(v)}) && |t'.free| + |tables + {Pdx(v)}| == |t.free| + |tables|
  {
    Vpn(v);
    if Pdx(v) in tables {
      assert tables + {Pdx(v)} == tables;
    }
  }

  lemma DupRefused(s: Vm, t: Vm, faults: Faults, p: nat, c: nat, pn: nat, stack: nat)
    requires CopiedTo(s, t, faults, p, c, pn, stack) && Forking(s, faults, p, c, stack) && Writable(EntryAt(t, p, stack))
    requires DupReady(t, faults, p, c, pn) && pn in Data(s, p) && pn != XSTACK && DupPage(t, p, c, pn) == None
    ensures |Tables(Below(Data(s, p), NVPN))| + FaultPages(s, p) > |s.free|
  {
    DupSome(t, faults, p, c, pn);
    TablesNext(Data(s, p), pn);
    assert pn in Data(t, p);
    Vpn(pn);
    TablesGrow(Data(s, p), pn + 1);
  }

  // What the loop needs from the free list of s: all the tables, and the parent's stack.
  ghost function LoopPages(s: Vm, p: nat): nat { |Tables(Below(Data(s, p), NVPN))| + FaultPages(s, p) }

  // Why the loop fails: no way to handle the fault, or too few pages.
  ghost predicate Refused(s: Vm, p: nat, need: nat) { !HasStack(s, p) || need > |s.free| }

  /** The loop of fork: the child ends with a copy of every page of the parent but the
      exception stack, paid with one page for each page table it needs, and nobody else
      notices; the loop fails only when it must. */
  method CopyAll(k: Kernel, p: nat, c: nat, stack: nat, ghost s: Vm, ghost need: nat, ghost faults: Faults)
    returns (ok: bool)
    requires need == LoopPages(s, p) && k.Valid()
    requires CopiedTo(s, k.State(), faults, p, c, 0, stack) && Forking(s, faults, p, c, stack)
    modifies k`freeList, k`free, k.links, k.refs, k.memory
    ensures k.Valid()
    ensures if ok then CopiedTo(s, k.State(), faults, p, c, NVPN, stack) else Refused(s, p, need)
  {
    ok := true;
    for pn := 0 to NVPN
      invariant k.Valid() && CopiedTo(s, k.State(), faults, p, c, pn, stack)
    {
      ok := CopyOne(k, p, c, pn, stack, s, need, faults);
      if !ok {
        return;
      }
    }
  }

  method CopyOne(k: Kernel, p: nat, c: nat, pn: nat, stack: nat, ghost s: Vm, ghost need: nat, ghost faults: Faults)
    returns (ok: bool)
    requires need == LoopPages(s, p) && k.Valid()
    requires CopiedTo(s, k.State(), faults, p, c, pn, stack) && Forking(s, faults, p, c, stack) && pn < NVPN
    modifies k`freeList, k`free, k.links, k.refs, k.memory
    ensures k.Valid()
    ensures if ok then CopiedTo(s, k.State(), faults, p, c, pn + 1, stack) else Refused(s, p, need)
  {
    ghost var t := k.State();
    if pn == XSTACK {
      CopiedSkip(s, t, faults, p, c, pn, stack);
      return true;
    }
    var pte := Uvpt(k, p, pn);
    MappedHere(t, faults, p, pn);
    if pte % 2 == 0 || !IsUser(pte) {
      CopiedSkip(s, t, faults, p, c, pn, stack);
      return true;
    }
    ok := Push(k, p, c, pn, stack, s, need, faults);
    if ok {
      ok := DupOne(k, p, c, pn, stack, s, need, faults);
    }
  }

  // The call of duppage or of a system call writes the stack first.
  method Push(k: Kernel, p: nat, c: nat, pn: nat, stack: nat, ghost s: Vm, ghost need: nat, ghost faults: Faults)
    returns (ok: bool)
    requires need == LoopPages(s, p) && k.Valid()
    requires CopiedTo(s, k.State(), faults, p, c, pn, stack) && Forking(s, faults, p, c, stack) && pn <= NVPN
    modifies k`freeList, k`free, k.links, k.refs, k.memory
    ensures k.Valid()
    ensures if ok then CopiedTo(s, k.State(), faults, p, c, pn, stack) && Writable(EntryAt(k.State(), p, stack)) else Refused(s, p, need)
  {
    ghost var t := k.State();
    ok := MakeWritable(k, p, stack, faults);
    if ok {
      CopiedPushed(s, t, k.State(), faults, p, c, pn, stack);
    } else if HasStack(s, p) {
      PushRefused(s, t, faults, p, c, pn, stack);
    }
  }

  method DupOne(k: Kernel, p: nat, c: nat, pn: nat, stack: nat, ghost s: Vm, ghost need: nat, ghost faults: Faults)
    returns (ok: bool)
    requires need == LoopPages(s, p) && k.Valid()
    requires CopiedTo(s, k.State(), faults, p, c, pn, stack) && Forking(s, faults, p, c, stack)
    requires Writable(EntryAt(k.State(), p, stack)) && pn in Data(s, p) && pn != XSTACK
    modifies k`freeList, k`free, k.links, k.refs, k.memory
    ensures k.Valid()
    ensures if ok then CopiedTo(s, k.State(), faults, p, c, pn + 1, stack) else Refused(s, p, need)
  {
    ghost var t := k.State();
    ok := Duppage(k, p, c, pn, faults);
    if ok {
      CopiedDup(s, t, k.State(), faults, p, c, pn, stack);
    } else {
      DupRefused(s, t, faults, p, c, pn, stack);
    }
  }

  lemma MappedHere(s: Vm, faults: Faults, p: nat, v: nat)
    requires CowInv(s, faults) && Live(s, p, v) && p !in faults
    ensures var pte := EntryAt(s, p, v);
            (v in Data(s, p) <==> pte % 2 == 1 && IsUser(pte)) && (v in Data(s, p) ==> v != PFTEMP)
  {
    assert Mapped(s, p, v) ==> v != PFTEMP;
  }

  /** fork from exofork on, run without interruption.  It succeeds exactly when faults can be
      handled and the free list holds the pages that child and parent need; the child is then a
      full copy of the parent's memory with a fresh exception stack, and the parent and every
      other environment read what they read before. */
  method UserFork(k: Kernel, p: nat, c: nat, stack: nat, ghost faults: Faults) returns (ok: bool)
    requires k.Valid() && CowInv(k.State(), faults) && Live(k.State(), p, 0) && c < NENV && k.pgdirs[c].None?
    requires p !in faults && Mapped(k.State(), p, stack) && Writable(EntryAt(k.State(), p, stack))
    requires stack != PFTEMP && stack != XSTACK
    modifies k`freeList, k`free, k.links, k.refs, k.memory, k.pgdirs
    ensures k.Valid() && ok == (HasStack(old(k.State()), p) && |old(k.State()).free| >= ForkPages(old(k.State()), p))
    ensures ok ==> CowInv(k.State(), faults)
                   && AllData(k.State()) == AllData(old(k.State()))[c := Child(Data(old(k.State()), p))]
  {
    ghost var s := k.State();
    var r := k.EnvSetupVm(c);
    SetupSome(s, c);
    if r < 0 {
      return false;
    }
    ForkStarts(s, k.State(), faults, p, c, stack);
    ok := ForkOn(k, p, c, stack, s, k.State(), faults);
  }

  // The child exists and is empty; its directory has cost one page.
  ghost predicate Started(s: Vm, s1: Vm, faults: Faults, p: nat, c: nat, stack: nat) {
    && Forking(s1, faults, p, c, stack) && OthersKept(s, s1, c) && |s.free| == 1 + |s1.free|
    && (HasStack(s1, p) <==> HasStack(s, p)) && FaultPages(s1, p) == FaultPages(s, p)
  }

  lemma ForkStarts(s: Vm, s1: Vm, faults: Faults, p: nat, c: nat, stack: nat)
    requires CowInv(s, faults) && Live(s, p, 0) && c < NENV && Dir(s, c).None? && (s1, true) == SetupVm(s, c)
    requires p !in faults && Mapped(s, p, stack) && Writable(EntryAt(s, p, stack)) && stack != PFTEMP && stack != XSTACK
    ensures Started(s, s1, faults, p, c, stack) && CopiedTo(s1, s1, faults, p, c, 0, stack)
  {
    CreateOk(s, s1, faults, c);
    CreateKeeps(s, s1, faults, p, c, stack);
    CopiedStart(s1, faults, p, c, stack);
  }

  // fork from its loop on.
  method ForkOn(k: Kernel, p: nat, c: nat, stack: nat, ghost s: Vm, ghost s1: Vm, ghost faults: Faults) returns (ok: bool)
    requires k.Valid() && k.State() == s1 && Started(s, s1, faults, p, c, stack) && CopiedTo(s1, s1, faults, p, c, 0, stack)
    modifies k`freeList, k`free, k.links, k.refs, k.memory
    ensures k.Valid() && ok == (HasStack(s, p) && |s.free| >= ForkPages(s, p))
    ensures ok ==> CowInv(k.State(), faults) && AllData(k.State()) == AllData(s)[c := Child(Data(s, p))]
  {
    ghost var need := LoopPages(s1, p);
    ok := CopyAll(k, p, c, stack, s1, need, faults);
    if ok {
      ok := Push(k, p, c, NVPN, stack, s1, need, faults);
    }
    if !ok {
      CopyRefused(s, s1, p);
      return;
    }
    ok := ExceptionStack(k, p, c, stack, s, s1, faults);
  }

  // The new directory leaves the parent's slots alone.
  lemma CreateKeeps(s: Vm, s1: Vm, faults: Faults, p: nat, c: nat, stack: nat)
    requires CowInv(s, faults) && Live(s, p, 0) && c < NENV && Dir(s, c).None? && (s1, true) == SetupVm(s, c)
    requires p !in faults && Mapped(s, p, stack) && stack != PFTEMP && stack != XSTACK
    ensures Forking(s1, faults, p, c, stack) && EntryAt(s1, p, stack) == EntryAt(s, p, stack)
    ensures (HasStack(s1, p) <==> HasStack(s, p)) && FaultPages(s1, p) == FaultPages(s, p)
  {
    SetupOk(s, s1, true, c);
    AllocViews(s, s1);
    NoTempBefore(s, faults, p);
    NoHandlerYet(s, faults, c);
    Vpn(PFTEMP);
    SetupSlots(s, s1, p, c);
  }

  lemma SetupSlots(s: Vm, s1: Vm, p: nat, c: nat)
    requires Inv(s) && p < NENV && c < NENV && p != c && Dir(s, p).Some? && Dir(s, c).None? && (s1, true) == SetupVm(s, c)
    ensures Pde(s1, p, Pdx(PFTEMP)) == Pde(s, p, Pdx(PFTEMP))
  {
    Vpn(PFTEMP);
    SetupOk(s, s1, true, c);
    var d := Dir(s, p).value;
    assert Target(s, DirRef(p)) == Some(d) && d != s.free[0];
  }

  // The last allocation of fork.
  method ExceptionStack(k: Kernel, p: nat, c: nat, ghost stack: nat, ghost s: Vm, ghost s1: Vm, ghost faults: Faults)
    returns (ok: bool)
    requires k.Valid() && Started(s, s1, faults, p, c, stack) && CopiedTo(s1, k.State(), faults, p, c, NVPN, stack)
    requires Writable(EntryAt(k.State(), p, stack))
    modifies k`freeList, k`free, k.links, k.refs, k.memory
    ensures k.Valid() && ok == (|s.free| >= ForkPages(s, p))
    ensures ok ==> CowInv(k.State(), faults) && AllData(k.State()) == AllData(s)[c := Child(Data(s, p))]
  {
    ghost var s2 := k.State();
    LastPaid(s2, c, Tables(Below(Data(s1, p), NVPN)));
    ChildTables(Data(s, p));
    PageAddress(XSTACK);
    var r := k.EnvPageAllocate(c, XSTACK * PGSIZE, RW);
    ok := r == 0;
    if ok {
      ForkedData(s, s1, s2, k.State(), faults, p, c, stack);
    }
  }

  lemma CopyRefused(s: Vm, s1: Vm, p: nat)
    requires Refused(s1, p, LoopPages(s1, p)) && Data(s1, p) == Data(s, p) && |s.free| == 1 + |s1.free|
    requires (HasStack(s1, p) <==> HasStack(s, p)) && FaultPages(s1, p) == FaultPages(s, p)
    ensures !HasStack(s, p) || |s.free| < ForkPages(s, p)
  {
    ChildTables(Data(s, p));
    SubsetSize(Tables(Below(Data(s, p), NVPN)), Tables(Child(Data(s, p))));
  }

  lemma SetupSome(s: Vm, c: nat)
    requires Inv(s) && c < NENV && Dir(s, c).None?
    ensures SetupVm(s, c).1 <==> s.free != []
  {
    SetupOk(s, SetupVm(s, c).0, SetupVm(s, c).1, c);
  }

  lemma ChildTables(m: map<nat, seq<nat>>)
    ensures Tables(Child(m)) == Tables(Below(m, NVPN)) + {Pdx(XSTACK)}
  {
    forall i ensures i in Tables(Child(m)) <==> i in Tables(Below(m, NVPN)) || i == Pdx(XSTACK) {
      if i in Tables(Below(m, NVPN)) {
        var u :| u in Below(m, NVPN) && Pdx(u) == i;
        assert u in Child(m);
      }
      assert XSTACK in Child(m);
    }
  }

  // The exception stack costs a page, and a table unless the child has it already.
  lemma LastPaid(t: Vm, c: nat, tables: set<nat>)
    requires Inv(t) && Live(t, c, XSTACK) && ChildSlots(t, c, tables)
    ensures AllocPage(t, c, XSTACK, RW).Some? <==> |t.free| + |tables| >= 1 + |tables + {Pdx(XSTACK)}|
  {
    AllocPageSome(t, c, XSTACK, RW);
    Vpn(XSTACK);
    if Pdx(XSTACK) in tables {
      assert tables + {Pdx(XSTACK)} == tables;
    }
  }

  lemma ForkedData(s: Vm, s1: Vm, s2: Vm, t: Vm, faults: Faults, p: nat, c: nat, stack: nat)
    requires Forking(s1, faults, p, c, stack) && CopiedTo(s1, s2, faults, p, c, NVPN, stack)
    requires OthersKept(s, s1, c) && AllocPage(s2, c, XSTACK, RW) == Some(t)
    ensures CowInv(t, faults) && AllData(t) == AllData(s)[c := Child(Data(s, p))]
  {
    AllocOkCow(s2, t, faults, c, XSTACK, RW);
    AllDataAt(s, t, c, Child(Data(s, p)));
  }

  // What the first line of fork adds: the exception stack the first time, and otherwise a page
  // if its store faults on a page that somebody else still maps.
  function ExtraPages(s: Vm, p: nat, hv: nat, first: bool): nat {
    if first then AllocCost(s, p, XSTACK)
    else if Writable(EntryAt(s, p, hv)) || BackPages(s, p, hv) == 1 then 0
    else 1
  }

  /** The whole of fork, run without interruption.  It succeeds exactly when its faults can be
      handled and the free list holds all the pages it takes; the child then has a full copy of
      the parent's memory, handler included, with a fresh exception stack. */
  method ForkAll(k: Kernel, p: nat, c: nat, hv: nat, i: nat, w: nat, first: bool, stack: nat, ghost faults: Faults)
    returns (ok: bool)
    requires k.Valid() && ForkReady(k.State(), faults, p, hv, i, stack) && c < NENV && k.pgdirs[c].None?
    modifies k`freeList, k`free, k.links, k.refs, k.memory, k.pgdirs
    ensures k.Valid()
    ensures var s := old(k.State());
            ok == (CanFault(s, p, hv, first) && |s.free| >= ForkPages(s, p) + ExtraPages(s, p, hv, first))
    ensures ok ==>
              var s := old(k.State());
              && CowInv(k.State(), faults) && hv in Data(s, p) && i < |Data(s, p)[hv]| && hv != XSTACK
              && var m := Prepared(Data(s, p), hv, i, w, first);
              AllData(k.State()) == AllData(s)[p := m][c := Child(m)]
  {
    ghost var s := k.State();
    HandlerSetSome(s, faults, p, hv, i, w, first, stack);
    NoTempBefore(s, faults, p);
    ok := SetPgfaultHandler(k, p, hv, i, w, first, faults, stack);
    if !ok {
      TooFewToSet(s, p, hv, first);
      return;
    }
    ghost var s1 := k.State();
    HandlerSetOk(s, s1, faults, p, hv, i, w, first, stack);
    NoTempBefore(s1, faults, p);
    SetPages(s, s1, faults, p, hv, i, w, first);
    ok := UserFork(k, p, c, stack, faults);
    if ok {
      AllDataIn(s, s1, p, Prepared(Data(s, p), hv, i, w, first));
    }
  }

  lemma TooFewToSet(s: Vm, p: nat, hv: nat, first: bool)
    requires EntryAt(s, p, PFTEMP) == 0
    requires !Settable(s, p, hv, first)
    ensures !CanFault(s, p, hv, first) || |s.free| < ForkPages(s, p) + ExtraPages(s, p, hv, first)
  {
    ChildTables(Data(s, p));
    assert Pdx(XSTACK) in Tables(Child(Data(s, p)));
  }

  // The pages that are left to need.
  lemma SetPages(s: Vm, t: Vm, faults: Faults, p: nat, hv: nat, i: nat, w: nat, first: bool)
    requires HandlerSetTo(s, t, faults, p, hv, i, w, first) && EntryAt(s, p, PFTEMP) == 0 && EntryAt(t, p, PFTEMP) == 0
    requires first ==> Writable(EntryAt(s, p, hv))
    ensures |t.free| >= ForkPages(t, p) <==> |s.free| >= ForkPages(s, p) + ExtraPages(s, p, hv, first)
    ensures HasStack(t, p) <==> CanFault(s, p, hv, first)
  {
    SameRegions(Data(s, p), hv, i, w, first);
  }

  lemma SameRegions(m: map<nat, seq<nat>>, hv: nat, i: nat, w: nat, first: bool)
    requires hv in m && i < |m[hv]| && hv != XSTACK
    ensures Tables(Child(Prepared(m, hv, i, w, first))) == Tables(Child(m))
  {
    assert Child(Prepared(m, hv, i, w, first)).Keys == Child(m).Keys;
    SameKeys(Child(Prepared(m, hv, i, w, first)), Child(m));
  }

  lemma SameKeys(a: map<nat, seq<nat>>, b: map<nat, seq<nat>>)
    requires a.Keys == b.Keys
    ensures Tables(a) == Tables(b)
  {
    assert forall v :: v in a <==> v in b;
  }

  // ---------------------------------------------------------------- the fault handler

  /** The handler of a write fault: the system calls of pgfault, in order.  PgFaultOk says
      when it succeeds and what it leaves. */
  method Pgfault(k: Kernel, e: nat, v: nat, ghost faults: Faults) returns (ok: bool)
    requires k.Valid() && CowInv(k.State(), faults) && Live(k.State(), e, v) && Mapped(k.State(), e, v)
    requires v != PFTEMP && e !in faults
    modifies k`freeList, k`free, k.links, k.refs, k.memory
    ensures k.Valid() && ok == PgFault(old(k.State()), e, v).Some?
    ensures ok ==> k.State() == PgFault(old(k.State()), e, v).value
  {
    PageAddress(PFTEMP);
    var r := k.EnvPageAllocate(e, PFTEMP * PGSIZE, RW);
    if r < 0 {
      return false;
    }
    AfterAlloc(old(k.State()), k.State(), faults, e, v);
    ok := MoveIn(k, e, v);
  }

  // The part of pgfault after its first system call.
  method MoveIn(k: Kernel, e: nat, v: nat) returns (ok: bool)
    requires k.Valid() && Inv(k.State()) && Live(k.State(), e, v) && v != PFTEMP
    requires Mapped(k.State(), e, PFTEMP) && Mapped(k.State(), e, v)
    requires var s2 := CopyPage(k.State(), e, PFTEMP, v);
             Inv(s2) && OneNumber(s2, e, PFTEMP) && s2.dir == k.State().dir
    modifies k`freeList, k`free, k.links, k.refs, k.memory
    ensures k.Valid()
    ensures var moved := MapPage(CopyPage(old(k.State()), e, PFTEMP, v), e, PFTEMP, e, v, RW);
            ok == moved.Some? && (ok ==> k.State() == Remove(moved.value, e, Pdx(PFTEMP), Ptx(PFTEMP)))
  {
    PageAddress(PFTEMP);
    MemMove(k, e, PFTEMP, v);
    ghost var s2 := k.State();
    ok := SysPageMap(k, e, PFTEMP, e, v, RW);
    if ok {
      AfterMap(s2, k.State(), e, v);
      k.PageRemove(e, PFTEMP * PGSIZE);
    }
  }

  lemma AfterAlloc(s: Vm, s1: Vm, faults: Faults, e: nat, v: nat)
    requires CowInv(s, faults) && Live(s, e, v) && Mapped(s, e, v) && v != PFTEMP && e !in faults
    requires AllocPage(s, e, PFTEMP, RW) == Some(s1)
    ensures Inv(s1) && Mapped(s1, e, PFTEMP) && Mapped(s1, e, v) && s1.dir == s.dir
    ensures var s2 := CopyPage(s1, e, PFTEMP, v); Inv(s2) && OneNumber(s2, e, PFTEMP) && s2.dir == s.dir
  {
    HandlerHalf(s, s1, CopyPage(s1, e, PFTEMP, v), faults, e, v);
    TempThere(s1, faults[e := Fault(v, Allocated)], e);
    TempThere(CopyPage(s1, e, PFTEMP, v), faults[e := Fault(v, Copied)], e);
  }

  lemma TempThere(s: Vm, faults: Faults, e: nat)
    requires CowInv(s, faults) && e in faults && !faults[e].stage.Moved?
    ensures Inv(s) && Mapped(s, e, PFTEMP) && Mapped(s, e, faults[e].v) && OneNumber(s, e, PFTEMP)
  {
    assert FaultOk(s, e, faults[e]);
    NotTwin(s, faults, e, PFTEMP);
  }

  lemma AfterMap(s2: Vm, s3: Vm, e: nat, v: nat)
    requires Inv(s2) && OneNumber(s2, e, PFTEMP) && Live(s2, e, v) && MapPage(s2, e, PFTEMP, e, v, RW) == Some(s3)
    ensures Real(s3, e, Pdx(PFTEMP), Ptx(PFTEMP))
  {
    MapPageOk(s2, s3, e, PFTEMP, e, v, RW);
    RealSlot(s3, e, Pdx(PFTEMP), Ptx(PFTEMP), None);
  }

  // memmove(dst, src, PGSIZE) through two user mappings.
  method MemMove(k: Kernel, e: nat, dst: nat, src: nat)
    requires k.Valid() && Inv(k.State()) && Live(k.State(), e, dst) && Live(k.State(), e, src)
    requires Mapped(k.State(), e, dst) && Mapped(k.State(), e, src)
    modifies k.memory
    ensures k.Valid() && k.State() == CopyPage(old(k.State()), e, dst, src)
  {
    MappedPage(k.State(), e, dst);
    MappedPage(k.State(), e, src);
    var to := Uvpt(k, e, dst);
    var from := Uvpt(k, e, src);
    k.memory[Paging.Frame(to)] := k.memory[Paging.Frame(from)];
  }
}
