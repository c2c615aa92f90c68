/** The kernel's memory code as it runs: `pages[]`, the linked free list, physical memory
    and `env_pgdir`, updated in place.  Every method is proved to compute the operation of
    the same name in `Paging` and `AddressSpace`. */
module Pmap {
  import opened Base
  import opened Paging
  import opened AddressSpace
  import opened Links

  const PTSIZE := 0x40_0000

  function PDX(va: nat): nat { va / PTSIZE }
  function PTX(va: nat): nat { (va / PGSIZE) % NPTE }
  function PGNUM(va: nat): nat { va / PGSIZE }

  lemma Indexes(va: nat)
    requires va < UTOP
    ensures PDX(va) == Pdx(PGNUM(va)) < NPDU && PTX(va) == Ptx(PGNUM(va)) < NPTE && PGNUM(va) < NVPN
  {
  }

  const WORD := 0x1_0000_0000

  // ROUNDUP((uint32_t) va + len, PGSIZE), which wraps at 32 bits.
  function RangeEnd(va: nat, len: nat): nat { ((va + len + PGSIZE - 1) % WORD) / PGSIZE * PGSIZE }

  lemma NextPage(v: nat, hi: nat)
    requires v % PGSIZE == 0 && hi % PGSIZE == 0 && v < hi
    ensures PGNUM(v) < PGNUM(hi) && PGNUM(v + PGSIZE) == PGNUM(v) + 1 && v + PGSIZE <= hi
  {
  }

  // (w & m) == m
  predicate HasBits(w: nat, m: nat) {
    m == 0 || ((m % 2 == 1 ==> w % 2 == 1) && HasBits(w / 2, m / 2))
  }

  // Virtual page `v` is mapped with all of `perm`.
  predicate Allows(s: Vm, e: nat, v: nat, perm: nat) { HasBits(EntryAt(s, e, v), PermP(perm)) }

  ghost predicate AllAllow(s: Vm, e: nat, lo: nat, hi: nat, perm: nat) {
    forall v: nat :: lo <= v < hi ==> Allows(s, e, v, perm)
  }

  // `bad` is the lowest address from va on that lies in a refused page.
  ghost predicate FirstRefused(s: Vm, e: nat, va: nat, perm: nat, bad: nat) {
    && va <= bad && !Allows(s, e, PGNUM(bad), perm)
    && forall a: nat :: va <= a < bad ==> Allows(s, e, PGNUM(a), perm)
  }

  lemma AllowOneMore(s: Vm, e: nat, lo: nat, v: nat, perm: nat)
    requires AllAllow(s, e, lo, v, perm) && Allows(s, e, v, perm)
    ensures AllAllow(s, e, lo, v + 1, perm)
  {
  }

  lemma AllowFewer(s: Vm, e: nat, lo: nat, hi: nat, v: nat, perm: nat)
    requires AllAllow(s, e, lo, v, perm) && hi <= v
    ensures AllAllow(s, e, lo, hi, perm)
  {
  }

  lemma Refused(s: Vm, e: nat, va: nat, v: nat, hi: nat, perm: nat)
    requires v % PGSIZE == 0 && hi % PGSIZE == 0 && PGNUM(va) * PGSIZE <= v < hi
    requires AllAllow(s, e, PGNUM(va), PGNUM(v), perm) && !Allows(s, e, PGNUM(v), perm)
    ensures !AllAllow(s, e, PGNUM(va), PGNUM(hi), perm)
    ensures FirstRefused(s, e, va, perm, if v > va then v else va)
  {
    NextPage(v, hi);
  }

  // user_mem_check returns 0.
  ghost predicate Passes(s: Vm, e: nat, va: nat, len: nat, perm: nat) {
    RangeEnd(va, len) <= UTOP && AllAllow(s, e, PGNUM(va), PGNUM(RangeEnd(va, len)), perm)
  }

  // What its caller wants to know: every byte from va to va + len lies in a page that allows it.
  ghost predicate Accessible(s: Vm, e: nat, va: nat, len: nat, perm: nat) {
    forall a: nat :: va <= a < va + len ==> a < UTOP && Allows(s, e, PGNUM(a), perm)
  }

  /** The check says what its caller wants to know exactly when the sums do not wrap.  When
      they do, no such range is accessible; but then the check looks at one page at most, the
      one of va, and at none if the wrapped end is not above it. */
  lemma CheckMeans(s: Vm, e: nat, va: nat, len: nat, perm: nat)
    requires va < WORD && 0 < len < WORD
    ensures va + len + PGSIZE <= WORD ==> (Passes(s, e, va, len, perm) <==> Accessible(s, e, va, len, perm))
    ensures va + len + PGSIZE > WORD ==> !Accessible(s, e, va, len, perm)
    ensures va + len + PGSIZE > WORD ==>
              (Passes(s, e, va, len, perm) <==>
                 RangeEnd(va, len) <= UTOP && (RangeEnd(va, len) <= PGNUM(va) * PGSIZE || Allows(s, e, PGNUM(va), perm)))
  {
    if va + len + PGSIZE <= WORD {
      RangeEndNoWrap(va, len);
      PagesOfBytes(s, e, va, len, perm);
    } else {
      LastByte(s, e, va, len, perm);
      WrappedEnd(va, len);
    }
  }

  /** A whole page at the very top passes, whatever the tables say. */
  lemma TopPagePasses(s: Vm, e: nat, perm: nat)
    ensures RangeEnd(0xFFFF_F000, 0x1000) == 0
    ensures Passes(s, e, 0xFFFF_F000, 0x1000, perm) && !Accessible(s, e, 0xFFFF_F000, 0x1000, perm)
  {
    CheckMeans(s, e, 0xFFFF_F000, 0x1000, perm);
  }

  lemma LastByte(s: Vm, e: nat, va: nat, len: nat, perm: nat)
    requires 0 < len
    ensures Accessible(s, e, va, len, perm) ==> va + len <= UTOP
  {
    var last := va + len - 1;
    assert Accessible(s, e, va, len, perm) ==> Allows(s, e, PGNUM(last), perm) && last < UTOP;
  }

  lemma RangeEndNoWrap(va: nat, len: nat)
    requires va + len + PGSIZE <= WORD
    ensures va + len <= RangeEnd(va, len) < va + len + PGSIZE && RangeEnd(va, len) % PGSIZE == 0
  {
  }

  lemma WrappedEnd(va: nat, len: nat)
    requires va < WORD && 0 < len < WORD && va + len + PGSIZE > WORD
    ensures PGNUM(RangeEnd(va, len)) <= PGNUM(va) + 1
    ensures PGNUM(RangeEnd(va, len)) <= PGNUM(va) <==> RangeEnd(va, len) <= PGNUM(va) * PGSIZE
  {
    var sum := (va + len + PGSIZE - 1) % WORD;
    assert sum <= va + len + PGSIZE - 1 - WORD;
    PageMonotone(sum, va + PGSIZE);
  }

  lemma PageMonotone(a: nat, b: nat)
    requires a <= b
    ensures PGNUM(a) <= PGNUM(b) && PGNUM(a) * PGSIZE <= a < PGNUM(a) * PGSIZE + PGSIZE
  {
  }

  // The pages up to the rounded end are those of the bytes in the range.
  lemma PagesOfBytes(s: Vm, e: nat, va: nat, len: nat, perm: nat)
    requires 0 < len && va + len <= RangeEnd(va, len) < va + len + PGSIZE && RangeEnd(va, len) % PGSIZE == 0
    ensures Passes(s, e, va, len, perm) <==> Accessible(s, e, va, len, perm)
  {
    var hi := RangeEnd(va, len);
    if Passes(s, e, va, len, perm) {
      forall a: nat | va <= a < va + len ensures a < UTOP && Allows(s, e, PGNUM(a), perm) {
        PageMonotone(va, a);
      }
    }
    if Accessible(s, e, va, len, perm) {
      LastByte(s, e, va, len, perm);
      forall v: nat | PGNUM(va) <= v < PGNUM(hi) ensures Allows(s, e, v, perm) {
        var a := if v * PGSIZE < va then va else v * PGSIZE;
        assert PGNUM(a) == v && va <= a < va + len;
      }
    }
  }

  // The list from `head` is `free`, and the pages off it have a null link.
  ghost predicate Threads(head: int, links: seq<int>, free: seq<nat>) {
    ListFrom(head, links, free) && forall p :: 0 <= p < |links| && p !in free ==> links[p] == NULL
  }

  lemma PushThreads(head: int, links: seq<int>, free: seq<nat>, p: nat)
    requires p < |links| && p !in free && Threads(head, links, free)
    ensures Threads(p, links[p := head], [p] + free)
  {
    ListFrame(head, links, free, p, head);
    assert ([p] + free)[1..] == free;
  }

  lemma PopThreads(links: seq<int>, free: seq<nat>)
    requires free != [] && Threads(free[0], links, free) && free[0] !in free[1..]
    ensures Threads(links[free[0]], links[free[0] := NULL], free[1..])
  {
    ListFrame(links[free[0]], links, free[1..], free[0], NULL);
    assert free == [free[0]] + free[1..];
  }

  // page_init has looked at the pages below `i` and listed the usable ones, last one first.
  ghost predicate Listed(free: seq<nat>, i: nat, kernelEnd: nat) {
    && (forall k :: 0 <= k < |free| ==> free[k] < i && !Reserved(free[k], kernelEnd))
    && (forall p: nat :: p < i && !Reserved(p, kernelEnd) ==> p in free)
    && (forall k, l :: 0 <= k < l < |free| ==> free[l] < free[k])
  }

  // The pages page_init leaves out: page 0, the AP boot page, the I/O hole, the kernel.
  predicate Reserved(p: nat, kernelEnd: nat) {
    p == 0 || p == 7 || 160 <= p < 256 || 256 <= p < kernelEnd
  }

  lemma PushListed(free: seq<nat>, i: nat, kernelEnd: nat, now: seq<nat>)
    requires Listed(free, i, kernelEnd) && now == if Reserved(i, kernelEnd) then free else [i] + free
    ensures Listed(now, i + 1, kernelEnd)
  {
    assert forall p :: p in free ==> p in now;
    assert !Reserved(i, kernelEnd) ==> now[0] == i;
  }

  // The loop of page_init over pages[].
  method LinkUsable(links: array<int>, kernelEnd: nat) returns (head: int, ghost free: seq<nat>)
    requires forall p :: 0 <= p < links.Length ==> links[p] == NULL
    modifies links
    ensures Threads(head, links[..], free) && Listed(free, links.Length, kernelEnd)
  {
    head, free := NULL, [];
    for i := 0 to links.Length
      invariant Threads(head, links[..], free) && Listed(free, i, kernelEnd)
    {
      ghost var now := if Reserved(i, kernelEnd) then free else [i] + free;
      PushListed(free, i, kernelEnd, now);
      if !Reserved(i, kernelEnd) {
        PushThreads(head, links[..], free, i);
        links[i] := head;
        head := i;
      }
      free := now;
    }
  }

  class Kernel {
    const npages: nat
    const kernPgdir: seq<nat>
    ghost const pool: set<nat>
    ghost var free: seq<nat>
    const refs: array<nat>            // pages[p].pp_ref
    const links: array<int>           // pages[p].pp_link
    var freeList: int                 // page_free_list
    const memory: array<seq<nat>>
    const pgdirs: array<Option<nat>>  // envs[e].env_pgdir

    ghost function State(): Vm
      reads this, refs, memory, pgdirs
    {
      Vm(pool, refs[..], free, memory[..], pgdirs[..], kernPgdir)
    }

    ghost predicate Valid()
      reads this, refs, links, memory, pgdirs
    {
      && refs as object != links as object
      && refs.Length == links.Length == memory.Length == npages
      && Threads(freeList, links[..], free)
    }

    /** page_init: the allocator starts with exactly the usable pages, last one first. */
    constructor PageInit(npages: nat, kernelEnd: nat, memory: array<seq<nat>>, kernPgdir: seq<nat>)
      requires memory.Length == npages && |kernPgdir| == NPTE
      requires forall p :: 0 <= p < npages ==> |memory[p]| == NPTE
      requires forall i :: 0 <= i < NPDU ==> kernPgdir[i] == 0
      ensures Valid() && Boot(State()) && fresh(refs) && fresh(links) && fresh(pgdirs)
      ensures this.memory == memory && this.npages == npages
      ensures pool == set p: nat | p < npages && !Reserved(p, kernelEnd)
      ensures Listed(free, npages, kernelEnd)
    {
      this.npages := npages;
      this.kernPgdir := kernPgdir;
      this.pool := set p: nat | p < npages && !Reserved(p, kernelEnd);
      this.memory := memory;
      refs := new nat[npages](_ => 0);
      links := new int[npages](_ => NULL);
      pgdirs := new Option<nat>[NENV](_ => None);
      new;
      freeList, free := LinkUsable(links, kernelEnd);
      InitialFree(State(), kernelEnd);
    }

    method PageAlloc(zero: bool) returns (page: Option<nat>)
      requires Valid() && Shape(State()) && FreeOk(State())
      modifies this`freeList, this`free, links, memory
      ensures Valid() && (State(), page) == Alloc(old(State()), zero)
    {
      if freeList == NULL {
        return None;
      }
      var p: nat := freeList;
      PopThreads(links[..], free);
      freeList := links[p];
      links[p] := NULL;
      free := free[1..];
      if zero {
        memory[p] := ZeroPage();
      }
      page := Some(p);
    }

    /** page_free: the two panics of the C code are the two preconditions. */
    method PageFree(p: nat)
      requires Valid() && p < npages && refs[p] == 0 && p !in free
      modifies this`freeList, this`free, links
      ensures Valid() && State() == old(State()).(free := [p] + old(State()).free)
    {
      assert links[..][p] == NULL;
      PushThreads(freeList, links[..], free, p);
      links[p] := freeList;
      freeList := p;
      free := [p] + free;
    }

    method PageDecref(p: nat)
      requires Valid() && p < npages && 0 < refs[p] < REFWRAP && p !in free
      modifies this`freeList, this`free, links, refs
      ensures Valid() && State() == Decref(old(State()), p)
    {
      refs[p] := (refs[p] + REFWRAP - 1) % REFWRAP;   // uint16_t
      if refs[p] == 0 {
        PageFree(p);
      }
    }

    method PageIncref(p: nat)
      requires Valid() && p < npages
      modifies refs
      ensures Valid() && State() == Incref(old(State()), p)
    {
      var n: nat := (refs[p] + 1) % REFWRAP;   // uint16_t
      refs[p] := n;
      assert links[..] == old(links[..]);
      assert refs[..] == old(refs[..])[p := n];
    }

    // The store `table[k] = w` through a kernel pointer into page `p`.
    method SetWord(p: nat, k: nat, w: nat)
      requires Valid() && p < npages && k < |memory[p]|
      modifies memory
      ensures Valid() && State() == Store(old(State()), p, k, w)
    {
      var page: seq<nat> := memory[p][k := w];
      memory[p] := page;
    }

    // The creating branch of pgdir_walk.
    method AddTable(e: nat, i: nat)
      requires Valid() && Real(State(), e, i, 0) && Pde(State(), e, i) == 0
      modifies this`freeList, this`free, links, refs, memory
      ensures Valid() && State() == Walk(old(State()), e, i, true).0
    {
      var d := pgdirs[e].value;
      WalkCreates(State(), e, i);
      var page := PageAlloc(true);
      if page.Some? {
        PageIncref(page.value);
        SetWord(d, i, page.value * PGSIZE + 7);
      }
    }

    /** pgdir_walk: a pointer into a page table is a frame and an index. */
    method PgdirWalk(e: nat, va: nat, create: bool) returns (pte: Option<(nat, nat)>)
      requires Valid() && va < UTOP && Real(State(), e, PDX(va), PTX(va))
      modifies this`freeList, this`free, links, refs, memory
      ensures Valid() && State() == Walk(old(State()), e, PDX(va), create).0
      ensures pte == if Pde(State(), e, PDX(va)) != 0
                     then Some((Frame(Pde(State(), e, PDX(va))), PTX(va))) else None
      ensures !create ==> unchanged(this, links, refs, memory)
    {
      var i := PDX(va);
      var d := pgdirs[e].value;
      if memory[d][i] == 0 && create {
        AddTable(e, i);
      }
      pte := if memory[d][i] != 0 then Some((Frame(memory[d][i]), PTX(va))) else None;
    }

    method PageLookup(e: nat, va: nat) returns (page: Option<nat>, pte: Option<(nat, nat)>)
      requires Valid() && va < UTOP && Real(State(), e, PDX(va), PTX(va))
      modifies this`freeList, this`free, links, refs, memory
      ensures unchanged(this, links, refs, memory)
      ensures page == Lookup(State(), e, PDX(va), PTX(va))
      ensures page.Some? ==> pte == Some((Frame(Pde(State(), e, PDX(va))), PTX(va)))
    {
      pte := PgdirWalk(e, va, false);
      if pte.None? || memory[pte.value.0][pte.value.1] == 0 {
        return None, pte;
      }
      page := Some(Frame(memory[pte.value.0][pte.value.1]));
    }

    method PageRemove(e: nat, va: nat)
      requires Valid() && va < UTOP && Real(State(), e, PDX(va), PTX(va))
      modifies this`freeList, this`free, links, refs, memory
      ensures Valid() && State() == Remove(old(State()), e, PDX(va), PTX(va))
    {
      var page, pte := PageLookup(e, va);
      if page.None? {
        return;
      }
      PageDecref(page.value);
      SetWord(pte.value.0, pte.value.1, 0);
    }

    method PageInsert(e: nat, pp: nat, va: nat, perm: nat) returns (r: int)
      requires Valid() && Inv(State()) && e < NENV && va < UTOP && pgdirs[e].Some?
      requires User(State(), pp) && perm < PGSIZE && RefCount(State(), pp) < REFWRAP - 1
      modifies this`freeList, this`free, links, refs, memory
      ensures Valid() && State() == Insert(old(State()), pp, e, PDX(va), PTX(va), perm).0
      ensures r == if Insert(old(State()), pp, e, PDX(va), PTX(va), perm).1 then 0 else E_NO_MEM
    {
      Indexes(va);
      RealSlot(State(), e, PDX(va), PTX(va), None);
      ghost var (s1, ok) := Walk(State(), e, PDX(va), true);
      RaisedWalk(State(), s1, ok, pp, e, PDX(va), PTX(va));
      var pte := PgdirWalk(e, va, true);
      if pte.None? {
        return E_NO_MEM;
      }
      PageIncref(pp);
      PageRemove(e, va);
      SetWord(pte.value.0, pte.value.1, Entry(pp, perm));
      r := 0;
    }

    method EnvSetupVm(e: nat) returns (r: int)
      requires Valid() && Inv(State()) && e < NENV && pgdirs[e] == None
      modifies this`freeList, this`free, links, refs, memory, pgdirs
      ensures Valid() && State() == SetupVm(old(State()), e).0
      ensures r == if SetupVm(old(State()), e).1 then 0 else E_NO_MEM
    {
      var page := PageAlloc(true);
      if page.None? {
        return E_NO_MEM;
      }
      var p := page.value;
      pgdirs[e] := Some(p);
      memory[p] := DirPage(kernPgdir, p);
      PageIncref(p);
      r := 0;
    }

    /** env_free, the memory part: both loops, with the same tests as the C code. */
    method EnvFreeMemory(e: nat)
      requires Valid() && Inv(State()) && e < NENV && pgdirs[e].Some?
      modifies this`freeList, this`free, links, refs, memory, pgdirs
      ensures Valid() && State() == EnvFree(old(State()), e)
    {
      ghost var s := State();
      for i := 0 to NPDU
        invariant Valid() && Inv(State()) && pgdirs[e].Some?
        invariant FreeTables(State(), e, i) == FreeTables(s, e, 0)
      {
        ghost var s1 := State();
        FreeOneTable(s1, FreeSlot(s1, e, i), e, i);
        RemoveTable(e, i);
      }
      RemoveDir(e);
    }

    // One round of the outer loop: empty the page table, then drop it.
    method RemoveTable(e: nat, i: nat)
      requires Valid() && Inv(State()) && SlotOk(State(), e, i, 0)
      modifies this`freeList, this`free, links, refs, memory
      ensures Valid()
      ensures State() == FreeSlot(old(State()), e, i)
    {
      ghost var s := State();
      PresentPde(s, e, i);
      if memory[pgdirs[e].value][i] % 2 == 0 {   // no PTE_P
        return;
      }
      EmptyTable(e, i);
      FreePtesOk(s, State(), e, i, 0);
      TableIsReal(State(), e, i);
      var table := Frame(memory[pgdirs[e].value][i]);
      SetWord(pgdirs[e].value, i, 0);
      PageDecref(table);
    }

    // The inner loop of env_free.
    method EmptyTable(e: nat, i: nat)
      requires Valid() && Inv(State()) && SlotOk(State(), e, i, 0) && Pde(State(), e, i) != 0
      modifies this`freeList, this`free, links, refs, memory
      ensures Valid() && State() == FreePtes(old(State()), e, i, 0)
    {
      ghost var s := State();
      for j := 0 to NPTE
        invariant Valid() && Inv(State()) && SlotOk(State(), e, i, 0)
        invariant Pde(State(), e, i) == Pde(s, e, i)
        invariant FreePtes(State(), e, i, j) == FreePtes(s, e, i, 0)
      {
        RemoveSlotKeeps(State(), e, i, j);
        RemovePresent(e, i, j);
      }
    }

    method RemovePresent(e: nat, i: nat, j: nat)
      requires Valid() && Real(State(), e, i, j) && Pde(State(), e, i) != 0
      requires Pte(State(), e, i, j) == 0 <==> Pte(State(), e, i, j) % 2 == 0
      modifies this`freeList, this`free, links, refs, memory
      ensures Valid() && State() == Remove(old(State()), e, i, j)
    {
      SlotAddress(i, j);
      if memory[Frame(memory[pgdirs[e].value][i])][j] % 2 == 1 {   // PTE_P
        PageRemove(e, i * PTSIZE + j * PGSIZE);
      }
    }

    // env_page_alloc of syscall.c
    method EnvPageAllocate(e: nat, va: nat, perm: nat) returns (r: int)
      requires Valid() && Inv(State()) && e < NENV && va < UTOP && pgdirs[e].Some?
      modifies this`freeList, this`free, links, refs, memory
      ensures Valid() && (State(), r) == EnvPageAlloc(old(State()), e, PGNUM(va), perm)
    {
      Indexes(va);
      if !PermOk(perm) {
        return E_INVAL;
      }
      AllocOk(State(), Alloc(State(), true).0, Alloc(State(), true).1, true);
      var page := PageAlloc(true);
      if page.None? {
        return E_NO_MEM;
      }
      r := PageInsert(e, page.value, va, perm);
    }

    // env_page_map of syscall.c
    method EnvPageMapping(se: nat, sva: nat, de: nat, dva: nat, perm: nat) returns (r: int)
      requires Valid() && Inv(State()) && se < NENV && pgdirs[se].Some? && de < NENV && pgdirs[de].Some?
      requires sva < UTOP && dva < UTOP && perm < PGSIZE
      requires PGNUM(sva) in View(State(), se) ==> RefCount(State(), View(State(), se)[PGNUM(sva)].page) < REFWRAP - 1
      modifies this`freeList, this`free, links, refs, memory
      ensures Valid() && (State(), r) == EnvPageMap(old(State()), se, PGNUM(sva), de, PGNUM(dva), perm)
    {
      Indexes(sva);
      Indexes(dva);
      RealSlot(State(), se, PDX(sva), PTX(sva), None);
      LookupRefines(State(), se, PGNUM(sva));
      var page, pte := PageLookup(se, sva);
      if page.None? {
        return E_INVAL;
      }
      MappedIsUser(State(), se, PGNUM(sva));
      if Writable(perm) && !Writable(memory[pte.value.0][pte.value.1]) {
        return E_INVAL;
      }
      r := PageInsert(de, page.value, dva, perm);
    }

    /** user_mem_check, with the 32-bit sums of the C code: it succeeds when every page up to the
        rounded end allows the access, which CheckMeans turns into what that says about the
        caller's range; a failure names the lowest refused address. */
    method UserMemCheck(e: nat, va: nat, len: nat, perm: nat) returns (r: int, bad: nat)
      requires Valid() && Inv(State()) && e < NENV && pgdirs[e].Some?
      requires va < WORD && len < WORD && perm < PGSIZE
      modifies this`freeList, this`free, links, refs, memory
      ensures unchanged(this, links, refs, memory)
      ensures r == 0 || r == E_FAULT
      ensures r == 0 <==> Passes(State(), e, va, len, perm)
      ensures r != 0 && RangeEnd(va, len) > UTOP ==> bad == va
      ensures r != 0 && RangeEnd(va, len) <= UTOP ==> FirstRefused(State(), e, va, perm, bad)
    {
      var hi := RangeEnd(va, len);
      if hi > UTOP {
        return E_FAULT, va;
      }
      ghost var s := State();
      var v := PGNUM(va) * PGSIZE;
      while v < hi
        invariant unchanged(this, links, refs, memory)
        invariant v % PGSIZE == 0 && PGNUM(va) * PGSIZE <= v
        invariant AllAllow(s, e, PGNUM(va), PGNUM(v), perm)
      {
        NextPage(v, hi);
        var fine := PageAllows(e, v, perm);
        if !fine {
          Refused(s, e, va, v, hi, perm);
          return E_FAULT, if v > va then v else va;
        }
        AllowOneMore(s, e, PGNUM(va), PGNUM(v), perm);
        v := v + PGSIZE;
      }
      AllowFewer(s, e, PGNUM(va), PGNUM(hi), PGNUM(v), perm);
      r, bad := 0, 0;
    }

    // The test of user_mem_check on one page.
    method PageAllows(e: nat, va: nat, perm: nat) returns (b: bool)
      requires Valid() && Inv(State()) && e < NENV && pgdirs[e].Some? && va < UTOP
      modifies this`freeList, this`free, links, refs, memory
      ensures unchanged(this, links, refs, memory)
      ensures b == Allows(State(), e, PGNUM(va), perm)
    {
      Indexes(va);
      RealSlot(State(), e, PDX(va), PTX(va), None);
      var pte := PgdirWalk(e, va, false);
      b := pte.Some? && HasBits(memory[pte.value.0][pte.value.1], PermP(perm));
    }

    method RemoveDir(e: nat)
      requires Valid() && Inv(State()) && e < NENV && pgdirs[e].Some?
      modifies this`freeList, this`free, links, refs, pgdirs
      ensures Valid() && State() == FreeDir(old(State()), e)
    {
      var p := pgdirs[e].value;
      assert Target(State(), DirRef(e)) == Some(p);
      assert DirRef(e) in Refs(State(), p);
      pgdirs[e] := None;
      PageDecref(p);
    }
  }

  lemma PresentPde(s: Vm, e: nat, i: nat)
    requires Inv(s) && SlotOk(s, e, i, 0)
    ensures Dir(s, e).value < |s.mem| && |s.mem[Dir(s, e).value]| == NPTE
    ensures Pde(s, e, i) == 0 <==> Pde(s, e, i) % 2 == 0
  {
    assert Target(s, DirRef(e)) == Dir(s, e);
    assert Pde(s, e, i) == PGSIZE * Frame(Pde(s, e, i)) + Perm(Pde(s, e, i));
  }

  lemma RemoveSlotKeeps(s: Vm, e: nat, i: nat, j: nat)
    requires Inv(s) && SlotOk(s, e, i, j)
    ensures Real(s, e, i, j) && (Pte(s, e, i, j) == 0 <==> Pte(s, e, i, j) % 2 == 0)
    ensures Inv(Remove(s, e, i, j)) && SlotOk(Remove(s, e, i, j), e, i, 0)
    ensures Pde(Remove(s, e, i, j), e, i) == Pde(s, e, i)
    ensures FreePtes(s, e, i, j) == FreePtes(Remove(s, e, i, j), e, i, j + 1)
  {
    RealSlot(s, e, i, j, None);
    RemoveShrinks(s, Remove(s, e, i, j), e, i, j);
  }

  lemma SlotAddress(i: nat, j: nat)
    requires i < NPDU && j < NPTE
    ensures i * PTSIZE + j * PGSIZE < UTOP
    ensures PDX(i * PTSIZE + j * PGSIZE) == i && PTX(i * PTSIZE + j * PGSIZE) == j
  {
  }

  lemma TableIsReal(s: Vm, e: nat, i: nat)
    requires Inv(s) && SlotOk(s, e, i, 0) && Pde(s, e, i) != 0
    ensures Frame(Pde(s, e, i)) < |s.ref| && 0 < s.ref[Frame(Pde(s, e, i))] < REFWRAP && Frame(Pde(s, e, i)) !in s.free
    ensures Dir(s, e).value < |s.mem| && |s.mem[Dir(s, e).value]| == NPTE
  {
    assert Target(s, DirRef(e)) == Dir(s, e);
    assert Target(s, TabRef(e, i)) == Some(Frame(Pde(s, e, i)));
    assert TabRef(e, i) in Refs(s, Frame(Pde(s, e, i)));
  }

  // The pages that a walk to slot (i, j) of environment `e` meets are allocated pages.
  ghost predicate Real(s: Vm, e: nat, i: nat, j: nat) {
    && Shape(s) && FreeOk(s) && SlotOk(s, e, i, j) && Dir(s, e).value < |s.mem|
    && (Pde(s, e, i) != 0 ==> Frame(Pde(s, e, i)) < |s.mem|)
    && (Pte(s, e, i, j) != 0 ==>
          var p := Frame(Pte(s, e, i, j)); p < |s.mem| && p !in s.free && s.ref[p] > 0)
  }

  lemma RealSlot(s: Vm, e: nat, i: nat, j: nat, extra: Option<nat>)
    requires InvPlus(s, extra) && SlotOk(s, e, i, j)
    ensures Real(s, e, i, j)
  {
    assert Target(s, DirRef(e)) == Dir(s, e);
    assert Pde(s, e, i) != 0 ==> Target(s, TabRef(e, i)) == Some(Frame(Pde(s, e, i)));
    if Pte(s, e, i, j) != 0 {
      assert Target(s, PteRef(e, i, j)) == Some(Frame(Pte(s, e, i, j)));
      assert PteRef(e, i, j) in Refs(s, Frame(Pte(s, e, i, j)));
    }
  }

  lemma WalkCreates(s: Vm, e: nat, i: nat)
    requires Dir(s, e).Some? && Pde(s, e, i) == 0
    ensures s.free == [] ==> Walk(s, e, i, true).0 == s
    ensures s.free != [] ==>
              Walk(s, e, i, true).0 == Store(Incref(Alloc(s, true).0, s.free[0]), Dir(s, e).value, i, s.free[0] * PGSIZE + 7)
  {
  }

  lemma RaisedWalk(s: Vm, s1: Vm, ok: bool, pp: nat, e: nat, i: nat, j: nat)
    requires Inv(s) && SlotOk(s, e, i, j) && (s1, ok) == Walk(s, e, i, true)
    requires User(s, pp) && RefCount(s, pp) < REFWRAP - 1
    ensures ok == (Pde(s1, e, i) != 0) && pp < |s1.ref| && s1.ref[pp] < REFWRAP - 1 && pp !in s1.free
    ensures ok ==> Real(Incref(s1, pp), e, i, j)
  {
    WalkOk(s, s1, ok, e, i, true);
    SameTables(s1, Incref(s1, pp));
    RealSlot(s1, e, i, j, None);
  }

  lemma InitialFree(s: Vm, kernelEnd: nat)
    requires Shape(s) && Listed(s.free, |s.mem|, kernelEnd)
    requires s.pool == set p: nat | p < |s.mem| && !Reserved(p, kernelEnd)
    requires forall p :: 0 <= p < |s.ref| ==> s.ref[p] == 0
    requires forall e :: 0 <= e < NENV ==> s.dir[e] == None
    ensures Boot(s)
  {
  }
}
