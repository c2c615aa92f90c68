/** User page faults (sched/kern/trap.c, page_fault_handler) and the upcall that unwinds them
    (sched/lib/pfentry.S), on a byte-addressed memory. */
module Frames {
  import Paging

  const UXSTACKTOP := Paging.UTOP
  const EXSTK := UXSTACKTOP - Paging.PGSIZE
  const WORD := 0x1_0000_0000
  const FRAME := 52                     // sizeof(struct UTrapframe)

  type Mem = seq<nat>                   // the bytes of user memory, below UTOP

  // ---------------------------------------------------------------- words

  function Get(m: Mem, a: nat): nat
    requires a + 4 <= |m|
  {
    m[a] + 256 * m[a + 1] + 65536 * m[a + 2] + 16777216 * m[a + 3]
  }

  // The n low bytes of w, lowest first.
  function PutBytes(m: Mem, a: nat, w: nat, n: nat): (r: Mem)
    requires a + n <= |m|
    ensures |r| == |m| && forall x :: 0 <= x < |m| && !(a <= x < a + n) ==> r[x] == m[x]
    decreases n, |m|
  {
    if n == 0 then m else PutBytes(m[a := w % 256], a + 1, w / 256, n - 1)
  }

  lemma PutFour(m: Mem, a: nat, w: nat)
    requires a + 4 <= |m| && w < WORD
    ensures PutBytes(m, a, w, 4) == m[a := w % 256][a + 1 := w / 256 % 256][a + 2 := w / 65536 % 256][a + 3 := w / 16777216]
    ensures Get(PutBytes(m, a, w, 4), a) == w
  {
    Quotients(w);
    FourBytes(m, a, w, w / 256, w / 65536, w / 16777216);
  }

  lemma FourBytes(m: Mem, a: nat, w: nat, x: nat, y: nat, z: nat)
    requires a + 4 <= |m| && x == w / 256 && y == x / 256 && z == y / 256 < 256
    ensures PutBytes(m, a, w, 4) == m[a := w % 256][a + 1 := x % 256][a + 2 := y % 256][a + 3 := z]
  {
    var m1 := m[a := w % 256];
    var m2 := m1[a + 1 := x % 256];
    var m3 := m2[a + 2 := y % 256];
    assert PutBytes(m, a, w, 4) == PutBytes(m1, a + 1, x, 3);
    assert PutBytes(m1, a + 1, x, 3) == PutBytes(m2, a + 2, y, 2);
    assert PutBytes(m2, a + 2, y, 2) == PutBytes(m3, a + 3, z, 1);
  }

  lemma Quotients(w: nat)
    requires w < WORD
    ensures w / 65536 == w / 256 / 256 && w / 16777216 == w / 65536 / 256 < 256
    ensures w == w % 256 + 256 * (w / 256 % 256) + 65536 * (w / 65536 % 256) + 16777216 * (w / 16777216)
  {
  }

  function Put(m: Mem, a: nat, w: nat): (r: Mem)
    requires a + 4 <= |m|
    ensures |r| == |m| && forall x :: 0 <= x < |m| && !(a <= x < a + 4) ==> r[x] == m[x]
    ensures w < WORD ==> Get(r, a) == w
  {
    if w < WORD then PutFour(m, a, w); PutBytes(m, a, w, 4) else PutBytes(m, a, w, 4)
  }

  function PutAll(m: Mem, a: nat, ws: seq<nat>): (r: Mem)
    requires a + 4 * |ws| <= |m|
    ensures |r| == |m| && forall x :: 0 <= x < |m| && !(a <= x < a + 4 * |ws|) ==> r[x] == m[x]
    decreases |ws|
  {
    if ws == [] then m else Put(PutAll(m, a, ws[..|ws| - 1]), a + 4 * (|ws| - 1), ws[|ws| - 1])
  }

  lemma {:induction false} GetAll(m: Mem, a: nat, ws: seq<nat>, i: nat)
    requires a + 4 * |ws| <= |m| && i < |ws| && forall j :: 0 <= j < |ws| ==> ws[j] < WORD
    ensures Get(PutAll(m, a, ws), a + 4 * i) == ws[i]
    decreases |ws|
  {
    var n := |ws| - 1;
    if i < n {
      GetAll(m, a, ws[..n], i);
    }
  }

  // ---------------------------------------------------------------- registers

  datatype Cpu = Cpu(
    edi: nat, esi: nat, ebp: nat, ebx: nat, edx: nat, ecx: nat, eax: nat,
    eip: nat, eflags: nat, esp: nat)

  predicate Words(c: Cpu) {
    && c.edi < WORD && c.esi < WORD && c.ebp < WORD && c.ebx < WORD && c.edx < WORD && c.ecx < WORD && c.eax < WORD
    && c.eip < WORD && c.eflags < WORD && c.esp < WORD
  }

  // struct UTrapframe; `oesp` is the useless word that pushal saves.
  function UTrapframe(c: Cpu, va: nat, err: nat, oesp: nat): (ws: seq<nat>)
    ensures |ws| * 4 == FRAME
  {
    [va, err, c.edi, c.esi, c.ebp, oesp, c.ebx, c.edx, c.ecx, c.eax, c.eip, c.eflags, c.esp]
  }

  // ---------------------------------------------------------------- page_fault_handler

  predicate OnExceptionStack(esp: nat) { EXSTK <= esp < UXSTACKTOP }

  function FrameAt(esp: nat): int {
    if OnExceptionStack(esp) then esp - 4 - FRAME else UXSTACKTOP - 1 - FRAME
  }

  // The memory that the upcall starts with, given that the frame fits.
  function PushFrame(m: Mem, c: Cpu, va: nat, err: nat, oesp: nat): (r: Mem)
    requires |m| == UXSTACKTOP && FrameAt(c.esp) >= 0
    ensures |r| == |m|
  {
    PutAll(if OnExceptionStack(c.esp) then Put(m, c.esp - 4, 0) else m, FrameAt(c.esp), UTrapframe(c, va, err, oesp))
  }

  // ---------------------------------------------------------------- _pgfault_upcall

  const RETURN := 0x80_0000     // where the call of the handler returns to

  // pushl %esp; call
  function Enter(m: Mem, f: nat): (r: Mem)
    requires 8 <= f <= |m|
    ensures |r| == |m|
  {
    Put(Put(m, f - 4, f), f - 8, RETURN)
  }

  // The eip goes below the trap-time stack, whose adjusted top replaces the saved esp.
  function Patch(m: Mem, f: nat): (r: Mem)
    requires f + FRAME <= |m| < WORD && 4 <= Get(m, f + 48) <= |m|
    ensures |r| == |m| && Get(r, f + 48) == Get(m, f + 48) - 4
  {
    Put(Put(m, Get(m, f + 48) - 4, Get(m, f + 40)), f + 48, Get(m, f + 48) - 4)
  }

  // popal; addl; popfl; popl %esp; ret
  function Popped(m: Mem, f: nat): Cpu
    requires f + FRAME <= |m| && Get(m, f + 48) + 4 <= |m|
  {
    Cpu(Get(m, f + 8), Get(m, f + 12), Get(m, f + 16), Get(m, f + 24), Get(m, f + 28), Get(m, f + 32),
        Get(m, f + 36), Get(m, Get(m, f + 48)), Get(m, f + 44), Get(m, f + 48) + 4)
  }

  // From the return of the handler to `ret`.
  function Unwind(m: Mem, f: nat): (r: (Cpu, Mem))
    requires f + FRAME <= |m| < WORD && 4 <= Get(m, f + 48) <= |m|
    ensures |r.1| == |m|
  {
    (Popped(Patch(m, f), f), Patch(m, f))
  }

  function Word(m: Mem, f: nat, i: nat): nat
    requires f + 4 * i + 4 <= |m|
  {
    Get(m, f + 4 * i)
  }

  // The frame of c is in place at f; the words 0, 1 and 5 are not restored.
  ghost predicate FrameIn(m: Mem, f: nat, c: Cpu) {
    && f + FRAME <= |m| == UXSTACKTOP && Words(c)
    && forall i: nat :: i < 13 && Restored(i) ==> Word(m, f, i) == UTrapframe(c, 0, 0, 0)[i]
  }

  predicate Restored(i: nat) { i != 0 && i != 1 && i != 5 }

  lemma PushedFrame(m: Mem, c: Cpu, ws: seq<nat>, f: nat, r: Mem)
    requires |m| == UXSTACKTOP && Words(c) && f + FRAME <= |m|
    requires |ws| == 13 && (forall i :: 0 <= i < 13 ==> ws[i] < WORD) && r == PutAll(m, f, ws)
    requires ws == UTrapframe(c, ws[0], ws[1], ws[5])
    ensures FrameIn(r, f, c)
  {
    forall i: nat | i < 13 ensures Word(r, f, i) == ws[i] {
      GetAll(m, f, ws, i);
    }
  }

  lemma FrameStays(m: Mem, m1: Mem, f: nat, c: Cpu)
    requires FrameIn(m, f, c) && |m1| == |m| && forall x :: f <= x < f + FRAME ==> m1[x] == m[x]
    ensures FrameIn(m1, f, c)
  {
    assert forall i: nat :: i < 13 && Restored(i) ==> Word(m1, f, i) == Word(m, f, i);
  }

  // The argument and the return address of the handler are where the upcall pushed them.
  predicate Called(m: Mem, f: nat) { 8 <= f <= |m| && Get(m, f - 4) == f && Get(m, f - 8) == RETURN }

  // The fault and the entry of its upcall: memory with the frame of c at f.
  function Take(m: Mem, c: Cpu, va: nat, err: nat, oesp: nat, f: nat): (r: Mem)
    requires |m| == UXSTACKTOP && Words(c) && va < WORD && err < WORD && oesp < WORD
    requires f == FrameAt(c.esp) && f >= EXSTK + 8
    ensures FrameIn(r, f, c) && Called(r, f)
    ensures forall x :: 0 <= x < |m| && (x < EXSTK || x >= f + FRAME + 4) ==> r[x] == m[x]
  {
    var ws := UTrapframe(c, va, err, oesp);
    var p := PushFrame(m, c, va, err, oesp);
    PushedFrame(if OnExceptionStack(c.esp) then Put(m, c.esp - 4, 0) else m, c, ws, f, p);
    EnterOk(p, f, c, Enter(p, f));
    Enter(p, f)
  }

  lemma EnterOk(p: Mem, f: nat, c: Cpu, r: Mem)
    requires 8 <= f && FrameIn(p, f, c) && r == Enter(p, f)
    ensures FrameIn(r, f, c) && Called(r, f)
    ensures forall x :: 0 <= x < |p| && !(f - 8 <= x < f) ==> r[x] == p[x]
  {
    FrameStays(p, r, f, c);
  }

  lemma CalledStays(m: Mem, m1: Mem, f: nat)
    requires Called(m, f) && |m1| == |m| && forall x :: f - 8 <= x < |m| ==> m1[x] == m[x]
    ensures Called(m1, f)
  {
  }

  lemma FrameWords(m: Mem, f: nat, c: Cpu)
    requires FrameIn(m, f, c)
    ensures Get(m, f + 8) == c.edi && Get(m, f + 12) == c.esi && Get(m, f + 16) == c.ebp && Get(m, f + 24) == c.ebx
    ensures Get(m, f + 28) == c.edx && Get(m, f + 32) == c.ecx && Get(m, f + 36) == c.eax && Get(m, f + 40) == c.eip
    ensures Get(m, f + 44) == c.eflags && Get(m, f + 48) == c.esp
  {
    assert Restored(2) && Restored(3) && Restored(4) && Restored(6) && Restored(7) && Restored(8) && Restored(9);
    assert Restored(10) && Restored(11) && Restored(12);
  }

  /** One frame unwinds: all registers, flags, eip and esp come back, and memory changes only in
      the saved esp and in the word below the trap-time esp. */
  lemma UnwindRestores(m: Mem, f: nat, c: Cpu)
    requires FrameIn(m, f, c) && f == FrameAt(c.esp) && 4 <= c.esp < UXSTACKTOP
    ensures Get(m, f + 48) == c.esp
    ensures Unwind(m, f).0 == c
    ensures forall x :: 0 <= x < |m| && !(c.esp - 4 <= x < c.esp) && !(f + 48 <= x < f + 52) ==> Unwind(m, f).1[x] == m[x]
  {
    FrameWords(m, f, c);
    var sp := c.esp - 4;
    var m1 := Put(m, sp, c.eip);
    var m2 := Put(m1, f + 48, sp);
  }

  // The last words of memory, after both stores of the upcall.
  lemma TopWord(m: Mem, eip: nat)
    requires |m| == UXSTACKTOP && eip < WORD
    ensures Get(Put(Put(m, UXSTACKTOP - 4, eip), UXSTACKTOP - 5, UXSTACKTOP - 4), UXSTACKTOP - 4)
            == 0xEEBFFF + 0x100_0000 * (eip / 0x100_0000)
  {
    var m1 := Put(m, UXSTACKTOP - 4, eip);
    PutFour(m, UXSTACKTOP - 4, eip);
    assert m1[UXSTACKTOP - 1] == eip / 0x100_0000;
    PutFour(m1, UXSTACKTOP - 5, UXSTACKTOP - 4);
  }

  /** A fault with esp exactly at UXSTACKTOP: its frame starts one byte too low, its last bytes
      overlap the word in which the upcall leaves the eip, and the low 24 bits of eip are lost. */
  lemma UnwindAtTop(m: Mem, f: nat, c: Cpu)
    requires FrameIn(m, f, c) && f == FrameAt(c.esp) && c.esp == UXSTACKTOP
    ensures Get(m, f + 48) == c.esp
    ensures Unwind(m, f).0 == c.(eip := 0xEEBFFF + 0x100_0000 * (c.eip / 0x100_0000))
    ensures Unwind(m, f).0 == c <==> c.eip % 0x100_0000 == 0xEEBFFF
    ensures forall x :: 0 <= x < f + 48 ==> Unwind(m, f).1[x] == m[x]
  {
    FrameWords(m, f, c);
    TopWord(m, c.eip);
    var m1 := Put(m, c.esp - 4, c.eip);
    var m2 := Put(m1, f + 48, c.esp - 4);
    assert m2 == Unwind(m, f).1;
  }

  // ---------------------------------------------------------------- nested faults

  // What a handler does: it writes words, and it may fault again. After its return only the
  // store of the upcall may still fault, on the trap-time stack.
  datatype Acts =
    | Done
    | Poke(a: nat, w: nat, rest: Acts)
    | Return(rest: Acts)
    | Fault(at: Cpu, va: nat, err: nat, oesp: nat, inner: Acts, rest: Acts)

  // The handler of the frame at f keeps to user memory below the exception stack and to its own
  // part of that stack, and every nested frame fits. In the upcall, esp is at the frame itself.
  ghost predicate Fits(acts: Acts, f: nat, returned: bool)
    decreases acts, 1
  {
    match acts
    case Done => true
    case Poke(a, w, rest) => !returned && (a + 4 <= EXSTK || EXSTK <= a <= f - 12) && Fits(rest, f, returned)
    case Return(rest) => !returned && Fits(rest, f, true)
    case Fault(at, _, _, _, _, rest) =>
      (if returned then at.esp == f else at.esp <= f - 8) && FaultFits(acts) && Fits(rest, f, returned)
  }

  ghost predicate FaultFits(acts: Acts)
    requires acts.Fault?
    decreases acts, 0
  {
    && Words(acts.at) && acts.va < WORD && acts.err < WORD && acts.oesp < WORD
    && EXSTK + 8 + 4 + FRAME <= acts.at.esp <= UXSTACKTOP - FRAME
    && Fits(acts.inner, acts.at.esp - 4 - FRAME, false)
  }

  // The return to the faulting instruction, from a handler that left its frame alone.
  function Back(m1: Mem, m2: Mem, f: nat, c: Cpu): (r: (Cpu, Mem))
    requires FrameIn(m1, f, c) && |m2| == |m1| && EXSTK + 8 <= f == FrameAt(c.esp) && 4 <= c.esp <= UXSTACKTOP
    requires forall x :: f <= x < |m1| ==> m2[x] == m1[x]
    ensures r.0 == c <==> (c.esp != UXSTACKTOP || c.eip % 0x100_0000 == 0xEEBFFF)
    ensures |r.1| == |m2|
    ensures forall x :: 0 <= x < |m2| && (x < f || x >= f + 4 + FRAME) && !(c.esp - 4 <= x < c.esp) ==> r.1[x] == m2[x]
  {
    FrameStays(m1, m2, f, c);
    if c.esp == UXSTACKTOP then
      UnwindAtTop(m2, f, c);
      Unwind(m2, f)
    else
      UnwindRestores(m2, f, c);
      Unwind(m2, f)
  }

  // The same writes with no faults at all.
  function Pokes(m: Mem, acts: Acts): (r: Mem)
    requires |m| == UXSTACKTOP
    ensures |r| == |m|
    decreases acts
  {
    match acts
    case Done => m
    case Poke(a, w, rest) => Pokes(if a + 4 <= |m| then Put(m, a, w) else m, rest)
    case Return(rest) => Pokes(m, rest)
    case Fault(_, _, _, _, inner, rest) => Pokes(Pokes(m, inner), rest)
  }

  ghost predicate SameBelow(m: Mem, n: Mem) {
    |m| == |n| == UXSTACKTOP && forall x :: 0 <= x < EXSTK ==> m[x] == n[x]
  }

  lemma {:induction false} PutBelow(m: Mem, n: Mem, a: nat, w: nat, k: nat)
    requires SameBelow(m, n) && a + k <= |m|
    ensures SameBelow(PutBytes(m, a, w, k), PutBytes(n, a, w, k))
    decreases k
  {
    if k > 0 {
      PutBelow(m[a := w % 256], n[a := w % 256], a + 1, w / 256, k - 1);
    }
  }

  lemma {:induction false} PokesBelow(m: Mem, n: Mem, acts: Acts)
    requires SameBelow(m, n)
    ensures SameBelow(Pokes(m, acts), Pokes(n, acts))
    decreases acts
  {
    match acts
    case Done =>
    case Poke(a, w, rest) =>
      if a + 4 <= |m| {
        PutBelow(m, n, a, w, 4);
        PokesBelow(Put(m, a, w), Put(n, a, w), rest);
      } else {
        PokesBelow(m, n, rest);
      }
    case Return(rest) => PokesBelow(m, n, rest);
    case Fault(_, _, _, _, inner, rest) =>
      PokesBelow(m, n, inner);
      PokesBelow(Pokes(m, inner), Pokes(n, inner), rest);
  }

  /** Nested faults are transparent: every one of them resumes with the registers it was taken
      with, and its handler finds its return address; the frame of the interrupted handler is
      untouched; and below the exception stack the memory is what the writes alone make of it. */
  function RunActs(m: Mem, acts: Acts, f: nat, returned: bool): (r: (Mem, bool))
    requires |m| == UXSTACKTOP && EXSTK + 8 <= f <= UXSTACKTOP - FRAME && Fits(acts, f, returned)
    requires returned || Called(m, f)
    ensures r.1
    ensures |r.0| == |m| && forall x :: f <= x < |m| ==> r.0[x] == m[x]
    ensures SameBelow(r.0, Pokes(m, acts))
    decreases acts, 1
  {
    match acts
    case Done => (m, true)
    case Poke(a, w, rest) =>
      CalledStays(m, Put(m, a, w), f);
      RunActs(Put(m, a, w), rest, f, returned)
    case Return(rest) =>
      var (m1, ok) := RunActs(m, rest, f, true);
      (m1, ok && Called(m, f))
    case Fault(at, va, err, oesp, inner, rest) =>
      var (m3, ok) := RunFault(m, acts);
      PokesBelow(m3, Pokes(m, inner), rest);
      assert returned || Called(m3, f) by { if !returned { CalledStays(m, m3, f); } }
      var (m4, ok4) := RunActs(m3, rest, f, returned);
      (m4, ok && ok4)
  }

  // One fault inside a handler, up to the return to the faulting instruction.
  function RunFault(m: Mem, acts: Acts): (r: (Mem, bool))
    requires |m| == UXSTACKTOP && acts.Fault? && FaultFits(acts)
    ensures r.1
    ensures |r.0| == |m| && forall x :: acts.at.esp <= x < |m| ==> r.0[x] == m[x]
    ensures SameBelow(r.0, Pokes(m, acts.inner))
    decreases acts, 0
  {
    var f: nat := acts.at.esp - 4 - FRAME;
    var m1 := Take(m, acts.at, acts.va, acts.err, acts.oesp, f);
    var (m2, ok) := RunActs(m1, acts.inner, f, false);
    PokesBelow(m1, m, acts.inner);
    var (c, m3) := Back(m1, m2, f, acts.at);
    (m3, ok && c == acts.at)
  }

  lemma Untouched(m: Mem, m1: Mem, m2: Mem, r: Mem, n: Mem, f: nat, esp: nat)
    requires |m| == |m1| == |m2| == |r| == UXSTACKTOP && EXSTK <= f == FrameAt(esp)
    requires forall x :: 0 <= x < |m| && (x < EXSTK || x >= f + FRAME + 4) ==> m1[x] == m[x]
    requires forall x :: f <= x < |m| ==> m2[x] == m1[x]
    requires forall x :: 0 <= x < |m| && (x < f || x >= f + 4 + FRAME) && !(esp - 4 <= x < esp) ==> r[x] == m2[x]
    requires SameBelow(m2, n)
    ensures OnExceptionStack(esp) ==> forall x :: esp <= x < |m| ==> r[x] == m[x]
    ensures forall x :: 0 <= x < EXSTK && !(esp - 4 <= x < esp) ==> r[x] == n[x]
  {
  }

  // The memories at the start and at the end of the handler.
  function Handler(m: Mem, c: Cpu, va: nat, err: nat, oesp: nat, inner: Acts, f: nat): (r: (Mem, Mem))
    requires |m| == UXSTACKTOP && Words(c) && va < WORD && err < WORD && oesp < WORD
    requires EXSTK + 8 <= f == FrameAt(c.esp) && c.esp <= UXSTACKTOP && Fits(inner, f, false)
    ensures |r.0| == |r.1| == |m| && FrameIn(r.0, f, c) && SameBelow(r.1, Pokes(m, inner))
    ensures forall x :: 0 <= x < |m| && (x < EXSTK || x >= f + FRAME + 4) ==> r.0[x] == m[x]
    ensures forall x :: f <= x < |m| ==> r.1[x] == r.0[x]
  {
    var m1 := Take(m, c, va, err, oesp, f);
    PokesBelow(m1, m, inner);
    (m1, RunActs(m1, inner, f, false).0)
  }

  // The return from a handler that ends with memory m2, which agrees with n below the stack.
  function Settle(m: Mem, m1: Mem, m2: Mem, n: Mem, f: nat, c: Cpu): (r: (Cpu, Mem))
    requires |m| == |m1| == |m2| == UXSTACKTOP && EXSTK + 8 <= f == FrameAt(c.esp) && 4 <= c.esp <= UXSTACKTOP
    requires FrameIn(m1, f, c) && SameBelow(m2, n)
    requires forall x :: 0 <= x < |m| && (x < EXSTK || x >= f + FRAME + 4) ==> m1[x] == m[x]
    requires forall x :: f <= x < |m| ==> m2[x] == m1[x]
    ensures r.0 == c <==> (c.esp != UXSTACKTOP || c.eip % 0x100_0000 == 0xEEBFFF)
    ensures |r.1| == |m|
    ensures OnExceptionStack(c.esp) ==> forall x :: c.esp <= x < |m| ==> r.1[x] == m[x]
    ensures forall x :: 0 <= x < EXSTK && !(c.esp - 4 <= x < c.esp) ==> r.1[x] == n[x]
  {
    var r := Back(m1, m2, f, c);
    Untouched(m, m1, m2, r.1, n, f, c.esp);
    r
  }

  /** Page faults are invisible to the code that takes them, at any nesting depth that fits.
      Registers, flags, eip and esp come back, except when esp is exactly UXSTACKTOP and the low
      bytes of eip are not those of UXSTACKTOP - 4. The stack in use at or above esp is unchanged;
      below the exception stack, but for the word under esp, memory is what the handler's own
      writes make of it. */
  function TopFault(m: Mem, c: Cpu, va: nat, err: nat, oesp: nat, inner: Acts): (r: (Cpu, Mem))
    requires |m| == UXSTACKTOP && Words(c) && va < WORD && err < WORD && oesp < WORD
    requires 4 <= c.esp <= UXSTACKTOP && FrameAt(c.esp) >= EXSTK + 8 && Fits(inner, FrameAt(c.esp), false)
    ensures r.0 == c <==> (c.esp != UXSTACKTOP || c.eip % 0x100_0000 == 0xEEBFFF)
    ensures |r.1| == |m|
    ensures OnExceptionStack(c.esp) ==> forall x :: c.esp <= x < |m| ==> r.1[x] == m[x]
    ensures forall x :: 0 <= x < EXSTK && !(c.esp - 4 <= x < c.esp) ==> r.1[x] == Pokes(m, inner)[x]
  {
    var f: nat := FrameAt(c.esp);
    var (m1, m2) := Handler(m, c, va, err, oesp, inner, f);
    Settle(m, m1, m2, Pokes(m, inner), f, c)
  }

  // ---------------------------------------------------------------- the code

  /** The user environment as the kernel and the upcall change it, word by word. */
  class Machine {
    var mem: Mem
    var edi: nat
    var esi: nat
    var ebp: nat
    var ebx: nat
    var edx: nat
    var ecx: nat
    var eax: nat
    var eip: nat
    var eflags: nat
    var esp: nat

    constructor (mem: Mem, c: Cpu)
      ensures this.mem == mem && Regs() == c
    {
      this.mem := mem;
      edi, esi, ebp, ebx, edx, ecx, eax := c.edi, c.esi, c.ebp, c.ebx, c.edx, c.ecx, c.eax;
      eip, eflags, esp := c.eip, c.eflags, c.esp;
    }

    ghost function Regs(): Cpu
      reads this
    {
      Cpu(edi, esi, ebp, ebx, edx, ecx, eax, eip, eflags, esp)
    }

    // *(struct UTrapframe *) a = ws
    method StoreAll(a: nat, ws: seq<nat>)
      requires a + 4 * |ws| <= |mem|
      modifies this`mem
      ensures mem == PutAll(old(mem), a, ws)
    {
      for i := 0 to |ws|
        invariant |mem| == |old(mem)| && mem == PutAll(old(mem), a, ws[..i])
      {
        mem := Put(mem, a + 4 * i, ws[i]);
        assert ws[..i + 1][..i] == ws[..i];
      }
      assert ws[..|ws|] == ws;
    }

    method Push(w: nat)
      requires 4 <= esp <= |mem|
      modifies this`mem, this`esp
      ensures esp == old(esp) - 4 && mem == Put(old(mem), esp, w)
    {
      esp := esp - 4;
      mem := Put(mem, esp, w);
    }

    method Pop() returns (w: nat)
      requires esp + 4 <= |mem|
      modifies this`esp
      ensures esp == old(esp) + 4 && w == Get(mem, old(esp))
    {
      w := Get(mem, esp);
      esp := esp + 4;
    }

    /** page_fault_handler, for an environment with an upcall and a writable exception stack;
        `ok` is false where the C code panics with an exception stack overflow. */
    method PageFault(va: nat, err: nat, oesp: nat, upcall: nat) returns (ok: bool)
      requires |mem| == UXSTACKTOP && Words(Regs()) && va < WORD && err < WORD && oesp < WORD
      modifies this`mem, this`esp, this`eip
      ensures ok <==> FrameAt(old(esp)) >= EXSTK
      ensures ok ==> mem == PushFrame(old(mem), old(Regs()), va, err, oesp)
      ensures ok ==> esp == FrameAt(old(esp)) && eip == upcall
    {
      ghost var c := Regs();
      var utf := [va, err, edi, esi, ebp, oesp, ebx, edx, ecx, eax, eip, eflags, esp];
      var tmp := esp;
      if esp < EXSTK || esp > UXSTACKTOP - 1 {
        tmp := UXSTACKTOP - 1 - FRAME;
      } else {
        tmp := tmp - 4;
        mem := Put(mem, tmp, 0);
        tmp := tmp - FRAME;
      }
      assert utf == UTrapframe(c, va, err, oesp);
      StoreAll(tmp, utf);
      if tmp < EXSTK || tmp > UXSTACKTOP - 1 {
        return false;
      }
      esp := tmp;
      eip := upcall;
      ok := true;
    }

    // The first instructions of _pgfault_upcall, up to the handler.
    method UpcallCall()
      requires 8 <= esp <= |mem|
      modifies this`mem, this`esp
      ensures esp == old(esp) - 8 && mem == Enter(old(mem), old(esp))
    {
      Push(esp);
      Push(RETURN);
    }

    // The rest, once the handler has returned to it.
    method UpcallReturn()
      requires 4 + esp + FRAME <= |mem| < WORD && 4 <= Get(mem, esp + 52) <= |mem|
      modifies this
      ensures (Regs(), mem) == Unwind(old(mem), old(esp) + 4)
    {
      esp := esp + 4;                 // addl $4, %esp
      ghost var f := esp;
      eax := Get(mem, esp + 40);      // movl 40(%esp), %eax
      ebx := Get(mem, esp + 48);      // movl 48(%esp), %ebx
      ebx := ebx - 4;                 // subl $4, %ebx
      mem := Put(mem, ebx, eax);      // movl %eax, 0(%ebx)
      mem := Put(mem, esp + 48, ebx); // movl %ebx, 48(%esp)
      assert mem == Patch(old(mem), f);
      PopState();
    }

    // pop the two fault words, then the first half of popal
    method PopLow()
      requires esp + 24 <= |mem|
      modifies this`esp, this`edi, this`esi, this`ebp, this`eax
      ensures esp == old(esp) + 24
      ensures edi == Get(mem, old(esp) + 8) && esi == Get(mem, old(esp) + 12) && ebp == Get(mem, old(esp) + 16)
    {
      eax := Pop();
      eax := Pop();
      edi := Pop();                   // popal
      esi := Pop();
      ebp := Pop();
      var oesp := Pop();
    }

    // the second half of popal
    method PopHigh()
      requires esp + 16 <= |mem|
      modifies this`esp, this`ebx, this`edx, this`ecx, this`eax
      ensures esp == old(esp) + 16
      ensures ebx == Get(mem, old(esp)) && edx == Get(mem, old(esp) + 4) && ecx == Get(mem, old(esp) + 8)
      ensures eax == Get(mem, old(esp) + 12)
    {
      ebx := Pop();
      edx := Pop();
      ecx := Pop();
      eax := Pop();
    }

    method PopState()
      requires esp + FRAME <= |mem| && Get(mem, esp + 48) + 4 <= |mem|
      modifies this
      ensures mem == old(mem) && Regs() == Popped(mem, old(esp))
    {
      PopLow();
      PopHigh();
      esp := esp + 4;                 // addl $4, %esp
      eflags := Pop();                // popfl
      esp := Get(mem, esp);           // popl %esp
      eip := Pop();                   // ret
    }
  }
}
