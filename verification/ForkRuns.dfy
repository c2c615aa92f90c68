/** A fork (sched/lib/fork.c) in the middle of a run: its system calls and faults interleave
    with everything that other environments do. */
module ForkRuns {
  import opened Base
  import opened Paging
  import opened AddressSpace
  import opened Cow
  import opened Fork

  // What e reads at v.
  function PageIn(m: Private, e: nat, v: nat): Option<seq<nat>> {
    if e in m && v in m[e] then Some(m[e][v]) else None
  }

  // The step can change what e reads at v; those of the fault handler never do.
  predicate Touches(op: Step, e: nat, v: nat) {
    match op
    case Create(c) => c == e
    case Exit(x) => x == e
    case Dup(_, c, u) => c == e && u == v
    case AllocAt(x, u, _) => x == e && u == v
    case UnmapAt(x, u) => x == e && u == v
    case StoreAt(x, u, _, _) => x == e && u == v
    case _ => false
  }

  lemma StepTouches(m: Private, op: Step, e: nat, v: nat)
    requires !Touches(op, e, v)
    ensures PageIn(PrivateStep(m, op), e, v) == PageIn(m, e, v)
  {
  }

  lemma {:induction false} RunTouches(m: Private, ops: seq<Step>, e: nat, v: nat)
    requires forall k :: 0 <= k < |ops| ==> !Touches(ops[k], e, v)
    ensures PageIn(PrivateRun(m, ops), e, v) == PageIn(m, e, v)
    decreases |ops|
  {
    if ops != [] {
      StepTouches(m, ops[0], e, v);
      RunTouches(PrivateStep(m, ops[0]), ops[1..], e, v);
    }
  }

  lemma {:induction false} RunSplit(m: Private, ops: seq<Step>, k: nat)
    requires k <= |ops|
    ensures PrivateRun(m, ops) == PrivateRun(PrivateRun(m, ops[..k]), ops[k..])
    decreases |ops|
  {
    if k > 0 {
      RunSplit(PrivateStep(m, ops[0]), ops[1..], k - 1);
      assert ops[..k][0] == ops[0] && ops[..k][1..] == ops[1..][..k - 1] && ops[k..] == ops[1..][k - 1..];
    } else {
      assert ops[..0] == [] && ops[0..] == ops;
    }
  }

  /** The child's page is the parent's as it was when it was copied, whatever the parent and
      all others do to their memories before and after. */
  lemma CopiedThen(m: Private, ops: seq<Step>, k: nat, p: nat, c: nat, v: nat)
    requires k < |ops| && ops[k] == Dup(p, c, v) && forall j :: k < j < |ops| ==> !Touches(ops[j], c, v)
    requires c in PrivateRun(m, ops[..k]) && PageIn(PrivateRun(m, ops[..k]), p, v).Some?
    ensures PageIn(PrivateRun(m, ops), c, v) == PageIn(PrivateRun(m, ops[..k]), p, v)
  {
    var m1 := PrivateRun(m, ops[..k]);
    RunSplit(m, ops, k);
    assert ops[k..][0] == ops[k];
    RunTouches(PrivateStep(m1, ops[k]), ops[k..][1..], c, v);
  }

  // ---------------------------------------------------------------- a whole fork

  // A step of the run after exofork: the parent may store to the pages in `stored`, its stacks,
  // and otherwise leaves its memory alone; the child's gets copies and an exception stack.
  predicate ForkStep(op: Step, p: nat, c: nat, stored: set<nat>) {
    match op
    case Create(x) => x != p && x != c
    case Exit(x) => x != p && x != c
    case Dup(x, y, v) => y != p && (y == c ==> x == p && v != XSTACK)
    case AllocAt(x, v, _) => x != p && (x == c ==> v == XSTACK)
    case UnmapAt(x, _) => x != p && x != c
    case StoreAt(x, v, _, _) => x != c && (x == p ==> v in stored)
    case _ => true
  }

  // The page of the child that the step fills.
  predicate Fills(op: Step, c: nat, v: nat) {
    (op.Dup? && op.c == c && op.v == v) || (op.AllocAt? && op.e == c && op.v == v)
  }

  // All the calls of fork: each page of the parent's memory, and the exception stack.
  ghost predicate ForkCalls(ops: seq<Step>, p: nat, c: nat, memory: map<nat, seq<nat>>, stored: set<nat>) {
    && |ops| > 0 && ops[0] == Create(c) && p != c
    && (forall k :: 1 <= k < |ops| ==> ForkStep(ops[k], p, c, stored))
    && (forall v :: v in memory || v == XSTACK ==> exists k :: 1 <= k < |ops| && Fills(ops[k], c, v))
  }

  // Midway: the parent has its pages, the child part of what it is to get.
  ghost predicate Copying(m: Private, p: nat, c: nat, memory: map<nat, seq<nat>>, stored: set<nat>) {
    && p in m && c in m && p != c && m[p].Keys == memory.Keys
    && (forall v :: v in memory ==> v < NVPN)
    && (forall v :: v in memory && v !in stored ==> m[p][v] == memory[v])
    && (forall v :: v in m[c] ==> v in Child(memory) && (v !in stored || v == XSTACK ==> m[c][v] == Child(memory)[v]))
  }

  lemma CopyingStep(m: Private, op: Step, p: nat, c: nat, memory: map<nat, seq<nat>>, stored: set<nat>)
    requires Copying(m, p, c, memory, stored) && ForkStep(op, p, c, stored)
    ensures Copying(PrivateStep(m, op), p, c, memory, stored)
    ensures m[c].Keys <= PrivateStep(m, op)[c].Keys
    ensures forall v :: Fills(op, c, v) && (v in memory || v == XSTACK) ==> v in PrivateStep(m, op)[c]
  {
  }

  lemma {:induction false} CopyingRun(m: Private, ops: seq<Step>, p: nat, c: nat, memory: map<nat, seq<nat>>, stored: set<nat>)
    requires Copying(m, p, c, memory, stored) && forall k :: 0 <= k < |ops| ==> ForkStep(ops[k], p, c, stored)
    ensures Copying(PrivateRun(m, ops), p, c, memory, stored) && m[c].Keys <= PrivateRun(m, ops)[c].Keys
    ensures forall k, v :: 0 <= k < |ops| && Fills(ops[k], c, v) && (v in memory || v == XSTACK) ==> v in PrivateRun(m, ops)[c]
    decreases |ops|
  {
    if ops != [] {
      var m1 := PrivateStep(m, ops[0]);
      CopyingStep(m, ops[0], p, c, memory, stored);
      CopyingRun(m1, ops[1..], p, c, memory, stored);
      forall k, v | 0 <= k < |ops| && Fills(ops[k], c, v) && (v in memory || v == XSTACK) ensures v in PrivateRun(m, ops)[c] {
        assert k > 0 ==> ops[k] == ops[1..][k - 1];
      }
    }
  }

  // The child's memory at the end, and the parent's.
  ghost predicate Copied(m: Private, p: nat, c: nat, memory: map<nat, seq<nat>>, stored: set<nat>) {
    && p in m && c in m && m[c].Keys == Child(memory).Keys
    && (forall v :: v in m[c] && (v !in stored || v == XSTACK) ==> m[c][v] == Child(memory)[v])
    && (stored == {} ==> m[c] == Child(memory) && m[p] == memory)
  }

  lemma PrivateFork(m: Private, ops: seq<Step>, p: nat, c: nat, memory: map<nat, seq<nat>>, stored: set<nat>)
    requires p in m && m[p] == memory && (forall v :: v in memory ==> v < NVPN) && ForkCalls(ops, p, c, memory, stored)
    ensures Copied(PrivateRun(m, ops), p, c, memory, stored)
  {
    var m1 := PrivateStep(m, ops[0]);
    var last := PrivateRun(m1, ops[1..]);
    CopyingRun(m1, ops[1..], p, c, memory, stored);
    forall v | v in Child(memory) ensures v in last[c] {
      var k :| 1 <= k < |ops| && Fills(ops[k], c, v);
      assert ops[1..][k - 1] == ops[k];
    }
  }

  /** A fork anywhere in a run makes a full copy of the parent's memory as it was when the child
      was created, with a fresh exception stack; only pages that the parent itself stores to in
      the meantime may be newer, and CopiedThen says how new. */
  lemma ForkCopies(y: System, ops: seq<Step>, z: System, p: nat, c: nat, memory: map<nat, seq<nat>>, stored: set<nat>)
    requires SystemInv(y) && CowRun(y, ops, z) && Live(y.vm, p, 0) && memory == Data(y.vm, p)
    requires ForkCalls(ops, p, c, memory, stored)
    ensures SystemInv(z) && Copied(AllData(z.vm), p, c, memory, stored)
  {
    RunRefines(y, ops, z);
    assert p in AllData(y.vm) && AllData(y.vm)[p] == memory;
    PrivateFork(AllData(y.vm), ops, p, c, memory, stored);
  }
}
