/** The process sieve of fork/: a generator and a growing chain of stages, joined by pipes of
    bounded capacity, under every interleaving of their system calls. */
module Sieve {
  import opened Base
  import opened Primes

  // Everything ever written, how much of it has been read, and whether the write end is closed.
  datatype Pipe = Pipe(sent: seq<int>, taken: nat, closed: bool)

  datatype Stage =
    | Start                       // before the first read
    | Fork(p: int)                // has p, before pipe() and fork()
    | Print(p: int)               // the parent, before printf
    | Read(p: int)                // before the next read
    | Write(p: int, a: int)       // before writing a
    | Close(p: int)               // at the end of its input
    | Wait(p: int)                // its output is closed
    | Done(p: int)                // its child has finished
    | Leaf                        // found no number at all, and finished

  datatype Generator = Feeding | Awaiting | Over

  datatype Net = Net(gen: Generator, i: int, stages: seq<Stage>, pipes: seq<Pipe>, printed: seq<int>)

  datatype Who = Main | Proc(k: nat)

  predicate Finished(st: Stage) { st.Done? || st.Leaf? }

  predicate CanRead(p: Pipe) { p.taken < |p.sent| }

  predicate AtEnd(p: Pipe) { p.taken >= |p.sent| && p.closed }

  predicate HasRoom(p: Pipe, cap: nat) { |p.sent| - p.taken < cap }

  // ---------------------------------------------------------------- the steps

  // The stage that a stage becomes, with the pipe it reads from.
  function Advance(st: Stage, pipe: Pipe): Stage {
    match st
    case Start => if CanRead(pipe) then Fork(pipe.sent[pipe.taken]) else Leaf
    case Fork(p) => Print(p)
    case Print(p) => Read(p)
    case Read(p) =>
      if !CanRead(pipe) then Close(p)
      else if p > 0 && pipe.sent[pipe.taken] % p == 0 then Read(p) else Write(p, pipe.sent[pipe.taken])
    case Write(p, _) => Read(p)
    case Close(p) => Wait(p)
    case Wait(p) => Done(p)
    case _ => st
  }

  // A process is enabled when its next system call does not block.
  predicate Enabled(net: Net, n: int, cap: nat, who: Who) {
    match who
    case Main =>
      && |net.pipes| > 0 && |net.stages| > 0
      && (net.gen == Feeding ==> net.i >= n || HasRoom(net.pipes[0], cap))
      && (net.gen == Awaiting ==> Finished(net.stages[0]))
      && net.gen != Over
    case Proc(k) =>
      && k < |net.stages| == |net.pipes| && !Finished(net.stages[k])
      && ((net.stages[k].Start? || net.stages[k].Read?) ==> CanRead(net.pipes[k]) || AtEnd(net.pipes[k]))
      && (net.stages[k].Write? ==> k + 1 < |net.pipes| && HasRoom(net.pipes[k + 1], cap))
      && (net.stages[k].Close? ==> k + 1 < |net.pipes|)
      && (net.stages[k].Wait? ==> k + 1 < |net.stages| && Finished(net.stages[k + 1]))
  }

  function Step(net: Net, n: int, cap: nat, who: Who): Net
    requires Enabled(net, n, cap, who)
  {
    match who
    case Main =>
      (match net.gen
       case Feeding =>
         if net.i < n then net.(i := net.i + 1, pipes := Send(net.pipes, 0, net.i))
         else net.(gen := Awaiting, pipes := CloseEnd(net.pipes, 0))
       case _ => net.(gen := Over))
    case Proc(k) =>
      var st := net.stages[k];
      var net1 := net.(stages := net.stages[k := Advance(st, net.pipes[k])]);
      match st
      case Start => net1.(pipes := Take(net.pipes, k))
      case Read(_) => net1.(pipes := Take(net.pipes, k))
      case Fork(_) => net1.(stages := net1.stages + [Start], pipes := net.pipes + [Pipe([], 0, false)])
      case Print(p) => net1.(printed := net.printed + [p])
      case Write(_, a) => net1.(pipes := Send(net.pipes, k + 1, a))
      case Close(_) => net1.(pipes := CloseEnd(net.pipes, k + 1))
      case _ => net1
  }

  function Send(pipes: seq<Pipe>, k: nat, a: int): seq<Pipe>
    requires k < |pipes|
  {
    pipes[k := pipes[k].(sent := pipes[k].sent + [a])]
  }

  function CloseEnd(pipes: seq<Pipe>, k: nat): seq<Pipe>
    requires k < |pipes|
  {
    pipes[k := pipes[k].(closed := true)]
  }

  // read() takes one number, or nothing at the end of the input.
  function Take(pipes: seq<Pipe>, k: nat): seq<Pipe>
    requires k < |pipes|
  {
    if CanRead(pipes[k]) then pipes[k := pipes[k].(taken := pipes[k].taken + 1)] else pipes
  }

  function Init(): Net { Net(Feeding, 2, [Start], [Pipe([], 0, false)], []) }

  // ---------------------------------------------------------------- the invariant

  predicate PastPrint(st: Stage) { st.Read? || st.Write? || st.Close? || st.Wait? || st.Done? }

  predicate Closing(st: Stage) { st.Wait? || st.Done? }

  function Pending(st: Stage): seq<int> { if st.Write? then [st.a] else [] }

  // One stage between its pipes; `child` is the stage it forked.
  ghost predicate StageOk(st: Stage, pipe: Pipe, next: Option<Pipe>, child: Option<Stage>) {
    && pipe.taken <= |pipe.sent| && Positive(pipe.sent)
    && (next.Some? <==> child.Some?)
    && match st
       case Start => pipe.taken == 0 && next.None?
       case Leaf => pipe.sent == [] && pipe.closed && next.None?
       case Fork(p) => pipe.taken == 1 && pipe.sent[0] == p && next.None?
       case _ =>
         && next.Some? && pipe.taken >= 1 && st.p == pipe.sent[0]
         && next.value.sent + Pending(st) == Filter(st.p, pipe.sent[1..pipe.taken])
         && (next.value.closed <==> Closing(st))
         && (st.Print? ==> pipe.taken == 1)
         && ((st.Close? || Closing(st)) ==> pipe.closed && pipe.taken == |pipe.sent|)
         && (st.Done? ==> Finished(child.value))
  }

  function At<T>(s: seq<T>, k: nat): Option<T> { if k < |s| then Some(s[k]) else None }

  ghost predicate StagesOk(net: Net)
    requires |net.stages| == |net.pipes|
  {
    forall k: nat :: k < |net.stages| ==> Sound(net, k)
  }

  ghost predicate Sound(net: Net, k: nat)
    requires |net.stages| == |net.pipes| && k < |net.stages|
  {
    StageOk(net.stages[k], net.pipes[k], At(net.pipes, k + 1), At(net.stages, k + 1))
  }

  // The generator and its pipe.
  ghost predicate FeedOk(net: Net, n: int)
    requires |net.stages| == |net.pipes| && |net.stages| > 0
  {
    && 2 <= net.i && net.pipes[0].sent == Range(2, net.i) && (net.i <= n || net.i == 2)
    && (net.pipes[0].closed <==> net.gen != Feeding) && (net.gen != Feeding ==> net.i >= n)
    && (net.gen == Over ==> Finished(net.stages[0]))
  }

  // No pipe holds more than its capacity.
  ghost predicate CapOk(net: Net, cap: nat) {
    forall k: nat :: k < |net.pipes| ==> |net.pipes[k].sent| - net.pipes[k].taken <= cap
  }

  ghost predicate Inv(net: Net, n: int, cap: nat) {
    && |net.stages| == |net.pipes| && |net.stages| > 0
    && FeedOk(net, n) && CapOk(net, cap) && StagesOk(net) && PrintedOk(net)
  }

  // Exactly the stages past their printf have printed, in order, each its first number.
  ghost predicate PrintedOk(net: Net)
    requires |net.stages| == |net.pipes|
  {
    && |net.printed| <= |net.stages|
    && (forall k: nat :: k < |net.stages| ==> (PastPrint(net.stages[k]) <==> k < |net.printed|))
    && (forall k: nat :: k < |net.printed| ==> |net.pipes[k].sent| > 0 && net.printed[k] == net.pipes[k].sent[0])
  }

  lemma InitOk(n: int, cap: nat)
    ensures Inv(Init(), n, cap)
  {
  }

  // ---------------------------------------------------------------- one stage at a time

  lemma MoreInput(st: Stage, pipe: Pipe, next: Option<Pipe>, child: Option<Stage>, a: int)
    requires StageOk(st, pipe, next, child) && !pipe.closed && a > 0
    ensures StageOk(st, pipe.(sent := pipe.sent + [a]), next, child)
  {
    assert pipe.taken >= 1 ==> (pipe.sent + [a])[1..pipe.taken] == pipe.sent[1..pipe.taken];
  }

  lemma ParentKeeps(st: Stage, pipe: Pipe, next: Pipe, child: Stage, next1: Pipe, child1: Stage)
    requires StageOk(st, pipe, Some(next), Some(child)) && !Finished(child)
    requires next1.sent == next.sent && next1.closed == next.closed
    ensures StageOk(st, pipe, Some(next1), Some(child1))
  {
  }

  lemma Reads(st: Stage, pipe: Pipe, next: Option<Pipe>, child: Option<Stage>)
    requires StageOk(st, pipe, next, child) && (st.Start? || st.Read?) && (CanRead(pipe) || AtEnd(pipe))
    ensures StageOk(Advance(st, pipe), Take([pipe], 0)[0], next, child)
  {
    if st.Read? && CanRead(pipe) {
      var s, a := pipe.sent[1..pipe.taken], pipe.sent[pipe.taken];
      assert pipe.sent[1..pipe.taken + 1] == s + [a];
      FilterAppend(st.p, s, a);
    }
  }

  lemma Writes(st: Stage, pipe: Pipe, next: Pipe, child: Stage)
    requires StageOk(st, pipe, Some(next), Some(child)) && st.Write?
    ensures st.a > 0 && !next.closed
    ensures StageOk(Read(st.p), pipe, Some(next.(sent := next.sent + [st.a])), Some(child))
  {
    FilterPositive(st.p, pipe.sent[1..pipe.taken]);
    assert (next.sent + [st.a])[|next.sent|] == st.a;
  }

  // ---------------------------------------------------------------- the whole net

  lemma FeedKeeps(net: Net, n: int, cap: nat)
    requires Inv(net, n, cap) && Enabled(net, n, cap, Main) && net.gen == Feeding
    ensures Inv(Step(net, n, cap, Main), n, cap)
  {
    var net1 := Step(net, n, cap, Main);
    assert Sound(net, 0);
    if net.i < n {
      MoreInput(net.stages[0], net.pipes[0], At(net.pipes, 1), At(net.stages, 1), net.i);
    }
    forall k: nat | k < |net1.stages| ensures Sound(net1, k) {
      assert Sound(net, k);
    }
  }

  // A stage moves on and may take a number; its neighbours' conditions stay.
  lemma OthersKeep(net: Net, net1: Net, k: nat)
    requires |net.stages| == |net.pipes| == |net1.stages| == |net1.pipes| && k < |net.stages|
    requires !Finished(net.stages[k]) && StagesOk(net)
    requires net1.stages == net.stages[k := net1.stages[k]]
    requires net1.pipes == net.pipes[k := net.pipes[k].(taken := net1.pipes[k].taken)]
    requires StageOk(net1.stages[k], net1.pipes[k], At(net.pipes, k + 1), At(net.stages, k + 1))
    ensures StagesOk(net1)
  {
    forall j: nat | j < |net1.stages| ensures Sound(net1, j) {
      assert Sound(net, j);
      if j + 1 == k {
        ParentKeeps(net.stages[j], net.pipes[j], net.pipes[k], net.stages[k], net1.pipes[k], net1.stages[k]);
      }
    }
  }

  lemma ReadKeeps(net: Net, n: int, cap: nat, k: nat)
    requires Inv(net, n, cap) && Enabled(net, n, cap, Proc(k)) && (net.stages[k].Start? || net.stages[k].Read?)
    ensures Inv(Step(net, n, cap, Proc(k)), n, cap)
  {
    var net1 := Step(net, n, cap, Proc(k));
    assert Sound(net, k);
    Reads(net.stages[k], net.pipes[k], At(net.pipes, k + 1), At(net.stages, k + 1));
    OthersKeep(net, net1, k);
  }

  lemma ForkSound(net: Net, net1: Net, k: nat)
    requires |net.stages| == |net.pipes| && StagesOk(net) && k < |net.stages| && net.stages[k].Fork?
    requires net1.stages == net.stages[k := Print(net.stages[k].p)] + [Start]
    requires net1.pipes == net.pipes + [Pipe([], 0, false)]
    ensures k + 1 == |net.stages| && StagesOk(net1)
  {
    assert Sound(net, k);
    forall j: nat | j < |net1.stages| ensures Sound(net1, j) {
      if j < k {
        assert Sound(net, j);
      } else if j == k {
        assert net.pipes[k].sent[1..1] == [];
      }
    }
  }

  lemma ForkKeeps(net: Net, n: int, cap: nat, k: nat)
    requires Inv(net, n, cap) && Enabled(net, n, cap, Proc(k)) && net.stages[k].Fork?
    ensures Inv(Step(net, n, cap, Proc(k)), n, cap)
  {
    ForkSound(net, Step(net, n, cap, Proc(k)), k);
  }

  lemma PrintKeeps(net: Net, n: int, cap: nat, k: nat)
    requires Inv(net, n, cap) && Enabled(net, n, cap, Proc(k)) && net.stages[k].Print?
    ensures Inv(Step(net, n, cap, Proc(k)), n, cap)
  {
    assert Sound(net, k);
    OthersKeep(net, Step(net, n, cap, Proc(k)), k);
    PrintsInOrder(net, k);
  }

  // The stage that prints is the first that has not printed.
  lemma PrintsInOrder(net: Net, k: nat)
    requires |net.stages| == |net.pipes| && StagesOk(net) && PrintedOk(net)
    requires k < |net.stages| && net.stages[k].Print?
    ensures k == |net.printed|
  {
    assert Sound(net, k);
    if k > 0 {
      assert Sound(net, k - 1);
    }
  }

  lemma WaitKeeps(net: Net, n: int, cap: nat, k: nat)
    requires Inv(net, n, cap) && Enabled(net, n, cap, Proc(k)) && net.stages[k].Wait?
    ensures Inv(Step(net, n, cap, Proc(k)), n, cap)
  {
    assert Sound(net, k);
    OthersKeep(net, Step(net, n, cap, Proc(k)), k);
  }

  // A stage writes to the next pipe, or closes it.
  lemma WriteSound(net: Net, net1: Net, k: nat)
    requires |net.stages| == |net.pipes| && StagesOk(net) && k + 1 < |net.stages| == |net1.stages|
    requires net1.stages == net.stages[k := net1.stages[k]]
    requires if net.stages[k].Write?
             then net1.stages[k] == Read(net.stages[k].p) && net1.pipes == Send(net.pipes, k + 1, net.stages[k].a)
             else net.stages[k].Close? && net1.stages[k] == Wait(net.stages[k].p) && net1.pipes == CloseEnd(net.pipes, k + 1)
    ensures StagesOk(net1)
  {
    assert Sound(net, k) && Sound(net, k + 1);
    if net.stages[k].Write? {
      Writes(net.stages[k], net.pipes[k], net.pipes[k + 1], net.stages[k + 1]);
      MoreInput(net.stages[k + 1], net.pipes[k + 1], At(net.pipes, k + 2), At(net.stages, k + 2), net.stages[k].a);
    }
    forall j: nat | j < |net1.stages| ensures Sound(net1, j) {
      assert Sound(net, j);
      if j + 1 == k {
        ParentKeeps(net.stages[j], net.pipes[j], net.pipes[k], net.stages[k], net1.pipes[k], net1.stages[k]);
      }
    }
  }

  lemma WriteKeeps(net: Net, n: int, cap: nat, k: nat)
    requires Inv(net, n, cap) && Enabled(net, n, cap, Proc(k)) && (net.stages[k].Write? || net.stages[k].Close?)
    ensures Inv(Step(net, n, cap, Proc(k)), n, cap)
  {
    assert Sound(net, k);
    WriteSound(net, Step(net, n, cap, Proc(k)), k);
  }

  lemma StepKeeps(net: Net, n: int, cap: nat, who: Who)
    requires Inv(net, n, cap) && Enabled(net, n, cap, who)
    ensures Inv(Step(net, n, cap, who), n, cap)
  {
    match who
    case Main =>
      if net.gen == Feeding {
        FeedKeeps(net, n, cap);
      } else {
        var net1 := Step(net, n, cap, Main);
        assert forall k: nat :: k < |net.stages| && Sound(net, k) ==> Sound(net1, k);
      }
    case Proc(k) =>
      match net.stages[k]
      case Start => ReadKeeps(net, n, cap, k);
      case Read(_) => ReadKeeps(net, n, cap, k);
      case Fork(_) => ForkKeeps(net, n, cap, k);
      case Print(_) => PrintKeeps(net, n, cap, k);
      case Wait(_) => WaitKeeps(net, n, cap, k);
      case _ => WriteKeeps(net, n, cap, k);
  }

  // ---------------------------------------------------------------- what the stages get

  // The numbers that reach stage k.
  ghost function Full(n: int, k: nat): (s: seq<int>)
    ensures Positive(s)
  {
    RangePositive(2, n);
    Input(Range(2, n), k)
  }

  lemma {:induction false} RangePrefix(lo: int, i: int, n: int)
    requires i <= n || i <= lo
    ensures Range(lo, i) <= Range(lo, n)
    decreases n - i
  {
    if i < n && lo < n {
      RangePrefix(lo, i, n - 1);
    }
  }

  /** At every moment each pipe has carried a prefix of what its stage is to receive. */
  lemma {:induction false} SentPrefix(net: Net, n: int, cap: nat, k: nat)
    requires Inv(net, n, cap) && k < |net.pipes|
    ensures net.pipes[k].sent <= Full(n, k)
    decreases k
  {
    if k == 0 {
      RangePrefix(2, net.i, n);
    } else {
      SentPrefix(net, n, cap, k - 1);
      assert Sound(net, k - 1);
      var pipe, full := net.pipes[k - 1], Full(n, k - 1);
      assert pipe.sent[1..pipe.taken] <= full[1..];
      FilterPrefix(full[0], pipe.sent[1..pipe.taken], full[1..]);
    }
  }

  // The primes below n, which the stages take one by one.
  ghost function Found(n: int): (ps: seq<int>)
    ensures Positive(ps)
  {
    PrimesFrom(2, n)
  }

  /** Stage k receives, in strictly increasing order, only numbers below n that the first k
      primes do not divide; once everything has finished it has received all of them. */
  lemma SentMembers(net: Net, n: int, cap: nat, k: nat)
    requires Inv(net, n, cap) && k < |net.pipes|
    ensures Increasing(net.pipes[k].sent) && k <= |Found(n)|
    ensures forall x :: x in net.pipes[k].sent ==> 2 <= x < n && Undivided(x, Found(n), k)
    ensures net.gen == Over ==> forall x :: 2 <= x < n && Undivided(x, Found(n), k) ==> x in net.pipes[k].sent
  {
    SentPrefix(net, n, cap, k);
    StageFound(net, n, cap, k);
    FullMembers(n, k);
    PrefixOf(net.pipes[k].sent, Full(n, k));
    if net.gen == Over {
      SentAll(net, n, cap, k);
    }
  }

  lemma FullMembers(n: int, k: nat)
    requires k <= |Found(n)|
    ensures Increasing(Full(n, k))
    ensures forall x :: x in Full(n, k) <==> 2 <= x < n && Undivided(x, Found(n), k)
  {
    RangeIncreasing(2, n);
    ChainIsPrimes(n);
    InputIncreasing(Range(2, n), k);
    forall x ensures x in Full(n, k) <==> 2 <= x < n && Undivided(x, Found(n), k) {
      InputMembers(n, k, Found(n), x);
    }
  }

  lemma PrefixOf(a: seq<int>, b: seq<int>)
    requires a <= b && Increasing(b)
    ensures Increasing(a) && forall x :: x in a ==> x in b
  {
  }

  // A stage exists only if every stage before it has found a prime.
  lemma StageFound(net: Net, n: int, cap: nat, k: nat)
    requires Inv(net, n, cap) && k < |net.pipes|
    ensures k <= |Found(n)|
  {
    ChainIsPrimes(n);
    if k > 0 {
      SentPrefix(net, n, cap, k - 1);
      assert Sound(net, k - 1);
      InputChain(Range(2, n), k - 1);
    }
  }

  lemma {:induction false} SentAll(net: Net, n: int, cap: nat, k: nat)
    requires Inv(net, n, cap) && net.gen == Over && k < |net.stages|
    ensures Finished(net.stages[k]) && net.pipes[k].sent == Full(n, k)
    decreases k
  {
    if k == 0 {
      RangePositive(2, n);
      if n < 2 { assert Range(2, n) == Range(2, net.i); }
    } else {
      SentAll(net, n, cap, k - 1);
      assert Sound(net, k - 1);
      var pipe := net.pipes[k - 1];
      assert pipe.sent[1..pipe.taken] == pipe.sent[1..];
    }
  }

  // What has been printed at any moment is the beginning of the list of primes.
  lemma PrintsPrimes(net: Net, n: int, cap: nat)
    requires Inv(net, n, cap)
    ensures net.printed <= PrimesFrom(2, n)
  {
    ChainIsPrimes(n);
    var s := Range(2, n);
    forall k: nat | k < |net.printed| ensures k < |Chain(s)| && net.printed[k] == Chain(s)[k] {
      SentPrefix(net, n, cap, k);
      InputChain(s, k);
    }
    if net.printed != [] {
      SentPrefix(net, n, cap, |net.printed| - 1);
      InputChain(s, |net.printed| - 1);
    }
  }

  lemma EndPrintsAll(net: Net, n: int, cap: nat)
    requires Inv(net, n, cap) && net.gen == Over
    ensures net.printed == PrimesFrom(2, n) && forall k :: 0 <= k < |net.stages| ==> Finished(net.stages[k])
  {
    ChainIsPrimes(n);
    PrintsPrimes(net, n, cap);
    forall k: nat | k < |net.stages| ensures Finished(net.stages[k]) {
      SentAll(net, n, cap, k);
    }
    var last := |net.stages| - 1;
    SentAll(net, n, cap, last);
    assert Sound(net, last);
    assert net.stages[last].Leaf?;
    assert |net.printed| <= last;
    if last > 0 {
      SentAll(net, n, cap, last - 1);
      assert Sound(net, last - 1);
      assert PastPrint(net.stages[last - 1]);
    }
    InputChain(Range(2, n), last);
  }

  // ---------------------------------------------------------------- no deadlock

  ghost predicate SomeEnabled(net: Net, n: int, cap: nat) { exists who :: Enabled(net, n, cap, who) }

  // A stage that waits for room in its output, or for its child: somebody further on can move.
  lemma {:induction false} MoveRight(net: Net, n: int, cap: nat, k: nat)
    requires Inv(net, n, cap) && cap > 0 && k < |net.stages| && !Finished(net.stages[k])
    requires net.pipes[k].closed || CanRead(net.pipes[k]) || !(net.stages[k].Start? || net.stages[k].Read?)
    ensures SomeEnabled(net, n, cap)
    decreases |net.stages| - k
  {
    assert Sound(net, k);
    if !Enabled(net, n, cap, Proc(k)) {
      assert Sound(net, k + 1);
      MoveRight(net, n, cap, k + 1);
    }
  }

  /** No deadlock: until everything has finished, some process can move. */
  lemma NoDeadlock(net: Net, n: int, cap: nat)
    requires Inv(net, n, cap) && cap > 0
    ensures SomeEnabled(net, n, cap) <==> net.gen != Over
  {
    if net.gen == Over {
      EndPrintsAll(net, n, cap);
    } else if !Enabled(net, n, cap, Main) {
      assert Sound(net, 0);
      if !Finished(net.stages[0]) {
        MoveRight(net, n, cap, 0);
      }
    }
  }

  // ---------------------------------------------------------------- termination

  // The steps done so far.
  function Rank(st: Stage): nat {
    match st
    case Start => 0
    case Fork(_) => 0
    case Print(_) => 1
    case Leaf => 1
    case Read(_) => 2
    case Write(_, _) => 2
    case Close(_) => 3
    case Wait(_) => 4
    case Done(_) => 5
  }

  function WorkAt(st: Stage, pipe: Pipe): nat { |pipe.sent| + pipe.taken + Rank(st) }

  function Work(stages: seq<Stage>, pipes: seq<Pipe>): nat
    requires |stages| == |pipes|
    decreases |stages|
  {
    if stages == [] then 0
    else Work(stages[..|stages| - 1], pipes[..|pipes| - 1]) + WorkAt(stages[|stages| - 1], pipes[|pipes| - 1])
  }

  function Total(net: Net): nat
    requires |net.stages| == |net.pipes|
  {
    Work(net.stages, net.pipes) + match net.gen case Feeding => 0 case Awaiting => 1 case Over => 2
  }

  lemma {:induction false} WorkUpdate(stages: seq<Stage>, pipes: seq<Pipe>, k: nat, st: Stage, pipe: Pipe)
    requires |stages| == |pipes| && k < |stages|
    ensures Work(stages[k := st], pipes[k := pipe]) == Work(stages, pipes) - WorkAt(stages[k], pipes[k]) + WorkAt(st, pipe)
    decreases |stages|
  {
    var n := |stages| - 1;
    if k < n {
      WorkUpdate(stages[..n], pipes[..n], k, st, pipe);
      assert stages[k := st][..n] == stages[..n][k := st] && pipes[k := pipe][..n] == pipes[..n][k := pipe];
    } else {
      assert stages[k := st][..n] == stages[..n] && pipes[k := pipe][..n] == pipes[..n];
    }
  }

  lemma WorkAppend(stages: seq<Stage>, pipes: seq<Pipe>, st: Stage, pipe: Pipe)
    requires |stages| == |pipes|
    ensures Work(stages + [st], pipes + [pipe]) == Work(stages, pipes) + WorkAt(st, pipe)
  {
    assert (stages + [st])[..|stages|] == stages && (pipes + [pipe])[..|pipes|] == pipes;
  }

  // A step of stage k that reads, prints, waits or ends.
  lemma CountOne(net: Net, net1: Net, k: nat)
    requires |net.stages| == |net.pipes| && k < |net.stages| && |net1.stages| == |net.stages| && |net1.pipes| == |net.pipes|
    requires net1.stages == net.stages[k := net1.stages[k]] && net1.pipes == net.pipes[k := net1.pipes[k]]
    requires WorkAt(net1.stages[k], net1.pipes[k]) == WorkAt(net.stages[k], net.pipes[k]) + 1
    ensures Work(net1.stages, net1.pipes) == Work(net.stages, net.pipes) + 1
  {
    WorkUpdate(net.stages, net.pipes, k, net1.stages[k], net1.pipes[k]);
  }

  // A step of stage k that changes the next pipe.
  lemma CountNext(net: Net, net1: Net, k: nat)
    requires |net.stages| == |net.pipes| && k + 1 < |net.stages| && |net1.stages| == |net.stages| && |net1.pipes| == |net.pipes|
    requires net1.stages == net.stages[k := net1.stages[k]] && net1.pipes == net.pipes[k + 1 := net1.pipes[k + 1]]
    requires WorkAt(net1.stages[k], net.pipes[k]) + WorkAt(net.stages[k + 1], net1.pipes[k + 1])
             == WorkAt(net.stages[k], net.pipes[k]) + WorkAt(net.stages[k + 1], net.pipes[k + 1]) + 1
    ensures Work(net1.stages, net1.pipes) == Work(net.stages, net.pipes) + 1
  {
    var mid := net.(stages := net1.stages);
    WorkUpdate(net.stages, net.pipes, k, net1.stages[k], net.pipes[k]);
    WorkUpdate(mid.stages, net.pipes, k + 1, mid.stages[k + 1], net1.pipes[k + 1]);
    assert net.pipes[k := net.pipes[k]] == net.pipes && mid.stages[k + 1 := mid.stages[k + 1]] == mid.stages;
  }

  // Every step of a process counts one.
  lemma StepCounts(net: Net, n: int, cap: nat, who: Who)
    requires Inv(net, n, cap) && Enabled(net, n, cap, who)
    ensures |Step(net, n, cap, who).stages| == |Step(net, n, cap, who).pipes|
    ensures Total(Step(net, n, cap, who)) == Total(net) + 1
  {
    var net1 := Step(net, n, cap, who);
    match who
    case Main =>
      if net.gen == Feeding && net.i < n {
        CountOne(net, net1, 0);
      } else if net.gen == Feeding {
        WorkUpdate(net.stages, net.pipes, 0, net.stages[0], net1.pipes[0]);
        assert net.stages[0 := net.stages[0]] == net.stages;
      }
    case Proc(k) => ProcCounts(net, n, cap, k, net1);
  }

  lemma ForkCounts(net: Net, net1: Net, k: nat)
    requires |net.stages| == |net.pipes| && k < |net.stages| && net.stages[k].Fork?
    requires net1.stages == net.stages[k := Print(net.stages[k].p)] + [Start]
    requires net1.pipes == net.pipes + [Pipe([], 0, false)]
    ensures Work(net1.stages, net1.pipes) == Work(net.stages, net.pipes) + 1
  {
    var p := net.stages[k].p;
    WorkUpdate(net.stages, net.pipes, k, Print(p), net.pipes[k]);
    assert net.pipes[k := net.pipes[k]] == net.pipes;
    WorkAppend(net.stages[k := Print(p)], net.pipes, Start, Pipe([], 0, false));
  }

  lemma ProcCounts(net: Net, n: int, cap: nat, k: nat, net1: Net)
    requires Inv(net, n, cap) && Enabled(net, n, cap, Proc(k)) && net1 == Step(net, n, cap, Proc(k))
    ensures |net1.stages| == |net1.pipes| && Work(net1.stages, net1.pipes) == Work(net.stages, net.pipes) + 1
  {
    var st := net.stages[k];
    if st.Fork? {
      ForkCounts(net, net1, k);
    } else if st.Write? || st.Close? {
      CountNext(net, net1, k);
    } else {
      SelfCounts(net, n, cap, k, net1);
    }
  }

  lemma SelfCounts(net: Net, n: int, cap: nat, k: nat, net1: Net)
    requires |net.stages| == |net.pipes| && Enabled(net, n, cap, Proc(k)) && net1 == Step(net, n, cap, Proc(k))
    requires !net.stages[k].Fork? && !net.stages[k].Write? && !net.stages[k].Close?
    ensures |net1.stages| == |net1.pipes| && Work(net1.stages, net1.pipes) == Work(net.stages, net.pipes) + 1
  {
    AdvanceCounts(net.stages[k], net.pipes[k]);
    assert net1.pipes == net.pipes[k := net1.pipes[k]];
    CountOne(net, net1, k);
  }

  lemma AdvanceCounts(st: Stage, pipe: Pipe)
    requires st.Start? || st.Read? ==> CanRead(pipe) || AtEnd(pipe)
    ensures st.Start? || st.Read? ==> WorkAt(Advance(st, pipe), Take([pipe], 0)[0]) == WorkAt(st, pipe) + 1
    ensures st.Print? || st.Wait? ==> WorkAt(Advance(st, pipe), pipe) == WorkAt(st, pipe) + 1
  {
  }

  function Numbers(n: int): nat { if n < 2 then 0 else n - 2 }

  lemma {:induction false} WorkBound(net: Net, n: int, cap: nat, k: nat)
    requires Inv(net, n, cap) && k <= |net.stages|
    ensures Work(net.stages[..k], net.pipes[..k]) <= k * (2 * Numbers(n) + 5)
    decreases k
  {
    if k > 0 {
      WorkBound(net, n, cap, k - 1);
      SentPrefix(net, n, cap, k - 1);
      assert Sound(net, k - 1);
      assert net.stages[..k][..k - 1] == net.stages[..k - 1] && net.pipes[..k][..k - 1] == net.pipes[..k - 1];
      Times(k, 2 * Numbers(n) + 5);
    }
  }

  lemma StagesBound(net: Net, n: int, cap: nat)
    requires Inv(net, n, cap)
    ensures |net.stages| <= Numbers(n) + 1
  {
    var k := |net.stages| - 1;
    if k > 0 {
      SentPrefix(net, n, cap, k - 1);
      assert Sound(net, k - 1);
    }
  }

  // ---------------------------------------------------------------- runs

  ghost predicate Runs(net: Net, n: int, cap: nat, whos: seq<Who>, net1: Net)
    decreases |whos|
  {
    if whos == [] then net1 == net
    else Enabled(net, n, cap, whos[0]) && Runs(Step(net, n, cap, whos[0]), n, cap, whos[1..], net1)
  }

  lemma {:induction false} RunKeeps(net: Net, n: int, cap: nat, whos: seq<Who>, net1: Net)
    requires Inv(net, n, cap) && Runs(net, n, cap, whos, net1)
    ensures Inv(net1, n, cap) && Total(net1) == Total(net) + |whos|
    decreases |whos|
  {
    if whos != [] {
      StepKeeps(net, n, cap, whos[0]);
      StepCounts(net, n, cap, whos[0]);
      RunKeeps(Step(net, n, cap, whos[0]), n, cap, whos[1..], net1);
    }
  }

  /** Every interleaving prints primes below n only, in increasing order; it cannot run for more
      than a fixed number of steps; and when no process can move, every process has finished and
      each prime below n has been printed exactly once. */
  lemma EveryInterleaving(n: int, cap: nat, whos: seq<Who>, net: Net)
    requires cap > 0 && Runs(Init(), n, cap, whos, net)
    ensures net.printed <= PrimesFrom(2, n) && Increasing(net.printed)
    ensures forall x :: x in net.printed ==> 2 <= x < n && Prime(x)
    ensures |whos| <= (Numbers(n) + 1) * (2 * Numbers(n) + 5) + 2
    ensures SomeEnabled(net, n, cap) <==> net.gen != Over
    ensures net.gen == Over ==> net.printed == PrimesFrom(2, n) && forall k :: 0 <= k < |net.stages| ==> Finished(net.stages[k])
    ensures net.gen == Over ==> forall x :: 2 <= x < n && Prime(x) ==> x in net.printed
  {
    InitOk(n, cap);
    RunKeeps(Init(), n, cap, whos, net);
    PrintsPrimes(net, n, cap);
    NoDeadlock(net, n, cap);
    if net.gen == Over {
      EndPrintsAll(net, n, cap);
    }
    PrimesIncreasing(2, n);
    forall x ensures x in PrimesFrom(2, n) <==> 2 <= x < n && Prime(x) {
      PrimesExact(2, n, x);
    }
    assert net.stages[..|net.stages|] == net.stages && net.pipes[..|net.pipes|] == net.pipes;
    WorkBound(net, n, cap, |net.stages|);
    StagesBound(net, n, cap);
    Grows(|net.stages|, Numbers(n) + 1, 2 * Numbers(n) + 5);
  }

  lemma Times(k: int, c: nat)
    ensures k * c == (k - 1) * c + c
  {
  }

  lemma Grows(a: nat, b: nat, c: nat)
    requires a <= b
    ensures a * c <= b * c
  {
  }

  // ---------------------------------------------------------------- the code

  class Fifo {
    var data: seq<int>

    constructor ()
      ensures data == []
    {
      data := [];
    }

    method Put(a: int)
      modifies this
      ensures data == old(data) + [a]
    {
      data := data + [a];
    }

    method Get() returns (a: Option<int>)
      modifies this
      ensures old(data) == [] ==> a == None && data == []
      ensures old(data) != [] ==> a == Some(old(data)[0]) && data == old(data)[1..]
    {
      if data == [] {
        return None;
      }
      a := Some(data[0]);
      data := data[1..];
    }
  }

  class Output {
    var printed: seq<int>

    constructor ()
      ensures printed == []
    {
      printed := [];
    }
  }

  /** imprimir_numeros_primos_con_procesos, in the schedule that runs each child after its
      parent's loop. */
  method RunStage(input: Fifo, out: Output)
    requires Positive(input.data)
    modifies input, out
    ensures out.printed == old(out.printed) + Chain(old(input.data))
    decreases |input.data|
  {
    ghost var all := input.data;
    var first := input.Get();
    if first.None? {
      return;
    }
    var p := first.value;
    var next := new Fifo();
    out.printed := out.printed + [p];
    var a := input.Get();
    ghost var read := 1;
    while a.Some?
      invariant out.printed == old(out.printed) + [p]
      invariant 1 <= read <= |all| && (a.Some? <==> read < |all|)
      invariant a.Some? ==> a.value == all[read] && input.data == all[read + 1..]
      invariant next.data == Filter(p, all[1..read]) && fresh(next)
      decreases |all| - read
    {
      assert all[1..read + 1] == all[1..read] + [a.value];
      FilterAppend(p, all[1..read], a.value);
      if a.value % p != 0 {
        next.Put(a.value);
      }
      assert read + 1 < |all| ==> all[read + 1..][1..] == all[read + 2..];
      a := input.Get();
      read := read + 1;
    }
    assert all[1..read] == all[1..];
    FilterPositive(p, all[1..]);
    RunStage(next, out);
  }

  /** main: prints exactly the primes below n, in increasing order. */
  method RunMain(n: int) returns (printed: seq<int>)
    ensures printed == PrimesFrom(2, n) && Increasing(printed)
    ensures forall x :: x in printed <==> 2 <= x < n && Prime(x)
  {
    var pipe := new Fifo();
    var i := 2;
    while i < n
      invariant 2 <= i && (i <= n || i == 2) && pipe.data == Range(2, i)
    {
      pipe.Put(i);
      i := i + 1;
    }
    assert Range(2, i) == Range(2, n);
    ChainIsPrimes(n);
    var out := new Output();
    RunStage(pipe, out);
    printed := out.printed;
    PrimesIncreasing(2, n);
    forall x ensures x in printed <==> 2 <= x < n && Prime(x) {
      PrimesExact(2, n, x);
    }
  }
}
