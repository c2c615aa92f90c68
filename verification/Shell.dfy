/** Pipes of the shell: parse_line of shell/parsing.c builds the command tree, and exec_cmd of
    shell/exec.c wires the file descriptors of its processes. */
module Shell {
  import opened Base

  const END := '\0'
  const STDIN := 0
  const STDOUT := 1

  // A command tree; Null is the null pointer that parse_cmd returns for an empty string.
  datatype Cmd = Null | Leaf(text: string) | Pipe(left: Cmd, right: Cmd)

  // ---------------------------------------------------------------- parse_line

  // strchr(s, '|'), or the length of s.
  function FirstBar(s: string): (i: nat)
    ensures i <= |s| && (i < |s| ==> s[i] == '|') && '|' !in s[..i]
  {
    if s == "" || s[0] == '|' then 0 else
    var i := 1 + FirstBar(s[1..]);
    assert s[..i] == [s[0]] + s[1..][..i - 1];
    i
  }

  function ParseCmd(s: string): Cmd { if s == "" then Null else Leaf(s) }

  function PipeCreate(left: Cmd, right: Cmd): Cmd { if right.Null? then left else Pipe(left, right) }

  function ParseLine(s: string): Cmd
    decreases |s|
  {
    var i := FirstBar(s);
    if i == |s| then ParseCmd(s) else PipeCreate(ParseCmd(s[..i]), ParseLine(s[i + 1..]))
  }

  // The text between the bars.
  function Segments(s: string): (r: seq<string>)
    ensures |r| > 0 && forall i :: 0 <= i < |r| ==> '|' !in r[i]
    decreases |s|
  {
    var i := FirstBar(s);
    if i == |s| then assert s[..i] == s; [s] else [s[..i]] + Segments(s[i + 1..])
  }

  function Join(r: seq<string>): string
    requires |r| > 0
    decreases |r|
  {
    if |r| == 1 then r[0] else r[0] + "|" + Join(r[1..])
  }

  function DropEmptyEnd(r: seq<string>): seq<string>
    decreases |r|
  {
    if r == [] || r[|r| - 1] != "" then r else DropEmptyEnd(r[..|r| - 1])
  }

  function Text(c: Cmd): string { if c.Leaf? then c.text else "" }

  // The leaves of a right-nested tree; a null left command counts as an empty one.
  function Leaves(c: Cmd): seq<string> {
    match c
    case Null => []
    case Leaf(s) => [s]
    case Pipe(l, r) => [Text(l)] + Leaves(r)
  }

  predicate RightNested(c: Cmd) { c.Pipe? ==> !c.left.Pipe? && !c.right.Null? && RightNested(c.right) }

  lemma {:induction false} JoinCons(x: string, r: seq<string>)
    requires |r| > 0
    ensures Join([x] + r) == x + "|" + Join(r)
  {
    assert ([x] + r)[1..] == r;
  }

  lemma {:induction false} SplitAt(s: string, i: nat)
    requires i < |s| && s[i] == '|'
    ensures s == s[..i] + "|" + s[i + 1..]
  {
  }

  /** Nothing is lost: the segments joined by bars are the line. */
  lemma {:induction false} SegmentsJoin(s: string)
    ensures Join(Segments(s)) == s
    decreases |s|
  {
    var i := FirstBar(s);
    if i < |s| {
      SegmentsJoin(s[i + 1..]);
      JoinCons(s[..i], Segments(s[i + 1..]));
      SplitAt(s, i);
    }
  }

  lemma {:induction false} DropFront(a: string, r: seq<string>)
    ensures DropEmptyEnd([a] + r) ==
              if DropEmptyEnd(r) == [] then (if a == "" then [] else [a]) else [a] + DropEmptyEnd(r)
    decreases |r|
  {
    if r == [] {
      assert ([a] + r)[..0] == [] && [a] + r == [a];
    } else if r[|r| - 1] == "" {
      DropFront(a, r[..|r| - 1]);
      assert ([a] + r)[..|r|] == [a] + r[..|r| - 1];
    }
  }

  /** The tree is right-nested and its leaves are the segments of the line in order, without the
      empty ones at the end; so all of them when none is empty. */
  lemma {:induction false} ParseLeaves(s: string)
    ensures RightNested(ParseLine(s)) && Leaves(ParseLine(s)) == DropEmptyEnd(Segments(s))
    decreases |s|
  {
    var i := FirstBar(s);
    if i < |s| {
      ParseLeaves(s[i + 1..]);
      DropFront(s[..i], Segments(s[i + 1..]));
    } else if s == "" {
      assert Segments(s)[..0] == [];
    }
  }

  lemma {:induction false} NoneEmpty(s: string)
    requires forall i :: 0 <= i < |Segments(s)| ==> Segments(s)[i] != ""
    ensures Leaves(ParseLine(s)) == Segments(s) && NoNull(ParseLine(s))
  {
    ParseLeaves(s);
    LeavesNoNull(ParseLine(s));
  }

  lemma {:induction false} LeavesNoNull(c: Cmd)
    requires RightNested(c) && !c.Null? && forall i :: 0 <= i < |Leaves(c)| ==> Leaves(c)[i] != ""
    ensures NoNull(c)
    decreases c
  {
    if c.Pipe? {
      assert Leaves(c)[0] == Text(c.left);
      forall i | 0 <= i < |Leaves(c.right)| ensures Leaves(c.right)[i] != "" {
        assert Leaves(c)[i + 1] == Leaves(c.right)[i];
      }
      LeavesNoNull(c.right);
    }
  }

  predicate NoNull(c: Cmd) { !c.Null? && (c.Pipe? ==> NoNull(c.left) && NoNull(c.right)) }

  // The string that starts at i in a buffer.
  function CString(buf: seq<char>, i: nat): (s: string)
    requires i <= |buf|
    ensures i + |s| <= |buf|
    decreases |buf| - i
  {
    if i == |buf| || buf[i] == END then "" else [buf[i]] + CString(buf, i + 1)
  }

  lemma {:induction false} CStringIs(buf: seq<char>, i: nat)
    requires i <= |buf|
    ensures var s := CString(buf, i); s == buf[i..i + |s|] && END !in s
    decreases |buf| - i
  {
    if i < |buf| && buf[i] != END {
      CStringIs(buf, i + 1);
      var rest := CString(buf, i + 1);
      assert buf[i..i + 1 + |rest|] == [buf[i]] + buf[i + 1..i + 1 + |rest|];
    }
  }

  // ---------------------------------------------------------------- exec_cmd

  datatype End = Outer(n: nat) | ReadEnd(pipe: nat) | WriteEnd(pipe: nat)

  // The file descriptors of a process.
  type Table = seq<Option<End>>

  datatype Run = Run(text: string, fds: Table)

  // The commands run, in tree order; the processes that wait; and the next pipe.
  datatype Trace = Trace(runs: seq<Run>, waits: seq<Table>, next: nat)

  function Lowest(t: Table, i: nat): (k: nat)
    requires i <= |t|
    ensures i <= k <= |t| && (k < |t| ==> t[k].None?) && forall j :: i <= j < k ==> t[j].Some?
    decreases |t| - i
  {
    if i == |t| || t[i].None? then i else Lowest(t, i + 1)
  }

  function Close(t: Table, fd: nat): Table
    requires fd < |t|
  {
    t[fd := None]
  }

  function Dup2(t: Table, from: nat, to: nat): Table
    requires from < |t| && to < |t|
  {
    t[to := t[from]]
  }

  // The descriptors a pipe() call takes, if there are two.
  function PipeFds(t: Table): (r: Option<(nat, nat)>)
    ensures r.Some? ==> r.value.0 < |t| && r.value.1 < |t| && r.value.0 < r.value.1
  {
    var a := Lowest(t, 0);
    if a == |t| then None
    else var b := Lowest(t, a + 1); if b == |t| then None else Some((a, b))
  }

  // The table after pipe(), in the first child, in the second, and in the parent.
  function WithPipe(t: Table, n: nat, a: nat, b: nat): Table
    requires a < |t| && b < |t|
  {
    t[a := Some(ReadEnd(n))][b := Some(WriteEnd(n))]
  }

  function LeftTable(t: Table, n: nat, a: nat, b: nat): (r: Table)
    requires a < |t| && b < |t| && |t| > 2
    ensures |r| == |t|
  {
    Close(Dup2(Close(WithPipe(t, n, a, b), a), b, STDOUT), b)
  }

  function RightTable(t: Table, n: nat, a: nat, b: nat): (r: Table)
    requires a < |t| && b < |t| && |t| > 2
    ensures |r| == |t|
  {
    Close(Dup2(Close(WithPipe(t, n, a, b), b), a, STDIN), a)
  }

  function ParentTable(t: Table, n: nat, a: nat, b: nat): (r: Table)
    requires a < |t| && b < |t|
    ensures |r| == |t|
  {
    Close(Close(WithPipe(t, n, a, b), a), b)
  }

  // exec_cmd, for the PIPE and EXEC cases. A pipe() that fails ends the process.
  function Exec(c: Cmd, t: Table, n: nat): Trace
    requires NoNull(c) && |t| > 2
    decreases c
  {
    match c
    case Leaf(s) => Trace([Run(s, t)], [], n)
    case Pipe(l, r) =>
      match PipeFds(t)
      case None => Trace([], [], n)
      case Some((a, b)) =>
        var left := Exec(l, LeftTable(t, n, a, b), n + 1);
        var right := Exec(r, RightTable(t, n, a, b), left.next);
        Trace(left.runs + right.runs, [ParentTable(t, n, a, b)] + left.waits + right.waits, right.next)
  }

  // Exactly descriptors 0, 1 and 2, as given.
  ghost predicate Standard(t: Table, size: nat, stdin: End, stdout: End, stderr: End) {
    && |t| == size > 4 && t[0] == Some(stdin) && t[1] == Some(stdout) && t[2] == Some(stderr)
    && forall i :: 3 <= i < size ==> t[i].None?
  }

  // A command with its standard input and output.
  datatype Place = Place(text: string, stdin: End, stdout: End)

  function InOrder(c: Cmd): (s: seq<string>)
    requires NoNull(c)
    ensures |s| > 0
  {
    if c.Leaf? then [c.text] else InOrder(c.left) + InOrder(c.right)
  }

  // The pipe that comes after those of c, if n is the first.
  function After(c: Cmd, n: nat): (m: nat)
    requires NoNull(c)
    ensures m >= n
  {
    if c.Leaf? then n else After(c.right, After(c.left, n + 1))
  }

  // Where the commands of c should stand.
  function Places(c: Cmd, n: nat, stdin: End, stdout: End): (s: seq<Place>)
    requires NoNull(c)
    ensures |s| > 0
  {
    if c.Leaf? then [Place(c.text, stdin, stdout)]
    else Places(c.left, n + 1, stdin, WriteEnd(n)) + Places(c.right, After(c.left, n + 1), ReadEnd(n), stdout)
  }

  // The first pipe of a standard process takes 3 and 4.
  lemma {:induction false} FirstFds(t: Table, size: nat, stdin: End, stdout: End, stderr: End)
    requires Standard(t, size, stdin, stdout, stderr)
    ensures PipeFds(t) == Some((3, 4))
  {
    assert t[3].None? && t[4].None?;
  }

  // The three processes around a pipe are standard ones.
  lemma {:induction false} PipeTables(t: Table, size: nat, stdin: End, stdout: End, stderr: End, n: nat)
    requires Standard(t, size, stdin, stdout, stderr)
    ensures Standard(LeftTable(t, n, 3, 4), size, stdin, WriteEnd(n), stderr)
    ensures Standard(RightTable(t, n, 3, 4), size, ReadEnd(n), stdout, stderr)
    ensures Standard(ParentTable(t, n, 3, 4), size, stdin, stdout, stderr)
  {
  }

  // The commands run at these places, each with its own three descriptors only.
  ghost predicate RunAt(run: Run, size: nat, p: Place, stderr: End) {
    run.text == p.text && Standard(run.fds, size, p.stdin, p.stdout, stderr)
  }

  ghost predicate Wired(runs: seq<Run>, size: nat, places: seq<Place>, stderr: End) {
    |runs| == |places| && forall i :: 0 <= i < |runs| ==> RunAt(runs[i], size, places[i], stderr)
  }

  // The PIPE case, for the tables of its children.
  lemma {:induction false} ExecPipe(c: Cmd, t: Table, n: nat, a: nat, b: nat, tl: Table, tr: Table, xl: Trace, xr: Trace)
    requires NoNull(c) && c.Pipe? && |t| > 2 && PipeFds(t) == Some((a, b))
    requires tl == LeftTable(t, n, a, b) && tr == RightTable(t, n, a, b)
    requires xl == Exec(c.left, tl, n + 1) && xr == Exec(c.right, tr, xl.next)
    ensures Exec(c, t, n) == Trace(xl.runs + xr.runs, [ParentTable(t, n, a, b)] + xl.waits + xr.waits, xr.next)
  {
  }

  /** Every command of every pipe tree runs in its place with exactly descriptors 0, 1 and 2. */
  lemma {:induction false} ExecWires(c: Cmd, t: Table, n: nat, size: nat, stdin: End, stdout: End, stderr: End, x: Trace)
    requires NoNull(c) && Standard(t, size, stdin, stdout, stderr) && x == Exec(c, t, n)
    ensures Wired(x.runs, size, Places(c, n, stdin, stdout), stderr) && x.next == After(c, n)
    decreases c
  {
    if c.Pipe? {
      var tl, tr := LeftTable(t, n, 3, 4), RightTable(t, n, 3, 4);
      FirstFds(t, size, stdin, stdout, stderr);
      PipeTables(t, size, stdin, stdout, stderr, n);
      var xl := Exec(c.left, tl, n + 1);
      ExecWires(c.left, tl, n + 1, size, stdin, WriteEnd(n), stderr, xl);
      var xr := Exec(c.right, tr, xl.next);
      ExecWires(c.right, tr, xl.next, size, ReadEnd(n), stdout, stderr, xr);
      WiresPipe(c, t, n, size, stdin, stdout, stderr, x, xl, xr);
    }
  }

  lemma {:induction false} WiresPipe(c: Cmd, t: Table, n: nat, size: nat, stdin: End, stdout: End, stderr: End,
                                     x: Trace, xl: Trace, xr: Trace)
    requires NoNull(c) && c.Pipe? && |t| > 4 && PipeFds(t) == Some((3, 4)) && x == Exec(c, t, n)
    requires xl == Exec(c.left, LeftTable(t, n, 3, 4), n + 1) && xr == Exec(c.right, RightTable(t, n, 3, 4), xl.next)
    requires xl.next == After(c.left, n + 1) && xr.next == After(c.right, xl.next)
    requires Wired(xl.runs, size, Places(c.left, n + 1, stdin, WriteEnd(n)), stderr)
    requires Wired(xr.runs, size, Places(c.right, xl.next, ReadEnd(n), stdout), stderr)
    ensures Wired(x.runs, size, Places(c, n, stdin, stdout), stderr) && x.next == After(c, n)
  {
    ExecPipe(c, t, n, 3, 4, LeftTable(t, n, 3, 4), RightTable(t, n, 3, 4), xl, xr);
    WiredBoth(xl.runs, xr.runs, size, Places(c.left, n + 1, stdin, WriteEnd(n)), Places(c.right, xl.next, ReadEnd(n), stdout), stderr);
  }

  lemma {:induction false} WiredBoth(a: seq<Run>, b: seq<Run>, size: nat, p: seq<Place>, q: seq<Place>, stderr: End)
    requires Wired(a, size, p, stderr) && Wired(b, size, q, stderr)
    ensures Wired(a + b, size, p + q, stderr)
  {
  }

  // From stdin to stdout, each place joined to the next by a pipe.
  ghost predicate Chained(s: seq<Place>, stdin: End, stdout: End) {
    && |s| > 0 && s[0].stdin == stdin && s[|s| - 1].stdout == stdout
    && forall i :: 0 <= i < |s| - 1 ==> Joined(s[i], s[i + 1])
  }

  predicate Joined(p: Place, q: Place) { p.stdout.WriteEnd? && q.stdin == ReadEnd(p.stdout.pipe) }

  // The pipes after the places but the last lie in this range and are all different.
  ghost predicate OwnPipes(s: seq<Place>, lo: nat, hi: nat) {
    && (forall i :: 0 <= i < |s| - 1 ==> s[i].stdout.WriteEnd? && lo <= s[i].stdout.pipe < hi)
    && (forall i, j :: 0 <= i < j < |s| - 1 ==> s[i].stdout != s[j].stdout)
  }

  ghost predicate TextsOf(s: seq<Place>, texts: seq<string>) {
    |s| == |texts| && forall i :: 0 <= i < |s| ==> s[i].text == texts[i]
  }

  /** The places form a chain from the outer input to the outer output, in the order of the
      commands, and every pipe of the chain is used once. */
  lemma {:induction false} PlacesChain(c: Cmd, n: nat, stdin: End, stdout: End)
    requires NoNull(c)
    ensures Chained(Places(c, n, stdin, stdout), stdin, stdout)
    ensures OwnPipes(Places(c, n, stdin, stdout), n, After(c, n))
    ensures TextsOf(Places(c, n, stdin, stdout), InOrder(c))
    decreases c
  {
    if c.Pipe? {
      var m := After(c.left, n + 1);
      PlacesChain(c.left, n + 1, stdin, WriteEnd(n));
      PlacesChain(c.right, m, ReadEnd(n), stdout);
      var a, b := Places(c.left, n + 1, stdin, WriteEnd(n)), Places(c.right, m, ReadEnd(n), stdout);
      JoinChains(a, b, n, m, After(c, n), stdin, stdout);
      JoinTexts(a, b, InOrder(c.left), InOrder(c.right));
      PlacesPipe(c, n, m, stdin, stdout);
    }
  }

  lemma {:induction false} PlacesPipe(c: Cmd, n: nat, m: nat, stdin: End, stdout: End)
    requires NoNull(c) && c.Pipe? && m == After(c.left, n + 1)
    ensures Places(c, n, stdin, stdout) == Places(c.left, n + 1, stdin, WriteEnd(n)) + Places(c.right, m, ReadEnd(n), stdout)
    ensures InOrder(c) == InOrder(c.left) + InOrder(c.right) && After(c, n) == After(c.right, m)
  {
  }

  lemma {:induction false} JoinTexts(a: seq<Place>, b: seq<Place>, x: seq<string>, y: seq<string>)
    requires TextsOf(a, x) && TextsOf(b, y)
    ensures TextsOf(a + b, x + y)
  {
  }

  lemma {:induction false} JoinChains(a: seq<Place>, b: seq<Place>, n: nat, m: nat, hi: nat, stdin: End, stdout: End)
    requires Chained(a, stdin, WriteEnd(n)) && Chained(b, ReadEnd(n), stdout) && n < m <= hi
    requires OwnPipes(a, n + 1, m) && OwnPipes(b, m, hi)
    ensures Chained(a + b, stdin, stdout) && OwnPipes(a + b, n, hi)
  {
    var s := a + b;
    forall i | 0 <= i < |s| - 1 ensures Joined(s[i], s[i + 1]) {
      if i >= |a| {
        assert s[i] == b[i - |a|] && s[i + 1] == b[i - |a| + 1];
      }
    }
  }

  predicate HoldsPipe(t: Table) { exists fd :: 0 <= fd < |t| && IsPipeEnd(t[fd]) }

  predicate IsPipeEnd(e: Option<End>) { e.Some? && !e.value.Outer? }

  /** A process that waits for its children still holds a pipe end exactly when there are two
      pipes or more: the inner ones keep the end that the outer pipe gave them as stdin or stdout. */
  lemma {:induction false} WaitersHoldPipes(c: Cmd, t: Table, n: nat, size: nat, a: nat, b: nat, e: nat)
    requires NoNull(c) && Standard(t, size, Outer(a), Outer(b), Outer(e))
    ensures (exists i :: 0 <= i < |Exec(c, t, n).waits| && HoldsPipe(Exec(c, t, n).waits[i]))
            <==> c.Pipe? && (c.left.Pipe? || c.right.Pipe?)
    ensures c.Pipe? && (c.left.Pipe? || c.right.Pipe?) <==> |InOrder(c)| >= 3
  {
    if c.Pipe? {
      FirstFds(t, size, Outer(a), Outer(b), Outer(e));
      PipeTables(t, size, Outer(a), Outer(b), Outer(e), n);
      var tl, tr := LeftTable(t, n, 3, 4), RightTable(t, n, 3, 4);
      var left := Exec(c.left, tl, n + 1);
      var right := Exec(c.right, tr, left.next);
      ExecPipe(c, t, n, 3, 4, tl, tr, left, right);
      if c.left.Pipe? {
        WaiterKeeps(c.left, tl, n + 1, size, Outer(a), WriteEnd(n), Outer(e));
      }
      if c.right.Pipe? {
        WaiterKeeps(c.right, tr, left.next, size, ReadEnd(n), Outer(b), Outer(e));
      }
      SomeHolds(ParentTable(t, n, 3, 4), left.waits, right.waits, size, a, b, e);
    }
  }

  // The outer waiter holds none; the first inner one on a side holds its end of the outer pipe.
  lemma {:induction false} SomeHolds(w: Table, lefts: seq<Table>, rights: seq<Table>, size: nat, a: nat, b: nat, e: nat)
    requires Standard(w, size, Outer(a), Outer(b), Outer(e))
    requires lefts != [] ==> |lefts[0]| > 1 && IsPipeEnd(lefts[0][1])
    requires rights != [] ==> |rights[0]| > 0 && IsPipeEnd(rights[0][0])
    ensures (exists i :: 0 <= i < |[w] + lefts + rights| && HoldsPipe(([w] + lefts + rights)[i])) <==> lefts != [] || rights != []
  {
    var waits := [w] + lefts + rights;
    assert waits[0] == w && !HoldsPipe(w);
    if lefts != [] {
      assert waits[1] == lefts[0] && HoldsPipe(waits[1]);
    } else if rights != [] {
      assert waits[1] == rights[0] && HoldsPipe(waits[1]);
    }
  }

  lemma {:induction false} InOrderLeaves(c: Cmd)
    requires NoNull(c) && RightNested(c)
    ensures InOrder(c) == Leaves(c)
    decreases c
  {
    if c.Pipe? {
      InOrderLeaves(c.right);
    }
  }

  // The i-th command of the line stands between these two ends of its neighbours' pipes.
  ghost predicate LineWired(runs: seq<Run>, texts: seq<string>, places: seq<Place>, size: nat, a: nat, b: nat, e: nat) {
    && |runs| == |texts| == |places| && Chained(places, Outer(a), Outer(b))
    && (forall i, j :: 0 <= i < j < |places| - 1 ==> places[i].stdout != places[j].stdout)
    && forall i :: 0 <= i < |runs| ==>
         runs[i].text == texts[i] && Standard(runs[i].fds, size, places[i].stdin, places[i].stdout, Outer(e))
  }

  // What parse_line keeps of a line: the text between the bars, but for what is empty at the end.
  function Commands(s: string): seq<string> { DropEmptyEnd(Segments(s)) }

  /** From the line to the processes: the commands between the bars run in the order of the
      line, each with descriptors 0, 1 and 2 only, joined one to the next by pipes of their
      own, the outer ends inherited. A process that waits holds a pipe end if and only if
      there are three commands or more. */
  lemma {:induction false} LineWires(s: string, t: Table, n: nat, size: nat, a: nat, b: nat, e: nat, x: Trace)
    requires Commands(s) != [] && forall i :: 0 <= i < |Commands(s)| ==> Commands(s)[i] != ""
    requires Standard(t, size, Outer(a), Outer(b), Outer(e))
    ensures NoNull(ParseLine(s))
    ensures x == Exec(ParseLine(s), t, n) ==>
              && LineWired(x.runs, Commands(s), Places(ParseLine(s), n, Outer(a), Outer(b)), size, a, b, e)
              && ((exists i :: 0 <= i < |x.waits| && HoldsPipe(x.waits[i])) <==> |Commands(s)| >= 3)
  {
    var c := ParseLine(s);
    ParseLeaves(s);
    LeavesNoNull(c);
    InOrderLeaves(c);
    if x == Exec(c, t, n) {
      ExecWires(c, t, n, size, Outer(a), Outer(b), Outer(e), x);
      PlacesChain(c, n, Outer(a), Outer(b));
      WaitersHoldPipes(c, t, n, size, a, b, e);
      WiredLine(x.runs, Commands(s), Places(c, n, Outer(a), Outer(b)), n, After(c, n), size, a, b, e);
    }
  }

  lemma {:induction false} WiredLine(runs: seq<Run>, texts: seq<string>, places: seq<Place>, lo: nat, hi: nat,
                                     size: nat, a: nat, b: nat, e: nat)
    requires Wired(runs, size, places, Outer(e)) && TextsOf(places, texts)
    requires Chained(places, Outer(a), Outer(b)) && OwnPipes(places, lo, hi)
    ensures LineWired(runs, texts, places, size, a, b, e)
  {
    forall i | 0 <= i < |runs|
      ensures runs[i].text == texts[i] && Standard(runs[i].fds, size, places[i].stdin, places[i].stdout, Outer(e))
    {
      assert RunAt(runs[i], size, places[i], Outer(e));
    }
  }

  lemma {:induction false} WaiterKeeps(c: Cmd, t: Table, n: nat, size: nat, stdin: End, stdout: End, stderr: End)
    requires NoNull(c) && c.Pipe? && Standard(t, size, stdin, stdout, stderr)
    ensures |Exec(c, t, n).waits| > 0 && Standard(Exec(c, t, n).waits[0], size, stdin, stdout, stderr)
  {
    FirstFds(t, size, stdin, stdout, stderr);
    PipeTables(t, size, stdin, stdout, stderr, n);
  }

  // ---------------------------------------------------------------- the code

  // The '|' of each cut becomes the end of a string.
  function Cut(buf: seq<char>, lo: nat, hi: nat): (r: seq<char>)
    requires lo <= hi <= |buf|
    ensures |r| == |buf|
  {
    seq(|buf|, k requires 0 <= k < |buf| => if lo <= k < hi && buf[k] == '|' then END else buf[k])
  }

  // strchr(buf + i, '|')
  method FindBar(buf: array<char>, i: nat) returns (p: nat)
    requires i <= buf.Length
    ensures i <= p <= i + |CString(buf[..], i)| && p - i == FirstBar(CString(buf[..], i))
    ensures p < i + |CString(buf[..], i)| <==> p < buf.Length && buf[p] == '|'
  {
    ghost var s := CString(buf[..], i);
    p := i;
    StringAt(buf[..], i, p);
    while p < buf.Length && buf[p] != END && buf[p] != '|'
      invariant i <= p <= i + |s| && '|' !in s[..p - i]
      invariant p < i + |s| <==> p < buf.Length && buf[p] != END
      invariant p < i + |s| ==> s[p - i] == buf[p]
    {
      assert s[..p + 1 - i] == s[..p - i] + [s[p - i]];
      p := p + 1;
      StringAt(buf[..], i, p);
    }
    FirstBarIs(s, p - i);
  }

  // From position i of buffer b came the tree c and the buffer d.
  ghost predicate Parsed(b: seq<char>, i: nat, c: Cmd, d: seq<char>) {
    i <= |b| && c == ParseLine(CString(b, i)) && d == Cut(b, i, i + |CString(b, i)|)
  }

  /** parse_line on a buffer, which it cuts into strings in place. */
  method ParseBuffer(buf: array<char>, i: nat) returns (c: Cmd)
    requires i <= buf.Length
    modifies buf
    ensures Parsed(old(buf[..]), i, c, buf[..])
    decreases buf.Length - i
  {
    ghost var b := buf[..];
    var p := FindBar(buf, i);
    var left := ReadCmd(buf, i, p);
    if p == buf.Length || buf[p] != '|' {
      LastSegment(b, i, p, left);
      return left;
    }
    buf[p] := END;
    ghost var b1 := buf[..];
    var right := ParseBuffer(buf, p + 1);
    NextSegment(b, i, p, b1, CString(b, i), left, right, buf[..]);
    c := if right.Null? then left else Pipe(left, right);
  }

  lemma {:induction false} LastSegment(b: seq<char>, i: nat, p: nat, left: Cmd)
    requires i <= |b| && p == i + |CString(b, i)| && FirstBar(CString(b, i)) == p - i && left == ParseCmd(b[i..p])
    ensures Parsed(b, i, left, b)
  {
    var s := CString(b, i);
    CStringIs(b, i);
    assert s[..|s|] == s;
    Uncut(b, i, s);
  }

  lemma {:induction false} NextSegment(b: seq<char>, i: nat, p: nat, b1: seq<char>, s: string, left: Cmd, right: Cmd, d: seq<char>)
    requires i <= |b| && s == CString(b, i) && i <= p < i + |s| && p - i == FirstBar(s) && b[p] == '|'
    requires b1 == b[p := END] && left == ParseCmd(b[i..p]) && Parsed(b1, p + 1, right, d)
    ensures Parsed(b, i, PipeCreate(left, right), d)
  {
    var rest := CString(b1, p + 1);
    CStringIs(b, i);
    assert rest == s[p - i + 1..] && b[i..p] == s[..p - i] by {
      RestOf(b, i, p, b1, s, rest);
    }
    Resumed(b, i, p, b1, s, rest, left, right, d);
  }

  lemma {:induction false} Resumed(b: seq<char>, i: nat, p: nat, b1: seq<char>, s: string, rest: string,
                                   left: Cmd, right: Cmd, d: seq<char>)
    requires i <= p < i + |s| <= |b| && s == b[i..i + |s|] && b[p] == '|' && b1 == b[p := END]
    requires p - i == FirstBar(s) && b[i..p] == s[..p - i] && rest == s[p - i + 1..]
    requires left == ParseCmd(b[i..p]) && right == ParseLine(rest) && d == Cut(b1, p + 1, p + 1 + |rest|)
    ensures PipeCreate(left, right) == ParseLine(s) && d == Cut(b, i, i + |s|)
  {
    CutOn(b, i, p, s, b1, p + 1 + |rest|, d);
    TreeOf(s, p - i, left, right, rest);
  }

  lemma {:induction false} TreeOf(s: string, k: nat, left: Cmd, right: Cmd, rest: string)
    requires k < |s| && k == FirstBar(s) && rest == s[k + 1..] && left == ParseCmd(s[..k]) && right == ParseLine(rest)
    ensures ParseLine(s) == PipeCreate(left, right)
  {
  }

  // What lies behind the bar is the same string after the cut.
  lemma {:induction false} RestOf(b: seq<char>, i: nat, p: nat, b1: seq<char>, s: string, rest: string)
    requires i <= |b| && s == CString(b, i) && i <= p < i + |s| && b1 == b[p := END]
    requires rest == CString(b1, p + 1)
    ensures rest == s[p - i + 1..] && b[i..p] == s[..p - i]
  {
    CStringIs(b, i);
    StringAfter(b, i, p);
    StringKept(b, p + 1, p, END);
  }

  lemma {:induction false} Uncut(b: seq<char>, i: nat, s: string)
    requires i <= |b| && s == CString(b, i) && '|' !in s
    ensures Cut(b, i, i + |s|) == b
  {
    CStringIs(b, i);
    forall k | i <= k < i + |s| ensures b[k] != '|' {
      assert b[k] == s[k - i];
    }
  }

  lemma {:induction false} CutOn(b: seq<char>, i: nat, p: nat, s: string, b1: seq<char>, hi: nat, d: seq<char>)
    requires i <= p < i + |s| <= |b| && s == b[i..i + |s|] && b[p] == '|' && '|' !in s[..p - i]
    requires b1 == b[p := END] && hi == i + |s| && d == Cut(b1, p + 1, hi)
    ensures d == Cut(b, i, i + |s|)
  {
    forall k | i <= k < p ensures b[k] != '|' {
      assert b[k] == s[k - i] == s[..p - i][k - i];
    }
  }

  // parse_cmd on the string buf[i..p].
  method ReadCmd(buf: array<char>, i: nat, p: nat) returns (c: Cmd)
    requires i <= p <= buf.Length
    ensures c == ParseCmd(buf[i..p])
  {
    if i == p {
      return Null;
    }
    c := Leaf(buf[i..p]);
  }

  // Position p of the string at i is its end, or one of its characters.
  lemma {:induction false} StringAt(buf: seq<char>, i: nat, p: nat)
    requires i <= |buf| && i <= p <= i + |CString(buf, i)|
    ensures p < i + |CString(buf, i)| <==> p < |buf| && buf[p] != END
    ensures p < i + |CString(buf, i)| ==> CString(buf, i)[p - i] == buf[p]
    decreases p - i
  {
    if p > i {
      StringAt(buf, i + 1, p);
    }
  }

  lemma {:induction false} StringAfter(buf: seq<char>, i: nat, p: nat)
    requires i <= |buf| && i <= p < i + |CString(buf, i)|
    ensures CString(buf, p + 1) == CString(buf, i)[p + 1 - i..]
    decreases p - i
  {
    if p > i {
      StringAfter(buf, i + 1, p);
    }
  }

  lemma {:induction false} StringKept(buf: seq<char>, i: nat, p: nat, x: char)
    requires p < i <= |buf|
    ensures CString(buf[p := x], i) == CString(buf, i)
    decreases |buf| - i
  {
    if i < |buf| {
      StringKept(buf, i + 1, p, x);
    }
  }

  lemma {:induction false} FirstBarIs(s: string, k: nat)
    requires k <= |s| && '|' !in s[..k] && (k < |s| ==> s[k] == '|')
    ensures FirstBar(s) == k
    decreases |s|
  {
    if k > 0 {
      assert s[0] in s[..k];
      assert forall x :: x in s[1..][..k - 1] ==> x in s[..k];
      FirstBarIs(s[1..], k - 1);
    }
  }

  /** A process and its descriptor table. */
  class Process {
    var fds: Table

    constructor (t: Table)
      ensures fds == t
    {
      fds := t;
    }

    method CloseFd(fd: nat)
      requires fd < |fds|
      modifies this
      ensures fds == Close(old(fds), fd)
    {
      fds := fds[fd := None];
    }

    method Dup(from: nat, to: nat)
      requires from < |fds| && to < |fds|
      modifies this
      ensures fds == Dup2(old(fds), from, to)
    {
      fds := fds[to := fds[from]];
    }

    // The lowest free descriptor from i on.
    method Free(i: nat) returns (k: nat)
      requires i <= |fds|
      ensures k == Lowest(fds, i)
    {
      k := i;
      while k < |fds| && fds[k].Some?
        invariant i <= k <= |fds| && Lowest(fds, i) == Lowest(fds, k)
      {
        k := k + 1;
      }
    }
  }

  /** What has happened so far. */
  class History {
    var runs: seq<Run>
    var waits: seq<Table>
    var pipes: nat

    constructor ()
      ensures runs == [] && waits == [] && pipes == 0
    {
      runs, waits, pipes := [], [], 0;
    }
  }

  // The history (runs, waits) went on by the trace x to (runs1, waits1, next).
  ghost predicate WentOn(runs: seq<Run>, waits: seq<Table>, x: Trace, runs1: seq<Run>, waits1: seq<Table>, next: nat) {
    runs1 == runs + x.runs && waits1 == waits + x.waits && next == x.next
  }

  /** exec_cmd, run by process p; each fork copies its descriptors. */
  method ExecCmd(c: Cmd, p: Process, h: History)
    requires NoNull(c) && |p.fds| > 2
    modifies p, h
    ensures WentOn(old(h.runs), old(h.waits), Exec(c, old(p.fds), old(h.pipes)), h.runs, h.waits, h.pipes)
    decreases c, 2
  {
    if c.Leaf? {
      h.runs := h.runs + [Run(c.text, p.fds)];
      return;
    }
    var a := p.Free(0);
    if a == |p.fds| {
      return;
    }
    var b := p.Free(a + 1);
    if b == |p.fds| {
      return;
    }
    ghost var t, n := p.fds, h.pipes;
    var child1, child2 := MakeChildren(p, h, a, b);
    RunChildren(c, child1, child2, h, t, n, a, b, old(h.runs), old(h.waits));
  }

  // pipe(), both forks, and the parent's closes before it waits.
  method MakeChildren(p: Process, h: History, a: nat, b: nat) returns (child1: Process, child2: Process)
    requires |p.fds| > 2 && a < |p.fds| && b < |p.fds|
    modifies p, h
    ensures fresh(child1) && fresh(child2) && child1 != child2
    ensures child1.fds == LeftTable(old(p.fds), old(h.pipes), a, b) && child2.fds == RightTable(old(p.fds), old(h.pipes), a, b)
    ensures h.waits == old(h.waits) + [ParentTable(old(p.fds), old(h.pipes), a, b)]
    ensures h.runs == old(h.runs) && h.pipes == old(h.pipes) + 1
  {
    p.fds := p.fds[a := Some(ReadEnd(h.pipes))][b := Some(WriteEnd(h.pipes))];
    h.pipes := h.pipes + 1;
    child1 := ForkChild(p, a, b, STDOUT);
    child2 := ForkChild(p, b, a, STDIN);
    p.CloseFd(a);
    p.CloseFd(b);
    h.waits := h.waits + [p.fds];
  }

  // Both children run; the parent waits for them.
  method RunChildren(c: Cmd, child1: Process, child2: Process, h: History,
                     ghost t: Table, ghost n: nat, ghost a: nat, ghost b: nat, ghost runs: seq<Run>, ghost waits: seq<Table>)
    requires NoNull(c) && c.Pipe? && |t| > 2 && PipeFds(t) == Some((a, b)) && child1 != child2
    requires child1.fds == LeftTable(t, n, a, b) && child2.fds == RightTable(t, n, a, b)
    requires h.runs == runs && h.waits == waits + [ParentTable(t, n, a, b)] && h.pipes == n + 1
    modifies child1, child2, h
    ensures WentOn(runs, waits, Exec(c, t, n), h.runs, h.waits, h.pipes)
    decreases c, 0
  {
    ghost var tl, tr := child1.fds, child2.fds;
    ghost var xl := Exec(c.left, tl, n + 1);
    ghost var xr := Exec(c.right, tr, xl.next);
    ExecCmd(c.left, child1, h);
    ghost var runs1, waits1 := h.runs, h.waits;
    ExecCmd(c.right, child2, h);
    PipeTrace(c, t, n, a, b, tl, tr, xl, xr, runs, waits, runs1, waits1, h.runs, h.waits, h.pipes);
  }

  lemma {:induction false} PipeTrace(c: Cmd, t: Table, n: nat, a: nat, b: nat, tl: Table, tr: Table, xl: Trace, xr: Trace,
                                     runs: seq<Run>, waits: seq<Table>, runs1: seq<Run>, waits1: seq<Table>,
                                     runs2: seq<Run>, waits2: seq<Table>, next: nat)
    requires NoNull(c) && c.Pipe? && |t| > 2 && PipeFds(t) == Some((a, b))
    requires tl == LeftTable(t, n, a, b) && tr == RightTable(t, n, a, b)
    requires xl == Exec(c.left, tl, n + 1) && xr == Exec(c.right, tr, xl.next)
    requires WentOn(runs, waits + [ParentTable(t, n, a, b)], xl, runs1, waits1, xl.next)
    requires WentOn(runs1, waits1, xr, runs2, waits2, next)
    ensures WentOn(runs, waits, Exec(c, t, n), runs2, waits2, next)
  {
    ExecPipe(c, t, n, a, b, tl, tr, xl, xr);
    Glue(runs, waits, ParentTable(t, n, a, b), xl, xr, Exec(c, t, n), runs1, waits1, runs2, waits2, next);
  }

  lemma {:induction false} Glue(runs: seq<Run>, waits: seq<Table>, w: Table, xl: Trace, xr: Trace, x: Trace,
                                runs1: seq<Run>, waits1: seq<Table>, runs2: seq<Run>, waits2: seq<Table>, next: nat)
    requires WentOn(runs, waits + [w], xl, runs1, waits1, xl.next) && WentOn(runs1, waits1, xr, runs2, waits2, next)
    requires x == Trace(xl.runs + xr.runs, [w] + xl.waits + xr.waits, xr.next)
    ensures WentOn(runs, waits, x, runs2, waits2, next)
  {
    assert runs + xl.runs + xr.runs == runs + (xl.runs + xr.runs);
    assert waits + [w] + xl.waits + xr.waits == waits + ([w] + xl.waits + xr.waits);
  }

  // fork; in the child: close(other); dup2(mine, std); close(mine)
  method ForkChild(p: Process, other: nat, mine: nat, std: nat) returns (child: Process)
    requires other < |p.fds| && mine < |p.fds| && std < |p.fds|
    ensures fresh(child) && child.fds == Close(Dup2(Close(p.fds, other), mine, std), mine)
  {
    child := new Process(p.fds);
    child.CloseFd(other);
    child.Dup(mine, std);
    child.CloseFd(mine);
  }
}
