/** The two schedulers of sched/kern/sched.c on one CPU, and their waiting-time bounds. */
module Sched {
  import opened Base

  const HIGHEST := 5
  const MAX_WAIT := 3

  datatype Sched = Sched(status: seq<Status>, prio: seq<int>, wait: seq<int>, cur: Option<nat>)

  ghost predicate Ok(s: Sched) {
    |s.status| == |s.prio| == |s.wait| == NENV && (s.cur.Some? ==> s.cur.value < NENV)
  }

  function Raise(p: int): int { if p < HIGHEST then p + 1 else p }
  function Lower(p: int): int { if p > 0 then p - 1 else p }

  // ---------------------------------------------------------------- the priority scheduler

  function Start(s: Sched): nat { if s.cur.Some? then s.cur.value else 0 }

  // One round of the scan: the candidate is compared first, the environment ages after that.
  function Visit(s: Sched, e: nat, max: Option<nat>): (Sched, Option<nat>)
    requires Ok(s) && e < NENV && (max.Some? ==> max.value < NENV)
  {
    var max1 := if s.status[e] == RUNNABLE && (max.None? || s.prio[e] > s.prio[max.value]) then Some(e) else max;
    var s1 := if s.wait[e] >= MAX_WAIT then s.(prio := s.prio[e := Raise(s.prio[e])], wait := s.wait[e := 1])
              else s.(wait := s.wait[e := s.wait[e] + 1]);
    (s1, max1)
  }

  function Scan(s: Sched, start: nat, i: nat, max: Option<nat>): (r: (Sched, Option<nat>))
    requires Ok(s) && (max.Some? ==> max.value < NENV)
    ensures Ok(r.0) && (r.1.Some? ==> r.1.value < NENV)
    decreases |s.status| + 1 - i
  {
    if i > NENV then (s, max) else
    var (s1, max1) := Visit(s, (start + i) % NENV, max);
    Scan(s1, start, i + 1, max1)
  }

  lemma ScanStep(s: Sched, start: nat, i: nat, max: Option<nat>)
    requires Ok(s) && (max.Some? ==> max.value < NENV) && i <= NENV
    ensures var (s1, max1) := Visit(s, (start + i) % NENV, max);
            Scan(s, start, i, max) == Scan(s1, start, i + 1, max1)
  {
  }

  // From slot i on with this candidate, the scan ends in `goal`.
  ghost predicate ScanAt(s: Sched, start: nat, i: nat, max: Option<nat>, goal: (Sched, Option<nat>)) {
    Ok(s) && (max.Some? ==> max.value < NENV) && Scan(s, start, i, max) == goal
  }

  // env_run
  function EnvRun(s: Sched, e: nat): Sched
    requires Ok(s) && e < NENV
  {
    var s1 := if s.cur.Some? && s.status[s.cur.value] == RUNNING
              then s.(status := s.status[s.cur.value := RUNNABLE]) else s;
    s1.(status := s1.status[e := RUNNING], cur := Some(e))
  }

  function Charge(s: Sched, e: nat): Sched
    requires Ok(s) && e < NENV
  {
    s.(prio := s.prio[e := Lower(s.prio[e])], wait := s.wait[e := 0])
  }

  // sched_yield; the second component is the environment that runs, None when the CPU halts.
  function Yield(s: Sched): (Sched, Option<nat>)
    requires Ok(s)
  {
    var (s1, max) := Scan(s, Start(s), 1, None);
    if max.Some? then (EnvRun(Charge(s1, max.value), max.value), max)
    else if s1.cur.Some? && s1.status[s1.cur.value] == RUNNING then (EnvRun(Charge(s1, s1.cur.value), s1.cur.value), s1.cur)
    else (s1.(cur := None), None)
  }

  // The round-robin variant.
  function FirstRunnable(s: Sched, start: nat, i: nat): (r: Option<nat>)
    requires Ok(s)
    ensures r.Some? ==> r.value < NENV
    decreases |s.status| + 1 - i
  {
    if i > NENV then None
    else if s.status[(start + i) % NENV] == RUNNABLE then Some((start + i) % NENV)
    else FirstRunnable(s, start, i + 1)
  }

  function YieldRR(s: Sched): (Sched, Option<nat>)
    requires Ok(s)
  {
    var max := FirstRunnable(s, Start(s), 1);
    if max.Some? then (EnvRun(s, max.value), max)
    else if s.cur.Some? && s.status[s.cur.value] == RUNNING then (EnvRun(s, s.cur.value), s.cur)
    else (s.(cur := None), None)
  }

  // ---------------------------------------------------------------- the code

  class Scheduler {
    const status: array<Status>
    const prio: array<int>
    const wait: array<int>
    var cur: Option<nat>

    ghost function State(): Sched
      reads this, status, prio, wait
    {
      Sched(status[..], prio[..], wait[..], cur)
    }

    ghost predicate Valid()
      reads this, status, prio, wait
    {
      prio != wait && Ok(State())
    }

    method Run(e: nat)
      requires Valid() && e < NENV
      modifies this`cur, status
      ensures Valid() && State() == EnvRun(old(State()), e)
    {
      if cur.Some? && status[cur.value] == RUNNING {
        status[cur.value] := RUNNABLE;
      }
      cur := Some(e);
      status[e] := RUNNING;
    }

    method LowerAndRun(e: nat)
      requires Valid() && e < NENV
      modifies this`cur, status, prio, wait
      ensures Valid() && State() == EnvRun(Charge(old(State()), e), e)
    {
      if prio[e] > 0 {
        prio[e] := prio[e] - 1;
      }
      wait[e] := 0;
      assert State() == Charge(old(State()), e);
      Run(e);
    }

    method AgeAndCompare(e: nat, max: Option<nat>) returns (max1: Option<nat>)
      requires Valid() && e < NENV && (max.Some? ==> max.value < NENV)
      modifies prio, wait
      ensures Valid() && (State(), max1) == Visit(old(State()), e, max)
    {
      max1 := max;
      if status[e] == RUNNABLE && (max.None? || prio[e] > prio[max.value]) {
        max1 := Some(e);
      }
      if wait[e] >= MAX_WAIT {
        if prio[e] < HIGHEST {
          prio[e] := prio[e] + 1;
        }
        wait[e] := 0;
        assert prio[..] == old(prio[..])[e := Raise(old(prio[e]))];
      }
      wait[e] := wait[e] + 1;
      assert wait[..] == old(wait[..])[e := wait[e]];
    }

    // The loop of sched_yield over envs[], circularly from the slot after `start`.
    method ScanAll(start: nat, ghost goal: (Sched, Option<nat>)) returns (max: Option<nat>)
      requires Valid() && ScanAt(State(), start, 1, None, goal)
      modifies prio, wait
      ensures Valid() && goal == (State(), max) && (max.Some? ==> max.value < NENV)
    {
      max := None;
      for i := 1 to NENV + 1
        invariant Valid() && ScanAt(State(), start, i, max, goal)
      {
        max := ScanRound(start, i, max, goal);
      }
    }

    method ScanRound(start: nat, i: nat, max: Option<nat>, ghost goal: (Sched, Option<nat>)) returns (max1: Option<nat>)
      requires Valid() && i <= NENV && ScanAt(State(), start, i, max, goal)
      modifies prio, wait
      ensures Valid() && ScanAt(State(), start, i + 1, max1, goal)
    {
      ScanStep(State(), start, i, max);
      max1 := AgeAndCompare((start + i) % NENV, max);
    }

    method SchedYield() returns (ran: Option<nat>)
      requires Valid()
      modifies this`cur, status, prio, wait
      ensures Valid() && (State(), ran) == Yield(old(State()))
    {
      var start := if cur.Some? then cur.value else 0;
      ran := ScanAll(start, Scan(State(), start, 1, None));
      if ran.Some? {
        LowerAndRun(ran.value);
        return;
      }
      if cur.Some? && status[cur.value] == RUNNING {
        ran := cur;
        LowerAndRun(cur.value);
        return;
      }
      cur := None;
    }

    method SchedYieldRoundRobin() returns (ran: Option<nat>)
      requires Valid()
      modifies this`cur, status
      ensures Valid() && (State(), ran) == YieldRR(old(State()))
    {
      var start := if cur.Some? then cur.value else 0;
      for i := 1 to NENV + 1
        invariant FirstRunnable(State(), start, i) == FirstRunnable(State(), start, 1)
        invariant State() == old(State())
      {
        var e := (start + i) % NENV;
        if status[e] == RUNNABLE {
          Run(e);
          return Some(e);
        }
      }
      ran := None;
      if cur.Some? && status[cur.value] == RUNNING {
        ran := cur;
        Run(cur.value);
        return;
      }
      cur := None;
    }
  }

  // ---------------------------------------------------------------- what the scan selects

  // The position of `e` in the scan that starts after `start`: 1 to NENV.
  function Pos(start: nat, e: nat): nat
    requires start < NENV && e < NENV
  {
    if e > start then e - start else e + NENV - start
  }

  lemma PosAt(start: nat, i: nat, e: nat)
    requires start < NENV && 1 <= i <= NENV && e < NENV
    ensures (start + i) % NENV == e <==> Pos(start, e) == i
  {
  }

  function AgedPrio(s: Sched, e: nat): int
    requires Ok(s) && e < NENV
  {
    if s.wait[e] >= MAX_WAIT then Raise(s.prio[e]) else s.prio[e]
  }

  function AgedWait(s: Sched, e: nat): int
    requires Ok(s) && e < NENV
  {
    if s.wait[e] >= MAX_WAIT then 1 else s.wait[e] + 1
  }

  predicate Waits(s: Sched, e: nat) { e < |s.status| && s.status[e] == RUNNABLE }

  // The candidates from position i on, and one carried over from before.
  ghost predicate Selects(s: Sched, start: nat, i: nat, max: Option<nat>, c: Option<nat>)
    requires Ok(s) && start < NENV && (max.Some? ==> max.value < NENV)
  {
    match c
    case None => max == None && forall e: nat :: e < NENV && Pos(start, e) >= i ==> !Waits(s, e)
    case Some(m) =>
      && m < NENV
      && (c == max || (Waits(s, m) && Pos(start, m) >= i && (max.Some? ==> s.prio[max.value] < s.prio[m])))
      && (c != max ==> forall e: nat :: e < NENV && Waits(s, e) && i <= Pos(start, e) < Pos(start, m) ==> s.prio[e] < s.prio[m])
      && (forall e: nat :: e < NENV && Waits(s, e) && Pos(start, e) >= i && (c == max || Pos(start, e) > Pos(start, m)) ==>
            s.prio[e] <= if c == max then s.prio[m] else AgedPrio(s, m))
  }

  // The scan ages every environment once and changes nothing else.
  lemma {:induction false} ScanAges(s: Sched, t: Sched, start: nat, i: nat, max: Option<nat>, c: Option<nat>)
    requires Ok(s) && start < NENV && 1 <= i <= NENV + 1 && (max.Some? ==> max.value < NENV)
    requires (t, c) == Scan(s, start, i, max)
    ensures t.status == s.status && t.cur == s.cur
    ensures forall e: nat :: e < NENV ==> t.prio[e] == (if Pos(start, e) >= i then AgedPrio(s, e) else s.prio[e])
                                          && t.wait[e] == (if Pos(start, e) >= i then AgedWait(s, e) else s.wait[e])
    decreases NENV + 1 - i
  {
    if i <= NENV {
      var e := (start + i) % NENV;
      var (s1, max1) := Visit(s, e, max);
      ScanAges(s1, t, start, i + 1, max1, c);
      forall f: nat | f < NENV ensures Pos(start, f) == i <==> f == e {
        PosAt(start, i, f);
      }
    }
  }

  // It selects a waiting environment that beats the waiting ones before it, and that the
  // ones after it do not beat.
  lemma {:induction false} ScanSelects(s: Sched, start: nat, i: nat, max: Option<nat>)
    requires Ok(s) && start < NENV && 1 <= i <= NENV + 1
    requires max.Some? ==> max.value < NENV && Pos(start, max.value) < i
    ensures Selects(s, start, i, max, Scan(s, start, i, max).1)
    decreases NENV + 1 - i
  {
    if i <= NENV {
      var e := (start + i) % NENV;
      var (s1, max1) := Visit(s, e, max);
      PosAt(start, i, e);
      ScanSelects(s1, start, i + 1, max1);
      forall f: nat | f < NENV ensures Pos(start, f) == i <==> f == e {
        PosAt(start, i, f);
      }
      SelectsStep(s, s1, start, i, e, max, max1, Scan(s, start, i, max).1);
    }
  }

  lemma SelectsStep(s: Sched, s1: Sched, start: nat, i: nat, e: nat, max: Option<nat>, max1: Option<nat>, c: Option<nat>)
    requires Ok(s) && start < NENV && e < NENV && Pos(start, e) == i
    requires max.Some? ==> max.value < NENV && Pos(start, max.value) < i
    requires (s1, max1) == Visit(s, e, max)
    requires forall f: nat :: f < NENV && Pos(start, f) == i ==> f == e
    requires Selects(s1, start, i + 1, max1, c)
    ensures Selects(s, start, i, max, c)
  {
    assert forall f: nat :: f < NENV ==> (Waits(s1, f) <==> Waits(s, f)) && (f != e ==> s1.prio[f] == s.prio[f] && AgedPrio(s1, f) == AgedPrio(s, f));
  }

  // ---------------------------------------------------------------- one call

  // The choice of one call among the waiting environments.
  ghost predicate Chooses(s: Sched, c: Option<nat>)
    requires Ok(s)
  {
    match c
    case None => forall e: nat :: e < NENV ==> !Waits(s, e)
    case Some(m) =>
      && m < NENV
      && (Waits(s, m) ==>
            && (forall e: nat :: e < NENV && Waits(s, e) && Pos(Start(s), e) < Pos(Start(s), m) ==> s.prio[e] < s.prio[m])
            && (forall e: nat :: e < NENV && Waits(s, e) && e != m ==> s.prio[e] <= AgedPrio(s, m)))
      && (!Waits(s, m) ==> s.cur == c && s.status[m] == RUNNING && forall e: nat :: e < NENV ==> !Waits(s, e))
  }

  // Everybody but the chosen one ages; a waiting environment goes on waiting.
  ghost predicate Ages(s: Sched, t: Sched, c: Option<nat>)
    requires Ok(s) && Ok(t)
  {
    && t.cur == c
    && (forall e: nat :: e < NENV && c != Some(e) ==>
          t.prio[e] == AgedPrio(s, e) && t.wait[e] == AgedWait(s, e) && (Waits(s, e) ==> Waits(t, e)))
    && (c.Some? ==> c.value < NENV && t.status[c.value] == RUNNING && t.wait[c.value] == 0
                    && t.prio[c.value] == Lower(AgedPrio(s, c.value)))
  }

  lemma YieldChooses(s: Sched)
    requires Ok(s)
    ensures Chooses(s, Yield(s).1)
  {
    var (s1, max) := Scan(s, Start(s), 1, None);
    ScanAges(s, s1, Start(s), 1, None, max);
    ScanSelects(s, Start(s), 1, None);
    SelectsChooses(s, max);
  }

  lemma SelectsChooses(s: Sched, max: Option<nat>)
    requires Ok(s) && Selects(s, Start(s), 1, None, max)
    ensures Chooses(s, max)
    ensures max.None? && s.cur.Some? && s.status[s.cur.value] == RUNNING ==> Chooses(s, s.cur)
  {
    assert forall e: nat :: e < NENV ==> Pos(Start(s), e) >= 1;
  }

  ghost predicate AllAged(s: Sched, t: Sched)
    requires Ok(s) && Ok(t)
  {
    && t.status == s.status && t.cur == s.cur
    && forall e: nat :: e < NENV ==> t.prio[e] == AgedPrio(s, e) && t.wait[e] == AgedWait(s, e)
  }

  lemma ChargeAndRun(s: Sched, s1: Sched, m: nat)
    requires Ok(s) && Ok(s1) && AllAged(s, s1) && m < NENV
    ensures Ages(s, EnvRun(Charge(s1, m), m), Some(m))
  {
  }

  // The statuses change as in env_run, if anybody runs.
  lemma YieldStatus(s: Sched)
    requires Ok(s)
    ensures Yield(s).1.Some? ==> Yield(s).1.value < NENV
    ensures Yield(s).1.None? && s.cur.Some? ==> s.status[s.cur.value] != RUNNING
    ensures Yield(s).0.status == if Yield(s).1.Some? then EnvRun(s, Yield(s).1.value).status else s.status
    ensures Yield(s).0.cur == Yield(s).1
  {
    var (s1, max) := Scan(s, Start(s), 1, None);
    ScanAges(s, s1, Start(s), 1, None, max);
  }

  lemma YieldAges(s: Sched)
    requires Ok(s)
    ensures Ok(Yield(s).0) && Ages(s, Yield(s).0, Yield(s).1)
  {
    var (s1, max) := Scan(s, Start(s), 1, None);
    assert AllAged(s, s1) by {
      ScanAges(s, s1, Start(s), 1, None, max);
      assert forall e: nat :: e < NENV ==> Pos(Start(s), e) >= 1;
    }
    if max.Some? {
      ChargeAndRun(s, s1, max.value);
    } else if s1.cur.Some? && s1.status[s1.cur.value] == RUNNING {
      ChargeAndRun(s, s1, s1.cur.value);
    }
  }

  // ---------------------------------------------------------------- no starvation

  ghost predicate Capped(s: Sched)
    requires Ok(s)
  {
    forall e: nat :: e < NENV ==> s.prio[e] <= HIGHEST
  }

  lemma YieldCapped(s: Sched)
    requires Ok(s) && Capped(s)
    ensures Ok(Yield(s).0) && Capped(Yield(s).0)
  {
    YieldAges(s);
    var (t, c) := Yield(s);
    assert forall e: nat :: e < NENV ==> t.prio[e] <= AgedPrio(s, e) || t.prio[e] == Lower(AgedPrio(s, e));
  }

  // The states in which successive calls of sched_yield find the table, while `x` stays
  // RUNNABLE. Between two calls the running environment and the interrupt handlers may do what
  // they like to the others: create, destroy, block and wake them and set their priorities.
  ghost predicate Calls(pre: seq<Sched>, x: nat)
    requires x < NENV
  {
    && (forall k :: 0 <= k < |pre| ==> Ok(pre[k]) && Capped(pre[k]) && Waits(pre[k], x) && pre[k].wait[x] >= 0)
    && (forall k :: 0 <= k < |pre| - 1 && Yield(pre[k]).1 != Some(x) ==> Follows(pre[k + 1], Yield(pre[k]), x))
  }

  // `s` finds as its curenv the environment chosen before, and x as the call left it.
  ghost predicate Follows(s: Sched, done: (Sched, Option<nat>), x: nat)
    requires Ok(s) && x < NENV
  {
    && s.cur == done.1 && s.cur.Some?
    && x < |done.0.prio| && x < |done.0.wait| && s.prio[x] == done.0.prio[x] && s.wait[x] == done.0.wait[x]
  }

  // Calls that may still pass over x: the aging ones, then its distance from curenv.
  function Patience(s: Sched, x: nat): int
    requires Ok(s) && x < NENV
  {
    if s.prio[x] < HIGHEST
    then 3 * (HIGHEST - s.prio[x]) + 1 - (if s.wait[x] < MAX_WAIT then s.wait[x] else MAX_WAIT) + NENV
    else Pos(Start(s), x)
  }

  // Each call that passes over x brings its turn nearer.
  lemma PatienceFalls(s: Sched, s1: Sched, x: nat)
    requires Ok(s) && Capped(s) && x < NENV && Waits(s, x) && s.wait[x] >= 0
    requires Yield(s).1 != Some(x)
    requires Ok(s1) && Follows(s1, Yield(s), x)
    ensures 1 <= Patience(s1, x) < Patience(s, x)
  {
    YieldAges(s);
    YieldChooses(s);
    if s.prio[x] == HIGHEST {
      var m := s1.cur.value;
      assert Waits(s, m) && Pos(Start(s), m) < Pos(Start(s), x);
    }
  }

  lemma PatienceLeft(s: Sched, x: nat)
    requires Ok(s) && Capped(s) && x < NENV && Waits(s, x) && s.wait[x] >= 0
    ensures 1 <= Patience(s, x) <= 3 * (HIGHEST - s.prio[x]) + 1 + NENV
    ensures Patience(s, x) == 1 ==> Yield(s).1 == Some(x)
  {
    YieldChooses(s);
  }

  lemma {:induction false} PassedOver(pre: seq<Sched>, x: nat)
    requires x < NENV && |pre| > 0 && Calls(pre, x)
    requires forall k :: 0 <= k < |pre| ==> Yield(pre[k]).1 != Some(x)
    ensures |pre| < Patience(pre[0], x)
    decreases |pre|
  {
    PatienceLeft(pre[0], x);
    if |pre| > 1 {
      PatienceFalls(pre[0], pre[1], x);
      PassedOver(pre[1..], x);
    }
  }

  /** No starvation: an environment that stays RUNNABLE at priority p is chosen within
      3 * (5 - p) + 1 + NENV calls, if no later one of them starts without curenv. */
  lemma NoStarvation(pre: seq<Sched>, x: nat)
    requires x < NENV && |pre| > 0 && Calls(pre, x)
    requires |pre| >= 3 * (HIGHEST - pre[0].prio[x]) + 1 + NENV
    ensures exists k :: 0 <= k < 3 * (HIGHEST - pre[0].prio[x]) + 1 + NENV && Yield(pre[k]).1 == Some(x)
  {
    var bound := 3 * (HIGHEST - pre[0].prio[x]) + 1 + NENV;
    if forall k :: 0 <= k < bound ==> Yield(pre[k]).1 != Some(x) {
      PatienceLeft(pre[0], x);
      PassedOver(pre[..bound], x);
    }
  }

  // ---------------------------------------------------------------- starvation without curenv

  /** The bound needs curenv: a call without one starts at slot 1, so an environment is passed
      over as long as each such call finds another one at the top priority in a lower slot. */
  lemma BlockedWithoutCurenv(pre: seq<Sched>, x: nat, blocker: seq<nat>)
    requires |blocker| == |pre|
    requires forall k :: 0 <= k < |pre| ==>
               && Ok(pre[k]) && Capped(pre[k]) && pre[k].cur.None?
               && 0 < blocker[k] < x && Waits(pre[k], blocker[k]) && pre[k].prio[blocker[k]] == HIGHEST
    ensures forall k :: 0 <= k < |pre| ==> Yield(pre[k]).1 != Some(x)
  {
    forall k | 0 <= k < |pre| ensures Yield(pre[k]).1 != Some(x) {
      YieldChooses(pre[k]);
      assert x < NENV ==> Pos(0, blocker[k]) < Pos(0, x);
    }
  }

  // Slots 1 and 2 take turns.
  function Turn(n: nat): nat { 1 + n % 2 }

  // Between two calls the environment in slot b forks a child into slot o, with the default
  // priority, and exits.
  function ForkAndExit(s: Sched, b: nat, o: nat): Sched
    requires Ok(s) && b < NENV && o < NENV
  {
    Sched(s.status[b := FREE][o := RUNNABLE], s.prio[o := HIGHEST], s.wait[o := 0], None)
  }

  // Call n finds the one in slot Turn(n) RUNNABLE, and nobody in the other slot.
  ghost predicate Alternating(s: Sched, n: nat, x: nat) {
    && Ok(s) && Capped(s) && s.cur.None? && 2 < x < NENV && Waits(s, x)
    && Waits(s, Turn(n)) && s.prio[Turn(n)] == HIGHEST && s.status[Turn(n + 1)] == FREE
  }

  // A table with two new environments, in slots 1 and x.
  function TwoReady(x: nat): Sched {
    Sched(seq(NENV, e => if e == 1 || e == x then RUNNABLE else FREE), seq(NENV, _ => HIGHEST), seq(NENV, _ => 0), None)
  }

  lemma TwoReadyAlternates(x: nat)
    requires 2 < x < NENV
    ensures Alternating(TwoReady(x), 0, x)
  {
    var s := TwoReady(x);
    assert s.status[1] == RUNNABLE && s.status[2] == FREE && s.status[x] == RUNNABLE;
  }

  lemma AlternatingStep(s: Sched, n: nat, x: nat)
    requires Alternating(s, n, x)
    ensures Yield(s).1 == Some(Turn(n)) && Ok(Yield(s).0)
    ensures Alternating(ForkAndExit(Yield(s).0, Turn(n), Turn(n + 1)), n + 1, x)
  {
    YieldChooses(s);
    YieldStatus(s);
    YieldCapped(s);
    assert Pos(0, Turn(n)) == Turn(n) && Turn(n + 2) == Turn(n);
  }

  // The states that the first n + 1 calls find.
  ghost predicate AlternatingRun(pre: seq<Sched>, x: nat) {
    && |pre| > 0 && Alternating(pre[0], 0, x)
    && forall k: nat :: k < |pre| - 1 ==>
         Ok(pre[k]) && Ok(Yield(pre[k]).0) && pre[k + 1] == ForkAndExit(Yield(pre[k]).0, Turn(k), Turn(k + 1))
  }

  /** Such a run exists at any length: two environments that take turns forking and exiting
      starve whoever waits in a higher slot, however often the scheduler is called. */
  lemma {:induction false} ForkersStarve(x: nat, n: nat) returns (pre: seq<Sched>)
    requires 2 < x < NENV
    ensures |pre| == n + 1 && AlternatingRun(pre, x) && Alternating(pre[n], n, x)
    ensures forall k: nat :: k <= n ==> Waits(pre[k], x) && Yield(pre[k]).1 == Some(Turn(k))
  {
    if n == 0 {
      pre := [TwoReady(x)];
      TwoReadyAlternates(x);
    } else {
      pre := ForkersStarve(x, n - 1);
      AlternatingStep(pre[n - 1], n - 1, x);
      pre := pre + [ForkAndExit(Yield(pre[n - 1]).0, Turn(n - 1), Turn(n))];
    }
    AlternatingStep(pre[n], n, x);
  }

  // ---------------------------------------------------------------- round robin

  lemma {:induction false} FirstIsNearest(s: Sched, start: nat, i: nat)
    requires Ok(s) && start < NENV && 1 <= i <= NENV + 1
    ensures var c := FirstRunnable(s, start, i);
            && (c.Some? ==> Waits(s, c.value) && Pos(start, c.value) >= i)
            && forall e: nat :: e < NENV && Waits(s, e) && Pos(start, e) >= i ==>
                 c.Some? && Pos(start, c.value) <= Pos(start, e)
    decreases NENV + 1 - i
  {
    if i <= NENV {
      forall f: nat | f < NENV ensures Pos(start, f) == i <==> (start + i) % NENV == f {
        PosAt(start, i, f);
      }
      FirstIsNearest(s, start, i + 1);
    }
  }

  ghost predicate CallsRR(pre: seq<Sched>, x: nat)
    requires x < NENV
  {
    && (forall k :: 0 <= k < |pre| ==> Ok(pre[k]) && Waits(pre[k], x))
    && (forall k :: 0 <= k < |pre| - 1 && YieldRR(pre[k]).1 != Some(x) ==>
          pre[k + 1].cur == YieldRR(pre[k]).1 && pre[k + 1].cur.Some?)
  }

  lemma {:induction false} PassedOverRR(pre: seq<Sched>, x: nat)
    requires x < NENV && |pre| > 0 && CallsRR(pre, x)
    requires forall k :: 0 <= k < |pre| ==> YieldRR(pre[k]).1 != Some(x)
    ensures |pre| < Pos(Start(pre[0]), x)
    decreases |pre|
  {
    FirstIsNearest(pre[0], Start(pre[0]), 1);
    if |pre| > 1 {
      PassedOverRR(pre[1..], x);
    }
  }

  /** Round robin: chosen within NENV calls. */
  lemma NoStarvationRR(pre: seq<Sched>, x: nat)
    requires x < NENV && CallsRR(pre, x) && |pre| >= NENV
    ensures exists k :: 0 <= k < NENV && YieldRR(pre[k]).1 == Some(x)
  {
    if forall k :: 0 <= k < NENV ==> YieldRR(pre[k]).1 != Some(x) {
      PassedOverRR(pre[..NENV], x);
    }
  }
}
