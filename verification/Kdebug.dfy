/** The filtered binary search of sched/kern/kdebug.c. */
module Kdebug {
  const WORD: nat := 0x1_0000_0000
  const MAXSTABS: nat := 0x4000_0000     // l + r stays within an int

  datatype Stab = Stab(ty: nat, value: nat)

  // What the search returns in *region_left and *region_right.
  datatype Region = Region(left: int, right: int)

  // The variables of the loop; the address looked for is a0 + c on 32 bits.
  datatype Search = Search(l: int, r: int, left: int, right: int, any: bool, c: nat)

  ghost predicate TableOk(t: seq<Stab>, a0: nat) {
    |t| < MAXSTABS && a0 < WORD && forall i :: 0 <= i < |t| ==> t[i].value < WORD
  }

  function Addr(a0: nat, c: nat): nat { (a0 + c) % WORD }

  // The last stab of type ty in [l, m], or l - 1.
  function LastMatch(t: seq<Stab>, ty: nat, l: int, m: int): (k: int)
    requires 0 <= l && l - 1 <= m < |t|
    ensures l - 1 <= k <= m && (k >= l ==> t[k].ty == ty)
    ensures forall i :: k < i <= m ==> t[i].ty != ty
    decreases m - l + 1
  {
    if m < l || t[m].ty == ty then m else LastMatch(t, ty, l, m - 1)
  }

  ghost predicate Bounds(t: seq<Stab>, s: Search) { 0 <= s.l <= s.r + 1 <= |t| }

  function Mid(l: int, r: int): (m: int)
    requires 0 <= l <= r
    ensures l <= m <= r
  {
    (l + r) / 2
  }

  // One round of the loop.
  function Round(t: seq<Stab>, ty: nat, a0: nat, s: Search): (u: Search)
    requires Bounds(t, s) && s.l <= s.r
    ensures Bounds(t, u) && s.l <= u.l && u.r <= s.r
  {
    var mid := Mid(s.l, s.r);
    var m := LastMatch(t, ty, s.l, mid);
    var addr := Addr(a0, s.c);
    if m < s.l then s.(l := mid + 1)
    else if t[m].value < addr then s.(any := true, left := m, l := mid + 1)
    else if t[m].value > addr then s.(any := true, right := m - 1, r := m - 1)
    else s.(any := true, left := m, l := m, c := s.c + 1)
  }

  // ---------------------------------------------------------------- termination

  // How far a value lies above a0, going round.
  function Ahead(a0: nat, v: nat): nat { (v + WORD - a0 % WORD) % WORD }

  // The stabs of type ty in [l, r] that are at least c ahead of a0.
  function Live(t: seq<Stab>, ty: nat, a0: nat, c: nat, l: int, r: int): (n: nat)
    requires 0 <= l && l - 1 <= r < |t|
    ensures n <= r - l + 1
    decreases r - l + 1
  {
    if l > r then 0 else Live(t, ty, a0, c, l, r - 1) + if t[r].ty == ty && Ahead(a0, t[r].value) >= c then 1 else 0
  }

  lemma {:induction false} LiveShrinks(t: seq<Stab>, ty: nat, a0: nat, c: nat, d: nat, l: int, r: int, l1: int, r1: int)
    requires 0 <= l <= l1 && l1 - 1 <= r1 <= r < |t| && l - 1 <= r && c <= d
    ensures Live(t, ty, a0, d, l1, r1) <= Live(t, ty, a0, c, l, r)
    decreases r - l + 1
  {
    if l1 > r1 {
    } else if r1 < r {
      LiveShrinks(t, ty, a0, c, d, l, r - 1, l1, r1);
    } else {
      LiveShrinks(t, ty, a0, c, d, l, r - 1, l1, r1 - 1);
    }
  }

  lemma {:induction false} LiveDrops(t: seq<Stab>, ty: nat, a0: nat, c: nat, l: int, r: int, l1: int, m: int)
    requires 0 <= l <= l1 <= m <= r < |t| && t[m].ty == ty && Ahead(a0, t[m].value) == c
    ensures Live(t, ty, a0, c + 1, l1, r) < Live(t, ty, a0, c, l, r)
    decreases r - l + 1
  {
    if m < r {
      LiveDrops(t, ty, a0, c, l, r - 1, l1, m);
    } else {
      LiveShrinks(t, ty, a0, c, c + 1, l, r - 1, l1, r - 1);
    }
  }

  lemma Hit(a0: nat, c: nat, v: nat)
    requires a0 < WORD && c < WORD && v < WORD && v == Addr(a0, c)
    ensures Ahead(a0, v) == c
  {
  }

  function Measure(t: seq<Stab>, ty: nat, a0: nat, s: Search): nat
    requires Bounds(t, s)
  {
    s.r - s.l + 1 + Live(t, ty, a0, s.c, s.l, s.r)
  }

  // The exact matches so far have each used up a stab.
  ghost predicate CountOk(t: seq<Stab>, ty: nat, a0: nat, s: Search)
    requires Bounds(t, s)
  {
    s.c + Live(t, ty, a0, s.c, s.l, s.r) <= |t|
  }

  lemma HitCounts(t: seq<Stab>, ty: nat, a0: nat, s: Search, m: int, u: Search)
    requires TableOk(t, a0) && Bounds(t, s) && s.l <= m <= s.r && CountOk(t, ty, a0, s)
    requires t[m].ty == ty && t[m].value == Addr(a0, s.c) && u == s.(any := true, left := m, l := m, c := s.c + 1)
    ensures Measure(t, ty, a0, u) < Measure(t, ty, a0, s) && CountOk(t, ty, a0, u)
  {
    Hit(a0, s.c, t[m].value);
    LiveDrops(t, ty, a0, s.c, s.l, s.r, m, m);
  }

  lemma ShrinkCounts(t: seq<Stab>, ty: nat, a0: nat, s: Search, u: Search)
    requires Bounds(t, s) && Bounds(t, u) && CountOk(t, ty, a0, s)
    requires u.c == s.c && s.l <= u.l && u.r <= s.r && u.r - u.l < s.r - s.l
    ensures Measure(t, ty, a0, u) < Measure(t, ty, a0, s) && CountOk(t, ty, a0, u)
  {
    LiveShrinks(t, ty, a0, s.c, s.c, s.l, s.r, u.l, u.r);
  }

  /** The loop terminates on every table, sorted or not, even where addr++ wraps around: the
      interval and the matching stabs in it that lie ahead of the address get fewer. */
  lemma RoundTerminates(t: seq<Stab>, ty: nat, a0: nat, s: Search, u: Search)
    requires TableOk(t, a0) && Bounds(t, s) && s.l <= s.r && CountOk(t, ty, a0, s) && u == Round(t, ty, a0, s)
    ensures Measure(t, ty, a0, u) < Measure(t, ty, a0, s)
    ensures CountOk(t, ty, a0, u)
  {
    var m := LastMatch(t, ty, s.l, Mid(s.l, s.r));
    if m >= s.l && t[m].value == Addr(a0, s.c) {
      HitCounts(t, ty, a0, s, m, u);
    } else {
      ShrinkCounts(t, ty, a0, s, u);
    }
  }

  function Rounds(t: seq<Stab>, ty: nat, a0: nat, s: Search): (u: Search)
    requires TableOk(t, a0) && Bounds(t, s) && CountOk(t, ty, a0, s)
    ensures Bounds(t, u) && u.l > u.r && u.c >= s.c
    decreases Measure(t, ty, a0, s)
  {
    if s.l > s.r then s else RoundTerminates(t, ty, a0, s, Round(t, ty, a0, s)); Rounds(t, ty, a0, Round(t, ty, a0, s))
  }

  // The end of stab_binsearch; the loop there stops at a stab of the type or at `left`.
  function Finish(t: seq<Stab>, ty: nat, s: Search): Region
  {
    if !s.any then Region(s.left, s.left - 1)
    else Region(Descend(t, ty, s.left, s.right), s.right)
  }

  function Descend(t: seq<Stab>, ty: nat, left: int, l: int): int
    decreases l - left
  {
    if l > left && !(0 <= l < |t| && t[l].ty == ty) then Descend(t, ty, left, l - 1) else l
  }

  function Start(left: int, right: int): Search { Search(left, right, left, right, false, 0) }

  function BinSearch(t: seq<Stab>, ty: nat, a0: nat, left: int, right: int): Region
    requires TableOk(t, a0) && 0 <= left <= right + 1 <= |t|
  {
    StartOk(t, ty, a0, left, right);
    Finish(t, ty, Rounds(t, ty, a0, Start(left, right)))
  }

  lemma StartOk(t: seq<Stab>, ty: nat, a0: nat, left: int, right: int)
    requires TableOk(t, a0) && 0 <= left <= right + 1 <= |t|
    ensures CountOk(t, ty, a0, Start(left, right))
  {
  }

  // ---------------------------------------------------------------- what it finds

  predicate Match(t: seq<Stab>, ty: nat, i: int) { 0 <= i < |t| && t[i].ty == ty }

  // The stabs of the type are in order of their values.
  ghost predicate Ordered(t: seq<Stab>, ty: nat) {
    forall i, j :: Match(t, ty, i) && Match(t, ty, j) && i < j ==> t[i].value <= t[j].value
  }

  ghost predicate Present(t: seq<Stab>, ty: nat, lo: int, hi: int, v: nat) {
    exists i :: lo <= i <= hi && Match(t, ty, i) && t[i].value == v
  }

  // A stab at addr, and either the largest address or a stab at addr + 1 as well.
  ghost predicate Confusing(t: seq<Stab>, ty: nat, lo: int, hi: int, a0: nat) {
    Present(t, ty, lo, hi, a0) && (a0 + 1 == WORD || Present(t, ty, lo, hi, a0 + 1))
  }

  ghost predicate Below(t: seq<Stab>, ty: nat, lo: int, hi: int, a0: nat) {
    forall i :: lo <= i < hi && Match(t, ty, i) ==> t[i].value <= a0
  }

  ghost predicate Above(t: seq<Stab>, ty: nat, lo: int, hi: int, a0: nat) {
    forall i :: lo < i <= hi && Match(t, ty, i) ==> t[i].value > a0
  }

  ghost predicate NoMatch(t: seq<Stab>, ty: nat, lo: int, hi: int) {
    forall i :: lo <= i < hi ==> !Match(t, ty, i)
  }

  ghost predicate Inv(t: seq<Stab>, ty: nat, a0: nat, lo: int, hi: int, s: Search) {
    && Bounds(t, s) && lo <= s.l && s.r <= hi && s.c <= 1
    && (s.c == 1 ==> a0 + 1 < WORD && Present(t, ty, lo, hi, a0))
    && Below(t, ty, lo, s.l, a0) && Above(t, ty, s.r, hi, a0)
    && s.right == s.r && (s.r < hi ==> Match(t, ty, s.r + 1))
    && (!s.any ==> s.r == hi && s.c == 0 && s.left == lo && NoMatch(t, ty, lo, s.l))
    && (s.any ==> s.r < hi || Match(t, ty, s.left))
    // left is the last match before l, or the match at l just hit, or there is none yet
    && (|| (s.left == lo && NoMatch(t, ty, lo, s.l))
        || (lo <= s.left < s.l && Match(t, ty, s.left) && NoMatch(t, ty, s.left + 1, s.l))
        || (s.left == s.l <= s.r && s.c == 1 && Match(t, ty, s.l) && t[s.l].value == a0))
  }

  // No stab of the type in [l, mid].
  lemma SkipKeeps(t: seq<Stab>, ty: nat, a0: nat, lo: int, hi: int, s: Search, mid: int)
    requires 0 <= lo && hi < |t| && Inv(t, ty, a0, lo, hi, s) && s.l <= mid <= s.r
    requires forall i :: s.l <= i <= mid ==> t[i].ty != ty
    ensures Inv(t, ty, a0, lo, hi, s.(l := mid + 1))
  {
    assert forall i :: s.l <= i <= mid ==> !Match(t, ty, i);
  }

  // The last one there, at m, is below the address.
  lemma LowKeeps(t: seq<Stab>, ty: nat, a0: nat, lo: int, hi: int, s: Search, mid: int, m: int)
    requires 0 <= lo && hi < |t| && Inv(t, ty, a0, lo, hi, s) && s.l <= m <= mid <= s.r && Ordered(t, ty)
    requires Match(t, ty, m) && t[m].value <= a0 && forall i :: m < i <= mid ==> t[i].ty != ty
    ensures Inv(t, ty, a0, lo, hi, s.(any := true, left := m, l := mid + 1))
  {
    assert forall i :: m < i <= mid ==> !Match(t, ty, i);
    assert Below(t, ty, lo, mid + 1, a0);
  }

  // It is above the address.
  lemma HighKeeps(t: seq<Stab>, ty: nat, a0: nat, lo: int, hi: int, s: Search, m: int)
    requires 0 <= lo && hi < |t| && Inv(t, ty, a0, lo, hi, s) && s.l <= m <= s.r && Ordered(t, ty)
    requires Match(t, ty, m) && t[m].value > a0
    ensures Inv(t, ty, a0, lo, hi, s.(any := true, right := m - 1, r := m - 1))
  {
    assert Above(t, ty, m - 1, hi, a0);
  }

  // It is at the address.
  lemma HitKeeps(t: seq<Stab>, ty: nat, a0: nat, lo: int, hi: int, s: Search, m: int)
    requires 0 <= lo && hi < |t| && Inv(t, ty, a0, lo, hi, s) && s.l <= m <= s.r && Ordered(t, ty)
    requires Match(t, ty, m) && t[m].value == a0 && s.c == 0 && a0 + 1 < WORD
    ensures Inv(t, ty, a0, lo, hi, s.(any := true, left := m, l := m, c := 1))
  {
    assert Present(t, ty, lo, hi, a0);
    assert Below(t, ty, lo, m, a0);
  }

  // The address has been met at most once, and was not the largest.
  ghost predicate Calm(a0: nat, s: Search) { s.c <= 1 && (s.c == 1 ==> a0 + 1 < WORD) }

  lemma RoundKeeps(t: seq<Stab>, ty: nat, a0: nat, lo: int, hi: int, s: Search, u: Search)
    requires TableOk(t, a0) && 0 <= lo && hi < |t| && Inv(t, ty, a0, lo, hi, s) && s.l <= s.r
    requires Ordered(t, ty) && u == Round(t, ty, a0, s) && Calm(a0, u)
    ensures Inv(t, ty, a0, lo, hi, u)
  {
    var mid := Mid(s.l, s.r);
    var m := LastMatch(t, ty, s.l, mid);
    if m < s.l {
      SkipKeeps(t, ty, a0, lo, hi, s, mid);
    } else {
      FoundKeeps(t, ty, a0, lo, hi, s, mid, m, u);
    }
  }

  lemma FoundKeeps(t: seq<Stab>, ty: nat, a0: nat, lo: int, hi: int, s: Search, mid: int, m: int, u: Search)
    requires TableOk(t, a0) && 0 <= lo && hi < |t| && Inv(t, ty, a0, lo, hi, s) && Ordered(t, ty) && Calm(a0, u)
    requires s.l <= m <= mid <= s.r && Match(t, ty, m) && forall i :: m < i <= mid ==> t[i].ty != ty
    requires u == if t[m].value < Addr(a0, s.c) then s.(any := true, left := m, l := mid + 1)
                  else if t[m].value > Addr(a0, s.c) then s.(any := true, right := m - 1, r := m - 1)
                  else s.(any := true, left := m, l := m, c := s.c + 1)
    ensures Inv(t, ty, a0, lo, hi, u)
  {
    NoWrapYet(t, ty, a0, lo, hi, s);
    if t[m].value < a0 + s.c {
      LowKeeps(t, ty, a0, lo, hi, s, mid, m);
    } else if t[m].value > a0 + s.c {
      HighKeeps(t, ty, a0, lo, hi, s, m);
    } else {
      HitKeeps(t, ty, a0, lo, hi, s, m);
    }
  }

  lemma NoWrapYet(t: seq<Stab>, ty: nat, a0: nat, lo: int, hi: int, s: Search)
    requires TableOk(t, a0) && Inv(t, ty, a0, lo, hi, s)
    ensures Addr(a0, s.c) == a0 + s.c
  {
  }

  lemma {:induction false} RoundsKeep(t: seq<Stab>, ty: nat, a0: nat, lo: int, hi: int, s: Search)
    requires TableOk(t, a0) && 0 <= lo && hi < |t| && Inv(t, ty, a0, lo, hi, s) && CountOk(t, ty, a0, s)
    requires Ordered(t, ty) && Calm(a0, Rounds(t, ty, a0, s))
    ensures Inv(t, ty, a0, lo, hi, Rounds(t, ty, a0, s))
    decreases Measure(t, ty, a0, s)
  {
    if s.l <= s.r {
      var u := Round(t, ty, a0, s);
      RoundTerminates(t, ty, a0, s, u);
      RoundKeeps(t, ty, a0, lo, hi, s, u);
      RoundsKeep(t, ty, a0, lo, hi, u);
    }
  }

  // A second hit, or one at the largest address, needs the stabs that Confusing names.
  lemma {:induction false} StaysCalm(t: seq<Stab>, ty: nat, a0: nat, lo: int, hi: int, s: Search)
    requires TableOk(t, a0) && 0 <= lo && hi < |t| && Inv(t, ty, a0, lo, hi, s) && CountOk(t, ty, a0, s)
    requires Ordered(t, ty) && !Confusing(t, ty, lo, hi, a0)
    ensures Calm(a0, Rounds(t, ty, a0, s))
    decreases Measure(t, ty, a0, s)
  {
    if s.l <= s.r {
      var u := Round(t, ty, a0, s);
      RoundTerminates(t, ty, a0, s, u);
      CalmRound(t, ty, a0, lo, hi, s, u);
      RoundKeeps(t, ty, a0, lo, hi, s, u);
      StaysCalm(t, ty, a0, lo, hi, u);
    }
  }

  lemma CalmRound(t: seq<Stab>, ty: nat, a0: nat, lo: int, hi: int, s: Search, u: Search)
    requires TableOk(t, a0) && 0 <= lo && hi < |t| && Inv(t, ty, a0, lo, hi, s) && s.l <= s.r
    requires !Confusing(t, ty, lo, hi, a0) && u == Round(t, ty, a0, s)
    ensures Calm(a0, u)
  {
    var m := LastMatch(t, ty, s.l, Mid(s.l, s.r));
    if m >= s.l && t[m].value == Addr(a0, s.c) {
      assert t[m].value == a0 ==> Present(t, ty, lo, hi, a0);
      assert t[m].value == a0 + 1 ==> Present(t, ty, lo, hi, a0 + 1);
    }
  }

  lemma {:induction false} DescendTo(t: seq<Stab>, ty: nat, left: int, l: int, k: int)
    requires l < |t| && left <= k <= l && NoMatch(t, ty, k + 1, l + 1) && (k == left || Match(t, ty, k)) && left >= 0
    ensures Descend(t, ty, left, l) == k
    decreases l - k
  {
    if l > k {
      assert !Match(t, ty, l);
      DescendTo(t, ty, left, l - 1, k);
    }
  }

  // A region that brackets a0 as the comment of stab_binsearch promises.
  ghost predicate Brackets(t: seq<Stab>, ty: nat, a0: nat, lo: int, hi: int, g: Region) {
    if NoMatch(t, ty, lo, hi + 1) then g == Region(lo, lo - 1)
    else
      && lo - 1 <= g.right <= hi && (g.right < hi ==> Match(t, ty, g.right + 1))
      && Below(t, ty, lo, g.right + 1, a0) && Above(t, ty, g.right, hi, a0)
      && if NoMatch(t, ty, lo, g.right + 1) then g.left == if g.right >= lo then lo else g.right
         else lo <= g.left <= g.right && Match(t, ty, g.left) && NoMatch(t, ty, g.left + 1, g.right + 1)
  }

  // How often the search meets the address it looks for, which goes up by one each time.
  function Hits(t: seq<Stab>, ty: nat, a0: nat, lo: int, hi: int): nat
    requires TableOk(t, a0) && 0 <= lo <= hi + 1 <= |t|
  {
    StartOk(t, ty, a0, lo, hi);
    Rounds(t, ty, a0, Start(lo, hi)).c
  }

  lemma CalmBrackets(t: seq<Stab>, ty: nat, a0: nat, lo: int, hi: int)
    requires TableOk(t, a0) && 0 <= lo <= hi + 1 <= |t| && Ordered(t, ty)
    requires Hits(t, ty, a0, lo, hi) <= 1 && (Hits(t, ty, a0, lo, hi) == 1 ==> a0 + 1 < WORD)
    ensures Brackets(t, ty, a0, lo, hi, BinSearch(t, ty, a0, lo, hi))
  {
    StartOk(t, ty, a0, lo, hi);
    RoundsKeep(t, ty, a0, lo, hi, Start(lo, hi));
    var s := Rounds(t, ty, a0, Start(lo, hi));
    assert s.l == s.r + 1;
    if s.any {
      if s.r >= s.left {
        DescendTo(t, ty, s.left, s.right, s.left);
      }
    }
  }

  /** On a table in order, the left end is the last stab of the type at or below addr and the
      right end lies just before the next one; if every stab of the type is above addr, the
      right end lies just before the first.  All that is needed is that no stab at addr is
      followed by one at addr + 1, or sits at the largest address. */
  lemma SearchBrackets(t: seq<Stab>, ty: nat, a0: nat, lo: int, hi: int)
    requires TableOk(t, a0) && 0 <= lo <= hi + 1 <= |t| && Ordered(t, ty) && !Confusing(t, ty, lo, hi, a0)
    ensures Brackets(t, ty, a0, lo, hi, BinSearch(t, ty, a0, lo, hi))
  {
    StartOk(t, ty, a0, lo, hi);
    StaysCalm(t, ty, a0, lo, hi, Start(lo, hi));
    CalmBrackets(t, ty, a0, lo, hi);
  }

  // ---------------------------------------------------------------- exactly when it fails

  // A stab at a0 + 1 has been met, and stays inside what the search will return.
  ghost predicate Overshot(t: seq<Stab>, ty: nat, a0: nat, lo: int, s: Search) {
    && s.any && s.right == s.r && s.c >= 2
    && exists m :: lo <= m <= s.r && Match(t, ty, m) && t[m].value == a0 + 1 && m <= s.l && (a0 + s.c >= WORD ==> m < s.l)
  }

  lemma OvershotKeeps(t: seq<Stab>, ty: nat, a0: nat, lo: int, s: Search, u: Search)
    requires TableOk(t, a0) && a0 + 2 < WORD && Bounds(t, s) && s.l <= s.r && s.c <= |t| && u == Round(t, ty, a0, s)
    requires Overshot(t, ty, a0, lo, s)
    ensures Overshot(t, ty, a0, lo, u)
  {
    var m :| lo <= m <= s.r && Match(t, ty, m) && t[m].value == a0 + 1 && m <= s.l && (a0 + s.c >= WORD ==> m < s.l);
    assert a0 + s.c < WORD ==> Addr(a0, s.c) == a0 + s.c;
    assert m <= u.r && m <= u.l && (a0 + u.c >= WORD ==> m < u.l);
  }

  lemma {:induction false} OvershotStays(t: seq<Stab>, ty: nat, a0: nat, lo: int, s: Search)
    requires TableOk(t, a0) && a0 + 2 < WORD && Bounds(t, s) && CountOk(t, ty, a0, s) && Overshot(t, ty, a0, lo, s)
    ensures Overshot(t, ty, a0, lo, Rounds(t, ty, a0, s))
    decreases Measure(t, ty, a0, s)
  {
    if s.l <= s.r {
      var u := Round(t, ty, a0, s);
      RoundTerminates(t, ty, a0, s, u);
      OvershotKeeps(t, ty, a0, lo, s, u);
      OvershotStays(t, ty, a0, lo, u);
    }
  }

  lemma SecondHitNow(t: seq<Stab>, ty: nat, a0: nat, lo: int, s: Search, u: Search)
    requires TableOk(t, a0) && a0 + 2 < WORD && Bounds(t, s) && s.l <= s.r && lo <= s.l && s.right == s.r
    requires u == Round(t, ty, a0, s) && s.c <= 1 && u.c >= 2
    ensures Overshot(t, ty, a0, lo, u)
  {
    assert Addr(a0, 1) == a0 + 1;
    assert Match(t, ty, u.left) && t[u.left].value == a0 + 1;
  }

  lemma {:induction false} SecondHit(t: seq<Stab>, ty: nat, a0: nat, lo: int, s: Search)
    requires TableOk(t, a0) && a0 + 2 < WORD && Bounds(t, s) && CountOk(t, ty, a0, s)
    requires lo <= s.l && s.right == s.r && s.c <= 1 && Rounds(t, ty, a0, s).c >= 2
    ensures Overshot(t, ty, a0, lo, Rounds(t, ty, a0, s))
    decreases Measure(t, ty, a0, s)
  {
    if s.l <= s.r {
      var u := Round(t, ty, a0, s);
      RoundTerminates(t, ty, a0, s, u);
      if u.c <= 1 {
        SecondHit(t, ty, a0, lo, u);
      } else {
        SecondHitNow(t, ty, a0, lo, s, u);
        OvershotStays(t, ty, a0, lo, u);
      }
    }
  }

  /** Exactly: below the last two addresses, the region is right if and only if the search meets
      its address at most once.  Of a stab at addr and one at addr + 1, it depends on the
      places of all the others which is probed first, and so whether that happens. */
  lemma SearchBracketsExactly(t: seq<Stab>, ty: nat, a0: nat, lo: int, hi: int)
    requires TableOk(t, a0) && a0 + 2 < WORD && 0 <= lo <= hi + 1 <= |t| && Ordered(t, ty)
    ensures Brackets(t, ty, a0, lo, hi, BinSearch(t, ty, a0, lo, hi)) <==> Hits(t, ty, a0, lo, hi) <= 1
  {
    if Hits(t, ty, a0, lo, hi) <= 1 {
      CalmBrackets(t, ty, a0, lo, hi);
    } else {
      StartOk(t, ty, a0, lo, hi);
      SecondHit(t, ty, a0, lo, Start(lo, hi));
      var s := Rounds(t, ty, a0, Start(lo, hi));
      var m :| lo <= m <= s.r && Match(t, ty, m) && t[m].value == a0 + 1;
      InRange(t, ty, a0, lo, hi, Start(lo, hi));
      assert !NoMatch(t, ty, lo, hi + 1) && !Below(t, ty, lo, s.right + 1, a0);
    }
  }

  lemma {:induction false} InRange(t: seq<Stab>, ty: nat, a0: nat, lo: int, hi: int, s: Search)
    requires TableOk(t, a0) && Bounds(t, s) && CountOk(t, ty, a0, s) && s.r <= hi
    ensures Rounds(t, ty, a0, s).r <= hi
    decreases Measure(t, ty, a0, s)
  {
    if s.l <= s.r {
      RoundTerminates(t, ty, a0, s, Round(t, ty, a0, s));
      InRange(t, ty, a0, lo, hi, Round(t, ty, a0, s));
    }
  }

  // Looking for the largest address: a stab at it lies ahead, or has been met and is being
  // dropped, because the address has wrapped to 0.
  ghost predicate AtTheTop(t: seq<Stab>, ty: nat, a0: nat, hi: int, s: Search) {
    && s.r <= hi && s.right == s.r
    && if s.c == 0 then exists i :: s.l <= i <= s.r && Match(t, ty, i) && t[i].value == a0
       else s.c == 1 && s.any && s.l <= hi && Match(t, ty, s.l) && t[s.l].value == a0
  }

  lemma TopRound(t: seq<Stab>, ty: nat, a0: nat, hi: int, s: Search, u: Search)
    requires TableOk(t, a0) && a0 + 1 == WORD && Ordered(t, ty) && Bounds(t, s) && s.l <= s.r && hi < |t|
    requires AtTheTop(t, ty, a0, hi, s) && u == Round(t, ty, a0, s)
    ensures AtTheTop(t, ty, a0, hi, u)
  {
    var mid := Mid(s.l, s.r);
    var m := LastMatch(t, ty, s.l, mid);
    if s.c == 0 {
      var i :| s.l <= i <= s.r && Match(t, ty, i) && t[i].value == a0;
      assert m >= s.l ==> Match(t, ty, m) && t[m].value <= a0;
      if u.c == 0 {
        assert u.l <= i <= u.r;
      }
    } else {
      assert Match(t, ty, m) && t[m].value >= a0 && Addr(a0, 1) == 0;
    }
  }

  lemma {:induction false} TopRounds(t: seq<Stab>, ty: nat, a0: nat, hi: int, s: Search)
    requires TableOk(t, a0) && a0 + 1 == WORD && Ordered(t, ty) && Bounds(t, s) && hi < |t|
    requires CountOk(t, ty, a0, s) && AtTheTop(t, ty, a0, hi, s)
    ensures AtTheTop(t, ty, a0, hi, Rounds(t, ty, a0, s))
    decreases Measure(t, ty, a0, s)
  {
    if s.l <= s.r {
      var u := Round(t, ty, a0, s);
      RoundTerminates(t, ty, a0, s, u);
      TopRound(t, ty, a0, hi, s, u);
      TopRounds(t, ty, a0, hi, u);
    }
  }

  /** At the largest address, exactly: the region is right if and only if no stab is there. */
  lemma LargestAddressExactly(t: seq<Stab>, ty: nat, a0: nat, lo: int, hi: int)
    requires TableOk(t, a0) && a0 + 1 == WORD && 0 <= lo <= hi + 1 <= |t| && Ordered(t, ty)
    ensures Brackets(t, ty, a0, lo, hi, BinSearch(t, ty, a0, lo, hi)) <==> !Present(t, ty, lo, hi, a0)
  {
    if Present(t, ty, lo, hi, a0) {
      StartOk(t, ty, a0, lo, hi);
      TopRounds(t, ty, a0, hi, Start(lo, hi));
      var s := Rounds(t, ty, a0, Start(lo, hi));
      assert s.right < s.l <= hi && !Above(t, ty, s.right, hi, a0);
      assert !NoMatch(t, ty, lo, hi + 1);
    } else {
      SearchBrackets(t, ty, a0, lo, hi);
    }
  }

  lemma Unroll(t: seq<Stab>, ty: nat, a0: nat, s: Search, u: Search)
    requires TableOk(t, a0) && Bounds(t, s) && CountOk(t, ty, a0, s) && s.l <= s.r && u == Round(t, ty, a0, s)
    ensures CountOk(t, ty, a0, u) && Rounds(t, ty, a0, s) == Rounds(t, ty, a0, u)
  {
    RoundTerminates(t, ty, a0, s, u);
  }

  // ---------------------------------------------------------------- a condition on the table

  // A stab and the right end of an interval.
  datatype Place = Nowhere | At(m: int, r: int)

  // One probe of the textbook bisection for value v among the stabs of the type: the half that is
  // left, or the stab with that value.
  datatype Turn = On(l: int, r: int) | Stop(m: int)

  function Probed(t: seq<Stab>, ty: nat, v: nat, l: int, r: int): (p: Turn)
    requires 0 <= l <= r < |t|
    ensures p.On? ==> l <= p.l && p.l - 1 <= p.r <= r && p.r - p.l < r - l
    ensures p.Stop? ==> l <= p.m <= r && Match(t, ty, p.m) && t[p.m].value == v
  {
    var mid := Mid(l, r);
    var m := LastMatch(t, ty, l, mid);
    if m < l || t[m].value < v then On(mid + 1, r) else if t[m].value > v then On(l, m - 1) else Stop(m)
  }

  // The first stab with value v that it probes, and the right end of the interval then.
  function Meet(t: seq<Stab>, ty: nat, v: nat, l: int, r: int): (g: Place)
    requires 0 <= l && l - 1 <= r < |t|
    ensures g.At? ==> l <= g.m <= g.r <= r && Match(t, ty, g.m) && t[g.m].value == v
    decreases r - l + 1
  {
    if l > r then Nowhere
    else match Probed(t, ty, v, l, r)
      case On(a, b) => Meet(t, ty, v, a, b)
      case Stop(m) => At(m, r)
  }

  // On a table in order no half that is dropped holds such a stab.
  lemma ProbeKeeps(t: seq<Stab>, ty: nat, v: nat, l: int, r: int, i: int, p: Turn)
    requires 0 <= l <= i <= r < |t| && Ordered(t, ty) && Match(t, ty, i) && t[i].value == v && p == Probed(t, ty, v, l, r)
    ensures p.On? ==> p.l <= i <= p.r
  {
    var m := LastMatch(t, ty, l, Mid(l, r));
    assert m >= l ==> Match(t, ty, m);
  }

  lemma {:induction false} MeetsStab(t: seq<Stab>, ty: nat, v: nat, l: int, r: int, i: int)
    requires 0 <= l <= i <= r < |t| && Ordered(t, ty) && Match(t, ty, i) && t[i].value == v
    ensures Meet(t, ty, v, l, r).At?
    decreases r - l + 1
  {
    var p := Probed(t, ty, v, l, r);
    ProbeKeeps(t, ty, v, l, r, i, p);
    MeetOn(t, ty, v, l, r, p);
    if p.On? {
      MeetsStab(t, ty, v, p.l, p.r, i);
    }
  }

  lemma MeetOn(t: seq<Stab>, ty: nat, v: nat, l: int, r: int, p: Turn)
    requires 0 <= l <= r < |t| && p == Probed(t, ty, v, l, r)
    ensures Meet(t, ty, v, l, r) == if p.On? then Meet(t, ty, v, p.l, p.r) else At(p.m, r)
  {
  }

  lemma MeetsPresent(t: seq<Stab>, ty: nat, v: nat, l: int, r: int)
    requires 0 <= l && l - 1 <= r < |t| && Ordered(t, ty)
    ensures Meet(t, ty, v, l, r).At? <==> Present(t, ty, l, r, v)
  {
    if i :| l <= i <= r && Match(t, ty, i) && t[i].value == v {
      MeetsStab(t, ty, v, l, r, i);
    }
  }

  // The state after the search has met its address at m.
  function Met(m: int, r: int, c: nat): Search { Search(m, r, m, r, true, c) }

  // A round of the search is a probe.
  lemma RoundProbes(t: seq<Stab>, ty: nat, a0: nat, s: Search, u: Search, p: Turn)
    requires Bounds(t, s) && s.l <= s.r && s.right == s.r && u == Round(t, ty, a0, s)
    requires p == Probed(t, ty, Addr(a0, s.c), s.l, s.r)
    ensures u.right == u.r && (u.c == s.c <==> p.On?) && (p.On? ==> u.l == p.l && u.r == p.r)
    ensures p.Stop? ==> u == Met(p.m, s.r, s.c + 1)
  {
  }

  // A search that has met its address c times so far, and ends in `end`, next meets it there.
  ghost predicate Meeting(t: seq<Stab>, ty: nat, a0: nat, c: nat, end: Search, g: Place)
    requires TableOk(t, a0)
  {
    match g
    case Nowhere => end.c == c
    case At(m, r) =>
      var u := Met(m, r, c + 1);
      Bounds(t, u) && CountOk(t, ty, a0, u) && end == Rounds(t, ty, a0, u)
  }

  // From one meeting to the next the search is that bisection.
  lemma {:induction false} NextMeeting(t: seq<Stab>, ty: nat, a0: nat, s: Search, v: nat, end: Search, g: Place)
    requires TableOk(t, a0) && Bounds(t, s) && CountOk(t, ty, a0, s) && s.right == s.r && end == Rounds(t, ty, a0, s)
    requires v == Addr(a0, s.c) && g == Meet(t, ty, v, s.l, s.r)
    ensures Meeting(t, ty, a0, s.c, end, g)
    decreases Measure(t, ty, a0, s)
  {
    if s.l <= s.r {
      var u := Round(t, ty, a0, s);
      Unroll(t, ty, a0, s, u);
      assert Measure(t, ty, a0, u) < Measure(t, ty, a0, s) by { RoundTerminates(t, ty, a0, s, u); }
      var p := Probed(t, ty, v, s.l, s.r);
      RoundProbes(t, ty, a0, s, u, p);
      MeetOn(t, ty, v, s.l, s.r, p);
      if p.On? {
        NextMeeting(t, ty, a0, u, v, end, g);
      }
    }
  }

  lemma DrainStep(t: seq<Stab>, ty: nat, a0: nat, s: Search, m: int, u: Search)
    requires TableOk(t, a0) && Bounds(t, s) && Ordered(t, ty) && Addr(a0, s.c) == 0
    requires s == Met(m, s.r, s.c) && m <= s.r && Match(t, ty, m) && t[m].value > 0 && u == Round(t, ty, a0, s)
    ensures u == Met(m, u.r, s.c) && m <= u.r + 1
  {
    var n := LastMatch(t, ty, s.l, Mid(s.l, s.r));
    assert n >= m && Match(t, ty, n);
  }

  // Once the address has wrapped to 0 every stab of the type is above it.
  lemma {:induction false} Drained(t: seq<Stab>, ty: nat, a0: nat, s: Search, m: int)
    requires TableOk(t, a0) && Bounds(t, s) && CountOk(t, ty, a0, s) && Ordered(t, ty) && Addr(a0, s.c) == 0
    requires s == Met(m, s.r, s.c) && m <= s.r + 1 && Match(t, ty, m) && t[m].value > 0
    ensures Rounds(t, ty, a0, s) == Met(m, m - 1, s.c)
    decreases Measure(t, ty, a0, s)
  {
    if s.l <= s.r {
      var u := Round(t, ty, a0, s);
      Unroll(t, ty, a0, s, u);
      RoundTerminates(t, ty, a0, s, u);
      DrainStep(t, ty, a0, s, m, u);
      Drained(t, ty, a0, u, m);
    }
  }

  // Where the bisection for addr meets it and a stab at addr + 1 is still to the right, the one
  // that the bisection for addr + 1 meets from there.
  function Overshoot(t: seq<Stab>, ty: nat, a0: nat, lo: int, hi: int): (g: Place)
    requires 0 <= lo <= hi + 1 <= |t|
    ensures g.At? ==> lo <= g.m <= g.r <= hi && Match(t, ty, g.m) && t[g.m].value == a0 + 1
  {
    match Meet(t, ty, a0, lo, hi)
    case Nowhere => Nowhere
    case At(m, r) => Meet(t, ty, a0 + 1, m, r)
  }

  /** There is an overshoot exactly if the table has a stab at addr + 1 that is not yet cut off
      when the bisection first probes one at addr. */
  lemma OvershootMeans(t: seq<Stab>, ty: nat, a0: nat, lo: int, hi: int)
    requires 0 <= lo <= hi + 1 <= |t| && Ordered(t, ty)
    ensures Overshoot(t, ty, a0, lo, hi).At? <==>
              var g := Meet(t, ty, a0, lo, hi);
              g.At? && Present(t, ty, g.m, g.r, a0 + 1)
  {
    var g := Meet(t, ty, a0, lo, hi);
    if g.At? {
      MeetsPresent(t, ty, a0 + 1, g.m, g.r);
    }
  }

  // The search meets its address again at n and goes on from there.
  ghost predicate MeetsAgain(t: seq<Stab>, ty: nat, a0: nat, lo: int, hi: int, n: int, r: int)
    requires TableOk(t, a0) && 0 <= lo <= hi + 1 <= |t| && CountOk(t, ty, a0, Start(lo, hi))
  {
    && Bounds(t, Met(n, r, 2)) && CountOk(t, ty, a0, Met(n, r, 2))
    && Rounds(t, ty, a0, Start(lo, hi)) == Rounds(t, ty, a0, Met(n, r, 2))
  }

  lemma OvershootHits(t: seq<Stab>, ty: nat, a0: nat, lo: int, hi: int, g: Place)
    requires TableOk(t, a0) && 0 <= lo <= hi + 1 <= |t| && a0 + 1 < WORD && g == Overshoot(t, ty, a0, lo, hi)
    ensures CountOk(t, ty, a0, Start(lo, hi)) && (g.At? <==> Hits(t, ty, a0, lo, hi) >= 2)
    ensures g.At? ==> MeetsAgain(t, ty, a0, lo, hi, g.m, g.r)
  {
    StartOk(t, ty, a0, lo, hi);
    var first := Meet(t, ty, a0, lo, hi);
    var end := Rounds(t, ty, a0, Start(lo, hi));
    FirstMeeting(t, ty, a0, lo, hi, end, first);
    if first.At? {
      SecondMeeting(t, ty, a0, first.m, first.r, end, g);
    }
  }

  lemma FirstMeeting(t: seq<Stab>, ty: nat, a0: nat, lo: int, hi: int, end: Search, g: Place)
    requires TableOk(t, a0) && 0 <= lo <= hi + 1 <= |t| && CountOk(t, ty, a0, Start(lo, hi)) && g == Meet(t, ty, a0, lo, hi)
    requires end == Rounds(t, ty, a0, Start(lo, hi))
    ensures Meeting(t, ty, a0, 0, end, g)
  {
    assert Addr(a0, 0) == a0;
    NextMeeting(t, ty, a0, Start(lo, hi), a0, end, g);
  }

  lemma SecondMeeting(t: seq<Stab>, ty: nat, a0: nat, m: int, r: int, end: Search, g: Place)
    requires TableOk(t, a0) && Bounds(t, Met(m, r, 1)) && CountOk(t, ty, a0, Met(m, r, 1)) && a0 + 1 < WORD
    requires g == Meet(t, ty, a0 + 1, m, r) && end == Rounds(t, ty, a0, Met(m, r, 1))
    ensures Meeting(t, ty, a0, 1, end, g)
  {
    assert Addr(a0, 1) == a0 + 1;
    NextMeeting(t, ty, a0, Met(m, r, 1), a0 + 1, end, g);
  }

  // With its second meeting at the largest address, the search ends just before that stab, which
  // is right after all if the stab before it is one at addr.
  predicate WrapsBack(t: seq<Stab>, ty: nat, a0: nat, n: int) {
    a0 + 2 == WORD && Match(t, ty, n - 1) && t[n - 1].value == a0
  }

  lemma WrappedRegion(t: seq<Stab>, ty: nat, a0: nat, lo: int, hi: int, n: int, r: int)
    requires TableOk(t, a0) && 0 <= lo <= hi + 1 <= |t| && Ordered(t, ty) && a0 + 2 == WORD
    requires Overshoot(t, ty, a0, lo, hi) == At(n, r)
    ensures BinSearch(t, ty, a0, lo, hi) == Region(n - 1, n - 1)
  {
    OvershootHits(t, ty, a0, lo, hi, At(n, r));
    Drained(t, ty, a0, Met(n, r, 2), n);
  }

  lemma WrappedBrackets(t: seq<Stab>, ty: nat, a0: nat, lo: int, hi: int, n: int, i: int)
    requires TableOk(t, a0) && 0 <= lo <= i <= n <= hi < |t| && Ordered(t, ty) && a0 + 2 == WORD
    requires Match(t, ty, i) && t[i].value == a0 && Match(t, ty, n) && t[n].value == a0 + 1
    ensures Brackets(t, ty, a0, lo, hi, Region(n - 1, n - 1)) <==> WrapsBack(t, ty, a0, n)
  {
    assert i < n && !NoMatch(t, ty, lo, n) && !NoMatch(t, ty, lo, hi + 1);
    assert NoMatch(t, ty, n, n);
    assert Match(t, ty, n - 1) ==> t[i].value <= t[n - 1].value;
    assert Above(t, ty, n - 1, hi, a0);
  }

  /** Exactly, at every address and in terms of the table alone: the region is right if and only
      if there is no overshoot, or it wraps back; and at the largest address, if no stab is there. */
  lemma SearchRight(t: seq<Stab>, ty: nat, a0: nat, lo: int, hi: int)
    requires TableOk(t, a0) && 0 <= lo <= hi + 1 <= |t| && Ordered(t, ty)
    ensures Brackets(t, ty, a0, lo, hi, BinSearch(t, ty, a0, lo, hi)) <==>
              if a0 + 1 == WORD then !Present(t, ty, lo, hi, a0)
              else var g := Overshoot(t, ty, a0, lo, hi); g.Nowhere? || WrapsBack(t, ty, a0, g.m)
  {
    if a0 + 1 == WORD {
      LargestAddressExactly(t, ty, a0, lo, hi);
    } else {
      var g := Overshoot(t, ty, a0, lo, hi);
      OvershootHits(t, ty, a0, lo, hi, g);
      if g.Nowhere? {
        CalmBrackets(t, ty, a0, lo, hi);
      } else if a0 + 2 == WORD {
        WrappedRegion(t, ty, a0, lo, hi, g.m, g.r);
        WrappedBrackets(t, ty, a0, lo, hi, g.m, Meet(t, ty, a0, lo, hi).m);
      } else {
        SearchBracketsExactly(t, ty, a0, lo, hi);
      }
    }
  }

  /** With stabs at 10 and 11, the search for 10 ends at 11. */
  lemma ConsecutiveAddresses(t: seq<Stab>)
    requires t == [Stab(1, 10), Stab(1, 11)]
    ensures BinSearch(t, 1, 10, 0, 1) == Region(1, 1) && !Brackets(t, 1, 10, 0, 1, Region(1, 1))
  {
    StartOk(t, 1, 10, 0, 1);
    Unroll(t, 1, 10, Start(0, 1), Search(0, 1, 0, 1, true, 1));
    Unroll(t, 1, 10, Search(0, 1, 0, 1, true, 1), Search(1, 1, 0, 1, true, 1));
    Unroll(t, 1, 10, Search(1, 1, 0, 1, true, 1), Search(1, 1, 1, 1, true, 2));
    Unroll(t, 1, 10, Search(1, 1, 1, 1, true, 2), Search(2, 1, 1, 1, true, 2));
    assert Match(t, 1, 1) && Match(t, 1, 0);
  }

  /** With a stab at the largest address, the search for it wraps around and finds nothing. */
  lemma LargestAddress(t: seq<Stab>)
    requires t == [Stab(1, 0xFFFF_FFFF)]
    ensures BinSearch(t, 1, 0xFFFF_FFFF, 0, 0) == Region(-1, -1) && !Brackets(t, 1, 0xFFFF_FFFF, 0, 0, Region(-1, -1))
  {
    StartOk(t, 1, 0xFFFF_FFFF, 0, 0);
    Unroll(t, 1, 0xFFFF_FFFF, Start(0, 0), Search(0, 0, 0, 0, true, 1));
    Unroll(t, 1, 0xFFFF_FFFF, Search(0, 0, 0, 0, true, 1), Search(0, -1, 0, -1, true, 1));
    assert Match(t, 1, 0);
  }

  // ---------------------------------------------------------------- the code

  // The body of the loop, on its variables.
  method Probe(t: seq<Stab>, ty: nat, a0: nat, s: Search) returns (u: Search)
    requires TableOk(t, a0) && Bounds(t, s) && s.l <= s.r
    ensures u == Round(t, ty, a0, s)
  {
    var addr := Addr(a0, s.c);
    var trueM := (s.l + s.r) / 2;
    var m := trueM;
    while m >= s.l && t[m].ty != ty
      invariant s.l - 1 <= m <= trueM && LastMatch(t, ty, s.l, m) == LastMatch(t, ty, s.l, trueM)
    {
      m := m - 1;
    }
    if m < s.l {
      return s.(l := trueM + 1);
    }
    u := s.(any := true);
    if t[m].value < addr {
      u := u.(left := m, l := trueM + 1);
    } else if t[m].value > addr {
      u := u.(right := m - 1, r := m - 1);
    } else {
      u := u.(left := m, l := m, c := s.c + 1);
    }
  }

  // The loop from s on ends in `goal`.
  ghost predicate EndsIn(t: seq<Stab>, ty: nat, a0: nat, s: Search, goal: Search) {
    TableOk(t, a0) && Bounds(t, s) && CountOk(t, ty, a0, s) && Rounds(t, ty, a0, s) == goal && s.right < |t|
  }

  lemma EndsStep(t: seq<Stab>, ty: nat, a0: nat, s: Search, u: Search, goal: Search)
    requires EndsIn(t, ty, a0, s, goal) && s.l <= s.r && u == Round(t, ty, a0, s)
    ensures EndsIn(t, ty, a0, u, goal) && Measure(t, ty, a0, u) < Measure(t, ty, a0, s)
  {
    RoundTerminates(t, ty, a0, s, u);
  }

  /** stab_binsearch, with *region_left and *region_right returned. */
  method StabBinsearch(t: seq<Stab>, left: int, right: int, ty: nat, addr: nat) returns (regionLeft: int, regionRight: int)
    requires TableOk(t, addr) && 0 <= left <= right + 1 <= |t|
    ensures Region(regionLeft, regionRight) == BinSearch(t, ty, addr, left, right)
  {
    StartOk(t, ty, addr, left, right);
    var s := Start(left, right);
    ghost var goal := Rounds(t, ty, addr, s);
    while s.l <= s.r
      invariant EndsIn(t, ty, addr, s, goal) && s.left >= 0
      decreases Measure(t, ty, addr, s)
    {
      var u := Probe(t, ty, addr, s);
      EndsStep(t, ty, addr, s, u, goal);
      s := u;
    }
    regionLeft, regionRight := s.left, s.right;
    if !s.any {
      regionRight := regionLeft - 1;
    } else {
      regionLeft := Rightmost(t, ty, regionLeft, regionRight);
    }
  }

  // The loop at the end of stab_binsearch.
  method Rightmost(t: seq<Stab>, ty: nat, left: int, right: int) returns (l: int)
    requires left >= 0 && right < |t|
    ensures l == Descend(t, ty, left, right)
  {
    l := right;
    while l > left && t[l].ty != ty
      invariant l < |t| && Descend(t, ty, left, l) == Descend(t, ty, left, right)
      decreases l - left
    {
      l := l - 1;
    }
  }
}
