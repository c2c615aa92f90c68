/** What the sieve of fork/ computes: chains of filters over a list of numbers. */
module Primes {
  function Range(lo: int, hi: int): (s: seq<int>)
    ensures |s| == if lo <= hi then hi - lo else 0
    decreases hi - lo
  {
    if lo >= hi then [] else Range(lo, hi - 1) + [hi - 1]
  }

  // The numbers of s that a stage with prime p passes on.
  function Filter(p: int, s: seq<int>): (r: seq<int>)
    requires p > 0
    ensures |r| <= |s|
    decreases |s|
  {
    if s == [] then []
    else Filter(p, s[..|s| - 1]) + if s[|s| - 1] % p != 0 then [s[|s| - 1]] else []
  }

  predicate Positive(s: seq<int>) { forall i :: 0 <= i < |s| ==> s[i] > 0 }

  lemma {:induction false} FilterPositive(p: int, s: seq<int>)
    requires p > 0 && Positive(s)
    ensures Positive(Filter(p, s))
    decreases |s|
  {
    if s != [] {
      FilterPositive(p, s[..|s| - 1]);
    }
  }

  lemma {:induction false} RangePositive(lo: int, hi: int)
    requires lo > 0
    ensures Positive(Range(lo, hi))
    decreases hi - lo
  {
    if lo < hi {
      RangePositive(lo, hi - 1);
    }
  }

  lemma FilterAppend(p: int, s: seq<int>, a: int)
    requires p > 0
    ensures Filter(p, s + [a]) == Filter(p, s) + if a % p != 0 then [a] else []
  {
    assert (s + [a])[..|s|] == s;
  }

  lemma {:induction false} FilterPrefix(p: int, s: seq<int>, t: seq<int>)
    requires p > 0 && s <= t
    ensures Filter(p, s) <= Filter(p, t)
    decreases |t|
  {
    if s != t {
      FilterPrefix(p, s, t[..|t| - 1]);
    }
  }

  // The input of stage k, and the primes that the stages find in s.
  function Input(s: seq<int>, k: nat): (r: seq<int>)
    requires Positive(s)
    ensures Positive(r) && (r == [] || |r| + k <= |s|)
    decreases k
  {
    if k == 0 then s
    else
      var r := Input(s, k - 1);
      if r == [] then [] else FilterPositive(r[0], r[1..]); Filter(r[0], r[1..])
  }

  function Chain(s: seq<int>): seq<int>
    requires Positive(s)
    decreases |s|
  {
    if s == [] then [] else FilterPositive(s[0], s[1..]); [s[0]] + Chain(Filter(s[0], s[1..]))
  }

  // ---------------------------------------------------------------- the chain finds the primes

  predicate Divides(d: int, x: int)
    requires d > 0
  {
    x % d == 0
  }

  predicate Rough(x: int, q: int) { forall d :: 2 <= d < q ==> !Divides(d, x) }

  predicate Prime(p: int) { p >= 2 && Rough(p, p) }

  function PrimesFrom(q: int, n: int): (s: seq<int>)
    ensures forall j :: 0 <= j < |s| ==> Prime(s[j])
    decreases n - q
  {
    if q >= n then [] else (if Prime(q) then [q] else []) + PrimesFrom(q + 1, n)
  }

  // The numbers from lo on, below n, without divisors below q.
  function Sieved(lo: int, q: int, n: int): (s: seq<int>)
    ensures forall i :: 0 <= i < |s| ==> lo <= s[i]
    decreases n - lo
  {
    if lo >= n then [] else (if Rough(lo, q) then [lo] else []) + Sieved(lo + 1, q, n)
  }

  lemma Transitive(x: int, d: int, e: int)
    requires d > 0 && e > 0 && Divides(d, x) && Divides(e, d)
    ensures Divides(e, x)
  {
    var a, b := x / d, d / e;
    assert d == e * b && x == d * a;
    assert x == e * (b * a);
    Multiple(e, b * a);
  }

  lemma Multiple(e: int, m: int)
    requires e > 0
    ensures Divides(e, e * m)
  {
    var q, r := (e * m) / e, (e * m) % e;
    assert e * m == e * q + r;
    assert r == e * (m - q);
    if m - q >= 1 {
      Scale(e, m - q, 1);
    } else if m - q <= -1 {
      Scale(e, -1, m - q);
    }
  }

  lemma Scale(e: int, a: int, b: int)
    requires e > 0 && a >= b
    ensures e * a >= e * b
  {
  }

  lemma {:induction false} FilterCons(p: int, a: int, s: seq<int>)
    requires p > 0
    ensures Filter(p, [a] + s) == (if a % p != 0 then [a] else []) + Filter(p, s)
    decreases |s|
  {
    if s == [] {
      assert ([a] + s)[..0] == [];
    } else {
      FilterCons(p, a, s[..|s| - 1]);
      assert ([a] + s)[..|s|] == [a] + s[..|s| - 1];
    }
  }

  // A number with no divisor below q has none below p + 1 if p does not divide it and nothing
  // from q up to p is without a divisor below q.
  lemma RoughStep(x: int, q: int, p: int)
    requires 2 <= q <= p && forall d :: q <= d < p ==> !Rough(d, q)
    ensures Rough(x, p + 1) <==> Rough(x, q) && !Divides(p, x)
  {
    if Rough(x, q) && !Divides(p, x) {
      forall d | 2 <= d < p + 1 ensures !Divides(d, x) {
        if q <= d < p && Divides(d, x) {
          assert !Rough(d, q);
          var e :| 2 <= e < q && Divides(e, d);
          Transitive(x, d, e);
        }
      }
    }
  }

  lemma {:induction false} FilterSieved(lo: int, q: int, p: int, n: int)
    requires 2 <= q <= p && forall d :: q <= d < p ==> !Rough(d, q)
    ensures Filter(p, Sieved(lo, q, n)) == Sieved(lo, p + 1, n)
    decreases n - lo
  {
    if lo < n {
      var rest := Sieved(lo + 1, q, n);
      FilterSieved(lo + 1, q, p, n);
      RoughStep(lo, q, p);
      FilterCons(p, lo, rest);
      SievedCons(lo, q, n);
      SievedCons(lo, p + 1, n);
    }
  }

  lemma SievedCons(lo: int, q: int, n: int)
    requires lo < n
    ensures Sieved(lo, q, n) == if Rough(lo, q) then [lo] + Sieved(lo + 1, q, n) else Sieved(lo + 1, q, n)
  {
  }

  lemma {:induction false} SkipSieved(lo: int, q: int, p: int, n: int)
    requires lo <= p < n && (forall d :: lo <= d < p ==> !Rough(d, q)) && Rough(p, q)
    ensures Sieved(lo, q, n) == [p] + Sieved(p + 1, q, n)
    decreases p - lo
  {
    if lo < p {
      SkipSieved(lo + 1, q, p, n);
    }
  }

  lemma {:induction false} SkipPrimes(lo: int, p: int, n: int)
    requires lo <= p <= n && forall d :: lo <= d < p ==> !Prime(d)
    ensures PrimesFrom(lo, n) == PrimesFrom(p, n)
    decreases p - lo
  {
    if lo < p {
      SkipPrimes(lo + 1, p, n);
    }
  }

  lemma {:induction false} FirstRough(lo: int, q: int, n: int) returns (p: int)
    requires lo <= n
    ensures lo <= p <= n && (p < n ==> Rough(p, q)) && forall d :: lo <= d < p ==> !Rough(d, q)
    decreases n - lo
  {
    if lo == n || Rough(lo, q) {
      p := lo;
    } else {
      p := FirstRough(lo + 1, q, n);
    }
  }

  // The first survivor is the next prime, and filtering by it sieves on.
  lemma {:induction false} ChainFrom(q: int, n: int)
    requires 2 <= q <= n
    ensures Positive(Sieved(q, q, n)) && Chain(Sieved(q, q, n)) == PrimesFrom(q, n)
    decreases n - q
  {
    var p := FirstRough(q, q, n);
    forall d | q <= d < p ensures !Prime(d) {
      assert !Rough(d, q);
    }
    SkipPrimes(q, p, n);
    if p < n {
      SkipSieved(q, q, p, n);
      FilterSieved(p + 1, q, p, n);
      RoughStep(p, q, p);
      assert Rough(p, p) by { NoMiddle(p, q); }
      ChainFrom(p + 1, n);
      assert ([p] + Sieved(p + 1, q, n))[1..] == Sieved(p + 1, q, n);
    } else {
      NoneSieved(q, q, n);
    }
  }

  lemma NoMiddle(p: int, q: int)
    requires 2 <= q <= p && Rough(p, q) && forall d :: q <= d < p ==> !Rough(d, q)
    ensures Rough(p, p)
  {
    forall d | 2 <= d < p ensures !Divides(d, p) {
      if q <= d && Divides(d, p) {
        assert !Rough(d, q);
        var e :| 2 <= e < q && Divides(e, d);
        Transitive(p, d, e);
      }
    }
  }

  lemma {:induction false} NoneSieved(lo: int, q: int, n: int)
    requires forall d :: lo <= d < n ==> !Rough(d, q)
    ensures Sieved(lo, q, n) == []
    decreases n - lo
  {
    if lo < n {
      NoneSieved(lo + 1, q, n);
    }
  }

  lemma {:induction false} RangeSieved(lo: int, n: int)
    requires lo <= n
    ensures Sieved(lo, 2, n) == Range(lo, n)
    decreases n - lo
  {
    if lo < n {
      RangeSieved(lo + 1, n);
      RangeCons(lo, n);
    }
  }

  lemma {:induction false} RangeCons(lo: int, n: int)
    requires lo < n
    ensures Range(lo, n) == [lo] + Range(lo + 1, n)
    decreases n - lo
  {
    if lo + 1 < n {
      RangeCons(lo, n - 1);
    }
  }

  /** The chain of filters over 2..n-1 finds exactly the primes below n, in order; PrimesExact
      and PrimesIncreasing say so of the list on the right. */
  lemma ChainIsPrimes(n: int)
    ensures Positive(Range(2, n)) && Chain(Range(2, n)) == PrimesFrom(2, n)
  {
    RangePositive(2, n);
    if n >= 2 {
      RangeSieved(2, n);
      ChainFrom(2, n);
    }
  }

  // ---------------------------------------------------------------- the input of each stage

  // Stage k gets what is left of the chain after k primes.
  lemma {:induction false} InputChain(s: seq<int>, k: nat)
    requires Positive(s)
    ensures |Chain(s)| <= k ==> Input(s, k) == []
    ensures k < |Chain(s)| ==> Input(s, k) != [] && Input(s, k)[0] == Chain(s)[k] && Chain(Input(s, k)) == Chain(s)[k..]
    ensures k == |Chain(s)| ==> Chain(Input(s, k)) == Chain(s)[k..]
    decreases k
  {
    if k > 0 {
      InputChain(s, k - 1);
      var r := Input(s, k - 1);
      if k - 1 < |Chain(s)| {
        assert Chain(r) == [r[0]] + Chain(Input(s, k));
        assert Chain(s)[k - 1..][1..] == Chain(s)[k..];
      }
    }
  }

  lemma {:induction false} FilterMember(p: int, s: seq<int>, x: int)
    requires p > 0
    ensures x in Filter(p, s) <==> x in s && x % p != 0
    decreases |s|
  {
    if s != [] {
      FilterMember(p, s[..|s| - 1], x);
      assert s == s[..|s| - 1] + [s[|s| - 1]];
    }
  }

  ghost predicate Undivided(x: int, ps: seq<int>, k: nat)
    requires k <= |ps| && Positive(ps)
  {
    forall j :: 0 <= j < k ==> !Divides(ps[j], x)
  }

  /** Stage k receives exactly the numbers below n that the first k primes do not divide. */
  lemma {:induction false} InputMembers(n: int, k: nat, ps: seq<int>, x: int)
    requires Positive(Range(2, n)) && ps == Chain(Range(2, n)) && Positive(ps) && k <= |ps|
    ensures x in Input(Range(2, n), k) <==> 2 <= x < n && Undivided(x, ps, k)
    decreases k
  {
    if k == 0 {
      RangeMember(2, n, x);
    } else {
      InputMembers(n, k - 1, ps, x);
      InputChain(Range(2, n), k - 1);
      InputStep(Input(Range(2, n), k - 1), ps[k - 1], x);
    }
  }

  lemma InputStep(r: seq<int>, p: int, x: int)
    requires r != [] && p > 0 && r[0] == p
    ensures x in Filter(p, r[1..]) <==> x in r && !Divides(p, x)
  {
    FilterMember(p, r[1..], x);
    assert r == [r[0]] + r[1..];
  }

  lemma {:induction false} RangeMember(lo: int, n: int, x: int)
    ensures x in Range(lo, n) <==> lo <= x < n
    decreases n - lo
  {
    if lo < n {
      RangeMember(lo, n - 1, x);
    }
  }

  // ---------------------------------------------------------------- each once, in order

  ghost predicate Increasing(s: seq<int>) { forall i, j :: 0 <= i < j < |s| ==> s[i] < s[j] }

  /** The list of primes is complete ... */
  lemma {:induction false} PrimesExact(q: int, n: int, x: int)
    ensures x in PrimesFrom(q, n) <==> q <= x < n && Prime(x)
    decreases n - q
  {
    if q < n {
      PrimesExact(q + 1, n, x);
    }
  }

  /** ... and strictly increasing, so no prime occurs twice. */
  lemma {:induction false} PrimesIncreasing(q: int, n: int)
    ensures Increasing(PrimesFrom(q, n)) && forall j :: 0 <= j < |PrimesFrom(q, n)| ==> q <= PrimesFrom(q, n)[j]
    decreases n - q
  {
    if q < n {
      PrimesIncreasing(q + 1, n);
    }
  }

  lemma {:induction false} RangeIncreasing(lo: int, n: int)
    ensures Increasing(Range(lo, n)) && forall j :: 0 <= j < |Range(lo, n)| ==> Range(lo, n)[j] < n
    decreases n - lo
  {
    if lo < n {
      RangeIncreasing(lo, n - 1);
    }
  }

  lemma {:induction false} FilterIncreasing(p: int, s: seq<int>)
    requires p > 0 && Increasing(s)
    ensures Increasing(Filter(p, s))
    decreases |s|
  {
    if s != [] {
      var front, last := s[..|s| - 1], s[|s| - 1];
      FilterIncreasing(p, front);
      forall i | 0 <= i < |Filter(p, front)| ensures Filter(p, front)[i] < last {
        FilterMember(p, front, Filter(p, front)[i]);
      }
    }
  }

  /** What reaches a stage reaches it in increasing order. */
  lemma {:induction false} InputIncreasing(s: seq<int>, k: nat)
    requires Positive(s) && Increasing(s)
    ensures Increasing(Input(s, k))
    decreases k
  {
    if k > 0 {
      InputIncreasing(s, k - 1);
      var r := Input(s, k - 1);
      if r != [] {
        FilterPositive(r[0], r[1..]);
        FilterIncreasing(r[0], r[1..]);
      }
    }
  }
}
