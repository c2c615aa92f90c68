/** Printing numbers (sched/lib/printfmt.c, printnum) and reading them back
    (sched/lib/string.c, strtol). */
module Numbers {
  import opened Base

  // ---------------------------------------------------------------- printnum

  const DIGITS := "0123456789abcdef"

  function Repeat(n: int, c: char): (s: string)
    ensures |s| == if n > 0 then n else 0
    ensures forall i :: 0 <= i < |s| ==> s[i] == c
    decreases n
  {
    if n <= 0 then "" else Repeat(n - 1, c) + [c]
  }

  // num / base and num % base, by repeated subtraction.
  function Quot(n: nat, b: nat): (q: nat)
    requires b >= 2
    ensures q <= n && (n >= b ==> q < n)
    decreases n
  {
    if n < b then 0 else Quot(n - b, b) + 1
  }

  function Rem(n: nat, b: nat): (d: nat)
    requires b >= 2
    ensures d < b
    decreases n
  {
    if n < b then n else Rem(n - b, b)
  }

  lemma {:induction false} Recompose(n: nat, b: nat)
    requires b >= 2
    ensures Quot(n, b) * b + Rem(n, b) == n
    decreases n
  {
    if n >= b {
      Recompose(n - b, b);
    }
  }

  lemma QuotIs(n: nat, b: nat)
    requires b >= 2
    ensures Quot(n, b) == n / b && Rem(n, b) == n % b
  {
    Recompose(n, b);
    DivUnique(n, b, Quot(n, b), Rem(n, b));
  }

  lemma DivUnique(n: nat, b: nat, q: nat, d: nat)
    requires b > 0 && n == q * b + d && d < b
    ensures q == n / b && d == n % b
  {
    var p, r := n / b, n % b;
    assert n == p * b + r;
    assert (q - p) * b == r - d;
    if q > p {
      Scale(b, q - p);
    } else if q < p {
      Scale(b, p - q);
    }
  }

  lemma Scale(b: nat, k: nat)
    requires k >= 1
    ensures k * b >= b
  {
  }

  function Digit(d: nat): char
    requires d < 16
  {
    if d < 10 then (48 + d) as char else (97 + d - 10) as char
  }

  lemma DigitIs(d: nat)
    requires d < 16
    ensures DIGITS[d] == Digit(d)
  {
    assert DIGITS == ['0', '1', '2', '3', '4', '5', '6', '7', '8', '9', 'a', 'b', 'c', 'd', 'e', 'f'];
  }

  // What printnum gives to putch.
  function Printed(num: nat, base: nat, width: int, padc: char): string
    requires 2 <= base <= 16
    decreases num
  {
    (if num >= base then Printed(Quot(num, base), base, width - 1, padc) else Repeat(width - 1, padc)) + [Digit(Rem(num, base))]
  }

  // The digits alone.
  function Numeral(num: nat, base: nat): (s: string)
    requires 2 <= base <= 16
    ensures |s| > 0
    decreases num
  {
    (if num >= base then Numeral(Quot(num, base), base) else "") + [Digit(Rem(num, base))]
  }

  lemma Assoc(a: string, b: string, c: string)
    ensures (a + b) + c == a + (b + c)
  {
  }

  /** The output is the numeral, padded on the left up to the width. */
  lemma {:induction false} PrintedPads(num: nat, base: nat, width: int, padc: char)
    requires 2 <= base <= 16
    ensures Printed(num, base, width, padc) == Repeat(width - |Numeral(num, base)|, padc) + Numeral(num, base)
    decreases num
  {
    var last := [Digit(Rem(num, base))];
    if num >= base {
      var q := Quot(num, base);
      PrintedPads(q, base, width - 1, padc);
      assert Printed(num, base, width, padc) == Printed(q, base, width - 1, padc) + last;
      assert Numeral(num, base) == Numeral(q, base) + last;
      Assoc(Repeat(width - 1 - |Numeral(q, base)|, padc), Numeral(q, base), last);
    } else {
      assert Numeral(num, base) == last;
    }
  }

  /** It has as many characters as the larger of the width and the number of digits. */
  lemma PrintedLength(num: nat, base: nat, width: int, padc: char)
    requires 2 <= base <= 16
    ensures |Printed(num, base, width, padc)| == if width > |Numeral(num, base)| then width else |Numeral(num, base)|
  {
    PrintedPads(num, base, width, padc);
  }

  class Sink {
    var out: string

    constructor ()
      ensures out == ""
    {
      out := "";
    }

    method Putch(c: char)
      modifies this
      ensures out == old(out) + [c]
    {
      out := out + [c];
    }
  }

  /** printnum */
  method Printnum(sink: Sink, num: nat, base: nat, width: int, padc: char)
    requires 2 <= base <= 16
    modifies sink
    ensures sink.out == old(sink.out) + Printed(num, base, width, padc)
    decreases num
  {
    QuotIs(num, base);
    if num >= base {
      Printnum(sink, num / base, base, width - 1, padc);
    } else {
      Pad(sink, width, padc);
    }
    DigitIs(num % base);
    sink.Putch(DIGITS[num % base]);
  }

  // while (--width > 0) putch(padc, putdat);
  method Pad(sink: Sink, width: int, padc: char)
    modifies sink
    ensures sink.out == old(sink.out) + Repeat(width - 1, padc)
  {
    var w := width - 1;
    ghost var done := 0;
    while w > 0
      invariant done <= width - 1 || (width <= 1 && done == 0)
      invariant w == width - 1 - done
      invariant sink.out == old(sink.out) + Repeat(done, padc)
      decreases w
    {
      sink.Putch(padc);
      w := w - 1;
      done := done + 1;
    }
  }

  // ---------------------------------------------------------------- strtol

  function At(s: string, i: nat): char { if i < |s| then s[i] else '\0' }

  predicate Blank(c: char) { c == ' ' || c == '\t' }

  // The value of a digit or a letter.
  function DigitOf(c: char): Option<nat> {
    var x := c as int;
    if 48 <= x <= 57 then Some(x - 48)              // '0' to '9'
    else if 97 <= x <= 122 then Some(x - 97 + 10)   // 'a' to 'z'
    else if 65 <= x <= 90 then Some(x - 65 + 10)    // 'A' to 'Z'
    else None
  }

  predicate IsDigit(c: char, base: int) { DigitOf(c).Some? && DigitOf(c).value < base }

  function Blanks(s: string): (n: nat)
    ensures n <= |s|
  {
    if s != "" && Blank(s[0]) then 1 + Blanks(s[1..]) else 0
  }

  // val * base, by repeated addition.
  function Times(val: int, base: int): int
    requires base >= 0
    decreases base
  {
    if base == 0 then 0 else Times(val, base - 1) + val
  }

  lemma {:induction false} TimesIs(val: int, base: int)
    requires base >= 0
    ensures Times(val, base) == val * base
    decreases base
  {
    if base > 0 {
      TimesIs(val, base - 1);
    }
  }

  // val = val * base + dig
  function Next(val: int, base: int, c: char): int
    requires IsDigit(c, base)
  {
    Wrap32(Times(val, base) + DigitOf(c).value)
  }

  // The loop over the digits: the value, and how many characters were taken.
  function Accumulate(s: string, base: int, val: int): (r: (int, nat))
    ensures r.1 <= |s|
    decreases |s|
  {
    if s != "" && IsDigit(s[0], base) then
      var (v, n) := Accumulate(s[1..], base, Next(val, base, s[0]));
      (v, n + 1)
    else (val, 0)
  }

  // After the blanks: sign and prefix, the base that results, and whether the sign is minus.
  function Prefix(s: string, base: int): (r: (nat, int, bool))
    ensures r.0 <= |s|
  {
    var sign := if At(s, 0) == '+' || At(s, 0) == '-' then 1 else 0;
    var neg := At(s, 0) == '-';
    if (base == 0 || base == 16) && At(s, sign) == '0' && At(s, sign + 1) == 'x' then (sign + 2, 16, neg)
    else if base == 0 && At(s, sign) == '0' then (sign + 1, 8, neg)
    else (sign, if base == 0 then 10 else base, neg)
  }

  // The value and the index of the first character not read.
  function Strtol(s: string, base: int): (int, nat) {
    var b := Blanks(s);
    var (p, base1, neg) := Prefix(s[b..], base);
    var (v, n) := Accumulate(s[b + p..], base1, 0);
    (if neg then Wrap32(-v) else v, b + p + n)
  }

  /** strtol, with the end pointer as an index */
  method ReadNumber(s: string, base: int) returns (val: int, end: nat)
    ensures (val, end) == Strtol(s, base)
  {
    var start := SkipBlanks(s);
    var p, b, neg := SkipPrefix(s, start, base);
    val, end := Digits(s, p, b);
    if neg {
      val := Wrap32(-val);
    }
  }

  // The loop over the digits.
  method Digits(s: string, start: nat, base: int) returns (val: int, end: nat)
    requires start <= |s|
    ensures start <= end <= |s| && (val, end - start) == Accumulate(s[start..], base, 0)
  {
    val, end := 0, start;
    while end < |s| && IsDigit(s[end], base)
      invariant start <= end <= |s|
      invariant Accumulate(s[start..], base, 0).0 == Accumulate(s[end..], base, val).0
      invariant Accumulate(s[start..], base, 0).1 == Accumulate(s[end..], base, val).1 + (end - start)
    {
      assert s[end..][1..] == s[end + 1..];
      TimesIs(val, base);
      val := Wrap32(val * base + DigitOf(s[end]).value);
      end := end + 1;
    }
  }

  method SkipBlanks(s: string) returns (i: nat)
    ensures i == Blanks(s)
  {
    i := 0;
    assert s[0..] == s;
    while i < |s| && Blank(s[i])
      invariant i <= |s| && Blanks(s) == i + Blanks(s[i..])
    {
      assert s[i..][1..] == s[i + 1..];
      i := i + 1;
    }
  }

  method SkipPrefix(s: string, start: nat, base: int) returns (i: nat, b: int, neg: bool)
    requires start <= |s|
    ensures (i - start, b, neg) == Prefix(s[start..], base) && start <= i <= |s|
  {
    i, b, neg := start, base, false;
    assert forall k: nat :: At(s[start..], k) == At(s, start + k);
    if At(s, i) == '+' {
      i := i + 1;
    } else if At(s, i) == '-' {
      i, neg := i + 1, true;
    }
    if (b == 0 || b == 16) && At(s, i) == '0' && At(s, i + 1) == 'x' {
      i, b := i + 2, 16;
    } else if b == 0 && At(s, i) == '0' {
      i, b := i + 1, 8;
    } else if b == 0 {
      b := 10;
    }
  }

  // ---------------------------------------------------------------- round trip

  // A string of digits read after val.
  function Eval(p: string, base: int, val: int): int
    requires AllDigits(p, base)
    decreases |p|
  {
    if p == "" then val else Next(Eval(p[..|p| - 1], base, val), base, p[|p| - 1])
  }

  predicate AllDigits(p: string, base: int) { forall i :: 0 <= i < |p| ==> IsDigit(p[i], base) }

  lemma {:induction false} EvalFront(c: char, p: string, base: int, val: int)
    requires IsDigit(c, base) && AllDigits(p, base)
    ensures Eval([c] + p, base, val) == Eval(p, base, Next(val, base, c))
    decreases |p|
  {
    if p == "" {
      assert ([c] + p)[..0] == "";
    } else {
      EvalFront(c, p[..|p| - 1], base, val);
      assert ([c] + p)[..|p|] == [c] + p[..|p| - 1];
    }
  }

  lemma {:induction false} AccumulateDigits(p: string, tail: string, base: int, val: int)
    requires AllDigits(p, base) && (tail == "" || !IsDigit(tail[0], base))
    ensures Accumulate(p + tail, base, val) == (Eval(p, base, val), |p|)
    decreases |p|
  {
    if p == "" {
      assert p + tail == tail;
    } else {
      EvalFront(p[0], p[1..], base, val);
      assert p == [p[0]] + p[1..];
      assert (p + tail)[1..] == p[1..] + tail;
      AccumulateDigits(p[1..], tail, base, Next(val, base, p[0]));
    }
  }

  lemma DigitBack(d: nat)
    requires d < 16
    ensures DigitOf(Digit(d)) == Some(d) && Digit(d) != '+' && Digit(d) != '-' && Digit(d) != 'x' && !Blank(Digit(d))
  {
  }

  lemma WrapMul(a: int, base: int, d: int)
    requires base >= 0
    ensures Wrap32(Times(Wrap32(a), base) + d) == Wrap32(Times(a, base) + d)
  {
    var q := (a + 0x8000_0000) / 0x1_0000_0000;
    assert Wrap32(a) == a - 0x1_0000_0000 * q;
    TimesIs(a, base);
    TimesIs(Wrap32(a), base);
    assert Wrap32(a) * base + d == a * base + d - 0x1_0000_0000 * (q * base);
    WrapShift(a * base + d, -(q * base));
  }

  lemma WrapShift(x: int, k: int)
    ensures Wrap32(x + 0x1_0000_0000 * k) == Wrap32(x)
  {
  }

  lemma EvalLast(p: string, c: char, base: int, d: nat)
    requires DigitOf(c) == Some(d) && d < base && AllDigits(p, base)
    ensures Eval(p + [c], base, 0) == Wrap32(Times(Eval(p, base, 0), base) + d)
  {
    assert (p + [c])[..|p|] == p;
  }

  // One more digit.
  lemma LastDigit(p: string, q: nat, d: nat, base: nat)
    requires 2 <= base <= 16 && d < base && AllDigits(p, base) && Eval(p, base, 0) == Wrap32(q)
    ensures AllDigits(p + [Digit(d)], base) && Eval(p + [Digit(d)], base, 0) == Wrap32(Times(q, base) + d)
  {
    DigitBack(d);
    EvalLast(p, Digit(d), base, d);
    WrapMul(q, base, d);
  }

  lemma Rebuild(num: nat, base: nat)
    requires base >= 2
    ensures Times(Quot(num, base), base) + Rem(num, base) == num
  {
    Recompose(num, base);
    TimesIs(Quot(num, base), base);
  }

  // s reads as num.
  ghost predicate Reads(s: string, base: nat, num: nat) { AllDigits(s, base) && Eval(s, base, 0) == Wrap32(num) }

  lemma ReadsMore(s: string, q: nat, d: nat, base: nat, num: nat)
    requires 2 <= base <= 16 && d < base && Reads(s, base, q) && Times(q, base) + d == num
    ensures Reads(s + [Digit(d)], base, num)
  {
    LastDigit(s, q, d, base);
  }

  lemma NumeralUnfold(num: nat, base: nat)
    requires 2 <= base <= 16 && num >= base
    ensures Numeral(num, base) == Numeral(Quot(num, base), base) + [Digit(Rem(num, base))]
  {
  }

  // The digits of a numeral add up to the number.
  lemma {:induction false} NumeralValue(num: nat, base: nat)
    requires 2 <= base <= 16
    ensures Reads(Numeral(num, base), base, num)
    decreases num
  {
    if num >= base {
      NumeralValue(Quot(num, base), base);
      Rebuild(num, base);
      ReadsMore(Numeral(Quot(num, base), base), Quot(num, base), Rem(num, base), base, num);
      NumeralUnfold(num, base);
    } else {
      OneDigit(num, base);
    }
  }

  lemma OneDigit(d: nat, base: nat)
    requires d < base <= 16 && 2 <= base
    ensures Numeral(d, base) == [Digit(d)] && AllDigits([Digit(d)], base) && Eval([Digit(d)], base, 0) == Wrap32(d)
  {
    DigitBack(d);
    TimesZero(base);
    assert [Digit(d)][..0] == [];
  }

  lemma {:induction false} EvalConcat(z: string, p: string, base: int, val: int)
    requires AllDigits(z, base) && AllDigits(p, base)
    ensures AllDigits(z + p, base) && Eval(z + p, base, val) == Eval(p, base, Eval(z, base, val))
    decreases |p|
  {
    if p == "" {
      assert z + p == z;
    } else {
      EvalConcat(z, p[..|p| - 1], base, val);
      assert (z + p)[..|z + p| - 1] == z + p[..|p| - 1];
    }
  }

  lemma {:induction false} TimesZero(base: nat)
    ensures Times(0, base) == 0
  {
    if base > 0 {
      TimesZero(base - 1);
    }
  }

  lemma {:induction false} EvalZeros(n: int, base: nat)
    requires 2 <= base <= 16
    ensures AllDigits(Repeat(n, '0'), base) && Eval(Repeat(n, '0'), base, 0) == 0
    decreases n
  {
    if n > 0 {
      EvalZeros(n - 1, base);
      LastDigit(Repeat(n - 1, '0'), 0, 0, base);
      TimesZero(base);
    }
  }

  lemma {:induction false} NumeralPlain(num: nat, base: nat)
    requires 2 <= base <= 16
    ensures forall i :: 0 <= i < |Numeral(num, base)| ==>
              var c := Numeral(num, base)[i]; c != '+' && c != '-' && c != 'x' && !Blank(c)
    decreases num
  {
    DigitBack(Rem(num, base));
    if num >= base {
      NumeralPlain(Quot(num, base), base);
    }
  }

  lemma {:induction false} BlanksFirst(n: int, s: string)
    requires s == "" || !Blank(s[0])
    ensures Blanks(Repeat(n, ' ') + s) == |Repeat(n, ' ')|
    decreases n
  {
    if n > 0 {
      BlanksFirst(n - 1, s);
      assert (Repeat(n, ' ') + s)[1..] == Repeat(n - 1, ' ') + s;
    } else {
      assert Repeat(n, ' ') + s == s;
    }
  }

  // A numeral is neither a sign nor a prefix, unless it is 0 before an x.
  lemma NumeralFirst(num: nat, base: nat, tail: string)
    requires 2 <= base <= 16
    ensures var s := Numeral(num, base);
            && s[0] != '+' && s[0] != '-' && !Blank(s[0])
            && (s[0] == '0' && At(s + tail, 1) == 'x' ==> num == 0 && At(tail, 0) == 'x')
  {
    NumeralPlain(num, base);
    NotHex(num, base);
  }

  lemma ReadSpaced(num: nat, base: nat, n: int, tail: string, s: string)
    requires 2 <= base <= 16 && (tail == "" || !IsDigit(tail[0], base))
    requires !(base == 16 && num == 0 && At(tail, 0) == 'x')
    requires s == Repeat(n, ' ') + Numeral(num, base)
    ensures Strtol(s + tail, base) == (Wrap32(num), |s|)
  {
    var pad, numeral := Repeat(n, ' '), Numeral(num, base);
    NumeralFirst(num, base, tail);
    NumeralValue(num, base);
    AccumulateDigits(numeral, tail, base, 0);
    BlanksFirst(n, numeral + tail);
    Assoc(pad, numeral, tail);
    Suffix(pad, numeral + tail);
    ReadBody(s + tail, numeral + tail, base, |pad|, Wrap32(num), |numeral|);
  }

  lemma ZeroedFirst(num: nat, base: nat, n: int, tail: string, s: string)
    requires 2 <= base <= 16 && s == Repeat(n, '0') + Numeral(num, base)
    requires !(base == 16 && num == 0 && At(tail, 0) == 'x' && n <= 0)
    ensures s[0] != '+' && s[0] != '-' && !Blank(s[0])
    ensures base == 16 && s[0] == '0' ==> At(s + tail, 1) != 'x'
  {
    NumeralFirst(num, base, tail);
    NumeralPlain(num, base);
    if n >= 1 {
      assert s[0] == '0';
      assert (s + tail)[1] == s[1] == if n >= 2 then '0' else Numeral(num, base)[0];
    } else {
      assert s == Numeral(num, base);
    }
  }

  lemma NoBlanks(s: string)
    requires s == "" || !Blank(s[0])
    ensures Blanks(s) == 0
  {
  }

  lemma ReadZeroed(num: nat, base: nat, n: int, tail: string, s: string)
    requires 2 <= base <= 16 && (tail == "" || !IsDigit(tail[0], base))
    requires !(base == 16 && num == 0 && At(tail, 0) == 'x' && n <= 0)
    requires s == Repeat(n, '0') + Numeral(num, base)
    ensures Strtol(s + tail, base) == (Wrap32(num), |s|)
  {
    ZeroedFirst(num, base, n, tail, s);
    EvalZeros(n, base);
    NumeralValue(num, base);
    EvalConcat(Repeat(n, '0'), Numeral(num, base), base, 0);
    ReadPlain(s, tail, base, num);
  }

  lemma ReadPlain(s: string, tail: string, base: nat, num: nat)
    requires base > 0 && s != "" && AllDigits(s, base) && Eval(s, base, 0) == Wrap32(num)
    requires s[0] != '+' && s[0] != '-' && !Blank(s[0]) && (base == 16 && s[0] == '0' ==> At(s + tail, 1) != 'x')
    requires tail == "" || !IsDigit(tail[0], base)
    ensures Strtol(s + tail, base) == (Wrap32(num), |s|)
  {
    AccumulateDigits(s, tail, base, 0);
    NoBlanks(s + tail);
    ReadBody(s + tail, s + tail, base, 0, Wrap32(num), |s|);
  }

  // A lone 0 in base 16 with an x behind it is taken for a prefix.
  predicate LooksLikeHex(num: nat, base: nat, width: int, padc: char, tail: string) {
    base == 16 && num == 0 && At(tail, 0) == 'x' && (padc == ' ' || width <= 1)
  }

  /** Reading undoes printing: strtol in the same base takes exactly what printnum wrote, padded
      with spaces or zeros to any width, up to whatever follows that is no digit, and returns the
      number as an int32: the number itself exactly if it is below 2^31. This fails only for
      what looks like a prefix, which is then read past its end. */
  lemma ReadPrinted(num: nat, base: nat, width: int, padc: char, tail: string)
    requires 2 <= base <= 16 && (padc == ' ' || padc == '0') && (tail == "" || !IsDigit(tail[0], base))
    ensures Strtol(Printed(num, base, width, padc) + tail, base) == (Wrap32(num), |Printed(num, base, width, padc)|)
            <==> !LooksLikeHex(num, base, width, padc, tail)
    ensures !LooksLikeHex(num, base, width, padc, tail) ==>
              (Strtol(Printed(num, base, width, padc) + tail, base).0 == num <==> num < 0x8000_0000)
  {
    if LooksLikeHex(num, base, width, padc, tail) {
      ReadPast(base, width, padc, tail, Printed(num, base, width, padc));
    } else {
      ReadPadded(num, base, width, padc, tail);
    }
  }

  lemma ReadPast(base: nat, width: int, padc: char, tail: string, s: string)
    requires LooksLikeHex(0, base, width, padc, tail) && (padc == ' ' || padc == '0') && s == Printed(0, base, width, padc)
    ensures Strtol(s + tail, base).1 > |s|
  {
    PrintedPads(0, base, width, padc);
    NotHex(0, base);
    var pad := Repeat(width - 1, padc);
    assert s == pad + "0";
    Assoc(pad, "0", tail);
    if padc == ' ' {
      BlanksFirst(width - 1, "0" + tail);
      Suffix(pad, "0" + tail);
    } else {
      assert pad == "" && s + tail == "0" + tail;
      NoBlanks("0" + tail);
      assert (s + tail)[0..] == "0" + tail;
    }
    assert At("0" + tail, 0) == '0' && At("0" + tail, 1) == 'x';
  }

  lemma ReadPadded(num: nat, base: nat, width: int, padc: char, tail: string)
    requires 2 <= base <= 16 && (padc == ' ' || padc == '0') && (tail == "" || !IsDigit(tail[0], base))
    requires !LooksLikeHex(num, base, width, padc, tail)
    ensures Strtol(Printed(num, base, width, padc) + tail, base) == (Wrap32(num), |Printed(num, base, width, padc)|)
  {
    PrintedPads(num, base, width, padc);
    NotHex(num, base);
    var n := width - |Numeral(num, base)|;
    if padc == ' ' {
      ReadSpaced(num, base, n, tail, Printed(num, base, width, padc));
    } else {
      ReadZeroed(num, base, n, tail, Printed(num, base, width, padc));
    }
  }

  // Only 0 is printed with a first digit 0.
  lemma {:induction false} NotHex(num: nat, base: nat)
    requires 2 <= base <= 16
    ensures Numeral(num, base)[0] == '0' <==> num == 0
    ensures num == 0 ==> Numeral(num, base) == "0"
    decreases num
  {
    if num >= base {
      NotHex(Quot(num, base), base);
    }
  }

  // After the blanks, digits that are not a prefix.
  lemma ReadBody(s: string, t: string, base: nat, b: nat, v: int, n: nat)
    requires base > 0 && Accumulate(t, base, 0) == (v, n) && Blanks(s) == b && b <= |s| && s[b..] == t
    requires t != "" && t[0] != '+' && t[0] != '-' && (base == 16 && t[0] == '0' ==> At(t, 1) != 'x')
    ensures Strtol(s, base) == (v, b + n)
  {
    PlainPrefix(t, base);
    Parts(s, base, b, v, n);
  }

  lemma Suffix(a: string, b: string)
    ensures (a + b)[|a|..] == b
  {
  }

  lemma Parts(s: string, base: int, b: nat, v: int, n: nat)
    requires b == Blanks(s) && Prefix(s[b..], base) == (0, base, false) && Accumulate(s[b..], base, 0) == (v, n)
    ensures Strtol(s, base) == (v, b + n)
  {
    assert s[b + 0..] == s[b..];
  }

  lemma PlainPrefix(s: string, base: nat)
    requires base > 0 && s != "" && s[0] != '+' && s[0] != '-' && (base == 16 && s[0] == '0' ==> At(s, 1) != 'x')
    ensures Prefix(s, base) == (0, base, false)
  {
  }
}
