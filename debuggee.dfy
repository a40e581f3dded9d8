/**
 * The program the tests debug: `Bar`, `Foo` and `main` of test.cpp, and
 * `Lib::Baz` and `Lib::GetLoopCount` of lib.hpp, in 32-bit `unsigned`
 * arithmetic (every result reduced modulo 2^32) on a platform where
 * `unsigned long` has 64 bits.
 *
 * `strtoul` is the C library's (section 7.22.1.4 of ISO/IEC 9899:2011):
 * leading white space, an optional sign, the longest run of decimal
 * digits; no digits gives 0, a value beyond `ULONG_MAX` gives `ULONG_MAX`,
 * and a minus sign negates in unsigned arithmetic.
 */
module Debuggee {
  import opened Common

  const Two32: int := 0x1_0000_0000
  const Two64: int := 0x1_0000_0000_0000_0000

  /** C's `unsigned`. */
  type Unsigned = x: int | 0 <= x < 0x1_0000_0000

  /** C's `unsigned long`. */
  type ULong = x: int | 0 <= x < 0x1_0000_0000_0000_0000

  /** Conversion to `unsigned`: reduction modulo 2^32. */
  function Wrap(x: int): Unsigned
  {
    x % Two32
  }

  // ---------------------------------------------------------------------
  // test.cpp

  /** `Bar(i)`: `i * 2`. */
  function Bar(i: Unsigned): Unsigned
  {
    Wrap(i * 2)
  }

  /** `Foo(n)`: 0 for 0, otherwise `n + Bar(n - 1)`. */
  function Foo(n: Unsigned): Unsigned
  {
    if n == 0 then 0 else Wrap(n + Bar(Wrap(n - 1)))
  }

  lemma WrapAdd(a: int, b: int)
    ensures Wrap(a + Wrap(b)) == Wrap(a + b)
  {
    var q := b / Two32;
    assert b == q * Two32 + Wrap(b);
    assert a + b == (a + Wrap(b)) + q * Two32;
  }

  lemma WrapShift(a: int, q: int)
    ensures Wrap(a + q * Two32) == Wrap(a)
  {
  }

  /** `Bar` doubles without overflow below 2^31, wraps above, and always
      returns an even number. */
  lemma BarDoubles(i: Unsigned)
    ensures Bar(i) % 2 == 0
    ensures i < 0x8000_0000 ==> Bar(i) == 2 * i
    ensures i >= 0x8000_0000 ==> Bar(i) == 2 * i - Two32 && Bar(i) == Bar(i - 0x8000_0000)
  {
    if i >= 0x8000_0000 {
      WrapShift(2 * i - Two32, 1);
    }
  }

  /** For every nonzero `n`, `Foo(n)` is 3n - 2 modulo 2^32. */
  lemma FooClosedForm(n: Unsigned)
    requires n > 0
    ensures Foo(n) == Wrap(3 * n - 2)
  {
    assert Wrap(n - 1) == n - 1;
    WrapAdd(n, 2 * (n - 1));
  }

  /** The values `main` computes for 0..9: `Foo(0) == 0` and, for example,
      `Foo(5) == 13`. */
  lemma FooValues()
    ensures Foo(0) == 0 && Foo(5) == 13
    ensures forall n: Unsigned :: 0 < n < 10 ==> Foo(n) == 3 * n - 2
  {
    FooClosedForm(5);
    forall n: Unsigned | 0 < n < 10 ensures Foo(n) == 3 * n - 2 {
      FooClosedForm(n);
    }
  }

  // ---------------------------------------------------------------------
  // lib.hpp

  /** 0 + 1 + ... + (n - 1). */
  function SumBelow(n: nat): nat
  {
    if n == 0 then 0 else SumBelow(n - 1) + (n - 1)
  }

  lemma {:induction false} SumBelowClosed(n: nat)
    ensures 2 * SumBelow(n) == n * (n - 1)
  {
    if n > 0 {
      SumBelowClosed(n - 1);
    }
  }

  /** `Lib::Baz()`: the loop adds 0..100. */
  method Baz() returns (ret: int)
    ensures ret == SumBelow(101) && ret == 5050
  {
    ret := 0;
    for i := 0 to 101
      invariant ret == SumBelow(i)
    {
      ret := ret + i;
    }
    SumBelowClosed(101);
  }

  /** C's `isspace` in the "C" locale. */
  predicate CSpace(c: char)
  {
    c == ' ' || c == '\t' || c == '\n' || c == '\U{0b}' || c == '\U{0c}' || c == '\r'
  }

  /** The index of the first character from k that is not white space. */
  function SkipCSpace(s: string, k: nat): (i: nat)
    requires k <= |s|
    ensures k <= i <= |s| && (i < |s| ==> !CSpace(s[i]))
    ensures forall j :: k <= j < i ==> CSpace(s[j])
    decreases |s| - k
  {
    if k < |s| && CSpace(s[k]) then SkipCSpace(s, k + 1) else k
  }

  /** The index just past the run of digits starting at k. */
  function DigitRun(s: string, k: nat): (i: nat)
    requires k <= |s|
    ensures k <= i <= |s| && (i < |s| ==> !IsDigit(s[i]))
    ensures forall j :: k <= j < i ==> IsDigit(s[j])
    decreases |s| - k
  {
    if k < |s| && IsDigit(s[k]) then DigitRun(s, k + 1) else k
  }

  /** `strtoul(s, nullptr, 10)`. */
  function StrToUL(s: string): ULong
  {
    var k := SkipCSpace(s, 0);
    var neg := k < |s| && s[k] == '-';
    var d := if k < |s| && (s[k] == '-' || s[k] == '+') then k + 1 else k;
    var e := DigitRun(s, d);
    var v := DigitsValue(s[d..e]);
    if v >= Two64 then Two64 - 1
    else if neg then (Two64 - v) % Two64
    else v
  }

  /** `Lib::GetLoopCount(argc, argv)`, with `argc` the length of `argv`. */
  function GetLoopCount(argv: seq<string>): Unsigned
  {
    if |argv| > 1 then Wrap(StrToUL(argv[1])) else 0xffff
  }

  /** Without an argument the loop count is 0xffff. */
  lemma LoopCountDefault(argv: seq<string>)
    requires |argv| <= 1
    ensures GetLoopCount(argv) == 65535
  {
  }

  lemma {:induction false} DigitRunAll(s: string, k: nat)
    requires k <= |s| && forall j :: k <= j < |s| ==> IsDigit(s[j])
    ensures DigitRun(s, k) == |s|
    decreases |s| - k
  {
    if k < |s| {
      DigitRunAll(s, k + 1);
    }
  }

  /** Every `unsigned` written in decimal as the argument is the loop
      count, 4294967295 among them. */
  lemma LoopCountRoundTrip(prog: string, n: Unsigned)
    ensures GetLoopCount([prog, NatToString(n)]) == n
  {
    var s := NatToString(n);
    assert !CSpace(s[0]) && s[0] != '-' && s[0] != '+';
    assert SkipCSpace(s, 0) == 0;
    DigitRunAll(s, 0);
    assert s[0..|s|] == s;
    NatToStringValue(n);
  }

  /** An argument with no digit after the white space and the sign gives
      a loop count of 0. */
  lemma LoopCountNoDigits(argv: seq<string>)
    requires |argv| > 1
    requires var s := argv[1]; var k := SkipCSpace(s, 0);
      var d := if k < |s| && (s[k] == '-' || s[k] == '+') then k + 1 else k;
      d == |s| || !IsDigit(s[d])
    ensures GetLoopCount(argv) == 0
  {
    var s := argv[1];
    var k := SkipCSpace(s, 0);
    var d := if k < |s| && (s[k] == '-' || s[k] == '+') then k + 1 else k;
    assert s[d..d] == [];
  }

  /** A decimal value too large for `unsigned` keeps its low 32 bits, and
      one beyond `unsigned long` saturates to `ULONG_MAX`, whose low 32
      bits are 0xffffffff. */
  lemma LoopCountTruncates(prog: string, v: nat)
    ensures GetLoopCount([prog, NatToString(v)]) == if v < Two64 then Wrap(v) else Two32 - 1
  {
    var s := NatToString(v);
    assert !CSpace(s[0]) && s[0] != '-' && s[0] != '+';
    assert SkipCSpace(s, 0) == 0;
    DigitRunAll(s, 0);
    assert s[0..|s|] == s;
    NatToStringValue(v);
    if v >= Two64 {
      WrapShift(Two32 - 1, 0xffff_ffff);
    }
  }

  /** `main(argc, argv)`: `Foo` on 0..9 (the list of the values it
      returns), `Baz` once, then the empty loop `GetLoopCount` times (the
      number of its iterations); the exit status is 0. */
  method TestMain(argv: seq<string>) returns (status: int, foos: seq<Unsigned>, baz: int, spins: nat)
    ensures foos == seq(10, i requires 0 <= i < 10 => Foo(i)) && baz == 5050
    ensures spins == GetLoopCount(argv) && status == 0
  {
    foos := [];
    for i := 0 to 10
      invariant foos == seq(i, j requires 0 <= j < i => Foo(j))
    {
      foos := foos + [Foo(i)];
    }
    baz := Baz();
    var n := GetLoopCount(argv);
    var i: Unsigned := 0;
    spins := 0;
    while i < n
      invariant i <= n && spins == i
      decreases n - i
    {
      i := i + 1;
      spins := spins + 1;
    }
    status := 0;
  }
}
