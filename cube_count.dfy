/** The cube count `setup` reads from the command line (examples/cubes/main.rs,
    `setup`): the first argument parsed as a `usize`, 700 when it is missing
    or does not parse, then rounded up to a perfect square `dim * dim`. */
module CubeCount {
  import opened Base

  /** The count used when no valid argument is given. */
  const DefaultCubeCount: nat := 700

  predicate IsDigit(c: char)
  {
    '0' <= c <= '9'
  }

  predicate AllDigits(s: string)
  {
    forall k :: 0 <= k < |s| ==> IsDigit(s[k])
  }

  /** The decimal value of a run of ASCII digits, most significant first. */
  function DigitsValue(s: string): nat
    requires AllDigits(s)
  {
    if s == [] then 0
    else DigitsValue(s[..|s| - 1]) * 10 + (s[|s| - 1] as int - '0' as int)
  }

  /** The digits of a numeral: the string without its one optional leading
      `+`. */
  function Unsigned(s: string): string
  {
    if s != [] && s[0] == '+' then s[1..] else s
  }

  /** `str::parse::<usize>()` followed by `.ok()`: an optional `+`, then one
      or more ASCII digits and nothing else, whose value fits a 64-bit
      `usize`. An empty string, a lone sign, a `-`, any other character or
      an overflow gives `None`; leading zeros are accepted. */
  function ParseUsize(s: string): (r: Option<usize>)
    ensures r.Some? ==> s != [] && s != "+"
    ensures r.Some? ==> forall k :: 0 <= k < |s| ==> IsDigit(s[k]) || (k == 0 && s[k] == '+')
    ensures r.Some? <==>
      Unsigned(s) != [] && AllDigits(Unsigned(s)) && DigitsValue(Unsigned(s)) < USIZE_LIMIT
    ensures r.Some? ==> AllDigits(Unsigned(s)) && r.value == DigitsValue(Unsigned(s))
  {
    if s == [] || s == "+" || s == "-" then None
    else
      var digits := if s[0] == '+' then s[1..] else s;
      if !AllDigits(digits) then None
      else
        var v := DigitsValue(digits);
        if v < USIZE_LIMIT then Some(v) else None
  }

  /** The decimal rendering of a number (`usize`'s `Display`), the inverse
      of parsing. */
  function Decimal(n: nat): (s: string)
    ensures s != [] && AllDigits(s)
  {
    var last := ['0' + ((n % 10) as char)];
    if n < 10 then last else Decimal(n / 10) + last
  }

  lemma {:induction false} DecimalValue(n: nat)
    ensures DigitsValue(Decimal(n)) == n
  {
    var s := Decimal(n);
    if n >= 10 {
      DecimalValue(n / 10);
      assert s[..|s| - 1] == Decimal(n / 10);
    }
  }

  /** Every `usize` written in decimal, with or without a leading `+`,
      parses back to itself. */
  lemma ParseDecimal(n: usize)
    ensures ParseUsize(Decimal(n)) == Some(n)
    ensures ParseUsize("+" + Decimal(n)) == Some(n)
  {
    DecimalValue(n);
    var d := Decimal(n);
    assert d[0] != '+' && d[0] != '-';
    assert ("+" + d)[1..] == d;
  }

  /** A leading zero does not change a numeral's value. */
  lemma {:induction false} LeadingZeroValue(s: string)
    requires AllDigits(s)
    ensures AllDigits("0" + s) && DigitsValue("0" + s) == DigitsValue(s)
  {
    if s != [] {
      LeadingZeroValue(s[..|s| - 1]);
      assert ("0" + s)[..|s|] == "0" + s[..|s| - 1];
    }
  }

  /** Leading zeros are accepted and ignored: `"007"` parses as `7`, and a
      zero after the `+` is ignored as well. */
  lemma LeadingZeroIgnored(s: string)
    requires s != [] && AllDigits(s)
    ensures ParseUsize("0" + s) == ParseUsize(s)
    ensures ParseUsize("+0" + s) == ParseUsize(s)
  {
    LeadingZeroValue(s);
    assert ("+0" + s)[1..] == "0" + s;
  }

  /** The first value past `usize::MAX`, written in decimal, does not parse. */
  lemma OverflowGivesNone()
    ensures ParseUsize(Decimal(USIZE_LIMIT)) == None
  {
    DecimalValue(USIZE_LIMIT);
  }

  function Square(d: nat): nat
  {
    d * d
  }

  lemma SquareMonotone(a: nat, b: nat)
    requires a <= b
    ensures Square(a) <= Square(b)
  {
    assert a * a <= a * b <= b * b;
  }

  /** `(n as f32).sqrt().ceil() as usize`, computed exactly: the least `d`
      whose square reaches `n`, found by counting up from `from`. */
  function CeilSqrtFrom(n: nat, from: nat): (d: nat)
    requires from == 0 || Square(from - 1) < n
    ensures Square(d) >= n && (d == 0 || Square(d - 1) < n)
    decreases n - from
  {
    if Square(from) >= n then from
    else
      assert from < n by {
        if from > 0 { SquareMonotone(1, from); }
      }
      CeilSqrtFrom(n, from + 1)
  }

  function CeilSqrt(n: nat): (d: nat)
    ensures Square(d) >= n && (d == 0 || Square(d - 1) < n)
  {
    CeilSqrtFrom(n, 0)
  }

  /** No smaller `d` has a square reaching `n`. */
  lemma CeilSqrtMinimal(n: nat, d: nat)
    requires Square(d) >= n
    ensures CeilSqrt(n) <= d
  {
    var r := CeilSqrt(n);
    if d < r {
      SquareMonotone(d, r - 1);
    }
  }

  /** The two properties determine the ceiling square root. */
  lemma CeilSqrtUnique(n: nat, d: nat)
    requires Square(d) >= n && (d == 0 || Square(d - 1) < n)
    ensures CeilSqrt(n) == d
  {
    var r := CeilSqrt(n);
    CeilSqrtMinimal(n, d);
    if r < d {
      SquareMonotone(r, d - 1);
    }
  }

  /** `n_cubes = dim * dim` with `dim` the ceiling square root: the least
      perfect square at or above `n`. */
  function RoundUpToSquare(n: nat): (m: nat)
    ensures m >= n
    ensures forall d: nat :: Square(d) >= n ==> m <= Square(d)
    ensures m == Square(CeilSqrt(m))
  {
    var dim := CeilSqrt(n);
    forall d: nat | Square(d) >= n ensures dim <= d { CeilSqrtMinimal(n, d); }
    CeilSqrtOfSquare(dim);
    Square(dim)
  }

  /** A perfect square is its own ceiling square root's square. */
  lemma CeilSqrtOfSquare(d: nat)
    ensures CeilSqrt(Square(d)) == d
  {
    if d > 0 {
      assert Square(d - 1) < Square(d) by {
        SquareMonotone(d - 1, d);
        assert (d - 1) * (d - 1) != d * d;
      }
    }
    CeilSqrtUnique(Square(d), d);
  }

  /** `std::env::args().nth(1).and_then(|arg| arg.parse::<usize>().ok())
      .unwrap_or(700)`: `args[0]` is the program name. */
  function RequestedCubeCount(args: seq<string>): (n: usize)
    ensures |args| < 2 ==> n == DefaultCubeCount
    ensures |args| >= 2 && ParseUsize(args[1]).None? ==> n == DefaultCubeCount
    ensures |args| >= 2 && ParseUsize(args[1]).Some? ==> n == ParseUsize(args[1]).value
  {
    if |args| < 2 then DefaultCubeCount
    else match ParseUsize(args[1])
      case Some(v) => v
      case None => DefaultCubeCount
  }

  /** The number of cubes `setup` generates. */
  function EffectiveCubeCount(args: seq<string>): (count: nat)
    ensures count >= RequestedCubeCount(args)
    ensures count == Square(CeilSqrt(count))
    ensures forall d: nat :: Square(d) >= RequestedCubeCount(args) ==> count <= Square(d)
  {
    RoundUpToSquare(RequestedCubeCount(args))
  }

  /** Rounding up is idempotent: the effective count of an effective count
      is itself. */
  lemma RoundUpIdempotent(n: nat)
    ensures RoundUpToSquare(RoundUpToSquare(n)) == RoundUpToSquare(n)
  {
    var m := RoundUpToSquare(n);
    CeilSqrtOfSquare(CeilSqrt(m));
  }

  /** "17" gives 25 (5 x 5). */
  lemma SeventeenGivesTwentyFive()
    ensures EffectiveCubeCount(["cubes", "17"]) == 25
  {
    assert AllDigits("17");
    assert DigitsValue("17") == 17 by {
      assert "17"[..1] == "1";
      assert "1"[..0] == "";
    }
    assert ParseUsize("17") == Some(17);
    CeilSqrtUnique(17, 5);
  }

  /** An argument that does not parse falls back to 700, giving 729 (27 x 27). */
  lemma InvalidArgumentGivesDefault()
    ensures EffectiveCubeCount(["cubes", "abc"]) == 729
    ensures EffectiveCubeCount(["cubes"]) == 729
    ensures EffectiveCubeCount(["cubes", "-5"]) == 729
  {
    assert !IsDigit("abc"[0]);
    assert ParseUsize("abc") == None;
    assert !IsDigit("-5"[0]);
    assert ParseUsize("-5") == None;
    CeilSqrtUnique(700, 27);
  }
}
