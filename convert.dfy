/** `util.StringToInt` (util/convert.go): a decimal fold over the runes of a
    string that never reports an error. Go's `int` is unbounded here. */
module Convert {

  /** What one rune contributes: its code point minus that of '0'.
      Nothing checks that the rune is a digit, so this may be negative
      or larger than nine. */
  function DigitValue(c: char): int
  {
    c as int - '0' as int
  }

  predicate IsDigits(s: string)
  {
    forall i :: 0 <= i < |s| ==> '0' <= s[i] <= '9'
  }

  /** The fold the loop computes, read from the last rune backwards. */
  function FoldDigits(s: string): int
  {
    if s == [] then 0 else 10 * FoldDigits(s[..|s| - 1]) + DigitValue(s[|s| - 1])
  }

  function Pow10(n: nat): (p: int)
    ensures p >= 1
  {
    if n == 0 then 1 else 10 * Pow10(n - 1)
  }

  /** Positional notation: rune `i` is weighted by ten to the number of
      runes after it. An independent reading of decimal value. */
  function Positional(s: string): int
  {
    if s == [] then 0 else DigitValue(s[0]) * Pow10(|s| - 1) + Positional(s[1..])
  }

  /** The loop of util/convert.go. */
  method StringToInt(s: string) returns (result: int)
    ensures result == FoldDigits(s)
  {
    result := 0;
    for i := 0 to |s|
      invariant result == FoldDigits(s[..i])
    {
      assert s[..i + 1][..i] == s[..i];
      result := result * 10 + DigitValue(s[i]);
    }
    assert s[..|s|] == s;
  }

  /** Appending a rune multiplies by ten and adds that rune's value. */
  lemma AppendRune(s: string, c: char)
    ensures FoldDigits(s + [c]) == 10 * FoldDigits(s) + DigitValue(c)
  {
    assert (s + [c])[..|s|] == s;
  }

  /** Folding a concatenation shifts the first part left by the length of
      the second. */
  lemma {:induction false} FoldConcat(a: string, b: string)
    ensures FoldDigits(a + b) == FoldDigits(a) * Pow10(|b|) + FoldDigits(b)
    decreases |b|
  {
    if b == [] {
      assert a + b == a;
    } else {
      var b' := b[..|b| - 1];
      var c := b[|b| - 1];
      assert a + b == (a + b') + [c];
      assert b == b' + [c];
      AppendRune(a + b', c);
      AppendRune(b', c);
      FoldConcat(a, b');
      var x, p, y := FoldDigits(a), Pow10(|b'|), FoldDigits(b');
      assert Pow10(|b|) == 10 * p;
      Regroup(x, p, y, DigitValue(c));
    }
  }

  lemma Regroup(x: int, p: int, y: int, d: int)
    ensures 10 * (x * p + y) + d == x * (10 * p) + (10 * y + d)
  {
  }

  /** The fold agrees with positional notation on every string. */
  lemma {:induction false} FoldIsPositional(s: string)
    ensures FoldDigits(s) == Positional(s)
    decreases |s|
  {
    if s != [] {
      FoldIsPositional(s[1..]);
      FoldConcat([s[0]], s[1..]);
      assert [s[0]] + s[1..] == s;
      assert [s[0]][..0] == [];
    }
  }

  /** On a string of decimal digits the result is its decimal value: a
      number with no more digits than the string. */
  lemma {:induction false} DigitsInRange(s: string)
    requires IsDigits(s)
    ensures 0 <= FoldDigits(s) < Pow10(|s|)
    decreases |s|
  {
    if s != [] {
      var s' := s[..|s| - 1];
      assert IsDigits(s') by {
        assert forall i :: 0 <= i < |s'| ==> s'[i] == s[i];
      }
      DigitsInRange(s');
      assert 0 <= DigitValue(s[|s| - 1]) <= 9;
    }
  }

  /** Leading zeros do not change the value. */
  lemma LeadingZero(s: string)
    ensures FoldDigits("0" + s) == FoldDigits(s)
  {
    FoldConcat("0", s);
    assert "0"[..0] == [];
  }

  /** No validation: letters and signs contribute their offset from '0'. */
  lemma NoValidation()
    ensures FoldDigits("") == 0
    ensures FoldDigits("42") == 42
    ensures FoldDigits("a") == 49
    ensures FoldDigits("-1") == -29
  {
    assert "42"[..1] == "4";
    assert "-1"[..1] == "-";
  }

  /** `strconv.FormatInt(n, 10)`: the decimal rendering, with a minus sign
      for a negative number and no leading zeros. */
  function FormatInt(n: int): (s: string)
    ensures |s| >= 1
  {
    if n < 0 then "-" + Decimal(-n) else Decimal(n)
  }

  function Decimal(n: nat): (s: string)
    ensures |s| >= 1 && IsDigits(s)
  {
    if n < 10 then [('0' as int + n) as char]
    else Decimal(n / 10) + [('0' as int + n % 10) as char]
  }

  /** Reading back a rendered number gives the number: `StringToInt` is an
      inverse of `FormatInt` on the numbers that have no sign. */
  lemma {:induction false} DecimalRoundTrip(n: nat)
    ensures FoldDigits(FormatInt(n)) == n
    ensures FoldDigits(Decimal(n)) == n
    decreases n
  {
    var s := Decimal(n);
    if n >= 10 {
      DecimalRoundTrip(n / 10);
      assert s[..|s| - 1] == Decimal(n / 10);
    }
  }

  /** A rendering has no leading zero, unless it is "0" itself. */
  lemma {:induction false} DecimalNoLeadingZero(n: nat)
    ensures Decimal(n)[0] == '0' <==> n == 0
    decreases n
  {
    if n >= 10 {
      DecimalNoLeadingZero(n / 10);
    }
  }
}
