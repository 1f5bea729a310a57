/**
 The Recap position as the formatter writes it: fixed notation of a decimal coefficient and
 exponent, with the fraction's trailing zeros stripped.  It is the fixed-point text of the same
 number in lowest terms, which is what the parser reads back.
*/
module RecapPosition {
  import opened Numerals

  function Pow10(n: nat): nat {
    if n == 0 then 1 else 10 * Pow10(n - 1)
  }

  // format(position, "f") of coefficient * 10^exponent
  function Rendered(coefficient: nat, exponent: int): string {
    if exponent >= 0 then Decimal(coefficient) + Zeros(exponent)
    else
      var d := PaddedTo(Decimal(coefficient), 1 - exponent);
      d[..|d| + exponent] + "." + d[|d| + exponent..]
  }

  // str.rstrip(c)
  function StripEnd(s: string, c: char): string {
    if s != [] && s[|s| - 1] == c then StripEnd(s[..|s| - 1], c) else s
  }

  function PositionText(coefficient: nat, exponent: int): string {
    var number := Rendered(coefficient, exponent);
    if '.' in number then StripEnd(StripEnd(number, '0'), '.') else number
  }

  function Reduced(coefficient: nat, exponent: int): Fixed
    decreases if exponent >= 0 then 0 else -exponent
  {
    if exponent >= 0 then Fixed(coefficient * Pow10(exponent), 0)
    else if coefficient % 10 == 0 then Reduced(coefficient / 10, exponent + 1)
    else Fixed(coefficient, -exponent)
  }

  // The number is the same one, and its notation is in lowest terms.
  lemma {:induction false} ReducedIsEqual(coefficient: nat, exponent: int)
    requires coefficient > 0
    ensures var x := Reduced(coefficient, exponent);
      && Lowest(x) && x.units > 0
      && (exponent >= 0 ==> x.scale == 0 && x.units == coefficient * Pow10(exponent))
      && (exponent < 0 ==> x.scale <= -exponent && coefficient == x.units * Pow10(-exponent - x.scale))
    decreases if exponent >= 0 then 0 else -exponent
  {
    if exponent >= 0 {
      PowPositive(exponent);
    } else if coefficient % 10 == 0 {
      ReducedIsEqual(coefficient / 10, exponent + 1);
      var x := Reduced(coefficient, exponent);
      if exponent < -1 {
        assert Pow10(-exponent - x.scale) == 10 * Pow10(-(exponent + 1) - x.scale);
      } else {
        assert Pow10(1) == 10 * Pow10(0);
      }
    }
  }

  lemma {:induction false} PowPositive(n: nat)
    ensures Pow10(n) > 0
  {
    if n > 0 { PowPositive(n - 1); }
  }

  lemma {:induction false} TimesPow(coefficient: nat, n: nat)
    requires coefficient > 0
    ensures Decimal(coefficient * Pow10(n)) == Decimal(coefficient) + Zeros(n)
  {
    if n == 0 {
      assert Zeros(0) == "";
    } else {
      TimesPow(coefficient, n - 1);
      PowPositive(n - 1);
      Positive(coefficient, Pow10(n - 1));
      TimesTen(coefficient * Pow10(n - 1));
      TenTimes(coefficient, Pow10(n - 1));
      assert Zeros(n) == Zeros(n - 1) + "0";
    }
  }

  lemma Positive(a: nat, b: nat)
    requires a > 0 && b > 0
    ensures a * b > 0
  {
  }

  lemma TenTimes(a: nat, b: nat)
    ensures a * (10 * b) == 10 * (a * b)
  {
  }

  lemma TimesTen(n: nat)
    requires n > 0
    ensures Decimal(10 * n) == Decimal(n) + "0"
  {
  }

  lemma StripNothing(s: string, c: char)
    requires s != "" && s[|s| - 1] != c
    ensures StripEnd(s, c) == s
  {
  }

  lemma StripOne(s: string, c: char)
    ensures StripEnd(s + [c], c) == StripEnd(s, c)
  {
    assert (s + [c])[..|s|] == s;
  }

  // A trailing zero of the coefficient is a trailing zero of the text.
  lemma RenderedEndsInZero(coefficient: nat, exponent: int)
    requires coefficient > 0 && coefficient % 10 == 0 && exponent < -1
    ensures Rendered(coefficient, exponent) == Rendered(coefficient / 10, exponent + 1) + "0"
  {
    var d := PaddedTo(Decimal(coefficient), 1 - exponent);
    var d' := PaddedTo(Decimal(coefficient / 10), -exponent);
    assert Decimal(coefficient) == Decimal(coefficient / 10) + "0";
    assert d == d' + "0";
    assert d[..|d| + exponent] == d'[..|d'| + exponent + 1];
    assert d[|d| + exponent..] == d'[|d'| + exponent + 1..] + "0";
  }

  lemma RenderedWhole(coefficient: nat)
    requires coefficient > 0 && coefficient % 10 == 0
    ensures Rendered(coefficient, -1) == Decimal(coefficient / 10) + "." + "0"
  {
    assert Decimal(coefficient) == Decimal(coefficient / 10) + "0";
    DecimalIsRead(coefficient / 10);
    var d := PaddedTo(Decimal(coefficient), 2);
    assert d == Decimal(coefficient);
    assert d[..|d| - 1] == Decimal(coefficient / 10) && d[|d| - 1..] == "0";
  }

  lemma RenderedDotted(coefficient: nat, exponent: int)
    requires exponent < 0
    ensures '.' in Rendered(coefficient, exponent)
  {
    var d := PaddedTo(Decimal(coefficient), 1 - exponent);
    assert Rendered(coefficient, exponent)[|d| + exponent] == '.';
  }

  lemma DecimalPadding(n: nat)
    ensures PaddedTo(Decimal(n), 1) == Decimal(n) && AllDigits(Decimal(n)) && Decimal(n) != ""
  {
    DecimalIsRead(n);
  }

  lemma WholePosition(coefficient: nat)
    requires coefficient > 0 && coefficient % 10 == 0
    ensures PositionText(coefficient, -1) == FixedText(Reduced(coefficient, -1))
  {
    var whole := Decimal(coefficient / 10);
    RenderedWhole(coefficient);
    RenderedDotted(coefficient, -1);
    StripOne(whole + ".", '0');
    StripNothing(whole + ".", '0');
    StripOne(whole, '.');
    DecimalPadding(coefficient / 10);
    StripNothing(whole, '.');
    assert Pow10(0) == 1;
  }

  lemma FractionPosition(coefficient: nat, exponent: int)
    requires coefficient % 10 != 0 && exponent < 0
    ensures PositionText(coefficient, exponent) == FixedText(Fixed(coefficient, -exponent))
  {
    var x := Fixed(coefficient, -exponent);
    RenderedDotted(coefficient, exponent);
    RenderedIsText(coefficient, exponent);
    EndsInDigit(x);
    StripNothing(FixedText(x), '0');
    StripNothing(FixedText(x), '.');
  }

  lemma RenderedIsText(coefficient: nat, exponent: int)
    requires exponent < 0
    ensures Rendered(coefficient, exponent) == FixedText(Fixed(coefficient, -exponent))
  {
  }

  lemma EndsInDigit(x: Fixed)
    requires Lowest(x) && x.scale > 0
    ensures FixedText(x) != "" && FixedText(x)[|FixedText(x)| - 1] != '0' && FixedText(x)[|FixedText(x)| - 1] != '.'
  {
    FixedIsRead(x);
  }

  lemma {:induction false} PositionTextIsFixed(coefficient: nat, exponent: int)
    requires coefficient > 0
    ensures PositionText(coefficient, exponent) == FixedText(Reduced(coefficient, exponent))
    decreases if exponent >= 0 then 0 else -exponent
  {
    if exponent >= 0 {
      TimesPow(coefficient, exponent);
      DecimalPadding(coefficient * Pow10(exponent));
      DecimalPadding(coefficient);
    } else if coefficient % 10 != 0 {
      FractionPosition(coefficient, exponent);
    } else if exponent == -1 {
      WholePosition(coefficient);
    } else {
      PositionTextIsFixed(coefficient / 10, exponent + 1);
      RenderedEndsInZero(coefficient, exponent);
      RenderedDotted(coefficient, exponent);
      RenderedDotted(coefficient / 10, exponent + 1);
      StripOne(Rendered(coefficient / 10, exponent + 1), '0');
    }
  }
}
