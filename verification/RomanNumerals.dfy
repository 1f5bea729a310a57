/**
 Roman part numbers: the greedy writer and the right-to-left subtractive reader.  Reading undoes
 writing for every natural number, and the reader accepts exactly the greedy numerals up to 50.
*/
module RomanNumerals {
  import opened Basics

  // The value of a numeral letter.
  function Letter(c: char): Option<nat> {
    match c
    case 'I' => Some(1) case 'V' => Some(5) case 'X' => Some(10) case 'L' => Some(50)
    case 'C' => Some(100) case 'D' => Some(500) case 'M' => Some(1000)
    case _ => None
  }

  ghost predicate Letters(s: string) {
    forall i :: 0 <= i < |s| ==> Letter(s[i]).Some?
  }

  function Max(a: nat, b: nat): nat {
    if a < b then b else a
  }

  // Total and greatest letter read so far, from the right.
  function Read(s: string): (r: (int, nat))
    requires Letters(s)
  {
    if s == "" then (0, 0)
    else
      var (total, previous) := Read(s[1..]);
      var current := Letter(s[0]).value;
      (if current < previous then total - current else total + current, Max(previous, current))
  }

  // _int_to_roman
  function Greedy(n: nat): string {
    if n >= 10 then "X" + Greedy(n - 10)
    else if n >= 9 then "IX" + Greedy(n - 9)
    else if n >= 5 then "V" + Greedy(n - 5)
    else if n >= 4 then "IV" + Greedy(n - 4)
    else if n >= 1 then "I" + Greedy(n - 1)
    else ""
  }

  lemma ReadOne(c: char, s: string)
    requires Letter(c).Some? && Letters(s)
    ensures Letters([c] + s)
    ensures Read([c] + s) ==
      (if Letter(c).value < Read(s).1 then Read(s).0 - Letter(c).value else Read(s).0 + Letter(c).value,
       Max(Read(s).1, Letter(c).value))
  {
    assert ([c] + s)[1..] == s;
  }

  lemma ReadTwo(c: char, d: char, s: string)
    requires Letter(c).Some? && Letter(d).Some? && Letters(s) && Letter(c).value < Letter(d).value && Read(s).1 <= Letter(d).value
    ensures Letters([c, d] + s) && Read([c, d] + s) == (Read(s).0 + Letter(d).value - Letter(c).value, Letter(d).value)
  {
    ReadOne(d, s);
    ReadOne(c, [d] + s);
    assert [c] + ([d] + s) == [c, d] + s;
  }

  // Reading the greedy numeral of any number gives the number.
  lemma {:induction false} GreedyIsRead(n: nat)
    ensures Letters(Greedy(n)) && Read(Greedy(n)).0 == n
    ensures Read(Greedy(n)).1 == if n >= 9 then 10 else if n >= 4 then 5 else if n >= 1 then 1 else 0
  {
    if n >= 10 {
      GreedyIsRead(n - 10);
      ReadOne('X', Greedy(n - 10));
    } else if n >= 9 {
      GreedyIsRead(n - 9);
      ReadTwo('I', 'X', Greedy(n - 9));
    } else if n >= 5 {
      GreedyIsRead(n - 5);
      ReadOne('V', Greedy(n - 5));
    } else if n >= 4 {
      GreedyIsRead(n - 4);
      ReadTwo('I', 'V', Greedy(n - 4));
    } else if n >= 1 {
      GreedyIsRead(n - 1);
      ReadOne('I', Greedy(n - 1));
    }
  }

  function Tens(k: nat): string {
    if k == 0 then "" else "X" + Tens(k - 1)
  }

  const UNITS := ["", "I", "II", "III", "IV", "V", "VI", "VII", "VIII", "IX"]

  lemma UnitIsGreedy(n: nat)
    requires n < 10
    ensures Greedy(n) == UNITS[n]
  {
    assert Greedy(0) == "" && Greedy(1) == "I" + Greedy(0) && Greedy(2) == "I" + Greedy(1) && Greedy(3) == "I" + Greedy(2);
    assert Greedy(4) == "IV" + Greedy(0) && Greedy(5) == "V" + Greedy(0) && Greedy(6) == "V" + Greedy(1);
    assert Greedy(7) == "V" + Greedy(2) && Greedy(8) == "V" + Greedy(3) && Greedy(9) == "IX" + Greedy(0);
  }

  /** The greedy numeral is an X for each ten and then the customary numeral of the units. */
  lemma {:induction false} GreedyIsCustomary(n: nat)
    ensures Greedy(n) == Tens(n / 10) + UNITS[n % 10]
  {
    if n < 10 {
      UnitIsGreedy(n);
    } else {
      GreedyIsCustomary(n - 10);
      assert "X" + (Tens(n / 10 - 1) + UNITS[n % 10]) == ("X" + Tens(n / 10 - 1)) + UNITS[n % 10];
    }
  }

  lemma GreedyIsInjective(n: nat, m: nat)
    requires Greedy(n) == Greedy(m)
    ensures n == m
  {
    GreedyIsRead(n);
    GreedyIsRead(m);
  }

  // ------------------------------------------------------------------------------- the loops

  const TOKENS: seq<(nat, string)> := [(10, "X"), (9, "IX"), (5, "V"), (4, "IV"), (1, "I")]

  method IntToRoman(number: int) returns (result: string)
    ensures number >= 0 ==> result == Greedy(number)
    ensures number < 0 ==> result == ""
  {
    result := "";
    var rest := number;
    for i := 0 to |TOKENS|
      invariant number < 0 ==> result == "" && rest == number
      invariant number >= 0 ==> rest >= 0 && result + Greedy(rest) == Greedy(number)
      invariant i > 0 ==> rest < TOKENS[i - 1].0
    {
      var (value, token) := TOKENS[i];
      TokenIsNext(i);
      while rest >= value
        invariant number < 0 ==> result == "" && rest == number
        invariant number >= 0 ==> rest >= 0 && result + Greedy(rest) == Greedy(number)
        invariant i > 0 ==> rest < TOKENS[i - 1].0
      {
        assert Greedy(rest) == token + Greedy(rest - value);
        assert result + (token + Greedy(rest - value)) == (result + token) + Greedy(rest - value);
        result, rest := result + token, rest - value;
      }
    }
    if number >= 0 {
      assert rest == 0;
      assert result + "" == result;
    }
  }

  // Below the previous token, the next one is what the greedy writer takes.
  lemma TokenIsNext(i: nat)
    requires i < |TOKENS|
    ensures TOKENS[i].0 >= 1
    ensures forall n: nat :: n >= TOKENS[i].0 && (i > 0 ==> n < TOKENS[i - 1].0) ==>
      Greedy(n) == TOKENS[i].1 + Greedy(n - TOKENS[i].0)
  {
  }

  // roman_to_int over the upper-cased text
  method RomanToInt(text: string) returns (r: Option<nat>)
    ensures forall n: nat :: r == Some(n) <==> 1 <= n <= 50 && text == Greedy(n)
  {
    if text == "" || exists i :: 0 <= i < |text| && Letter(text[i]).None? {
      forall n: nat | text == Greedy(n)
        ensures n == 0
      {
        GreedyIsRead(n);
      }
      return None;
    }
    assert Letters(text);
    var total: int := 0;
    var previous: nat := 0;
    var i := |text|;
    while i > 0
      invariant 0 <= i <= |text|
      invariant (total, previous) == Read(text[i..])
    {
      i := i - 1;
      assert text[i..] == [text[i]] + text[i + 1..];
      ReadOne(text[i], text[i + 1..]);
      var current := Letter(text[i]).value;
      total := if current < previous then total - current else total + current;
      previous := Max(previous, current);
    }
    assert text[0..] == text;
    var canonical := IntToRoman(total);
    r := if canonical == text && 0 < total <= 50 then Some(total) else None;
    forall n: nat | text == Greedy(n)
      ensures n == total
    {
      GreedyIsRead(n);
    }
  }
}
