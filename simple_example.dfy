/**
 * The example fuzz target of the simple example: `Main.parseNumber`, a
 * parser for an optionally signed decimal number with an optional fraction.
 */
module SimpleExample {
  import opened Wrappers

  /** `Main.Num`: the sign, the digits before the point and those after it. */
  datatype Num = Num(neg: bool, num: string, frac: string)

  /** Reading `str[0]` of an empty string, or one of the three `NumberFormatException`s. */
  datatype Failure = IndexOutOfBounds | NoLeadingNumbers | NoTrailingNumbers | UnknownChar(c: char)

  /** The message each `NumberFormatException` carries. */
  function Message(f: Failure): string
  {
    match f
    case IndexOutOfBounds => ""
    case NoLeadingNumbers => "No leading number(s)"
    case NoTrailingNumbers => "Decimal without trailing number(s)"
    case UnknownChar(c) => "Unknown char: " + [c]
  }

  /** `Char.isDigit`, for the ASCII digits. */
  predicate IsDigit(c: char)
  {
    '0' <= c <= '9'
  }

  predicate AllDigits(s: string)
  {
    forall i :: 0 <= i < |s| ==> IsDigit(s[i])
  }

  /** Where the maximal run of digits starting at i ends. */
  function RunEnd(s: string, i: nat): (e: nat)
    requires i <= |s|
    ensures i <= e <= |s| && AllDigits(s[i..e]) && (e == |s| || !IsDigit(s[e]))
    decreases |s| - i
  {
    if i < |s| && IsDigit(s[i]) then RunEnd(s, i + 1) else i
  }

  /** Where the number starts after its sign, and whether the sign is '-'. */
  function Sign(str: string): (nat, bool)
    requires |str| > 0
  {
    if str[0] == '+' then (1, false) else if str[0] == '-' then (1, true) else (0, false)
  }

  /** What `parseNumber` returns or throws, stated on the whole string. */
  function ParseSpec(str: string): Result<Num, Failure>
  {
    if |str| == 0 then Err(IndexOutOfBounds)
    else
      var (start, neg) := Sign(str);
      var e := RunEnd(str, start);
      if e == start then Err(NoLeadingNumbers)
      else if e < |str| && str[e] == '.' then
        var e' := RunEnd(str, e + 1);
        if e' == e + 1 then Err(NoTrailingNumbers)
        else if e' != |str| then Err(UnknownChar(str[e']))
        else Ok(Num(neg, str[start..e], str[e + 1..e']))
      else if e != |str| then Err(UnknownChar(str[e]))
      else Ok(Num(neg, str[start..e], ""))
  }

  /** `parseNumber`: the index walks over the sign, the digits, the point and the fraction digits. */
  method ParseNumber(str: string) returns (r: Result<Num, Failure>)
    ensures r == ParseSpec(str)
  {
    if |str| == 0 {
      return Err(IndexOutOfBounds);
    }
    var index := 0;
    var neg := false;
    if str[index] == '+' {
      index := index + 1;
    } else if str[index] == '-' {
      neg := true;
      index := index + 1;
    }
    var num;
    num, index := ReadDigits(str, index);
    if |num| == 0 {
      return Err(NoLeadingNumbers);
    }
    var frac := "";
    if index < |str| && str[index] == '.' {
      index := index + 1;
      frac, index := ReadDigits(str, index);
      if |frac| == 0 {
        return Err(NoTrailingNumbers);
      }
    }
    if index != |str| {
      return Err(UnknownChar(str[index]));
    }
    r := Ok(Num(neg, num, frac));
  }

  /** The `while (index < str.length && str[index].isDigit())` loops: the digits from `from` on, and the index after them. */
  method ReadDigits(str: string, from: nat) returns (run: string, index: nat)
    requires from <= |str|
    ensures index == RunEnd(str, from) && run == str[from..index]
  {
    index := from;
    run := "";
    while index < |str| && IsDigit(str[index])
      invariant from <= index <= RunEnd(str, from)
      invariant RunEnd(str, index) == RunEnd(str, from) && run == str[from..index]
      decreases |str| - index
    {
      run := run + [str[index]];
      index := index + 1;
    }
  }

  /** The text of a number: its sign ('+' only when asked for), its digits, and a point and the fraction when there is one. */
  function Render(n: Num, plus: bool): string
  {
    SignText(n.neg, plus) + n.num + (if n.frac == "" then "" else "." + n.frac)
  }

  function SignText(neg: bool, plus: bool): string
  {
    if neg then "-" else if plus then "+" else ""
  }

  /** The numbers `parseNumber` can return: some digits, and a fraction of digits. */
  predicate WellFormed(n: Num)
  {
    |n.num| > 0 && AllDigits(n.num) && AllDigits(n.frac)
  }

  /** A run of digits that is followed by a non-digit or the end is exactly the run RunEnd finds. */
  lemma {:induction false} RunEndAt(s: string, i: nat, j: nat)
    requires i <= j <= |s| && AllDigits(s[i..j]) && (j == |s| || !IsDigit(s[j]))
    ensures RunEnd(s, i) == j
    decreases j - i
  {
    if i < j {
      assert s[i + 1..j] == s[i..j][1..];
      RunEndAt(s, i + 1, j);
    }
  }

  /** Every well-formed number, written with or without a '+' when it is not negative, parses back to itself. */
  lemma ParseRender(n: Num, plus: bool)
    requires WellFormed(n) && !(n.neg && plus)
    ensures ParseSpec(Render(n, plus)) == Ok(n)
  {
    var sign := SignText(n.neg, plus);
    var tail: string := if n.frac == "" then "" else "." + n.frac;
    var s := Render(n, plus);
    Pieces(sign, n.num, tail);
    assert Sign(s) == (|sign|, n.neg) by {
      assert s[0] == if |sign| > 0 then sign[0] else n.num[0];
    }
    RunEndAt(s, |sign|, |sign| + |n.num|);
    if n.frac != "" {
      assert s[|sign| + |n.num|..] == tail;
      ParseFraction(s, |sign|, n.neg, |sign| + |n.num|, n.frac);
    }
  }

  /** A string whose digits end at a point followed by nothing but a non-empty run of digits parses with that fraction. */
  lemma ParseFraction(s: string, start: nat, neg: bool, e: nat, frac: string)
    requires |s| > 0 && Sign(s) == (start, neg) && start < e <= |s| && RunEnd(s, start) == e
    requires s[e..] == "." + frac && |frac| > 0 && AllDigits(frac)
    ensures ParseSpec(s) == Ok(Num(neg, s[start..e], frac))
  {
    assert s[e] == '.' && s[e + 1..|s|] == frac;
    RunEndAt(s, e + 1, |s|);
  }

  /** The three pieces of a + b + c can be cut out again. */
  lemma Pieces(a: string, b: string, c: string)
    ensures |a + b + c| == |a| + |b| + |c|
    ensures (a + b + c)[|a|..|a| + |b|] == b && (a + b + c)[|a| + |b|..] == c
    ensures |a| > 0 ==> (a + b + c)[0] == a[0]
    ensures |a| == 0 && |b| > 0 ==> (a + b + c)[0] == b[0]
  {
    assert (a + b + c)[|a| + |b|..] == c;
    assert (a + b + c)[|a|..|a| + |b|] == b;
  }

  /** Whatever `parseNumber` accepts is a well-formed number written out, with '+' exactly when the string starts with one. */
  lemma ParseSound(str: string, n: Num)
    requires ParseSpec(str) == Ok(n)
    ensures WellFormed(n) && |str| > 0 && !(n.neg && str[0] == '+') && str == Render(n, str[0] == '+')
  {
    var (start, neg) := Sign(str);
    var e := RunEnd(str, start);
    assert str[..start] == SignText(n.neg, str[0] == '+');
    if e < |str| && str[e] == '.' {
      RenderedWithFraction(str, n, start, e, str[0] == '+');
    } else {
      assert str == str[..start] + str[start..e];
    }
  }

  lemma RenderedWithFraction(str: string, n: Num, start: nat, e: nat, plus: bool)
    requires start <= e < |str| && str[e] == '.' && str[..start] == SignText(n.neg, plus)
    requires n.num == str[start..e] && n.frac == str[e + 1..] && n.frac != ""
    ensures str == Render(n, plus)
  {
    assert str == str[..start] + str[start..e] + ("." + str[e + 1..]);
  }
}
