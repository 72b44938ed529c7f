/**
 * `AflDictionary.read`: AFL dictionary files, one entry per line, in the form
 * `label@level="value"` with `\\`, `\"` and `\xHH` escapes in the value.
 * Characters are classified by their ASCII meaning; a line's value is read
 * by a cursor that walks from the opening quote to the first unescaped quote.
 */
module AflDictionary {
  import opened Wrappers
  import JavaInts
  import Bytes

  /** `AflDictionary.Entry`; equality compares the value bytes by content. */
  datatype Entry = Entry(name: Option<seq<char>>, level: Option<int>, value: seq<bv8>)

  /** Why a line is rejected; every message names the 1-based line number. */
  datatype ErrorKind =
    | NoClosingQuote
    | BadLevel
    | NoOpeningQuote
    | UnexpectedEnd
    | MultibyteChars
    | InvalidChar
    | UnknownEscape
    | IndexOutOfBounds
    | InvalidHexChars
    | EmptyValue

  datatype ParseError = ParseError(lineNum: int, kind: ErrorKind)

  datatype LineOutcome = Skipped | Parsed(entry: Entry) | Failed(kind: ErrorKind)

  // ----------------------------------------------------- characters

  /** `isWhitespace()` on ASCII: tab, line feed, vertical tab, form feed, carriage return, the four separators and space. */
  predicate IsWhitespace(c: char)
  {
    9 <= c as int <= 13 || 28 <= c as int <= 32
  }

  predicate IsDigit(c: char) { '0' <= c <= '9' }

  predicate IsLabelChar(c: char)
  {
    'a' <= c <= 'z' || 'A' <= c <= 'Z' || IsDigit(c) || c == '_'
  }

  predicate IsSeparator(c: char) { IsWhitespace(c) || c == '=' }

  /**
   * `chr.toByte().toChar() == chr`: the low eight bits, sign-extended to a
   * 16-bit char, give the char back.  That holds for the ASCII chars and for
   * the chars U+FF80 to U+FFFF.
   */
  predicate ByteRoundTrips(c: char)
  {
    c as int < 0x80 || 0xFF80 <= c as int <= 0xFFFF
  }

  /** `Char.toByte()`: the low eight bits. */
  function CharByte(c: char): bv8
  {
    Bytes.ToByte(c as int)
  }

  /** `Character.digit(c, 16)` on ASCII. */
  function HexDigit(c: char): (r: Option<int>)
    ensures r.Some? ==> 0 <= r.value < 16
  {
    if '0' <= c <= '9' then Some(c as int - '0' as int)
    else if 'a' <= c <= 'f' then Some(c as int - 'a' as int + 10)
    else if 'A' <= c <= 'F' then Some(c as int - 'A' as int + 10)
    else None
  }

  /** `x.toIntOrNull(16)` for a two-char string: a sign and one digit, or two digits. */
  function HexValue(x0: char, x1: char): (r: Option<int>)
    ensures r.Some? ==> -15 <= r.value <= 255
  {
    var d1 := HexDigit(x1);
    if d1.None? then None
    else if x0 == '-' then Some(-d1.value)
    else if x0 == '+' then d1
    else
      var d0 := HexDigit(x0);
      if d0.None? then None else Some(16 * d0.value + d1.value)
  }

  /** The decimal value of a run of digits. */
  function DigitsValue(s: seq<char>): (r: nat)
    requires forall i :: 0 <= i < |s| ==> IsDigit(s[i])
  {
    if s == [] then 0
    else
      assert IsDigit(s[|s| - 1]);
      10 * DigitsValue(s[..|s| - 1]) + (s[|s| - 1] as int - '0' as int)
  }

  // ----------------------------------------------------- line pieces

  /** The length of the run of chars from i on that satisfy p (`drop(i).takeWhile(p).length`). */
  function SpanLen(s: seq<char>, i: nat, p: char -> bool): (n: nat)
    requires i <= |s|
    ensures i + n <= |s|
    ensures forall k :: i <= k < i + n ==> p(s[k])
    ensures i + n < |s| ==> !p(s[i + n])
    decreases |s| - i
  {
    if i == |s| || !p(s[i]) then 0 else 1 + SpanLen(s, i + 1, p)
  }

  /** The number of leading whitespace chars. */
  function LeadingSpace(s: seq<char>): (n: nat)
    ensures n <= |s|
    ensures forall k :: 0 <= k < n ==> IsWhitespace(s[k])
    ensures n < |s| ==> !IsWhitespace(s[n])
  {
    SpanLen(s, 0, IsWhitespace)
  }

  /** The number of trailing whitespace chars. */
  function TrailingSpace(s: seq<char>): (n: nat)
    ensures n <= |s|
    ensures forall k :: |s| - n <= k < |s| ==> IsWhitespace(s[k])
    ensures n < |s| ==> !IsWhitespace(s[|s| - n - 1])
  {
    if s == [] || !IsWhitespace(s[|s| - 1]) then 0 else 1 + TrailingSpace(s[..|s| - 1])
  }

  /** `trim()`: the line without its leading and trailing whitespace. */
  function Trim(s: seq<char>): (t: seq<char>)
    ensures t == [] || (!IsWhitespace(t[0]) && !IsWhitespace(t[|t| - 1]))
    ensures IsInfix(t, s)
  {
    var lead := LeadingSpace(s);
    var rest := s[lead..];
    var t := rest[..|rest| - TrailingSpace(rest)];
    assert InfixAt(t, s, lead);
    t
  }

  /** t occurs in s at position i. */
  predicate InfixAt(t: seq<char>, s: seq<char>, i: int)
  {
    0 <= i <= |s| - |t| && t == s[i..i + |t|]
  }

  ghost predicate IsInfix(t: seq<char>, s: seq<char>)
  {
    exists i :: InfixAt(t, s, i)
  }

  /** `line.getOrNull(i) == c`. */
  predicate CharAt(line: seq<char>, i: int, c: char)
  {
    0 <= i < |line| && line[i] == c
  }

  // ----------------------------------------------------- the value

  /** What the cursor has read so far in front of what the rest of the value reads. */
  function Prepend(acc: seq<bv8>, r: Result<seq<bv8>, ErrorKind>): Result<seq<bv8>, ErrorKind>
  {
    if r.Ok? then Ok(acc + r.value) else r
  }

  lemma PrependAppend(acc: seq<bv8>, b: seq<bv8>, r: Result<seq<bv8>, ErrorKind>)
    ensures Prepend(acc, Prepend(b, r)) == Prepend(acc + b, r)
    ensures Prepend([], r) == r
  {
    if r.Ok? {
      assert acc + (b + r.value) == (acc + b) + r.value;
      assert [] + r.value == r.value;
    }
  }

  /** What the cursor does at the start of s: stop at the closing quote, fail, or take one byte from `width` chars. */
  datatype Step = Close | Fail(kind: ErrorKind) | Take(b: bv8, width: nat)

  /** One turn of the value loop on the chars s after the cursor. */
  function NextStep(s: seq<char>): (r: Step)
    ensures r.Take? ==> 1 <= r.width <= |s|
  {
    if s == [] then Fail(UnexpectedEnd)
    else
      var c := s[0];
      if !ByteRoundTrips(c) then Fail(MultibyteChars)
      else if 1 <= c as int <= 31 || 128 <= c as int <= 255 then Fail(InvalidChar)
      else if c == '\\' then
        if |s| < 2 then Fail(UnknownEscape)
        else if s[1] == '\\' || s[1] == '"' then Take(CharByte(s[1]), 2)
        else if s[1] != 'x' then Fail(UnknownEscape)
        else if |s| < 4 then Fail(IndexOutOfBounds)
        else
          var v := HexValue(s[2], s[3]);
          if v.None? then Fail(InvalidHexChars) else Take(Bytes.ToByte(v.value - 128), 4)
      else if c == '"' then Close
      else Take(CharByte(c), 1)
  }

  /**
   * The value read from the chars after the opening quote, up to the first
   * unescaped quote: each char by its low byte, `\\` and `\"` by the escaped
   * char, and `\xHH` by the byte HH - 128.
   */
  function Quoted(s: seq<char>): (r: Result<seq<bv8>, ErrorKind>)
    decreases |s|
  {
    match NextStep(s)
    case Close => Ok([])
    case Fail(kind) => Err(kind)
    case Take(b, width) => Prepend([b], Quoted(s[width..]))
  }

  /** The level after a label: `None` without an `@`, else the digits' value or an error. */
  function Level(line: seq<char>, labelLen: nat): (r: Result<(Option<int>, nat), ErrorKind>)
    requires labelLen <= |line|
    ensures r.Ok? ==> labelLen <= r.value.1 <= |line|
  {
    if labelLen == 0 || !CharAt(line, labelLen, '@') then Ok((None, labelLen))
    else
      var n := SpanLen(line, labelLen + 1, IsDigit);
      var digits := line[labelLen + 1..labelLen + 1 + n];
      if n == 0 || DigitsValue(digits) > JavaInts.INT_MAX then Err(BadLevel)
      else Ok((Some(DigitsValue(digits)), labelLen + 1 + n))
  }

  /** What one line gives: nothing for a blank or comment line, an entry, or an error. */
  function LineSpec(lineOrig: seq<char>): LineOutcome
  {
    var line := Trim(lineOrig);
    if line == [] || line[0] == '#' then Skipped
    else if line[|line| - 1] != '"' then Failed(NoClosingQuote)
    else EntrySpec(line, SpanLen(line, 0, IsLabelChar))
  }

  /** A line that is not skipped, from the end of its label on. */
  function EntrySpec(line: seq<char>, labelLen: nat): LineOutcome
    requires labelLen <= |line|
  {
    var level := Level(line, labelLen);
    if level.Err? then Failed(level.error)
    else ValueSpec(line, Label(line, labelLen), level.value.0, level.value.1)
  }

  /** The separators after the level, the opening quote and the value. */
  function ValueSpec(line: seq<char>, name: Option<seq<char>>, level: Option<int>, from: nat): LineOutcome
    requires from <= |line|
  {
    var open := from + SpanLen(line, from, IsSeparator);
    if !CharAt(line, open, '"') then Failed(NoOpeningQuote)
    else Classify(name, level, Quoted(line[open + 1..]))
  }

  /** The label: `null` when the line starts with no label char. */
  function Label(line: seq<char>, labelLen: nat): Option<seq<char>>
    requires labelLen <= |line|
  {
    if labelLen == 0 then None else Some(line[..labelLen])
  }

  /** The outcome once the value is read: an empty value is an error. */
  function Classify(name: Option<seq<char>>, level: Option<int>, value: Result<seq<bv8>, ErrorKind>): LineOutcome
  {
    if value.Err? then Failed(value.error)
    else if value.value == [] then Failed(EmptyValue)
    else Parsed(Entry(name, level, value.value))
  }

  /** `read(lines)`: the entries of the lines in order, or the error of the first bad line. */
  function ReadSpec(lines: seq<seq<char>>): Result<seq<Entry>, ParseError>
  {
    if lines == [] then Ok([])
    else
      var n := |lines|;
      var init := ReadSpec(lines[..n - 1]);
      if init.Err? then init
      else match LineSpec(lines[n - 1])
        case Skipped => init
        case Parsed(e) => Ok(init.value + [e])
        case Failed(kind) => Err(ParseError(n, kind))
  }

  /** `values`: the entries' values, in order. */
  function Values(entries: seq<Entry>): (r: seq<seq<bv8>>)
    ensures |r| == |entries| && forall i :: 0 <= i < |r| ==> r[i] == entries[i].value
  {
    seq(|entries|, i requires 0 <= i < |entries| => entries[i].value)
  }

  // ----------------------------------------------------- the parser

  /** The loop over the value: a cursor from the opening quote that appends each byte read. */
  method ReadValue(line: seq<char>, quote: nat) returns (r: Result<seq<bv8>, ErrorKind>)
    requires quote < |line|
    ensures r == Quoted(line[quote + 1..])
  {
    var value: seq<bv8> := [];
    var currIndex := quote;
    PrependAppend([], [], Quoted(line[quote + 1..]));
    while true
      invariant quote <= currIndex < |line|
      invariant Quoted(line[quote + 1..]) == Prepend(value, Quoted(line[currIndex + 1..]))
      decreases |line| - currIndex
    {
      ghost var rest := line[currIndex + 1..];
      ghost var step := NextStep(rest);
      currIndex := currIndex + 1;
      if currIndex >= |line| {
        return Err(UnexpectedEnd);
      }
      var chr := line[currIndex];
      assert rest[0] == chr;
      if !ByteRoundTrips(chr) {
        return Err(MultibyteChars);
      }
      var b: bv8;
      if 1 <= chr as int <= 31 || 128 <= chr as int <= 255 {
        return Err(InvalidChar);
      } else if chr == '\\' {
        currIndex := currIndex + 1;
        if currIndex >= |line| {
          return Err(UnknownEscape);
        }
        var esc := line[currIndex];
        assert rest[1] == esc;
        if esc == '\\' || esc == '"' {
          b := CharByte(esc);
        } else if esc == 'x' {
          currIndex := currIndex + 1;
          if currIndex + 2 > |line| {
            return Err(IndexOutOfBounds);
          }
          var x := HexValue(line[currIndex], line[currIndex + 1]);
          assert rest[2] == line[currIndex] && rest[3] == line[currIndex + 1];
          currIndex := currIndex + 1;
          if x.None? {
            return Err(InvalidHexChars);
          }
          b := Bytes.ToByte(x.value - 128);
        } else {
          return Err(UnknownEscape);
        }
      } else if chr == '"' {
        assert value + [] == value;
        return Ok(value);
      } else {
        b := CharByte(chr);
      }
      assert step == Take(b, currIndex - |line| + |rest| + 1);
      assert rest[step.width..] == line[currIndex + 1..];
      PrependAppend(value, [b], Quoted(line[currIndex + 1..]));
      value := value + [b];
    }
  }

  /** One line of `read`: trimmed, then skipped, rejected or read as an entry. */
  method ParseLine(lineOrig: seq<char>) returns (r: LineOutcome)
    ensures r == LineSpec(lineOrig)
  {
    var line := Trim(lineOrig);
    if line == [] || line[0] == '#' {
      return Skipped;
    }
    if line[|line| - 1] != '"' {
      return Failed(NoClosingQuote);
    }
    r := ParseEntry(line, SpanLen(line, 0, IsLabelChar));
  }

  /** The rest of a line, from the end of its label on. */
  method ParseEntry(line: seq<char>, labelLen: nat) returns (r: LineOutcome)
    requires labelLen <= |line|
    ensures r == EntrySpec(line, labelLen)
  {
    var level := Level(line, labelLen);
    if level.Err? {
      return Failed(level.error);
    }
    r := ParseValue(line, Label(line, labelLen), level.value.0, level.value.1);
  }

  /** The separators found by `takeWhile`, the opening quote, and the value read by the cursor loop. */
  method ParseValue(line: seq<char>, name: Option<seq<char>>, level: Option<int>, from: nat) returns (r: LineOutcome)
    requires from <= |line|
    ensures r == ValueSpec(line, name, level, from)
  {
    var currIndex := from + SpanLen(line, from, IsSeparator);
    if !CharAt(line, currIndex, '"') {
      return Failed(NoOpeningQuote);
    }
    var value := ReadValue(line, currIndex);
    r := Classify(name, level, value);
  }

  /** `read(lines)`: `mapIndexedNotNull` over the lines, stopping at the first error. */
  method Read(lines: seq<seq<char>>) returns (r: Result<seq<Entry>, ParseError>)
    ensures r == ReadSpec(lines)
  {
    var entries: seq<Entry> := [];
    var index := 0;
    while index < |lines|
      invariant 0 <= index <= |lines|
      invariant ReadSpec(lines[..index]) == Ok(entries)
    {
      assert lines[..index + 1][..index] == lines[..index];
      var outcome := ParseLine(lines[index]);
      match outcome {
        case Skipped =>
        case Parsed(e) =>
          entries := entries + [e];
        case Failed(kind) =>
          ReadSpecPrefixError(lines, index + 1);
          return Err(ParseError(index + 1, kind));
      }
      index := index + 1;
    }
    assert lines[..index] == lines;
    r := Ok(entries);
  }

  // ----------------------------------------------------- properties

  /** An error in the first k lines is the error of the whole read. */
  lemma {:induction false} ReadSpecPrefixError(lines: seq<seq<char>>, k: nat)
    requires k <= |lines| && ReadSpec(lines[..k]).Err?
    ensures ReadSpec(lines) == ReadSpec(lines[..k])
    decreases |lines|
  {
    if k == |lines| {
      assert lines[..k] == lines;
    } else {
      var init := lines[..|lines| - 1];
      assert init[..k] == lines[..k];
      ReadSpecPrefixError(init, k);
    }
  }

  /** Every entry read has a non-empty value, and there are never more entries than lines. */
  lemma {:induction false} ReadSpecEntries(lines: seq<seq<char>>)
    requires ReadSpec(lines).Ok?
    ensures |ReadSpec(lines).value| <= |lines|
    ensures forall e :: e in ReadSpec(lines).value ==> e.value != []
    decreases |lines|
  {
    if lines != [] {
      ReadSpecEntries(lines[..|lines| - 1]);
    }
  }

  /** Blank and comment lines add nothing, wherever they are. */
  lemma ReadSkipsComment(lines: seq<seq<char>>, comment: seq<char>)
    requires LineSpec(comment).Skipped?
    ensures ReadSpec(lines + [comment]) == ReadSpec(lines)
  {
    assert (lines + [comment])[..|lines|] == lines;
  }

  /** A step that closes or takes a byte looks at no char past its own. */
  lemma NextStepIgnoresRest(s: seq<char>, t: seq<char>)
    requires NextStep(s).Close? || NextStep(s).Take?
    ensures NextStep(s + t) == NextStep(s)
  {
    assert (s + t)[0] == s[0];
    if |s| >= 2 {
      assert (s + t)[1] == s[1];
    }
    if |s| >= 4 {
      assert (s + t)[2] == s[2] && (s + t)[3] == s[3];
    }
  }

  /** Whatever follows the closing quote is ignored. */
  lemma {:induction false} QuotedIgnoresRest(s: seq<char>, t: seq<char>)
    requires Quoted(s).Ok?
    ensures Quoted(s + t) == Quoted(s)
    decreases |s|
  {
    NextStepIgnoresRest(s, t);
    var step := NextStep(s);
    if step.Take? {
      assert (s + t)[step.width..] == s[step.width..] + t;
      QuotedIgnoresRest(s[step.width..], t);
    }
  }

  /** The lower-case hex digit for 0 to 15. */
  function HexChar(d: int): (c: char)
    requires 0 <= d < 16
    ensures HexDigit(c) == Some(d)
  {
    if d < 10 then ('0' as int + d) as char else ('a' as int + d - 10) as char
  }

  /** `\xHH` for one byte, HH being the byte plus 128 modulo 256. */
  function EscapedByte(b: bv8): (s: seq<char>)
    ensures |s| == 4
  {
    var h := (b as int + 128) % 256;
    ['\\', 'x', HexChar(h / 16), HexChar(h % 16)]
  }

  /** A value written with one `\xHH` escape per byte. */
  function Escaped(value: seq<bv8>): (s: seq<char>)
    ensures |s| == 4 * |value|
  {
    if value == [] then [] else EscapedByte(value[0]) + Escaped(value[1..])
  }

  /** The byte behind HH is HH - 128, so the offset of the escape cancels. */
  lemma ByteOffsetCancels(b: bv8)
    ensures Bytes.ToByte((b as int + 128) % 256 - 128) == b
  {
    var x := (b as int + 128) % 256 - 128;
    assert x % 0x100 == b as int by {
      if b < 128 {
        assert x == b as int;
      } else {
        assert x == b as int - 256;
      }
    }
    Bytes.ToByteOf(x, b);
  }

  /** One escape is one step that takes its byte. */
  lemma EscapedByteStep(b: bv8, t: seq<char>)
    ensures NextStep(EscapedByte(b) + t) == Take(b, 4)
  {
    var s := EscapedByte(b) + t;
    var h := (b as int + 128) % 256;
    assert s[0] == '\\' && s[1] == 'x';
    assert s[2] == HexChar(h / 16) && s[3] == HexChar(h % 16);
    assert HexValue(s[2], s[3]) == Some(h);
    ByteOffsetCancels(b);
  }

  /** Reading an escaped value up to its closing quote gives the bytes back. */
  lemma {:induction false} EscapedRoundTrip(value: seq<bv8>)
    ensures Quoted(Escaped(value) + ['"']) == Ok(value)
    decreases |value|
  {
    var s := Escaped(value) + ['"'];
    if value == [] {
      assert s == ['"'];
    } else {
      var t := Escaped(value[1..]) + ['"'];
      assert s == EscapedByte(value[0]) + t;
      EscapedByteStep(value[0], t);
      assert s[4..] == t;
      EscapedRoundTrip(value[1..]);
      assert [value[0]] + value[1..] == value;
    }
  }

  /** A run of n chars satisfying p, ended by the end of s or by a char that does not. */
  lemma SpanLenIs(s: seq<char>, i: nat, n: nat, p: char -> bool)
    requires i + n <= |s|
    requires forall k :: i <= k < i + n ==> p(s[k])
    requires i + n == |s| || !p(s[i + n])
    ensures SpanLen(s, i, p) == n
  {
  }

  /** A line without surrounding whitespace is its own trimmed form. */
  lemma TrimmedAlready(s: seq<char>)
    requires s != [] && !IsWhitespace(s[0]) && !IsWhitespace(s[|s| - 1])
    ensures Trim(s) == s
  {
    assert s[0..][..|s|] == s;
  }

  /** The value of `section_21f9="!\xf9\x04"`: each escape gives its hex value minus 128. */
  lemma HexEscapeExample()
    ensures Quoted("!\\xf9\\x04\"") == Ok([0x21, 0x79, 0x84])
  {
    var v := "!\\xf9\\x04\"";
    assert NextStep(v) == Take(0x21, 1);
    assert v[1..] == "\\xf9\\x04\"";
    assert HexValue('f', '9') == Some(0xF9);
    assert NextStep(v[1..]) == Take(0x79, 4);
    assert v[1..][4..] == "\\x04\"";
    assert HexValue('0', '4') == Some(0x04);
    assert NextStep(v[1..][4..]) == Take(0x84, 4);
    assert v[1..][4..][4..] == "\"";
    assert Quoted(v[1..][4..][4..]) == Ok([]);
    assert [0x84 as bv8] + [] == [0x84];
    assert Quoted(v[1..][4..]) == Ok([0x84]);
    assert [0x79 as bv8] + [0x84] == [0x79, 0x84];
    assert Quoted(v[1..]) == Ok([0x79, 0x84]);
    assert [0x21 as bv8] + [0x79, 0x84] == [0x21, 0x79, 0x84];
  }
}
