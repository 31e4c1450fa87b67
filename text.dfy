/**
 * The few pieces of Go's `strings` and `strconv` packages that the command
 * handling relies on: `TrimSpace`, `ToLower`, `Split(s, " ")` and `Atoi`.
 * Strings are sequences of Unicode scalar values, as Go's `range` over a
 * string sees them.
 */
module Text {
  import opened Wrappers

  /**
   * The white space of Go's `unicode.IsSpace`: tab, line feed, vertical tab,
   * form feed, carriage return, space, U+0085, U+00A0, U+1680, U+2000 to
   * U+200A, U+2028, U+2029, U+202F, U+205F and U+3000.
   */
  const SPACE_CHARS: seq<char> := [
    '\t', '\n', '\U{000B}', '\U{000C}', '\r', ' ',
    '\U{0085}', '\U{00A0}', '\U{1680}',
    '\U{2000}', '\U{2001}', '\U{2002}', '\U{2003}', '\U{2004}', '\U{2005}',
    '\U{2006}', '\U{2007}', '\U{2008}', '\U{2009}', '\U{200A}',
    '\U{2028}', '\U{2029}', '\U{202F}', '\U{205F}', '\U{3000}']

  /** `c` occurs in `cs`, looked up one character at a time. */
  predicate Among(c: char, cs: seq<char>) {
    cs != [] && (cs[0] == c || Among(c, cs[1..]))
  }

  /** Go's `unicode.IsSpace`: the white space `strings.TrimSpace` removes. */
  predicate IsSpace(c: char) {
    Among(c, SPACE_CHARS)
  }

  /** A character outside the range of `cs` does not occur in it. */
  lemma {:induction false} NotAmong(c: char, cs: seq<char>, lo: char, hi: char)
    requires lo <= c <= hi
    requires forall i :: 0 <= i < |cs| ==> cs[i] < lo || hi < cs[i]
    ensures !Among(c, cs)
  {
    if cs != [] {
      NotAmong(c, cs[1..], lo, hi);
    }
  }

  /** No ASCII letter is white space. */
  lemma LetterNotSpace(c: char)
    requires 'A' <= c <= 'Z' || 'a' <= c <= 'z'
    ensures !IsSpace(c)
  {
    NotAmong(c, SPACE_CHARS, 'A', 'z');
  }

  /** Every character of `s` is white space. */
  predicate AllSpace(s: string) {
    forall i :: 0 <= i < |s| ==> IsSpace(s[i])
  }

  /** Drops the leading white space. */
  function TrimLeft(s: string): (r: string)
    ensures |r| <= |s| && r == s[|s| - |r|..]
    ensures r == [] || !IsSpace(r[0])
    ensures AllSpace(s[..|s| - |r|])
  {
    if s != [] && IsSpace(s[0]) then
      var r := TrimLeft(s[1..]);
      assert s[..|s| - |r|] == [s[0]] + s[1..][..|s| - 1 - |r|];
      r
    else s
  }

  /** Drops the trailing white space. */
  function TrimRight(s: string): (r: string)
    ensures |r| <= |s| && r == s[..|r|]
    ensures r == [] || !IsSpace(r[|r| - 1])
    ensures AllSpace(s[|r|..])
  {
    if s != [] && IsSpace(s[|s| - 1]) then
      var r := TrimRight(s[..|s| - 1]);
      assert s[|r|..] == s[..|s| - 1][|r|..] + [s[|s| - 1]];
      r
    else s
  }

  /** How many leading white-space characters `TrimLeft` drops. */
  function LeadCount(s: string): (n: nat)
    ensures n <= |s|
  {
    |s| - |TrimLeft(s)|
  }

  /** `strings.TrimSpace`: the input without its leading and trailing white space. */
  function TrimSpace(s: string): (r: string)
    ensures |r| <= |s|
    ensures r == [] || (!IsSpace(r[0]) && !IsSpace(r[|r| - 1]))
  {
    var l := TrimLeft(s);
    var r := TrimRight(l);
    assert r != [] ==> r[0] == l[0];
    r
  }

  /** What `TrimSpace` keeps is one slice of the input, after the leading white space. */
  lemma TrimSpaceSlice(s: string)
    ensures LeadCount(s) + |TrimSpace(s)| <= |s|
    ensures TrimSpace(s) == s[LeadCount(s)..LeadCount(s) + |TrimSpace(s)|]
  {
    var l := TrimLeft(s);
    var k := |s| - |l|;
    assert l == s[k..];
  }

  /** What `TrimSpace` drops on either side of that slice is white space. */
  lemma TrimSpaceCuts(s: string)
    ensures AllSpace(s[..LeadCount(s)])
    ensures AllSpace(s[LeadCount(s) + |TrimSpace(s)|..])
  {
    var l := TrimLeft(s);
    var r := TrimRight(l);
    var k := |s| - |l|;
    assert l[|r|..] == s[k + |r|..];
  }

  lemma {:induction false} TrimLeftOfUnpadded(s: string)
    requires s == [] || !IsSpace(s[0])
    ensures TrimLeft(s) == s
  {
  }

  lemma {:induction false} TrimRightOfUnpadded(s: string)
    requires s == [] || !IsSpace(s[|s| - 1])
    ensures TrimRight(s) == s
  {
  }

  /** Trimming twice trims nothing more. */
  lemma TrimSpaceIdempotent(s: string)
    ensures TrimSpace(TrimSpace(s)) == TrimSpace(s)
  {
    var t := TrimSpace(s);
    TrimLeftOfUnpadded(t);
    TrimRightOfUnpadded(t);
  }

  /** The lower-case mapping of `strings.ToLower` on ASCII letters. */
  function LowerChar(c: char): char {
    if 'A' <= c <= 'Z' then (c as int + 32) as char else c
  }

  /** `strings.ToLower`, letter by letter. */
  function ToLower(s: string): (r: string)
    ensures |r| == |s|
    ensures forall i :: 0 <= i < |s| ==> r[i] == LowerChar(s[i])
  {
    if s == [] then [] else [LowerChar(s[0])] + ToLower(s[1..])
  }

  /** Lower-casing works piece by piece. */
  lemma ToLowerAppend(a: string, b: string)
    ensures ToLower(a + b) == ToLower(a) + ToLower(b)
  {
    assert forall i :: 0 <= i < |a + b| ==> ToLower(a + b)[i] == (ToLower(a) + ToLower(b))[i];
  }

  lemma ToLowerIdempotent(s: string)
    ensures ToLower(ToLower(s)) == ToLower(s)
  {
  }

  /** Lower-casing keeps white space where it was and introduces none. */
  lemma LowerCharSpace(c: char)
    ensures IsSpace(LowerChar(c)) <==> IsSpace(c)
    ensures LowerChar(c) == ' ' <==> c == ' '
  {
    if 'A' <= c <= 'Z' {
      LetterNotSpace(c);
      LetterNotSpace(LowerChar(c));
    }
  }

  lemma {:induction false} TrimLeftLower(s: string)
    ensures TrimLeft(ToLower(s)) == ToLower(TrimLeft(s))
  {
    if s != [] {
      LowerCharSpace(s[0]);
      assert ToLower(s)[1..] == ToLower(s[1..]);
      if IsSpace(s[0]) {
        TrimLeftLower(s[1..]);
      }
    }
  }

  lemma {:induction false} TrimRightLower(s: string)
    ensures TrimRight(ToLower(s)) == ToLower(TrimRight(s))
  {
    if s != [] {
      LowerCharSpace(s[|s| - 1]);
      assert ToLower(s)[..|s| - 1] == ToLower(s[..|s| - 1]);
      if IsSpace(s[|s| - 1]) {
        TrimRightLower(s[..|s| - 1]);
      }
    }
  }

  /** Trimming and lower-casing can be done in either order. */
  lemma TrimSpaceLower(s: string)
    ensures TrimSpace(ToLower(s)) == ToLower(TrimSpace(s))
  {
    TrimLeftLower(s);
    TrimRightLower(TrimLeft(s));
  }

  /**
   * `strings.Split(s, " ")`: the pieces between single spaces, empty pieces
   * included; an input without a space is one piece.
   */
  function Split(s: string): (parts: seq<string>)
    ensures |parts| >= 1
    ensures forall i :: 0 <= i < |parts| ==> ' ' !in parts[i]
  {
    if s == [] then [[]]
    else
      var rest := Split(s[1..]);
      if s[0] == ' ' then [[]] + rest else [[s[0]] + rest[0]] + rest[1..]
  }

  /** `strings.Join(parts, " ")`, the inverse of `Split`. */
  function Join(parts: seq<string>): string
    requires |parts| >= 1
  {
    if |parts| == 1 then parts[0] else parts[0] + [' '] + Join(parts[1..])
  }

  /** Splitting loses nothing: joining the pieces gives the input back. */
  lemma {:induction false} JoinSplit(s: string)
    ensures Join(Split(s)) == s
  {
    if s != [] {
      var rest := Split(s[1..]);
      JoinSplit(s[1..]);
      if s[0] != ' ' && |rest| > 1 {
        assert Split(s)[1..] == rest[1..];
      }
    }
  }

  /** Pieces without spaces are exactly what splitting their join gives back. */
  lemma {:induction false} SplitJoin(parts: seq<string>)
    requires |parts| >= 1
    requires forall i :: 0 <= i < |parts| ==> ' ' !in parts[i]
    ensures Split(Join(parts)) == parts
  {
    if |parts| == 1 {
      SplitWithoutSpace(parts[0]);
    } else {
      SplitJoin(parts[1..]);
      SplitPrefix(parts[0], Join(parts[1..]));
      assert [parts[0]] + parts[1..] == parts;
    }
  }

  lemma {:induction false} SplitWithoutSpace(w: string)
    requires ' ' !in w
    ensures Split(w) == [w]
  {
    if w != [] {
      assert ' ' !in w[1..];
      SplitWithoutSpace(w[1..]);
      assert [w[0]] + w[1..] == w;
    }
  }

  lemma {:induction false} SplitPrefix(w: string, rest: string)
    requires ' ' !in w
    ensures Split(w + [' '] + rest) == [w] + Split(rest)
  {
    if w == [] {
      assert w + [' '] + rest == [' '] + rest;
      assert ([' '] + rest)[1..] == rest;
    } else {
      assert (w + [' '] + rest)[1..] == w[1..] + [' '] + rest;
      assert ' ' !in w[1..];
      SplitPrefix(w[1..], rest);
      assert [w[0]] + w[1..] == w;
    }
  }

  /** Lower-casing commutes with splitting at spaces. */
  lemma {:induction false} SplitLower(s: string)
    ensures |Split(ToLower(s))| == |Split(s)|
    ensures forall i :: 0 <= i < |Split(s)| ==> Split(ToLower(s))[i] == ToLower(Split(s)[i])
  {
    if s != [] {
      LowerCharSpace(s[0]);
      assert ToLower(s)[1..] == ToLower(s[1..]);
      SplitLower(s[1..]);
      var rest := Split(s[1..]);
      if s[0] != ' ' {
        assert ToLower([s[0]] + rest[0]) == [LowerChar(s[0])] + ToLower(rest[0]);
      }
    }
  }

  /** `SplitLower` for one word. */
  lemma SplitLowerAt(s: string, i: nat)
    requires i < |Split(s)|
    ensures |Split(ToLower(s))| == |Split(s)| && Split(ToLower(s))[i] == ToLower(Split(s)[i])
  {
    SplitLower(s);
  }

  predicate IsDigit(c: char) { '0' <= c <= '9' }

  function DigitValue(c: char): int requires IsDigit(c) { c as int - '0' as int }

  predicate AllDigits(s: string) { forall i :: 0 <= i < |s| ==> IsDigit(s[i]) }

  /** The value of a string of decimal digits, read left to right as `Atoi` does. */
  function DigitsValue(s: string): (n: nat)
    requires AllDigits(s)
  {
    if s == [] then 0 else DigitsValue(s[..|s| - 1]) * 10 + DigitValue(s[|s| - 1])
  }

  /**
   * `strconv.Atoi`: an optional sign followed by at least one decimal digit,
   * otherwise a syntax error (None).
   */
  function Atoi(s: string): (r: Option<int>)
    ensures r.Some? ==> s != [] && (IsDigit(s[0]) || s[0] == '+' || s[0] == '-')
  {
    if s == [] then None
    else if s[0] == '+' || s[0] == '-' then
      var digits := s[1..];
      if digits == [] || !AllDigits(digits) then None
      else
        var v: int := DigitsValue(digits);
        Some(if s[0] == '-' then -v else v)
    else if AllDigits(s) then Some(DigitsValue(s))
    else None
  }

  /**
   * `strconv.Atoi` succeeds exactly on an optional sign followed by at least
   * one digit, and then yields the digits' value, negated after a minus.
   */
  lemma AtoiSyntax(s: string)
    ensures Atoi(s).Some? <==> || (s != [] && AllDigits(s))
                               || (|s| >= 2 && (s[0] == '+' || s[0] == '-') && AllDigits(s[1..]))
    ensures Atoi(s).Some? && IsDigit(s[0]) ==> Atoi(s).value == DigitsValue(s)
    ensures Atoi(s).Some? && s[0] == '+' ==> Atoi(s).value == DigitsValue(s[1..])
    ensures Atoi(s).Some? && s[0] == '-' ==> Atoi(s).value == -(DigitsValue(s[1..]) as int)
  {
    if s != [] && (s[0] == '+' || s[0] == '-') {
      assert !IsDigit(s[0]);
    }
  }

  /** A leading zero does not change the value of a digit string. */
  lemma {:induction false} LeadingZero(s: string)
    requires AllDigits(s)
    ensures AllDigits(['0'] + s) && DigitsValue(['0'] + s) == DigitsValue(s)
    decreases |s|
  {
    var z := ['0'] + s;
    if s != [] {
      LeadingZero(s[..|s| - 1]);
      assert z[..|z| - 1] == ['0'] + s[..|s| - 1];
      assert z[|z| - 1] == s[|s| - 1];
    }
  }

  /** The words "+2" and "02" read as 2, as `strconv.Atoi` reads them; "" and "-" do not parse. */
  lemma AtoiExamples()
    ensures Atoi("+2") == Some(2) && Atoi("02") == Some(2)
    ensures Atoi("") == None && Atoi("-") == None && Atoi("2a") == None
  {
    LeadingZero("2");
    assert "02" == ['0'] + "2";
    assert DigitsValue("2") == DigitsValue("2"[..0]) * 10 + 2;
    assert "+2"[1..] == "2";
    assert !AllDigits("2a") by { assert !IsDigit("2a"[1]); }
  }

  /** The decimal digits of a natural number, most significant first. */
  function NatDigits(n: nat): (s: string)
    ensures s != [] && AllDigits(s)
  {
    if n < 10 then [('0' as int + n) as char]
    else NatDigits(n / 10) + [('0' as int + n % 10) as char]
  }

  /** `strconv.Itoa`: the decimal form of an integer, with a minus sign when negative. */
  function Itoa(n: int): string {
    if n < 0 then ['-'] + NatDigits(-n) else NatDigits(n)
  }

  lemma {:induction false} DigitsValueOfNatDigits(n: nat)
    ensures DigitsValue(NatDigits(n)) == n
  {
    var s := NatDigits(n);
    if n >= 10 {
      DigitsValueOfNatDigits(n / 10);
      assert s[..|s| - 1] == NatDigits(n / 10);
    }
  }

  /** `Atoi` reads back every number `Itoa` writes. */
  lemma {:induction false} AtoiItoa(n: int)
    ensures Atoi(Itoa(n)) == Some(n)
  {
    if n < 0 {
      var d := NatDigits(-n);
      DigitsValueOfNatDigits(-n);
      assert Itoa(n) == ['-'] + d;
      assert (['-'] + d)[1..] == d;
    } else {
      var d := NatDigits(n);
      DigitsValueOfNatDigits(n);
      assert IsDigit(d[0]);
    }
  }
}
