/** Character classes, decimal renderings and the few `str` operations the
    core relies on (`isalpha`, `isnumeric`, `isspace`, `upper`, `in`,
    `startswith`, `join`, `split`, `re.findall` of one character class). Only
    ASCII characters are classified as letters, digits or whitespace. */
module Text {

  predicate IsLetter(c: char) {
    ('a' <= c <= 'z') || ('A' <= c <= 'Z')
  }

  predicate IsDigit(c: char) {
    '0' <= c <= '9'
  }

  /** `str.isspace` on ASCII: space, \t \n \v \f \r and the separators 0x1c-0x1f. */
  predicate IsSpace(c: char) {
    c == ' ' || (9 <= c as int <= 13) || (28 <= c as int <= 31)
  }

  function UpperChar(c: char): (u: char)
    ensures IsLetter(c) ==> IsLetter(u) && 'A' <= u <= 'Z'
    ensures !('a' <= c <= 'z') ==> u == c
  {
    if 'a' <= c <= 'z' then (c as int - 32) as char else c
  }

  /** `str.upper` restricted to ASCII letters. */
  function Upper(s: string): (u: string)
    ensures |u| == |s|
    ensures forall k :: 0 <= k < |s| ==> u[k] == UpperChar(s[k])
  {
    seq(|s|, k requires 0 <= k < |s| => UpperChar(s[k]))
  }

  predicate IsUpperWord(s: string) {
    forall k :: 0 <= k < |s| ==> 'A' <= s[k] <= 'Z'
  }

  lemma UpperOfUpperWord(s: string)
    requires IsUpperWord(s)
    ensures Upper(s) == s
  {
  }

  predicate StartsWith(s: string, prefix: string) {
    |prefix| <= |s| && s[..|prefix|] == prefix
  }

  /** `sub` occurs in `s` starting at position `i`. */
  predicate OccursAt(s: string, sub: string, i: int) {
    0 <= i && i + |sub| <= |s| && s[i..i + |sub|] == sub
  }

  /** Python's `sub in s` on strings. */
  function Contains(s: string, sub: string): bool
    decreases |s|
  {
    if |sub| > |s| then false
    else if s[..|sub|] == sub then true
    else Contains(s[1..], sub)
  }

  /** `sub in s` holds exactly when `sub` occurs somewhere in `s`. */
  lemma {:induction false} ContainsOccurs(s: string, sub: string)
    ensures Contains(s, sub) <==> exists i :: OccursAt(s, sub, i)
    decreases |s|
  {
    if |sub| > |s| {
    } else if s[..|sub|] == sub {
      assert OccursAt(s, sub, 0);
    } else {
      ContainsOccurs(s[1..], sub);
      assert !OccursAt(s, sub, 0);
      assert forall i :: OccursAt(s, sub, i) ==> i >= 1 && OccursAt(s[1..], sub, i - 1) by {
        forall i | OccursAt(s, sub, i) ensures i >= 1 && OccursAt(s[1..], sub, i - 1) {
          assert i != 0;
          OccursAfterFirst(s, sub, i - 1);
        }
      }
      assert forall i :: OccursAt(s[1..], sub, i) ==> OccursAt(s, sub, i + 1) by {
        forall i | OccursAt(s[1..], sub, i) ensures OccursAt(s, sub, i + 1) {
          OccursAfterFirst(s, sub, i);
        }
      }
    }
  }

  /** An occurrence after the first character is one in the rest. */
  lemma OccursAfterFirst(s: string, sub: string, i: int)
    requires s != [] && 0 <= i
    ensures OccursAt(s[1..], sub, i) <==> OccursAt(s, sub, i + 1)
  {
    if 0 <= i && i + |sub| <= |s| - 1 {
      assert s[1..][i..i + |sub|] == s[i + 1..i + 1 + |sub|];
    }
  }

  /** Python's `sep.join(parts)`. */
  function Join(sep: string, parts: seq<string>): string
  {
    if |parts| == 0 then ""
    else if |parts| == 1 then parts[0]
    else parts[0] + sep + Join(sep, parts[1..])
  }

  function DigitChar(d: nat): (c: char)
    requires d < 10
    ensures IsDigit(c)
  {
    ('0' as int + d) as char
  }

  function DigitValue(c: char): nat {
    if IsDigit(c) then c as int - '0' as int else 0
  }

  predicate AllDigits(s: string) {
    forall k :: 0 <= k < |s| ==> IsDigit(s[k])
  }

  /** The value of a run of decimal digits, read left to right (`int(s)`). */
  function DigitsValue(s: string): nat
  {
    if s == [] then 0 else DigitsValue(s[..|s| - 1]) * 10 + DigitValue(s[|s| - 1])
  }

  /** `str(n)` for a natural number. */
  function NatToString(n: nat): (s: string)
    ensures s != [] && AllDigits(s)
  {
    if n < 10 then [DigitChar(n)] else NatToString(n / 10) + [DigitChar(n % 10)]
  }

  /** `str(i)` for any integer. */
  function IntToString(i: int): (s: string)
    ensures s != []
  {
    if i < 0 then "-" + NatToString(-i) else NatToString(i)
  }

  /** Reading back the decimal rendering of a natural number gives that number. */
  lemma {:induction false} DigitsValueOfNatToString(n: nat)
    ensures DigitsValue(NatToString(n)) == n
  {
    if n < 10 {
      assert NatToString(n) == [DigitChar(n)];
      assert NatToString(n)[..0] == [];
    } else {
      var s := NatToString(n);
      assert s == NatToString(n / 10) + [DigitChar(n % 10)];
      assert s[..|s| - 1] == NatToString(n / 10);
      DigitsValueOfNatToString(n / 10);
    }
  }

  /** Distinct integers render as distinct strings, so `str(int(id))` names
      distinct chunk files for distinct ids. */
  lemma IntToStringInjective(a: int, b: int)
    requires IntToString(a) == IntToString(b)
    ensures a == b
  {
    assert (IntToString(a)[0] == '-') == (a < 0);
    assert (IntToString(b)[0] == '-') == (b < 0);
    if a < 0 {
      assert NatToString(-a) == IntToString(a)[1..];
      DigitsValueOfNatToString(-a);
      DigitsValueOfNatToString(-b);
    } else {
      DigitsValueOfNatToString(a);
      DigitsValueOfNatToString(b);
    }
  }

  /** Length of the longest prefix of `s` whose characters `c` all have
      `inRun(c) == want`. */
  function Span(s: string, inRun: char -> bool, want: bool): (n: nat)
    ensures n <= |s|
    ensures forall k :: 0 <= k < n ==> inRun(s[k]) == want
    ensures n < |s| ==> inRun(s[n]) != want
  {
    if s == [] || inRun(s[0]) != want then 0 else 1 + Span(s[1..], inRun, want)
  }

  lemma {:induction false} SpanOfRun(run: string, rest: string, inRun: char -> bool, want: bool)
    requires forall k :: 0 <= k < |run| ==> inRun(run[k]) == want
    requires rest == [] || inRun(rest[0]) != want
    ensures Span(run + rest, inRun, want) == |run|
  {
    if run != [] {
      assert (run + rest)[1..] == run[1..] + rest;
      SpanOfRun(run[1..], rest, inRun, want);
    }
  }

  /** The index of the first character satisfying `inRun`; `|s|` when there
      is none. */
  function FirstRunStart(s: string, inRun: char -> bool): (i: nat)
    ensures i <= |s|
    ensures forall k :: 0 <= k < i ==> !inRun(s[k])
    ensures i < |s| ==> inRun(s[i])
  {
    Span(s, inRun, false)
  }

  /** `run` is the maximal run of characters satisfying `inRun` that starts
      at `i`, the first index where one does. */
  ghost predicate IsFirstRun(s: string, inRun: char -> bool, i: nat, run: string) {
    i + |run| <= |s| && run == s[i..i + |run|] &&
    (forall k :: 0 <= k < i ==> !inRun(s[k])) &&
    (forall k :: 0 <= k < |run| ==> inRun(run[k])) &&
    (i + |run| == |s| || !inRun(s[i + |run|]))
  }

  /** The first maximal run of characters satisfying `inRun`, as
      `re.findall(<class>+, s)[0]` finds it; empty when there is none. */
  function FirstRun(s: string, inRun: char -> bool): (run: string)
    ensures run == [] <==> forall k :: 0 <= k < |s| ==> !inRun(s[k])
    ensures run != [] ==> IsFirstRun(s, inRun, FirstRunStart(s, inRun), run)
  {
    var start := Span(s, inRun, false);
    var rest := s[start..];
    var run := rest[..Span(rest, inRun, true)];
    assert start < |s| ==> inRun(rest[0]) && |run| >= 1;
    assert run == s[start..start + |run|];
    assert start + |run| < |s| ==> s[start + |run|] == rest[|run|];
    run
  }

  /** Python's `s.split()`: the maximal runs of non-whitespace characters. */
  function SplitWhitespace(s: string): (words: seq<string>)
    ensures forall k :: 0 <= k < |words| ==> words[k] != [] && !HasSpace(words[k])
    decreases |s|
  {
    var rest := s[Span(s, IsSpace, true)..];
    if rest == [] then []
    else
      var n := Span(rest, IsSpace, false);
      [rest[..n]] + SplitWhitespace(rest[n..])
  }

  predicate HasSpace(s: string) {
    exists k :: 0 <= k < |s| && IsSpace(s[k])
  }

  /** Two words separated by one space split back into those two words. */
  lemma SplitTwoWords(a: string, b: string)
    requires a != [] && b != [] && !HasSpace(a) && !HasSpace(b)
    ensures SplitWhitespace(a + " " + b) == [a, b]
  {
    var s := a + " " + b;
    assert !IsSpace(s[0]);
    assert Span(s, IsSpace, true) == 0;
    assert s[0..] == s;
    SpanOfRun(a, " " + b, IsSpace, false);
    assert s == a + (" " + b);
    assert s[..|a|] == a;
    var tail := s[|a|..];
    assert tail == " " + b;
    SpanOfRun(" ", b, IsSpace, true);
    assert tail[1..] == b;
    SpanOfRun(b, [], IsSpace, false);
    assert b + [] == b;
    assert b[..|b|] == b && b[|b|..] == [];
    assert SplitWhitespace(b[|b|..]) == [];
  }
}
