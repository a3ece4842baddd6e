/** Human-readable memory sizes ("1.5G", "2 GB", ["3", "MB"]): splitting a
    size string into its value and unit, converting it to bytes through the
    1024-based unit tables, converting between units, and turning memory
    records into dictionaries. */
module SizeUnits {
  import opened Outcomes
  import opened Text
  import opened Records

  /** The long and the short unit names; a unit's position is its power of 1024. */
  const LongUnits: seq<string> := ["B", "KB", "MB", "GB", "TB", "PB", "EB", "ZB", "YB"]
  const ShortUnits: seq<string> := ["B", "K", "M", "G", "T", "P", "E", "Z", "Y"]

  /** 1024^n, the factor of the unit at position n. */
  function Pow1024(n: nat): (p: real)
    ensures p >= 1.0
  {
    if n == 0 then 1.0 else 1024.0 * Pow1024(n - 1)
  }

  /** `x * 1024 ** i`, one factor of 1024 at a time. */
  function Scaled(x: real, i: nat): real {
    if i == 0 then x else 1024.0 * Scaled(x, i - 1)
  }

  /** `x / 1024 ** i`, one factor of 1024 at a time. */
  function Unscaled(x: real, i: nat): real
    decreases i
  {
    if i == 0 then x else Unscaled(x / 1024.0, i - 1)
  }

  lemma {:induction false} ScaledIsProduct(x: real, i: nat)
    ensures Scaled(x, i) == x * Pow1024(i)
  {
    if i > 0 {
      ScaledIsProduct(x, i - 1);
      assert 1024.0 * (x * Pow1024(i - 1)) == x * (1024.0 * Pow1024(i - 1));
    }
  }

  /** Dividing by 1024^i undoes multiplying by it. */
  lemma {:induction false} ScaledUnscaled(x: real, i: nat)
    ensures Scaled(Unscaled(x, i), i) == x
    decreases i
  {
    if i > 0 {
      ScaledUnscaled(x / 1024.0, i - 1);
    }
  }

  /** 1024^i scaled down by 1024^j for j <= i leaves 1024^(i - j). */
  lemma {:induction false} ScaleDown(v: real, i: nat, j: nat)
    requires j <= i
    ensures Unscaled(Scaled(v, i), j) == Scaled(v, i - j)
  {
    if j > 0 {
      ScaleDown(v, i - 1, j - 1);
      assert Scaled(v, i) / 1024.0 == Scaled(v, i - 1);
    }
  }

  /** 1024^i scaled down by 1024^j for j > i leaves 1 / 1024^(j - i). */
  lemma {:induction false} ScaleUp(v: real, i: nat, j: nat)
    requires i < j
    ensures Unscaled(Scaled(v, i), j) == Unscaled(v, j - i)
  {
    if i > 0 {
      ScaleUp(v, i - 1, j - 1);
      assert Scaled(v, i) / 1024.0 == Scaled(v, i - 1);
    }
  }

  // ---------------------------------------------------------------------------
  // Splitting "1.5G" into ["1.5", "G"]

  /** A character of the unit part (`letters`) or of the value part. */
  predicate InPart(c: char, letters: bool) {
    if letters then IsLetter(c) else NumeralChar(c)
  }

  /** The characters of `s` that belong to the unit part (`letters`) or to
      the value part, in order. */
  function Keep(s: string, p: bool): string
  {
    if s == [] then []
    else Keep(s[..|s| - 1], p) + (if InPart(s[|s| - 1], p) then [s[|s| - 1]] else [])
  }

  /** Everything kept belongs to the part. */
  lemma {:induction false} KeepInPart(s: string, p: bool)
    ensures forall k :: 0 <= k < |Keep(s, p)| ==> InPart(Keep(s, p)[k], p)
  {
    if s != [] {
      KeepInPart(s[..|s| - 1], p);
    }
  }

  /** Nothing is kept exactly when no character satisfies `p`. */
  lemma {:induction false} KeepEmpty(s: string, p: bool)
    ensures Keep(s, p) == [] <==> forall k :: 0 <= k < |s| ==> !InPart(s[k], p)
  {
    if s != [] {
      var front := s[..|s| - 1];
      KeepEmpty(front, p);
      assert forall k :: 0 <= k < |front| ==> front[k] == s[k];
    }
  }

  lemma KeepSnoc(s: string, c: char, p: bool)
    ensures Keep(s + [c], p) == Keep(s, p) + (if InPart(c, p) then [c] else [])
  {
    assert (s + [c])[..|s|] == s;
  }

  /** One more character of `s` read. */
  lemma KeepStep(s: string, i: nat, p: bool)
    requires i < |s|
    ensures Keep(s[..i + 1], p) == Keep(s[..i], p) + (if InPart(s[i], p) then [s[i]] else [])
  {
    assert s[..i + 1] == s[..i] + [s[i]];
    KeepSnoc(s[..i], s[i], p);
  }

  lemma {:induction false} KeepAppend(a: string, b: string, p: bool)
    ensures Keep(a + b, p) == Keep(a, p) + Keep(b, p)
  {
    if b != [] {
      var front, c := b[..|b| - 1], b[|b| - 1];
      var tail := if InPart(c, p) then [c] else [];
      KeepAppend(a, front, p);
      var ab := a + b;
      assert ab[..|ab| - 1] == a + front && ab[|ab| - 1] == c;
      assert Keep(ab, p) == Keep(a + front, p) + tail;
      assert Keep(b, p) == Keep(front, p) + tail;
      assert Keep(a, p) + Keep(front, p) + tail == Keep(a, p) + (Keep(front, p) + tail);
    } else {
      assert a + b == a;
    }
  }

  lemma {:induction false} KeepAll(s: string, p: bool)
    requires forall k :: 0 <= k < |s| ==> InPart(s[k], p)
    ensures Keep(s, p) == s
  {
    if s != [] {
      KeepAll(s[..|s| - 1], p);
      assert s == s[..|s| - 1] + [s[|s| - 1]];
    }
  }

  /** A character of the value part: a digit or the decimal point. */
  predicate NumeralChar(c: char) {
    IsDigit(c) || c == '.'
  }

  /** A character a size string may contain at all. */
  predicate SizeChar(c: char) {
    IsLetter(c) || NumeralChar(c)
  }

  /** `None` for an empty list, as the source keeps `None` until a first append. */
  function NonEmpty(s: string): (r: Option<string>)
    ensures r.Some? <==> s != []
    ensures r.Some? ==> r.value == s
  {
    if s == [] then None else Some(s)
  }

  /** What `split_size_parts` returns: the numerals of the string, in order,
      and its letters, in order and upper-cased. A character that is neither
      fails at once; a string without numerals or without letters fails, and
      so does a missing string. */
  function SizePartsOf(text: Option<string>): (r: Result<seq<string>>)
    ensures r.Ok? ==> |r.value| == 2 && r.value[0] != [] && r.value[1] != []
    ensures r.Ok? ==> forall k :: 0 <= k < |r.value[0]| ==> NumeralChar(r.value[0][k])
    ensures r.Ok? ==> IsUpperWord(r.value[1])
  {
    match text
    case None => Err(RuntimeFailure)
    case Some(s) =>
      if exists k :: 0 <= k < |s| && !SizeChar(s[k]) then Err(NotImplementedCase)
      else if Keep(s, false) == [] then Err(RuntimeFailure)
      else if Keep(s, true) == [] then Err(RuntimeFailure)
      else
        KeepInPart(s, false);
        KeepInPart(s, true);
        Ok([Keep(s, false), Upper(Keep(s, true))])
  }

  /** `split_size_parts`: one pass over the characters, appending each to the
      letter list or to the numeral list. */
  method SplitSizeParts(text: Option<string>) returns (r: Result<seq<string>>)
    ensures r == SizePartsOf(text)
  {
    if text.None? {
      return Err(RuntimeFailure);
    }
    var s := text.value;
    var alpha: Option<string> := None;
    var numeric: Option<string> := None;
    var i := 0;
    while i < |s|
      invariant 0 <= i <= |s|
      invariant forall k :: 0 <= k < i ==> SizeChar(s[k])
      invariant alpha == NonEmpty(Keep(s[..i], true))
      invariant numeric == NonEmpty(Keep(s[..i], false))
    {
      var c := s[i];
      KeepStep(s, i, true);
      KeepStep(s, i, false);
      if IsLetter(c) {
        if alpha.None? {
          alpha := Some([]);
        }
        alpha := Some(alpha.value + [c]);
        assert Keep(s[..i + 1], false) == Keep(s[..i], false);
      } else if NumeralChar(c) {
        if numeric.None? {
          numeric := Some([]);
        }
        numeric := Some(numeric.value + [c]);
        assert Keep(s[..i + 1], true) == Keep(s[..i], true);
      } else {
        assert !SizeChar(s[i]);
        return Err(NotImplementedCase);
      }
      i := i + 1;
    }
    assert s[..i] == s;
    assert !exists k :: 0 <= k < |s| && !SizeChar(s[k]);
    if numeric.None? {
      return Err(RuntimeFailure);
    }
    if alpha.None? {
      return Err(RuntimeFailure);
    }
    r := Ok([numeric.value, Upper(alpha.value)]);
  }

  /** The numerals of a value written before its unit are the value, and
      its letters are the unit. */
  lemma KeepJoined(value: string, unit: string)
    requires forall k :: 0 <= k < |value| ==> NumeralChar(value[k])
    requires forall k :: 0 <= k < |unit| ==> IsLetter(unit[k])
    ensures Keep(value + unit, false) == value
    ensures Keep(value + unit, true) == unit
  {
    KeepJoinedValue(value, unit);
    KeepJoinedUnit(value, unit);
  }

  lemma KeepJoinedValue(value: string, unit: string)
    requires forall k :: 0 <= k < |value| ==> NumeralChar(value[k])
    requires forall k :: 0 <= k < |unit| ==> IsLetter(unit[k])
    ensures Keep(value + unit, false) == value
  {
    KeepAppend(value, unit, false);
    KeepAll(value, false);
    KeepEmpty(unit, false);
    assert value + [] == value;
  }

  lemma KeepJoinedUnit(value: string, unit: string)
    requires forall k :: 0 <= k < |value| ==> NumeralChar(value[k])
    requires forall k :: 0 <= k < |unit| ==> IsLetter(unit[k])
    ensures Keep(value + unit, true) == unit
  {
    KeepAppend(value, unit, true);
    KeepAll(unit, true);
    KeepEmpty(value, true);
    assert [] + unit == unit;
  }

  /** A value written before its unit splits back into that value and the
      upper-cased unit: "1.5g" gives ["1.5", "G"]. */
  lemma SizePartsOfJoined(value: string, unit: string)
    requires value != [] && forall k :: 0 <= k < |value| ==> NumeralChar(value[k])
    requires unit != [] && forall k :: 0 <= k < |unit| ==> IsLetter(unit[k])
    ensures SizePartsOf(Some(value + unit)) == Ok([value, Upper(unit)])
  {
    var s := value + unit;
    forall k | 0 <= k < |s| ensures SizeChar(s[k]) {
      if k >= |value| { assert s[k] == unit[k - |value|]; }
    }
    KeepJoined(value, unit);
  }

  /** A size string holding any character other than a letter, a digit or a
      point (a sign, an underscore) is refused as unsupported. */
  lemma SizePartsOfForeignChar(s: string, k: nat)
    requires k < |s| && !SizeChar(s[k])
    ensures SizePartsOf(Some(s)) == Err(NotImplementedCase)
  {
  }

  /** `check_size_whitespaces`: whether the string holds a whitespace character. */
  function CheckSizeWhitespaces(s: string): (r: bool)
    ensures r <==> HasSpace(s)
  {
    if s == [] then false
    else
      assert forall k :: 0 < k < |s| ==> s[k] == s[1..][k - 1];
      IsSpace(s[0]) || CheckSizeWhitespaces(s[1..])
  }

  // ---------------------------------------------------------------------------
  // Reading numbers and units

  function Pow10(n: nat): (p: nat)
    ensures p >= 1
  {
    if n == 0 then 1 else 10 * Pow10(n - 1)
  }

  /** The value of the digits after a decimal point: `n` over ten to the
      number of digits. */
  function Fraction(n: nat, digits: nat): (x: real)
    ensures 0.0 <= x
  {
    var p := Pow10(digits) as real;
    assert p > 0.0;
    n as real / p
  }

  /** `float(s)` for an unsigned decimal: digits with at most one point and at
      least one digit. */
  function ParseUnsigned(s: string): (r: Option<real>)
    ensures r.Some? ==> r.value >= 0.0
  {
    var d := Span(s, IsDigit, true);
    var rest := s[d..];
    if rest == [] then (if d == 0 then None else Some(DigitsValue(s) as real))
    else if rest[0] != '.' then None
    else
      var frac := rest[1..];
      if !AllDigits(frac) || (d == 0 && frac == []) then None
      else Some(DigitsValue(s[..d]) as real + Fraction(DigitsValue(frac), |frac|))
  }

  /** `float(s)` on a decimal with an optional sign. */
  function ParseFloat(s: string): (r: Result<real>)
    ensures r.Ok? ==> s != [] && (s[0] != '-' ==> r.value >= 0.0) && (s[0] == '-' ==> r.value <= 0.0)
  {
    var sign := if s != [] && (s[0] == '-' || s[0] == '+') then 1 else 0;
    match ParseUnsigned(s[sign..])
    case None => Err(ValueFailure)
    case Some(x) => Ok(if sign == 1 && s[0] == '-' then -x else x)
  }

  /** Reading the decimal rendering of a natural number gives it back. */
  lemma ParseFloatOfNat(n: nat)
    ensures ParseFloat(NatToString(n)) == Ok(n as real)
  {
    var s := NatToString(n);
    assert s[0..] == s;
    SpanOfRun(s, [], IsDigit, true);
    assert s + [] == s;
    DigitsValueOfNatToString(n);
  }

  /** `float(v)` for a cell of a two-element size list. */
  function FloatOf(v: Value): (r: Result<real>)
    ensures v.Number? ==> r == Ok(v.x)
  {
    match v
    case Number(x) => Ok(x)
    case Str(s) => ParseFloat(s)
  }

  /** The power of 1024 a unit letter stands for: B, K, M, G, T, P, E, Z, Y. */
  function LetterIndex(c: char): (r: Option<nat>)
    ensures r.Some? ==> r.value < 9
  {
    match c
    case 'B' => Some(0)
    case 'K' => Some(1)
    case 'M' => Some(2)
    case 'G' => Some(3)
    case 'T' => Some(4)
    case 'P' => Some(5)
    case 'E' => Some(6)
    case 'Z' => Some(7)
    case 'Y' => Some(8)
    case _ => None
  }

  /** The position of a unit in the long table, else in the short table;
      none for anything else (a lower-case unit, a number). A short unit is
      one table letter, a long one is a letter other than B followed by B,
      or B alone. */
  function UnitIndex(u: Value): (r: Option<nat>)
    ensures r.Some? ==> r.value < 9
  {
    if !u.Str? then None
    else if |u.s| == 1 then LetterIndex(u.s[0])
    else if |u.s| == 2 && u.s[0] != 'B' && u.s[1] == 'B' then LetterIndex(u.s[0])
    else None
  }

  /** Each unit of either table names its own position. */
  lemma UnitIndexOfTables(i: nat)
    requires i < 9
    ensures UnitIndex(Str(LongUnits[i])) == Some(i)
    ensures UnitIndex(Str(ShortUnits[i])) == Some(i)
  {
    if i == 0 {
    } else if i == 1 {
    } else if i == 2 {
    } else if i == 3 {
    } else if i == 4 {
    } else if i == 5 {
    } else if i == 6 {
    } else if i == 7 {
    } else {
    }
  }

  /** The lookup finds exactly the units of the two tables, at their
      positions. */
  lemma UnitIndexAgreesWithTables(u: string)
    ensures UnitIndex(Str(u)).Some? <==> u in LongUnits || u in ShortUnits
    ensures UnitIndex(Str(u)).Some? ==>
      var i := UnitIndex(Str(u)).value; LongUnits[i] == u || ShortUnits[i] == u
  {
    if u in LongUnits {
      var i :| 0 <= i < 9 && LongUnits[i] == u;
      UnitIndexOfTables(i);
    } else if u in ShortUnits {
      var i :| 0 <= i < 9 && ShortUnits[i] == u;
      UnitIndexOfTables(i);
    }
    if UnitIndex(Str(u)).Some? {
      var i := UnitIndex(Str(u)).value;
      UnitIndexOfTables(i);
      if |u| == 1 {
        assert u == [u[0]];
        assert ShortUnits[i] == u by {
          assert |ShortUnits[i]| == 1 && ShortUnits[i][0] == u[0];
        }
      } else {
        assert u == [u[0], 'B'];
        assert LongUnits[i] == u by {
          assert |LongUnits[i]| == 2 && LongUnits[i][0] == u[0] && LongUnits[i][1] == 'B';
        }
      }
    }
  }

  // ---------------------------------------------------------------------------
  // Size objects and their conversion to bytes

  /** What the size converters accept: a string ("1.5G", "2 GB"), a list such
      as ["1", "GB"], or any other Python object. */
  datatype SizeObject = SizeText(text: string) | SizeList(parts: seq<Value>) | SizeOther

  function AsValues(words: seq<string>): (r: seq<Value>)
    ensures |r| == |words| && forall k :: 0 <= k < |r| ==> r[k] == Str(words[k])
  {
    seq(|words|, k requires 0 <= k < |words| => Str(words[k]))
  }

  /** A size string split into its parts: on whitespace when it holds any
      (the unit is then kept as written), else by `split_size_parts`. */
  function TextParts(s: string): (r: Result<seq<Value>>)
    ensures CheckSizeWhitespaces(s) ==> r.Ok?
    ensures r.Ok? && !CheckSizeWhitespaces(s) ==> |r.value| == 2
    ensures r.Ok? ==> forall k :: 0 <= k < |r.value| ==> r.value[k].Str? && r.value[k].s != []
  {
    if CheckSizeWhitespaces(s) then Ok(AsValues(SplitWhitespace(s)))
    else
      var parts :- SizePartsOf(Some(s));
      Ok(AsValues(parts))
  }

  /** The value and the unit of a size object, before the unit is looked up. */
  function HumanParts(obj: SizeObject): (r: Result<seq<Value>>)
    ensures obj.SizeList? && |obj.parts| == 2 ==> r == Ok(obj.parts)
    ensures obj.SizeList? && |obj.parts| != 2 ==> r == Err(NotImplementedCase)
    ensures obj.SizeOther? ==> r == Err(NotImplementedCase)
  {
    match obj
    case SizeText(s) => TextParts(s)
    case SizeList(parts) => if |parts| == 2 then Ok(parts) else Err(NotImplementedCase)
    case SizeOther => Err(NotImplementedCase)
  }

  /** `convert_human2bytes_value`: the value times 1024 to the power of its
      unit's position; a zero value is zero bytes whatever its unit. */
  function HumanToBytes(obj: SizeObject): (r: Result<real>)
    ensures obj.SizeOther? ==> r == Err(NotImplementedCase)
    ensures obj.SizeList? && |obj.parts| != 2 ==> r == Err(NotImplementedCase)
    ensures obj.SizeList? && |obj.parts| == 2 && obj.parts[0] == Number(0.0) ==> r == Ok(0.0)
  {
    var parts :- HumanParts(obj);
    BytesOfParts(parts)
  }

  /** The byte count of a value and a unit, read as `float(parts[0])` and
      `parts[1]`. */
  function BytesOfParts(parts: seq<Value>): (r: Result<real>)
    ensures |parts| < 2 ==> r.Err?
    ensures |parts| >= 2 && FloatOf(parts[0]).Ok? && UnitIndex(parts[1]).Some? ==>
      r == Ok(Scaled(FloatOf(parts[0]).value, UnitIndex(parts[1]).value))
    ensures |parts| >= 2 && FloatOf(parts[0]).Ok? && FloatOf(parts[0]).value != 0.0 && UnitIndex(parts[1]).None? ==>
      r == Err(NotImplementedCase)
  {
    if |parts| == 0 then Err(IndexFailure)
    else
      var value :- FloatOf(parts[0]);
      if |parts| == 1 then Err(IndexFailure)
      else if value == 0.0 then Ok(0.0)
      else match UnitIndex(parts[1])
        case None => Err(NotImplementedCase)
        case Some(i) => Ok(Scaled(value, i))
  }

  /** A value and a known unit give value * 1024^i bytes. */
  lemma HumanToBytesOfList(v: real, u: string, i: nat)
    requires UnitIndex(Str(u)) == Some(i)
    ensures HumanToBytes(SizeList([Number(v), Str(u)])) == Ok(Scaled(v, i))
  {
  }

  /** Zero is zero bytes even for a unit no table knows. */
  lemma HumanToBytesOfZero(u: Value)
    ensures HumanToBytes(SizeList([Number(0.0), u])) == Ok(0.0)
  {
  }

  /** A non-zero value with an unknown unit is refused. */
  lemma HumanToBytesUnknownUnit(v: real, u: Value)
    requires v != 0.0 && UnitIndex(u).None?
    ensures HumanToBytes(SizeList([Number(v), u])) == Err(NotImplementedCase)
  {
  }

  /** A whole number of units written without a space converts like the
      number times 1024^i, and the short and the long name of a unit agree:
      "2G" and "2GB" are both 2147483648 bytes. */
  lemma ShortAndLongUnitsAgree(n: nat, i: nat)
    requires 0 < n && i < 9
    ensures HumanToBytes(SizeText(NatToString(n) + ShortUnits[i])) == Ok(Scaled(n as real, i))
    ensures HumanToBytes(SizeText(NatToString(n) + LongUnits[i])) == Ok(Scaled(n as real, i))
  {
    UnitIndexOfTables(i);
    TablesHoldUpperWords(i);
    WholeUnitsToBytes(n, ShortUnits[i], i);
    WholeUnitsToBytes(n, LongUnits[i], i);
  }

  lemma TablesHoldUpperWords(i: nat)
    requires i < 9
    ensures LongUnits[i] != [] && IsUpperWord(LongUnits[i])
    ensures ShortUnits[i] != [] && IsUpperWord(ShortUnits[i])
  {
    if i == 0 {
    } else if i == 1 {
    } else if i == 2 {
    } else if i == 3 {
    } else if i == 4 {
    } else if i == 5 {
    } else if i == 6 {
    } else if i == 7 {
    } else {
    }
  }

  /** "<n><unit>" with a known upper-case unit is n * 1024^i bytes. */
  lemma WholeUnitsToBytes(n: nat, u: string, i: nat)
    requires 0 < n && u != [] && IsUpperWord(u) && UnitIndex(Str(u)) == Some(i)
    ensures HumanToBytes(SizeText(NatToString(n) + u)) == Ok(Scaled(n as real, i))
  {
    ParseFloatOfNat(n);
    TextOfNumberAndUnit(n, u);
    HumanToBytesOfParts(SizeText(NatToString(n) + u), Str(NatToString(n)), Str(u), n as real, i);
  }

  /** A size object whose parts read as a non-zero value and an unknown unit
      is refused. */
  lemma HumanToBytesOfUnknownParts(obj: SizeObject, value: Value, unit: Value, x: real)
    requires HumanParts(obj) == Ok([value, unit])
    requires FloatOf(value) == Ok(x) && x != 0.0 && UnitIndex(unit).None?
    ensures HumanToBytes(obj) == Err(NotImplementedCase)
  {
    assert BytesOfParts([value, unit]) == Err(NotImplementedCase);
  }

  /** A size object whose parts read as a non-zero value and a known unit is
      that value times 1024^i bytes. */
  lemma HumanToBytesOfParts(obj: SizeObject, value: Value, unit: Value, x: real, i: nat)
    requires HumanParts(obj) == Ok([value, unit])
    requires FloatOf(value) == Ok(x) && x != 0.0 && UnitIndex(unit) == Some(i)
    ensures HumanToBytes(obj) == Ok(Scaled(x, i))
  {
    assert BytesOfParts([value, unit]) == Ok(Scaled(x, i));
  }

  /** A value and a unit written together split by character class, the
      unit upper-cased. */
  lemma TextOfJoined(value: string, unit: string)
    requires value != [] && forall k :: 0 <= k < |value| ==> NumeralChar(value[k])
    requires unit != [] && forall k :: 0 <= k < |unit| ==> IsLetter(unit[k])
    ensures TextParts(value + unit) == Ok([Str(value), Str(Upper(unit))])
  {
    var s := value + unit;
    forall k | 0 <= k < |s| ensures !IsSpace(s[k]) {
      if k >= |value| { assert s[k] == unit[k - |value|]; }
    }
    assert !HasSpace(s);
    SizePartsOfJoined(value, unit);
    AsValuesOfPair(value, Upper(unit));
  }

  /** A value and a unit separated by one space split on it, the unit kept
      as written. */
  lemma TextOfSpaced(value: string, unit: string)
    requires value != [] && !HasSpace(value) && unit != [] && !HasSpace(unit)
    ensures TextParts(value + " " + unit) == Ok([Str(value), Str(unit)])
  {
    var s := value + " " + unit;
    SpaceBetween(value, unit);
    TextPartsOfSpaced(s);
    SplitTwoWords(value, unit);
    AsValuesOfPair(value, unit);
  }

  lemma SpaceBetween(value: string, unit: string)
    ensures HasSpace(value + " " + unit)
  {
    assert IsSpace((value + " " + unit)[|value|]);
  }

  lemma AsValuesOfPair(value: string, unit: string)
    ensures AsValues([value, unit]) == [Str(value), Str(unit)]
  {
    var parts := AsValues([value, unit]);
    assert |parts| == 2 && parts[0] == Str(value) && parts[1] == Str(unit);
  }

  /** A string holding whitespace is split on it. */
  lemma TextPartsOfSpaced(s: string)
    requires HasSpace(s)
    ensures TextParts(s) == Ok(AsValues(SplitWhitespace(s)))
  {
  }

  lemma TextOfNumberAndUnit(n: nat, u: string)
    requires u != [] && IsUpperWord(u)
    ensures TextParts(NatToString(n) + u) == Ok([Str(NatToString(n)), Str(u)])
  {
    TextOfJoined(NatToString(n), u);
    UpperOfUpperWord(u);
  }

  lemma GigaFactor()
    ensures Scaled(2.0, 3) == 2147483648.0
  {
    assert Scaled(2.0, 1) == 2048.0;
    assert Scaled(2.0, 2) == 2097152.0;
  }

  lemma TwoGigabytes()
    ensures HumanToBytes(SizeText("2G")) == Ok(2147483648.0)
    ensures HumanToBytes(SizeText("2GB")) == Ok(2147483648.0)
  {
    GigaFactor();
    assert NatToString(2) == "2";
    assert UnitIndex(Str("G")) == Some(3);
    assert UnitIndex(Str("GB")) == Some(3);
    WholeUnitsToBytes(2, "G", 3);
    WholeUnitsToBytes(2, "GB", 3);
    assert "2" + "G" == "2G";
    assert "2" + "GB" == "2GB";
  }

  /** Splitting on whitespace keeps the unit as written, so a unit with a
      lower-case letter ("2 gb") is refused ... */
  lemma SpacedUnitIsNotUpperCased(value: string, unit: string, x: real, k: nat)
    requires value != [] && !HasSpace(value) && unit != [] && !HasSpace(unit)
    requires FloatOf(Str(value)) == Ok(x) && x != 0.0
    requires k < |unit| && 'a' <= unit[k] <= 'z'
    ensures HumanToBytes(SizeText(value + " " + unit)) == Err(NotImplementedCase)
  {
    var obj := SizeText(value + " " + unit);
    assert HumanParts(obj) == Ok([Str(value), Str(unit)]) by {
      TextOfSpaced(value, unit);
    }
    LowerCaseUnitIsUnknown(unit, k);
    HumanToBytesOfUnknownParts(obj, Str(value), Str(unit), x);
  }

  /** No unit of either table holds a lower-case letter. */
  lemma LowerCaseUnitIsUnknown(unit: string, k: nat)
    requires k < |unit| && 'a' <= unit[k] <= 'z'
    ensures UnitIndex(Str(unit)).None?
  {
  }

  /** ... while the same unit written against the value ("2gb") is
      upper-cased before it is looked up. */
  lemma JoinedUnitIsUpperCased(value: string, unit: string, x: real, i: nat)
    requires value != [] && forall k :: 0 <= k < |value| ==> NumeralChar(value[k])
    requires unit != [] && forall k :: 0 <= k < |unit| ==> IsLetter(unit[k])
    requires FloatOf(Str(value)) == Ok(x) && x != 0.0
    requires UnitIndex(Str(Upper(unit))) == Some(i)
    ensures HumanToBytes(SizeText(value + unit)) == Ok(Scaled(x, i))
  {
    TextOfJoined(value, unit);
    HumanToBytesOfParts(SizeText(value + unit), Str(value), Str(Upper(unit)), x, i);
  }

  /** `convert_string2num_value`: the value part of a size, without its unit.
      Anything that is not a string is indexed as it is. */
  function StringToNum(obj: SizeObject): (r: Result<real>)
    ensures obj.SizeOther? ==> r == Err(TypeFailure)
  {
    var parts :- match obj
      case SizeText(s) => TextParts(s)
      case SizeList(parts) => Ok(parts)
      case SizeOther => Err(TypeFailure);
    if |parts| == 0 then Err(IndexFailure)
    else
      var value :- FloatOf(parts[0]);
      if |parts| == 1 then Err(IndexFailure) else Ok(value)
  }

  /** The value part of "<n><unit>" is n, whatever the unit. */
  lemma StringToNumOfText(n: nat, u: string)
    requires u != [] && IsUpperWord(u)
    ensures StringToNum(SizeText(NatToString(n) + u)) == Ok(n as real)
  {
    TextOfNumberAndUnit(n, u);
    ParseFloatOfNat(n);
  }

  /** `convert_human_unit`: the size in the target unit, formatted by `format`
      and followed by `sep` and the unit; an unknown target unit is refused. */
  function ConvertHumanUnit(obj: SizeObject, unit: string, format: real -> string, sep: string): (r: Result<string>)
    ensures r.Ok? ==> EndsWith(r.value, sep + unit)
    ensures HumanToBytes(obj).Ok? && UnitIndex(Str(unit)).None? ==> r == Err(NotImplementedCase)
  {
    var bytes :- HumanToBytes(obj);
    match UnitIndex(Str(unit))
    case None => Err(NotImplementedCase)
    case Some(j) =>
      var shown := format(Unscaled(bytes, j));
      EndsWithJoined(shown, sep, unit);
      Ok(shown + sep + unit)
  }

  predicate EndsWith(s: string, suffix: string) {
    |suffix| <= |s| && s[|s| - |suffix|..] == suffix
  }

  /** A text followed by a separator and a unit ends with them. */
  lemma EndsWithJoined(shown: string, sep: string, unit: string)
    ensures EndsWith(shown + sep + unit, sep + unit)
  {
    assert (shown + sep + unit)[|shown|..] == sep + unit;
  }

  /** A size of `v` units of position `i` shown in a unit of position
      `j <= i` is `v * 1024^(i - j)`. */
  lemma ConvertHumanUnitToSmaller(v: real, src: string, i: nat, unit: string, j: nat, format: real -> string, sep: string)
    requires v != 0.0 && j <= i
    requires UnitIndex(Str(src)) == Some(i) && UnitIndex(Str(unit)) == Some(j)
    ensures ConvertHumanUnit(SizeList([Number(v), Str(src)]), unit, format, sep)
         == Ok(format(Scaled(v, i - j)) + sep + unit)
  {
    HumanToBytesOfList(v, src, i);
    ScaleDown(v, i, j);
  }

  /** A size of `v` units of position `i` shown in a unit of position
      `j > i` is `v / 1024^(j - i)`. */
  lemma ConvertHumanUnitToLarger(v: real, src: string, i: nat, unit: string, j: nat, format: real -> string, sep: string)
    requires v != 0.0 && i < j
    requires UnitIndex(Str(src)) == Some(i) && UnitIndex(Str(unit)) == Some(j)
    ensures ConvertHumanUnit(SizeList([Number(v), Str(src)]), unit, format, sep)
         == Ok(format(Unscaled(v, j - i)) + sep + unit)
  {
    HumanToBytesOfList(v, src, i);
    ScaleUp(v, i, j);
  }

  // ---------------------------------------------------------------------------
  // Bytes to a human-readable value

  /** `int(x)` on a float: truncation toward zero. */
  function Trunc(x: real): (n: int)
    ensures x >= 0.0 ==> n >= 0 && n as real <= x < n as real + 1.0
    ensures x < 0.0 ==> n <= 0
  {
    if x >= 0.0 then x.Floor else -((-x).Floor)
  }

  /** `convert_bytes2human_value` as it is written: once the byte count is not
      zero, the unit table is chosen by testing `size_unit`, which is still
      `None` there, so every non-zero count fails (a count below one already
      fails in `math.log`). */
  function BytesToHumanValueAsWritten(bytes: real, sizeType: string): (r: Result<(real, string)>)
    ensures r.Ok? <==> bytes == 0.0
  {
    if bytes == 0.0 then Ok((0.0, "B"))
    else if Trunc(bytes) <= 0 then Err(ValueFailure)
    else
      var sizeUnit: Option<string> := None;
      if KnownUnit(sizeUnit) then BytesToHumanValue(bytes, sizeType)
      else Err(NotImplementedCase)
  }

  /** `size_unit in size_name_long or size_unit in size_name_short`. */
  predicate KnownUnit(sizeUnit: Option<string>) {
    sizeUnit.Some? && UnitIndex(Str(sizeUnit.value)).Some?
  }

  /** The discrepancy: two kilobytes are not shown as 2 K. */
  lemma BytesToHumanValueAsWrittenFails()
    ensures BytesToHumanValueAsWritten(2048.0, "short") == Err(NotImplementedCase)
    ensures BytesToHumanValue(2048.0, "short") == Ok((2.0, "K"))
  {
    assert Trunc(2048.0) == 2048;
    assert FloorLog1024(2048.0) == 1 by {
      assert FloorLog1024(2048.0) == 1 + FloorLog1024(2.0);
    }
    assert Unscaled(2048.0, 1) == 2.0;
    assert RoundHalfEven(200.0) == 200;
  }

  /** The largest `i` with 1024^i <= x: `floor(log(x, 1024))`. */
  function FloorLog1024(x: real): (i: nat)
    requires x >= 1.0
    ensures Pow1024(i) <= x < Pow1024(i + 1)
    decreases x.Floor
  {
    if x < 1024.0 then 0
    else
      var i := FloorLog1024(x / 1024.0);
      assert Pow1024(i + 1) == 1024.0 * Pow1024(i);
      assert Pow1024(i + 2) == 1024.0 * Pow1024(i + 1);
      1 + i
  }

  /** Python's `round(y)` on an exact real: the nearest integer, a tie
      going to the even neighbour. */
  function RoundHalfEven(y: real): (n: int)
    ensures y - 0.5 <= n as real <= y + 0.5
    ensures y - 0.5 < n as real < y + 0.5 || n % 2 == 0
  {
    var f := y.Floor;
    var d := y - f as real;
    if d < 0.5 then f
    else if d > 0.5 then f + 1
    else if f % 2 == 0 then f
    else f + 1
  }

  /** `round(x, 2)`: the nearest multiple of 0.01, a tie going to the even
      number of hundredths. */
  function Round2(x: real): (r: real)
    ensures x - 0.005 <= r <= x + 0.005
  {
    RoundHalfEven(x * 100.0) as real / 100.0
  }

  /** Rounding never crosses an integer bound. */
  lemma RoundHalfEvenBetween(y: real, lo: int, hi: int)
    requires lo as real <= y <= hi as real
    ensures lo <= RoundHalfEven(y) <= hi
  {
    var f := y.Floor;
    assert lo <= f <= hi;
    if f == hi {
      assert y - f as real == 0.0;
    }
  }

  /** A value in [1, 1024] stays in [1, 1024] once rounded to hundredths. */
  lemma Round2Between(x: real)
    requires 1.0 <= x <= 1024.0
    ensures 1.0 <= Round2(x) <= 1024.0
  {
    RoundHalfEvenBetween(x * 100.0, 100, 102400);
  }

  /** `convert_bytes2human_value` with the dead unit test removed: the
      count, truncated to an integer, in the largest unit not above it,
      rounded to two decimals. */
  function BytesToHumanValue(bytes: real, sizeType: string): (r: Result<(real, string)>)
    ensures bytes == 0.0 ==> r == Ok((0.0, "B"))
    ensures bytes != 0.0 && Trunc(bytes) <= 0 ==> r == Err(ValueFailure)
    ensures sizeType != "long" && sizeType != "short" && Trunc(bytes) > 0 ==> r.Err?
  {
    if bytes == 0.0 then Ok((0.0, "B"))
    else if Trunc(bytes) <= 0 then Err(ValueFailure)
    else
      var n := Trunc(bytes);
      var i := FloorLog1024(n as real);
      if i >= 9 then Err(IndexFailure)
      else
        var value := Round2(Unscaled(n as real, i));
        if sizeType == "long" then Ok((value, LongUnits[i]))
        else if sizeType == "short" then Ok((value, ShortUnits[i]))
        else Err(NotImplementedCase)
  }

  /** A shown value lies in [1, 1024] (1023.999 K rounds up to 1024.0 K),
      and reading it back with its unit gives the integer byte count to
      within half a percent: the rounding moves the value by at most 0.005
      of a unit, and the count is at least one unit. */
  lemma BytesToHumanRoundTrip(bytes: real, sizeType: string)
    requires bytes != 0.0 && BytesToHumanValue(bytes, sizeType).Ok?
    ensures var (v, u) := BytesToHumanValue(bytes, sizeType).value;
      var n := Trunc(bytes) as real;
      1.0 <= v <= 1024.0 &&
      HumanToBytes(SizeList([Number(v), Str(u)])).Ok? &&
      n - n / 200.0 <= HumanToBytes(SizeList([Number(v), Str(u)])).value <= n + n / 200.0
  {
    var n := Trunc(bytes);
    var i := FloorLog1024(n as real);
    var x := Unscaled(n as real, i);
    UnscaledInRange(n as real, i);
    UnitIndexOfTables(i);
    var (v, u) := BytesToHumanValue(bytes, sizeType).value;
    assert v == Round2(x);
    Round2Between(x);
    HumanToBytesOfList(v, u, i);
    ScaledUnscaled(n as real, i);
    ScaledError(x, v, i);
  }

  /** A value moved by at most 0.005 moves by at most half a percent once
      scaled, when the value is at least one. */
  lemma ScaledError(x: real, v: real, i: nat)
    requires 1.0 <= x && x - 0.005 <= v <= x + 0.005
    ensures var n := Scaled(x, i);
      n - n / 200.0 <= Scaled(v, i) <= n + n / 200.0
  {
    ScaledIsProduct(v, i);
    ScaledIsProduct(x, i);
    RoundingError(x, v, Pow1024(i), Scaled(x, i));
  }

  /** The same bound with the factor 1024^i written as `p`. */
  lemma RoundingError(x: real, v: real, p: real, n: real)
    requires 1.0 <= x && 1.0 <= p && n == x * p
    requires x - 0.005 <= v <= x + 0.005
    ensures n - n / 200.0 <= v * p <= n + n / 200.0
  {
    var e := v - x;
    assert v * p - n == e * p;
    NonNegativeProduct(0.005 - e, p);
    NonNegativeProduct(0.005 + e, p);
    NonNegativeProduct(x - 1.0, p);
    assert n - p == (x - 1.0) * p;
  }

  lemma NonNegativeProduct(a: real, b: real)
    requires 0.0 <= a && 0.0 <= b
    ensures 0.0 <= a * b
  {
  }

  /** The rounding loses bytes: 1025 bytes are shown as 1.0 "K", which
      reads back as 1024 bytes. */
  lemma BytesToHumanRoundingLoss()
    ensures BytesToHumanValue(1025.0, "short") == Ok((1.0, "K"))
    ensures HumanToBytes(SizeList([Number(1.0), Str("K")])) == Ok(1024.0)
  {
    assert Trunc(1025.0) == 1025;
    assert FloorLog1024(1025.0) == 1 by {
      assert FloorLog1024(1025.0) == 1 + FloorLog1024(1025.0 / 1024.0);
    }
    assert Unscaled(1025.0, 1) == 1025.0 / 1024.0;
    assert RoundHalfEven(1025.0 / 1024.0 * 100.0) == 100;
    UnitIndexOfTables(1);
    HumanToBytesOfList(1.0, "K", 1);
  }

  /** A count between 1024^i and 1024^(i+1) scales down into [1, 1024). */
  lemma {:induction false} UnscaledInRange(x: real, i: nat)
    requires Pow1024(i) <= x < Pow1024(i + 1)
    ensures 1.0 <= Unscaled(x, i) < 1024.0
    decreases i
  {
    if i > 0 {
      UnscaledInRange(x / 1024.0, i - 1);
    }
  }

  // ---------------------------------------------------------------------------
  // Memory records as dictionaries

  /** One field of a memory record after `convert_bytes2human_obj`: the
      'percent' field is kept as a number, any other is shown by `humanize`. */
  function HumanCell(e: Entry<real>, humanize: real -> string): Entry<Value>
  {
    Entry(e.key, if e.key == "percent" then Number(e.value) else Str(humanize(e.value)))
  }

  /** The dictionary `convert_bytes2human_obj` fills, field after field. */
  function Humanized(d: Dict<real>, humanize: real -> string): Dict<Value>
  {
    if d == [] then []
    else Put(Humanized(d[..|d| - 1], humanize), d[|d| - 1].key, HumanCell(d[|d| - 1], humanize).value)
  }

  /** On a record with distinct fields, every field keeps its name and place;
      'percent' keeps its number and every other value is humanized. */
  lemma {:induction false} HumanizedFields(d: Dict<real>, humanize: real -> string)
    requires UniqueKeys(d)
    ensures |Humanized(d, humanize)| == |d|
    ensures forall k :: 0 <= k < |d| ==> Humanized(d, humanize)[k] == HumanCell(d[k], humanize)
  {
    if d != [] {
      var front, last := d[..|d| - 1], d[|d| - 1];
      forall i, j | 0 <= i < j < |front| ensures front[i].key != front[j].key {
        assert front[i] == d[i] && front[j] == d[j];
      }
      HumanizedFields(front, humanize);
      var h := Humanized(front, humanize);
      forall i | 0 <= i < |h| ensures h[i].key != last.key {
        assert h[i].key == d[i].key;
      }
      var r := Humanized(d, humanize);
      assert last.key !in Keys(h);
      PutNewKey(h, last.key, HumanCell(last, humanize).value);
      assert r == h + [HumanCell(last, humanize)];
      forall k | 0 <= k < |d| ensures r[k] == HumanCell(d[k], humanize) {
        if k < |front| {
          assert r[k] == h[k] && front[k] == d[k];
        }
      }
    }
  }

  /** `convert_bytes2human_obj`: fills a new dictionary from a memory record. */
  method ConvertBytes2HumanObj(d: Dict<real>, humanize: real -> string) returns (r: Dict<Value>)
    ensures r == Humanized(d, humanize)
  {
    r := [];
    var i := 0;
    while i < |d|
      invariant 0 <= i <= |d|
      invariant r == Humanized(d[..i], humanize)
    {
      assert d[..i + 1][..i] == d[..i];
      r := Put(r, d[i].key, HumanCell(d[i], humanize).value);
      i := i + 1;
    }
    assert d[..i] == d;
  }

  /** `convert_obj2dict`: the fields of a named tuple, in order, as a
      dictionary. Field names of a named tuple are distinct. */
  method ConvertObj2Dict<V>(fields: seq<Entry<V>>) returns (r: Dict<V>)
    requires UniqueKeys(fields)
    ensures r == fields
  {
    r := [];
    var i := 0;
    while i < |fields|
      invariant 0 <= i <= |fields|
      invariant r == fields[..i]
    {
      forall k | 0 <= k < i ensures r[k].key != fields[i].key {
      }
      assert fields[i].key !in Keys(r);
      PutNewKey(r, fields[i].key, fields[i].value);
      assert fields[..i + 1] == fields[..i] + [fields[i]];
      r := Put(r, fields[i].key, fields[i].value);
      i := i + 1;
    }
  }
}
