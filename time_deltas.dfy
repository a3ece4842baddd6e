/** Time-delta strings such as "2s", "10min" or "h": filling in a missing
    count, splitting into count and unit, and clamping a delta between a
    lower and an upper bound. pandas' `Timedelta` parser is replaced by a
    small one for "<count><unit>" with the units s, m, min and h. */
module TimeDeltas {
  import opened Outcomes
  import opened Text

  // ---------------------------------------------------------------------------
  // Filling in the count

  /** `fill_time_delta_parts` on a string: a delta that starts with a letter
      gets the count 1; an empty string has no first character to test. */
  function FillText(s: string): (r: Result<string>)
    ensures r.Err? <==> s == []
    ensures r.Ok? ==> r.value != [] && !IsLetter(r.value[0])
    ensures r.Ok? && !IsLetter(s[0]) ==> r.value == s
    ensures r.Ok? && IsLetter(s[0]) ==> r.value == "1" + s
  {
    if s == [] then Err(IndexFailure)
    else if IsLetter(s[0]) then Ok("1" + s)
    else Ok(s)
  }

  /** `fill_time_delta_parts`: anything that is not a string (None) passes
      through unchanged. */
  function FillTimeDeltaParts(d: Option<string>): (r: Result<Option<string>>)
    ensures d.None? ==> r == Ok(None)
    ensures d.Some? && r.Ok? ==> r.value.Some?
  {
    match d
    case None => Ok(None)
    case Some(s) =>
      var t :- FillText(s);
      Ok(Some(t))
  }

  /** Filling twice is filling once. */
  lemma FillIdempotent(d: Option<string>)
    requires FillTimeDeltaParts(d).Ok?
    ensures FillTimeDeltaParts(FillTimeDeltaParts(d).value) == FillTimeDeltaParts(d)
  {
    if d.Some? {
      var t := FillText(d.value).value;
      assert FillText(t) == Ok(t);
    }
  }

  /** A filled delta keeps its text after the added count. */
  lemma FillKeepsText(s: string)
    requires s != []
    ensures var t := FillText(s).value; t == s || (t == "1" + s && IsLetter(s[0]))
    ensures FillText(s).value[|FillText(s).value| - |s|..] == s
  {
  }

  // ---------------------------------------------------------------------------
  // Splitting into count and unit

  /** `split_time_delta_parts`: the integer of the first run of digits (1
      when there is none) and the first run of letters; a delta without a
      letter has no unit and fails. */
  function SplitTimeDeltaParts(s: string): (r: Result<(nat, string)>)
    ensures r.Err? <==> forall k :: 0 <= k < |s| ==> !IsLetter(s[k])
    ensures r.Ok? ==> r.value.1 != [] && IsFirstRun(s, IsLetter, FirstRunStart(s, IsLetter), r.value.1)
    ensures r.Ok? && (forall k :: 0 <= k < |s| ==> !IsDigit(s[k])) ==> r.value.0 == 1
    ensures r.Ok? && (exists k :: 0 <= k < |s| && IsDigit(s[k])) ==>
      exists d :: d != [] && IsFirstRun(s, IsDigit, FirstRunStart(s, IsDigit), d) && r.value.0 == DigitsValue(d)
  {
    var digits := FirstRun(s, IsDigit);
    var count := if digits == [] then 1 else DigitsValue(digits);
    var unit := FirstRun(s, IsLetter);
    if unit == [] then Err(IndexFailure) else Ok((count, unit))
  }

  /** A count written before its unit splits back into both: "10min" gives
      (10, "min"). */
  lemma SplitOfCountAndUnit(n: nat, u: string)
    requires u != [] && forall k :: 0 <= k < |u| ==> IsLetter(u[k])
    ensures SplitTimeDeltaParts(NatToString(n) + u) == Ok((n, u))
  {
    var digits := NatToString(n);
    var s := digits + u;
    assert IsDigit(s[0]);
    assert Span(s, IsDigit, false) == 0;
    assert s[0..] == s;
    SpanOfRun(digits, u, IsDigit, true);
    assert s[..|digits|] == digits;
    assert FirstRun(s, IsDigit) == digits;
    DigitsValueOfNatToString(n);
    SpanOfRun(digits, u, IsLetter, false);
    assert s[|digits|..] == u;
    SpanOfRun(u, [], IsLetter, true);
    assert u + [] == u;
    assert u[..|u|] == u;
    assert FirstRun(s, IsLetter) == u;
  }

  /** A unit alone counts once: "h" gives (1, "h"). */
  lemma SplitOfUnitOnly(u: string)
    requires u != [] && forall k :: 0 <= k < |u| ==> IsLetter(u[k])
    ensures SplitTimeDeltaParts(u) == Ok((1, u))
  {
    assert Span(u, IsLetter, false) == 0;
    assert u[0..] == u;
    SpanOfRun(u, [], IsLetter, true);
    assert u + [] == u;
    assert u[..|u|] == u;
  }

  // ---------------------------------------------------------------------------
  // Durations

  const SecondsPerDay: nat := 86400

  /** Seconds in `n` units of `u`; none for a unit the parser does not know. */
  function UnitSeconds(n: nat, u: string): (r: Option<nat>)
    ensures u == "s" ==> r == Some(n)
    ensures u == "h" ==> r == Some(3600 * n)
  {
    if u == "s" then Some(n)
    else if u == "m" || u == "min" then Some(60 * n)
    else if u == "h" then Some(3600 * n)
    else None
  }

  /** The whole duration of `pd.Timedelta(s)` in seconds, for a count of
      digits followed by a unit; anything else is refused. */
  function TotalSeconds(s: string): (r: Result<nat>)
    ensures s == [] || !IsDigit(s[0]) ==> r == Err(ValueFailure)
    ensures r.Ok? ==> exists d :: 0 < d < |s| && UnitSeconds(1, s[d..]).Some?
  {
    var d := Span(s, IsDigit, true);
    if d == 0 then Err(ValueFailure)
    else match UnitSeconds(DigitsValue(s[..d]), s[d..])
      case None => Err(ValueFailure)
      case Some(t) => Ok(t)
  }

  /** A count followed by a known unit reads as that many seconds. */
  lemma TotalSecondsOf(n: nat, u: string)
    requires u != [] && !IsDigit(u[0]) && UnitSeconds(n, u).Some?
    ensures TotalSeconds(NatToString(n) + u) == Ok(UnitSeconds(n, u).value)
  {
    var digits := NatToString(n);
    var s := digits + u;
    SpanOfRun(digits, u, IsDigit, true);
    assert s[..|digits|] == digits && s[|digits|..] == u;
    DigitsValueOfNatToString(n);
  }

  /** pandas' `Timedelta.seconds`: the seconds left over after whole days,
      not the whole duration. */
  function SecondsPart(s: string): (r: Result<nat>)
    ensures r.Ok? ==> r.value < SecondsPerDay
    ensures r.Ok? <==> TotalSeconds(s).Ok?
    ensures r.Ok? ==> r.value == TotalSeconds(s).value % SecondsPerDay
  {
    var t :- TotalSeconds(s);
    Ok(t % SecondsPerDay)
  }

  /** `convert_time_delta_to_seconds`: None stays None; a delta gives its
      `.seconds`. */
  function ConvertTimeDeltaToSeconds(d: Option<string>): (r: Result<Option<nat>>)
    ensures d.None? ==> r == Ok(None)
    ensures d.Some? ==> (r.Ok? <==> TotalSeconds(d.value).Ok?)
    ensures d.Some? && r.Ok? ==> r.value == Some(TotalSeconds(d.value).value % SecondsPerDay)
  {
    match d
    case None => Ok(None)
    case Some(s) =>
      var t :- SecondsPart(s);
      Ok(Some(t))
  }

  /** A delta of a day or more loses its whole days: "25h" gives 3600. */
  lemma ConvertTimeDeltaDropsDays(h: nat)
    requires 24 <= h < 48
    ensures ConvertTimeDeltaToSeconds(Some(NatToString(h) + "h")) == Ok(Some(3600 * (h - 24)))
  {
    TotalSecondsOf(h, "h");
  }

  // ---------------------------------------------------------------------------
  // Clamping between bounds

  /** How a delta is measured before it is compared: by its `.seconds` part
      (`wholeDays` false, as the source does) or by its whole duration. */
  function Measure(s: string, wholeDays: bool): (r: Result<nat>)
    ensures r.Ok? <==> s != [] && TotalSeconds(FillText(s).value).Ok?
    ensures r.Ok? && !wholeDays ==> r.value < SecondsPerDay
    ensures r.Ok? && wholeDays ==> r == TotalSeconds(FillText(s).value)
  {
    var t :- FillText(s);
    if wholeDays then TotalSeconds(t) else SecondsPart(t)
  }

  /** `check_time_delta_limits`, with the measure used for the comparison as
      a parameter. Without a source delta the one bound given is taken; with
      one, a lower bound replaces a shorter source and an upper bound a
      longer one. Any other combination of bounds fails. */
  function Limits(src: Option<string>, lo: Option<string>, hi: Option<string>, wholeDays: bool): (r: Result<string>)
    ensures r.Ok? ==> (src.Some? && r.value == src.value) || (lo.Some? && r.value == lo.value) || (hi.Some? && r.value == hi.value)
    ensures src.None? ==> (r.Ok? <==> lo.Some? != hi.Some?)
    ensures src.None? && r.Err? ==> r.error == RuntimeFailure
    ensures src.Some? && lo.Some? == hi.Some? ==> r == Err(NotImplementedCase)
  {
    match src
    case None =>
      if lo.Some? && hi.None? then Ok(lo.value)
      else if lo.None? && hi.Some? then Ok(hi.value)
      else Err(RuntimeFailure)
    case Some(s) =>
      if lo.Some? && hi.None? then
        var a :- Measure(s, wholeDays);
        var b :- Measure(lo.value, wholeDays);
        if a < b then Ok(lo.value) else Ok(s)
      else if lo.None? && hi.Some? then
        var a :- Measure(s, wholeDays);
        var b :- Measure(hi.value, wholeDays);
        if a > b then Ok(hi.value) else Ok(s)
      else Err(NotImplementedCase)
  }

  /** `check_time_delta_limits` as written: deltas are compared by their
      `.seconds` part. */
  function CheckTimeDeltaLimitsAsWritten(src: Option<string>, lo: Option<string>, hi: Option<string>): Result<string>
  {
    Limits(src, lo, hi, false)
  }

  /** `check_time_delta_limits` as intended: deltas are compared by their
      whole duration. */
  function CheckTimeDeltaLimits(src: Option<string>, lo: Option<string>, hi: Option<string>): Result<string>
  {
    Limits(src, lo, hi, true)
  }

  /** With a lower bound only, the result is never shorter than the bound,
      and a source that is not shorter is kept as it is. */
  lemma LowerBoundHolds(src: string, lo: string)
    requires CheckTimeDeltaLimits(Some(src), Some(lo), None).Ok?
    ensures var r := CheckTimeDeltaLimits(Some(src), Some(lo), None).value;
      Measure(r, true).Ok? && Measure(r, true).value >= Measure(lo, true).value
    ensures Measure(src, true).value >= Measure(lo, true).value ==>
      CheckTimeDeltaLimits(Some(src), Some(lo), None) == Ok(src)
  {
  }

  /** With an upper bound only, the result is never longer than the bound,
      and a source that is not longer is kept as it is. */
  lemma UpperBoundHolds(src: string, hi: string)
    requires CheckTimeDeltaLimits(Some(src), None, Some(hi)).Ok?
    ensures var r := CheckTimeDeltaLimits(Some(src), None, Some(hi)).value;
      Measure(r, true).Ok? && Measure(r, true).value <= Measure(hi, true).value
    ensures Measure(src, true).value <= Measure(hi, true).value ==>
      CheckTimeDeltaLimits(Some(src), None, Some(hi)) == Ok(src)
  {
  }

  /** A delta that fails to parse makes the clamp fail. */
  lemma UnreadableSourceFails(src: string, lo: string, wholeDays: bool)
    requires Measure(src, wholeDays).Err?
    ensures Limits(Some(src), Some(lo), None, wholeDays).Err?
    ensures Limits(Some(src), None, Some(lo), wholeDays).Err?
  {
  }

  lemma DayHours()
    ensures TotalSeconds("24h") == Ok(86400)
    ensures TotalSeconds("1h") == Ok(3600)
  {
    assert NatToString(24) == "24";
    assert NatToString(24) + "h" == "24h";
    TotalSecondsOf(24, "h");
    assert NatToString(1) + "h" == "1h";
    TotalSecondsOf(1, "h");
  }

  /** As written, a period of "24h" passes the one-hour maximum, because its
      `.seconds` part is 0; measured whole it is clamped to "1h". */
  lemma DayPeriodPassesHourMaximum()
    ensures CheckTimeDeltaLimitsAsWritten(Some("24h"), None, Some("1h")) == Ok("24h")
    ensures CheckTimeDeltaLimits(Some("24h"), None, Some("1h")) == Ok("1h")
  {
    DayHours();
    assert FillText("24h") == Ok("24h");
    assert FillText("1h") == Ok("1h");
  }

  /** As written, a frequency of "24h" falls below the two-second minimum,
      because its `.seconds` part is 0; measured whole it is kept. */
  lemma DayFrequencyFallsBelowMinimum()
    ensures CheckTimeDeltaLimitsAsWritten(Some("24h"), Some("2s"), None) == Ok("2s")
    ensures CheckTimeDeltaLimits(Some("24h"), Some("2s"), None) == Ok("24h")
  {
    DayHours();
    assert NatToString(2) + "s" == "2s";
    TotalSecondsOf(2, "s");
    assert FillText("24h") == Ok("24h");
    assert FillText("2s") == Ok("2s");
  }
}
