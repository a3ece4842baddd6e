/** The chunk id part of a report file name. Both the sampling driver and
    the consolidation script render the id the same way before it is put
    into the file name template; the template filling itself is not part of
    this model. */
module FileNames {
  import opened Outcomes
  import opened Text

  /** The `report_id` argument: none, an int, a float, a string, or an
      object of another type. */
  datatype IdArg = NoId | IntId(n: int) | FloatId(x: real) | StrId(s: string) | OtherId

  /** `int(x)` on a float: the integer part, truncated toward zero. */
  function Truncate(x: real): (n: int)
    ensures 0.0 <= x ==> n as real <= x < n as real + 1.0
    ensures x < 0.0 ==> n as real - 1.0 < x <= n as real
  {
    if x >= 0.0 then x.Floor else -((-x).Floor)
  }

  /** The id as the template receives it: a number becomes `str(int(id))`,
      a string passes as it is, no id stays none, anything else is
      refused. */
  function ReportId(id: IdArg): (r: Result<Option<string>>)
    ensures id.OtherId? <==> r.Err?
    ensures r.Err? ==> r.error == NotImplementedCase
    ensures id.NoId? <==> r == Ok(None)
    ensures id.StrId? ==> r == Ok(Some(id.s))
  {
    match id
    case NoId => Ok(None)
    case IntId(n) => Ok(Some(IntToString(n)))
    case FloatId(x) => Ok(Some(IntToString(Truncate(x))))
    case StrId(s) => Ok(Some(s))
    case OtherId => Err(NotImplementedCase)
  }

  /** The name of the chunk with integer id `n`. */
  function ChunkName(n: int): (s: string)
    ensures 0 <= n ==> DigitsValue(s) == n
    ensures n < 0 ==> |s| > 1 && s[0] == '-' && DigitsValue(s[1..]) == -n
  {
    if n >= 0 then DigitsValueOfNatToString(n); ReportId(IntId(n)).value.value
    else
      var s := ReportId(IntId(n)).value.value;
      assert s == "-" + NatToString(-n) && s[1..] == NatToString(-n);
      DigitsValueOfNatToString(-n);
      s
  }

  /** A float id names the same chunk as its integer part: 3.7 and 3 agree,
      and so do -3.7 and -3. */
  lemma FloatIdTruncates(x: real, n: int)
    requires (0.0 <= x && n as real <= x < n as real + 1.0) || (x < 0.0 && n as real - 1.0 < x <= n as real)
    ensures ReportId(FloatId(x)) == ReportId(IntId(n))
  {
    var t := Truncate(x);
    if 0.0 <= x {
      assert t == n;
    } else {
      assert t == n;
    }
  }

  /** Distinct integer ids name distinct chunks. */
  lemma ChunkNamesDistinct(a: int, b: int)
    requires a != b
    ensures ChunkName(a) != ChunkName(b)
  {
    if ChunkName(a) == ChunkName(b) {
      IntToStringInjective(a, b);
    }
  }
}
