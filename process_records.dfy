/** Flattening the selected processes into one sample dictionary: every
    field of every process becomes one or more cells whose key is
    `prefix + separator + field`, with `{proc_n}` replaced by the process's
    place in the list. What `psutil` reports per process is the `Process`
    value; formatting a timestamp (`timeText`), rounding a memory share to
    four decimals (`round4`), rounding a percentage by the configured
    `percent_format` (`percentFormat`) and psutil's `bytes2human`
    (`humanize`) are parameters. */
module ProcessRecords {
  import opened Outcomes
  import opened Text
  import opened Records
  import opened SizeUnits
  import opened ProcessSelection

  // ---------------------------------------------------------------------------
  // str.format(proc_n=...)

  /** What `str.format` makes of the text at the head of `s`, and how many
      characters it reads for it. */
  datatype Piece = Piece(text: string, width: nat)

  /** The head of a non-empty `s`: '{{' and '}}' stand for single braces,
      a replacement field `{...}` is replaced as `ReplaceField` says, a lone
      brace is an error, and any other character stands for itself. */
  function FormatStep(s: string, n: string): (r: Result<Piece>)
    requires s != []
    ensures r.Ok? ==> 0 < r.value.width <= |s|
    ensures s[0] != '{' && s[0] != '}' ==> r == Ok(Piece([s[0]], 1))
    ensures r.Err? ==> FormatError(r.error)
  {
    if s[0] == '{' then
      if |s| >= 2 && s[1] == '{' then Ok(Piece("{", 2))
      else
        var j := Span(s[1..], IsCloseBrace, false);
        if 1 + j == |s| then Err(ValueFailure)
        else
          var v :- ReplaceField(s[1..1 + j], n);
          Ok(Piece(v, 2 + j))
    else if s[0] == '}' then
      if |s| >= 2 && s[1] == '}' then Ok(Piece("}", 2))
      else Err(ValueFailure)
    else Ok(Piece([s[0]], 1))
  }

  /** `s.format(proc_n=n)`: the pieces `FormatStep` reads, from left to
      right, so the first failing field gives the error. */
  function FormatProcN(s: string, n: string): (r: Result<string>)
    decreases |s|
  {
    if s == [] then Ok([])
    else
      var p :- FormatStep(s, n);
      var t :- FormatProcN(s[p.width..], n);
      Ok(p.text + t)
  }

  predicate IsOpenBrace(c: char) { c == '{' }

  predicate IsCloseBrace(c: char) { c == '}' }

  /** The field name ends at a conversion or a format spec. */
  predicate EndsFieldName(c: char) { c == '!' || c == ':' }

  /** The argument name ends at an attribute or an index. */
  predicate EndsArgName(c: char) { c == '.' || c == '[' }

  /** A replacement field taken apart: the argument name, the whole field
      name (with any attribute or index), the conversion and the format
      spec. */
  datatype FieldParts = FieldParts(argName: string, fieldName: string, conversion: Option<char>, spec: string)

  /** Parsing `{f}`: the field name runs to the first '!' or ':'; a '!'
      must be followed by one character and then ':' or the end. A nested
      '{' or a malformed conversion is a `ValueError`. */
  function SplitField(f: string): (r: Result<FieldParts>)
    ensures Span(f, IsOpenBrace, false) < |f| ==> r == Err(ValueFailure)
    ensures r.Ok? ==> StartsWith(f, r.value.fieldName) && StartsWith(r.value.fieldName, r.value.argName)
    ensures r.Ok? ==> forall k :: 0 <= k < |r.value.fieldName| ==> !EndsFieldName(r.value.fieldName[k])
    ensures r.Ok? ==> forall k :: 0 <= k < |r.value.argName| ==> !EndsArgName(r.value.argName[k])
  {
    var nameEnd := Span(f, EndsFieldName, false);
    var fieldName, rest := f[..nameEnd], f[nameEnd..];
    var argName := fieldName[..Span(fieldName, EndsArgName, false)];
    if Span(f, IsOpenBrace, false) < |f| then Err(ValueFailure)
    else if rest == [] then Ok(FieldParts(argName, fieldName, None, []))
    else if rest[0] == ':' then Ok(FieldParts(argName, fieldName, None, rest[1..]))
    else if |rest| == 2 then Ok(FieldParts(argName, fieldName, Some(rest[1]), []))
    else if |rest| > 2 && rest[2] == ':' then Ok(FieldParts(argName, fieldName, Some(rest[1]), rest[3..]))
    else Err(ValueFailure)
  }

  /** `str(n)` for no conversion and '!s', `repr(n)` for '!r' and '!a'. */
  function ConversionOf(conversion: Option<char>, n: string): (r: Result<string>)
    ensures r.Ok? <==> conversion.None? || conversion.value in "sra"
  {
    if conversion.None? || conversion.value == 's' then Ok(n)
    else if conversion.value == 'r' || conversion.value == 'a' then Ok("'" + n + "'")
    else Err(ValueFailure)
  }

  /** One replacement field `{f}` with the only argument `proc_n=n`: an
      empty or all-digit argument name asks for a positional argument
      (`IndexError`); any other name than 'proc_n' is missing (`KeyError`);
      'proc_n' itself is converted. Attributes, indexes and non-empty format
      specs of 'proc_n' are refused. */
  function ReplaceField(f: string, n: string): (r: Result<string>)
    ensures r.Ok? ==> r.value == n || r.value == "'" + n + "'"
    ensures r.Err? ==> FormatError(r.error)
  {
    var parts :- SplitField(f);
    if parts.argName == [] || AllDigits(parts.argName) then Err(IndexFailure)
    else if parts.argName != "proc_n" then Err(KeyFailure)
    else if parts.argName != parts.fieldName || parts.spec != [] then Err(ValueFailure)
    else ConversionOf(parts.conversion, n)
  }

  /** The exceptions `str.format` raises for a bad replacement field:
      `ValueError`, `IndexError` for a positional argument, `KeyError` for
      a missing keyword. */
  predicate FormatError(e: Failure) {
    e.ValueFailure? || e.IndexFailure? || e.KeyFailure?
  }

  /** No character of `s` is a brace. */
  predicate BraceFree(s: string) {
    forall i :: 0 <= i < |s| ==> s[i] != '{' && s[i] != '}'
  }

  /** `a` in front of a formatted text; a failure stays the failure. */
  function Prepend(a: string, r: Result<string>): Result<string> {
    if r.Ok? then Ok(a + r.value) else r
  }

  lemma PrependTwice(a: string, r: Result<string>)
    requires a != []
    ensures Prepend([a[0]], Prepend(a[1..], r)) == Prepend(a, r)
  {
    if r.Ok? {
      assert [a[0]] + (a[1..] + r.value) == a + r.value;
    }
  }

  /** A character other than a brace is copied in front of the rest. */
  lemma {:induction false} FormatPlainChar(c: char, t: string, n: string)
    requires c != '{' && c != '}'
    ensures FormatProcN([c] + t, n) == Prepend([c], FormatProcN(t, n))
  {
    var s := [c] + t;
    assert s[0] == c && s[1..] == t;
  }

  /** Formatting fails only with the exceptions `str.format` raises for a
      bad replacement field. */
  lemma {:induction false} FormatErrorKinds(s: string, n: string)
    ensures FormatProcN(s, n).Err? ==> FormatError(FormatProcN(s, n).error)
    decreases |s|
  {
    if s != [] && FormatStep(s, n).Ok? {
      FormatErrorKinds(s[FormatStep(s, n).value.width..], n);
    }
  }

  /** Text without braces comes out of formatting unchanged. */
  lemma FormatBraceFree(s: string, n: string)
    requires BraceFree(s)
    ensures FormatProcN(s, n) == Ok(s)
  {
    FormatBraceFreePrefix(s, [], n);
    assert s + [] == s;
  }

  /** Text without braces passes through formatting unchanged, in front of
      whatever follows it, and the rest's failure is the whole failure. */
  lemma {:induction false} FormatBraceFreePrefix(a: string, t: string, n: string)
    requires BraceFree(a)
    ensures FormatProcN(a + t, n) == Prepend(a, FormatProcN(t, n))
  {
    if a == [] {
      assert a + t == t;
      if FormatProcN(t, n).Ok? {
        assert a + FormatProcN(t, n).value == FormatProcN(t, n).value;
      }
    } else {
      assert BraceFree(a[1..]) by {
        forall i | 0 <= i < |a[1..]| ensures a[1..][i] != '{' && a[1..][i] != '}' {
          assert a[1..][i] == a[i + 1];
        }
      }
      var x := a[1..] + t;
      assert a + t == [a[0]] + x;
      FormatBraceFreePrefix(a[1..], t, n);
      FormatPlainChar(a[0], x, n);
      PrependTwice(a, FormatProcN(t, n));
    }
  }

  /** '{proc_n}' in front of a text is replaced by `n`. */
  lemma FormatPlaceholder(u: string, n: string)
    ensures FormatProcN("{proc_n}" + u, n) == if FormatProcN(u, n).Ok? then Ok(n + FormatProcN(u, n).value) else FormatProcN(u, n)
  {
    var s := "{proc_n}" + u;
    assert s[0] == '{' && s[1] == 'p';
    assert s[1..] == "proc_n" + ("}" + u);
    SpanOfRun("proc_n", "}" + u, IsCloseBrace, false);
    assert s[1..7] == "proc_n" && s[8..] == u;
    ReplacePlainName("proc_n", n);
    assert !AllDigits("proc_n") by {
      assert !IsDigit("proc_n"[0]);
    }
  }

  /** A text made of one replacement field is that field replaced. */
  lemma FormatSingleField(f: string, n: string)
    requires forall k :: 0 <= k < |f| ==> f[k] != '}'
    requires f == [] || f[0] != '{'
    ensures FormatProcN("{" + f + "}", n) == ReplaceField(f, n)
  {
    var s := "{" + f + "}";
    var r := ReplaceField(f, n);
    FormatStepSingleField(f, n);
    if r.Ok? {
      assert s[|f| + 2..] == [];
      assert r.value + [] == r.value;
    }
  }

  /** The step over a text made of one replacement field consumes all of it. */
  lemma FormatStepSingleField(f: string, n: string)
    requires forall k :: 0 <= k < |f| ==> f[k] != '}'
    requires f == [] || f[0] != '{'
    ensures var r := ReplaceField(f, n);
      FormatStep("{" + f + "}", n) == if r.Ok? then Ok(Piece(r.value, |f| + 2)) else Err(r.error)
  {
    var s := "{" + f + "}";
    assert s[1..] == f + "}";
    SpanOfRun(f, "}", IsCloseBrace, false);
    assert s[1..1 + |f|] == f;
  }

  /** A field name without braces, conversion, format spec, attribute or
      index. */
  predicate PlainName(f: string) {
    forall k :: 0 <= k < |f| ==> !IsOpenBrace(f[k]) && !IsCloseBrace(f[k]) && !EndsFieldName(f[k]) && !EndsArgName(f[k])
  }

  /** A plain field name: 'proc_n' is replaced by the index; an empty or
      all-digit name asks for a positional argument that `format` was not
      given (`IndexError`); any other name is a missing keyword argument
      (`KeyError`). */
  lemma ReplacePlainName(f: string, n: string)
    requires PlainName(f)
    ensures ReplaceField(f, n) ==
      if f == [] || AllDigits(f) then Err(IndexFailure)
      else if f == "proc_n" then Ok(n)
      else Err(KeyFailure)
  {
    SpanOfRun(f, [], EndsFieldName, false);
    SpanOfRun(f, [], EndsArgName, false);
    SpanOfRun(f, [], IsOpenBrace, false);
    assert f + [] == f && f[..|f|] == f && f[|f|..] == [];
    assert SplitField(f) == Ok(FieldParts(f, f, None, []));
  }

  /** A plain name followed by a one-character conversion. */
  lemma SplitConversion(name: string, c: char)
    requires PlainName(name) && !IsOpenBrace(c)
    ensures SplitField(name + "!" + [c]) == Ok(FieldParts(name, name, Some(c), []))
  {
    var f := name + "!" + [c];
    assert f == name + ("!" + [c]);
    SpanOfRun(name, "!" + [c], EndsFieldName, false);
    SpanOfRun(name, [], EndsArgName, false);
    SpanOfRun(f, [], IsOpenBrace, false);
    assert name + [] == name && f + [] == f;
    assert f[..|name|] == name && f[|name|..] == "!" + [c];
    assert name[..|name|] == name;
  }

  /** The conversions of 'proc_n': '!s' shows the index, '!r' and '!a' quote
      it, any other is a `ValueError`. */
  lemma ReplaceConversion(c: char, n: string)
    requires !IsOpenBrace(c)
    ensures ReplaceField("proc_n!" + [c], n) ==
      if c == 's' then Ok(n)
      else if c == 'r' || c == 'a' then Ok("'" + n + "'")
      else Err(ValueFailure)
  {
    var f := "proc_n!" + [c];
    assert f == "proc_n" + "!" + [c];
    SplitConversion("proc_n", c);
    var parts := FieldParts("proc_n", "proc_n", Some(c), []);
    assert SplitField(f) == Ok(parts);
    assert !AllDigits("proc_n") by {
      assert !IsDigit("proc_n"[0]);
    }
    assert ReplaceField(f, n) == ConversionOf(Some(c), n);
  }

  /** A prefix 'a{proc_n}b' gives the key `a + n + b + separator + field`
      when nothing else has braces: the process's place in the list is
      written in decimal where the placeholder was. */
  lemma ProcessKeyOf(a: string, b: string, rest: string, id: nat)
    requires BraceFree(a) && BraceFree(b + rest)
    ensures FormatProcN(a + "{proc_n}" + b + rest, NatToString(id)) == Ok(a + NatToString(id) + b + rest)
  {
    var n := NatToString(id);
    var t := "{proc_n}" + (b + rest);
    assert a + "{proc_n}" + b + rest == a + t;
    FormatBraceFreePrefix(a, t, n);
    FormatBraceFree(b + rest, n);
    FormatPlaceholder(b + rest, n);
    assert a + (n + (b + rest)) == a + n + b + rest;
  }

  // ---------------------------------------------------------------------------
  // add_process_info

  /** The memory types whose share is recorded, in this order. */
  const MemoryTypes: seq<string> := ["rss", "vms", "shared", "text", "lib", "data", "dirty", "uss", "pss", "swap"]

  /** `'_'.join(['percent', name])`. */
  function PercentTag(name: string): string {
    "percent_" + name
  }

  /** The shares of the memory types, from `names` on, that the memory record
      has: each is put under its tag as a rounded number. The collector not
      knowing the share of a type it listed is an error. */
  function Percents(acc: Dict<Field>, p: Process, memory: Dict<real>, names: seq<string>, round4: real -> real): Result<Dict<Field>>
    decreases |names|
  {
    if names == [] then Ok(acc)
    else if names[0] in Keys(memory) then
      match Get(p.memoryPercent, names[0])
      case None => Err(ValueFailure)
      case Some(x) => Percents(Put(acc, PercentTag(names[0]), Num(round4(x))), p, memory, names[1..], round4)
    else Percents(acc, p, memory, names[1..], round4)
  }

  function CpuFields(p: Process): Dict<Field> {
    [Entry("cpu_affinity", Items(p.cpuAffinity)), Entry("cpu_n", Num(p.cpuNum))]
  }

  /** The extra fields of `add_process_info`: the cpu fields, then the memory
      shares. The memory record must be a named tuple. */
  function ProcessExtras(p: Process, memoryInfo: Field, round4: real -> real): Result<Dict<Field>>
  {
    if !memoryInfo.Tuple? then Err(AttributeFailure)
    else
      var shares :- Percents([], p, memoryInfo.entries, MemoryTypes, round4);
      Ok(PutAll(CpuFields(p), shares))
  }

  /** `add_process_info`. */
  method AddProcessInfo(p: Process, memoryInfo: Field, round4: real -> real) returns (r: Result<Dict<Field>>)
    ensures r == ProcessExtras(p, memoryInfo, round4)
  {
    var cpu := CpuFields(p);
    if !memoryInfo.Tuple? {
      return Err(AttributeFailure);
    }
    var shares := CollectPercents(p, memoryInfo.entries, MemoryTypes, round4);
    if shares.Err? {
      return Err(shares.error);
    }
    r := Ok(PutAll(cpu, shares.value));
  }

  /** The loop of `add_process_info` over the memory types. */
  method CollectPercents(p: Process, memory: Dict<real>, names: seq<string>, round4: real -> real) returns (r: Result<Dict<Field>>)
    ensures r == Percents([], p, memory, names, round4)
  {
    var shares: Dict<Field> := [];
    var i := 0;
    while i < |names|
      invariant 0 <= i <= |names|
      invariant Percents([], p, memory, names, round4) == Percents(shares, p, memory, names[i..], round4)
    {
      var name := names[i];
      assert names[i..][0] == name && names[i..][1..] == names[i + 1..];
      if name in Keys(memory) {
        var x := Get(p.memoryPercent, name);
        if x.None? {
          return Err(ValueFailure);
        }
        shares := Put(shares, PercentTag(name), Num(round4(x.value)));
      }
      i := i + 1;
    }
    assert names[i..] == [];
    r := Ok(shares);
  }

  /** The shares never touch a key that is not the tag of one of `names`. */
  lemma {:induction false} PercentsFrame(acc: Dict<Field>, p: Process, memory: Dict<real>, names: seq<string>, round4: real -> real, k: string)
    requires Percents(acc, p, memory, names, round4).Ok?
    requires forall i :: 0 <= i < |names| ==> k != PercentTag(names[i])
    ensures Get(Percents(acc, p, memory, names, round4).value, k) == Get(acc, k)
    ensures UniqueKeys(acc) ==> UniqueKeys(Percents(acc, p, memory, names, round4).value)
    decreases |names|
  {
    if names != [] {
      if names[0] in Keys(memory) {
        var x := Get(p.memoryPercent, names[0]).value;
        var acc' := Put(acc, PercentTag(names[0]), Num(round4(x)));
        PutGet(acc, PercentTag(names[0]), Num(round4(x)), k);
        if UniqueKeys(acc) {
          PutKeepsUnique(acc, PercentTag(names[0]), Num(round4(x)));
        }
        PercentsFrame(acc', p, memory, names[1..], round4, k);
      } else {
        PercentsFrame(acc, p, memory, names[1..], round4, k);
      }
    }
  }

  /** Each listed type the memory record has is found under its tag with
      its rounded share. */
  lemma {:induction false} PercentsGet(acc: Dict<Field>, p: Process, memory: Dict<real>, names: seq<string>, round4: real -> real, name: string)
    requires Percents(acc, p, memory, names, round4).Ok?
    requires name in names && name in Keys(memory)
    ensures Get(p.memoryPercent, name).Some?
    ensures Get(Percents(acc, p, memory, names, round4).value, PercentTag(name)) == Some(Num(round4(Get(p.memoryPercent, name).value)))
    decreases |names|
  {
    var rest := names[1..];
    if names[0] in Keys(memory) {
      var x := Get(p.memoryPercent, names[0]).value;
      var acc' := Put(acc, PercentTag(names[0]), Num(round4(x)));
      if name in rest {
        PercentsGet(acc', p, memory, rest, round4, name);
      } else {
        assert name == names[0];
        forall i | 0 <= i < |rest| ensures PercentTag(name) != PercentTag(rest[i]) {
          if PercentTag(name) == PercentTag(rest[i]) {
            PrefixCancel("percent_", name, rest[i]);
          }
        }
        PutGet(acc, PercentTag(names[0]), Num(round4(x)), PercentTag(name));
        PercentsFrame(acc', p, memory, rest, round4, PercentTag(name));
      }
    } else {
      assert name != names[0];
      assert name in rest;
      PercentsGet(acc, p, memory, rest, round4, name);
    }
  }

  /** A listed type the memory record has but whose share the collector
      cannot give makes the extras fail. */
  lemma {:induction false} PercentsMissing(acc: Dict<Field>, p: Process, memory: Dict<real>, names: seq<string>, round4: real -> real, name: string)
    requires name in names && name in Keys(memory) && Get(p.memoryPercent, name).None?
    ensures Percents(acc, p, memory, names, round4) == Err(ValueFailure)
    decreases |names|
  {
    if names[0] != name {
      assert name in names[1..];
      if names[0] in Keys(memory) && Get(p.memoryPercent, names[0]).Some? {
        var x := Get(p.memoryPercent, names[0]).value;
        PercentsMissing(Put(acc, PercentTag(names[0]), Num(round4(x))), p, memory, names[1..], round4, name);
      } else if names[0] !in Keys(memory) {
        PercentsMissing(acc, p, memory, names[1..], round4, name);
      }
    }
  }

  /** `add_process_info` names its fields 'cpu_affinity', 'cpu_n' and
      'percent_<type>' for the memory types of the record: each type's share
      is found under its tag, rounded; the cpu fields keep their values. */
  lemma ProcessExtrasFields(p: Process, memory: Dict<real>, round4: real -> real, name: string)
    requires ProcessExtras(p, Tuple(memory), round4).Ok?
    ensures var e := ProcessExtras(p, Tuple(memory), round4).value;
      Get(e, "cpu_affinity") == Some(Items(p.cpuAffinity)) && Get(e, "cpu_n") == Some(Num(p.cpuNum)) &&
      (name in MemoryTypes && name in Keys(memory) ==>
        Get(p.memoryPercent, name).Some? &&
        Get(e, PercentTag(name)) == Some(Num(round4(Get(p.memoryPercent, name).value))))
  {
    var shares := Percents([], p, memory, MemoryTypes, round4).value;
    var cpu := CpuFields(p);
    CpuKeyUntouched(p, memory, MemoryTypes, round4, "cpu_affinity");
    CpuKeyUntouched(p, memory, MemoryTypes, round4, "cpu_n");
    GetPutAll(cpu, shares, "cpu_affinity");
    GetPutAll(cpu, shares, "cpu_n");
    if name in MemoryTypes && name in Keys(memory) {
      PercentsGet([], p, memory, MemoryTypes, round4, name);
      GetPutAll(cpu, shares, PercentTag(name));
    }
  }

  /** The cpu fields are never the tag of a memory share. */
  lemma CpuKeyUntouched(p: Process, memory: Dict<real>, names: seq<string>, round4: real -> real, k: string)
    requires Percents([], p, memory, names, round4).Ok?
    requires k == "cpu_affinity" || k == "cpu_n"
    ensures k !in Keys(Percents([], p, memory, names, round4).value)
    ensures UniqueKeys(Percents([], p, memory, names, round4).value)
  {
    forall i | 0 <= i < |names| ensures k != PercentTag(names[i]) {
      assert PercentTag(names[i])[1] == 'e';
      assert k[1] == 'p';
    }
    PercentsFrame([], p, memory, names, round4, k);
  }

  // ---------------------------------------------------------------------------
  // organize_process_info

  /** The key parts, memory type and formatting of `organize_process_info`:
      `round4` is the fixed `{:.4f}` that `add_process_info` applies to the
      memory shares, `percentFormat` the `percent_format` argument applied
      to every cell whose key holds 'percent', the shares included. */
  datatype Settings = Settings(
    prefix: string,
    separator: string,
    memoryType: string,
    humanize: real -> string,
    timeText: real -> string,
    round4: real -> real,
    percentFormat: real -> real)

  /** The fields of one process before flattening: `as_dict` alone for the
      'partial' memory type; for 'full', `as_dict` with 'memory_info'
      replaced by the full memory record, which moves it to the end. */
  function BasicFields(p: Process, memoryType: string): (r: Result<Dict<Field>>)
    ensures r.Err? <==> memoryType != "partial" && memoryType != "full"
  {
    if memoryType == "partial" then Ok(p.fields)
    else if memoryType == "full" then Ok(Put(Remove(p.fields, "memory_info"), "memory_info", Tuple(p.memoryFull)))
    else Err(NotImplementedCase)
  }

  function Numbers(m: Dict<real>): (r: Dict<Value>)
    ensures |r| == |m| && forall i :: 0 <= i < |m| ==> r[i] == Entry(m[i].key, Number(m[i].value))
  {
    seq(|m|, i requires 0 <= i < |m| => Entry(m[i].key, Number(m[i].value)))
  }

  /** The cells one field becomes: a string or a number as it is; a list
      joined into one string, with spaces for 'cmdline' and commas for any
      other field; a named tuple as its fields, humanized for
      'memory_info'. Any other type is refused. */
  function FieldCells(key: string, value: Field, humanize: real -> string): (r: Result<Dict<Value>>)
    ensures r.Err? <==> value.OtherType?
    ensures value.Text? || value.Num? || value.Items? ==> |r.value| == 1 && r.value[0].key == key
  {
    match value
    case Text(s) => Ok([Entry(key, Str(s))])
    case Num(x) => Ok([Entry(key, Number(x))])
    case Items(xs) => Ok([Entry(key, Str(Join(if key == "cmdline" then " " else ",", xs)))])
    case Tuple(m) => Ok(if key == "memory_info" then Humanized(m, humanize) else Numbers(m))
    case OtherType => Err(NotImplementedCase)
  }

  /** A cell's value as stored: 'create_time' is shown as a date, and a
      field whose name holds 'percent' is rounded. Neither applies to a
      string. */
  function CellValue(key: string, v: Value, s: Settings): (r: Result<Value>)
    ensures key != "create_time" && !Contains(key, "percent") ==> r == Ok(v)
    ensures key == "create_time" && !v.Number? ==> r == Err(TypeFailure)
    ensures key != "create_time" && Contains(key, "percent") ==> (r.Ok? <==> v.Number?)
    ensures r.Ok? && Contains(key, "percent") ==> r.value.Number?
    ensures key != "create_time" && Contains(key, "percent") && v.Number? ==> r == Ok(Number(s.percentFormat(v.x)))
  {
    var shown :- if key != "create_time" then Ok(v) else if v.Number? then Ok(Str(s.timeText(v.x))) else Err(TypeFailure);
    if !Contains(key, "percent") then Ok(shown)
    else if shown.Number? then Ok(Number(s.percentFormat(shown.x)))
    else Err(ValueFailure)
  }

  /** A memory share rounded to four decimals by `add_process_info` is
      rounded once more by `percent_format` when it is flattened, since its
      key holds 'percent'. */
  lemma ShareRoundedTwice(name: string, x: real, s: Settings)
    ensures CellValue(PercentTag(name), Number(s.round4(x)), s) == Ok(Number(s.percentFormat(s.round4(x))))
  {
    var key := PercentTag(name);
    assert key[..7] == "percent";
    assert OccursAt(key, "percent", 0);
    ContainsOccurs(key, "percent");
    assert key != "create_time" by {
      assert key[0] == 'p';
    }
  }

  /** The cells put, in order, under their formatted keys. */
  function PutCells(acc: Dict<Value>, cells: Dict<Value>, id: nat, s: Settings): Result<Dict<Value>>
    decreases |cells|
  {
    if cells == [] then Ok(acc)
    else
      var v :- CellValue(cells[0].key, cells[0].value, s);
      var key :- FormatProcN(s.prefix + s.separator + cells[0].key, NatToString(id));
      PutCells(Put(acc, key, v), cells[1..], id, s)
  }

  /** The fields of one process flattened, in order. */
  function PutFields(acc: Dict<Value>, fields: Dict<Field>, id: nat, s: Settings): Result<Dict<Value>>
    decreases |fields|
  {
    if fields == [] then Ok(acc)
    else
      var cells :- FieldCells(fields[0].key, fields[0].value, s.humanize);
      var acc' :- PutCells(acc, cells, id, s);
      PutFields(acc', fields[1..], id, s)
  }

  /** The fields of one process: its basic fields updated by its extra
      fields, `{**basic, **extras}`. */
  function MergedFields(p: Process, memoryType: string, round4: real -> real): Result<Dict<Field>>
  {
    var basic :- BasicFields(p, memoryType);
    var memoryInfo :- if "memory_info" in Keys(basic) then Ok(Get(basic, "memory_info").value) else Err(KeyFailure);
    var extras :- ProcessExtras(p, memoryInfo, round4);
    Ok(PutAll(basic, extras))
  }

  /** One process flattened under its place. */
  function ProcessCells(acc: Dict<Value>, p: Process, id: nat, s: Settings): Result<Dict<Value>>
  {
    var fields :- MergedFields(p, s.memoryType, s.round4);
    PutFields(acc, fields, id, s)
  }

  /** The processes from place `i` on, each under its own place. */
  function OrganizeFrom(acc: Dict<Value>, procs: seq<Process>, i: nat, s: Settings): Result<Dict<Value>>
    requires i <= |procs|
    decreases |procs| - i
  {
    if i == |procs| then Ok(acc)
    else
      var acc' :- ProcessCells(acc, procs[i], i, s);
      OrganizeFrom(acc', procs, i + 1, s)
  }

  /** The dictionary `organize_process_info` builds; no process list gives
      an empty dictionary. */
  function ProcessRecord(procs: Option<seq<Process>>, prefix: Option<string>, separator: Option<string>, memoryType: string,
                         humanize: real -> string, timeText: real -> string, round4: real -> real, percentFormat: real -> real): (r: Result<Dict<Value>>)
    ensures procs.None? ==> r == Ok([])
    ensures r.Ok? ==> UniqueKeys(r.value)
  {
    if procs.None? then Ok([])
    else
      var s := SettingsOf(prefix, separator, memoryType, humanize, timeText, round4, percentFormat);
      OrganizeFromWrites([], procs.value, 0, s);
      var w := ProcessWrites(procs.value, 0, s);
      if w.Ok? then PutAllKeepsUnique([], w.value); OrganizeFrom([], procs.value, 0, s)
      else OrganizeFrom([], procs.value, 0, s)
  }

  /** The loop over the fields of one process and over the cells of each. */
  method FlattenFields(acc: Dict<Value>, fields: Dict<Field>, id: nat, s: Settings) returns (r: Result<Dict<Value>>)
    ensures r == PutFields(acc, fields, id, s)
  {
    var out := acc;
    var j := 0;
    while j < |fields|
      invariant 0 <= j <= |fields|
      invariant PutFields(acc, fields, id, s) == PutFields(out, fields[j..], id, s)
    {
      var key, value := fields[j].key, fields[j].value;
      assert fields[j..][0] == fields[j] && fields[j..][1..] == fields[j + 1..];
      var cells := FieldCells(key, value, s.humanize);
      if cells.Err? {
        return Err(cells.error);
      }
      var start := out;
      var k := 0;
      while k < |cells.value|
        invariant 0 <= k <= |cells.value|
        invariant PutCells(start, cells.value, id, s) == PutCells(out, cells.value[k..], id, s)
      {
        var c := cells.value[k];
        assert cells.value[k..][0] == c && cells.value[k..][1..] == cells.value[k + 1..];
        var v := CellValue(c.key, c.value, s);
        if v.Err? {
          return Err(v.error);
        }
        var cellKey := FormatProcN(s.prefix + s.separator + c.key, NatToString(id));
        if cellKey.Err? {
          return Err(cellKey.error);
        }
        out := Put(out, cellKey.value, v.value);
        k := k + 1;
      }
      j := j + 1;
    }
    r := Ok(out);
  }

  /** `organize_process_info`. */
  method OrganizeProcessInfo(procs: Option<seq<Process>>, prefix: Option<string>, separator: Option<string>, memoryType: string,
                             humanize: real -> string, timeText: real -> string, round4: real -> real, percentFormat: real -> real)
    returns (r: Result<Dict<Value>>)
    ensures r == ProcessRecord(procs, prefix, separator, memoryType, humanize, timeText, round4, percentFormat)
  {
    var p := if prefix.None? then "process_name" else prefix.value;
    var sep := if separator.None? then "_" else separator.value;
    var s := Settings(p, sep, memoryType, humanize, timeText, round4, percentFormat);
    if procs.None? {
      return Ok([]);
    }
    r := OrganizeList(procs.value, s);
  }

  /** The loop of `organize_process_info` over the processes. */
  method OrganizeList(list: seq<Process>, s: Settings) returns (r: Result<Dict<Value>>)
    ensures r == OrganizeFrom([], list, 0, s)
  {
    var out: Dict<Value> := [];
    var i := 0;
    while i < |list|
      invariant 0 <= i <= |list|
      invariant OrganizeFrom([], list, 0, s) == OrganizeFrom(out, list, i, s)
    {
      var fields := MergeFields(list[i], s.memoryType, s.round4);
      if fields.Err? {
        assert OrganizeFrom(out, list, i, s) == Err(fields.error);
        return Err(fields.error);
      }
      var next := FlattenFields(out, fields.value, i, s);
      assert ProcessCells(out, list[i], i, s) == next;
      if next.Err? {
        assert OrganizeFrom(out, list, i, s) == Err(next.error);
        return Err(next.error);
      }
      out := next.value;
      i := i + 1;
    }
    r := Ok(out);
  }

  /** The fields one process contributes, before flattening. */
  method MergeFields(p: Process, memoryType: string, round4: real -> real) returns (r: Result<Dict<Field>>)
    ensures r == MergedFields(p, memoryType, round4)
  {
    var basic: Dict<Field>;
    if memoryType == "partial" {
      basic := p.fields;
    } else if memoryType == "full" {
      basic := Remove(p.fields, "memory_info");
      basic := Put(basic, "memory_info", Tuple(p.memoryFull));
    } else {
      return Err(NotImplementedCase);
    }
    var memoryInfo := Get(basic, "memory_info");
    if memoryInfo.None? {
      return Err(KeyFailure);
    }
    var extras := AddProcessInfo(p, memoryInfo.value, round4);
    if extras.Err? {
      return Err(extras.error);
    }
    r := Ok(PutAll(basic, extras.value));
  }

  // ---------------------------------------------------------------------------
  // Properties of the flattened record

  // ---------------------------------------------------------------------------
  // The record as a log of writes

  /** The write one cell makes: its stored value under its formatted key. */
  function CellWrite(c: Entry<Value>, id: nat, s: Settings): (r: Result<Entry<Value>>)
    ensures r.Ok? <==> CellValue(c.key, c.value, s).Ok? && FormatProcN(s.prefix + s.separator + c.key, NatToString(id)).Ok?
    ensures r.Ok? ==> r.value == Entry(FormatProcN(s.prefix + s.separator + c.key, NatToString(id)).value, CellValue(c.key, c.value, s).value)
  {
    var v :- CellValue(c.key, c.value, s);
    var key :- FormatProcN(s.prefix + s.separator + c.key, NatToString(id));
    Ok(Entry(key, v))
  }

  /** The writes of a list of cells, in order; the first failing cell
      stops them. */
  function CellWrites(cells: Dict<Value>, id: nat, s: Settings): (r: Result<Dict<Value>>)
    ensures r.Ok? <==> forall j {:trigger CellWrite(cells[j], id, s)} :: 0 <= j < |cells| ==> CellWrite(cells[j], id, s).Ok?
    ensures r.Ok? ==> |r.value| == |cells| && forall j {:trigger r.value[j]} :: 0 <= j < |cells| ==> r.value[j] == CellWrite(cells[j], id, s).value
    decreases |cells|
  {
    if cells == [] then Ok([])
    else
      var e :- CellWrite(cells[0], id, s);
      var rest :- CellWrites(cells[1..], id, s);
      assert forall j :: 1 <= j < |cells| ==> cells[j] == cells[1..][j - 1];
      Ok([e] + rest)
  }

  /** The writes of the fields of one process, field after field. */
  function FieldWrites(fields: Dict<Field>, id: nat, s: Settings): Result<Dict<Value>>
    decreases |fields|
  {
    if fields == [] then Ok([])
    else
      var cells :- FieldCells(fields[0].key, fields[0].value, s.humanize);
      var w :- CellWrites(cells, id, s);
      var rest :- FieldWrites(fields[1..], id, s);
      Ok(w + rest)
  }

  /** The writes of the processes from place `i` on, process after
      process. */
  function ProcessWrites(procs: seq<Process>, i: nat, s: Settings): Result<Dict<Value>>
    requires i <= |procs|
    decreases |procs| - i
  {
    if i == |procs| then Ok([])
    else
      var fields :- MergedFields(procs[i], s.memoryType, s.round4);
      var w :- FieldWrites(fields, i, s);
      var rest :- ProcessWrites(procs, i + 1, s);
      Ok(w + rest)
  }

  /** The result of putting a log of writes into `acc`, failing as the log
      does. */
  function Applied(acc: Dict<Value>, w: Result<Dict<Value>>): Result<Dict<Value>> {
    if w.Ok? then Ok(PutAll(acc, w.value)) else Err(w.error)
  }

  /** Putting the cells one by one is putting their writes. */
  lemma {:induction false} PutCellsWrites(acc: Dict<Value>, cells: Dict<Value>, id: nat, s: Settings)
    ensures PutCells(acc, cells, id, s) == Applied(acc, CellWrites(cells, id, s))
    decreases |cells|
  {
    if cells != [] {
      var e := CellWrite(cells[0], id, s);
      if e.Ok? {
        PutCellsWrites(Put(acc, e.value.key, e.value.value), cells[1..], id, s);
        var rest := CellWrites(cells[1..], id, s);
        if rest.Ok? {
          PutAllCons(acc, e.value, rest.value);
        }
      }
    }
  }

  /** Flattening the fields one by one is putting their writes. */
  lemma {:induction false} PutFieldsWrites(acc: Dict<Value>, fields: Dict<Field>, id: nat, s: Settings)
    ensures PutFields(acc, fields, id, s) == Applied(acc, FieldWrites(fields, id, s))
    decreases |fields|
  {
    if fields != [] {
      var cells := FieldCells(fields[0].key, fields[0].value, s.humanize);
      if cells.Ok? {
        PutCellsWrites(acc, cells.value, id, s);
        var w := CellWrites(cells.value, id, s);
        if w.Ok? {
          var acc' := PutAll(acc, w.value);
          PutFieldsWrites(acc', fields[1..], id, s);
          var rest := FieldWrites(fields[1..], id, s);
          if rest.Ok? {
            PutAllAppend(acc, w.value, rest.value);
          }
        }
      }
    }
  }

  /** Flattening the processes one by one is putting their writes. */
  lemma {:induction false} OrganizeFromWrites(acc: Dict<Value>, procs: seq<Process>, i: nat, s: Settings)
    requires i <= |procs|
    ensures OrganizeFrom(acc, procs, i, s) == Applied(acc, ProcessWrites(procs, i, s))
    decreases |procs| - i
  {
    if i < |procs| {
      var fields := MergedFields(procs[i], s.memoryType, s.round4);
      if fields.Ok? {
        PutFieldsWrites(acc, fields.value, i, s);
        var w := FieldWrites(fields.value, i, s);
        if w.Ok? {
          OrganizeFromWrites(PutAll(acc, w.value), procs, i + 1, s);
          var rest := ProcessWrites(procs, i + 1, s);
          if rest.Ok? {
            PutAllAppend(acc, w.value, rest.value);
          }
        }
      }
    }
  }

  /** The settings `organize_process_info` runs with. */
  function SettingsOf(prefix: Option<string>, separator: Option<string>, memoryType: string,
                      humanize: real -> string, timeText: real -> string, round4: real -> real, percentFormat: real -> real): (s: Settings)
    ensures s.prefix == (if prefix.None? then "process_name" else prefix.value)
    ensures s.separator == (if separator.None? then "_" else separator.value)
  {
    Settings(if prefix.None? then "process_name" else prefix.value,
             if separator.None? then "_" else separator.value,
             memoryType, humanize, timeText, round4, percentFormat)
  }

  /** The record is the log of writes of all processes put in order into
      an empty dictionary, and fails exactly when the log does, with the
      same error. */
  lemma ProcessRecordWrites(procs: seq<Process>, prefix: Option<string>, separator: Option<string>, memoryType: string,
                            humanize: real -> string, timeText: real -> string, round4: real -> real, percentFormat: real -> real)
    ensures ProcessRecord(Some(procs), prefix, separator, memoryType, humanize, timeText, round4, percentFormat) ==
      Applied([], ProcessWrites(procs, 0, SettingsOf(prefix, separator, memoryType, humanize, timeText, round4, percentFormat)))
  {
    OrganizeFromWrites([], procs, 0, SettingsOf(prefix, separator, memoryType, humanize, timeText, round4, percentFormat));
  }

  /** Last write wins: the value of a key in the record is the value of
      the last write to that key, and a key nobody writes is absent. */
  lemma ProcessRecordLastWrite(procs: seq<Process>, prefix: Option<string>, separator: Option<string>, memoryType: string,
                               humanize: real -> string, timeText: real -> string, round4: real -> real, percentFormat: real -> real, k: string)
    requires ProcessRecord(Some(procs), prefix, separator, memoryType, humanize, timeText, round4, percentFormat).Ok?
    ensures var w := ProcessWrites(procs, 0, SettingsOf(prefix, separator, memoryType, humanize, timeText, round4, percentFormat));
      w.Ok? && Get(ProcessRecord(Some(procs), prefix, separator, memoryType, humanize, timeText, round4, percentFormat).value, k) == LastValue(w.value, k)
  {
    ProcessRecordWrites(procs, prefix, separator, memoryType, humanize, timeText, round4, percentFormat);
    var w := ProcessWrites(procs, 0, SettingsOf(prefix, separator, memoryType, humanize, timeText, round4, percentFormat));
    GetPutAllLast([], w.value, k);
  }

  /** When no two writes share a key, the record is exactly the log. */
  lemma ProcessRecordDistinct(procs: seq<Process>, prefix: Option<string>, separator: Option<string>, memoryType: string,
                              humanize: real -> string, timeText: real -> string, round4: real -> real, percentFormat: real -> real)
    requires var w := ProcessWrites(procs, 0, SettingsOf(prefix, separator, memoryType, humanize, timeText, round4, percentFormat));
      w.Ok? && UniqueKeys(w.value)
    ensures ProcessRecord(Some(procs), prefix, separator, memoryType, humanize, timeText, round4, percentFormat) ==
      ProcessWrites(procs, 0, SettingsOf(prefix, separator, memoryType, humanize, timeText, round4, percentFormat))
  {
    ProcessRecordWrites(procs, prefix, separator, memoryType, humanize, timeText, round4, percentFormat);
    PutAllIntoEmpty(ProcessWrites(procs, 0, SettingsOf(prefix, separator, memoryType, humanize, timeText, round4, percentFormat)).value);
  }

  // ---------------------------------------------------------------------------
  // Every cell is written, and every write comes from a cell

  /** Every cell of every field is written into the log of the fields. */
  lemma {:induction false} FieldWritesHold(fields: Dict<Field>, id: nat, s: Settings, f: Entry<Field>, c: Entry<Value>)
    requires FieldWrites(fields, id, s).Ok? && f in fields
    ensures FieldCells(f.key, f.value, s.humanize).Ok?
    ensures c in FieldCells(f.key, f.value, s.humanize).value ==>
      CellWrite(c, id, s).Ok? && CellWrite(c, id, s).value in FieldWrites(fields, id, s).value
    decreases |fields|
  {
    var cells := FieldCells(fields[0].key, fields[0].value, s.humanize).value;
    var w := CellWrites(cells, id, s).value;
    var rest := FieldWrites(fields[1..], id, s).value;
    if f == fields[0] {
      if c in cells {
        var j :| 0 <= j < |cells| && cells[j] == c;
        assert w[j] in w + rest;
      }
    } else {
      assert f in fields[1..];
      FieldWritesHold(fields[1..], id, s, f, c);
      if c in FieldCells(f.key, f.value, s.humanize).value {
        assert CellWrite(c, id, s).value in rest;
        assert forall x :: x in rest ==> x in w + rest;
      }
    }
  }

  /** Every cell of every field of every process from place `i` on is
      written into the log, under its key formatted with its process's
      place. */
  lemma {:induction false} ProcessWritesHold(procs: seq<Process>, i: nat, s: Settings, id: nat, f: Entry<Field>, c: Entry<Value>)
    requires i <= id < |procs| && ProcessWrites(procs, i, s).Ok?
    ensures MergedFields(procs[id], s.memoryType, s.round4).Ok?
    ensures f in MergedFields(procs[id], s.memoryType, s.round4).value ==> FieldCells(f.key, f.value, s.humanize).Ok?
    ensures f in MergedFields(procs[id], s.memoryType, s.round4).value && c in FieldCells(f.key, f.value, s.humanize).value ==>
      CellWrite(c, id, s).Ok? && CellWrite(c, id, s).value in ProcessWrites(procs, i, s).value
    decreases |procs| - i
  {
    var fields := MergedFields(procs[i], s.memoryType, s.round4).value;
    var w := FieldWrites(fields, i, s).value;
    var rest := ProcessWrites(procs, i + 1, s).value;
    if id == i {
      if f in fields {
        FieldWritesHold(fields, i, s, f, c);
        if c in FieldCells(f.key, f.value, s.humanize).value {
          assert CellWrite(c, id, s).value in w;
          assert forall x :: x in w ==> x in w + rest;
        }
      }
    } else {
      ProcessWritesHold(procs, i + 1, s, id, f, c);
      if f in MergedFields(procs[id], s.memoryType, s.round4).value && c in FieldCells(f.key, f.value, s.humanize).value {
        assert forall x :: x in rest ==> x in w + rest;
      }
    }
  }

  /** `e` is the write of a cell of one of the fields, with the place
      `id`. */
  ghost predicate WrittenFrom(e: Entry<Value>, fields: Dict<Field>, id: nat, s: Settings) {
    exists f, c :: f in fields && FieldCells(f.key, f.value, s.humanize).Ok? &&
      c in FieldCells(f.key, f.value, s.humanize).value && CellWrite(c, id, s) == Ok(e)
  }

  /** `e` is the write of a cell of a field of the process at place `id`. */
  ghost predicate WrittenFor(e: Entry<Value>, procs: seq<Process>, id: nat, s: Settings) {
    id < |procs| && MergedFields(procs[id], s.memoryType, s.round4).Ok? &&
    WrittenFrom(e, MergedFields(procs[id], s.memoryType, s.round4).value, id, s)
  }

  /** Every write in the log of the fields is the write of one of their
      cells, which the lemma names. */
  lemma {:induction false} FieldWritesSource(fields: Dict<Field>, id: nat, s: Settings, e: Entry<Value>) returns (f: Entry<Field>, c: Entry<Value>)
    requires FieldWrites(fields, id, s).Ok? && e in FieldWrites(fields, id, s).value
    ensures f in fields && FieldCells(f.key, f.value, s.humanize).Ok? && c in FieldCells(f.key, f.value, s.humanize).value
    ensures CellWrite(c, id, s) == Ok(e)
    decreases |fields|
  {
    var cells := FieldCells(fields[0].key, fields[0].value, s.humanize).value;
    var w := CellWrites(cells, id, s).value;
    var rest := FieldWrites(fields[1..], id, s).value;
    if e in w {
      var k :| 0 <= k < |w| && w[k] == e;
      f, c := fields[0], cells[k];
    } else {
      assert e in rest;
      f, c := FieldWritesSource(fields[1..], id, s, e);
    }
  }

  /** Every write in the log of the processes from place `i` on is the
      write of a cell of one of those processes. */
  lemma {:induction false} ProcessWritesSource(procs: seq<Process>, i: nat, s: Settings, j: nat)
    requires i <= |procs| && ProcessWrites(procs, i, s).Ok? && j < |ProcessWrites(procs, i, s).value|
    ensures exists id :: i <= id && WrittenFor(ProcessWrites(procs, i, s).value[j], procs, id, s)
    decreases |procs| - i
  {
    var fields := MergedFields(procs[i], s.memoryType, s.round4).value;
    var w := FieldWrites(fields, i, s).value;
    var rest := ProcessWrites(procs, i + 1, s).value;
    if j < |w| {
      assert (w + rest)[j] == w[j];
      var f, c := FieldWritesSource(fields, i, s, w[j]);
      assert WrittenFrom(w[j], fields, i, s);
      assert WrittenFor(w[j], procs, i, s);
    } else {
      assert (w + rest)[j] == rest[j - |w|];
      ProcessWritesSource(procs, i + 1, s, j - |w|);
    }
  }

  /** Every key of the flattened record is the formatted key of a cell of
      one of the processes, formatted with that process's place, and holds
      the stored value of the last such cell. */
  lemma ProcessRecordKeys(procs: seq<Process>, prefix: Option<string>, separator: Option<string>, memoryType: string,
                          humanize: real -> string, timeText: real -> string, round4: real -> real, percentFormat: real -> real, k: string)
    requires ProcessRecord(Some(procs), prefix, separator, memoryType, humanize, timeText, round4, percentFormat).Ok?
    requires k in Keys(ProcessRecord(Some(procs), prefix, separator, memoryType, humanize, timeText, round4, percentFormat).value)
    ensures exists id, v :: (WrittenFor(Entry(k, v), procs, id, SettingsOf(prefix, separator, memoryType, humanize, timeText, round4, percentFormat)) &&
      Get(ProcessRecord(Some(procs), prefix, separator, memoryType, humanize, timeText, round4, percentFormat).value, k) == Some(v))
  {
    var s := SettingsOf(prefix, separator, memoryType, humanize, timeText, round4, percentFormat);
    ProcessRecordLastWrite(procs, prefix, separator, memoryType, humanize, timeText, round4, percentFormat, k);
    var w := ProcessWrites(procs, 0, s).value;
    var j := LastIndex(w, k);
    ProcessWritesSource(procs, 0, s, j);
  }

  /** No process list gives an empty record, and an unknown memory type is
      refused as soon as there is a process. */
  lemma ProcessRecordEdges(procs: seq<Process>, prefix: Option<string>, separator: Option<string>, memoryType: string,
                           humanize: real -> string, timeText: real -> string, round4: real -> real, percentFormat: real -> real)
    ensures ProcessRecord(None, prefix, separator, memoryType, humanize, timeText, round4, percentFormat) == Ok([])
    ensures procs != [] && memoryType != "partial" && memoryType != "full" ==>
      ProcessRecord(Some(procs), prefix, separator, memoryType, humanize, timeText, round4, percentFormat) == Err(NotImplementedCase)
    ensures procs == [] ==> ProcessRecord(Some(procs), prefix, separator, memoryType, humanize, timeText, round4, percentFormat) == Ok([])
  {
  }

  /** With the 'partial' memory type the fields come from `as_dict` alone,
      so a first process without a 'memory_info' field fails the lookup of
      its memory record. */
  lemma PartialWithoutMemoryInfo(procs: seq<Process>, prefix: Option<string>, separator: Option<string>,
                                 humanize: real -> string, timeText: real -> string, round4: real -> real, percentFormat: real -> real)
    requires procs != [] && "memory_info" !in Keys(procs[0].fields)
    ensures ProcessRecord(Some(procs), prefix, separator, "partial", humanize, timeText, round4, percentFormat) == Err(KeyFailure)
  {
  }

  /** A list field is stored as one string under its key: joined with
      spaces for 'cmdline', with commas otherwise. */
  lemma ListFieldJoined(acc: Dict<Value>, key: string, xs: seq<string>, id: nat, s: Settings)
    requires key != "create_time" && !Contains(key, "percent")
    requires BraceFree(s.prefix + s.separator + key)
    ensures PutFields(acc, [Entry(key, Items(xs))], id, s) ==
      Ok(Put(acc, s.prefix + s.separator + key, Str(Join(if key == "cmdline" then " " else ",", xs))))
  {
    var v := Str(Join(if key == "cmdline" then " " else ",", xs));
    var cells := [Entry(key, v)];
    var k := s.prefix + s.separator + key;
    FormatBraceFree(k, NatToString(id));
    assert FieldCells(key, Items(xs), s.humanize) == Ok(cells);
    assert CellValue(key, v, s) == Ok(v);
    assert cells[1..] == [];
    assert PutCells(acc, cells, id, s) == Ok(Put(acc, k, v));
    assert [Entry(key, Items(xs))][1..] == [];
  }

  /** A field of any other type than string, number, list and named tuple
      stops the flattening. */
  lemma UnsupportedFieldFails(acc: Dict<Value>, key: string, rest: Dict<Field>, id: nat, s: Settings)
    ensures PutFields(acc, [Entry(key, OtherType)] + rest, id, s) == Err(NotImplementedCase)
  {
  }
}
