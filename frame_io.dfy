/** Tables of samples and the column operations used to prepare them for
    plotting: selecting the columns that start with given prefixes,
    replacing size strings by their numbers, and converting size strings to
    one unit. A pandas DataFrame is its row index and its columns in order,
    each a name and its cells; `pd.concat(..., axis=1)` may repeat a name,
    `frame[name] = column` replaces the column of that name in place or
    appends it. */
module FrameIo {
  import opened Outcomes
  import opened Text
  import opened Records
  import opened SizeUnits

  type Columns = Dict<seq<Value>>

  datatype Frame = Frame(index: seq<int>, columns: Columns)

  /** `frame.empty`: no column or no row. */
  predicate IsEmpty(f: Frame) {
    f.columns == [] || f.index == []
  }

  /** The `prefix_name` argument: None, one string, a list of strings, or an
      object of another type. */
  datatype PrefixArg = NoPrefix | OnePrefix(p: string) | Prefixes(ps: seq<string>) | OtherPrefix

  // ---------------------------------------------------------------------------
  // filter_dframe_by_column

  /** `frame.loc[:, frame.columns.str.startswith(p)]`: the columns whose name
      starts with `p`, in their order. */
  function Matching(cols: Columns, p: string): Columns
  {
    if cols == [] then []
    else (if StartsWith(cols[0].key, p) then [cols[0]] else []) + Matching(cols[1..], p)
  }

  /** A column is selected exactly when its name starts with the prefix. */
  lemma {:induction false} MatchingIff(cols: Columns, p: string, c: Entry<seq<Value>>)
    ensures c in Matching(cols, p) <==> c in cols && StartsWith(c.key, p)
  {
    if cols != [] {
      MatchingIff(cols[1..], p, c);
      assert cols == [cols[0]] + cols[1..];
    }
  }

  /** The selections of the prefixes one after the other, as the repeated
      `pd.concat([dst, step], axis=1)` builds them. */
  function Selection(cols: Columns, ps: seq<string>): Columns
  {
    if ps == [] then []
    else Selection(cols, ps[..|ps| - 1]) + Matching(cols, ps[|ps| - 1])
  }

  /** The name starts with one of the prefixes. */
  function MatchesAny(name: string, ps: seq<string>): (r: bool)
    ensures r <==> exists i :: 0 <= i < |ps| && StartsWith(name, ps[i])
  {
    if ps == [] then false
    else
      var front := ps[..|ps| - 1];
      assert forall i :: 0 <= i < |front| ==> front[i] == ps[i];
      MatchesAny(name, front) || StartsWith(name, ps[|ps| - 1])
  }

  lemma {:induction false} SelectionIff(cols: Columns, ps: seq<string>, c: Entry<seq<Value>>)
    ensures c in Selection(cols, ps) <==> c in cols && MatchesAny(c.key, ps)
  {
    if ps != [] {
      SelectionIff(cols, ps[..|ps| - 1], c);
      MatchingIff(cols, ps[|ps| - 1], c);
    }
  }

  function AsList(prefix: PrefixArg): (ps: seq<string>)
    requires prefix.OnePrefix? || prefix.Prefixes?
  {
    if prefix.OnePrefix? then [prefix.p] else prefix.ps
  }

  /** What `filter_dframe_by_column` returns: no table gives None, no prefix
      a copy, otherwise the selected columns; an empty list of prefixes
      leaves no table to test for emptiness, and a prefix that is not text
      cannot be matched against the names; an empty result is None. */
  function Filtered(src: Option<Frame>, prefix: PrefixArg): (r: Result<Option<Frame>>)
    ensures src.None? ==> r == Ok(None)
    ensures r.Ok? && r.value.Some? ==> !IsEmpty(r.value.value) && r.value.value.index == src.value.index
  {
    if src.None? then Ok(None)
    else
      var dst :- if prefix.NoPrefix? then Ok(src.value)
                 else if prefix.OtherPrefix? then Err(TypeFailure)
                 else if AsList(prefix) == [] then Err(AttributeFailure)
                 else Ok(Frame(src.value.index, Selection(src.value.columns, AsList(prefix))));
      if IsEmpty(dst) then Ok(None) else Ok(Some(dst))
  }

  /** `filter_dframe_by_column`. */
  method FilterDframeByColumn(src: Option<Frame>, prefix: PrefixArg) returns (r: Result<Option<Frame>>)
    ensures r == Filtered(src, prefix)
  {
    if src.None? {
      return Ok(None);
    }
    var dst: Option<Frame> := None;
    if prefix.NoPrefix? {
      dst := src;
    } else if prefix.OtherPrefix? {
      return Err(TypeFailure);
    } else {
      var ps := if prefix.OnePrefix? then [prefix.p] else prefix.ps;
      var i := 0;
      while i < |ps|
        invariant 0 <= i <= |ps|
        invariant i == 0 ==> dst.None?
        invariant i > 0 ==> dst == Some(Frame(src.value.index, Selection(src.value.columns, ps[..i])))
      {
        assert ps[..i + 1][..i] == ps[..i] && ps[..i + 1][i] == ps[i];
        var step := Frame(src.value.index, Matching(src.value.columns, ps[i]));
        assert Selection(src.value.columns, ps[..i + 1]) == Selection(src.value.columns, ps[..i]) + step.columns;
        if dst.None? {
          assert Selection(src.value.columns, ps[..i]) == [];
          assert [] + step.columns == step.columns;
          dst := Some(step);
        } else {
          dst := Some(Frame(dst.value.index, dst.value.columns + step.columns));
        }
        i := i + 1;
      }
      assert ps[..i] == ps;
      if dst.None? {
        return Err(AttributeFailure);
      }
    }
    if IsEmpty(dst.value) {
      return Ok(None);
    }
    return Ok(dst);
  }

  /** A column is kept exactly when its name starts with one of the
      prefixes; no table gives None and no prefix keeps the table. */
  lemma FilteredColumns(src: Frame, prefix: PrefixArg, c: Entry<seq<Value>>)
    requires prefix.OnePrefix? || prefix.Prefixes?
    requires Filtered(Some(src), prefix).Ok? && Filtered(Some(src), prefix).value.Some?
    ensures var f := Filtered(Some(src), prefix).value.value;
      f.index == src.index &&
      (c in f.columns <==> c in src.columns && MatchesAny(c.key, AsList(prefix)))
  {
    SelectionIff(src.columns, AsList(prefix), c);
  }

  lemma FilteredEdges(src: Frame, prefix: PrefixArg)
    ensures Filtered(None, prefix) == Ok(None)
    ensures Filtered(Some(src), OtherPrefix) == Err(TypeFailure)
    ensures Filtered(Some(src), NoPrefix) == if IsEmpty(src) then Ok(None) else Ok(Some(src))
    ensures Filtered(Some(src), Prefixes([])) == Err(AttributeFailure)
  {
  }

  /** A single prefix is the list of that one prefix. */
  lemma FilteredOnePrefix(src: Option<Frame>, p: string)
    ensures Filtered(src, OnePrefix(p)) == Filtered(src, Prefixes([p]))
  {
  }

  /** A column that matches two prefixes appears twice, once in each
      prefix's selection. */
  lemma FilteredTwice(src: Frame, p: string, q: string, c: Entry<seq<Value>>)
    requires c in src.columns && StartsWith(c.key, p) && StartsWith(c.key, q)
    ensures multiset(Selection(src.columns, [p, q]))[c] >= 2
  {
    var a, b := Matching(src.columns, p), Matching(src.columns, q);
    MatchingIff(src.columns, p, c);
    MatchingIff(src.columns, q, c);
    SelectionPair(src.columns, p, q);
    assert multiset(a + b) == multiset(a) + multiset(b);
  }

  lemma SelectionPair(cols: Columns, p: string, q: string)
    ensures Selection(cols, [p, q]) == Matching(cols, p) + Matching(cols, q)
  {
    assert [p, q][..1] == [p] && [p][..0] == [];
    assert Selection(cols, [p]) == [] + Matching(cols, p);
  }

  /** Nothing selected gives None. */
  lemma FilteredNothing(src: Frame, ps: seq<string>)
    requires ps != []
    requires forall c :: c in src.columns ==> !MatchesAny(c.key, ps)
    ensures Filtered(Some(src), Prefixes(ps)) == Ok(None)
  {
    var sel := Selection(src.columns, ps);
    if sel != [] {
      SelectionIff(src.columns, ps, sel[0]);
    }
  }

  // ---------------------------------------------------------------------------
  // convert_dframe_string2num

  /** A cell as `convert_string2num_value` receives it. */
  function SizeOfCell(v: Value): SizeObject {
    if v.Str? then SizeText(v.s) else SizeOther
  }

  /** Every cell of a column replaced by the value part of its size. */
  function CellsToNum(cells: seq<Value>): (r: Result<seq<Value>>)
    ensures r.Ok? ==> |r.value| == |cells|
  {
    if cells == [] then Ok([])
    else
      var front :- CellsToNum(cells[..|cells| - 1]);
      var x :- StringToNum(SizeOfCell(cells[|cells| - 1]));
      Ok(front + [Number(x)])
  }

  /** The cells converted one by one. */
  lemma {:induction false} CellsToNumAt(cells: seq<Value>, k: nat)
    requires CellsToNum(cells).Ok? && k < |cells|
    ensures StringToNum(SizeOfCell(cells[k])).Ok?
    ensures CellsToNum(cells).value[k] == Number(StringToNum(SizeOfCell(cells[k])).value)
  {
    if k < |cells| - 1 {
      CellsToNumAt(cells[..|cells| - 1], k);
    }
  }

  /** The columns put one after the other into a new table. */
  function NumColumns(cols: Columns): Result<Columns>
  {
    if cols == [] then Ok([])
    else
      var front :- NumColumns(cols[..|cols| - 1]);
      var cells :- CellsToNum(cols[|cols| - 1].value);
      Ok(Put(front, cols[|cols| - 1].key, cells))
  }

  /** What `convert_dframe_string2num` returns. A new table takes its index
      from its first column, so a table without columns stays without
      rows. */
  function String2Num(src: Frame): (r: Result<Frame>)
    ensures r.Ok? && UniqueKeys(src.columns) ==> |r.value.columns| == |src.columns|
    ensures r.Ok? && UniqueKeys(src.columns) ==>
      forall a :: 0 <= a < |src.columns| ==> r.value.columns[a].key == src.columns[a].key && |r.value.columns[a].value| == |src.columns[a].value|
  {
    var cols :- NumColumns(src.columns);
    var dst := Frame(if src.columns == [] then [] else src.index, cols);
    if UniqueKeys(src.columns) then
      NumColumnsShape(src.columns);
      Ok(dst)
    else Ok(dst)
  }

  /** `convert_dframe_string2num`. */
  method ConvertDframeString2Num(src: Frame) returns (r: Result<Frame>)
    ensures r == String2Num(src)
  {
    var cols := ConvertColumnsToNum(src.columns);
    if cols.Err? {
      return Err(cols.error);
    }
    r := Ok(Frame(if src.columns == [] then [] else src.index, cols.value));
  }

  /** The loop over the columns, each put into the new table. */
  method ConvertColumnsToNum(columns: Columns) returns (r: Result<Columns>)
    ensures r == NumColumns(columns)
  {
    var cols: Columns := [];
    var i := 0;
    while i < |columns|
      invariant 0 <= i <= |columns|
      invariant NumColumns(columns[..i]) == Ok(cols)
    {
      NumColumnsStep(columns, i, cols);
      var cells := CellsToNum(columns[i].value);
      if cells.Err? {
        NumColumnsErr(columns, i + 1);
        assert columns[..|columns|] == columns;
        return Err(cells.error);
      }
      cols := Put(cols, columns[i].key, cells.value);
      i := i + 1;
    }
    assert columns[..i] == columns;
    r := Ok(cols);
  }

  /** A failure in a leading part of the columns is the failure of all. */
  lemma {:induction false} NumColumnsErr(cols: Columns, n: nat)
    requires n <= |cols| && NumColumns(cols[..n]).Err?
    ensures NumColumns(cols) == NumColumns(cols[..n])
  {
    if n < |cols| {
      var front := cols[..|cols| - 1];
      assert front[..n] == cols[..n];
      NumColumnsErr(front, n);
      NumColumnsErrStep(cols);
    } else {
      assert cols[..n] == cols;
    }
  }

  /** One more column is put into the table so far, or its failure is the
      failure of the columns so far. */
  lemma NumColumnsStep(columns: Columns, i: nat, cols: Columns)
    requires i < |columns| && NumColumns(columns[..i]) == Ok(cols)
    ensures var cells := CellsToNum(columns[i].value);
      NumColumns(columns[..i + 1]) == if cells.Err? then Err(cells.error) else Ok(Put(cols, columns[i].key, cells.value))
  {
    assert columns[..i + 1][..i] == columns[..i];
  }

  /** A failure before the last column is the failure of all. */
  lemma NumColumnsErrStep(cols: Columns)
    requires cols != [] && NumColumns(cols[..|cols| - 1]).Err?
    ensures NumColumns(cols) == NumColumns(cols[..|cols| - 1])
  {
  }

  /** With distinct column names, every column keeps its name and place and
      each cell becomes the value part of its size string. */
  lemma {:induction false} NumColumnsAt(cols: Columns, i: nat, k: nat)
    requires UniqueKeys(cols) && NumColumns(cols).Ok?
    requires i < |cols| && k < |cols[i].value|
    ensures |NumColumns(cols).value| == |cols|
    ensures NumColumns(cols).value[i].key == cols[i].key
    ensures |NumColumns(cols).value[i].value| == |cols[i].value|
    ensures StringToNum(SizeOfCell(cols[i].value[k])).Ok?
    ensures NumColumns(cols).value[i].value[k] == Number(StringToNum(SizeOfCell(cols[i].value[k])).value)
  {
    var front, last := cols[..|cols| - 1], cols[|cols| - 1];
    NumColumnsLast(cols);
    NumColumnsShape(front);
    if i < |cols| - 1 {
      NumColumnsAt(front, i, k);
      assert cols[i] == front[i];
    } else {
      CellsToNumAt(last.value, k);
    }
  }

  /** With distinct column names, the last column is appended after the
      columns before it. */
  lemma {:induction false} NumColumnsLast(cols: Columns)
    requires UniqueKeys(cols) && cols != [] && NumColumns(cols).Ok?
    ensures var front, last := cols[..|cols| - 1], cols[|cols| - 1];
      UniqueKeys(front) && NumColumns(front).Ok? && CellsToNum(last.value).Ok? &&
      NumColumns(cols).value == NumColumns(front).value + [Entry(last.key, CellsToNum(last.value).value)]
    decreases |cols|, 0
  {
    var front, last := cols[..|cols| - 1], cols[|cols| - 1];
    assert UniqueKeys(front) by {
      forall a, b | 0 <= a < b < |front| ensures front[a].key != front[b].key {
        assert front[a] == cols[a] && front[b] == cols[b];
      }
    }
    NumColumnsShape(front);
    var f := NumColumns(front).value;
    assert last.key !in Keys(f) by {
      forall a | 0 <= a < |f| ensures f[a].key != last.key {
        assert f[a].key == cols[a].key;
      }
    }
    PutNewKey(f, last.key, CellsToNum(last.value).value);
  }

  lemma {:induction false} NumColumnsShape(cols: Columns)
    requires UniqueKeys(cols) && NumColumns(cols).Ok?
    ensures |NumColumns(cols).value| == |cols|
    ensures forall a :: 0 <= a < |cols| ==>
      NumColumns(cols).value[a].key == cols[a].key && |NumColumns(cols).value[a].value| == |cols[a].value|
    decreases |cols|, 1
  {
    if cols != [] {
      var front, last := cols[..|cols| - 1], cols[|cols| - 1];
      NumColumnsLast(cols);
      NumColumnsShape(front);
      var f := NumColumns(front).value;
      forall a | 0 <= a < |f| ensures f[a].key == cols[a].key && |f[a].value| == |cols[a].value| {
        assert cols[a] == front[a];
      }
      SameShapeAppend(f, cols, CellsToNum(last.value).value);
    }
  }

  /** A table of the same shape as all columns but the last, with a column
      of the last one's name and length appended, has the shape of all. */
  lemma SameShapeAppend(f: Columns, cols: Columns, cells: seq<Value>)
    requires cols != [] && |f| == |cols| - 1 && |cells| == |cols[|cols| - 1].value|
    requires forall a :: 0 <= a < |f| ==> f[a].key == cols[a].key && |f[a].value| == |cols[a].value|
    ensures var g := f + [Entry(cols[|cols| - 1].key, cells)];
      |g| == |cols| && forall a :: 0 <= a < |cols| ==> g[a].key == cols[a].key && |g[a].value| == |cols[a].value|
  {
    var g := f + [Entry(cols[|cols| - 1].key, cells)];
    forall a | 0 <= a < |cols| ensures g[a].key == cols[a].key && |g[a].value| == |cols[a].value| {
      if a < |f| {
        assert g[a] == f[a];
      }
    }
  }

  // ---------------------------------------------------------------------------
  // convert_dframe_units

  /** What happens to one selected column, decided by its first cell: a size
      string in a column not about percentages ("2.3G": digit first, letter
      last) is converted cell by cell to `units`; a percentage stored as a
      string is refused; anything else is copied. */
  function ConvertedColumn(name: string, cells: seq<Value>, units: string, format: real -> string): (r: Result<seq<Value>>)
    ensures cells == [] ==> r == Err(IndexFailure)
    ensures r.Ok? ==> |r.value| == |cells|
  {
    if cells == [] then Err(IndexFailure)
    else if cells[0].Str? && !Contains(name, "percent") then
      var s := cells[0].s;
      if s == [] then Err(IndexFailure)
      else if IsDigit(s[0]) && IsLetter(s[|s| - 1]) then CellsInUnit(cells, units, format)
      else Ok(cells)
    else if cells[0].Str? then Err(NotImplementedCase)
    else Ok(cells)
  }

  /** `convert_human_unit(cell, units, format)` on every cell. */
  function CellsInUnit(cells: seq<Value>, units: string, format: real -> string): (r: Result<seq<Value>>)
    ensures r.Ok? ==> |r.value| == |cells| && forall k :: 0 <= k < |cells| ==> r.value[k].Str? && EndsWith(r.value[k].s, units)
  {
    if cells == [] then Ok([])
    else
      var front :- CellsInUnit(cells[..|cells| - 1], units, format);
      var shown :- ConvertHumanUnit(SizeOfCell(cells[|cells| - 1]), units, format, "");
      assert "" + units == units;
      Ok(front + [Str(shown)])
  }

  /** Cell k of the converted column is `convert_human_unit` of source
      cell k. */
  lemma {:induction false} CellsInUnitValues(cells: seq<Value>, units: string, format: real -> string, k: nat)
    requires CellsInUnit(cells, units, format).Ok? && k < |cells|
    ensures ConvertHumanUnit(SizeOfCell(cells[k]), units, format, "").Ok?
    ensures CellsInUnit(cells, units, format).value[k] == Str(ConvertHumanUnit(SizeOfCell(cells[k]), units, format, "").value)
  {
    var front := cells[..|cells| - 1];
    if k < |cells| - 1 {
      CellsInUnitValues(front, units, format, k);
      assert front[k] == cells[k];
    }
  }

  /** The converted columns of the prefixes one after the other, into a
      table that exists once a first column is selected. */
  function UnitColumns(dst: Option<Columns>, cols: Columns, units: string, format: real -> string): Result<Option<Columns>>
  {
    if cols == [] then Ok(dst)
    else
      var front :- UnitColumns(dst, cols[..|cols| - 1], units, format);
      var c := cols[|cols| - 1];
      var cells :- ConvertedColumn(c.key, c.value, units, format);
      Ok(Some(AddColumn(front, c.key, cells)))
  }

  /** The table so far, or a new one for the first converted column, with
      `cells` put under `key`. */
  function AddColumn(table: Option<Columns>, key: string, cells: seq<Value>): (r: Columns)
    ensures Keys(r) == (if table.None? then {} else Keys(table.value)) + {key}
  {
    var t := if table.None? then [] else table.value;
    PutKeys(t, key, cells);
    Put(t, key, cells)
  }

  function UnitPrefixes(src: Frame, ps: seq<string>, units: string, format: real -> string): Result<Option<Columns>>
  {
    if ps == [] then Ok(None)
    else
      var front :- UnitPrefixes(src, ps[..|ps| - 1], units, format);
      UnitColumns(front, Matching(src.columns, ps[|ps| - 1]), units, format)
  }

  /** What `convert_dframe_units` returns. */
  function Converted(src: Frame, units: string, format: real -> string, prefix: PrefixArg): (r: Result<Option<Frame>>)
    ensures !(prefix.OnePrefix? || prefix.Prefixes?) ==> r == Err(NotImplementedCase)
    ensures r.Ok? && r.value.Some? ==> r.value.value.index == src.index
  {
    if !(prefix.OnePrefix? || prefix.Prefixes?) then Err(NotImplementedCase)
    else
      var cols :- UnitPrefixes(src, AsList(prefix), units, format);
      if cols.None? then Ok(None) else Ok(Some(Frame(src.index, cols.value)))
  }

  /** `convert_dframe_units`. */
  method ConvertDframeUnits(src: Frame, units: string, format: real -> string, prefix: PrefixArg) returns (r: Result<Option<Frame>>)
    ensures r == Converted(src, units, format, prefix)
  {
    if !(prefix.OnePrefix? || prefix.Prefixes?) {
      return Err(NotImplementedCase);
    }
    var ps := if prefix.OnePrefix? then [prefix.p] else prefix.ps;
    assert ps == AsList(prefix);
    var dst := ConvertPrefixes(src, ps, units, format);
    if dst.Err? {
      return Err(dst.error);
    }
    if dst.value.None? {
      return Ok(None);
    }
    return Ok(Some(Frame(src.index, dst.value.value)));
  }

  /** The loop over the prefixes. */
  method ConvertPrefixes(src: Frame, ps: seq<string>, units: string, format: real -> string) returns (r: Result<Option<Columns>>)
    ensures r == UnitPrefixes(src, ps, units, format)
  {
    var dst: Option<Columns> := None;
    var i := 0;
    while i < |ps|
      invariant 0 <= i <= |ps|
      invariant UnitPrefixes(src, ps[..i], units, format) == Ok(dst)
    {
      UnitPrefixesStep(src, ps, i, dst, units, format);
      var next := ConvertColumns(dst, Matching(src.columns, ps[i]), units, format);
      if next.Err? {
        UnitPrefixesErr(src, ps, i + 1, units, format);
        assert ps[..|ps|] == ps;
        return Err(next.error);
      }
      dst := next.value;
      i := i + 1;
    }
    assert ps[..i] == ps;
    r := Ok(dst);
  }

  /** One more prefix converts its matching columns into the table so far. */
  lemma UnitPrefixesStep(src: Frame, ps: seq<string>, i: nat, dst: Option<Columns>, units: string, format: real -> string)
    requires i < |ps| && UnitPrefixes(src, ps[..i], units, format) == Ok(dst)
    ensures UnitPrefixes(src, ps[..i + 1], units, format) == UnitColumns(dst, Matching(src.columns, ps[i]), units, format)
  {
    assert ps[..i + 1][..i] == ps[..i];
  }

  /** The loop over the columns one prefix selects. */
  method ConvertColumns(dst: Option<Columns>, cols: Columns, units: string, format: real -> string) returns (r: Result<Option<Columns>>)
    ensures r == UnitColumns(dst, cols, units, format)
  {
    var out := dst;
    var j := 0;
    while j < |cols|
      invariant 0 <= j <= |cols|
      invariant UnitColumns(dst, cols[..j], units, format) == Ok(out)
    {
      UnitColumnsStep(dst, cols, j, out, units, format);
      var cells := ConvertedColumn(cols[j].key, cols[j].value, units, format);
      if cells.Err? {
        UnitColumnsErr(dst, cols, j + 1, units, format);
        assert cols[..|cols|] == cols;
        return Err(cells.error);
      }
      out := Some(AddColumn(out, cols[j].key, cells.value));
      j := j + 1;
    }
    assert cols[..j] == cols;
    r := Ok(out);
  }

  /** One more column converts into the table so far, or its refusal is
      the refusal of the columns so far. */
  lemma UnitColumnsStep(dst: Option<Columns>, cols: Columns, j: nat, out: Option<Columns>, units: string, format: real -> string)
    requires j < |cols| && UnitColumns(dst, cols[..j], units, format) == Ok(out)
    ensures var cells := ConvertedColumn(cols[j].key, cols[j].value, units, format);
      UnitColumns(dst, cols[..j + 1], units, format) ==
        if cells.Err? then Err(cells.error) else Ok(Some(AddColumn(out, cols[j].key, cells.value)))
  {
    assert cols[..j + 1][..j] == cols[..j];
  }

  /** A refusal before the last column is the refusal of all. */
  lemma UnitColumnsErrStep(dst: Option<Columns>, cols: Columns, units: string, format: real -> string)
    requires cols != [] && UnitColumns(dst, cols[..|cols| - 1], units, format).Err?
    ensures UnitColumns(dst, cols, units, format) == UnitColumns(dst, cols[..|cols| - 1], units, format)
  {
  }

  lemma {:induction false} UnitColumnsErr(dst: Option<Columns>, cols: Columns, n: nat, units: string, format: real -> string)
    requires n <= |cols| && UnitColumns(dst, cols[..n], units, format).Err?
    ensures UnitColumns(dst, cols, units, format) == UnitColumns(dst, cols[..n], units, format)
    decreases |cols| - n
  {
    if n < |cols| {
      var longer := cols[..n + 1];
      assert longer[..|longer| - 1] == cols[..n];
      UnitColumnsErrStep(dst, longer, units, format);
      UnitColumnsErr(dst, cols, n + 1, units, format);
    } else {
      assert cols[..n] == cols;
    }
  }

  lemma {:induction false} UnitPrefixesErr(src: Frame, ps: seq<string>, n: nat, units: string, format: real -> string)
    requires n <= |ps| && UnitPrefixes(src, ps[..n], units, format).Err?
    ensures UnitPrefixes(src, ps, units, format) == UnitPrefixes(src, ps[..n], units, format)
    decreases |ps| - n
  {
    if n < |ps| {
      assert ps[..n + 1][..n] == ps[..n];
      UnitPrefixesErr(src, ps, n + 1, units, format);
    } else {
      assert ps[..n] == ps;
    }
  }

  /** A prefix of any other type than a string or a list is refused. */
  lemma ConvertedRefusesPrefix(src: Frame, units: string, format: real -> string)
    ensures Converted(src, units, format, NoPrefix) == Err(NotImplementedCase)
    ensures Converted(src, units, format, OtherPrefix) == Err(NotImplementedCase)
  {
  }

  /** Prefixes that select no column give None. */
  lemma {:induction false} ConvertedNothing(src: Frame, ps: seq<string>, units: string, format: real -> string)
    requires forall i :: 0 <= i < |ps| ==> Matching(src.columns, ps[i]) == []
    ensures UnitPrefixes(src, ps, units, format) == Ok(None)
  {
    if ps != [] {
      ConvertedNothing(src, ps[..|ps| - 1], units, format);
    }
  }

  /** A column holding sizes comes out in the target unit: cell k is
      source cell k converted by `convert_human_unit`, a string ending with
      the unit. */
  lemma SizeColumnConverted(name: string, cells: seq<Value>, units: string, format: real -> string)
    requires cells != [] && cells[0].Str? && cells[0].s != [] && !Contains(name, "percent")
    requires IsDigit(cells[0].s[0]) && IsLetter(cells[0].s[|cells[0].s| - 1])
    requires ConvertedColumn(name, cells, units, format).Ok?
    ensures var r := ConvertedColumn(name, cells, units, format).value;
      |r| == |cells| && forall k :: 0 <= k < |r| ==> r[k].Str? && EndsWith(r[k].s, units)
    ensures var r := ConvertedColumn(name, cells, units, format).value;
      forall k :: 0 <= k < |r| ==>
        ConvertHumanUnit(SizeOfCell(cells[k]), units, format, "").Ok? &&
        r[k] == Str(ConvertHumanUnit(SizeOfCell(cells[k]), units, format, "").value)
  {
    var r := ConvertedColumn(name, cells, units, format).value;
    assert r == CellsInUnit(cells, units, format).value;
    forall k | 0 <= k < |r|
      ensures ConvertHumanUnit(SizeOfCell(cells[k]), units, format, "").Ok?
      ensures r[k] == Str(ConvertHumanUnit(SizeOfCell(cells[k]), units, format, "").value)
    {
      CellsInUnitValues(cells, units, format, k);
    }
  }

  /** A percentage stored as a string is refused; a number is copied
      whatever the name; a string that is not a size is copied. */
  lemma ColumnDispatch(name: string, cells: seq<Value>, units: string, format: real -> string)
    requires cells != []
    ensures cells[0].Str? && Contains(name, "percent") ==> ConvertedColumn(name, cells, units, format) == Err(NotImplementedCase)
    ensures cells[0].Number? ==> ConvertedColumn(name, cells, units, format) == Ok(cells)
    ensures cells[0].Str? && cells[0].s != [] && !Contains(name, "percent") && !IsDigit(cells[0].s[0]) ==>
      ConvertedColumn(name, cells, units, format) == Ok(cells)
    ensures cells[0].Str? && cells[0].s != [] && !Contains(name, "percent") && !IsLetter(cells[0].s[|cells[0].s| - 1]) ==>
      ConvertedColumn(name, cells, units, format) == Ok(cells)
    ensures cells[0].Str? && cells[0].s == [] && !Contains(name, "percent") ==>
      ConvertedColumn(name, cells, units, format) == Err(IndexFailure)
  {
  }
}
