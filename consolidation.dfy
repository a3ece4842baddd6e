/** The offline consolidation script: it finds the chunk files of a report,
    drops the columns that hold CPU affinities, concatenates the chunks in
    the order of their file names, sorts the rows by time, and writes the
    result to the destination unless a destination already exists. The file
    store is a map from file name to rows; the names the file search finds
    are an input, in whatever order the system lists them. */
module Consolidation {
  import opened Outcomes
  import opened Text
  import opened Records
  import opened Driver

  // ---------------------------------------------------------------------------
  // Ordering file names

  /** Python's `a <= b` on strings: character codes compared from the
      left, a prefix first. */
  predicate Below(a: string, b: string)
    decreases |a|
  {
    a == [] || (b != [] && (a[0] < b[0] || (a[0] == b[0] && Below(a[1..], b[1..]))))
  }

  lemma {:induction false} BelowTotal(a: string, b: string)
    ensures Below(a, b) || Below(b, a)
    decreases |a|
  {
    if a != [] && b != [] && a[0] == b[0] {
      BelowTotal(a[1..], b[1..]);
    }
  }

  predicate NamesAscending(s: seq<string>)
  {
    forall i :: 0 < i < |s| ==> Below(s[i - 1], s[i])
  }

  /** `x` put into an ascending list after every name not above it. */
  function InsertName(x: string, s: seq<string>): (r: seq<string>)
    ensures |r| == |s| + 1
    ensures r[0] == x || (s != [] && r[0] == s[0])
    ensures multiset(r) == multiset(s) + multiset{x}
  {
    if s == [] then [x]
    else if !Below(s[0], x) then [x] + s
    else
      assert s == [s[0]] + s[1..];
      [s[0]] + InsertName(x, s[1..])
  }

  lemma {:induction false} InsertNameAscending(x: string, s: seq<string>)
    requires NamesAscending(s)
    ensures NamesAscending(InsertName(x, s))
  {
    if s != [] && Below(s[0], x) {
      var rest := InsertName(x, s[1..]);
      InsertNameAscending(x, s[1..]);
      assert NamesAscending(s[1..]) by {
        forall i | 0 < i < |s[1..]| ensures Below(s[1..][i - 1], s[1..][i]) {
          assert s[1..][i - 1] == s[i] && s[1..][i] == s[i + 1];
        }
      }
      var r := [s[0]] + rest;
      forall i | 0 < i < |r| ensures Below(r[i - 1], r[i]) {
        if i == 1 {
          assert r[1] == rest[0];
        } else {
          assert r[i - 1] == rest[i - 2] && r[i] == rest[i - 1];
        }
      }
    } else if s != [] {
      BelowTotal(s[0], x);
      var r := [x] + s;
      forall i | 0 < i < |r| ensures Below(r[i - 1], r[i]) {
        if i > 1 {
          assert r[i - 1] == s[i - 2] && r[i] == s[i - 1];
        }
      }
    }
  }

  /** `sorted(names)`. */
  function SortNames(names: seq<string>): (r: seq<string>)
    ensures multiset(r) == multiset(names)
  {
    if names == [] then []
    else
      assert names == names[..|names| - 1] + [names[|names| - 1]];
      InsertName(names[|names| - 1], SortNames(names[..|names| - 1]))
  }

  /** `search_file_name`: the names found, sorted when asked, which is the
      default. */
  function SearchFileName(found: seq<string>, sorted: bool): seq<string>
  {
    if sorted then SortNames(found) else found
  }

  /** Sorted search results are ascending and are the names found, each as
      often as found. */
  lemma {:induction false} SearchSorted(found: seq<string>)
    ensures NamesAscending(SearchFileName(found, true))
    ensures multiset(SearchFileName(found, true)) == multiset(found)
    decreases |found|
  {
    if found != [] {
      var front := found[..|found| - 1];
      SearchSorted(front);
      InsertNameAscending(found[|found| - 1], SortNames(front));
    }
  }

  // ---------------------------------------------------------------------------
  // Dropping columns

  const AffinityTag := "cpu_affinity"

  /** A row without the entries whose name contains "cpu_affinity". */
  function WithoutAffinity(d: Dict<Value>): (r: Dict<Value>)
  {
    if d == [] then []
    else (if Contains(d[0].key, AffinityTag) then [] else [d[0]]) + WithoutAffinity(d[1..])
  }

  /** An entry is kept exactly when its name does not contain
      "cpu_affinity"; kept entries keep their values. */
  lemma {:induction false} WithoutAffinityEntries(d: Dict<Value>, e: Entry<Value>)
    ensures e in WithoutAffinity(d) <==> e in d && !Contains(e.key, AffinityTag)
  {
    if d != [] {
      WithoutAffinityEntries(d[1..], e);
      assert d == [d[0]] + d[1..];
    }
  }

  function DropAffinity(rows: Chunk): (r: Chunk)
    ensures |r| == |rows|
    ensures forall j :: 0 <= j < |rows| ==> r[j] == Row(rows[j].time, WithoutAffinity(rows[j].sample))
  {
    if rows == [] then []
    else [Row(rows[0].time, WithoutAffinity(rows[0].sample))] + DropAffinity(rows[1..])
  }

  // ---------------------------------------------------------------------------
  // Sorting rows by time

  predicate TimesAscending(rows: Chunk)
  {
    forall i :: 0 < i < |rows| ==> rows[i - 1].time <= rows[i].time
  }

  function InsertRow(x: Row, rows: Chunk): (r: Chunk)
    ensures |r| == |rows| + 1
    ensures r[0] == x || (rows != [] && r[0] == rows[0])
    ensures multiset(r) == multiset(rows) + multiset{x}
  {
    if rows == [] then [x]
    else if x.time < rows[0].time then [x] + rows
    else
      assert rows == [rows[0]] + rows[1..];
      [rows[0]] + InsertRow(x, rows[1..])
  }

  lemma {:induction false} InsertRowAscending(x: Row, rows: Chunk)
    requires TimesAscending(rows)
    ensures TimesAscending(InsertRow(x, rows))
  {
    if rows != [] && x.time >= rows[0].time {
      var rest := InsertRow(x, rows[1..]);
      assert TimesAscending(rows[1..]) by {
        forall i | 0 < i < |rows[1..]| ensures rows[1..][i - 1].time <= rows[1..][i].time {
          assert rows[1..][i - 1] == rows[i] && rows[1..][i] == rows[i + 1];
        }
      }
      InsertRowAscending(x, rows[1..]);
      var r := [rows[0]] + rest;
      forall i | 0 < i < |r| ensures r[i - 1].time <= r[i].time {
        if i == 1 {
          assert r[1] == rest[0];
        } else {
          assert r[i - 1] == rest[i - 2] && r[i] == rest[i - 1];
        }
      }
    }
  }

  /** `sort_index(ascending=True)` on the time index. */
  function SortRows(rows: Chunk): (r: Chunk)
    ensures multiset(r) == multiset(rows)
  {
    if rows == [] then []
    else
      assert rows == rows[..|rows| - 1] + [rows[|rows| - 1]];
      InsertRow(rows[|rows| - 1], SortRows(rows[..|rows| - 1]))
  }

  lemma {:induction false} SortRowsAscending(rows: Chunk)
    ensures TimesAscending(SortRows(rows))
    decreases |rows|
  {
    if rows != [] {
      SortRowsAscending(rows[..|rows| - 1]);
      InsertRowAscending(rows[|rows| - 1], SortRows(rows[..|rows| - 1]));
    }
  }

  // ---------------------------------------------------------------------------
  // Consolidating

  /** The chunks of the names that are present, without their affinity
      columns, concatenated in the order of the names; none when no name is
      present. */
  function Gathered(files: map<string, Chunk>, names: seq<string>): (r: Option<Chunk>)
    ensures r.None? <==> forall j :: 0 <= j < |names| ==> names[j] !in files
  {
    if names == [] then None
    else
      var front := Gathered(files, names[..|names| - 1]);
      assert forall j :: 0 <= j < |names| - 1 ==> names[..|names| - 1][j] == names[j];
      var name := names[|names| - 1];
      if name !in files then front
      else Some((if front.None? then [] else front.value) + DropAffinity(files[name]))
  }

  /** The destination afterwards. A destination cleaned first is gone;
      with no chunk names, or with a destination already there, nothing is
      merged and nothing is written; otherwise the gathered rows, sorted by
      time, are written. Names that were all missing leave nothing to sort. */
  function Consolidated(files: map<string, Chunk>, names: seq<string>, destination: Option<Chunk>, clean: bool): (r: Result<Option<Chunk>>)
    ensures !clean && destination.Some? ==> r == Ok(destination)
    ensures names != [] && (clean || destination.None?) ==> (r.Err? <==> forall j :: 0 <= j < |names| ==> names[j] !in files)
    ensures names != [] && (clean || destination.None?) && r.Ok? ==> r.value.Some? && TimesAscending(r.value.value)
  {
    var dst := if clean then None else destination;
    if names == [] || dst.Some? then Ok(dst)
    else
      match Gathered(files, names)
      case None => Err(AttributeFailure)
      case Some(rows) => SortRowsAscending(rows); Ok(Some(SortRows(rows)))
  }

  /** The script's `main`, from the names its search found. */
  method Consolidate(files: map<string, Chunk>, found: seq<string>, destination: Option<Chunk>, clean: bool)
    returns (r: Result<Option<Chunk>>)
    ensures r == Consolidated(files, SearchFileName(found, true), destination, clean)
  {
    var dst := destination;
    if clean {
      dst := None;
    }
    var names := SearchFileName(found, true);
    if names == [] || dst.Some? {
      return Ok(dst);
    }
    var collections := GatherChunks(files, names);
    if collections.None? {
      return Err(AttributeFailure);
    }
    return Ok(Some(SortRows(collections.value)));
  }

  /** The loop over the chunk files. */
  method GatherChunks(files: map<string, Chunk>, names: seq<string>) returns (collections: Option<Chunk>)
    ensures collections == Gathered(files, names)
  {
    collections := None;
    var i := 0;
    while i < |names|
      invariant 0 <= i <= |names|
      invariant collections == Gathered(files, names[..i])
    {
      assert names[..i + 1][..i] == names[..i] && names[..i + 1][i] == names[i];
      if names[i] in files {
        var step := DropAffinity(files[names[i]]);
        if collections.None? {
          assert [] + step == step;
          collections := Some(step);
        } else {
          collections := Some(collections.value + step);
        }
      }
      i := i + 1;
    }
    assert names[..i] == names;
  }

  /** A destination that is there and not cleaned is kept: nothing is
      merged and nothing written. */
  lemma ExistingDestinationKept(files: map<string, Chunk>, names: seq<string>, rows: Chunk)
    ensures Consolidated(files, names, Some(rows), false) == Ok(Some(rows))
  {
  }

  /** With no chunk files nothing is written. */
  lemma NoSourcesNothingWritten(files: map<string, Chunk>, destination: Option<Chunk>, clean: bool)
    ensures Consolidated(files, [], destination, clean) == Ok(if clean then None else destination)
  {
  }

  /** A row of the gathered table is a row of one of the present chunks,
      with its affinity entries dropped, and every such row is there. */
  lemma {:induction false} GatheredRows(files: map<string, Chunk>, names: seq<string>, x: Row)
    ensures Gathered(files, names).None? <==> forall j :: 0 <= j < |names| ==> names[j] !in files
    ensures Gathered(files, names).Some? ==>
      (x in Gathered(files, names).value <==>
         exists j :: 0 <= j < |names| && names[j] in files && x in DropAffinity(files[names[j]]))
  {
    if names != [] {
      var front := names[..|names| - 1];
      GatheredRows(files, front, x);
      assert forall j :: 0 <= j < |front| ==> front[j] == names[j];
    }
  }

  /** What is written is sorted by time and holds the gathered rows, each
      as often as gathered; no entry in it names a CPU affinity. */
  lemma WrittenRows(files: map<string, Chunk>, names: seq<string>)
    requires names != [] && Gathered(files, names).Some?
    ensures var w := Consolidated(files, names, None, false);
      w.Ok? && w.value.Some? &&
      TimesAscending(w.value.value) &&
      multiset(w.value.value) == multiset(Gathered(files, names).value)
  {
    SortRowsAscending(Gathered(files, names).value);
  }

  /** Every entry of a row written keeps a name without "cpu_affinity". */
  lemma {:induction false} WrittenWithoutAffinity(files: map<string, Chunk>, names: seq<string>, x: Row, e: Entry<Value>)
    requires Gathered(files, names).Some? && x in Gathered(files, names).value && e in x.sample
    ensures !Contains(e.key, AffinityTag)
  {
    GatheredRows(files, names, x);
    var j :| 0 <= j < |names| && names[j] in files && x in DropAffinity(files[names[j]]);
    var rows := files[names[j]];
    var k :| 0 <= k < |rows| && DropAffinity(rows)[k] == x;
    WithoutAffinityEntries(rows[k].sample, e);
  }
}
