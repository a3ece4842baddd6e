/** Finding the processes of one program among the running ones, sorting them
    by virtual memory and keeping the first, the last, all or some of them.
    The running processes are an input: what `psutil` reports for each is a
    `Process` value. */
module ProcessSelection {
  import opened Outcomes
  import opened Text
  import opened Records

  /** A field of `as_dict` for a process: a string, a number, a list (its
      elements already rendered by `str`), a named tuple of numbers, or any
      other Python object. */
  datatype Field = Text(s: string) | Num(x: real) | Items(xs: seq<string>) | Tuple(entries: Dict<real>) | OtherType

  /** What the collector reports for one running process. `fields` is
      `as_dict(attrs=process_attributes)`, `memoryFull` the named tuple of
      `memory_full_info()`, `memoryPercent` the `memory_percent(memtype)` of
      each memory type it knows. */
  datatype Process = Process(
    pid: int,
    name: string,
    cmdline: seq<string>,
    vms: real,
    fields: Dict<Field>,
    memoryFull: Dict<real>,
    memoryPercent: Dict<real>,
    cpuAffinity: seq<string>,
    cpuNum: real)

  // ---------------------------------------------------------------------------
  // filter_process_info

  /** The `process_filter` argument: None, a mode string, a list of indices,
      or an object of any other type. */
  datatype ProcessFilter = NoFilter | Mode(mode: string) | Indices(idx: seq<int>) | OtherFilter

  /** Python's `l[i]` on a list of length `n`: a negative index counts from
      the end; anything outside `-n .. n - 1` is out of range. */
  function PyIndex(n: nat, i: int): (r: Option<nat>)
    ensures r.Some? <==> -(n as int) <= i < n
    ensures r.Some? ==> r.value < n
    ensures r.Some? && i >= 0 ==> r.value == i
    ensures r.Some? && i < 0 ==> r.value == n + i
  {
    if 0 <= i < n then Some(i) else if -(n as int) <= i < 0 then Some(n + i) else None
  }

  predicate InRange(n: nat, idx: seq<int>) {
    forall k :: 0 <= k < |idx| ==> PyIndex(n, idx[k]).Some?
  }

  /** `itemgetter(*idx)(l)`: the elements at the given indices, in the order
      the indices are listed; the first index out of range fails. */
  function Pick<T>(l: seq<T>, idx: seq<int>): Result<seq<T>>
  {
    if idx == [] then Ok([])
    else match PyIndex(|l|, idx[0])
      case None => Err(IndexFailure)
      case Some(i) =>
        var rest :- Pick(l, idx[1..]);
        Ok([l[i]] + rest)
  }

  /** Picking succeeds exactly when every index is in range, and then gives
      one element per index, in the listed order. */
  lemma {:induction false} PickFacts<T>(l: seq<T>, idx: seq<int>)
    ensures Pick(l, idx).Ok? <==> InRange(|l|, idx)
    ensures Pick(l, idx).Err? ==> Pick(l, idx).error == IndexFailure
    ensures Pick(l, idx).Ok? ==>
      |Pick(l, idx).value| == |idx| &&
      forall k :: 0 <= k < |idx| ==> Pick(l, idx).value[k] == l[PyIndex(|l|, idx[k]).value]
  {
    if idx != [] {
      PickFacts(l, idx[1..]);
      assert forall k :: 1 <= k < |idx| ==> idx[k] == idx[1..][k - 1];
      if !InRange(|l|, idx[1..]) {
        var k :| 0 <= k < |idx[1..]| && PyIndex(|l|, idx[1..][k]).None?;
        assert PyIndex(|l|, idx[k + 1]).None?;
      }
    }
  }

  /** The indices `0 .. n - 1`, as `np.arange(0, n)`. */
  function Range(n: nat): (r: seq<int>)
    ensures |r| == n && forall k :: 0 <= k < n ==> r[k] == k
  {
    seq(n, k requires 0 <= k < n => k)
  }

  /** The indices a filter selects from a list of length `n`. */
  function FilterIndices(n: nat, f: ProcessFilter): (r: Result<seq<int>>)
    requires !f.NoFilter?
  {
    match f
    case Mode(m) =>
      if m == "first" then Ok([0])
      else if m == "last" then Ok([-1])
      else if m == "all" then Ok(Range(n))
      else Err(NotImplementedCase)
    case Indices(idx) => Ok(idx)
    case OtherFilter => Err(NotImplementedCase)
  }

  /** `filter_process_info`: a missing list stays missing whatever the
      filter; no filter copies the list; otherwise the selected indices are
      picked, and an empty index list copies the whole list. */
  function FilterProcessInfo<T>(l: Option<seq<T>>, f: ProcessFilter): (r: Result<Option<seq<T>>>)
    ensures l.None? ==> r == Ok(None)
    ensures l.Some? && f.NoFilter? ==> r == Ok(l)
    ensures r.Ok? && l.Some? ==> r.value.Some?
  {
    if l.None? then Ok(None)
    else if f.NoFilter? then Ok(l)
    else
      var idx :- FilterIndices(|l.value|, f);
      if |idx| == 0 then Ok(l)
      else
        var picked :- Pick(l.value, idx);
        Ok(Some(picked))
  }

  /** 'first' keeps the first element; an empty list has none. */
  lemma FilterFirst<T>(l: seq<T>)
    ensures l != [] ==> FilterProcessInfo(Some(l), Mode("first")) == Ok(Some([l[0]]))
    ensures l == [] ==> FilterProcessInfo(Some(l), Mode("first")) == Err(IndexFailure)
  {
    PickFacts(l, [0]);
    if l != [] {
      assert Pick(l, [0]).value == [l[0]];
    }
  }

  /** 'last' keeps the last element; an empty list has none. */
  lemma FilterLast<T>(l: seq<T>)
    ensures l != [] ==> FilterProcessInfo(Some(l), Mode("last")) == Ok(Some([l[|l| - 1]]))
    ensures l == [] ==> FilterProcessInfo(Some(l), Mode("last")) == Err(IndexFailure)
  {
    PickFacts(l, [-1]);
    if l != [] {
      assert Pick(l, [-1]).value == [l[|l| - 1]];
    }
  }

  /** 'all' keeps the whole list, in its order. */
  lemma FilterAll<T>(l: seq<T>)
    ensures FilterProcessInfo(Some(l), Mode("all")) == Ok(Some(l))
  {
    if l != [] {
      PickFacts(l, Range(|l|));
      var picked := Pick(l, Range(|l|)).value;
      assert picked == l;
    }
  }

  /** An index list keeps the elements at those indices in the listed order,
      fails on an index out of range, and copies the list when it is empty. */
  lemma FilterExplicit<T>(l: seq<T>, idx: seq<int>)
    ensures idx == [] ==> FilterProcessInfo(Some(l), Indices(idx)) == Ok(Some(l))
    ensures idx != [] && !InRange(|l|, idx) ==> FilterProcessInfo(Some(l), Indices(idx)) == Err(IndexFailure)
    ensures idx != [] && InRange(|l|, idx) ==>
      var r := FilterProcessInfo(Some(l), Indices(idx));
      r.Ok? && |r.value.value| == |idx| &&
      forall k :: 0 <= k < |idx| ==> r.value.value[k] == l[PyIndex(|l|, idx[k]).value]
  {
    PickFacts(l, idx);
  }

  /** A mode other than 'first', 'last' and 'all', or a filter of another
      type, is refused. */
  lemma FilterUnknown<T>(l: seq<T>, f: ProcessFilter)
    requires f.OtherFilter? || (f.Mode? && f.mode != "first" && f.mode != "last" && f.mode != "all")
    ensures FilterProcessInfo(Some(l), f) == Err(NotImplementedCase)
  {
  }

  // ---------------------------------------------------------------------------
  // sort_process_info

  /** `idx` lists each of `0 .. n - 1` exactly once. */
  predicate IsPermutation(idx: seq<nat>, n: nat) {
    |idx| == n && (forall k :: 0 <= k < n ==> idx[k] < n) &&
    (forall i, j :: 0 <= i < j < n ==> idx[i] != idx[j])
  }

  /** The elements of `s` at the positions `idx`, as `[s[i] for i in idx]`. */
  function Gather<T>(s: seq<T>, idx: seq<nat>): (r: seq<T>)
    requires forall k :: 0 <= k < |idx| ==> idx[k] < |s|
    ensures |r| == |idx| && forall k :: 0 <= k < |idx| ==> r[k] == s[idx[k]]
  {
    seq(|idx|, k requires 0 <= k < |idx| => s[idx[k]])
  }

  predicate Ascending(v: seq<real>) {
    forall i, j :: 0 <= i < j < |v| ==> v[i] <= v[j]
  }

  predicate Descending(v: seq<real>) {
    forall i, j :: 0 <= i < j < |v| ==> v[i] >= v[j]
  }

  /** `np.argsort(v)`: the positions of `v` ordered by value, by insertion.
      Equal values keep their order, which is one of the orders numpy's
      unstable sort may give. */
  method Argsort(v: seq<real>) returns (idx: seq<nat>)
    ensures IsPermutation(idx, |v|)
    ensures Ascending(Gather(v, idx))
  {
    idx := [];
    var n := 0;
    while n < |v|
      invariant 0 <= n <= |v|
      invariant IsPermutation(idx, n)
      invariant forall i, j :: 0 <= i < j < n ==> v[idx[i]] <= v[idx[j]]
    {
      var pos := 0;
      while pos < n && v[idx[pos]] <= v[n]
        invariant 0 <= pos <= n
        invariant forall k :: 0 <= k < pos ==> v[idx[k]] <= v[n]
      {
        pos := pos + 1;
      }
      InsertSorted(v, idx, n, pos);
      idx := idx[..pos] + [n] + idx[pos..];
      n := n + 1;
    }
  }

  /** Inserting position `n` where the scan stopped keeps the positions a
      sorted permutation. */
  lemma InsertSorted(v: seq<real>, idx: seq<nat>, n: nat, pos: nat)
    requires n < |v| && pos <= n
    requires IsPermutation(idx, n)
    requires forall i, j :: 0 <= i < j < n ==> v[idx[i]] <= v[idx[j]]
    requires forall k :: 0 <= k < pos ==> v[idx[k]] <= v[n]
    requires pos < n ==> v[idx[pos]] > v[n]
    ensures IsPermutation(idx[..pos] + [n] + idx[pos..], n + 1)
    ensures var r := idx[..pos] + [n] + idx[pos..];
      forall i, j :: 0 <= i < j < n + 1 ==> v[r[i]] <= v[r[j]]
  {
    InsertPermutation(idx, n, pos);
    InsertOrdered(v, idx, n, pos);
  }

  /** Inserting the new position `n` anywhere keeps the positions a
      permutation. */
  lemma InsertPermutation(idx: seq<nat>, n: nat, pos: nat)
    requires pos <= n && IsPermutation(idx, n)
    ensures IsPermutation(idx[..pos] + [n] + idx[pos..], n + 1)
  {
    var r := idx[..pos] + [n] + idx[pos..];
    assert forall k :: 0 <= k < pos ==> r[k] == idx[k];
    assert forall k :: pos < k <= n ==> r[k] == idx[k - 1];
  }

  /** Inserting position `n` where the scan stopped keeps the positions in
      order of their values. */
  lemma InsertOrdered(v: seq<real>, idx: seq<nat>, n: nat, pos: nat)
    requires n < |v| && pos <= n && IsPermutation(idx, n)
    requires forall i, j :: 0 <= i < j < n ==> v[idx[i]] <= v[idx[j]]
    requires forall k :: 0 <= k < pos ==> v[idx[k]] <= v[n]
    requires pos < n ==> v[idx[pos]] > v[n]
    ensures var r := idx[..pos] + [n] + idx[pos..];
      forall i, j :: 0 <= i < j < n + 1 ==> v[r[i]] <= v[r[j]]
  {
    var r := idx[..pos] + [n] + idx[pos..];
    assert forall k :: 0 <= k < pos ==> r[k] == idx[k];
    assert r[pos] == n;
    assert forall k :: pos < k <= n ==> r[k] == idx[k - 1];
    forall i, j | 0 <= i < j < n + 1 ensures v[r[i]] <= v[r[j]] {
      if j == pos {
      } else if i == pos {
        assert v[idx[pos]] <= v[idx[j - 1]] || j - 1 == pos;
      }
    }
  }

  /** The reversed sequence, as `[::-1]`. */
  function Reverse<T>(s: seq<T>): (r: seq<T>)
    ensures |r| == |s| && forall k :: 0 <= k < |s| ==> r[k] == s[|s| - 1 - k]
  {
    seq(|s|, k requires 0 <= k < |s| => s[|s| - 1 - k])
  }

  lemma ReversePermutation(v: seq<real>, idx: seq<nat>)
    requires IsPermutation(idx, |v|) && Ascending(Gather(v, idx))
    ensures IsPermutation(Reverse(idx), |v|)
    ensures Descending(Gather(v, Reverse(idx)))
  {
    var r := Reverse(idx);
    var n := |v|;
    forall i, j | 0 <= i < j < n ensures r[i] != r[j] {
      assert r[i] == idx[n - 1 - i] && r[j] == idx[n - 1 - j];
    }
    var g, h := Gather(v, idx), Gather(v, r);
    forall i, j | 0 <= i < j < n ensures h[i] >= h[j] {
      assert h[i] == g[n - 1 - i] && h[j] == g[n - 1 - j];
    }
  }

  /** `a[:] = [a[i] for i in idx]`. */
  method Rearrange<T>(a: array<T>, idx: seq<nat>)
    requires IsPermutation(idx, a.Length)
    modifies a
    ensures a[..] == Gather(old(a[..]), idx)
  {
    var src := a[..];
    var k := 0;
    while k < a.Length
      invariant 0 <= k <= a.Length
      invariant forall m :: 0 <= m < k ==> a[m] == src[idx[m]]
      invariant forall m :: k <= m < a.Length ==> a[m] == src[m]
    {
      a[k] := src[idx[k]];
      k := k + 1;
    }
  }

  /** `sort_process_info`: no order leaves both lists as they are; an
      ascending or a descending order applies one and the same permutation to
      the processes and to their values, in place; any other order fails
      before anything is changed. */
  method SortProcessInfo(procs: array<Process>, values: array<real>, order: Option<string>) returns (r: Outcome)
    requires procs.Length == values.Length
    modifies procs, values
    ensures order.None? ==> r == Pass && procs[..] == old(procs[..]) && values[..] == old(values[..])
    ensures order.Some? && order.value != "ascending" && order.value != "descending" ==>
      r == Fail(NotImplementedCase) && procs[..] == old(procs[..]) && values[..] == old(values[..])
    ensures order == Some("ascending") ==> r == Pass && Ascending(values[..])
    ensures order == Some("descending") ==> r == Pass && Descending(values[..])
    ensures r == Pass ==>
      exists idx :: IsPermutation(idx, values.Length) && values[..] == Gather(old(values[..]), idx) && procs[..] == Gather(old(procs[..]), idx)
  {
    if order.None? {
      assert IsPermutation(Range(values.Length), values.Length);
      assert values[..] == Gather(values[..], Range(values.Length));
      assert procs[..] == Gather(procs[..], Range(values.Length));
      return Pass;
    }
    var idx := Argsort(values[..]);
    if order.value == "descending" {
      ReversePermutation(values[..], idx);
      idx := Reverse(idx);
    } else if order.value != "ascending" {
      return Fail(NotImplementedCase);
    }
    ghost var oldValues, oldProcs := values[..], procs[..];
    Rearrange(values, idx);
    Rearrange(procs, idx);
    assert values[..] == Gather(oldValues, idx) && procs[..] == Gather(oldProcs, idx);
    r := Pass;
  }

  // ---------------------------------------------------------------------------
  // get_process_info

  /** A process belongs to the program when its name is the program's name,
      or the program's name occurs in its space-joined command line. */
  predicate Matches(target: string, p: Process) {
    p.name == target || Contains(Join(" ", p.cmdline), target)
  }

  /** The matching processes, in the order they are listed. */
  function Selected(target: string, running: seq<Process>): (r: seq<Process>)
    ensures forall p :: p in r ==> Matches(target, p) && p in running
  {
    if running == [] then []
    else
      var front := Selected(target, running[..|running| - 1]);
      if Matches(target, running[|running| - 1]) then front + [running[|running| - 1]] else front
  }

  /** Every matching process is selected as often as it is listed, and no
      other process is. */
  lemma {:induction false} SelectedCounts(target: string, running: seq<Process>, p: Process)
    ensures multiset(Selected(target, running))[p] == if Matches(target, p) then multiset(running)[p] else 0
  {
    if running != [] {
      var front, last := running[..|running| - 1], running[|running| - 1];
      SelectedCounts(target, front, p);
      assert running == front + [last];
    }
  }

  /** The virtual memory size of a process in MiB: `vms / (1024 * 1024)`. */
  function VmsMiB(p: Process): real {
    p.vms / 1048576.0
  }

  function VmsList(ps: seq<Process>): (r: seq<real>)
    ensures |r| == |ps| && forall k :: 0 <= k < |ps| ==> r[k] == VmsMiB(ps[k])
  {
    seq(|ps|, k requires 0 <= k < |ps| => VmsMiB(ps[k]))
  }

  /** A list that the source leaves as None until its first append. */
  function NoneIfEmpty<T>(s: seq<T>): (r: Option<seq<T>>)
    ensures r.None? <==> s == []
    ensures r.Some? ==> r.value == s
  {
    if s == [] then None else Some(s)
  }

  /** `get_process_info`: collects the matching processes with their sizes,
      sorts both lists, then filters the processes. Nothing matching gives
      None whatever the order and the filter. */
  method GetProcessInfo(target: string, running: seq<Process>, order: Option<string>, filter: ProcessFilter)
    returns (r: Result<Option<seq<Process>>>)
    ensures Selected(target, running) == [] ==> r == Ok(None)
    ensures order.None? ==> r == FilterProcessInfo(NoneIfEmpty(Selected(target, running)), filter)
    ensures Selected(target, running) != [] && order.Some? && order.value != "ascending" && order.value != "descending" ==>
      r == Err(NotImplementedCase)
    ensures r.Ok? && r.value.Some? && filter.NoFilter? ==>
      exists idx :: IsPermutation(idx, |Selected(target, running)|) && r.value.value == Gather(Selected(target, running), idx)
    ensures r.Ok? && r.value.Some? && filter.NoFilter? && order == Some("ascending") ==> Ascending(VmsList(r.value.value))
    ensures r.Ok? && r.value.Some? && filter.NoFilter? && order == Some("descending") ==> Descending(VmsList(r.value.value))
    ensures Selected(target, running) != [] && order in {Some("ascending"), Some("descending")} ==>
      exists idx :: IsPermutation(idx, |Selected(target, running)|) &&
        (order == Some("ascending") ==> Ascending(VmsList(Gather(Selected(target, running), idx)))) &&
        (order == Some("descending") ==> Descending(VmsList(Gather(Selected(target, running), idx)))) &&
        r == FilterProcessInfo(Some(Gather(Selected(target, running), idx)), filter)
  {
    var procs: seq<Process> := [];
    var vms: seq<real> := [];
    var i := 0;
    while i < |running|
      invariant 0 <= i <= |running|
      invariant procs == Selected(target, running[..i])
      invariant vms == VmsList(procs)
    {
      assert running[..i + 1][..i] == running[..i];
      var p := running[i];
      if p.name == target || Contains(Join(" ", p.cmdline), target) {
        procs := procs + [p];
        vms := vms + [VmsMiB(p)];
      }
      i := i + 1;
    }
    assert running[..i] == running;
    if procs == [] {
      return Ok(None);
    }
    var procArray := new Process[|procs|](k requires 0 <= k < |procs| => procs[k]);
    var vmsArray := new real[|vms|](k requires 0 <= k < |vms| => vms[k]);
    assert procArray[..] == procs && vmsArray[..] == vms;
    var sorted := SortProcessInfo(procArray, vmsArray, order);
    if sorted.Fail? {
      return Err(sorted.error);
    }
    ghost var idx :| IsPermutation(idx, |procs|) &&
      vmsArray[..] == Gather(vms, idx) && procArray[..] == Gather(procs, idx);
    assert vmsArray[..] == VmsList(procArray[..]);
    r := FilterProcessInfo(Some(procArray[..]), filter);
  }

  /** The tag the source logs for a selected process, as written: the first
      command-line part holding the program's name, else the second, else
      the process name. Both parts are read whether or not they exist. */
  function ProcessTagAsWritten(target: string, p: Process): (r: Result<string>)
  {
    if |p.cmdline| == 0 then Err(IndexFailure)
    else if Contains(p.cmdline[0], target) then Ok(p.cmdline[0])
    else if |p.cmdline| == 1 then Err(IndexFailure)
    else if Contains(p.cmdline[1], target) then Ok(p.cmdline[1])
    else Ok(p.name)
  }

  /** A process selected by its name whose command line is empty, as psutil
      reports for kernel threads and zombies, makes the tag lookup fail. */
  lemma TagOfEmptyCommandLine(target: string, p: Process)
    requires p.name == target && p.cmdline == []
    ensures Matches(target, p)
    ensures ProcessTagAsWritten(target, p) == Err(IndexFailure)
  {
  }

  /** The tag as intended: a command-line part holding the program's name
      when there is one among the first two, else the process name. */
  function ProcessTag(target: string, p: Process): (r: string)
    ensures (|p.cmdline| > 0 && r == p.cmdline[0]) || (|p.cmdline| > 1 && r == p.cmdline[1]) || r == p.name
    ensures ProcessTagAsWritten(target, p).Ok? ==> r == ProcessTagAsWritten(target, p).value
  {
    if |p.cmdline| > 0 && Contains(p.cmdline[0], target) then p.cmdline[0]
    else if |p.cmdline| > 1 && Contains(p.cmdline[1], target) then p.cmdline[1]
    else p.name
  }
}
