/** The machine-wide records of a sample: virtual and swap memory, disk usage
    and system load. Each is a dictionary whose keys are renamed to
    `prefix + separator + field` before it joins the sample. What `psutil`
    reports (the memory and disk named tuples, the load averages) is an
    input; `humanize` stands for psutil's `bytes2human`. */
module SystemRecords {
  import opened Outcomes
  import opened Records
  import opened SizeUnits

  /** `separator.join([prefix, key])` for every key of `d`, put in order
      into `acc`. */
  method PrefixInto<V>(acc: Dict<V>, d: Dict<V>, prefix: string, separator: string) returns (r: Dict<V>)
    ensures r == PutAll(acc, PrefixKeys(d, prefix + separator))
  {
    r := acc;
    var i := 0;
    while i < |d|
      invariant 0 <= i <= |d|
      invariant r == PutAll(acc, PrefixKeys(d[..i], prefix + separator))
    {
      var e := PrefixKeys(d[..i + 1], prefix + separator);
      assert e[..i] == PrefixKeys(d[..i], prefix + separator);
      assert e[i] == Entry(prefix + separator + d[i].key, d[i].value);
      r := Put(r, prefix + separator + d[i].key, d[i].value);
      i := i + 1;
    }
    assert d[..i] == d;
  }

  /** After renaming into `acc`, a renamed key finds the original value, and
      a key the renaming does not produce keeps what `acc` had. */
  lemma GetPrefixed<V>(acc: Dict<V>, d: Dict<V>, p: string, k: string)
    requires UniqueKeys(d)
    ensures Get(PutAll(acc, PrefixKeys(d, p)), p + k) == if k in Keys(d) then Get(d, k) else Get(acc, p + k)
  {
    var e := PrefixKeys(d, p);
    PrefixKeysLookup(d, p, k);
    GetPutAll(acc, e, p + k);
  }

  /** Renaming into an empty dictionary gives the renamed dictionary itself. */
  lemma PrefixIntoEmpty<V>(d: Dict<V>, p: string)
    requires UniqueKeys(d)
    ensures PutAll([], PrefixKeys(d, p)) == PrefixKeys(d, p)
  {
    PrefixKeysLookup(d, p, "");
    PutAllIntoEmpty(PrefixKeys(d, p));
  }

  /** `x if x is not None else default`, as the defaults of the key parts. */
  function OrDefault(x: Option<string>, default: string): (r: string)
    ensures x.Some? ==> r == x.value
    ensures x.None? ==> r == default
  {
    if x.Some? then x.value else default
  }

  // ---------------------------------------------------------------------------
  // organize_memory_info

  /** A memory record as handed over: a dictionary, or any other object. */
  datatype MemoryObj = MemoryDict(d: Dict<Value>) | NotDict

  /** One side of the memory record: None adds nothing, a dictionary adds
      its renamed keys, anything else is refused. */
  function MemorySide(acc: Dict<Value>, side: Option<MemoryObj>, prefix: string, separator: string): (r: Result<Dict<Value>>)
    ensures side.Some? && side.value.NotDict? <==> r == Err(RuntimeFailure)
    ensures r.Err? ==> r == Err(RuntimeFailure)
  {
    match side
    case None => Ok(acc)
    case Some(NotDict) => Err(RuntimeFailure)
    case Some(MemoryDict(d)) => Ok(PutAll(acc, PrefixKeys(d, prefix + separator)))
  }

  /** The dictionary `organize_memory_info` builds: the virtual memory keys
      under their prefix, then the swap memory keys under theirs. */
  function MemoryRecord(virtual: Option<MemoryObj>, swap: Option<MemoryObj>,
                        prefixVirtual: Option<string>, prefixSwap: Option<string>, separator: Option<string>): (r: Result<Dict<Value>>)
    ensures virtual.None? && swap.None? ==> r == Ok([])
    ensures r.Err? <==> (virtual.Some? && virtual.value.NotDict?) || (swap.Some? && swap.value.NotDict?)
  {
    var sep := OrDefault(separator, "_");
    var a :- MemorySide([], virtual, OrDefault(prefixVirtual, "virtual_memory"), sep);
    MemorySide(a, swap, OrDefault(prefixSwap, "swap_memory"), sep)
  }

  /** `organize_memory_info`. */
  method OrganizeMemoryInfo(virtual: Option<MemoryObj>, swap: Option<MemoryObj>,
                            prefixVirtual: Option<string>, prefixSwap: Option<string>, separator: Option<string>)
    returns (r: Result<Dict<Value>>)
    ensures r == MemoryRecord(virtual, swap, prefixVirtual, prefixSwap, separator)
  {
    var pv := if prefixVirtual.None? then "virtual_memory" else prefixVirtual.value;
    var ps := if prefixSwap.None? then "swap_memory" else prefixSwap.value;
    var sep := if separator.None? then "_" else separator.value;
    var acc: Dict<Value> := [];
    if virtual.Some? {
      if virtual.value.MemoryDict? {
        acc := PrefixInto(acc, virtual.value.d, pv, sep);
      } else {
        return Err(RuntimeFailure);
      }
    }
    if swap.Some? {
      if swap.value.MemoryDict? {
        acc := PrefixInto(acc, swap.value.d, ps, sep);
      } else {
        return Err(RuntimeFailure);
      }
    }
    return Ok(acc);
  }

  /** Every virtual memory field `k` is found as `prefixVirtual + separator +
      k` and every swap field as `prefixSwap + separator + k`, with its value
      unchanged; prefixes that start differently, as the defaults
      'virtual_memory' and 'swap_memory' do, never collide. */
  lemma MemoryRecordKeys(virtual: Dict<Value>, swap: Dict<Value>, pv: string, ps: string, sep: string, k: string)
    requires UniqueKeys(virtual) && UniqueKeys(swap)
    requires pv != [] && ps != [] && pv[0] != ps[0]
    ensures MemoryRecord(Some(MemoryDict(virtual)), Some(MemoryDict(swap)), Some(pv), Some(ps), Some(sep)).Ok?
    ensures var r := MemoryRecord(Some(MemoryDict(virtual)), Some(MemoryDict(swap)), Some(pv), Some(ps), Some(sep)).value;
      Get(r, pv + sep + k) == Get(virtual, k) && Get(r, ps + sep + k) == Get(swap, k)
  {
    var a := PutAll([], PrefixKeys(virtual, pv + sep));
    MemoryRecordBoth(virtual, swap, pv, ps, sep);
    GetPrefixed(a, swap, ps + sep, k);
    GetPrefixed([], virtual, pv + sep, k);
    NoCollision(swap, pv, ps, sep, k);
    PrefixKeysLookup(swap, ps + sep, k);
    GetPutAll(a, PrefixKeys(swap, ps + sep), pv + sep + k);
    PrefixKeysLookup(virtual, pv + sep, k);
    NoCollision(virtual, ps, pv, sep, k);
    GetPutAll([], PrefixKeys(virtual, pv + sep), ps + sep + k);
  }

  lemma MemoryRecordBoth(virtual: Dict<Value>, swap: Dict<Value>, pv: string, ps: string, sep: string)
    ensures MemoryRecord(Some(MemoryDict(virtual)), Some(MemoryDict(swap)), Some(pv), Some(ps), Some(sep)) ==
      Ok(PutAll(PutAll([], PrefixKeys(virtual, pv + sep)), PrefixKeys(swap, ps + sep)))
  {
  }

  /** A key under one prefix is never a key under a prefix that starts
      differently. */
  lemma NoCollision(swap: Dict<Value>, pv: string, ps: string, sep: string, k: string)
    requires pv != [] && ps != [] && pv[0] != ps[0]
    ensures pv + sep + k !in Keys(PrefixKeys(swap, ps + sep))
  {
    var e := PrefixKeys(swap, ps + sep);
    forall key | key in Keys(e) ensures |key| > 0 && key[0] == ps[0] {
      var i :| 0 <= i < |e| && e[i].key == key;
      assert key == ps + (sep + swap[i].key);
    }
    assert (pv + sep + k)[0] == pv[0];
  }

  /** Left unset, the key parts are 'virtual_memory', 'swap_memory' and '_'. */
  lemma MemoryRecordDefaults(virtual: Option<MemoryObj>, swap: Option<MemoryObj>)
    ensures MemoryRecord(virtual, swap, None, None, None) ==
      MemoryRecord(virtual, swap, Some("virtual_memory"), Some("swap_memory"), Some("_"))
    ensures "virtual_memory"[0] != "swap_memory"[0]
  {
  }

  /** A missing side adds nothing: the record is the other side renamed. */
  lemma MemoryRecordOneSide(swap: Dict<Value>, prefixSwap: string, separator: string)
    requires UniqueKeys(swap)
    ensures MemoryRecord(None, Some(MemoryDict(swap)), None, Some(prefixSwap), Some(separator)) ==
      Ok(PrefixKeys(swap, prefixSwap + separator))
    ensures MemoryRecord(None, None, None, None, None) == Ok([])
  {
    PrefixIntoEmpty(swap, prefixSwap + separator);
  }

  /** A side that is not a dictionary is refused, whatever the other side. */
  lemma MemoryRecordNotDict(other: Option<MemoryObj>)
    ensures MemoryRecord(Some(NotDict), other, None, None, None) == Err(RuntimeFailure)
    ensures other.Some? && other.value.MemoryDict? ==>
      MemoryRecord(other, Some(NotDict), None, None, None) == Err(RuntimeFailure)
  {
  }

  // ---------------------------------------------------------------------------
  // get_disk_info

  /** The dictionary `get_disk_info` builds from the fields of the disk usage
      named tuple: each field humanized ('percent' kept) and renamed. */
  function DiskRecord(usage: Dict<real>, prefix: Option<string>, separator: Option<string>, humanize: real -> string): (r: Dict<Value>)
    ensures UniqueKeys(r)
    ensures usage == [] ==> r == []
  {
    var fields := PrefixKeys(Humanized(usage, humanize), OrDefault(prefix, "disk_usage") + OrDefault(separator, "_"));
    PutAllKeepsUnique([], fields);
    PutAll([], fields)
  }

  /** `get_disk_info`, given what `disk_usage` reports. The disk path is
      the query's argument and is not modelled. */
  method GetDiskInfo(usage: seq<Entry<real>>, prefix: Option<string>, separator: Option<string>, humanize: real -> string)
    returns (r: Dict<Value>)
    requires UniqueKeys(usage)
    ensures r == DiskRecord(usage, prefix, separator, humanize)
  {
    var p := if prefix.None? then "disk_usage" else prefix.value;
    var sep := if separator.None? then "_" else separator.value;
    var bytes := ConvertObj2Dict(usage);
    var human := ConvertBytes2HumanObj(bytes, humanize);
    r := PrefixInto([], human, p, sep);
  }

  /** With the default key parts, the disk field `k` becomes 'disk_usage_k'
      in the field's place: 'percent' keeps its number, every other field
      is humanized. */
  lemma DiskRecordFields(usage: Dict<real>, humanize: real -> string)
    requires UniqueKeys(usage)
    ensures var r := DiskRecord(usage, None, None, humanize);
      |r| == |usage| &&
      forall i :: 0 <= i < |usage| ==>
        r[i].key == "disk_usage_" + usage[i].key &&
        r[i].value == (if usage[i].key == "percent" then Number(usage[i].value) else Str(humanize(usage[i].value)))
  {
    var h := Humanized(usage, humanize);
    HumanizedFields(usage, humanize);
    forall i, j | 0 <= i < j < |h| ensures h[i].key != h[j].key {
      assert h[i].key == usage[i].key && h[j].key == usage[j].key;
    }
    assert "disk_usage" + "_" == "disk_usage_";
    PrefixIntoEmpty(h, "disk_usage_");
  }

  // ---------------------------------------------------------------------------
  // get_system_load_info

  /** `zip(keys, values)`: pairs up to the shorter of the two lists. */
  function Zip(keys: seq<string>, values: seq<real>): (r: Dict<real>)
    ensures |r| == if |keys| < |values| then |keys| else |values|
    ensures forall i :: 0 <= i < |r| ==> r[i] == Entry(keys[i], values[i])
  {
    var n := if |keys| < |values| then |keys| else |values|;
    seq(n, i requires 0 <= i < n => Entry(keys[i], values[i]))
  }

  const LoadKeys: seq<string> := ["1m", "5m", "15m"]

  /** The dictionary `get_system_load_info` builds: `dict(zip(keys, loads))`
      with every key renamed. The key parts are not defaulted here: a None
      separator has no `join` and a None prefix cannot be joined, but only
      once there is a key to rename. */
  function LoadRecord(keys: Option<seq<string>>, loads: seq<real>, prefix: Option<string>, separator: Option<string>): (r: Result<Dict<real>>)
    ensures loads == [] ==> r == Ok([])
    ensures r.Ok? ==> UniqueKeys(r.value)
  {
    var d := PutAll([], Zip(if keys.None? then LoadKeys else keys.value, loads));
    if d == [] then Ok([])
    else if separator.None? then Err(AttributeFailure)
    else if prefix.None? then Err(TypeFailure)
    else
      var fields := PrefixKeys(d, prefix.value + separator.value);
      PutAllKeepsUnique([], fields);
      Ok(PutAll([], fields))
  }

  /** `get_system_load_info`, given the load averages `getloadavg` reports. */
  method GetSystemLoadInfo(keys: Option<seq<string>>, loads: seq<real>, prefix: Option<string>, separator: Option<string>)
    returns (r: Result<Dict<real>>)
    ensures r == LoadRecord(keys, loads, prefix, separator)
  {
    var ks := if keys.None? then LoadKeys else keys.value;
    var d := PutAll([], Zip(ks, loads));
    if d == [] {
      return Ok([]);
    }
    if separator.None? {
      return Err(AttributeFailure);
    }
    if prefix.None? {
      return Err(TypeFailure);
    }
    var rec := PrefixInto([], d, prefix.value, separator.value);
    return Ok(rec);
  }

  /** With distinct keys, the record pairs each key with the load in the same
      place, up to the shorter list, under `prefix + separator + key`. */
  lemma LoadRecordPairs(keys: seq<string>, loads: seq<real>, prefix: string, separator: string)
    requires forall i, j :: 0 <= i < j < |keys| ==> keys[i] != keys[j]
    ensures var z := Zip(keys, loads);
      LoadRecord(Some(keys), loads, Some(prefix), Some(separator)) == Ok(PrefixKeys(z, prefix + separator))
  {
    var z := Zip(keys, loads);
    assert UniqueKeys(z);
    PutAllIntoEmpty(z);
    if z != [] {
      PrefixIntoEmpty(z, prefix + separator);
    }
  }

  /** The default keys name the 1, 5 and 15 minute averages: three loads
      become `prefix + separator` followed by '1m', '5m' and '15m'. */
  lemma DefaultLoadRecord(a: real, b: real, c: real, prefix: string, separator: string)
    ensures LoadRecord(None, [a, b, c], Some(prefix), Some(separator)) ==
      Ok([Entry(prefix + separator + "1m", a), Entry(prefix + separator + "5m", b), Entry(prefix + separator + "15m", c)])
  {
    assert LoadKeys[0] != LoadKeys[1] && LoadKeys[0] != LoadKeys[2] && LoadKeys[1] != LoadKeys[2];
    LoadRecordPairs(LoadKeys, [a, b, c], prefix, separator);
    var z := Zip(LoadKeys, [a, b, c]);
    var r := PrefixKeys(z, prefix + separator);
    assert r[0] == Entry(prefix + separator + "1m", a);
    assert r[1] == Entry(prefix + separator + "5m", b);
    assert r[2] == Entry(prefix + separator + "15m", c);
    assert r == [Entry(prefix + separator + "1m", a), Entry(prefix + separator + "5m", b), Entry(prefix + separator + "15m", c)];
  }

  /** Fewer loads than keys: the extra keys are dropped, and no load at all
      gives an empty record even without key parts. */
  lemma LoadRecordTruncates(keys: Option<seq<string>>, prefix: Option<string>, separator: Option<string>)
    ensures LoadRecord(keys, [], prefix, separator) == Ok([])
  {
  }
}
