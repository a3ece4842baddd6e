/** Sample values and Python dictionaries. A Python `dict` keeps its keys in
    insertion order and `d[k] = v` on an existing key keeps that key's place;
    `Dict` models it as an association list with those two rules. */
module Records {
  import opened Outcomes

  /** A cell of a sample or of a report table: a number, or a string such as
      a human-readable size "2.3G" or a process name. */
  datatype Value = Number(x: real) | Str(s: string)

  datatype Entry<V> = Entry(key: string, value: V)

  type Dict<V> = seq<Entry<V>>

  function Keys<V>(d: Dict<V>): (ks: set<string>)
    ensures forall i :: 0 <= i < |d| ==> d[i].key in ks
    ensures forall k :: k in ks ==> exists i :: 0 <= i < |d| && d[i].key == k
  {
    if d == [] then {} else {d[0].key} + Keys(d[1..])
  }

  /** Python dictionaries never hold a key twice. */
  predicate UniqueKeys<V>(d: Dict<V>) {
    forall i, j :: 0 <= i < j < |d| ==> d[i].key != d[j].key
  }

  /** `d.get(k)`. */
  function Get<V>(d: Dict<V>, k: string): (r: Option<V>)
    ensures r.Some? <==> k in Keys(d)
    ensures r.Some? ==> exists i :: 0 <= i < |d| && d[i] == Entry(k, r.value)
  {
    if d == [] then None
    else if d[0].key == k then Some(d[0].value)
    else Get(d[1..], k)
  }

  lemma KeysAppend<V>(d: Dict<V>, e: Dict<V>)
    ensures Keys(d + e) == Keys(d) + Keys(e)
  {
    var de := d + e;
    forall k | k in Keys(de) ensures k in Keys(d) + Keys(e) {
      var i :| 0 <= i < |de| && de[i].key == k;
      if i < |d| { assert d[i].key == k; } else { assert e[i - |d|].key == k; }
    }
    forall k | k in Keys(d) + Keys(e) ensures k in Keys(de) {
      if k in Keys(d) {
        var i :| 0 <= i < |d| && d[i].key == k;
        assert de[i].key == k;
      } else {
        var i :| 0 <= i < |e| && e[i].key == k;
        assert de[|d| + i].key == k;
      }
    }
  }

  /** Looking a key up in `d + [x]`: the earlier entries win. */
  lemma {:induction false} GetAppendOne<V>(d: Dict<V>, x: Entry<V>, k: string)
    ensures Get(d + [x], k) == if k in Keys(d) then Get(d, k) else if k == x.key then Some(x.value) else None
  {
    if d == [] {
      assert d + [x] == [x];
    } else {
      assert (d + [x])[1..] == d[1..] + [x];
      GetAppendOne(d[1..], x, k);
    }
  }

  /** `d[k] = v`: replaces the value of an existing key in place, or appends
      a new key at the end. */
  function Put<V>(d: Dict<V>, k: string, v: V): (r: Dict<V>)
    ensures |r| == if k in Keys(d) then |d| else |d| + 1
  {
    if d == [] then [Entry(k, v)]
    else if d[0].key == k then [Entry(k, v)] + d[1..]
    else [d[0]] + Put(d[1..], k, v)
  }

  /** Putting adds exactly the key put. */
  lemma {:induction false} PutKeys<V>(d: Dict<V>, k: string, v: V)
    ensures Keys(Put(d, k, v)) == Keys(d) + {k}
  {
    if d != [] && d[0].key != k {
      PutKeys(d[1..], k, v);
    }
  }

  /** After `d[k] = v`, `k` maps to `v` and every other key to what it had. */
  lemma {:induction false} PutGet<V>(d: Dict<V>, k: string, v: V, k': string)
    ensures Get(Put(d, k, v), k') == if k' == k then Some(v) else Get(d, k')
  {
    if d != [] && d[0].key != k {
      PutGet(d[1..], k, v, k');
    }
  }

  /** A new key goes at the end. */
  lemma {:induction false} PutNewKey<V>(d: Dict<V>, k: string, v: V)
    requires k !in Keys(d)
    ensures Put(d, k, v) == d + [Entry(k, v)]
  {
    if d != [] {
      assert d[0].key in Keys(d);
      PutNewKey(d[1..], k, v);
      assert d == [d[0]] + d[1..];
    }
  }

  lemma UniqueTail<V>(d: Dict<V>)
    requires d != [] && UniqueKeys(d)
    ensures UniqueKeys(d[1..]) && d[0].key !in Keys(d[1..])
  {
    var tail := d[1..];
    forall i, j | 0 <= i < j < |tail| ensures tail[i].key != tail[j].key {
      assert tail[i] == d[i + 1] && tail[j] == d[j + 1];
    }
    forall m | 0 <= m < |tail| ensures tail[m].key != d[0].key {
      assert tail[m] == d[m + 1];
    }
  }

  lemma UniqueCons<V>(x: Entry<V>, t: Dict<V>)
    requires UniqueKeys(t) && x.key !in Keys(t)
    ensures UniqueKeys([x] + t)
  {
    var r := [x] + t;
    forall i, j | 0 <= i < j < |r| ensures r[i].key != r[j].key {
      assert r[j] == t[j - 1];
      if i > 0 {
        assert r[i] == t[i - 1];
      }
    }
  }

  lemma {:induction false} PutKeepsUnique<V>(d: Dict<V>, k: string, v: V)
    requires UniqueKeys(d)
    ensures UniqueKeys(Put(d, k, v))
  {
    if d != [] {
      UniqueTail(d);
      if d[0].key == k {
        UniqueCons(Entry(k, v), d[1..]);
      } else {
        PutKeepsUnique(d[1..], k, v);
        PutKeys(d[1..], k, v);
        UniqueCons(d[0], Put(d[1..], k, v));
      }
    }
  }

  /** `d.pop(k)` when present; no effect otherwise. */
  function Remove<V>(d: Dict<V>, k: string): (r: Dict<V>)
    ensures Keys(r) == Keys(d) - {k}
    ensures forall k' :: k' != k ==> Get(r, k') == Get(d, k')
    ensures UniqueKeys(d) ==> UniqueKeys(r)
  {
    if d == [] then []
    else if d[0].key == k then Remove(d[1..], k)
    else [d[0]] + Remove(d[1..], k)
  }

  /** `d.update(e)`, also `{**d, **e}` when `d` is a fresh copy: the entries
      of `e` are put in order, so a later key wins. */
  function PutAll<V>(d: Dict<V>, e: Dict<V>): Dict<V>
  {
    if e == [] then d
    else
      var x := e[|e| - 1];
      Put(PutAll(d, e[..|e| - 1]), x.key, x.value)
  }

  /** An update adds the keys of `e`. */
  lemma {:induction false} PutAllKeys<V>(d: Dict<V>, e: Dict<V>)
    ensures Keys(PutAll(d, e)) == Keys(d) + Keys(e)
  {
    if e != [] {
      var front, x := e[..|e| - 1], e[|e| - 1];
      assert e == front + [x];
      KeysAppend(front, [x]);
      PutAllKeys(d, front);
      PutKeys(PutAll(d, front), x.key, x.value);
    }
  }

  /** An update keeps the keys of a dictionary distinct. */
  lemma {:induction false} PutAllKeepsUnique<V>(d: Dict<V>, e: Dict<V>)
    requires UniqueKeys(d)
    ensures UniqueKeys(PutAll(d, e))
  {
    if e != [] {
      var front, x := e[..|e| - 1], e[|e| - 1];
      PutAllKeepsUnique(d, front);
      PutKeepsUnique(PutAll(d, front), x.key, x.value);
    }
  }

  /** After an update, a key of `e` has its value from `e`; any other key
      keeps its value from `d`. */
  lemma {:induction false} GetPutAll<V>(d: Dict<V>, e: Dict<V>, k: string)
    requires UniqueKeys(e)
    ensures Get(PutAll(d, e), k) == if k in Keys(e) then Get(e, k) else Get(d, k)
  {
    if e != [] {
      var front, x := e[..|e| - 1], e[|e| - 1];
      assert e == front + [x];
      KeysAppend(front, [x]);
      GetAppendOne(front, x, k);
      forall i | 0 <= i < |front| ensures front[i].key != x.key {
        assert front[i] == e[i];
      }
      GetPutAll(d, front, k);
      PutGet(PutAll(d, front), x.key, x.value, k);
    }
  }

  /** The value of the last entry of `w` with key `k`, if any. */
  function LastValue<V>(w: Dict<V>, k: string): (r: Option<V>)
    ensures r.Some? <==> k in Keys(w)
  {
    if w == [] then None
    else
      var front, x := w[..|w| - 1], w[|w| - 1];
      assert w == front + [x];
      KeysAppend(front, [x]);
      if x.key == k then Some(x.value) else LastValue(front, k)
  }

  /** The place of the last entry of `w` with key `k`. */
  function LastIndex<V>(w: Dict<V>, k: string): (j: nat)
    requires k in Keys(w)
    ensures j < |w| && w[j].key == k && LastValue(w, k) == Some(w[j].value)
  {
    var front, x := w[..|w| - 1], w[|w| - 1];
    assert w == front + [x];
    KeysAppend(front, [x]);
    if x.key == k then |w| - 1 else LastIndex(front, k)
  }

  /** Putting entries in order, the last entry with a key decides its
      value; a key no entry has keeps its value. */
  lemma {:induction false} GetPutAllLast<V>(d: Dict<V>, w: Dict<V>, k: string)
    ensures Get(PutAll(d, w), k) == if k in Keys(w) then LastValue(w, k) else Get(d, k)
  {
    if w != [] {
      var front, x := w[..|w| - 1], w[|w| - 1];
      assert w == front + [x];
      KeysAppend(front, [x]);
      GetPutAllLast(d, front, k);
      PutGet(PutAll(d, front), x.key, x.value, k);
    }
  }

  /** Putting two lists of entries is putting the first, then the second. */
  lemma {:induction false} PutAllAppend<V>(d: Dict<V>, a: Dict<V>, b: Dict<V>)
    ensures PutAll(d, a + b) == PutAll(PutAll(d, a), b)
  {
    if b == [] {
      assert a + b == a;
    } else {
      var front := b[..|b| - 1];
      assert (a + b)[..|a + b| - 1] == a + front;
      assert (a + b)[|a + b| - 1] == b[|b| - 1];
      PutAllAppend(d, a, front);
    }
  }

  /** Putting one entry in front of a list. */
  lemma PutAllCons<V>(d: Dict<V>, x: Entry<V>, w: Dict<V>)
    ensures PutAll(d, [x] + w) == PutAll(Put(d, x.key, x.value), w)
  {
    PutAllAppend(d, [x], w);
    assert [x][..0] == [];
  }

  /** Building a dictionary from entries with distinct keys keeps them as
      they are, in order. */
  lemma {:induction false} PutAllIntoEmpty<V>(e: Dict<V>)
    requires UniqueKeys(e)
    ensures PutAll([], e) == e
  {
    if e != [] {
      var front, x := e[..|e| - 1], e[|e| - 1];
      assert e == front + [x];
      forall i | 0 <= i < |front| ensures front[i].key != x.key {
        assert front[i] == e[i];
      }
      PutAllIntoEmpty(front);
      assert x.key !in Keys(front);
      PutNewKey(front, x.key, x.value);
    }
  }

  /** Every key `k` of `d` renamed to `prefix + k`, values and order unchanged. */
  function PrefixKeys<V>(d: Dict<V>, prefix: string): (r: Dict<V>)
    ensures |r| == |d|
    ensures forall i :: 0 <= i < |d| ==> r[i] == Entry(prefix + d[i].key, d[i].value)
  {
    seq(|d|, i requires 0 <= i < |d| => Entry(prefix + d[i].key, d[i].value))
  }

  lemma PrefixCancel(prefix: string, a: string, b: string)
    requires prefix + a == prefix + b
    ensures a == b
  {
    assert a == (prefix + a)[|prefix|..];
    assert b == (prefix + b)[|prefix|..];
  }

  /** Renaming by a common prefix keeps keys distinct, and a renamed key
      finds the value the original key had. */
  lemma PrefixKeysLookup<V>(d: Dict<V>, prefix: string, k: string)
    ensures UniqueKeys(d) ==> UniqueKeys(PrefixKeys(d, prefix))
    ensures Get(PrefixKeys(d, prefix), prefix + k) == Get(d, k)
  {
    var r := PrefixKeys(d, prefix);
    if UniqueKeys(d) {
      forall i, j | 0 <= i < j < |r| ensures r[i].key != r[j].key {
        if r[i].key == r[j].key { PrefixCancel(prefix, d[i].key, d[j].key); }
      }
    }
    PrefixKeysGet(d, prefix, k);
  }

  lemma {:induction false} PrefixKeysGet<V>(d: Dict<V>, prefix: string, k: string)
    ensures Get(PrefixKeys(d, prefix), prefix + k) == Get(d, k)
  {
    if d != [] {
      var r := PrefixKeys(d, prefix);
      assert r[1..] == PrefixKeys(d[1..], prefix);
      if d[0].key != k {
        if r[0].key == prefix + k { PrefixCancel(prefix, d[0].key, k); }
      }
      PrefixKeysGet(d[1..], prefix, k);
    }
  }

  /** A key of the renamed dictionary always carries the prefix. */
  lemma PrefixKeysShape<V>(d: Dict<V>, prefix: string, key: string)
    requires key in Keys(PrefixKeys(d, prefix))
    ensures exists k :: k in Keys(d) && key == prefix + k
  {
    var r := PrefixKeys(d, prefix);
    var i :| 0 <= i < |r| && r[i].key == key;
    assert d[i].key in Keys(d);
  }
}
