/** Python dictionaries with integer keys, as insertion-ordered association
    lists: iteration order is the order in which keys were first inserted,
    assigning to an existing key keeps its position, deleting removes it. */
module Dicts {
  import opened Wrappers

  type Dict<V> = seq<(int, V)>

  /** The keys present in `d`. */
  function KeySet<V>(d: Dict<V>): set<int>
  {
    set i | 0 <= i < |d| :: d[i].0
  }

  /** No key occurs twice (every dict the agents build satisfies this). */
  predicate Valid<V>(d: Dict<V>)
  {
    forall i, j :: 0 <= i < j < |d| ==> d[i].0 != d[j].0
  }

  lemma KeySetTail<V>(d: Dict<V>)
    requires |d| > 0
    ensures KeySet(d) == {d[0].0} + KeySet(d[1..])
  {
    forall k | k in KeySet(d) ensures k in {d[0].0} + KeySet(d[1..]) {
      var i :| 0 <= i < |d| && d[i].0 == k;
      if i > 0 {
        assert d[1..][i - 1] == d[i];
      }
    }
    forall k | k in KeySet(d[1..]) ensures k in KeySet(d) {
      var i :| 0 <= i < |d[1..]| && d[1..][i].0 == k;
      assert d[i + 1] == d[1..][i];
    }
  }

  /** In a dict without repeated keys the first key does not recur later. */
  lemma HeadKeyFresh<V>(d: Dict<V>)
    requires Valid(d) && |d| > 0
    ensures d[0].0 !in KeySet(d[1..])
  {
    forall i | 0 <= i < |d[1..]| ensures d[1..][i].0 != d[0].0 {
      assert d[1..][i] == d[i + 1];
    }
  }

  lemma KeySetMember<V>(d: Dict<V>, k: int, v: V)
    requires (k, v) in d
    ensures k in KeySet(d)
  {
    var i :| 0 <= i < |d| && d[i] == (k, v);
  }

  lemma ConsMembership<T>(x: T, s: seq<T>)
    ensures forall e :: e in [x] + s <==> e == x || e in s
  {
  }

  /** `d[k]` when present, `None` otherwise (Python's `d.get(k)`). */
  function Get<V>(d: Dict<V>, k: int): (r: Option<V>)
    ensures r.Some? <==> k in KeySet(d)
    ensures r.Some? ==> (k, r.value) in d
  {
    if |d| == 0 then None
    else
      KeySetTail(d);
      if d[0].0 == k then Some(d[0].1) else Get(d[1..], k)
  }

  /** In a dict without repeated keys, every entry is what `Get` returns. */
  lemma GetEntry<V>(d: Dict<V>, k: int, v: V)
    requires Valid(d) && (k, v) in d
    ensures Get(d, k) == Some(v)
  {
    if d[0] != (k, v) {
      assert (k, v) in d[1..];
      KeySetMember(d[1..], k, v);
      var i :| 0 <= i < |d[1..]| && d[1..][i].0 == k;
      assert d[i + 1].0 == k;
      GetEntry(d[1..], k, v);
    }
  }

  /** The position of the first entry with key `k`. */
  function IndexOf<V>(d: Dict<V>, k: int): (i: int)
    requires k in KeySet(d)
    ensures 0 <= i < |d| && d[i].0 == k
    ensures forall j :: 0 <= j < i ==> d[j].0 != k
  {
    KeySetTail(d);
    if d[0].0 == k then 0 else 1 + IndexOf(d[1..], k)
  }

  /** Two dicts with the same key at every position have the same key set
      and are both valid or both not. */
  lemma SameKeys<V>(d: Dict<V>, r: Dict<V>)
    requires |r| == |d| && forall j :: 0 <= j < |d| ==> r[j].0 == d[j].0
    ensures KeySet(r) == KeySet(d)
    ensures Valid(d) ==> Valid(r)
  {
    forall k | k in KeySet(d) ensures k in KeySet(r) {
      var j :| 0 <= j < |d| && d[j].0 == k;
      assert r[j].0 == k;
    }
  }

  /** Appending an entry adds its key. */
  lemma KeySetAppend<V>(d: Dict<V>, k: int, v: V)
    ensures KeySet(d + [(k, v)]) == KeySet(d) + {k}
    ensures Valid(d) && k !in KeySet(d) ==> Valid(d + [(k, v)])
  {
    var r := d + [(k, v)];
    assert r[|d|].0 == k;
    forall x | x in KeySet(d) ensures x in KeySet(r) {
      var j :| 0 <= j < |d| && d[j].0 == x;
      assert r[j].0 == x;
    }
    if Valid(d) && k !in KeySet(d) {
      forall a, b | 0 <= a < b < |r| ensures r[a].0 != r[b].0 {
        if b == |d| {
          assert r[a].0 == d[a].0 && d[a].0 in KeySet(d);
        }
      }
    }
  }

  /** `d[k] = v`: an existing key keeps its position, a new key is appended. */
  function Put<V>(d: Dict<V>, k: int, v: V): (r: Dict<V>)
    ensures KeySet(r) == KeySet(d) + {k}
    ensures (k, v) in r
    ensures forall e :: e in r ==> e in d || e == (k, v)
    ensures forall e {:trigger e in r} {:trigger e in d} :: e in d && e.0 != k ==> e in r
    ensures k !in KeySet(d) ==> r == d + [(k, v)]
    ensures k in KeySet(d) ==> |r| == |d|
    ensures Valid(d) ==> Valid(r)
  {
    if k in KeySet(d) then
      var i := IndexOf(d, k);
      var r := d[i := (k, v)];
      SameKeys(d, r);
      assert r[i] == (k, v);
      r
    else
      KeySetAppend(d, k, v);
      assert (d + [(k, v)])[|d|] == (k, v);
      d + [(k, v)]
  }

  /** After `d[k] = v`, looking `k` up gives `v` and every other key is unaffected. */
  lemma GetPut<V>(d: Dict<V>, k: int, v: V, k': int)
    requires Valid(d)
    ensures Get(Put(d, k, v), k') == if k' == k then Some(v) else Get(d, k')
  {
    var r := Put(d, k, v);
    if k' == k {
      GetEntry(r, k, v);
    } else if k' in KeySet(d) {
      var w := Get(d, k').value;
      GetEntry(d, k', w);
      GetEntry(r, k', w);
    }
  }

  /** The keys `key` assigns to the non-empty results of a batch. */
  function ResultKeys<V>(results: Dict<Option<V>>, key: V -> int): set<int>
  {
    set i | 0 <= i < |results| && results[i].1.Some? :: key(results[i].1.value)
  }

  lemma ResultKeysTail<V>(results: Dict<Option<V>>, key: V -> int)
    requires |results| > 0
    ensures ResultKeys(results, key)
      == (if results[0].1.Some? then {key(results[0].1.value)} else {}) + ResultKeys(results[1..], key)
  {
    var rest := results[1..];
    forall k | k in ResultKeys(results, key)
      ensures k in (if results[0].1.Some? then {key(results[0].1.value)} else {}) + ResultKeys(rest, key)
    {
      var i :| 0 <= i < |results| && results[i].1.Some? && key(results[i].1.value) == k;
      if i > 0 { assert rest[i - 1] == results[i]; }
    }
    forall k | k in ResultKeys(rest, key) ensures k in ResultKeys(results, key) {
      var i :| 0 <= i < |rest| && rest[i].1.Some? && key(rest[i].1.value) == k;
      assert results[i + 1] == rest[i];
    }
  }

  /** Result `i` of a batch is non-empty and no later result has its key:
      the one a sequence of assignments leaves in place. */
  predicate LastFor<V>(results: Dict<Option<V>>, key: V -> int, i: int)
  {
    && 0 <= i < |results| && results[i].1.Some?
    && forall j :: i < j < |results| && results[j].1.Some? ==> key(results[j].1.value) != key(results[i].1.value)
  }

  /** The last result of a batch with a key other than the first result's
      is the last of the rest of the batch too. */
  lemma LastForTail<V>(results: Dict<Option<V>>, key: V -> int, i: int)
    requires LastFor(results, key, i) && i > 0
    ensures LastFor(results[1..], key, i - 1)
  {
    var rest := results[1..];
    forall j | i - 1 < j < |rest| && rest[j].1.Some?
      ensures key(rest[j].1.value) != key(rest[i - 1].1.value)
    {
      assert rest[j] == results[j + 1];
    }
  }

  /** The first result of a batch, when it is the last with its key, leaves
      a key the rest of the batch never assigns. */
  lemma LastForHead<V>(results: Dict<Option<V>>, key: V -> int)
    requires LastFor(results, key, 0)
    ensures key(results[0].1.value) !in ResultKeys(results[1..], key)
  {
    var rest := results[1..];
    forall j | 0 <= j < |rest| && rest[j].1.Some?
      ensures key(rest[j].1.value) != key(results[0].1.value)
    {
      assert rest[j] == results[j + 1];
    }
  }

  /** Stores every non-empty result of a batch, in batch order, under the key
      `key` gives it (`d[key(v)] = v` for each returned `v`). A key assigned
      more than once holds the value of its last assignment. */
  function RecordResults<V(!new)>(d: Dict<V>, results: Dict<Option<V>>, key: V -> int): (r: Dict<V>)
    ensures KeySet(r) == KeySet(d) + ResultKeys(results, key)
    ensures Valid(d) ==> Valid(r)
    ensures forall e {:trigger e in d} {:trigger e in r} :: e in r ==> e in d || (e.0 == key(e.1) && exists i :: 0 <= i < |results| && results[i].1 == Some(e.1))
    ensures forall e {:trigger e in r} {:trigger e in d} :: e in d && e.0 !in ResultKeys(results, key) ==> e in r
    ensures forall i :: LastFor(results, key, i) ==> (key(results[i].1.value), results[i].1.value) in r
    decreases |results|
  {
    if |results| == 0 then d
    else
      var rest := results[1..];
      ResultKeysTail(results, key);
      assert forall i :: 0 <= i < |rest| ==> rest[i] == results[i + 1];
      match results[0].1
      case None =>
        var r := RecordResults(d, rest, key);
        assert forall i :: LastFor(results, key, i) ==> (key(results[i].1.value), results[i].1.value) in r by {
          forall i | LastFor(results, key, i) ensures (key(results[i].1.value), results[i].1.value) in r {
            LastForTail(results, key, i);
          }
        }
        r
      case Some(v) =>
        var r := RecordResults(Put(d, key(v), v), rest, key);
        assert forall i :: LastFor(results, key, i) ==> (key(results[i].1.value), results[i].1.value) in r by {
          forall i | LastFor(results, key, i) ensures (key(results[i].1.value), results[i].1.value) in r {
            if i == 0 {
              LastForHead(results, key);
            } else {
              LastForTail(results, key, i);
            }
          }
        }
        r
  }

  /** In a dict without repeated keys a key has one value. */
  lemma ValidEntriesAgree<V>(d: Dict<V>, k: int, v: V, w: V)
    requires Valid(d) && (k, v) in d && (k, w) in d
    ensures v == w
  {
    var i :| 0 <= i < |d| && d[i] == (k, v);
    var j :| 0 <= j < |d| && d[j] == (k, w);
    assert i == j;
  }

  /** The entries of `d` whose value satisfies `keep`, in their original order
      (deleting the others during an iteration over `list(d.items())`). */
  function Filter<V(!new)>(d: Dict<V>, keep: V -> bool): (r: Dict<V>)
    ensures forall e {:trigger e in d} {:trigger e in r} :: e in r <==> e in d && keep(e.1)
    ensures |r| <= |d|
    ensures KeySet(r) <= KeySet(d)
    ensures Valid(d) ==> Valid(r)
  {
    if |d| == 0 then []
    else
      KeySetTail(d);
      var rest := Filter(d[1..], keep);
      ConsMembership(d[0], d[1..]);
      assert [d[0]] + d[1..] == d;
      if keep(d[0].1) then
        var r := [d[0]] + rest;
        ConsMembership(d[0], rest);
        assert r[1..] == rest;
        KeySetTail(r);
        assert Valid(d) ==> d[0].0 !in KeySet(d[1..]) by {
          if Valid(d) { HeadKeyFresh(d); }
        }
        r
      else
        rest
  }

  /** Entries `i` and `j` of `sub` occur in `d`, in that order. */
  ghost predicate OccurInOrder<V>(sub: Dict<V>, d: Dict<V>, i: int, j: int)
    requires 0 <= i < j < |sub|
  {
    exists a, b :: 0 <= a < b < |d| && d[a] == sub[i] && d[b] == sub[j]
  }

  /** `sub` lists entries of `d` in the order in which they occur in `d`. */
  ghost predicate InOrder<V>(sub: Dict<V>, d: Dict<V>)
  {
    forall i, j :: 0 <= i < j < |sub| ==> OccurInOrder(sub, d, i, j)
  }

  /** What is in order in the tail of `d` is in order in `d`. */
  lemma InOrderInTail<V>(sub: Dict<V>, d: Dict<V>)
    requires |d| > 0 && InOrder(sub, d[1..])
    ensures InOrder(sub, d)
  {
    forall i, j | 0 <= i < j < |sub| ensures OccurInOrder(sub, d, i, j) {
      assert OccurInOrder(sub, d[1..], i, j);
      var a, b :| 0 <= a < b < |d[1..]| && d[1..][a] == sub[i] && d[1..][b] == sub[j];
      assert d[a + 1] == sub[i] && d[b + 1] == sub[j];
    }
  }

  /** The head of `d` before entries in order in its tail is in order in `d`. */
  lemma InOrderCons<V>(rest: Dict<V>, d: Dict<V>)
    requires |d| > 0 && InOrder(rest, d[1..])
    requires forall e :: e in rest ==> e in d[1..]
    ensures InOrder([d[0]] + rest, d)
  {
    var f := [d[0]] + rest;
    var tail := d[1..];
    forall i, j | 0 <= i < j < |f| ensures OccurInOrder(f, d, i, j) {
      if i == 0 {
        assert f[j] == rest[j - 1] && rest[j - 1] in rest;
        var b :| 0 <= b < |tail| && tail[b] == f[j];
        assert d[0] == f[0] && d[b + 1] == f[j];
      } else {
        assert OccurInOrder(rest, tail, i - 1, j - 1);
        var a, b :| 0 <= a < b < |tail| && tail[a] == rest[i - 1] && tail[b] == rest[j - 1];
        assert d[a + 1] == f[i] && d[b + 1] == f[j];
      }
    }
  }

  /** `Filter` keeps the order of the entries it keeps. */
  lemma {:induction false} FilterInOrder<V(!new)>(d: Dict<V>, keep: V -> bool)
    ensures InOrder(Filter(d, keep), d)
  {
    if |d| > 0 {
      var rest := Filter(d[1..], keep);
      FilterInOrder(d[1..], keep);
      if keep(d[0].1) {
        assert Filter(d, keep) == [d[0]] + rest;
        InOrderCons(rest, d);
      } else {
        assert Filter(d, keep) == rest;
        InOrderInTail(rest, d);
      }
    }
  }

  /** The entries of `d` whose key is not in `ks`, in their original order
      (`[(k, v) for k, v in d.items() if k not in ks]`). */
  function Without<V(!new)>(d: Dict<V>, ks: set<int>): (r: Dict<V>)
    ensures forall e {:trigger e in d} {:trigger e in r} :: e in r <==> e in d && e.0 !in ks
    ensures |r| <= |d|
    ensures KeySet(r) == KeySet(d) - ks
    ensures Valid(d) ==> Valid(r)
  {
    if |d| == 0 then []
    else
      KeySetTail(d);
      var rest := Without(d[1..], ks);
      ConsMembership(d[0], d[1..]);
      assert [d[0]] + d[1..] == d;
      if d[0].0 !in ks then
        var r := [d[0]] + rest;
        ConsMembership(d[0], rest);
        assert r[1..] == rest;
        KeySetTail(r);
        assert Valid(d) ==> d[0].0 !in KeySet(d[1..]) by {
          if Valid(d) { HeadKeyFresh(d); }
        }
        r
      else
        rest
  }
}
