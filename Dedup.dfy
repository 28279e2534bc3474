/** `array_unique_by_key`: order-preserving, first-occurrence-wins
    deduplication of a list of dicts by the value each holds under one key. */
module Dedup {
  import opened Wrappers
  import opened Dicts

  /** No item before position `i` carries the key value of `items[i]`. */
  predicate IsFirst<V(==)>(items: seq<Dict<V>>, key: string, i: nat)
    requires i < |items|
  {
    forall j :: 0 <= j < i ==> Get(items[j], key) != Get(items[i], key)
  }

  /** The key values (`item.get(key)`) occurring in `items`. */
  function Keys<V(==)>(items: seq<Dict<V>>, key: string): (ks: set<Option<V>>)
  {
    set i | 0 <= i < |items| :: Get(items[i], key)
  }

  /** No two items carry the same key value. */
  predicate DistinctKeys<V(==)>(items: seq<Dict<V>>, key: string)
  {
    forall a, b :: 0 <= a < b < |items| ==> Get(items[a], key) != Get(items[b], key)
  }

  /** Reference definition: keep exactly the items whose key value has not
      occurred earlier in the list, in their original order. */
  function UniqueByKey<V(==)>(items: seq<Dict<V>>, key: string): (r: seq<Dict<V>>)
    ensures |r| <= |items|
    ensures forall k :: 0 <= k < |r| ==> r[k] in items
  {
    if items == [] then []
    else
      var n := |items| - 1;
      var front := UniqueByKey(items[..n], key);
      assert forall k :: 0 <= k < |front| ==> front[k] in items[..n];
      front + (if IsFirst(items, key, n) then [items[n]] else [])
  }

  /** The loop of `array_unique_by_key`: a `seen` set and a growing output list. */
  method ArrayUniqueByKey<V(==)>(items: seq<Dict<V>>, key: string) returns (uniqueItems: seq<Dict<V>>)
    ensures uniqueItems == UniqueByKey(items, key)
  {
    var seen: set<Option<V>> := {};
    uniqueItems := [];
    for i := 0 to |items|
      invariant uniqueItems == UniqueByKey(items[..i], key)
      invariant seen == Keys(items[..i], key)
    {
      var value := Get(items[i], key);
      SeenIffNotFirst(items, key, i);
      if value !in seen {
        uniqueItems := uniqueItems + [items[i]];
        seen := seen + {value};
      }
      PrefixStep(items, key, i);
    }
    assert items[..|items|] == items;
  }

  /** The `seen` test of the loop decides exactly `IsFirst`. */
  lemma SeenIffNotFirst<V>(items: seq<Dict<V>>, key: string, i: nat)
    requires i < |items|
    ensures Get(items[i], key) in Keys(items[..i], key) <==> !IsFirst(items, key, i)
  {
    if !IsFirst(items, key, i) {
      var j :| 0 <= j < i && Get(items[j], key) == Get(items[i], key);
      assert items[..i][j] == items[j];
    }
  }

  /** One loop step: extending the prefix by `items[i]` extends the key set by
      its key value and unfolds the reference definition once. */
  lemma PrefixStep<V>(items: seq<Dict<V>>, key: string, i: nat)
    requires i < |items|
    ensures Keys(items[..i + 1], key) == Keys(items[..i], key) + {Get(items[i], key)}
    ensures UniqueByKey(items[..i + 1], key)
         == UniqueByKey(items[..i], key) + (if IsFirst(items, key, i) then [items[i]] else [])
  {
    var p := items[..i + 1];
    assert p[..i] == items[..i];
    assert IsFirst(p, key, i) <==> IsFirst(items, key, i);
    forall v | v in Keys(p, key) ensures v in Keys(items[..i], key) + {Get(items[i], key)} {
      var j :| 0 <= j < |p| && v == Get(p[j], key);
      if j < i { assert p[j] == items[..i][j]; }
    }
    forall v | v in Keys(items[..i], key) + {Get(items[i], key)} ensures v in Keys(p, key) {
      if v == Get(items[i], key) {
        assert p[i] == items[i];
      } else {
        var j :| 0 <= j < i && v == Get(items[..i][j], key);
        assert p[j] == items[..i][j];
      }
    }
  }

  /** Every key value of the input occurs in the output, and no other. */
  lemma {:induction false} UniqueKeepsEveryKey<V>(items: seq<Dict<V>>, key: string)
    ensures Keys(UniqueByKey(items, key), key) == Keys(items, key)
  {
    if items != [] {
      var n := |items| - 1;
      UniqueKeepsEveryKey(items[..n], key);
      assert items[..n + 1] == items;
      PrefixStep(items, key, n);
      SeenIffNotFirst(items, key, n);
      var front := UniqueByKey(items[..n], key);
      if IsFirst(items, key, n) {
        KeysOfAppend(front, [items[n]], key);
        assert Keys([items[n]], key) == {Get(items[n], key)} by {
          assert [items[n]][0] == items[n];
          assert Get([items[n]][0], key) in Keys([items[n]], key);
        }
      } else {
        assert UniqueByKey(items, key) == front;
      }
    }
  }

  lemma KeysOfAppend<V>(a: seq<Dict<V>>, b: seq<Dict<V>>, key: string)
    ensures Keys(a + b, key) == Keys(a, key) + Keys(b, key)
  {
    var ab := a + b;
    forall v | v in Keys(ab, key) ensures v in Keys(a, key) + Keys(b, key) {
      var j :| 0 <= j < |ab| && v == Get(ab[j], key);
      if j < |a| { assert ab[j] == a[j]; } else { assert ab[j] == b[j - |a|]; }
    }
    forall v | v in Keys(a, key) + Keys(b, key) ensures v in Keys(ab, key) {
      if v in Keys(a, key) {
        var j :| 0 <= j < |a| && v == Get(a[j], key);
        assert ab[j] == a[j];
      } else {
        var j :| 0 <= j < |b| && v == Get(b[j], key);
        assert ab[|a| + j] == b[j];
      }
    }
  }

  /** No two output items carry the same key value. */
  lemma {:induction false} UniqueHasDistinctKeys<V>(items: seq<Dict<V>>, key: string)
    ensures DistinctKeys(UniqueByKey(items, key), key)
  {
    if items != [] {
      var n := |items| - 1;
      var front := UniqueByKey(items[..n], key);
      UniqueHasDistinctKeys(items[..n], key);
      if IsFirst(items, key, n) {
        UniqueKeepsEveryKey(items[..n], key);
        SeenIffNotFirst(items, key, n);
        var r := front + [items[n]];
        forall a, b | 0 <= a < b < |r| ensures Get(r[a], key) != Get(r[b], key) {
          if b == |front| {
            assert Get(r[a], key) in Keys(front, key);
          }
        }
      }
    }
  }

  /** The input positions whose items the deduplication keeps. */
  ghost function KeptIndices<V>(items: seq<Dict<V>>, key: string): seq<nat>
  {
    if items == [] then []
    else
      var n := |items| - 1;
      KeptIndices(items[..n], key) + (if IsFirst(items, key, n) then [n] else [])
  }

  /** The output is the subsequence of the input at the first occurrence of
      each key value: the kept positions increase, each output item is the
      input item at its position, and a position is kept exactly when no
      earlier item carries the same key value. */
  lemma {:induction false} UniqueIsFirstOccurrences<V>(items: seq<Dict<V>>, key: string)
    ensures var r, idx := UniqueByKey(items, key), KeptIndices(items, key);
      && |idx| == |r|
      && (forall k :: 0 <= k < |idx| ==> idx[k] < |items| && r[k] == items[idx[k]])
      && (forall a, b :: 0 <= a < b < |idx| ==> idx[a] < idx[b])
      && (forall i :: 0 <= i < |items| ==> (i in idx <==> IsFirst(items, key, i)))
  {
    if items != [] {
      var n := |items| - 1;
      var p := items[..n];
      UniqueIsFirstOccurrences(p, key);
      var r, idx := UniqueByKey(items, key), KeptIndices(items, key);
      var rp, ip := UniqueByKey(p, key), KeptIndices(p, key);
      assert forall k :: 0 <= k < |ip| ==> ip[k] < n && rp[k] == items[ip[k]];
      forall i | 0 <= i < n ensures IsFirst(p, key, i) <==> IsFirst(items, key, i) {
        assert forall j :: 0 <= j <= i ==> p[j] == items[j];
      }
      assert n !in ip;
    }
  }

  /** For every key value the kept item is the first input item carrying it. */
  lemma FirstOccurrenceWins<V>(items: seq<Dict<V>>, key: string, i: nat, k: nat)
    requires i < |items| && IsFirst(items, key, i)
    requires k < |UniqueByKey(items, key)|
    requires Get(UniqueByKey(items, key)[k], key) == Get(items[i], key)
    ensures UniqueByKey(items, key)[k] == items[i]
  {
    UniqueIsFirstOccurrences(items, key);
    var idx := KeptIndices(items, key);
    assert IsFirst(items, key, idx[k]);
  }

  /** Items lacking the key (or holding `None` under it) all read as `None`:
      at most one of them survives, and it is the first one of the input. */
  lemma MissingKeysCollapse<V>(items: seq<Dict<V>>, key: string, i: nat)
    requires i < |items| && Get(items[i], key) == None && IsFirst(items, key, i)
    ensures items[i] in UniqueByKey(items, key)
    ensures forall k :: 0 <= k < |UniqueByKey(items, key)| && Get(UniqueByKey(items, key)[k], key) == None
                        ==> UniqueByKey(items, key)[k] == items[i]
  {
    UniqueIsFirstOccurrences(items, key);
    var idx := KeptIndices(items, key);
    assert i in idx;
    forall k | 0 <= k < |UniqueByKey(items, key)| && Get(UniqueByKey(items, key)[k], key) == None
      ensures UniqueByKey(items, key)[k] == items[i]
    {
      FirstOccurrenceWins(items, key, i, k);
    }
  }

  /** The output is as long as the input exactly when all key values are distinct. */
  lemma {:induction false} UniqueLengthIff<V>(items: seq<Dict<V>>, key: string)
    ensures |UniqueByKey(items, key)| == |items| <==> DistinctKeys(items, key)
  {
    if items != [] {
      var n := |items| - 1;
      var p := items[..n];
      var front := UniqueByKey(p, key);
      UniqueLengthIff(p, key);
      assert |front| <= n;
      assert DistinctKeys(items, key) <==> DistinctKeys(p, key) && IsFirst(items, key, n) by {
        assert forall j :: 0 <= j < n ==> p[j] == items[j];
      }
      assert |UniqueByKey(items, key)| == |front| + (if IsFirst(items, key, n) then 1 else 0);
    }
  }

  /** On a list whose key values are already distinct nothing is removed. */
  lemma {:induction false} UniqueOfDistinct<V>(items: seq<Dict<V>>, key: string)
    requires DistinctKeys(items, key)
    ensures UniqueByKey(items, key) == items
  {
    if items != [] {
      var n := |items| - 1;
      var p := items[..n];
      assert forall j :: 0 <= j < n ==> p[j] == items[j];
      assert DistinctKeys(p, key);
      UniqueOfDistinct(p, key);
      assert IsFirst(items, key, n);
      assert p + [items[n]] == items;
    }
  }

  /** Deduplicating twice is the same as deduplicating once. */
  lemma UniqueIdempotent<V>(items: seq<Dict<V>>, key: string)
    ensures UniqueByKey(UniqueByKey(items, key), key) == UniqueByKey(items, key)
  {
    UniqueHasDistinctKeys(items, key);
    UniqueOfDistinct(UniqueByKey(items, key), key);
  }
}
