/** A JavaScript `Map` keyed by record id: the stored rows, plus the order in
    which keys were first inserted, which is the order `values()` yields. */
module Tables {
  import opened Wrappers

  /** No element of `s` occurs twice. */
  predicate Distinct<K(==)>(s: seq<K>) {
    forall i, j :: 0 <= i < j < |s| ==> s[i] != s[j]
  }

  /** A sequence without repeats has as many distinct elements as positions. */
  lemma {:induction false} DistinctCard<K>(s: seq<K>)
    requires Distinct(s)
    ensures |set k | k in s| == |s|
    decreases |s|
  {
    if |s| > 0 {
      DistinctCard(s[1..]);
      assert (set k | k in s) == (set k | k in s[1..]) + {s[0]};
      assert s[0] !in s[1..];
    }
  }

  datatype Table<K(==,!new), V> = Table(rows: map<K, V>, order: seq<K>) {

    /** The order lists every key exactly once. */
    ghost predicate Valid() {
      Distinct(order) && forall k :: k in rows <==> k in order
    }

    /** `map.get(k)`: the stored row, or absent. */
    function Get(k: K): (r: Option<V>)
      ensures r.Some? <==> k in rows
      ensures r.Some? ==> r.value == rows[k]
    {
      if k in rows then Some(rows[k]) else None
    }

    /** `map.set(k, v)`: an existing key keeps its position, a new key goes last. */
    function Set(k: K, v: V): (t: Table<K, V>)
      ensures t.Get(k) == Some(v)
      ensures forall k' :: k' != k ==> t.Get(k') == Get(k')
      ensures t.rows.Keys == rows.Keys + {k}
      ensures k in rows ==> t.order == order
      ensures k !in rows ==> t.order == order + [k]
      ensures Valid() ==> t.Valid()
    {
      Table(rows[k := v], if k in rows then order else order + [k])
    }

    /** `Array.from(map.values())`: every row once, in insertion order. */
    function Values(): (vs: seq<V>)
      requires Valid()
      ensures |vs| == |order| == |rows|
      ensures forall i :: 0 <= i < |vs| ==> order[i] in rows && vs[i] == rows[order[i]]
      ensures forall k :: k in rows ==> rows[k] in vs
    {
      DistinctCard(order);
      assert rows.Keys == set k | k in order;
      var vs := seq(|order|, i requires 0 <= i < |order| => rows[order[i]]);
      assert forall k :: k in rows ==> rows[k] in vs by {
        forall k | k in rows ensures rows[k] in vs {
          var i :| 0 <= i < |order| && order[i] == k;
          assert vs[i] == rows[k];
        }
      }
      vs
    }
  }

  /** The values, as a set, are the values of the stored rows. */
  lemma ValuesMembers<K(!new), V>(t: Table<K, V>)
    requires t.Valid()
    ensures forall v :: v in t.Values() <==> v in t.rows.Values
  {
    var vs := t.Values();
    forall v ensures v in vs <==> v in t.rows.Values {
      if v in vs {
        var i :| 0 <= i < |vs| && vs[i] == v;
        assert t.rows[t.order[i]] == v;
      }
    }
  }

  /** A table filled by `set(key(x), x)` for each `x` of `xs` in turn, when no two
      elements share a key. */
  function FromSeq<K(==,!new), V>(xs: seq<V>, key: V -> K): (t: Table<K, V>)
    requires forall i, j :: 0 <= i < j < |xs| ==> key(xs[i]) != key(xs[j])
    ensures t.Valid()
    ensures |t.order| == |xs|
    ensures forall i :: 0 <= i < |xs| ==> t.order[i] == key(xs[i]) && t.rows[key(xs[i])] == xs[i]
    ensures forall k :: k in t.rows ==> exists i :: 0 <= i < |xs| && key(xs[i]) == k && t.rows[k] == xs[i]
  {
    var order := seq(|xs|, i requires 0 <= i < |xs| => key(xs[i]));
    var rows := map i | 0 <= i < |xs| :: key(xs[i]) := xs[i];
    assert forall k :: k in rows <==> k in order by {
      forall k ensures k in rows <==> k in order {
        if k in rows {
          var i :| 0 <= i < |xs| && key(xs[i]) == k;
          assert order[i] == k;
        }
      }
    }
    Table(rows, order)
  }

  /** Listing a table filled from `xs` gives `xs` back, in its order. */
  lemma FromSeqValues<K(!new), V>(xs: seq<V>, key: V -> K)
    requires forall i, j :: 0 <= i < j < |xs| ==> key(xs[i]) != key(xs[j])
    ensures FromSeq(xs, key).Values() == xs
  {
    var t := FromSeq(xs, key);
    var vs := t.Values();
    assert |vs| == |xs|;
    forall i | 0 <= i < |xs| ensures vs[i] == xs[i] {
      assert t.order[i] == key(xs[i]);
    }
  }

  /** `new Map()`. */
  function Empty<K(==,!new), V>(): (t: Table<K, V>)
    ensures t.Valid()
    ensures forall k :: t.Get(k) == None
  {
    Table(map[], [])
  }
}
