/**
 * The dropdown code tables of the entry form: action names and time codes,
 * each mapped to the small integer the dropdown stores, and the reverse
 * tables the form builds to turn a stored integer back into its name.
 */
module Codes {
  /** The (key, value) items of a dictionary literal, in insertion order. */
  type Items<K, V> = seq<(K, V)>

  predicate DistinctKeys<K(==), V>(items: Items<K, V>)
  {
    forall i, j :: 0 <= i < j < |items| ==> items[i].0 != items[j].0
  }

  predicate DistinctValues<K, V(==)>(items: Items<K, V>)
  {
    forall i, j :: 0 <= i < j < |items| ==> items[i].1 != items[j].1
  }

  /** The dictionary built from the items: each key maps to the value of its last item. */
  function AsMap<K(==), V>(items: Items<K, V>): map<K, V>
  {
    if items == [] then map[] else AsMap(items[..|items| - 1])[items[|items| - 1].0 := items[|items| - 1].1]
  }

  /** The dictionary has exactly the items' keys; when no key repeats, each maps to its item's value. */
  lemma {:induction false} AsMapHolds<K, V>(items: Items<K, V>)
    ensures AsMap(items).Keys == set i | 0 <= i < |items| :: items[i].0
    ensures DistinctKeys(items) ==> forall i :: 0 <= i < |items| ==> AsMap(items)[items[i].0] == items[i].1
  {
    if items != [] {
      var init := items[..|items| - 1];
      AsMapHolds(init);
      assert forall i :: 0 <= i < |init| ==> init[i] == items[i];
    }
  }

  lemma AsMapPrefix<K, V>(items: Items<K, V>, k: nat)
    requires 0 < k <= |items|
    ensures AsMap(items[..k]) == AsMap(items[..k - 1])[items[k - 1].0 := items[k - 1].1]
  {
    assert items[..k][..k - 1] == items[..k - 1];
  }

  /** Each item with its key and value exchanged. */
  function Swapped<K, V>(items: Items<K, V>): (r: Items<V, K>)
    ensures |r| == |items|
    ensures forall i :: 0 <= i < |items| ==> r[i] == (items[i].1, items[i].0)
  {
    seq(|items|, i requires 0 <= i < |items| => (items[i].1, items[i].0))
  }

  /** `{v: k for k, v in d.items()}`: each value maps back to the key of its last item. */
  function Reversed<K, V(==)>(items: Items<K, V>): map<V, K>
  {
    AsMap(Swapped(items))
  }

  /**
   * When no key and no value repeats, the reverse table inverts the table
   * exactly, in both directions.
   */
  lemma ReversedInverts<K, V>(items: Items<K, V>)
    requires DistinctKeys(items) && DistinctValues(items)
    ensures AsMap(items).Values == Reversed(items).Keys
    ensures forall k :: k in AsMap(items) ==> Reversed(items)[AsMap(items)[k]] == k
    ensures forall v :: v in Reversed(items) ==> AsMap(items)[Reversed(items)[v]] == v
  {
    var m, r, sw := AsMap(items), Reversed(items), Swapped(items);
    AsMapHolds(items);
    AsMapHolds(sw);
    assert DistinctKeys(sw);
    forall k | k in m ensures m[k] in r && r[m[k]] == k {
      var i :| 0 <= i < |items| && items[i].0 == k;
      assert sw[i].0 == m[k];
    }
    forall v | v in r ensures r[v] in m && m[r[v]] == v {
      var i :| 0 <= i < |sw| && sw[i].0 == v;
      assert items[i].0 == r[v];
    }
    assert m.Values == r.Keys by {
      forall v | v in m.Values ensures v in r.Keys {
        var k :| k in m && m[k] == v;
      }
    }
  }

  /** Items whose values count 1, 2, ... in order: the reverse table's keys are exactly 1..n. */
  lemma NumberedFromOne<K>(items: Items<K, int>)
    requires forall i :: 0 <= i < |items| ==> items[i].1 == i + 1
    ensures forall v :: v in Reversed(items) <==> 1 <= v <= |items|
  {
    var w := Swapped(items);
    AsMapHolds(w);
    forall v ensures v in Reversed(items) <==> 1 <= v <= |items| {
      if 1 <= v <= |items| {
        assert w[v - 1].0 == v;
      }
      if v in Reversed(items) {
        var i :| 0 <= i < |w| && w[i].0 == v;
      }
    }
  }

  const ACTION_ITEMS: Items<string, int> :=
    [("WORK COMPLETE", 1), ("ACTIVE/ONGOING", 2), ("INITIAL RESPOND", 3), ("OVERHEAD", 4)]

  const TIME_CODE_ITEMS: Items<string, int> :=
    [("R", 1), ("CP", 2), ("OT", 3), ("A", 4), ("S", 5),
     ("PH", 6), ("CT", 7), ("ASG", 8), ("HOLIDAY", 9), ("HOMEWORK", 10)]

  /** `ACTIONS`: action name to dropdown value. */
  function Actions(): map<string, int>
  {
    AsMap(ACTION_ITEMS)
  }

  /** `TIME_CODES`: time code to dropdown value. */
  function TimeCodes(): map<string, int>
  {
    AsMap(TIME_CODE_ITEMS)
  }

  /**
   * `ACTIONS` is one-to-one onto 1..4, and the reverse table built from it
   * takes every value back to its name and every name's value back to it.
   */
  lemma ActionsInvertible()
    ensures forall v :: v in Reversed(ACTION_ITEMS) <==> 1 <= v <= 4
    ensures Actions().Values == Reversed(ACTION_ITEMS).Keys
    ensures forall a :: a in Actions() ==> Reversed(ACTION_ITEMS)[Actions()[a]] == a
    ensures forall v :: v in Reversed(ACTION_ITEMS) ==> Actions()[Reversed(ACTION_ITEMS)[v]] == v
  {
    var s := ACTION_ITEMS;
    assert DistinctKeys(s);
    ReversedInverts(s);
    assert forall i :: 0 <= i < |s| ==> s[i].1 == i + 1 by {
      assert s[0].1 == 1 && s[1].1 == 2 && s[2].1 == 3 && s[3].1 == 4;
    }
    NumberedFromOne(s);
  }

  /**
   * `TIME_CODES` is one-to-one onto 1..10, and the reverse table built from
   * it takes every value back to its code and every code's value back to it.
   */
  lemma TimeCodesInvertible()
    ensures forall v :: v in Reversed(TIME_CODE_ITEMS) <==> 1 <= v <= 10
    ensures TimeCodes().Values == Reversed(TIME_CODE_ITEMS).Keys
    ensures forall c :: c in TimeCodes() ==> Reversed(TIME_CODE_ITEMS)[TimeCodes()[c]] == c
    ensures forall v :: v in Reversed(TIME_CODE_ITEMS) ==> TimeCodes()[Reversed(TIME_CODE_ITEMS)[v]] == v
  {
    var s := TIME_CODE_ITEMS;
    assert DistinctKeys(s);
    ReversedInverts(s);
    assert forall i :: 0 <= i < |s| ==> s[i].1 == i + 1 by {
      assert s[0].1 == 1 && s[1].1 == 2 && s[2].1 == 3 && s[3].1 == 4 && s[4].1 == 5;
      assert s[5].1 == 6 && s[6].1 == 7 && s[7].1 == 8 && s[8].1 == 9 && s[9].1 == 10;
    }
    NumberedFromOne(s);
  }
}
