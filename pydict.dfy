/**
 * A Python `dict` as its entries in insertion order, and the dict a
 * `{k1: v1, k2: v2, ...}` display builds: each entry is inserted in turn, a
 * repeated key keeps the position of its first occurrence and takes the value
 * of its last one.
 */
module PyDict {

  import opened Wrappers

  /** Entries in insertion (= iteration) order. */
  type Dict<K, V> = seq<(K, V)>

  predicate DistinctKeys<K(==), V>(d: Dict<K, V>)
  {
    forall i, j :: 0 <= i < j < |d| ==> d[i].0 != d[j].0
  }

  /** `k in d` */
  predicate Has<K(==), V>(d: Dict<K, V>, k: K)
  {
    exists i :: 0 <= i < |d| && d[i].0 == k
  }

  /** The position of the first entry for `k`. */
  function IndexOf<K(==), V>(d: Dict<K, V>, k: K): (i: nat)
    requires Has(d, k)
    ensures i < |d| && d[i].0 == k
    ensures forall j :: 0 <= j < i ==> d[j].0 != k
  {
    if d[0].0 == k then 0 else 1 + IndexOf(d[1..], k)
  }

  /** `d[k]` */
  function Get<K(==), V>(d: Dict<K, V>, k: K): V
    requires Has(d, k)
  {
    d[IndexOf(d, k)].1
  }

  /** `d[k] = v` */
  function Insert<K(==), V>(d: Dict<K, V>, k: K, v: V): Dict<K, V>
  {
    if Has(d, k) then d[IndexOf(d, k) := (k, v)] else d + [(k, v)]
  }

  /** The dict a display with entries `display` evaluates to. */
  function FromDisplay<K(==), V>(display: seq<(K, V)>): Dict<K, V>
  {
    if display == [] then []
    else
      var last := display[|display| - 1];
      Insert(FromDisplay(display[..|display| - 1]), last.0, last.1)
  }

  /** `for k in d: if p(k): return k` (None when the loop finishes). */
  function FirstKeyWhere<K(==), V>(d: Dict<K, V>, p: K -> bool): Option<K>
  {
    if d == [] then None
    else if p(d[0].0) then Some(d[0].0)
    else FirstKeyWhere(d[1..], p)
  }

  // ---------------------------------------------------------------------------

  /** The first key satisfying `p`, if any: it satisfies `p` and no earlier key does. */
  lemma {:induction false} FirstKeyWhereSpec<K, V>(d: Dict<K, V>, p: K -> bool)
    ensures FirstKeyWhere(d, p).None? <==> forall i :: 0 <= i < |d| ==> !p(d[i].0)
    ensures FirstKeyWhere(d, p).Some? ==>
      exists i :: 0 <= i < |d| && d[i].0 == FirstKeyWhere(d, p).value && p(d[i].0)
                  && forall j :: 0 <= j < i ==> !p(d[j].0)
  {
    if d != [] && !p(d[0].0) {
      FirstKeyWhereSpec(d[1..], p);
      if FirstKeyWhere(d, p).Some? {
        var i :| 0 <= i < |d[1..]| && d[1..][i].0 == FirstKeyWhere(d, p).value && p(d[1..][i].0)
                 && forall j :: 0 <= j < i ==> !p(d[1..][j].0);
        assert d[i + 1] == d[1..][i];
        forall j | 0 <= j < i + 1 ensures !p(d[j].0) {
          if j > 0 { assert d[j] == d[1..][j - 1]; }
        }
      }
      if forall i :: 0 <= i < |d[1..]| ==> !p(d[1..][i].0) {
        forall i | 0 <= i < |d| ensures !p(d[i].0) {
          if i > 0 { assert d[i] == d[1..][i - 1]; }
        }
      }
    }
  }

  /** `d[k] = v` keeps keys distinct, maps `k` to `v` and leaves every other key alone. */
  lemma InsertSpec<K, V>(d: Dict<K, V>, k: K, v: V)
    requires DistinctKeys(d)
    ensures DistinctKeys(Insert(d, k, v))
    ensures forall k' :: Has(Insert(d, k, v), k') <==> k' == k || Has(d, k')
    ensures Has(Insert(d, k, v), k) && Get(Insert(d, k, v), k) == v
    ensures forall k' :: k' != k && Has(d, k') ==> Get(Insert(d, k, v), k') == Get(d, k')
    ensures forall i :: 0 <= i < |d| ==> Insert(d, k, v)[i].0 == d[i].0
    ensures Has(d, k) ==> |Insert(d, k, v)| == |d|
    ensures !Has(d, k) ==> Insert(d, k, v) == d + [(k, v)]
  {
    var r := Insert(d, k, v);
    forall k' | k' != k && Has(d, k') ensures Has(r, k') && Get(r, k') == Get(d, k') {
      var i := IndexOf(d, k');
      assert r[i] == d[i];
      assert Has(r, k');
      assert IndexOf(r, k') == i;
    }
    forall k' | Has(r, k') ensures k' == k || Has(d, k') {
      var i :| 0 <= i < |r| && r[i].0 == k';
      if i < |d| && r[i] == d[i] { assert d[i].0 == k'; }
    }
    assert Has(r, k) by {
      if Has(d, k) { assert r[IndexOf(d, k)].0 == k; } else { assert r[|d|].0 == k; }
    }
    if Has(d, k) { assert IndexOf(r, k) == IndexOf(d, k); } else { assert IndexOf(r, k) == |d|; }
  }

  /** A display always builds a dict with distinct keys. */
  lemma {:induction false} FromDisplayDistinct<K, V>(display: seq<(K, V)>)
    ensures DistinctKeys(FromDisplay(display))
  {
    if display != [] {
      var last := display[|display| - 1];
      FromDisplayDistinct(display[..|display| - 1]);
      InsertSpec(FromDisplay(display[..|display| - 1]), last.0, last.1);
    }
  }

  /** A key is in the built dict exactly when some entry of the display has it. */
  lemma {:induction false} FromDisplayHas<K, V>(display: seq<(K, V)>, k: K)
    ensures Has(FromDisplay(display), k) <==> Has(display, k)
  {
    if display != [] {
      var init, last := display[..|display| - 1], display[|display| - 1];
      FromDisplayHas(init, k);
      FromDisplayDistinct(init);
      InsertSpec(FromDisplay(init), last.0, last.1);
      if Has(init, k) {
        var i :| 0 <= i < |init| && init[i].0 == k;
        assert display[i] == init[i];
      }
      if Has(display, k) && last.0 != k {
        var i :| 0 <= i < |display| && display[i].0 == k;
        assert init[i] == display[i];
      }
    }
  }

  /** The value of a key is the value of its LAST entry in the display. */
  lemma {:induction false} FromDisplayLastWins<K, V>(display: seq<(K, V)>, i: nat)
    requires i < |display|
    requires forall j :: i < j < |display| ==> display[j].0 != display[i].0
    ensures Has(FromDisplay(display), display[i].0)
    ensures Get(FromDisplay(display), display[i].0) == display[i].1
  {
    var init, last := display[..|display| - 1], display[|display| - 1];
    FromDisplayDistinct(init);
    InsertSpec(FromDisplay(init), last.0, last.1);
    if i < |display| - 1 {
      FromDisplayLastWins(init, i);
    }
  }

  /** Every value of the built dict is the value of some entry of the display. */
  lemma {:induction false} FromDisplayValues<K, V>(display: seq<(K, V)>, k: K)
    requires Has(FromDisplay(display), k)
    ensures exists i :: 0 <= i < |display| && display[i] == (k, Get(FromDisplay(display), k))
  {
    var init, last := display[..|display| - 1], display[|display| - 1];
    FromDisplayDistinct(init);
    InsertSpec(FromDisplay(init), last.0, last.1);
    if k == last.0 {
      assert display[|display| - 1] == (k, Get(FromDisplay(display), k));
    } else {
      FromDisplayValues(init, k);
      var i :| 0 <= i < |init| && init[i] == (k, Get(FromDisplay(init), k));
      assert display[i] == init[i];
    }
  }

  /**
   * Iterating the built dict meets keys in the order of their FIRST occurrence
   * in the display, so the first key satisfying `p` is the key of the first
   * display entry satisfying `p`.
   */
  lemma {:induction false} FromDisplayFirstKey<K, V>(display: seq<(K, V)>, p: K -> bool)
    ensures FirstKeyWhere(FromDisplay(display), p) == FirstKeyWhere(display, p)
  {
    if display != [] {
      var init, last := display[..|display| - 1], display[|display| - 1];
      var d := FromDisplay(init);
      assert display == init + [last];
      FromDisplayFirstKey(init, p);
      FromDisplayDistinct(init);
      FirstKeyAppend(init, last, p);
      FirstKeyUpdate(d, last.0, last.1, p);
      if Has(d, last.0) {
        if FirstKeyWhere(d, p).None? {
          FirstKeyWhereSpec(d, p);
          assert !p(last.0) by { var j := IndexOf(d, last.0); assert !p(d[j].0); }
        }
      } else {
        FirstKeyAppend(d, last, p);
      }
    }
  }

  lemma {:induction false} FirstKeyAppend<K, V>(d: seq<(K, V)>, e: (K, V), p: K -> bool)
    ensures FirstKeyWhere(d + [e], p) ==
      if FirstKeyWhere(d, p).Some? then FirstKeyWhere(d, p)
      else if p(e.0) then Some(e.0) else None
  {
    if d != [] {
      assert (d + [e])[1..] == d[1..] + [e];
      FirstKeyAppend(d[1..], e, p);
    } else {
      assert [e][1..] == [];
    }
  }

  /** Updating the value of an existing key or appending a new one never moves earlier keys. */
  lemma FirstKeyUpdate<K, V>(d: Dict<K, V>, k: K, v: V, p: K -> bool)
    requires DistinctKeys(d)
    ensures Has(d, k) ==> FirstKeyWhere(Insert(d, k, v), p) == FirstKeyWhere(d, p)
    ensures !Has(d, k) ==> FirstKeyWhere(Insert(d, k, v), p) == FirstKeyWhere(d + [(k, v)], p)
  {
    if Has(d, k) {
      SameKeysSameFirst(d, Insert(d, k, v), p);
    }
  }

  lemma {:induction false} SameKeysSameFirst<K, V>(d: Dict<K, V>, e: Dict<K, V>, p: K -> bool)
    requires |d| == |e|
    requires forall i :: 0 <= i < |d| ==> d[i].0 == e[i].0
    ensures FirstKeyWhere(d, p) == FirstKeyWhere(e, p)
  {
    if d != [] {
      SameKeysSameFirst(d[1..], e[1..], p);
    }
  }
}
