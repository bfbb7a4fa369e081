/**
 Python dictionaries keep insertion order, and re-assigning a key keeps its
 place. `Put` is one assignment; `Normal` is a dictionary filled from a history
 of assignments. The order-free reading of the result (`FirstKeys`, `Latest`)
 is defined separately and the two are proved equal.
 */
module OrderedDict {

  datatype Entry<+K, +V> = Entry(key: K, value: V)

  /** One assignment `d[e.key] = e.value`. */
  function Put<K(==), V>(d: seq<Entry<K, V>>, e: Entry<K, V>): seq<Entry<K, V>> {
    if d == [] then [e]
    else if d[0].key == e.key then [e] + d[1..]
    else [d[0]] + Put(d[1..], e)
  }

  /** The dictionary obtained by performing a history of assignments on an empty one. */
  function Normal<K(==), V>(es: seq<Entry<K, V>>): seq<Entry<K, V>> {
    if es == [] then [] else Put(Normal(es[..|es| - 1]), es[|es| - 1])
  }

  ghost predicate Has<K(!new), V>(es: seq<Entry<K, V>>, k: K) {
    exists i :: 0 <= i < |es| && es[i].key == k
  }

  ghost predicate Distinct<K(!new), V>(d: seq<Entry<K, V>>) {
    forall i, j :: 0 <= i < j < |d| ==> d[i].key != d[j].key
  }

  /** The distinct keys of a history, in order of first appearance. */
  function FirstKeys<K(==), V>(es: seq<Entry<K, V>>): seq<K> {
    if es == [] then []
    else
      var ks := FirstKeys(es[..|es| - 1]);
      var k := es[|es| - 1].key;
      if k in ks then ks else ks + [k]
  }

  /** The value most recently assigned to `k`. */
  ghost function Latest<K(!new), V>(es: seq<Entry<K, V>>, k: K): V
    requires Has(es, k)
  {
    if es[|es| - 1].key == k then es[|es| - 1].value
    else
      assert Has(es[..|es| - 1], k) by {
        var i :| 0 <= i < |es| && es[i].key == k;
        assert es[..|es| - 1][i].key == k;
      }
      Latest(es[..|es| - 1], k)
  }

  lemma {:induction false} FirstKeysAreTheKeys<K(!new), V>(es: seq<Entry<K, V>>, k: K)
    ensures k in FirstKeys(es) <==> Has(es, k)
  {
    if es != [] {
      var init := es[..|es| - 1];
      FirstKeysAreTheKeys(init, k);
      if Has(init, k) {
        var i :| 0 <= i < |init| && init[i].key == k;
        assert es[i].key == k;
      }
      if Has(es, k) && es[|es| - 1].key != k {
        var i :| 0 <= i < |es| && es[i].key == k;
        assert init[i].key == k;
      }
      if es[|es| - 1].key == k {
        assert Has(es, k);
      }
    }
  }

  /** `Put` either overwrites the one entry with that key, in place, or appends. */
  lemma {:induction false} PutShape<K(!new), V>(d: seq<Entry<K, V>>, e: Entry<K, V>)
    requires Distinct(d)
    ensures !Has(d, e.key) ==> Put(d, e) == d + [e]
    ensures forall i :: 0 <= i < |d| && d[i].key == e.key ==> Put(d, e) == d[i := e]
    ensures Distinct(Put(d, e))
  {
    if d != [] {
      var tail := d[1..];
      assert Distinct(tail);
      PutShape(tail, e);
      if d[0].key == e.key {
        assert Put(d, e) == d[0 := e];
        assert Has(d, e.key);
      } else if Has(d, e.key) {
        var i :| 0 <= i < |d| && d[i].key == e.key;
        assert tail[i - 1].key == e.key;
        assert Put(d, e) == d[i := e];
      } else {
        assert forall i :: 0 <= i < |tail| ==> tail[i] == d[i + 1];
        assert Put(d, e) == d + [e];
      }
    }
  }

  /** The dictionary built by assignments is the table of first-appearance keys and latest values. */
  lemma {:induction false} NormalIsReference<K(!new), V>(es: seq<Entry<K, V>>)
    ensures |Normal(es)| == |FirstKeys(es)| && Distinct(Normal(es))
    ensures forall i :: 0 <= i < |Normal(es)| ==>
                          && Normal(es)[i].key == FirstKeys(es)[i]
                          && Has(es, Normal(es)[i].key)
                          && Normal(es)[i].value == Latest(es, Normal(es)[i].key)
  {
    if es != [] {
      var init, e := es[..|es| - 1], es[|es| - 1];
      NormalIsReference(init);
      FirstKeysAreTheKeys(init, e.key);
      PutShape(Normal(init), e);
      forall k | Has(init, k) ensures Has(es, k) {
        var i :| 0 <= i < |init| && init[i].key == k;
        assert es[i].key == k;
      }
      assert es[|es| - 1].key == e.key;
      if e.key in FirstKeys(init) {
        var i :| 0 <= i < |FirstKeys(init)| && FirstKeys(init)[i] == e.key;
        assert Normal(init)[i].key == e.key;
        assert Normal(es) == Normal(init)[i := e];
      } else {
        assert !Has(Normal(init), e.key);
        assert Normal(es) == Normal(init) + [e];
      }
    }
  }

  // ---- the same, by positions in the history ----

  predicate FirstAt<K(==), V>(es: seq<Entry<K, V>>, p: nat) {
    p < |es| && forall q :: 0 <= q < p ==> es[q].key != es[p].key
  }

  predicate LastAt<K(==), V>(es: seq<Entry<K, V>>, p: nat) {
    p < |es| && forall q :: p < q < |es| ==> es[q].key != es[p].key
  }

  /** The a-th entry is the last assignment to its key, and its key the a-th to appear. */
  ghost predicate Positions<K, V>(es: seq<Entry<K, V>>, d: seq<Entry<K, V>>, first: seq<nat>, last: seq<nat>) {
    && |first| == |last| == |d|
    && (forall a :: 0 <= a < |d| ==> FirstAt(es, first[a]) && es[first[a]].key == d[a].key)
    && (forall a :: 0 <= a < |d| ==> LastAt(es, last[a]) && es[last[a]] == d[a])
    && (forall a, b :: 0 <= a < b < |d| ==> first[a] < first[b])
  }

  lemma {:induction false} NormalByPosition<K(!new), V>(es: seq<Entry<K, V>>)
    returns (first: seq<nat>, last: seq<nat>)
    ensures Positions(es, Normal(es), first, last) && |last| == |Normal(es)| && Distinct(Normal(es))
    ensures forall p :: 0 <= p < |es| ==> Has(Normal(es), es[p].key)
  {
    hide Positions, FirstAt, LastAt;
    if es == [] {
      first, last := [], [];
      NoPositions<K, V>();
    } else {
      var init, e := es[..|es| - 1], es[|es| - 1];
      var d := Normal(init);
      first, last := NormalByPosition(init);
      PutShape(d, e);
      if a :| 0 <= a < |d| && d[a].key == e.key {
        assert Normal(es) == d[a := e];
        PositionsOverwrite(init, d, first, last, e, a);
        last := last[a := |init|];
      } else {
        assert !Has(d, e.key);
        assert Normal(es) == d + [e];
        PositionsAppend(init, d, first, last, e);
        first, last := first + [|init|], last + [|init|];
      }
      assert init + [e] == es;
      KeysKept(init, d, e);
    }
  }

  lemma NoPositions<K(!new), V>()
    ensures Positions<K, V>([], [], [], [])
  {
  }

  lemma PositionsOverwrite<K(!new), V>(
    es: seq<Entry<K, V>>, d: seq<Entry<K, V>>, first: seq<nat>, last: seq<nat>, e: Entry<K, V>, a: nat)
    requires Positions(es, d, first, last) && Distinct(d) && a < |d| && d[a].key == e.key
    ensures Positions(es + [e], d[a := e], first, last[a := |es|])
  {
    var longer := es + [e];
    forall b | 0 <= b < |d| ensures FirstAt(longer, first[b]) {
      assert FirstAt(es, first[b]);
    }
    forall b | 0 <= b < |d| && b != a ensures LastAt(longer, last[b]) && longer[last[b]] == d[b] {
      assert LastAt(es, last[b]) && d[b].key != e.key;
    }
  }

  lemma PositionsAppend<K(!new), V>(
    es: seq<Entry<K, V>>, d: seq<Entry<K, V>>, first: seq<nat>, last: seq<nat>, e: Entry<K, V>)
    requires Positions(es, d, first, last) && forall a :: 0 <= a < |d| ==> d[a].key != e.key
    requires forall p :: 0 <= p < |es| ==> Has(d, es[p].key)
    ensures Positions(es + [e], d + [e], first + [|es|], last + [|es|])
  {
    var longer := es + [e];
    forall b | 0 <= b < |d| ensures FirstAt(longer, first[b]) && LastAt(longer, last[b]) {
      assert FirstAt(es, first[b]) && LastAt(es, last[b]);
    }
    forall p | 0 <= p < |es| ensures es[p].key != e.key {
      assert Has(d, es[p].key);
    }
    assert FirstAt(longer, |es|);
  }

  lemma KeysKept<K(!new), V>(es: seq<Entry<K, V>>, d: seq<Entry<K, V>>, e: Entry<K, V>)
    requires Distinct(d) && forall p :: 0 <= p < |es| ==> Has(d, es[p].key)
    ensures forall p :: 0 <= p < |es + [e]| ==> Has(Put(d, e), (es + [e])[p].key)
  {
    PutShape(d, e);
    forall p | 0 <= p < |es + [e]| ensures Has(Put(d, e), (es + [e])[p].key) {
      if Has(d, e.key) {
        var b :| 0 <= b < |d| && d[b].key == e.key;
        assert Put(d, e)[b].key == e.key;
      } else {
        assert Put(d, e)[|d|].key == e.key;
      }
      if p < |es| {
        var a :| 0 <= a < |d| && d[a].key == es[p].key;
        assert Put(d, e)[a].key == es[p].key;
      }
    }
  }

  lemma {:induction false} LatestAppend<K(!new), V>(a: seq<Entry<K, V>>, b: seq<Entry<K, V>>, k: K)
    requires Has(a, k) || Has(b, k)
    ensures Has(a + b, k)
    ensures Latest(a + b, k) == if Has(b, k) then Latest(b, k) else Latest(a, k)
  {
    if Has(a, k) {
      var i :| 0 <= i < |a| && a[i].key == k;
      assert (a + b)[i].key == k;
    } else {
      var i :| 0 <= i < |b| && b[i].key == k;
      assert (a + b)[|a| + i].key == k;
    }
    if b == [] {
      assert a + b == a;
    } else {
      var init, e := b[..|b| - 1], b[|b| - 1];
      assert (a + b)[..|a + b| - 1] == a + init;
      if e.key != k {
        if Has(b, k) {
          var i :| 0 <= i < |b| && b[i].key == k;
          assert init[i].key == k;
        }
        assert forall i :: 0 <= i < |init| ==> init[i] == b[i];
        LatestAppend(a, init, k);
      } else {
        assert b[|b| - 1].key == k;
      }
    }
  }

  /** Two histories with the same first-appearance keys and the same latest values give one dictionary. */
  lemma {:induction false} SameReading<K(!new), V>(a: seq<Entry<K, V>>, b: seq<Entry<K, V>>)
    requires FirstKeys(a) == FirstKeys(b)
    requires forall k :: Has(a, k) && Has(b, k) ==> Latest(a, k) == Latest(b, k)
    ensures Normal(a) == Normal(b)
  {
    NormalIsReference(a);
    NormalIsReference(b);
    forall i | 0 <= i < |Normal(a)| ensures Normal(a)[i] == Normal(b)[i] {
      var k := Normal(a)[i].key;
      assert Normal(b)[i].key == k && Has(a, k) && Has(b, k);
    }
  }

  lemma {:induction false} FirstKeysAbsorb<K(!new), V>(a: seq<Entry<K, V>>, b: seq<Entry<K, V>>)
    requires forall i :: 0 <= i < |b| ==> Has(a, b[i].key)
    ensures FirstKeys(a + b) == FirstKeys(a)
  {
    if b == [] {
      assert a + b == a;
    } else {
      var init := b[..|b| - 1];
      assert (a + b)[..|a + b| - 1] == a + init;
      FirstKeysAbsorb(a, init);
      FirstKeysAreTheKeys(a, b[|b| - 1].key);
    }
  }

  lemma {:induction false} FirstKeysOnlyKeys<K(!new), V>(a: seq<Entry<K, V>>, b: seq<Entry<K, V>>)
    requires |a| == |b| && forall i :: 0 <= i < |a| ==> a[i].key == b[i].key
    ensures FirstKeys(a) == FirstKeys(b)
  {
    if a != [] {
      FirstKeysOnlyKeys(a[..|a| - 1], b[..|b| - 1]);
    }
  }

  lemma {:induction false} NormalFixed<K(!new), V>(d: seq<Entry<K, V>>)
    requires Distinct(d)
    ensures Normal(d) == d
  {
    if d != [] {
      var init := d[..|d| - 1];
      NormalFixed(init);
      assert !Has(init, d[|d| - 1].key);
      PutShape(init, d[|d| - 1]);
    }
  }

  /** A dictionary may be replaced by its history on the left of a concatenation... */
  lemma {:induction false} NormalLeft<K(!new), V>(a: seq<Entry<K, V>>, b: seq<Entry<K, V>>)
    ensures Normal(Normal(a) + b) == Normal(a + b)
  {
    if b == [] {
      assert a + b == a && Normal(a) + b == Normal(a);
      NormalIsReference(a);
      NormalFixed(Normal(a));
    } else {
      var init := b[..|b| - 1];
      assert (a + b)[..|a + b| - 1] == a + init;
      assert (Normal(a) + b)[..|Normal(a) + b| - 1] == Normal(a) + init;
      NormalLeft(a, init);
    }
  }

  lemma NormalSnoc<K(!new), V>(es: seq<Entry<K, V>>, e: Entry<K, V>)
    ensures Normal(es + [e]) == Put(Normal(es), e)
  {
    assert (es + [e])[..|es + [e]| - 1] == es;
  }

  /** ... and on its right. */
  lemma {:induction false} NormalRight<K(!new), V>(a: seq<Entry<K, V>>, b: seq<Entry<K, V>>)
    ensures Normal(a + Normal(b)) == Normal(a + b)
  {
    if b == [] {
      assert a + Normal(b) == a + b;
    } else {
      hide Normal;
      var init, e := b[..|b| - 1], b[|b| - 1];
      assert b == init + [e];
      NormalRight(a, init);
      NormalRightSnoc(a, init, e);
    }
  }

  lemma NormalRightSnoc<K(!new), V>(a: seq<Entry<K, V>>, init: seq<Entry<K, V>>, e: Entry<K, V>)
    requires Normal(a + Normal(init)) == Normal(a + init)
    ensures Normal(a + Normal(init + [e])) == Normal(a + (init + [e]))
  {
    hide Normal, Put;
    NormalSnoc(a + init, e);
    NormalSnoc(a + Normal(init), e);
    NormalSnoc(init, e);
    AssignLast(a, init, e);
    assert a + init + [e] == a + (init + [e]);
  }

  lemma AssignLast<K(!new), V>(a: seq<Entry<K, V>>, init: seq<Entry<K, V>>, e: Entry<K, V>)
    ensures Normal(a + Put(Normal(init), e)) == Normal(a + Normal(init) + [e])
  {
    hide Normal, Put;
    var d := Normal(init);
    NormalIsReference(init);
    PutShape(d, e);
    if Has(d, e.key) {
      var i :| 0 <= i < |d| && d[i].key == e.key;
      OverwriteInPlace(a, d, i, e);
    } else {
      assert a + (d + [e]) == a + d + [e];
    }
  }

  lemma {:induction false} OverwriteInPlace<K(!new), V>(
    a: seq<Entry<K, V>>, d: seq<Entry<K, V>>, i: nat, e: Entry<K, V>)
    requires Distinct(d) && i < |d| && d[i].key == e.key
    ensures Normal(a + d[i := e]) == Normal(a + d + [e])
  {
    var x, y := a + d[i := e], a + d + [e];
    FirstKeysOnlyKeys(x, a + d);
    assert (a + d)[|a| + i].key == e.key;
    assert Has(a + d, e.key);
    FirstKeysAbsorb(a + d, [e]);
    forall k | Has(x, k) && Has(y, k) ensures Latest(x, k) == Latest(y, k) {
      LatestInPlace(d, i, e, k);
      if Has(a, k) || Has(d[i := e], k) {
        LatestAppend(a, d[i := e], k);
      }
      assert a + d + [e] == a + (d + [e]);
      if Has(a, k) || Has(d + [e], k) {
        LatestAppend(a, d + [e], k);
      }
      HasAppend(a, d[i := e], k);
      HasAppend(a, d + [e], k);
    }
    SameReading(x, y);
  }

  lemma HasAppend<K(!new), V>(a: seq<Entry<K, V>>, b: seq<Entry<K, V>>, k: K)
    ensures Has(a + b, k) <==> Has(a, k) || Has(b, k)
  {
    if Has(a + b, k) {
      var i :| 0 <= i < |a + b| && (a + b)[i].key == k;
      if i < |a| {
        assert a[i].key == k;
      } else {
        assert b[i - |a|].key == k;
      }
    }
    if Has(a, k) {
      var i :| 0 <= i < |a| && a[i].key == k;
      assert (a + b)[i].key == k;
    }
    if Has(b, k) {
      var i :| 0 <= i < |b| && b[i].key == k;
      assert (a + b)[|a| + i].key == k;
    }
  }

  lemma {:induction false} LatestInPlace<K(!new), V>(d: seq<Entry<K, V>>, i: nat, e: Entry<K, V>, k: K)
    requires Distinct(d) && i < |d| && d[i].key == e.key
    ensures Has(d[i := e], k) <==> Has(d + [e], k)
    ensures Has(d[i := e], k) ==> Latest(d[i := e], k) == Latest(d + [e], k)
  {
    var x := d[i := e];
    HasAppend(d, [e], k);
    assert forall j :: 0 <= j < |d| ==> x[j].key == d[j].key;
    assert x[i].key == e.key;
    if Has([e], k) {
      assert [e][0].key == k && k == e.key;
    }
    if Has(d, k) {
      var j :| 0 <= j < |d| && d[j].key == k;
      assert x[j].key == k;
    }
    if Has(x, k) {
      var j :| 0 <= j < |x| && x[j].key == k;
      assert d[j].key == k;
      LatestAt(x, j);
      if k == e.key {
        assert (d + [e])[|d|].key == k;
      } else {
        LatestAppend(d, [e], k);
        LatestAt(d, j);
      }
    }
  }

  lemma {:induction false} LatestAt<K(!new), V>(d: seq<Entry<K, V>>, j: nat)
    requires Distinct(d) && j < |d|
    ensures Has(d, d[j].key) && Latest(d, d[j].key) == d[j].value
  {
    assert d[j].key == d[j].key;
    if j < |d| - 1 {
      assert d[..|d| - 1][j] == d[j];
      LatestAt(d[..|d| - 1], j);
    }
  }
}
