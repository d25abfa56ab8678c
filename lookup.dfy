/**
 * Linear interpolation in a manufacturer's table. The table maps a
 * diameter to a row of values; a diameter between two keys gets a virtual
 * row blended from the rows of its two neighbouring keys, and a diameter
 * outside the keys gets the row of the nearest end.
 */
module Lookup {
  import opened Common

  type Row = seq<real>

  /** The table as a dictionary: its (diameter, row) entries, one per diameter. */
  type Table = seq<(real, Row)>

  /** The diameters of the table, in entry order. */
  function Keys(table: Table): seq<real> {
    seq(|table|, i requires 0 <= i < |table| => table[i].0)
  }

  /** A dictionary lists each key once. */
  ghost predicate Distinct(ks: seq<real>) {
    forall i, j :: 0 <= i < j < |ks| ==> ks[i] != ks[j]
  }

  /** `table[key]`: the row of the entry for `key`. */
  function RowOf(table: Table, key: real): (row: Row)
    requires key in Keys(table)
    ensures exists i :: 0 <= i < |table| && table[i] == (key, row)
  {
    if table[0].0 == key then table[0].1
    else
      assert Keys(table)[1..] == Keys(table[1..]);
      var row := RowOf(table[1..], key);
      assert forall i :: 0 <= i < |table| - 1 ==> table[1..][i] == table[i + 1];
      row
  }

  /** Strictly increasing: the shape of `sorted` applied to distinct keys. */
  ghost predicate Increasing(s: seq<real>) {
    forall i, j :: 0 <= i < j < |s| ==> s[i] < s[j]
  }

  /** Insert a key missing from an increasing list at its place. */
  function InsertKey(x: real, s: seq<real>): (r: seq<real>)
    requires Increasing(s) && x !in s
    ensures Increasing(r) && |r| == |s| + 1
    ensures multiset(r) == multiset(s) + multiset{x}
    ensures r[0] == if |s| == 0 || x < s[0] then x else s[0]
  {
    if |s| == 0 || x < s[0] then
      PrependIncreasing(x, s);
      [x] + s
    else
      TailIncreasing(s);
      assert x != s[0];
      var rest := InsertKey(x, s[1..]);
      PrependIncreasing(s[0], rest);
      [s[0]] + rest
  }

  /** The tail of an increasing list is increasing and lies above its head. */
  lemma TailIncreasing(s: seq<real>)
    requires Increasing(s) && |s| > 0
    ensures Increasing(s[1..]) && s == [s[0]] + s[1..]
    ensures |s| > 1 ==> s[0] < s[1]
  {
    var t := s[1..];
    forall i, j | 0 <= i < j < |t| ensures t[i] < t[j] {
      assert t[i] == s[i + 1] && t[j] == s[j + 1];
    }
  }

  /** Putting a key below the first of an increasing list keeps it increasing. */
  lemma PrependIncreasing(x: real, s: seq<real>)
    requires Increasing(s) && (|s| > 0 ==> x < s[0])
    ensures Increasing([x] + s)
  {
    var r := [x] + s;
    forall i, j | 0 <= i < j < |r| ensures r[i] < r[j] {
      if i == 0 {
        assert r[j] == s[j - 1] && s[0] <= s[j - 1];
      } else {
        assert r[i] == s[i - 1] && r[j] == s[j - 1];
      }
    }
  }

  /** `sorted(table.keys())`. */
  function SortedKeys(ks: seq<real>): (r: seq<real>)
    requires Distinct(ks)
    ensures Increasing(r)
    ensures multiset(r) == multiset(ks)
  {
    if |ks| == 0 then []
    else
      assert ks == [ks[0]] + ks[1..];
      var rest := SortedKeys(ks[1..]);
      assert ks[0] !in multiset(ks[1..]);
      InsertKey(ks[0], rest)
  }

  /**
   * `bisect.bisect_left`: on an increasing list, the number of entries below
   * `v`, which is also where `v` would be inserted before any equal entry.
   */
  function BisectLeft(s: seq<real>, v: real): (i: nat)
    ensures i <= |s|
    ensures Increasing(s) ==> forall j :: 0 <= j < i ==> s[j] < v
    ensures Increasing(s) ==> forall j :: i <= j < |s| ==> v <= s[j]
  {
    if |s| == 0 || v <= s[0] then 0
    else
      var i := BisectLeft(s[1..], v);
      assert forall j :: 1 <= j < |s| ==> s[j] == s[1..][j - 1];
      i + 1
  }

  /**
   * The virtual row: the pairwise blend `l * w + u * (1 - w)` of the two
   * rows, as long as the shorter one.
   */
  function Blend(lower: Row, upper: Row, w: real): (r: Row)
    ensures |r| == Min(|lower|, |upper|)
    ensures forall i :: 0 <= i < |r| ==> r[i] - upper[i] == w * (lower[i] - upper[i])
  {
    seq(Min(|lower|, |upper|), i requires 0 <= i < Min(|lower|, |upper|) => lower[i] * w + upper[i] * (1.0 - w))
  }

  /**
   * `interpolate_lookup`: the first row when the value is at or below the
   * smallest key (IndexError on an empty table), the last row when it is above
   * the largest key, and otherwise the blend of the rows of the largest key
   * below the value and the smallest key at or above it, weighted by how
   * close the value lies to each.
   */
  function InterpolateLookup(table: Table, value: real): (r: Result<Row, PyError>)
    requires Distinct(Keys(table))
    ensures r.Failure? <==> |table| == 0
    ensures r.Failure? ==> r.error == IndexError
  {
    var ds := SortedKeys(Keys(table));
    assert |ds| == |table| by {
      assert |multiset(ds)| == |multiset(Keys(table))|;
    }
    LookupSorted(table, ds, value)
  }

  /** The body of `interpolate_lookup` once the keys are sorted into `ds`. */
  function LookupSorted(table: Table, ds: seq<real>, value: real): (r: Result<Row, PyError>)
    requires Increasing(ds) && multiset(ds) == multiset(Keys(table))
    ensures r.Failure? <==> |ds| == 0
    ensures r.Failure? ==> r.error == IndexError
  {
    var index := BisectLeft(ds, value);
    if index == 0 then
      if |ds| == 0 then Failure(IndexError)
      else
        assert ds[0] in multiset(ds);
        Success(RowOf(table, ds[0]))
    else if index == |ds| then
      assert ds[|ds| - 1] in multiset(ds);
      Success(RowOf(table, ds[|ds| - 1]))
    else
      var lower := ds[index - 1];
      var upper := ds[index];
      assert lower in multiset(ds) && upper in multiset(ds);
      var w := (upper - value) / (upper - lower);
      Success(Blend(RowOf(table, lower), RowOf(table, upper), w))
  }

  // ------------------------------------------------------------------------
  // What a lookup returns

  /** A key is found in any rearrangement `ds` of the keys, at some index. */
  lemma IndexOfKey(ks: seq<real>, ds: seq<real>, key: real) returns (i: nat)
    requires multiset(ds) == multiset(ks) && key in ks
    ensures i < |ds| && ds[i] == key
  {
    assert key in multiset(ks);
    assert key in ds;
    i :| 0 <= i < |ds| && ds[i] == key;
  }

  /** Every entry of a rearrangement `ds` of the keys is a key. */
  lemma RearrangedIsKey(ks: seq<real>, ds: seq<real>, i: nat)
    requires multiset(ds) == multiset(ks) && i < |ds|
    ensures ds[i] in ks
  {
    assert ds[i] in multiset(ds);
  }

  /** In increasing order the smallest key comes first. */
  lemma LeastFirst(ks: seq<real>, ds: seq<real>, least: real)
    requires Increasing(ds) && multiset(ds) == multiset(ks)
    requires least in ks && forall k :: k in ks ==> least <= k
    ensures |ds| > 0 && ds[0] == least
  {
    var i := IndexOfKey(ks, ds, least);
    RearrangedIsKey(ks, ds, 0);
    assert ds[0] <= ds[i];
  }

  /** In increasing order the largest key comes last. */
  lemma GreatestLast(ks: seq<real>, ds: seq<real>, greatest: real)
    requires Increasing(ds) && multiset(ds) == multiset(ks)
    requires greatest in ks && forall k :: k in ks ==> k <= greatest
    ensures |ds| > 0 && ds[|ds| - 1] == greatest
  {
    var j := IndexOfKey(ks, ds, greatest);
    RearrangedIsKey(ks, ds, |ds| - 1);
    assert ds[j] <= ds[|ds| - 1];
  }

  /**
   * Two keys `lo < hi` with no key strictly between them sit next to each
   * other in increasing order.
   */
  lemma NeighbourIndex(ks: seq<real>, ds: seq<real>, lo: real, hi: real) returns (k: nat)
    requires Increasing(ds) && multiset(ds) == multiset(ks)
    requires lo in ks && hi in ks && lo < hi
    requires forall key :: key in ks ==> key <= lo || hi <= key
    ensures 0 < k < |ds| && ds[k - 1] == lo && ds[k] == hi
  {
    var i := IndexOfKey(ks, ds, lo);
    var j := IndexOfKey(ks, ds, hi);
    assert i < j;
    RearrangedIsKey(ks, ds, i + 1);
    assert hi <= ds[i + 1];
    assert j <= i + 1;
    k := j;
  }

  /** Over sorted keys, a value at or below the first key `least` gets its row. */
  lemma LookupSortedBelow(table: Table, ds: seq<real>, value: real, least: real)
    requires Increasing(ds) && multiset(ds) == multiset(Keys(table))
    requires least in Keys(table) && |ds| > 0 && ds[0] == least && value <= least
    ensures LookupSorted(table, ds, value) == Success(RowOf(table, least))
  {
    assert BisectLeft(ds, value) == 0;
  }

  /** Over sorted keys, a value above the last key `greatest` gets its row. */
  lemma LookupSortedAbove(table: Table, ds: seq<real>, value: real, greatest: real)
    requires Increasing(ds) && multiset(ds) == multiset(Keys(table))
    requires greatest in Keys(table) && |ds| > 0 && ds[|ds| - 1] == greatest && greatest < value
    ensures LookupSorted(table, ds, value) == Success(RowOf(table, greatest))
  {
    assert BisectLeft(ds, value) == |ds|;
  }

  /** Over sorted keys, a value in `(lo, hi]` for consecutive keys `lo`, `hi` blends their rows. */
  lemma LookupSortedBetween(table: Table, ds: seq<real>, value: real, k: nat, lo: real, hi: real)
    requires Increasing(ds) && multiset(ds) == multiset(Keys(table))
    requires lo in Keys(table) && hi in Keys(table)
    requires 0 < k < |ds| && ds[k - 1] == lo && ds[k] == hi && lo < value <= hi
    ensures LookupSorted(table, ds, value) ==
      Success(Blend(RowOf(table, lo), RowOf(table, hi), (hi - value) / (hi - lo)))
  {
    var index := BisectLeft(ds, value);
    assert index == k;
    assert ds[index - 1] == lo && ds[index] == hi;
  }

  /** A value at or below the smallest key gets that key's row unchanged. */
  lemma LookupBelowKeys(table: Table, value: real, least: real)
    requires Distinct(Keys(table))
    requires least in Keys(table) && value <= least
    requires forall k :: k in Keys(table) ==> least <= k
    ensures InterpolateLookup(table, value) == Success(RowOf(table, least))
  {
    var ds := SortedKeys(Keys(table));
    LeastFirst(Keys(table), ds, least);
    LookupSortedBelow(table, ds, value, least);
  }

  /** A value above the largest key gets that key's row unchanged. */
  lemma LookupAboveKeys(table: Table, value: real, greatest: real)
    requires Distinct(Keys(table))
    requires greatest in Keys(table) && greatest < value
    requires forall k :: k in Keys(table) ==> k <= greatest
    ensures InterpolateLookup(table, value) == Success(RowOf(table, greatest))
  {
    var ds := SortedKeys(Keys(table));
    GreatestLast(Keys(table), ds, greatest);
    LookupSortedAbove(table, ds, value, greatest);
  }

  /** `lo < hi` are keys of the table with no key strictly between them. */
  ghost predicate Neighbours(table: Table, lo: real, hi: real) {
    && lo in Keys(table) && hi in Keys(table) && lo < hi
    && forall k :: k in Keys(table) ==> k <= lo || hi <= k
  }

  /** Between two neighbouring keys the lookup blends their rows. */
  lemma LookupNeighbours(table: Table, value: real, lo: real, hi: real)
    requires Distinct(Keys(table)) && Neighbours(table, lo, hi) && lo < value <= hi
    ensures InterpolateLookup(table, value) == Success(Blend(RowOf(table, lo), RowOf(table, hi), (hi - value) / (hi - lo)))
  {
    var ds := SortedKeys(Keys(table));
    var k := NeighbourIndex(Keys(table), ds, lo, hi);
    LookupSortedBetween(table, ds, value, k, lo, hi);
  }

  /**
   * Between two neighbouring keys `lo < value <= hi` (no key lies strictly
   * between them) the result blends their rows with the weight of `lo`
   * being `(hi - value) / (hi - lo)`, which lies in [0, 1), and in (0, 1)
   * when `value` is not `hi` itself.
   */
  lemma LookupBetweenKeys(table: Table, value: real, lo: real, hi: real)
    requires Distinct(Keys(table)) && Neighbours(table, lo, hi) && lo < value <= hi
    ensures var w := (hi - value) / (hi - lo);
      && 0.0 <= w < 1.0
      && (value < hi ==> 0.0 < w)
      && InterpolateLookup(table, value) == Success(Blend(RowOf(table, lo), RowOf(table, hi), w))
  {
    LookupNeighbours(table, value, lo, hi);
    WeightInRange(value, lo, hi);
  }

  /** The weight of the lower key as the value moves from `lo` to `hi`. */
  lemma WeightInRange(value: real, lo: real, hi: real)
    requires lo < value <= hi
    ensures 0.0 <= (hi - value) / (hi - lo) < 1.0
    ensures value < hi ==> 0.0 < (hi - value) / (hi - lo)
  {
    var d := hi - lo;
    var w := (hi - value) / d;
    assert w * d == hi - value;
    assert (w - 1.0) * d == lo - value;
    SignOfQuotient(w - 1.0, d);
    SignOfQuotient(w, d);
  }

  /** A product with a positive factor has the sign of the other factor. */
  lemma SignOfQuotient(a: real, d: real)
    requires d > 0.0
    ensures a * d < 0.0 ==> a < 0.0
    ensures a * d > 0.0 ==> a > 0.0
    ensures a * d >= 0.0 ==> a >= 0.0
  {
  }

  /** A value equal to a key above the smallest one gets that key's row (cut to its neighbour's length), with weight 0 on the lower row. */
  lemma LookupAtKey(table: Table, lo: real, hi: real)
    requires Distinct(Keys(table)) && Neighbours(table, lo, hi)
    ensures var row := RowOf(table, hi); var n := Min(|RowOf(table, lo)|, |row|);
      InterpolateLookup(table, hi) == Success(row[..n])
  {
    var lower, upper := RowOf(table, lo), RowOf(table, hi);
    assert InterpolateLookup(table, hi) == Success(Blend(lower, upper, 0.0)) by {
      LookupNeighbours(table, hi, lo, hi);
      NoWeightAtUpper(lo, hi);
    }
    BlendAtZero(lower, upper);
  }

  /** At the upper key the lower key's weight is zero. */
  lemma NoWeightAtUpper(lo: real, hi: real)
    requires lo < hi
    ensures (hi - hi) / (hi - lo) == 0.0
  {
  }

  /** With weight 0 on the lower row the blend is the upper row, cut to the shorter length. */
  lemma BlendAtZero(lower: Row, upper: Row)
    ensures Blend(lower, upper, 0.0) == upper[..Min(|lower|, |upper|)]
  {
    var r := Blend(lower, upper, 0.0);
    forall i | 0 <= i < |r| ensures r[i] == upper[i] {
      assert r[i] - upper[i] == 0.0 * (lower[i] - upper[i]);
    }
  }

  /** Scaling a difference by a weight in [0, 1] stays between zero and the difference. */
  lemma ScaledBetween(w: real, d: real)
    requires 0.0 <= w <= 1.0
    ensures d <= 0.0 ==> d <= w * d <= 0.0
    ensures 0.0 <= d ==> 0.0 <= w * d <= d
  {
    assert w * d - d == (w - 1.0) * d;
  }

  /**
   * With a weight in [0, 1] every blended component lies between the two
   * neighbouring rows' components.
   */
  lemma BlendBetween(lower: Row, upper: Row, w: real)
    requires 0.0 <= w <= 1.0
    ensures forall i :: 0 <= i < |Blend(lower, upper, w)| ==>
      Between(Blend(lower, upper, w)[i], lower[i], upper[i])
  {
    var r := Blend(lower, upper, w);
    forall i | 0 <= i < |r|
      ensures Between(r[i], lower[i], upper[i])
    {
      ComponentBetween(r[i], lower[i], upper[i], w);
    }
  }

  /** One blended component `v` with `v - u == w * (l - u)` lies between `l` and `u`. */
  lemma ComponentBetween(v: real, l: real, u: real, w: real)
    requires 0.0 <= w <= 1.0 && v - u == w * (l - u)
    ensures Between(v, l, u)
  {
    var d := l - u;
    ScaledBetween(w, d);
    assert v - u == w * d;
    if l <= u {
      assert d <= 0.0;
    } else {
      assert 0.0 <= d;
    }
  }

  /** `v` lies between `a` and `b`, whichever is larger. */
  predicate Between(v: real, a: real, b: real) {
    (a <= b ==> a <= v <= b) && (b <= a ==> b <= v <= a)
  }
}
