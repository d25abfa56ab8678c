/**
 * The inventory of board features to machine: round holes and oblong
 * slots, collected into plated (PTH) and non-plated (NPTH) buckets. Each
 * bucket is an insertion-ordered map from a diameter to the features of that
 * diameter, in the order they were added.
 */
module Inventory {
  import opened Common
  import opened Operations

  /**
   * The trigonometry `add_hole` relies on, taken as uninterpreted: the
   * bucket and symmetry properties hold whatever these functions are.
   */
  datatype Trig = Trig(pi: real, cos: real -> real, sin: real -> real, sqrt: real -> real)

  /**
   * A round hole, or an oblong slot of width `diameter` whose centre line
   * runs from `coord` (its start) to `end`; `distance` is that line's length.
   */
  datatype Feature =
    | Hole(diameter: Length, coord: Coordinate)
    | Oblong(diameter: Length, coord: Coordinate, end: Coordinate, distance: real)

  /** An insertion-ordered dictionary from diameters to feature lists. */
  datatype Buckets = Buckets(keys: seq<Length>, lists: map<Length, seq<Feature>>)

  /** The empty dictionary `{}`. */
  const Empty := Buckets([], map[])

  /** The keys are listed once each, and exactly the keys of the map are listed. */
  ghost predicate Ordered(b: Buckets) {
    && (forall i, j :: 0 <= i < j < |b.keys| ==> b.keys[i] != b.keys[j])
    && (forall k :: k in b.lists <==> k in b.keys)
  }

  /** Every feature sits in the bucket keyed by its own diameter. */
  ghost predicate KeyedByDiameter(b: Buckets) {
    forall k, i :: k in b.lists && 0 <= i < |b.lists[k]| ==> b.lists[k][i].diameter == k
  }

  /** The square of a length, written out for the distance formula. */
  function Square(v: real): real { v * v }

  /** `Oblong(slitwidth, start, end)`: the distance is the length of the centre line. */
  function MakeOblong(width: Length, start: Coordinate, end: Coordinate, trig: Trig): (f: Feature)
    ensures f.Oblong? && f.diameter == width && f.coord == start && f.end == end
  {
    Oblong(width, start, end, trig.sqrt(Square(start.x - end.x) + Square(start.y - end.y)))
  }

  /** The length of an oblong's centre line does not depend on which end is its start. */
  lemma OblongDistanceSymmetric(width: Length, start: Coordinate, end: Coordinate, trig: Trig)
    ensures MakeOblong(width, start, end, trig).distance == MakeOblong(width, end, start, trig).distance
  {
    assert Square(start.x - end.x) == Square(end.x - start.x);
    assert Square(start.y - end.y) == Square(end.y - start.y);
  }

  /**
   * The feature `add_hole` builds for a pad at `coord` of size
   * `sizeX` x `sizeY` turned by `angle` degrees: a round hole when the two
   * sizes agree (or there is no `sizeY`), otherwise an oblong whose width is
   * the smaller size and whose two centres lie half the difference of the
   * sizes from the pad centre, on either side of it.
   */
  function HoleFor(coord: Coordinate, sizeX: Length, sizeY: Option<Length>, angle: real, trig: Trig): (f: Feature)
    ensures sizeY.None? || sizeY.value == sizeX ==> f == Hole(sizeX, coord)
    ensures sizeY.Some? && sizeY.value != sizeX ==>
      && f.Oblong?
      && f.diameter == Min(sizeX, sizeY.value)
      && f.diameter < Max(sizeX, sizeY.value)
      && f.coord.x + f.end.x == 2.0 * coord.x
      && f.coord.y + f.end.y == 2.0 * coord.y
  {
    if sizeY.None? || sizeX == sizeY.value then Hole(sizeX, coord)
    else
      var width := Min(sizeX, sizeY.value);
      var radius := (Max(sizeX, sizeY.value) - width) as real / 2.0;
      var turn := Turn(sizeX, sizeY.value, angle, trig);
      var dx := radius * trig.cos(turn);
      var dy := radius * trig.sin(turn);
      MakeOblong(width, Coordinate(coord.x + dx, coord.y + dy), Coordinate(coord.x - dx, coord.y - dy), trig)
  }

  /**
   * The direction of an oblong's centre line, in radians: along the longer
   * size, turned back by the pad's angle in degrees (screen coordinates).
   */
  function Turn(sizeX: Length, sizeY: Length, angle: real, trig: Trig): real {
    ((if sizeX < sizeY then 90.0 else 0.0) - angle) * trig.pi / 180.0
  }

  /**
   * With a cosine and sine obeying cos^2 + sin^2 = 1, both centres of an
   * oblong lie exactly half the difference of the two sizes away from the
   * pad centre, whatever the angle.
   */
  lemma OblongCentresAtHalfDifference(coord: Coordinate, sizeX: Length, sizeY: Length, angle: real, trig: Trig)
    requires sizeX != sizeY
    requires forall t :: Square(trig.cos(t)) + Square(trig.sin(t)) == 1.0
    ensures var f := HoleFor(coord, sizeX, Some(sizeY), angle, trig);
      var half := (Max(sizeX, sizeY) - Min(sizeX, sizeY)) as real / 2.0;
      && Square(f.coord.x - coord.x) + Square(f.coord.y - coord.y) == Square(half)
      && Square(f.end.x - coord.x) + Square(f.end.y - coord.y) == Square(half)
  {
    var half := (Max(sizeX, sizeY) - Min(sizeX, sizeY)) as real / 2.0;
    var c, s := trig.cos(Turn(sizeX, sizeY, angle, trig)), trig.sin(Turn(sizeX, sizeY, angle, trig));
    var f := HoleFor(coord, sizeX, Some(sizeY), angle, trig);
    assert f.coord.x - coord.x == half * c && f.coord.y - coord.y == half * s;
    assert f.end.x - coord.x == -(half * c) && f.end.y - coord.y == -(half * s);
    ScaledUnitVector(half, c, s);
  }

  /** A unit vector scaled by `r` has squared length `r^2`. */
  lemma ScaledUnitVector(r: real, c: real, s: real)
    requires Square(c) + Square(s) == 1.0
    ensures Square(r * c) + Square(r * s) == Square(r)
    ensures Square(-(r * c)) + Square(-(r * s)) == Square(r)
  {
    assert Square(r * c) + Square(r * s) == Square(r) * (Square(c) + Square(s));
  }

  /** `setdefault(key, []).append(f)`: a new key goes after all others; an existing key's list grows at its end. */
  function SetDefaultAppend(b: Buckets, key: Length, f: Feature): (r: Buckets)
    requires Ordered(b)
    ensures Ordered(r)
    ensures r.keys == if key in b.lists then b.keys else b.keys + [key]
    ensures key in r.lists && r.lists[key] == (if key in b.lists then b.lists[key] else []) + [f]
    ensures forall k :: k != key ==> (k in r.lists <==> k in b.lists)
    ensures forall k :: k != key && k in b.lists ==> r.lists[k] == b.lists[k]
  {
    if key in b.lists then Buckets(b.keys, b.lists[key := b.lists[key] + [f]])
    else Buckets(b.keys + [key], b.lists[key := [f]])
  }

  /** Appending a feature under its own diameter keeps every bucket keyed by diameter. */
  lemma SetDefaultAppendKeepsKeys(b: Buckets, f: Feature)
    requires Ordered(b) && KeyedByDiameter(b)
    ensures KeyedByDiameter(SetDefaultAppend(b, f.diameter, f))
  {
    var r := SetDefaultAppend(b, f.diameter, f);
    forall k, i | k in r.lists && 0 <= i < |r.lists[k]|
      ensures r.lists[k][i].diameter == k
    {
      if k == f.diameter && i < |r.lists[k]| - 1 {
        assert r.lists[k][i] == b.lists[k][i];
      }
    }
  }

  /** The keys of `ks` that are not in `avoid`, in their order. */
  function KeysNotIn(ks: seq<Length>, avoid: map<Length, seq<Feature>>): (r: seq<Length>)
    ensures forall k :: k in r <==> k in ks && k !in avoid
    ensures (forall i, j :: 0 <= i < j < |ks| ==> ks[i] != ks[j]) ==>
      forall i, j :: 0 <= i < j < |r| ==> r[i] != r[j]
  {
    if |ks| == 0 then []
    else
      var rest := KeysNotIn(ks[1..], avoid);
      assert forall i :: 0 < i < |ks| ==> ks[i] in ks[1..];
      if ks[0] in avoid then rest else [ks[0]] + rest
  }

  /**
   * The kept keys of `ks` are those of its first `m` keys followed by those
   * of the rest: filtering keeps the order of the keys.
   */
  lemma {:induction false} KeysNotInSplit(ks: seq<Length>, avoid: map<Length, seq<Feature>>, m: nat)
    requires m <= |ks|
    ensures KeysNotIn(ks, avoid) == KeysNotIn(ks[..m], avoid) + KeysNotIn(ks[m..], avoid)
  {
    if m > 0 {
      var pre, tail := ks[..m], ks[1..];
      KeysNotInSplit(tail, avoid, m - 1);
      assert pre[1..] == tail[..m - 1];
      assert tail[m - 1..] == ks[m..];
      var a, b := KeysNotIn(tail[..m - 1], avoid), KeysNotIn(ks[m..], avoid);
      assert KeysNotIn(tail, avoid) == a + b;
      assert KeysNotIn(pre, avoid) == if ks[0] in avoid then a else [ks[0]] + a;
      assert KeysNotIn(ks, avoid) == if ks[0] in avoid then a + b else [ks[0]] + (a + b);
      ConcatAssociative([ks[0]], a, b);
    } else {
      assert ks[..m] == [] && ks[m..] == ks;
      assert KeysNotIn(ks[..m], avoid) == [];
    }
  }

  /** Concatenation of key lists is associative. */
  lemma ConcatAssociative(s: seq<Length>, t: seq<Length>, u: seq<Length>)
    ensures s + (t + u) == (s + t) + u
  {
  }

  /** The position of `k` in the list `s` (its first occurrence). */
  function IndexOf(s: seq<Length>, k: Length): (i: nat)
    requires k in s
    ensures i < |s| && s[i] == k
  {
    if s[0] == k then 0 else IndexOf(s[1..], k) + 1
  }

  /** A key is found in the first part of a concatenation, or after all of it. */
  lemma {:induction false} IndexOfConcat(s: seq<Length>, t: seq<Length>, k: Length)
    requires k in s + t
    ensures k in s ==> IndexOf(s + t, k) == IndexOf(s, k)
    ensures k !in s ==> IndexOf(s + t, k) == |s| + IndexOf(t, k)
  {
    if |s| > 0 {
      assert (s + t)[1..] == s[1..] + t;
      if s[0] != k {
        assert k in s[1..] + t;
        IndexOfConcat(s[1..], t, k);
      }
    } else {
      assert s + t == t;
    }
  }

  /**
   * `a.update(b)`: the keys of `a` keep their places, the keys only in `b`
   * follow in `b`'s order, and every key of `b` takes `b`'s list.
   */
  function Update(a: Buckets, b: Buckets): (r: Buckets)
    requires Ordered(a) && Ordered(b)
    ensures Ordered(r)
    ensures |a.keys| <= |r.keys| && r.keys[..|a.keys|] == a.keys
    ensures r.keys == a.keys + KeysNotIn(b.keys, a.lists)
    ensures forall k :: k in r.lists <==> k in a.lists || k in b.lists
    ensures forall k :: k in b.lists ==> r.lists[k] == b.lists[k]
    ensures forall k :: k in a.lists && k !in b.lists ==> r.lists[k] == a.lists[k]
  {
    var extra := KeysNotIn(b.keys, a.lists);
    var r := Buckets(a.keys + extra, a.lists + b.lists);
    assert r.keys[..|a.keys|] == a.keys;
    forall i, j | 0 <= i < j < |r.keys|
      ensures r.keys[i] != r.keys[j]
    {
      if j >= |a.keys| && i < |a.keys| {
        assert r.keys[j] in extra;
      } else if i >= |a.keys| {
        assert r.keys[i] == extra[i - |a.keys|] && r.keys[j] == extra[j - |a.keys|];
      }
    }
    r
  }

  /** Updating the empty dictionary copies the other one, order included. */
  lemma UpdateEmpty(b: Buckets)
    requires Ordered(b)
    ensures Update(Empty, b) == b
  {
    var extra := KeysNotIn(b.keys, map[]);
    KeysNotInNothing(b.keys);
    assert Empty.lists + b.lists == b.lists;
  }

  /** Removing no key leaves the key list as it is. */
  lemma {:induction false} KeysNotInNothing(ks: seq<Length>)
    ensures KeysNotIn(ks, map[]) == ks
  {
    if |ks| > 0 {
      KeysNotInNothing(ks[1..]);
      assert [ks[0]] + ks[1..] == ks;
    }
  }

  /** Updating keeps every bucket keyed by diameter. */
  lemma UpdateKeepsKeys(a: Buckets, b: Buckets)
    requires Ordered(a) && Ordered(b) && KeyedByDiameter(a) && KeyedByDiameter(b)
    ensures KeyedByDiameter(Update(a, b))
  {
  }

  class Inventory {
    /** Plated holes by diameter. */
    var pth: Buckets
    /** Non-plated holes by diameter. */
    var npth: Buckets
    /** The board offset, kept for the machining stage. */
    const offset: Coordinate

    /** Both dictionaries are ordered and hold each feature under its own diameter. */
    ghost predicate Valid()
      reads this
    {
      Ordered(pth) && Ordered(npth) && KeyedByDiameter(pth) && KeyedByDiameter(npth)
    }

    constructor (offset: Coordinate)
      ensures Valid()
      ensures pth == Empty && npth == Empty && this.offset == offset
    {
      pth := Empty;
      npth := Empty;
      this.offset := offset;
    }

    /** `_add_hole`: append the feature under its diameter in the PTH or the NPTH dictionary. */
    method AddFeature(f: Feature, plated: bool)
      requires Valid()
      modifies this
      ensures Valid()
      ensures plated ==> pth == SetDefaultAppend(old(pth), f.diameter, f) && npth == old(npth)
      ensures !plated ==> npth == SetDefaultAppend(old(npth), f.diameter, f) && pth == old(pth)
    {
      if plated {
        SetDefaultAppendKeepsKeys(pth, f);
        pth := SetDefaultAppend(pth, f.diameter, f);
      } else {
        SetDefaultAppendKeepsKeys(npth, f);
        npth := SetDefaultAppend(npth, f.diameter, f);
      }
    }

    /**
     * `add_hole`: build the round hole or the oblong for the pad and file it.
     * The keyword arguments default as in the program: no `size_y` (a round
     * hole), angle 0 and plated.
     */
    method AddHole(coord: Coordinate, sizeX: Length, trig: Trig,
                   sizeY: Option<Length> := None, angle: real := 0.0, plated: bool := true)
      requires Valid()
      modifies this
      ensures Valid()
      ensures var f := HoleFor(coord, sizeX, sizeY, angle, trig);
        && (plated ==> pth == SetDefaultAppend(old(pth), f.diameter, f) && npth == old(npth))
        && (!plated ==> npth == SetDefaultAppend(old(npth), f.diameter, f) && pth == old(pth))
    {
      var f := HoleFor(coord, sizeX, sizeY, angle, trig);
      AddFeature(f, plated);
    }

    /**
     * `get_features`: a fresh dictionary updated with the PTH buckets when
     * the PTH bit is set, then with the NPTH buckets when the NPTH bit is set.
     */
    method GetFeatures(ops: Flags) returns (r: Buckets)
      requires Valid()
      ensures Ordered(r) && KeyedByDiameter(r)
      ensures Selects(ops, PTH) && !Selects(ops, NPTH) ==> r == pth
      ensures !Selects(ops, PTH) && Selects(ops, NPTH) ==> r == npth
      ensures !Selects(ops, PTH) && !Selects(ops, NPTH) ==> r == Empty
      ensures Selects(ops, PTH) && Selects(ops, NPTH) ==> r == Update(pth, npth)
    {
      r := Empty;
      if Selects(ops, PTH) {
        UpdateEmpty(pth);
        r := Update(r, pth);
      }
      if Selects(ops, NPTH) {
        if !Selects(ops, PTH) {
          UpdateEmpty(npth);
        }
        UpdateKeepsKeys(r, npth);
        r := Update(r, npth);
      }
    }
  }

  /**
   * With both bits set, the diameters after the PTH ones are exactly the
   * NPTH-only diameters, and two NPTH-only diameters come out in the order
   * the NPTH dictionary lists them.
   */
  lemma MergedFeatures(pth: Buckets, npth: Buckets)
    requires Ordered(pth) && Ordered(npth)
    ensures var r := Update(pth, npth);
      forall k :: k in r.keys[|pth.keys|..] <==> k in npth.keys && k !in pth.lists
    ensures var r := Update(pth, npth);
      forall x, y :: 0 <= x < y < |npth.keys| && npth.keys[x] !in pth.lists && npth.keys[y] !in pth.lists ==>
        && npth.keys[x] in r.keys && npth.keys[y] in r.keys
        && |pth.keys| <= IndexOf(r.keys, npth.keys[x]) < IndexOf(r.keys, npth.keys[y])
  {
    var r := Update(pth, npth);
    var ks := npth.keys;
    forall x, y | 0 <= x < y < |ks| && ks[x] !in pth.lists && ks[y] !in pth.lists
      ensures ks[x] in r.keys && ks[y] in r.keys
      ensures |pth.keys| <= IndexOf(r.keys, ks[x]) < IndexOf(r.keys, ks[y])
    {
      OrderOfNewKeys(pth, npth, x, y);
    }
  }

  /** The step of `MergedFeatures` for one pair of NPTH-only diameters. */
  lemma OrderOfNewKeys(pth: Buckets, npth: Buckets, x: nat, y: nat)
    requires Ordered(pth) && Ordered(npth)
    requires x < y < |npth.keys| && npth.keys[x] !in pth.lists && npth.keys[y] !in pth.lists
    ensures var r := Update(pth, npth);
      && npth.keys[x] in r.keys && npth.keys[y] in r.keys
      && |pth.keys| <= IndexOf(r.keys, npth.keys[x]) < IndexOf(r.keys, npth.keys[y])
  {
    var r := Update(pth, npth);
    var ks := npth.keys;
    var extra := KeysNotIn(ks, pth.lists);
    KeptKeysKeepOrder(ks, pth.lists, x, y);
    OrderAfterPrefix(pth.keys, extra, ks[x], ks[y]);
  }

  /** Keys in order in `t` and absent from `s` stay in order, after `s`, in `s + t`. */
  lemma OrderAfterPrefix(s: seq<Length>, t: seq<Length>, k1: Length, k2: Length)
    requires k1 in t && k2 in t && k1 !in s && k2 !in s && IndexOf(t, k1) < IndexOf(t, k2)
    ensures k1 in s + t && k2 in s + t
    ensures |s| <= IndexOf(s + t, k1) < IndexOf(s + t, k2)
  {
    IndexOfConcat(s, t, k1);
    IndexOfConcat(s, t, k2);
  }

  /** Two kept keys of a list without repeats keep their order. */
  lemma KeptKeysKeepOrder(ks: seq<Length>, avoid: map<Length, seq<Feature>>, x: nat, y: nat)
    requires forall i, j :: 0 <= i < j < |ks| ==> ks[i] != ks[j]
    requires x < y < |ks| && ks[x] !in avoid && ks[y] !in avoid
    ensures var r := KeysNotIn(ks, avoid);
      ks[x] in r && ks[y] in r && IndexOf(r, ks[x]) < IndexOf(r, ks[y])
  {
    var front := KeysNotIn(ks[..y], avoid);
    var back := KeysNotIn(ks[y..], avoid);
    KeysNotInSplit(ks, avoid, y);
    assert ks[x] in front by {
      assert ks[x] == ks[..y][x];
    }
    assert ks[y] in back by {
      assert ks[y] == ks[y..][0];
    }
    assert ks[y] !in front by {
      assert forall t :: 0 <= t < y ==> ks[..y][t] != ks[y];
    }
    IndexOfConcat(front, back, ks[x]);
    IndexOfConcat(front, back, ks[y]);
  }

  /** A square pad gives a round hole keyed by its size, filed as plated by default. */
  method SquarePadScenario(trig: Trig) returns (inv: Inventory)
    ensures inv.Valid()
    ensures inv.pth.keys == [800_000] && inv.pth.lists[800_000] == [Hole(800_000, Coordinate(1.0, 2.0))]
    ensures inv.npth == Empty
  {
    inv := new Inventory(Coordinate(0.0, 0.0));
    inv.AddHole(Coordinate(1.0, 2.0), 800_000, trig, Some(800_000));
  }

  /**
   * A via as the board processor and the machining tests file it, with only
   * the centre and the diameter: the defaults make it a round hole filed as
   * plated.
   */
  method ViaScenario(coord: Coordinate, d: Length, trig: Trig) returns (inv: Inventory)
    ensures inv.Valid()
    ensures inv.pth.keys == [d] && inv.pth.lists[d] == [Hole(d, coord)]
    ensures inv.npth == Empty
  {
    inv := new Inventory(Coordinate(0.0, 0.0));
    inv.AddHole(coord, d, trig);
  }
}
