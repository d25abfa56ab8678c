/**
 * Cutting tools: their identity, their machining order, their hash, and how a
 * required diameter is matched against the sizes held in stock.
 *
 * The stock lists, the downsizing allowance, the contour router diameter and
 * the largest diameter whose point exits the backing board cleanly are read
 * from the global configuration in the program; here they are parameters.
 */
module CuttingTools {
  import opened Common

  /** The class of a cutting tool. */
  datatype Kind = DrillBit | RouterBit

  /** The class attribute `order`: drill bits are machined before router bits. */
  function Order(k: Kind): (r: nat)
    ensures r == 1 <==> k == DrillBit
    ensures r == 2 <==> k == RouterBit
  {
    match k
    case DrillBit => 1
    case RouterBit => 2
  }

  /** A cutting tool, as far as identity, ordering and stock matching go. */
  datatype Tool = Tool(kind: Kind, diameter: Length)

  /** `__eq__`: same class and same diameter. */
  function Equal(a: Tool, b: Tool): (r: bool)
    ensures r <==> a == b
  {
    a.kind == b.kind && a.diameter == b.diameter
  }

  /** `__lt__`: by class order first, then by ascending diameter. */
  function Less(a: Tool, b: Tool): (r: bool)
    ensures a.kind == b.kind ==> (r <==> a.diameter < b.diameter)
    ensures a.kind != b.kind ==> (r <==> a.kind == DrillBit)
  {
    if Order(a.kind) == Order(b.kind) then a.diameter < b.diameter
    else Order(a.kind) < Order(b.kind)
  }

  lemma LessIrreflexive(a: Tool)
    ensures !Less(a, a)
  {
  }

  lemma LessTransitive(a: Tool, b: Tool, c: Tool)
    requires Less(a, b) && Less(b, c)
    ensures Less(a, c)
  {
  }

  /** Two tools that are not equal are always ordered one way or the other. */
  lemma LessTotal(a: Tool, b: Tool)
    requires !Equal(a, b)
    ensures Less(a, b) || Less(b, a)
    ensures !(Less(a, b) && Less(b, a))
  {
  }

  /** Every drill bit sorts before every router bit, whatever the diameters. */
  lemma DrillsBeforeRouters(d: Length, e: Length)
    ensures Less(Tool(DrillBit, d), Tool(RouterBit, e))
    ensures !Less(Tool(RouterBit, e), Tool(DrillBit, d))
  {
  }

  /**
   * `__hash__`: the hash of the diameter for a drill bit, negated for a router
   * bit. The hash of a Length is taken to be its nanometre count.
   */
  function Hash(t: Tool): (h: int)
    ensures t.kind == RouterBit ==> h <= 0
    ensures t.kind == DrillBit ==> h == t.diameter
    ensures t.kind == RouterBit ==> h == -t.diameter || h == t.diameter
  {
    match t.kind
    case DrillBit => t.diameter
    case RouterBit => if t.diameter < 0 then t.diameter else -t.diameter
  }

  /** Equal tools hash equally; a router and a drill of one diameter hash apart unless it is zero. */
  lemma HashAgreesWithEquality(a: Tool, b: Tool)
    requires Equal(a, b)
    ensures Hash(a) == Hash(b)
  {
  }

  lemma HashSeparatesKinds(d: Length)
    requires d > 0
    ensures Hash(Tool(DrillBit, d)) != Hash(Tool(RouterBit, d))
  {
  }

  // ------------------------------------------------------------------------
  // Stock matching

  /** The stock sizes per tool class (`stock["drillbits"]`, `stock["routerbits"]`). */
  datatype Stock = Stock(drills: seq<Length>, routers: seq<Length>)

  function StockOf(stock: Stock, k: Kind): seq<Length> {
    match k
    case DrillBit => stock.drills
    case RouterBit => stock.routers
  }

  /** The configuration values `request` reads. */
  datatype Settings = Settings(
    downsizingPercent: real,   // gs.downsizing_allowance_percent
    contourRouter: Length,     // gs.router_diameter_for_contour
    cleanExitMax: real)        // MAX_DRILLBIT_DIAMETER_FOR_CLEAN_EXIT, in nanometres

  /** The smallest acceptable size: `v - v * down / 100`. */
  function LowerBound(v: Length, down: real): real {
    v as real - v as real * down / 100.0
  }

  /**
   * A stock size `s` the search may pick for a required diameter `v`: it is not
   * larger than `v`, not below the downsizing bound, and closer to `v` than `v`
   * itself is to zero (so it is positive).
   */
  predicate Candidate(s: Length, v: Length, down: real) {
    0 < s <= v && LowerBound(v, down) <= s as real
  }

  /** The reference answer of the stock search: the largest candidate in the stock. */
  function BestCandidate(stock: seq<Length>, v: Length, down: real): (r: Option<Length>)
    ensures r.Some? ==> r.value in stock && Candidate(r.value, v, down)
    ensures r.Some? ==> forall s :: s in stock && Candidate(s, v, down) ==> s <= r.value
    ensures r.None? <==> forall s :: s in stock ==> !Candidate(s, v, down)
  {
    if |stock| == 0 then None
    else
      var rest := BestCandidate(stock[1..], v, down);
      assert forall s :: s in stock ==> s == stock[0] || s in stock[1..];
      if Candidate(stock[0], v, down) && (rest.None? || rest.value < stock[0]) then Some(stock[0])
      else rest
  }

  /** `get_from_stock` as a value: the best candidate made into a tool of class `k`. */
  function Nearest(k: Kind, stock: seq<Length>, v: Length, down: real): (r: Option<Tool>)
    ensures r.Some? ==> r.value.kind == k && r.value.diameter in stock
    ensures r.Some? ==> Candidate(r.value.diameter, v, down) && r.value.diameter <= v
    ensures r.None? <==> forall s :: s in stock ==> !Candidate(s, v, down)
  {
    match BestCandidate(stock, v, down)
    case None => None
    case Some(s) => Some(Tool(k, s))
  }

  /** An exact stock size is always found when it is positive. */
  lemma NearestExact(k: Kind, stock: seq<Length>, v: Length, down: real)
    requires v in stock && 0 < v && 0.0 <= down
    ensures Nearest(k, stock, v, down) == Some(Tool(k, v))
  {
    assert v as real * down / 100.0 >= 0.0;
    assert Candidate(v, v, down);
  }

  predicate SortedDescending(s: seq<Length>) {
    forall i, j :: 0 <= i < j < |s| ==> s[i] >= s[j]
  }

  function InsertDescending(x: Length, s: seq<Length>): (r: seq<Length>)
    requires SortedDescending(s)
    ensures SortedDescending(r)
    ensures multiset(r) == multiset(s) + multiset{x}
    ensures |r| == |s| + 1
    ensures r[0] == if |s| == 0 || x >= s[0] then x else s[0]
  {
    if |s| == 0 then [x]
    else if x >= s[0] then [x] + s
    else
      assert s == [s[0]] + s[1..];
      [s[0]] + InsertDescending(x, s[1..])
  }

  /** `reversed(sorted(s))`. */
  function SortDescending(s: seq<Length>): (r: seq<Length>)
    ensures SortedDescending(r)
    ensures multiset(r) == multiset(s)
  {
    if |s| == 0 then []
    else
      assert s == [s[0]] + s[1..];
      InsertDescending(s[0], SortDescending(s[1..]))
  }

  /**
   * `get_from_stock`: walk the stock from the largest size down, skip sizes
   * larger than `v`, stop at the first size below the downsizing bound, and
   * keep the size closest to `v`, stopping early on an exact match.
   * (`allow_bigger` is read from the class, where it is always False.)
   */
  method GetFromStock(k: Kind, stock: seq<Length>, v: Length, down: real) returns (r: Option<Tool>)
    ensures r == Nearest(k, stock, v, down)
  {
    var sizes := SortDescending(stock);
    SameElements(sizes, stock);
    var minSoFar := v;
    var nearest: Option<Length> := None;
    ghost var at := 0;
    var lower := LowerBound(v, down);
    var i := 0;
    while i < |sizes|
      invariant 0 <= i <= |sizes|
      invariant nearest.None? ==> minSoFar == v && NoCandidateBefore(sizes, i, v, down)
      invariant nearest.Some? ==> at < i && FirstCandidateAt(sizes, at, v, down)
      invariant nearest.Some? ==> nearest.value == sizes[at] && minSoFar == v - sizes[at]
    {
      var s := sizes[i];
      if s > v {
        i := i + 1;
        continue;
      }
      if (s as real) < lower {
        if nearest.None? {
          BelowBoundEndsSearch(sizes, i, v, down);
        }
        break;
      }
      var diff := if v - s < 0 then s - v else v - s;
      if nearest.Some? {
        assert sizes[at] >= s;
      }
      if diff < minSoFar {
        minSoFar := diff;
        at := i;
        nearest := Some(s);
        if minSoFar == 0 {
          break;
        }
      }
      i := i + 1;
    }
    if nearest.Some? {
      FirstCandidateIsBest(stock, sizes, at, v, down);
    } else {
      NoCandidateIsNone(stock, sizes, v, down);
    }
    r := if nearest.Some? then Some(Tool(k, nearest.value)) else None;
  }

  /** No size before index `i` is a candidate. */
  ghost predicate NoCandidateBefore(sizes: seq<Length>, i: int, v: Length, down: real) {
    forall j :: 0 <= j < i && j < |sizes| ==> !Candidate(sizes[j], v, down)
  }

  /** The size at `at` is the first candidate of the list. */
  ghost predicate FirstCandidateAt(sizes: seq<Length>, at: int, v: Length, down: real) {
    0 <= at < |sizes| && Candidate(sizes[at], v, down) && NoCandidateBefore(sizes, at, v, down)
  }

  /** In a descending list the first candidate is the largest one, hence the reference answer. */
  lemma FirstCandidateIsBest(stock: seq<Length>, sizes: seq<Length>, at: int, v: Length, down: real)
    requires forall x :: x in sizes <==> x in stock
    requires SortedDescending(sizes) && FirstCandidateAt(sizes, at, v, down)
    ensures BestCandidate(stock, v, down) == Some(sizes[at])
  {
    assert sizes[at] in stock;
    var b := BestCandidate(stock, v, down).value;
    assert b in sizes;
    var j :| 0 <= j < |sizes| && sizes[j] == b;
    assert Candidate(sizes[j], v, down);
    assert at <= j;
    assert sizes[j] <= sizes[at];
  }

  /** With no candidate in the list there is none in the stock. */
  lemma NoCandidateIsNone(stock: seq<Length>, sizes: seq<Length>, v: Length, down: real)
    requires forall x :: x in sizes <==> x in stock
    requires NoCandidateBefore(sizes, |sizes|, v, down)
    ensures BestCandidate(stock, v, down).None?
  {
    forall s | s in stock ensures !Candidate(s, v, down) {
      assert s in sizes;
      var j :| 0 <= j < |sizes| && sizes[j] == s;
    }
  }

  /** Sizes after a size below the downsizing bound are all below it too. */
  lemma BelowBoundEndsSearch(sizes: seq<Length>, i: nat, v: Length, down: real)
    requires SortedDescending(sizes) && i < |sizes|
    requires (sizes[i] as real) < LowerBound(v, down)
    ensures forall j :: i <= j < |sizes| ==> !Candidate(sizes[j], v, down)
  {
  }

  /** Sequences with equal multisets hold the same elements. */
  lemma SameElements(a: seq<Length>, b: seq<Length>)
    requires multiset(a) == multiset(b)
    ensures forall x :: x in a <==> x in b
  {
    forall x ensures x in a <==> x in b {
      assert x in a <==> x in multiset(a);
      assert x in b <==> x in multiset(b);
    }
  }

  /**
   * `get_stock_size_range`: the smallest and the largest stock size
   * (`sorted(...)[0]` and `[-1]`); an empty stock raises IndexError.
   */
  function StockSizeRange(stock: seq<Length>): (r: Result<(Length, Length), PyError>)
    ensures |stock| == 0 <==> r == Failure(IndexError)
    ensures r.Success? ==> r.value.0 in stock && r.value.1 in stock
    ensures r.Success? ==> forall s :: s in stock ==> r.value.0 <= s <= r.value.1
  {
    var sorted := SortDescending(stock);
    if |sorted| == 0 then
      assert |stock| == 0 by {
        assert |multiset(stock)| == |multiset(sorted)|;
      }
      Failure(IndexError)
    else
      SameElements(sorted, stock);
      assert sorted[0] in sorted && sorted[|sorted| - 1] in sorted;
      assert forall s :: s in stock ==> sorted[|sorted| - 1] <= s <= sorted[0] by {
        forall s | s in stock ensures sorted[|sorted| - 1] <= s <= sorted[0] {
          assert s in sorted;
          var j :| 0 <= j < |sorted| && sorted[j] == s;
        }
      }
      Success((sorted[|sorted| - 1], sorted[0]))
  }

  /**
   * `route_holes`: use the contour router when it is not larger than the
   * hole, else the nearest stock router for the hole's diameter, else nothing.
   */
  function RouteHoles(d: Length, stock: Stock, cfg: Settings): (r: Option<Tool>)
    ensures r.Some? ==> r.value.kind == RouterBit && r.value.diameter <= d
    ensures cfg.contourRouter <= d ==> r == Some(Tool(RouterBit, cfg.contourRouter))
    ensures cfg.contourRouter > d && r.Some? ==>
      r.value.diameter in stock.routers && Candidate(r.value.diameter, d, cfg.downsizingPercent)
    ensures cfg.contourRouter > d && r.None? ==>
      forall s :: s in stock.routers ==> !Candidate(s, d, cfg.downsizingPercent)
  {
    if cfg.contourRouter <= d then Some(Tool(RouterBit, cfg.contourRouter))
    else Nearest(RouterBit, stock.routers, d, cfg.downsizingPercent)
  }

  /**
   * `request`: the stock tool for a required tool. Without a stock match the
   * tool is refused when it is below the smallest stock size, refused when it
   * is a router above the largest, and routed otherwise. A stock match is
   * routed when its diameter exceeds the clean-exit limit. An empty stock for
   * the tool's class raises IndexError in `get_stock_size_range`.
   */
  function Request(t: Tool, stock: Stock, cfg: Settings): (r: Result<Option<Tool>, PyError>)
    ensures r.Failure? ==> r.error == IndexError
    ensures r.Success? && r.value.Some? ==> r.value.value.kind == t.kind || r.value.value.kind == RouterBit
  {
    var own := StockOf(stock, t.kind);
    match Nearest(t.kind, own, t.diameter, cfg.downsizingPercent)
    case None =>
      (match StockSizeRange(own)
       case Failure(e) => Failure(e)
       case Success(range) =>
         if t.diameter < range.0 then Success(None)
         else if t.diameter > range.1 && t.kind == RouterBit then Success(None)
         else Success(RouteHoles(t.diameter, stock, cfg)))
    case Some(n) =>
      if n.diameter as real > cfg.cleanExitMax then Success(RouteHoles(n.diameter, stock, cfg))
      else Success(Some(n))
  }

  /** `request` fails exactly when the stock of the tool's class is empty. */
  lemma RequestFailsOnlyOnEmptyStock(t: Tool, stock: Stock, cfg: Settings)
    ensures Request(t, stock, cfg).Failure? <==> |StockOf(stock, t.kind)| == 0
    ensures Request(t, stock, cfg).Failure? ==> Request(t, stock, cfg).error == IndexError
  {
    var own := StockOf(stock, t.kind);
    if |own| == 0 {
      assert Nearest(t.kind, own, t.diameter, cfg.downsizingPercent).None?;
    }
  }

  /**
   * The tool `request` hands back is never larger than the one asked for, and
   * it is of the same class or a router bit.
   */
  lemma RequestNeverOversizes(t: Tool, stock: Stock, cfg: Settings)
    requires Request(t, stock, cfg).Success? && Request(t, stock, cfg).value.Some?
    ensures Request(t, stock, cfg).value.value.diameter <= t.diameter
    ensures Request(t, stock, cfg).value.value.kind == t.kind
         || Request(t, stock, cfg).value.value.kind == RouterBit
    ensures 0 < cfg.contourRouter ==> 0 < Request(t, stock, cfg).value.value.diameter
  {
    var own := StockOf(stock, t.kind);
    var r := Request(t, stock, cfg);
    match Nearest(t.kind, own, t.diameter, cfg.downsizingPercent)
    case None =>
      var range := StockSizeRange(own).value;
      if !(t.diameter < range.0) && !(t.diameter > range.1 && t.kind == RouterBit) {
        assert r == Success(RouteHoles(t.diameter, stock, cfg));
      }
    case Some(n) =>
      if n.diameter as real > cfg.cleanExitMax {
        assert r == Success(RouteHoles(n.diameter, stock, cfg));
      } else {
        assert r == Success(Some(n));
      }
  }

  /** A router request is always answered with a router bit. */
  lemma RequestKeepsRouters(t: Tool, stock: Stock, cfg: Settings)
    requires t.kind == RouterBit
    requires Request(t, stock, cfg).Success? && Request(t, stock, cfg).value.Some?
    ensures Request(t, stock, cfg).value.value.kind == RouterBit
  {
  }

  /** Without a stock match: too small is refused, a router too large is refused. */
  lemma RequestRefusals(t: Tool, stock: Stock, cfg: Settings)
    requires Nearest(t.kind, StockOf(stock, t.kind), t.diameter, cfg.downsizingPercent).None?
    requires |StockOf(stock, t.kind)| > 0
    ensures (forall s :: s in StockOf(stock, t.kind) ==> t.diameter < s) ==>
      Request(t, stock, cfg) == Success(None)
    ensures t.kind == RouterBit && (forall s :: s in StockOf(stock, t.kind) ==> s < t.diameter) ==>
      Request(t, stock, cfg) == Success(None)
  {
    var own := StockOf(stock, t.kind);
    var range := StockSizeRange(own).value;
    assert range.0 in own && range.1 in own;
  }

  /** Without a stock match, a drill above the largest size, or any tool within the range, is routed. */
  lemma RequestRoutesUnmatched(t: Tool, stock: Stock, cfg: Settings)
    requires Nearest(t.kind, StockOf(stock, t.kind), t.diameter, cfg.downsizingPercent).None?
    requires exists s :: s in StockOf(stock, t.kind) && s <= t.diameter
    requires t.kind == DrillBit || exists s :: s in StockOf(stock, t.kind) && t.diameter <= s
    ensures Request(t, stock, cfg) == Success(RouteHoles(t.diameter, stock, cfg))
  {
    var own := StockOf(stock, t.kind);
    var range := StockSizeRange(own).value;
  }

  /** A stock match within the clean-exit limit is returned as it is; above it, it is routed. */
  lemma RequestMatched(t: Tool, stock: Stock, cfg: Settings)
    requires Nearest(t.kind, StockOf(stock, t.kind), t.diameter, cfg.downsizingPercent).Some?
    ensures var n := Nearest(t.kind, StockOf(stock, t.kind), t.diameter, cfg.downsizingPercent).value;
      Request(t, stock, cfg) ==
        if n.diameter as real > cfg.cleanExitMax then Success(RouteHoles(n.diameter, stock, cfg))
        else Success(Some(n))
  {
  }

  /** A positive exact stock size within the clean-exit limit is returned unchanged. */
  lemma RequestExactStock(t: Tool, stock: Stock, cfg: Settings)
    requires t.diameter in StockOf(stock, t.kind) && 0 < t.diameter && 0.0 <= cfg.downsizingPercent
    requires t.diameter as real <= cfg.cleanExitMax
    ensures Request(t, stock, cfg) == Success(Some(t))
  {
    NearestExact(t.kind, StockOf(stock, t.kind), t.diameter, cfg.downsizingPercent);
  }
}
