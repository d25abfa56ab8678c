/**
 * The linked chains of the machining stage: moves linked by `next` (the
 * path of a routed vector), and machining operations linked by `nextOp`
 * (operations grouped into one cycle that travel optimisation must keep
 * together).
 */
module Machining {
  import opened Common
  import opened CuttingTools

  // ------------------------------------------------------------------------
  // Moves

  class Move {
    const start: Coordinate
    const end: Coordinate
    /** The following move, if any. */
    var next: Move?

    /** A move from `start` to `end` with no successor. */
    constructor (start: Coordinate, end: Coordinate)
      ensures this.start == start && this.end == end && next == null
    {
      this.start := start;
      this.end := end;
      next := null;
    }

    /** `last`: follow `next` until a move without a successor. */
    method Last(ghost chain: seq<Move>) returns (r: Move)
      requires IsMoveChain(chain) && chain[0] == this
      ensures r == chain[|chain| - 1]
      ensures r.next == null
    {
      var current := this;
      ghost var i := 0;
      while current.next != null
        invariant 0 <= i < |chain| && current == chain[i]
        invariant i < |chain| - 1 ==> current.next == chain[i + 1]
        decreases |chain| - i
      {
        current := current.next;
        i := i + 1;
      }
      r := current;
    }

    /** `append`, as intended: link `n` after the last move of the chain. */
    method Append(n: Move, ghost chain: seq<Move>)
      requires IsMoveChain(chain) && chain[0] == this
      modifies chain[|chain| - 1]
      ensures chain[|chain| - 1].next == n
      ensures forall i :: 0 <= i < |chain| - 1 ==> chain[i].next == chain[i + 1]
      ensures old(n.next) == null && n !in chain ==> IsMoveChain(chain + [n])
    {
      var move := this;
      ghost var i := 0;
      while move.next != null
        invariant 0 <= i < |chain| && move == chain[i]
        invariant i < |chain| - 1 ==> move.next == chain[i + 1]
        decreases |chain| - i
      {
        move := move.next;
        i := i + 1;
      }
      LastOfMoveChain(chain);
      move.next := n;
    }
  }

  /** `chain` lists a run of moves, each the `next` of the one before, ending in a move without a successor. */
  ghost predicate IsMoveChain(chain: seq<Move>)
    reads chain
  {
    && |chain| > 0
    && (forall i :: 0 <= i < |chain| - 1 ==> chain[i].next == chain[i + 1])
    && chain[|chain| - 1].next == null
  }

  /** The last move of a chain is none of the earlier ones. */
  lemma LastOfMoveChain(chain: seq<Move>)
    requires IsMoveChain(chain)
    ensures forall i :: 0 <= i < |chain| - 1 ==> chain[i] != chain[|chain| - 1]
  {
    forall i | 0 <= i < |chain| - 1
      ensures chain[i] != chain[|chain| - 1]
    {
      assert chain[i].next == chain[i + 1];
    }
  }

  /**
   * Where the cursor of `append` as written stands after `k` turns of its
   * loop: it moves to `first.next` (not to its own successor) while its
   * successor is set.
   */
  ghost function AppendCursorAsWritten(first: Move, k: nat): (c: Move)
    reads first, first.next
    ensures c == first || c == first.next
  {
    if k == 0 then first
    else
      var c := AppendCursorAsWritten(first, k - 1);
      if c.next != null && first.next != null then first.next else c
  }

  /** On a chain of one or two moves the as-written loop reaches the last move, as intended. */
  lemma AppendAsWrittenShortChain(chain: seq<Move>)
    requires IsMoveChain(chain) && |chain| <= 2
    ensures AppendCursorAsWritten(chain[0], |chain| - 1) == chain[|chain| - 1]
    ensures AppendCursorAsWritten(chain[0], |chain| - 1).next == null
  {
  }

  /**
   * On a chain of three or more moves the as-written cursor settles on the
   * second move, whose successor is set: the loop condition never fails.
   */
  lemma {:induction false} AppendAsWrittenNeverStops(chain: seq<Move>, k: nat)
    requires IsMoveChain(chain) && |chain| >= 3 && k >= 1
    ensures AppendCursorAsWritten(chain[0], k) == chain[1]
    ensures AppendCursorAsWritten(chain[0], k).next != null
  {
    assert chain[1].next == chain[2];
    if k > 1 {
      AppendAsWrittenNeverStops(chain, k - 1);
    }
  }

  // ------------------------------------------------------------------------
  // Machining operations

  class Operation {
    /** Where the operation starts; None for the placeholder operation. */
    const origin: Option<Coordinate>
    /** The cutting tool; None for the placeholder operation. */
    const tool: Option<Tool>
    /** The first move of a routed vector; null for every other kind of operation. */
    const vectorStart: Move?
    /** The next operation of the same cycle, if any. */
    var nextOp: Operation?

    /** `MachiningOperation(origin, tool)`, also used by the drill-hole and route-hole operations. */
    constructor (origin: Coordinate, tool: Tool)
      ensures this.origin == Some(origin) && this.tool == Some(tool)
      ensures vectorStart == null && nextOp == null
    {
      this.origin := Some(origin);
      this.tool := Some(tool);
      vectorStart := null;
      nextOp := null;
    }

    /** `NoOperation()`: neither origin nor tool. */
    constructor NoOperation()
      ensures origin.None? && tool.None?
      ensures vectorStart == null && nextOp == null
    {
      origin := None;
      tool := None;
      vectorStart := null;
      nextOp := null;
    }

    /** `RouteVector(move, tool)`, as intended: it starts where its first move starts. */
    constructor RouteVector(move: Move, tool: Tool)
      ensures origin == Some(move.start) && this.tool == Some(tool)
      ensures vectorStart == move && nextOp == null
    {
      origin := Some(move.start);
      this.tool := Some(tool);
      vectorStart := move;
      nextOp := null;
    }

    /** `then`, as intended: link `n` after the last operation of the cycle. */
    method Then(n: Operation, ghost ops: seq<Operation>)
      requires IsOpChain(ops) && ops[0] == this
      modifies ops[|ops| - 1]
      ensures ops[|ops| - 1].nextOp == n
      ensures forall i :: 0 <= i < |ops| - 1 ==> ops[i].nextOp == ops[i + 1]
      ensures old(n.nextOp) == null && n !in ops ==> IsOpChain(ops + [n])
    {
      var toNext := this;
      ghost var i := 0;
      while toNext.nextOp != null
        invariant 0 <= i < |ops| && toNext == ops[i]
        invariant i < |ops| - 1 ==> toNext.nextOp == ops[i + 1]
        decreases |ops| - i
      {
        toNext := toNext.nextOp;
        i := i + 1;
      }
      LastOfOpChain(ops);
      toNext.nextOp := n;
    }

    /**
     * `get_end_coordinate`: ask the next operation of the cycle (as a
     * follower); the last one answers with its origin, or with None when it
     * is also the first. A routed vector that gets None answers with the end
     * of the last move of its vector instead.
     */
    method EndCoordinate(ghost ops: seq<Operation>, ghost i: nat, ghost moves: seq<seq<Move>>, first: bool := true)
      returns (r: Option<Coordinate>)
      requires IsOpChain(ops) && i < |ops| && ops[i] == this
      requires VectorsKnown(ops, moves)
      requires forall j :: 0 <= j < |ops| && ops[j].vectorStart != null ==>
        IsMoveChain(moves[j]) && moves[j][0] == ops[j].vectorStart
      decreases |ops| - i
      ensures r == EndSpec(ops, i, first, moves)
    {
      if nextOp != null {
        r := nextOp.EndCoordinate(ops, i + 1, moves, false);
      } else {
        r := if first then None else origin;
      }
      if vectorStart != null && r.None? {
        var last := vectorStart.Last(moves[i]);
        r := Some(last.end);
      }
    }
  }

  /** `ops` lists a cycle of operations, each the `nextOp` of the one before, ending in one without a follower. */
  ghost predicate IsOpChain(ops: seq<Operation>)
    reads ops
  {
    && |ops| > 0
    && (forall i :: 0 <= i < |ops| - 1 ==> ops[i].nextOp == ops[i + 1])
    && ops[|ops| - 1].nextOp == null
  }

  /** The last operation of a cycle is none of the earlier ones. */
  lemma LastOfOpChain(ops: seq<Operation>)
    requires IsOpChain(ops)
    ensures forall i :: 0 <= i < |ops| - 1 ==> ops[i] != ops[|ops| - 1]
  {
    forall i | 0 <= i < |ops| - 1
      ensures ops[i] != ops[|ops| - 1]
    {
      assert ops[i].nextOp == ops[i + 1];
    }
  }

  /** Every routed vector of the cycle comes with a non-empty list of its moves. */
  ghost predicate VectorsKnown(ops: seq<Operation>, moves: seq<seq<Move>>) {
    && |moves| == |ops|
    && forall j :: 0 <= j < |ops| && ops[j].vectorStart != null ==> |moves[j]| > 0
  }

  /**
   * The end coordinate of the cycle from `ops[i]` on, where `moves[j]`
   * lists the moves of `ops[j]` when that operation is a routed vector.
   */
  ghost function EndSpec(ops: seq<Operation>, i: nat, first: bool, moves: seq<seq<Move>>): Option<Coordinate>
    requires i < |ops| && VectorsKnown(ops, moves)
    decreases |ops| - i
  {
    var base := if i < |ops| - 1 then EndSpec(ops, i + 1, false, moves)
      else if first then None else ops[i].origin;
    if ops[i].vectorStart != null && base.None? then Some(moves[i][|moves[i]| - 1].end)
    else base
  }

  /** A cycle with no routed vector ends at the origin of its last operation, and a lone first operation has no end. */
  lemma {:induction false} EndOfPlainCycle(ops: seq<Operation>, i: nat, first: bool, moves: seq<seq<Move>>)
    requires i < |ops| && VectorsKnown(ops, moves)
    requires forall j :: i <= j < |ops| ==> ops[j].vectorStart == null
    decreases |ops| - i
    ensures i == |ops| - 1 && first ==> EndSpec(ops, i, first, moves).None?
    ensures !(i == |ops| - 1 && first) ==> EndSpec(ops, i, first, moves) == ops[|ops| - 1].origin
  {
    if i < |ops| - 1 {
      EndOfPlainCycle(ops, i + 1, false, moves);
    }
  }

  /** A routed vector with no follower ends where the last move of its vector ends. */
  lemma LoneVectorEndsAtLastMove(ops: seq<Operation>, moves: seq<seq<Move>>)
    requires |ops| == 1 && VectorsKnown(ops, moves) && ops[0].vectorStart != null
    ensures EndSpec(ops, 0, true, moves) == Some(moves[0][|moves[0]| - 1].end)
  {
  }

  /**
   * Where the cursor of `then` as written stands after `k` turns of its
   * loop: it moves to `first.nextOp` while its follower is set.
   */
  ghost function ThenCursorAsWritten(first: Operation, k: nat): (c: Operation)
    reads first, first.nextOp
    ensures c == first || c == first.nextOp
  {
    if k == 0 then first
    else
      var c := ThenCursorAsWritten(first, k - 1);
      if c.nextOp != null && first.nextOp != null then first.nextOp else c
  }

  /** On a cycle of three or more operations the as-written `then` never leaves its loop. */
  lemma {:induction false} ThenAsWrittenNeverStops(ops: seq<Operation>, k: nat)
    requires IsOpChain(ops) && |ops| >= 3 && k >= 1
    ensures ThenCursorAsWritten(ops[0], k) == ops[1]
    ensures ThenCursorAsWritten(ops[0], k).nextOp != null
  {
    assert ops[1].nextOp == ops[2];
    if k > 1 {
      ThenAsWrittenNeverStops(ops, k - 1);
    }
  }

  /** On a cycle of one or two operations the as-written loop reaches the last one, as intended. */
  lemma ThenAsWrittenShortChain(ops: seq<Operation>)
    requires IsOpChain(ops) && |ops| <= 2
    ensures ThenCursorAsWritten(ops[0], |ops| - 1) == ops[|ops| - 1]
    ensures ThenCursorAsWritten(ops[0], |ops| - 1).nextOp == null
  {
  }

  /**
   * `__lt__`: operations compare by their tools. A tool compared with a
   * missing one reads an attribute of None (AttributeError); a missing tool
   * on the left has no ordering at all (TypeError).
   */
  function OpLess(a: Operation, b: Operation): (r: Result<bool, PyError>)
    ensures a.tool.Some? && b.tool.Some? ==> r == Success(Less(a.tool.value, b.tool.value))
    ensures a.tool.Some? && b.tool.None? ==> r == Failure(AttributeError)
    ensures a.tool.None? ==> r == Failure(TypeError)
  {
    match (a.tool, b.tool)
    case (Some(s), Some(t)) => Success(Less(s, t))
    case (Some(_), None) => Failure(AttributeError)
    case (None, _) => Failure(TypeError)
  }

  /** The order of operations is a strict order wherever both tools exist. */
  lemma OpLessIsStrictOrder(a: Operation, b: Operation, c: Operation)
    requires a.tool.Some? && b.tool.Some? && c.tool.Some?
    ensures OpLess(a, a) == Success(false)
    ensures OpLess(a, b) == Success(true) && OpLess(b, c) == Success(true) ==> OpLess(a, c) == Success(true)
  {
    LessIrreflexive(a.tool.value);
    if Less(a.tool.value, b.tool.value) && Less(b.tool.value, c.tool.value) {
      LessTransitive(a.tool.value, b.tool.value, c.tool.value);
    }
  }

  /**
   * What reading an attribute of a move yields: one of its coordinates, the
   * link to the following move (whose value is the mutable `next` field and
   * is read through the class itself), one of the methods the class defines,
   * or an attribute every Python object has through `object`.
   */
  datatype MoveAttr = Coord(c: Coordinate) | NextLink | BoundMethod(name: string) | ObjectAttr(name: string)

  /** The methods the move class defines. */
  const MoveMethods: set<string> := {"__init__", "append", "last"}

  /** The attributes a move inherits from `object` (as in Python 3.11). */
  const ObjectAttributes: set<string> := {
    "__class__", "__delattr__", "__dict__", "__dir__", "__doc__", "__eq__",
    "__format__", "__ge__", "__getattribute__", "__getstate__", "__gt__",
    "__hash__", "__init_subclass__", "__le__", "__lt__", "__module__", "__ne__",
    "__new__", "__reduce__", "__reduce_ex__", "__repr__", "__setattr__",
    "__sizeof__", "__str__", "__subclasshook__", "__weakref__"
  }

  /**
   * Reading an attribute of a move by name: the coordinates `start` and
   * `end`, the link `next`, the methods of the class and the attributes
   * inherited from `object`; any other name raises AttributeError.
   */
  function MoveAttribute(m: Move, name: string): (r: Result<MoveAttr, PyError>)
    ensures r.Success? <==> name in {"start", "end", "next"} || name in MoveMethods || name in ObjectAttributes
    ensures name == "start" ==> r == Success(Coord(m.start))
    ensures name == "end" ==> r == Success(Coord(m.end))
    ensures name == "next" ==> r == Success(NextLink)
    ensures name in MoveMethods ==> r == Success(BoundMethod(name))
    ensures name in ObjectAttributes ==> r == Success(ObjectAttr(name))
    ensures r.Failure? ==> r.error == AttributeError
  {
    if name == "start" then Success(Coord(m.start))
    else if name == "end" then Success(Coord(m.end))
    else if name == "next" then Success(NextLink)
    else if name in MoveMethods then Success(BoundMethod(name))
    else if name in ObjectAttributes then Success(ObjectAttr(name))
    else Failure(AttributeError)
  }

  /**
   * The routed-vector constructor as written reads `move.orgin`, which no
   * move has: constructing any routed vector raises AttributeError. The
   * corrected constructor takes the move's start.
   */
  lemma RouteVectorAsWrittenFails(m: Move)
    ensures MoveAttribute(m, "orgin") == Failure(AttributeError)
    ensures MoveAttribute(m, "start") == Success(Coord(m.start))
    ensures MoveAttribute(m, "last") == Success(BoundMethod("last"))
  {
  }
}
