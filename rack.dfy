/**
 * The tool rack: a list of 1-based slots, each empty or holding a cutting
 * tool. A rack of size 0 is manual and grows by appending; a rack of any
 * other size places tools at an explicit slot or at the first slot of the
 * right-most run of empty slots, appending one when no slot is free.
 */
module Rack {
  import opened Common
  import opened CuttingTools

  type Slot = Option<Tool>

  // ------------------------------------------------------------------------
  // Slot-list functions the rack's members are specified by

  /** Some slot holds a tool equal to `t`. */
  function Occurs(s: seq<Slot>, t: Tool): (r: bool)
    ensures r <==> exists i :: 0 <= i < |s| && s[i] == Some(t)
  {
    if |s| == 0 then false
    else if s[0] == Some(t) then true
    else
      var r := Occurs(s[1..], t);
      assert forall i :: 1 <= i < |s| ==> s[i] == s[1..][i - 1];
      r
  }

  /** The index of the first slot holding a tool equal to `t`. */
  function FirstIndex(s: seq<Slot>, t: Tool): (r: Option<nat>)
    ensures r.None? <==> !Occurs(s, t)
    ensures r.Some? ==> r.value < |s| && s[r.value] == Some(t)
    ensures r.Some? ==> forall j :: 0 <= j < r.value ==> s[j] != Some(t)
  {
    if |s| == 0 then None
    else if s[0] == Some(t) then Some(0)
    else
      match FirstIndex(s[1..], t)
      case None => None
      case Some(i) => Some(i + 1)
  }

  /** `list.remove`, as intended: delete the first slot equal to `t`; ValueError when there is none. */
  function RemoveFirst(s: seq<Slot>, t: Tool): (r: Result<seq<Slot>, PyError>)
    ensures r.Failure? <==> !Occurs(s, t)
    ensures r.Failure? ==> r.error == ValueError
    ensures r.Success? ==> |r.value| == |s| - 1
    ensures r.Success? ==> var i := FirstIndex(s, t).value;
      r.value[..i] == s[..i] && r.value[i..] == s[i + 1..]
  {
    match FirstIndex(s, t)
    case None => Failure(ValueError)
    case Some(i) => Success(s[..i] + s[i + 1..])
  }

  /**
   * `p` (1-based) starts the right-most run of empty slots: slot `p` is empty,
   * the slot before it (if any) is occupied, and from slot `p` on the slots are
   * a run of empty ones followed only by occupied ones.
   */
  ghost predicate IsLastRunStart(s: seq<Slot>, p: int) {
    && 1 <= p <= |s|
    && s[p - 1].None?
    && (p == 1 || s[p - 2].Some?)
    && forall j, k :: p - 1 <= j < k < |s| && s[j].Some? ==> s[k].Some?
  }

  /** At most one slot starts the right-most empty run. */
  lemma LastRunStartUnique(s: seq<Slot>, p: int, q: int)
    requires IsLastRunStart(s, p) && IsLastRunStart(s, q)
    ensures p == q
  {
  }

  /** The 0-based index where the run of empty slots at the end of `s` begins. */
  function TrailingEmptyStart(s: seq<Slot>): (r: nat)
    ensures r <= |s|
    ensures forall k :: r <= k < |s| ==> s[k].None?
    ensures r > 0 ==> s[r - 1].Some?
  {
    if |s| == 0 || s[|s| - 1].Some? then |s|
    else TrailingEmptyStart(s[..|s| - 1])
  }

  /**
   * The position `find_free_position` reports without extending: the first
   * slot of the right-most run of empty slots, or None when every slot is taken.
   */
  function FreePosition(s: seq<Slot>): (r: Option<nat>)
    ensures r.Some? ==> IsLastRunStart(s, r.value)
    ensures r.None? <==> forall k :: 0 <= k < |s| ==> s[k].Some?
  {
    if |s| == 0 then None
    else if s[|s| - 1].None? then Some(TrailingEmptyStart(s) + 1)
    else
      var r := FreePosition(s[..|s| - 1]);
      assert forall k :: 0 <= k < |s| - 1 ==> s[k] == s[..|s| - 1][k];
      r
  }

  /** Automatic placement never picks an occupied slot, and a rack with an empty slot gets one. */
  lemma FreePositionIsEmpty(s: seq<Slot>)
    ensures FreePosition(s).Some? ==> 1 <= FreePosition(s).value <= |s|
    ensures FreePosition(s).Some? ==> s[FreePosition(s).value - 1].None?
    ensures (exists k :: 0 <= k < |s| && s[k].None?) ==> FreePosition(s).Some?
  {
  }

  /**
   * Successive automatic placements fill an empty run from its left end
   * rightwards: after filling position `p`, the next free position is `p + 1`
   * when that slot is empty, and otherwise lies in a run further left.
   */
  lemma {:induction false} FillingWalksThroughRun(s: seq<Slot>, t: Tool)
    requires FreePosition(s).Some?
    ensures var p := FreePosition(s).value;
      p < |s| && s[p].None? ==> FreePosition(s[p - 1 := Some(t)]) == Some(p + 1)
    ensures var p := FreePosition(s).value;
      !(p < |s| && s[p].None?) ==>
        FreePosition(s[p - 1 := Some(t)]).None? || FreePosition(s[p - 1 := Some(t)]).value < p
  {
    var p := FreePosition(s).value;
    var s' := s[p - 1 := Some(t)];
    if p < |s| && s[p].None? {
      assert IsLastRunStart(s', p + 1);
      assert !s'[p].Some?;
      LastRunStartUnique(s', p + 1, FreePosition(s').value);
    } else {
    }
  }

  /** The 1-based positions of a rack with `n` slots: `range(1, n + 1)`. */
  function Positions(n: nat): (r: seq<nat>)
    ensures |r| == n
    ensures forall i :: 0 <= i < n ==> r[i] == i + 1
  {
    if n == 0 then [] else Positions(n - 1) + [n]
  }

  /**
   * Python list indexing with `key - 1`: a negative index counts from the
   * end, anything outside `-n .. n-1` raises IndexError.
   */
  function SlotIndex(key: int, n: nat): (r: Result<nat, PyError>)
    ensures r.Success? ==> r.value < n
    ensures 1 <= key <= n ==> r == Success(key - 1)
    ensures r.Failure? <==> key < 1 - (n as int) || key > n
  {
    var i := key - 1;
    if 0 <= i < n then Success(i)
    else if -(n as int) <= i < 0 then Success(i + n)
    else Failure(IndexError)
  }

  // ------------------------------------------------------------------------
  // The rack object

  class Rack {
    /** The slots, slot `i` (1-based) at index `i - 1`; None is an empty slot. */
    var slots: seq<Slot>
    /** The size the rack was created with; 0 means manual and unbounded. */
    var size: int

    /** `Rack(size=0)`: `size` empty slots (none when `size` is 0 or negative). */
    constructor (size: int := 0)
      ensures this.size == size
      ensures |slots| == if size > 0 then size else 0
      ensures forall i :: 0 <= i < |slots| ==> slots[i].None?
    {
      this.size := size;
      slots := seq(if size > 0 then size else 0, _ => None);
    }

    /** A rack is bounded when its size is not zero. */
    predicate Bounded()
      reads this
    {
      size != 0
    }

    /** `__len__`: every slot counts, empty ones included. */
    function Length(): (n: nat)
      reads this
      ensures n == |slots|
      ensures forall p :: 1 <= p <= n ==> GetTool(p) == slots[p - 1]
    {
      |slots|
    }

    /** `get_tool`: the content of slot `slot`, or None outside `1 .. len`. */
    function GetTool(slot: int): (r: Option<Tool>)
      reads this
      ensures slot < 1 || slot > |slots| ==> r.None?
      ensures 1 <= slot <= |slots| ==> r == slots[slot - 1]
    {
      if slot < 1 || slot > |slots| then None else slots[slot - 1]
    }

    /** `__contains__`: some slot holds an equal tool (see the as-written variant below). */
    function Contains(t: Tool): (r: bool)
      reads this
      ensures r <==> exists p :: GetTool(p) == Some(t)
    {
      assert forall i :: 0 <= i < |slots| ==> slots[i] == GetTool(i + 1);
      Occurs(slots, t)
    }

    /** `__getitem__`: `rack[key - 1]` with Python's negative indexing. */
    function GetItem(key: int): (r: Result<Slot, PyError>)
      reads this
      ensures 1 <= key <= |slots| ==> r == Success(slots[key - 1])
      ensures key == 0 && |slots| > 0 ==> r == Success(slots[|slots| - 1])
      ensures r.Failure? <==> key < 1 - (|slots| as int) || key > |slots|
    {
      match SlotIndex(key, |slots|)
      case Failure(e) => Failure(e)
      case Success(i) => Success(slots[i])
    }

    /** `__setitem__`: `rack[key - 1] = value`. */
    method SetItem(key: int, value: Slot) returns (r: Result<(), PyError>)
      modifies this
      ensures size == old(size)
      ensures r.Failure? <==> old(GetItem(key)).Failure?
      ensures r.Failure? ==> r.error == IndexError && slots == old(slots)
      ensures r.Success? ==> slots == old(slots)[SlotIndex(key, |old(slots)|).value := value]
      ensures r.Success? ==> GetItem(key) == Success(value)
    {
      match SlotIndex(key, |slots|)
      case Failure(e) =>
        r := Failure(e);
      case Success(i) =>
        slots := slots[i := value];
        r := Success(());
    }

    /** `__delitem__`: `del rack[key - 1]`; the slots after it move down by one. */
    method DelItem(key: int) returns (r: Result<(), PyError>)
      modifies this
      ensures size == old(size)
      ensures r.Failure? <==> old(GetItem(key)).Failure?
      ensures r.Failure? ==> r.error == IndexError && slots == old(slots)
      ensures r.Success? ==> |slots| == |old(slots)| - 1
      ensures r.Success? ==> var i := SlotIndex(key, |old(slots)|).value;
        slots == old(slots)[..i] + old(slots)[i + 1..]
    {
      match SlotIndex(key, |slots|)
      case Failure(e) =>
        r := Failure(e);
      case Success(i) =>
        slots := slots[..i] + slots[i + 1..];
        r := Success(());
    }

    /** `keys`: the slot list itself, slot `p` at index `p - 1`. */
    function Keys(): (r: seq<Slot>)
      reads this
      ensures |r| == Length()
      ensures forall p :: 1 <= p <= |r| ==> GetTool(p) == r[p - 1]
    {
      slots
    }

    /** `items`: (slot content, 1-based position) pairs. */
    function Items(): (r: seq<(Slot, nat)>)
      reads this
      ensures |r| == |slots|
      ensures forall i :: 0 <= i < |r| ==> r[i].0 == slots[i] && r[i].1 == i + 1
      ensures forall i :: 0 <= i < |r| ==> GetTool(r[i].1) == r[i].0
    {
      seq(|slots|, i requires 0 <= i < |slots| reads this => (slots[i], i + 1))
    }

    /** `values`: the positions 1 .. len. */
    function Values(): (r: seq<nat>)
      reads this
      ensures |r| == |slots|
      ensures forall i :: 0 <= i < |r| ==> 1 <= r[i] <= |slots| && r[i] == i + 1
    {
      Positions(|slots|)
    }

    /**
     * `find_free_position`: scan the slots from the last to the first, note
     * each empty slot, and stop at the first occupied slot met after an empty
     * one. With no empty slot, append one when `extend` and report it.
     */
    method FindFreePosition(extend: bool := true) returns (r: Option<nat>)
      modifies this
      ensures size == old(size)
      ensures FreePosition(old(slots)).Some? ==> r == FreePosition(old(slots)) && slots == old(slots)
      ensures FreePosition(old(slots)).None? && extend ==>
        slots == old(slots) + [None] && r == Some(|slots|)
      ensures FreePosition(old(slots)).None? && !extend ==> r.None? && slots == old(slots)
      ensures r.Some? ==> 1 <= r.value <= |slots| && slots[r.value - 1].None?
    {
      var retval: Option<nat> := None;
      var i := |slots|;
      ghost var runEnd := |slots|;
      while i > 0
        invariant 0 <= i <= |slots|
        invariant retval.None? ==> forall k :: i <= k < |slots| ==> slots[k].Some?
        invariant retval.Some? ==> retval.value == i + 1 && i < runEnd <= |slots|
        invariant retval.Some? ==> forall k :: i <= k < runEnd ==> slots[k].None?
        invariant retval.Some? ==> forall k :: runEnd <= k < |slots| ==> slots[k].Some?
      {
        if slots[i - 1].None? {
          if retval.None? {
            runEnd := i;
          }
          retval := Some(i);
          i := i - 1;
          continue;
        } else if retval.Some? {
          break;
        }
        i := i - 1;
      }
      if retval.Some? {
        assert IsLastRunStart(slots, retval.value);
        LastRunStartUnique(slots, retval.value, FreePosition(slots).value);
      } else {
        assert FreePosition(slots).None?;
        if extend {
          slots := slots + [None];
          retval := Some(|slots|);
        }
      }
      r := retval;
    }

    /**
     * `add_bit`: on a manual rack, append the bit whatever the position. On a
     * bounded rack, place it at the given position (ValueError outside
     * `1 .. len`; an occupied slot is overwritten with only a warning), or,
     * without a position, at the slot `find_free_position` returns, which
     * appends a slot when none is free.
     */
    method AddBit(bit: Tool, position: Option<int> := None) returns (r: Result<(), PyError>)
      modifies this
      ensures size == old(size)
      ensures old(size) == 0 ==> r.Success? && slots == old(slots) + [Some(bit)]
      ensures old(size) != 0 && position.Some? && (position.value < 1 || position.value > |old(slots)|) ==>
        r == Failure(ValueError) && slots == old(slots)
      ensures old(size) != 0 && position.Some? && 1 <= position.value <= |old(slots)| ==>
        r.Success? && slots == old(slots)[position.value - 1 := Some(bit)]
      ensures old(size) != 0 && position.None? && FreePosition(old(slots)).Some? ==>
        r.Success? && slots == old(slots)[FreePosition(old(slots)).value - 1 := Some(bit)]
      ensures old(size) != 0 && position.None? && FreePosition(old(slots)).None? ==>
        r.Success? && slots == old(slots) + [Some(bit)]
      ensures r.Success? ==> Contains(bit)
    {
      if size != 0 {
        var p: int;
        if position.None? {
          var free := FindFreePosition();
          p := free.value;
        } else if position.value < 1 || position.value > |slots| {
          return Failure(ValueError);
        } else {
          p := position.value;
        }
        // An occupied slot only draws a warning in the source.
        slots := slots[p - 1 := Some(bit)];
        assert slots[p - 1] == Some(bit);
      } else {
        slots := slots + [Some(bit)];
        assert slots[|slots| - 1] == Some(bit);
      }
      r := Success(());
    }

    /** `remove_bit`, as intended: delete the first slot holding an equal tool. */
    method RemoveBit(bit: Tool) returns (r: Result<(), PyError>)
      modifies this
      ensures size == old(size)
      ensures r.Failure? <==> !old(Contains(bit))
      ensures r.Failure? ==> r.error == ValueError && slots == old(slots)
      ensures r.Success? ==> slots == RemoveFirst(old(slots), bit).value
    {
      match RemoveFirst(slots, bit)
      case Failure(e) =>
        r := Failure(e);
      case Success(rest) =>
        slots := rest;
        r := Success(());
    }

    /** `clone(unbound=True)`: a new rack with a copy of the slots, unbound (size 0) by default. */
    method Clone(unbound: bool := true) returns (c: Rack)
      ensures fresh(c)
      ensures c.slots == slots
      ensures c.size == if unbound then 0 else size
    {
      c := new Rack(if unbound then 0 else size);
      c.slots := slots;
    }
  }

  // ------------------------------------------------------------------------
  // Membership and removal as written: comparing a tool with an empty slot
  // calls the tool's `__eq__` with None, which reads `None.type`.

  /** `tool in rack.rack` as written: an empty slot met before a match raises AttributeError. */
  function ContainsAsWritten(s: seq<Slot>, t: Tool): (r: Result<bool, PyError>)
    ensures (forall k :: 0 <= k < |s| ==> s[k].Some?) ==> r == Success(Occurs(s, t))
    ensures r.Success? && r.value ==> Occurs(s, t)
  {
    if |s| == 0 then Success(false)
    else if s[0].None? then Failure(AttributeError)
    else if s[0].value == t then Success(true)
    else
      var r := ContainsAsWritten(s[1..], t);
      assert forall k :: 0 <= k < |s| - 1 ==> s[1..][k] == s[k + 1];
      r
  }

  /** `rack.remove(bit)` as written: the same scan, raising AttributeError at an empty slot. */
  function RemoveAsWritten(s: seq<Slot>, t: Tool): (r: Result<seq<Slot>, PyError>)
    ensures r.Success? ==> |r.value| == |s| - 1
    ensures r.Failure? ==> r.error in {ValueError, AttributeError}
  {
    if |s| == 0 then Failure(ValueError)
    else if s[0].None? then Failure(AttributeError)
    else if s[0].value == t then Success(s[1..])
    else
      match RemoveAsWritten(s[1..], t)
      case Failure(e) => Failure(e)
      case Success(rest) => Success([s[0]] + rest)
  }

  /** On a rack without empty slots the as-written removal is the intended one. */
  lemma {:induction false} RemoveAsWrittenWithoutGaps(s: seq<Slot>, t: Tool)
    requires forall k :: 0 <= k < |s| ==> s[k].Some?
    ensures RemoveAsWritten(s, t) == RemoveFirst(s, t)
  {
    if |s| == 0 {
    } else if s[0].value == t {
      assert FirstIndex(s, t) == Some(0);
      assert s[..0] + s[1..] == s[1..];
    } else {
      var tail := s[1..];
      assert forall k :: 0 <= k < |tail| ==> tail[k] == s[k + 1];
      RemoveAsWrittenWithoutGaps(tail, t);
      RemoveFirstPastHead(s, t);
    }
  }

  /** Removing from a list whose head does not match removes from its tail. */
  lemma RemoveFirstPastHead(s: seq<Slot>, t: Tool)
    requires |s| > 0 && s[0].Some? && s[0].value != t
    ensures RemoveAsWritten(s, t) == match RemoveAsWritten(s[1..], t)
      case Failure(e) => Failure(e)
      case Success(rest) => Success([s[0]] + rest)
    ensures RemoveFirst(s, t) == match RemoveFirst(s[1..], t)
      case Failure(e) => Failure(e)
      case Success(rest) => Success([s[0]] + rest)
  {
    var tail := s[1..];
    assert s[0] != Some(t);
    match FirstIndex(tail, t)
    case None =>
      assert FirstIndex(s, t) == None;
    case Some(i) =>
      assert FirstIndex(s, t) == Some(i + 1);
      assert s[..i + 1] == [s[0]] + tail[..i];
      assert s[i + 2..] == tail[i + 1..];
      assert [s[0]] + (tail[..i] + tail[i + 1..]) == ([s[0]] + tail[..i]) + tail[i + 1..];
  }

  /**
   * A bounded rack with a tool in slot 2 and slot 1 empty: the as-written
   * membership test and removal raise, although the tool is in the rack.
   */
  lemma EmptySlotBreaksMembership(t: Tool)
    ensures Occurs([None, Some(t)], t)
    ensures ContainsAsWritten([None, Some(t)], t) == Failure(AttributeError)
    ensures RemoveFirst([None, Some(t)], t) == Success([None])
    ensures RemoveAsWritten([None, Some(t)], t) == Failure(AttributeError)
  {
    assert [None, Some(t)][1] == Some(t);
    assert [None, Some(t)][..1] + [None, Some(t)][2..] == [None];
  }

  // ------------------------------------------------------------------------
  // The scenarios the rack's tests describe

  /** The manual rack of the tests: five bits appended in turn. */
  method ManualRackScenario() returns (r: Rack)
    ensures r.size == 0 && r.Length() == 5
    ensures r.GetTool(1) == Some(Tool(DrillBit, 800_000))
    ensures r.GetTool(2) == Some(Tool(DrillBit, 1_000_000))
    ensures r.GetTool(3) == Some(Tool(DrillBit, 950_000))
    ensures r.GetTool(4) == Some(Tool(DrillBit, 1_150_000))
    ensures r.GetTool(5) == Some(Tool(RouterBit, 1_000_000))
    ensures r.GetTool(0).None? && r.GetTool(6).None?
    ensures r.Contains(Tool(DrillBit, 800_000))
    ensures r.Contains(Tool(DrillBit, 1_150_000)) && r.Contains(Tool(RouterBit, 1_000_000))
    ensures !r.Contains(Tool(RouterBit, 4_000_000))
  {
    r := new Rack();
    var d08 := Tool(DrillBit, 800_000);
    var d10 := Tool(DrillBit, 1_000_000);
    var d095 := Tool(DrillBit, 950_000);
    var d115 := Tool(DrillBit, 1_150_000);
    var r10 := Tool(RouterBit, 1_000_000);
    var ok := r.AddBit(d08);
    assert r.slots == [Some(d08)];
    ok := r.AddBit(d10);
    assert r.slots == [Some(d08), Some(d10)];
    ok := r.AddBit(d095);
    assert r.slots == [Some(d08), Some(d10), Some(d095)];
    ok := r.AddBit(d115);
    assert r.slots == [Some(d08), Some(d10), Some(d095), Some(d115)];
    ok := r.AddBit(r10);
    assert r.slots == [Some(d08), Some(d10), Some(d095), Some(d115), Some(r10)];
    assert r.GetTool(4) == Some(d115) && r.GetTool(5) == Some(r10);
  }

  /**
   * The automatic changer of the tests: a rack of 4, a bit put in slot 2,
   * then three bits placed automatically into slots 3, 4 and 1.
   */
  method AutomaticChangerScenario() returns (r: Rack)
    ensures r.size == 4 && r.Length() == 4
    ensures r.GetTool(1) == Some(Tool(RouterBit, 800_000))
    ensures r.GetTool(2) == Some(Tool(DrillBit, 800_000))
    ensures r.GetTool(3) == Some(Tool(DrillBit, 1_800_000))
    ensures r.GetTool(4) == Some(Tool(DrillBit, 1_900_000))
  {
    r := new Rack(4);
    var d08 := Tool(DrillBit, 800_000);
    var d18 := Tool(DrillBit, 1_800_000);
    var d19 := Tool(DrillBit, 1_900_000);
    var r08 := Tool(RouterBit, 800_000);
    var ok := r.AddBit(d08, Some(2));
    assert r.slots == [None, Some(d08), None, None];
    assert IsLastRunStart(r.slots, 3);
    LastRunStartUnique(r.slots, 3, FreePosition(r.slots).value);
    ok := r.AddBit(d18);
    assert r.slots == [None, Some(d08), Some(d18), None];
    assert IsLastRunStart(r.slots, 4);
    LastRunStartUnique(r.slots, 4, FreePosition(r.slots).value);
    ok := r.AddBit(d19);
    assert r.slots == [None, Some(d08), Some(d18), Some(d19)];
    assert IsLastRunStart(r.slots, 1);
    LastRunStartUnique(r.slots, 1, FreePosition(r.slots).value);
    ok := r.AddBit(r08);
    assert r.slots == [Some(r08), Some(d08), Some(d18), Some(d19)];
  }
}
