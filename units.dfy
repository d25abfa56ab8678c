/**
 * Physical lengths as quantities of a unit. A quantity keeps its value in
 * the unit it was created with; each unit has a conversion factor to the
 * micrometre, and every conversion goes through that factor. Values are
 * real numbers here; the floating-point rounding of the original is not
 * modelled.
 */
module Units {
  import opened Common

  /** A conversion factor: strictly positive. */
  type Factor = r: real | r > 0.0 witness 1.0

  /** A unit: a name and how many micrometres one of it is. */
  datatype Unit = Unit(name: string, factor: Factor)

  /** A value tagged with the unit it is expressed in. */
  datatype Quantity = Quantity(value: real, unit: Unit)

  /**
   * The operand on the other side of `==`, `+` or `*`: a number, another
   * quantity, a (possibly nested) list, or anything else.
   */
  datatype Operand = Number(x: real) | Qty(q: Quantity) | List(items: seq<Operand>) | Other

  /** What a multiplication builds: one quantity, or a list shaped like the operand list. */
  datatype Product = One(q: Quantity) | Many(items: seq<Product>)

  const um := Unit("um", 1.0)
  const mm := Unit("mm", 1000.0)
  const mil := Unit("mil", 25.4)
  const thou := Unit("thou", 25.4)
  const inch := Unit("inch", 25400.0)

  /** `conversion_to`: the number of `to` units in one `from` unit. */
  function ConversionTo(from: Unit, to: Unit): (r: real)
    ensures r > 0.0
    ensures r * to.factor == from.factor
  {
    from.factor / to.factor
  }

  /** `Unit.__call__`: a quantity of `value` in unit `u`. */
  function Of(u: Unit, value: real): (q: Quantity)
    ensures Call(q, None) == value
    ensures Call(q, Some(u)) == value
    ensures Base(q) == value * u.factor
  {
    Quantity(value, u)
  }

  /** `Quantity.__call__`: the raw value, or the value expressed in `target`. */
  function Call(q: Quantity, target: Option<Unit>): (r: real)
    ensures target.None? ==> r == q.value
    ensures target.Some? ==> r * target.value.factor == q.value * q.unit.factor
  {
    match target
    case None => q.value
    case Some(u) =>
      var c := ConversionTo(q.unit, u);
      assert q.value * c * u.factor == q.value * (c * u.factor);
      q.value * c
  }

  /** `__hash__`: the value expressed in micrometres, whatever the unit. */
  function Base(q: Quantity): (r: real)
    ensures q.value == 0.0 <==> r == 0.0
    ensures q.value > 0.0 <==> r > 0.0
  {
    q.value * q.unit.factor
  }

  /**
   * `__eq__`: against a number, compare the raw value; against a quantity,
   * compare with it converted into this quantity's unit; anything else
   * raises TypeError.
   */
  function Eq(q: Quantity, other: Operand): (r: Result<bool, PyError>)
    ensures other.Number? ==> r == Success(q.value == other.x)
    ensures other.Qty? ==> r == Success(Base(q) == Base(other.q))
    ensures !other.Number? && !other.Qty? ==> r == Failure(TypeError)
  {
    match other
    case Number(x) => Success(q.value == x)
    case Qty(o) =>
      var c := Call(o, Some(q.unit));
      assert q.value == c <==> q.value * q.unit.factor == c * q.unit.factor;
      Success(q.value == c)
    case _ => Failure(TypeError)
  }

  /**
   * `__add__`: a quantity in the left operand's unit; a quantity on the
   * right is converted first, a number is added as it is, anything else
   * cannot be added to a number.
   */
  function Add(q: Quantity, other: Operand): (r: Result<Quantity, PyError>)
    ensures r.Success? ==> r.value.unit == q.unit
    ensures other.Qty? ==> r.Success? && Base(r.value) == Base(q) + Base(other.q)
    ensures other.Number? ==> r == Success(Quantity(q.value + other.x, q.unit))
    ensures r.Failure? <==> other.List? || other.Other?
  {
    match other
    case Number(x) => Success(Quantity(q.value + x, q.unit))
    case Qty(o) =>
      var v := Call(o, Some(q.unit));
      assert (q.value + v) * q.unit.factor == q.value * q.unit.factor + v * q.unit.factor;
      Success(Quantity(q.value + v, q.unit))
    case _ => Failure(TypeError)
  }

  /**
   * `__mul__` (and `__rmul__`, which delegates to it): a number scales the
   * value and keeps the unit; a list gives `item * q` for each item, where a
   * number item is scaled, a nested list recurses and any other item raises
   * TypeError; any other operand raises TypeError.
   */
  function Mul(q: Quantity, other: Operand): (r: Result<Product, PyError>)
    decreases other, 1
    ensures other.Number? ==> r == Success(One(Quantity(q.value * other.x, q.unit)))
    ensures other.Qty? || other.Other? ==> r == Failure(TypeError)
    ensures r.Success? && other.List? ==> r.value.Many? && |r.value.items| == |other.items|
  {
    match other
    case Number(_) => Success(One(Quantity(q.value * other.x, q.unit)))
    case List(items) =>
      (match MulEach(q, items)
       case Failure(e) => Failure(e)
       case Success(ps) => Success(Many(ps)))
    case _ => Failure(TypeError)
  }

  /** The list case of `Mul`, item by item; the first failing item decides the error. */
  function MulEach(q: Quantity, items: seq<Operand>): (r: Result<seq<Product>, PyError>)
    decreases items, 0
    ensures r.Success? ==> |r.value| == |items|
    ensures r.Success? ==> forall i :: 0 <= i < |items| ==> Mul(q, items[i]) == Success(r.value[i])
    ensures r.Failure? ==> exists i :: 0 <= i < |items| && Mul(q, items[i]).Failure?
  {
    if |items| == 0 then Success([])
    else
      match Mul(q, items[0])
      case Failure(e) => Failure(e)
      case Success(p) =>
        match MulEach(q, items[1..])
        case Failure(e) =>
          assert forall i :: 0 <= i < |items| - 1 ==> items[1..][i] == items[i + 1];
          Failure(e)
        case Success(ps) =>
          assert forall i :: 0 <= i < |items| - 1 ==> items[1..][i] == items[i + 1];
          Success([p] + ps)
  }

  /**
   * `Unit.__rmul__`: `x * u` is the quantity `x` of `u`, and a list of
   * numbers gives one quantity per number; any other operand raises TypeError.
   */
  function UnitTimes(other: Operand, u: Unit): (r: Result<Product, PyError>)
    requires other.List? ==> forall i :: 0 <= i < |other.items| ==> other.items[i].Number?
    ensures other.Number? ==> r == Success(One(Of(u, other.x)))
    ensures other.List? ==> r.Success? && r.value.Many? && |r.value.items| == |other.items|
    ensures other.List? ==> forall i :: 0 <= i < |other.items| ==>
      r.value.items[i] == One(Of(u, other.items[i].x))
    ensures other.Qty? || other.Other? ==> r == Failure(TypeError)
  {
    match other
    case Number(x) => Success(One(Quantity(x, u)))
    case List(items) =>
      Success(Many(seq(|items|, i requires 0 <= i < |items| => One(Quantity(items[i].x, u)))))
    case _ => Failure(TypeError)
  }

  // ------------------------------------------------------------------------
  // The algebra the operators keep

  /** Expressing a quantity in its own unit gives back its value. */
  lemma CallOwnUnit(q: Quantity)
    ensures Call(q, Some(q.unit)) == q.value
  {
    var f: real := q.unit.factor;
    var c := ConversionTo(q.unit, q.unit);
    CancelPositive(c, 1.0, f);
  }

  /** A strictly positive factor cancels from both sides of an equation. */
  lemma CancelPositive(a: real, b: real, d: real)
    requires d > 0.0 && a * d == b * d
    ensures a == b
  {
    assert (a - b) * d == 0.0;
  }

  /** Converting from `a` to `b` and from `b` to `a` multiply to one. */
  lemma ConversionsAreInverse(a: Unit, b: Unit)
    ensures ConversionTo(a, b) * ConversionTo(b, a) == 1.0
  {
    var ab := ConversionTo(a, b);
    var ba := ConversionTo(b, a);
    assert ab * ba * a.factor == ab * (ba * a.factor) == ab * b.factor == a.factor;
  }

  /** Converting into another unit and back returns the original value. */
  lemma ConversionRoundTrip(q: Quantity, u: Unit)
    ensures Call(Of(u, Call(q, Some(u))), Some(q.unit)) == q.value
  {
    var there := Of(u, Call(q, Some(u)));
    var back := Call(there, Some(q.unit));
    assert back * q.unit.factor == q.value * q.unit.factor;
  }

  /** Quantity equality is symmetric across units. */
  lemma EqSymmetric(a: Quantity, b: Quantity)
    ensures Eq(a, Qty(b)) == Eq(b, Qty(a))
  {
  }

  /** Quantities that compare equal hash equally, whatever their units. */
  lemma EqualQuantitiesHashEqually(a: Quantity, b: Quantity)
    requires Eq(a, Qty(b)) == Success(true)
    ensures Base(a) == Base(b)
  {
  }

  /** Adding `a` quantity keeps the left unit and adds the amounts in micrometres. */
  lemma AddIsCommutativeOnAmounts(a: Quantity, b: Quantity)
    ensures Add(a, Qty(b)).Success? && Add(b, Qty(a)).Success?
    ensures Eq(Add(a, Qty(b)).value, Qty(Add(b, Qty(a)).value)) == Success(true)
  {
  }

  /** Scaling by a number scales the amount in micrometres by the same number. */
  lemma MulScalesAmount(q: Quantity, x: real)
    ensures Base(Mul(q, Number(x)).value.q) == x * Base(q)
  {
    assert q.value * x * q.unit.factor == x * (q.value * q.unit.factor);
  }

  /** `4 * mm` and `mm(4)` are the same quantity. */
  lemma UnitTimesIsCall(x: real, u: Unit)
    ensures UnitTimes(Number(x), u) == Success(One(Of(u, x)))
  {
  }

  /** The unit constants and the relations between them. */
  lemma UnitConstants()
    ensures um.factor == 1.0 && mm.factor == 1000.0 && inch.factor == 25400.0
    ensures mil.factor == 25.4 && thou.factor == 25.4
    ensures ConversionTo(inch, mm) == 25.4
    ensures ConversionTo(inch, mil) == 1000.0
    ensures ConversionTo(mm, um) == 1000.0
  {
  }

  /** One inch equals 25.4 millimetres and hashes like it, so it is found in a set of millimetre quantities. */
  lemma InchInMillimetres()
    ensures Eq(Of(inch, 1.0), Qty(Of(mm, 25.4))) == Success(true)
    ensures Base(Of(inch, 1.0)) == Base(Of(mm, 25.4))
    ensures Call(Of(mm, 4.0), Some(mil)) * 25.4 == 4000.0
  {
  }
}
