/** Criterion filters over close approaches, the builder that turns user
    criteria into filters, and the limiter over result streams. */
module Filters {
  import opened Wrappers
  import opened Models

  /** The comparison operators the builder uses: `operator.eq`,
      `operator.ge` and `operator.le`. */
  datatype Op = Eq | Ge | Le

  /** A comparable value as Python sees it: a float, the float NaN, a bool
      (which compares as the integer 0 or 1) or a calendar date. */
  datatype Value = Number(x: real) | NaN | Flag(b: bool) | Day(d: int)

  /** Which attribute a filter reads. `Attribute` is the base class
      `AttributeFilter`, which has no extraction rule. */
  datatype Criterion = Attribute | Distance | Velocity | Diameter | Hazardous | Date

  /** A filter: calling it on an approach evaluates `get(approach) op value`. */
  datatype AttributeFilter = AttributeFilter(criterion: Criterion, op: Op, value: Value)

  /** The exceptions evaluating a filter can raise: the base class's
      `UnsupportedCriterionError`, the `AttributeError` of reading through
      an unset reference, and the `TypeError` of ordering a date against a
      number. */
  datatype FilterError = UnsupportedCriterion | AttributeError | TypeError

  /** `x op y`, the reference value on the right. */
  predicate Holds(op: Op, x: real, y: real) {
    match op
    case Eq => x == y
    case Ge => x >= y
    case Le => x <= y
  }

  /** The number a float or a bool stands for in a numeric comparison. */
  function Numeric(v: Value): real
    requires v.Number? || v.Flag?
  {
    if v.Number? then v.x else if v.b then 1.0 else 0.0
  }

  /** `op(lhs, rhs)` with Python's rules: dates compare with dates; a date
      is never equal to a number and cannot be ordered against one; NaN
      satisfies no comparison; bools and floats compare as numbers. */
  function Compare(op: Op, lhs: Value, rhs: Value): (r: Result<bool, FilterError>)
    ensures r.Failure? <==> op != Eq && lhs.Day? != rhs.Day?
    ensures r.Failure? ==> r.error == TypeError
    ensures lhs.NaN? || rhs.NaN? ==> r != Success(true)
    ensures lhs.Day? && rhs.Day? ==> r == Success(Holds(op, lhs.d as real, rhs.d as real))
    ensures (lhs.Number? || lhs.Flag?) && (rhs.Number? || rhs.Flag?) ==>
              r == Success(Holds(op, Numeric(lhs), Numeric(rhs)))
  {
    if lhs.Day? && rhs.Day? then Success(Holds(op, lhs.d as real, rhs.d as real))
    else if lhs.Day? || rhs.Day? then (if op == Eq then Success(false) else Failure(TypeError))
    else if lhs.NaN? || rhs.NaN? then Success(false)
    else Success(Holds(op, Numeric(lhs), Numeric(rhs)))
  }

  /** The operator with its operands swapped: `x ge y` is `y le x`. */
  function Flip(op: Op): Op {
    match op
    case Eq => Eq
    case Ge => Le
    case Le => Ge
  }

  /** Which side the reference value sits on matters exactly through the
      operator: swapping the operands is the same as flipping it. */
  lemma CompareSwap(op: Op, lhs: Value, rhs: Value)
    ensures Compare(op, lhs, rhs) == Compare(Flip(op), rhs, lhs)
  {
  }

  /** An approach whose NEO reference, when set, points into `neos`. */
  predicate LinkedIn(a: Approach, neos: seq<Neo>) {
    a.neo.Some? ==> a.neo.value < |neos|
  }

  /** The `get` of each filter class: distance, velocity, the linked NEO's
      diameter or hazard flag, or the calendar date of the approach time.
      Reading through an unset NEO or time raises `AttributeError`; the base
      class raises `UnsupportedCriterionError`. */
  function Get(c: Criterion, a: Approach, neos: seq<Neo>): (r: Result<Value, FilterError>)
    requires LinkedIn(a, neos)
    ensures r == Failure(UnsupportedCriterion) <==> c == Attribute
    ensures r == Failure(AttributeError) <==>
              (c in {Diameter, Hazardous} && a.neo.None?) || (c == Date && a.time.None?)
    ensures r.Success? && c in {Distance, Velocity} ==> r.value.Number?
    ensures r.Success? && c == Diameter ==> r.value.Number? || r.value.NaN?
    ensures r.Success? && c == Hazardous ==> r.value.Flag?
    ensures r.Success? && c == Date ==> r.value.Day?
    ensures c == Distance ==> r == Success(Number(a.distance))
    ensures c == Velocity ==> r == Success(Number(a.velocity))
    ensures c == Diameter && a.neo.Some? ==>
              r == Success(if neos[a.neo.value].diameter.Some? then Number(neos[a.neo.value].diameter.value) else NaN)
    ensures c == Hazardous && a.neo.Some? ==> r == Success(Flag(neos[a.neo.value].hazardous))
    ensures c == Date && a.time.Some? ==> r == Success(Day(a.time.value.date))
  {
    match c
    case Attribute => Failure(UnsupportedCriterion)
    case Distance => Success(Number(a.distance))
    case Velocity => Success(Number(a.velocity))
    case Diameter =>
      if a.neo.None? then Failure(AttributeError)
      else (match neos[a.neo.value].diameter
            case Some(d) => Success(Number(d))
            case None => Success(NaN))
    case Hazardous =>
      if a.neo.None? then Failure(AttributeError)
      else Success(Flag(neos[a.neo.value].hazardous))
    case Date =>
      if a.time.None? then Failure(AttributeError)
      else Success(Day(a.time.value.date))
  }

  /** `AttributeFilter.__call__`: the attribute the filter's class reads,
      compared by its operator against its reference value. */
  function Call(f: AttributeFilter, a: Approach, neos: seq<Neo>): (r: Result<bool, FilterError>)
    requires LinkedIn(a, neos)
    ensures r == Failure(UnsupportedCriterion) <==> f.criterion == Attribute
    ensures f.criterion in {Diameter, Hazardous} && a.neo.None? ==> r == Failure(AttributeError)
    ensures f.criterion == Date && a.time.None? ==> r == Failure(AttributeError)
    ensures f.criterion == Distance && f.value.Number? ==>
              r == Success(Holds(f.op, a.distance, f.value.x))
    ensures f.criterion == Velocity && f.value.Number? ==>
              r == Success(Holds(f.op, a.velocity, f.value.x))
    ensures f.criterion == Diameter && a.neo.Some? && f.value.Number? ==>
              r == Success(neos[a.neo.value].diameter.Some?
                           && Holds(f.op, neos[a.neo.value].diameter.value, f.value.x))
    ensures f.criterion == Hazardous && a.neo.Some? && f.op == Eq && f.value.Flag? ==>
              r == Success(neos[a.neo.value].hazardous == f.value.b)
    ensures f.criterion == Date && a.time.Some? && f.value.Day? ==>
              r == Success(Holds(f.op, a.time.value.date as real, f.value.d as real))
  {
    match Get(f.criterion, a, neos)
    case Failure(e) => Failure(e)
    case Success(v) => Compare(f.op, v, f.value)
  }

  /** An unknown diameter satisfies no diameter bound, whatever the operator
      and the reference value. */
  lemma UnknownDiameterNeverMatches(f: AttributeFilter, a: Approach, neos: seq<Neo>)
    requires LinkedIn(a, neos) && f.criterion == Diameter
    requires a.neo.Some? && neos[a.neo.value].diameter.None?
    ensures Call(f, a, neos) != Success(true)
  {
  }

  /** The user criteria of `create_filters`, every one optional. Dates are
      ordinal day numbers. */
  datatype Criteria = Criteria(
    date: Option<int>, startDate: Option<int>, endDate: Option<int>,
    distanceMin: Option<real>, distanceMax: Option<real>,
    velocityMin: Option<real>, velocityMax: Option<real>,
    diameterMin: Option<real>, diameterMax: Option<real>,
    hazardous: Option<bool>)

  /** `create_filters()` called with no argument. */
  function NoCriteria(): Criteria {
    Criteria(None, None, None, None, None, None, None, None, None, None)
  }

  /** Python's `if bound:` on an optional float: `None` and `0.0` are false. */
  predicate Truthy(bound: Option<real>) {
    bound.Some? && bound.value != 0.0
  }

  /** The filter a numeric bound asks for, if its gate lets it through. */
  function Bound(bound: Option<real>, c: Criterion, op: Op): seq<AttributeFilter> {
    if Truthy(bound) then [AttributeFilter(c, op, Number(bound.value))] else []
  }

  /** The filter a date asks for; a `date` object is always truthy. */
  function DateBound(day: Option<int>, op: Op): seq<AttributeFilter> {
    if day.Some? then [AttributeFilter(Date, op, Day(day.value))] else []
  }

  /** Which criterion, if any, asks for a filter of kind `c` with operator
      `op`, and with which reference value. This is the table of options
      read from the filter's side. */
  function Requested(cr: Criteria, c: Criterion, op: Op): Option<Value> {
    match (c, op)
    case (Date, Eq) => if cr.date.Some? then Some(Day(cr.date.value)) else None
    case (Date, Ge) => if cr.startDate.Some? then Some(Day(cr.startDate.value)) else None
    case (Date, Le) => if cr.endDate.Some? then Some(Day(cr.endDate.value)) else None
    case (Distance, Ge) => if Truthy(cr.distanceMin) then Some(Number(cr.distanceMin.value)) else None
    case (Distance, Le) => if Truthy(cr.distanceMax) then Some(Number(cr.distanceMax.value)) else None
    case (Velocity, Ge) => if Truthy(cr.velocityMin) then Some(Number(cr.velocityMin.value)) else None
    case (Velocity, Le) => if Truthy(cr.velocityMax) then Some(Number(cr.velocityMax.value)) else None
    case (Diameter, Ge) => if Truthy(cr.diameterMin) then Some(Number(cr.diameterMin.value)) else None
    case (Diameter, Le) => if Truthy(cr.diameterMax) then Some(Number(cr.diameterMax.value)) else None
    case (Hazardous, Eq) => if cr.hazardous.Some? then Some(Flag(cr.hazardous.value)) else None
    case _ => None
  }

  /** The position of a filter kind in the builder's fixed output order. */
  function Rank(f: AttributeFilter): nat {
    match (f.criterion, f.op)
    case (Date, Eq) => 0
    case (Date, Ge) => 1
    case (Date, Le) => 2
    case (Distance, Ge) => 3
    case (Distance, Le) => 4
    case (Velocity, Ge) => 5
    case (Velocity, Le) => 6
    case (Diameter, Ge) => 7
    case (Diameter, Le) => 8
    case (Hazardous, Eq) => 9
    case _ => 10
  }

  /** The `k`-th `if` of `create_filters`: the filter that step appends,
      if its criterion is given. */
  function Step(cr: Criteria, k: nat): (p: seq<AttributeFilter>)
    requires k < 10
    ensures |p| <= 1
    ensures forall f :: f in p ==> Rank(f) == k && Requested(cr, f.criterion, f.op) == Some(f.value)
    ensures forall f :: Rank(f) == k && Requested(cr, f.criterion, f.op) == Some(f.value) ==> f in p
  {
    match k
    case 0 => DateBound(cr.date, Eq)
    case 1 => DateBound(cr.startDate, Ge)
    case 2 => DateBound(cr.endDate, Le)
    case 3 => Bound(cr.distanceMin, Distance, Ge)
    case 4 => Bound(cr.distanceMax, Distance, Le)
    case 5 => Bound(cr.velocityMin, Velocity, Ge)
    case 6 => Bound(cr.velocityMax, Velocity, Le)
    case 7 => Bound(cr.diameterMin, Diameter, Ge)
    case 8 => Bound(cr.diameterMax, Diameter, Le)
    case 9 => if cr.hazardous.Some? then [AttributeFilter(Hazardous, Eq, Flag(cr.hazardous.value))] else []
  }

  /** The list `create_filters` has built after its first `k` steps. */
  function Steps(cr: Criteria, k: nat): (r: seq<AttributeFilter>)
    requires k <= 10
    ensures |r| <= k
    ensures forall f :: f in r <==> Rank(f) < k && Requested(cr, f.criterion, f.op) == Some(f.value)
    ensures forall i, j :: 0 <= i < j < |r| ==> Rank(r[i]) < Rank(r[j])
  {
    if k == 0 then [] else Steps(cr, k - 1) + Step(cr, k - 1)
  }

  /** `create_filters`: one filter per criterion that is given, in the
      fixed order date, start, end, distance bounds, velocity bounds,
      diameter bounds, hazardous. Numeric bounds are gated by truthiness, so
      a bound of 0 is dropped; `hazardous` is gated by `is not None`. */
  function CreateFilters(cr: Criteria): (r: seq<AttributeFilter>)
    ensures |r| <= 10
    ensures forall f :: f in r <==> Requested(cr, f.criterion, f.op) == Some(f.value)
    ensures forall i, j :: 0 <= i < j < |r| ==> Rank(r[i]) < Rank(r[j])
    ensures forall f :: f in r ==> f.criterion != Attribute
    ensures cr == NoCriteria() ==> r == []
  {
    Steps(cr, 10)
  }

  /** With only the hazard flag given, the builder emits exactly the
      hazardous filter for it. */
  lemma OnlyHazardous(b: bool)
    ensures CreateFilters(NoCriteria().(hazardous := Some(b))) == [AttributeFilter(Hazardous, Eq, Flag(b))]
  {
    var r := CreateFilters(NoCriteria().(hazardous := Some(b)));
    var h := AttributeFilter(Hazardous, Eq, Flag(b));
    assert h in r;
    assert forall f :: f in r ==> f == h;
    assert r[0] in r;
  }

  /** No numeric bound of zero reaches the output, so `distance_min=0`
      emits nothing, while `hazardous=False` still emits its filter: the
      two gates differ. */
  lemma ZeroBoundDropped(cr: Criteria)
    ensures forall f :: f in CreateFilters(cr) && f.criterion in {Distance, Velocity, Diameter} ==> f.value != Number(0.0)
    ensures cr.distanceMin == Some(0.0) ==> forall f :: f in CreateFilters(cr) ==> !(f.criterion == Distance && f.op == Ge)
    ensures cr.hazardous == Some(false) ==> AttributeFilter(Hazardous, Eq, Flag(false)) in CreateFilters(cr)
  {
  }

  /** A generator run to the end: the items it yields, in order, and the
      exception it raises afterwards, if any. */
  datatype Stream<T, E> = Stream(items: seq<T>, fault: Option<E>)

  /** `limit`: with `n` zero or absent the stream itself; otherwise its
      first `n` items. `islice` stops pulling after the `n`-th item, so a
      fault further on is never reached. */
  function Limit<T, E>(s: Stream<T, E>, n: Option<nat>): (r: Stream<T, E>)
    ensures r.items <= s.items
    ensures n.None? || n.value == 0 ==> r == s
    ensures n.Some? && n.value > 0 ==>
              |r.items| == if n.value < |s.items| then n.value else |s.items|
    ensures r.fault.Some? ==> r == s
    ensures n.Some? && 0 < n.value <= |s.items| ==> r.fault.None?
    ensures n.Some? && n.value > |s.items| ==> r == s
  {
    if n.None? || n.value == 0 then s
    else if n.value <= |s.items| then Stream(s.items[..n.value], None)
    else s
  }

  /** Limiting twice is limiting once by the smaller positive bound. */
  lemma LimitLimit<T, E>(s: Stream<T, E>, m: nat, n: nat)
    requires m > 0 && n > 0
    ensures Limit(Limit(s, Some(m)), Some(n)) == Limit(s, Some(if m < n then m else n))
  {
  }
}
