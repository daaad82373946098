/** Worked examples over concrete records: an unnamed, unmeasured NEO with
    one approach, queried by hazard flag and looked up by name. */
module Scenarios {
  import opened Wrappers
  import opened Models
  import opened Filters
  import opened Database

  /** Empty name, diameter and hazard marker normalise to no name, an
      unknown diameter and not hazardous, whatever `float` does. */
  lemma EmptyFieldsNormalise(parseFloat: string -> Option<real>, designation: string)
    ensures var neo := NewNeo(NeoInfo(Some(designation), Some(""), Some(""), Some("")), parseFloat);
            && neo.Success?
            && neo.value == Neo(designation, None, None, false, [])
  {
  }

  /** Over a single approach the query yields it exactly when `all`
      returns `True` on it. */
  lemma SingleApproachQuery(db: NeoDatabase, filters: seq<AttributeFilter>, b: bool)
    requires Valid(db) && |db.approaches| == 1
    requires AllTrue(filters, db.approaches[0], db.neos) == Success(b)
    ensures Query(db, filters) == Stream(if b then db.approaches else [], None)
  {
    assert db.approaches[1..] == [];
  }

  /** A database of one NEO and one approach linked to it: querying by
      hazard flag returns the approach exactly when the flag matches the
      NEO's. */
  lemma OneNeoHazardQuery(db: NeoDatabase, b: bool)
    requires Valid(db) && |db.neos| == 1 && |db.approaches| == 1
    requires db.approaches[0].neo == Some(0)
    ensures Query(db, CreateFilters(NoCriteria().(hazardous := Some(b))))
            == Stream(if db.neos[0].hazardous == b then db.approaches else [], None)
  {
    var h := AttributeFilter(Hazardous, Eq, Flag(b));
    OnlyHazardous(b);
    var v := Call(h, db.approaches[0], db.neos);
    assert v == Success(db.neos[0].hazardous == b);
    assert AllTrue([h], db.approaches[0], db.neos) == v;
    SingleApproachQuery(db, [h], db.neos[0].hazardous == b);
  }

  /** In that database the empty name finds nothing and `None` finds the
      unnamed NEO. */
  lemma OneUnnamedNeoLookups(db: NeoDatabase)
    requires Valid(db) && |db.neos| == 1 && db.neos[0].name.None?
    ensures GetNeoByName(db, Some("")) == None
    ensures GetNeoByName(db, None) == Some(db.neos[0])
  {
    assert forall i :: 0 <= i < |db.neos| ==> db.neos[i].name != Some("");
  }

  /** Building the database from that NEO and an approach with its
      designation links the approach to it. */
  lemma LinkOneApproach(neo: Neo, ap: Approach)
    requires neo.approaches == [] && ap.neo.None? && ap.designation == neo.designation
    ensures var db := NewDatabase([neo], [ap]);
            && Valid(db) && |db.neos| == 1 && |db.approaches| == 1
            && db.approaches[0].neo == Some(0)
            && db.neos[0].(approaches := []) == neo
  {
    assert Fresh([neo], [ap]);
    assert Designations([neo])[0] == neo.designation;
  }

  /** The whole scenario, from raw fields: an NEO "2000 AB" with empty
      name, diameter and hazard marker, and one approach to it. */
  lemma UnnamedNeoScenario(parseFloat: string -> Option<real>, ap: Approach)
    requires ap.designation == "2000 AB" && ap.neo.None?
    ensures var neo := NewNeo(NeoInfo(Some("2000 AB"), Some(""), Some(""), Some("")), parseFloat);
            && neo.Success?
            && var db := NewDatabase([neo.value], [ap]);
               && Valid(db)
               && Query(db, CreateFilters(NoCriteria().(hazardous := Some(false)))) == Stream(db.approaches, None)
               && Query(db, CreateFilters(NoCriteria().(hazardous := Some(true)))) == Stream([], None)
               && GetNeoByName(db, Some("")) == None
               && GetNeoByName(db, None) == Some(db.neos[0])
  {
    EmptyFieldsNormalise(parseFloat, "2000 AB");
    var neo := Neo("2000 AB", None, None, false, []);
    LinkOneApproach(neo, ap);
    OneNeoHazardQuery(NewDatabase([neo], [ap]), false);
    OneNeoHazardQuery(NewDatabase([neo], [ap]), true);
    OneUnnamedNeoLookups(NewDatabase([neo], [ap]));
  }

  /** An approach at 0.15 au and 5 km/s passes a 0.2 au distance ceiling
      but not a 10 km/s velocity floor, so criteria holding both exclude it,
      whatever else they hold. */
  lemma BoundsAreConjoined(cr: Criteria, a: Approach, neos: seq<Neo>)
    requires cr.distanceMax == Some(0.2) && cr.velocityMin == Some(10.0)
    requires LinkedIn(a, neos) && a.distance == 0.15 && a.velocity == 5.0
    ensures AttributeFilter(Distance, Le, Number(0.2)) in CreateFilters(cr)
    ensures Call(AttributeFilter(Distance, Le, Number(0.2)), a, neos) == Success(true)
    ensures AttributeFilter(Velocity, Ge, Number(10.0)) in CreateFilters(cr)
    ensures !Passes(CreateFilters(cr), a, neos)
  {
    var filters := CreateFilters(cr);
    var v := AttributeFilter(Velocity, Ge, Number(10.0));
    assert Requested(cr, Distance, Le) == Some(Number(0.2));
    assert Requested(cr, Velocity, Ge) == Some(Number(10.0));
    assert v in filters;
    assert Call(v, a, neos) == Success(false);
  }
}
