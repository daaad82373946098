/** The two record types of the data set: a near-Earth object (NEO) and one
    close approach of an NEO to Earth, with the normalisation their
    constructors apply to raw, string-valued fields. */
module Models {
  import opened Wrappers

  /** A UTC timestamp: `date` is the calendar day as an ordinal day number
      (so days are totally ordered), `second` the second within that day. */
  datatype DateTime = DateTime(date: int, second: nat)

  /** The only error a constructor raises: a field that does not parse. */
  datatype ModelError = ValueError

  /** The keyword arguments of `NearEarthObject(**info)`: each key may be
      absent (`None`) or carry the string the loader read. */
  datatype NeoInfo = NeoInfo(
    designation: Option<string>,
    name: Option<string>,
    diameter: Option<string>,
    hazardous: Option<string>)

  /** A near-Earth object. `name == None` is "no name"; `diameter == None`
      is the not-a-number sentinel of an unknown diameter; `approaches`
      holds positions in the database's approach collection. */
  datatype Neo = Neo(
    designation: string,
    name: Option<string>,
    diameter: Option<real>,
    hazardous: bool,
    approaches: seq<nat>)

  /** The keyword arguments of `CloseApproach(**info)`. */
  datatype ApproachInfo = ApproachInfo(
    designation: Option<string>,
    time: Option<string>,
    distance: Option<string>,
    velocity: Option<string>)

  /** A close approach. `designation` is the raw foreign key; `neo` is the
      position of the linked NEO in the database's NEO collection, unset
      until the database links it. */
  datatype Approach = Approach(
    designation: string,
    time: Option<DateTime>,
    distance: real,
    velocity: real,
    neo: Option<nat>)

  /** `str(info[key]) if key in info else ''` for a string-valued entry. */
  function OrEmpty(entry: Option<string>): string {
    entry.GetOr("")
  }

  /** A real that is a whole number of hundredths. */
  predicate IsCents(x: real) {
    (x * 100.0).Floor as real == x * 100.0
  }

  /** The integer nearest to `y`, a tie going to the even one. */
  function RoundHalfEven(y: real): (k: int)
    ensures -0.5 <= k as real - y <= 0.5
    ensures y.Floor as real == y ==> k as real == y
    ensures y - y.Floor as real == 0.5 ==> k % 2 == 0
  {
    var f := y.Floor;
    var frac := y - f as real;
    if frac < 0.5 then f
    else if frac > 0.5 then f + 1
    else if f % 2 == 0 then f else f + 1
  }

  /** Dividing a whole number of hundredths by 100 undoes scaling by 100. */
  lemma Hundredths(k: int, x: real)
    requires -0.5 <= k as real - x * 100.0 <= 0.5
    ensures (k as real / 100.0) * 100.0 == k as real
    ensures -1.0 / 200.0 <= k as real / 100.0 - x <= 1.0 / 200.0
    ensures k as real == x * 100.0 ==> k as real / 100.0 == x
  {
  }

  /** Python's `round(x, 2)` on an exact value: the nearest hundredth, with
      a tie going to the even hundredth. */
  function Round2(x: real): (r: real)
    ensures IsCents(r)
    ensures -1.0 / 200.0 <= r - x <= 1.0 / 200.0
    ensures IsCents(x) ==> r == x
    ensures x * 100.0 - (x * 100.0).Floor as real == 0.5 ==> (r * 100.0).Floor % 2 == 0
  {
    var y := x * 100.0;
    var k := RoundHalfEven(y);
    Hundredths(k, x);
    k as real / 100.0
  }

  /** `NearEarthObject.__init__`: the designation defaults to the empty
      string, an absent or empty name becomes "no name", an absent or empty
      diameter becomes the unknown sentinel and any other diameter is parsed
      (raising when it does not parse), and only the exact marker "Y" makes
      the object hazardous. `parseFloat` is Python's `float` on a string;
      `None` means it raises. */
  function NewNeo(info: NeoInfo, parseFloat: string -> Option<real>): (r: Result<Neo, ModelError>)
    ensures r.Failure? <==>
              info.diameter.Some? && info.diameter.value != "" && parseFloat(info.diameter.value).None?
    ensures r.Success? ==>
              && (info.designation.Some? ==> r.value.designation == info.designation.value)
              && (info.designation.None? ==> r.value.designation == "")
              && (r.value.name.None? <==> info.name.None? || info.name == Some(""))
              && (r.value.name.Some? ==> r.value.name == info.name)
              && r.value.name != Some("")
              && (r.value.diameter.None? <==> info.diameter.None? || info.diameter == Some(""))
              && (r.value.diameter.Some? ==> r.value.diameter == parseFloat(info.diameter.value))
              && (r.value.hazardous <==> info.hazardous == Some("Y"))
              && r.value.approaches == []
  {
    var name := if info.name.Some? && info.name.value != "" then info.name else None;
    if info.diameter.Some? && info.diameter.value != "" then
      match parseFloat(info.diameter.value)
      case None => Failure(ValueError)
      case Some(d) =>
        Success(Neo(OrEmpty(info.designation), name, Some(d), info.hazardous == Some("Y"), []))
    else
      Success(Neo(OrEmpty(info.designation), name, None, info.hazardous == Some("Y"), []))
  }

  /** Whether a name is "set" in Python's truthiness sense. */
  predicate HasName(n: Neo) {
    n.name.Some? && n.name.value != ""
  }

  /** `NearEarthObject.fullname`: the designation, followed by a space and
      the name when the NEO has one. */
  function Fullname(n: Neo): (r: string)
    ensures n.designation <= r
    ensures HasName(n) <==> |r| > |n.designation|
    ensures HasName(n) ==> r[|n.designation|..] == " " + n.name.value
  {
    if HasName(n) then n.designation + " " + n.name.value else n.designation
  }

  /** A value of the dictionary `serialize` returns. */
  datatype Field = Text(text: string) | Null | Float(x: real) | FloatNaN | Bool(b: bool)

  const SerializedKeys: set<string> := {"designation", "name", "diameter_km", "potentially_hazardous"}

  /** `NearEarthObject.serialize`: the four stored attributes under fixed
      keys; a missing name becomes `None` and an unknown diameter NaN. */
  function Serialize(n: Neo): (m: map<string, Field>)
    ensures m.Keys == SerializedKeys
  {
    map[
      "designation" := Text(n.designation),
      "name" := (if n.name.Some? then Text(n.name.value) else Null),
      "diameter_km" := (if n.diameter.Some? then Float(n.diameter.value) else FloatNaN),
      "potentially_hazardous" := Bool(n.hazardous)]
  }

  /** Reads a serialized NEO back, with the approaches it does not record;
      `None` when the dictionary is not shaped like `Serialize`'s output. */
  function Deserialize(m: map<string, Field>, approaches: seq<nat>): Option<Neo> {
    if SerializedKeys <= m.Keys
       && m["designation"].Text?
       && (m["name"].Text? || m["name"].Null?)
       && (m["diameter_km"].Float? || m["diameter_km"].FloatNaN?)
       && m["potentially_hazardous"].Bool?
    then
      Some(Neo(
        m["designation"].text,
        if m["name"].Text? then Some(m["name"].text) else None,
        if m["diameter_km"].Float? then Some(m["diameter_km"].x) else None,
        m["potentially_hazardous"].b,
        approaches))
    else None
  }

  /** `serialize` loses nothing but the approaches: reading its output back
      gives the same NEO. */
  lemma SerializeRoundTrip(n: Neo)
    ensures Deserialize(Serialize(n), n.approaches) == Some(n)
  {
    var m := Serialize(n);
    assert m["designation"] == Text(n.designation);
  }

  /** `CloseApproach.__init__`: the designation defaults to the empty
      string, distance and velocity default to 0.0 and are otherwise parsed
      and rounded to two decimals, the time is parsed when present, and the
      NEO reference starts unset. `parseTime` is the date helper's
      conversion; `None` from either parser means it raises. */
  function NewApproach(info: ApproachInfo, parseFloat: string -> Option<real>,
                       parseTime: string -> Option<DateTime>): (r: Result<Approach, ModelError>)
    ensures r.Failure? <==>
              || (info.distance.Some? && parseFloat(info.distance.value).None?)
              || (info.velocity.Some? && parseFloat(info.velocity.value).None?)
              || (info.time.Some? && parseTime(info.time.value).None?)
    ensures r.Success? ==>
              && r.value.neo.None?
              && (info.designation.Some? ==> r.value.designation == info.designation.value)
              && (info.designation.None? ==> r.value.designation == "")
              && (info.distance.None? ==> r.value.distance == 0.0)
              && (info.distance.Some? ==>
                    -1.0 / 200.0 <= r.value.distance - parseFloat(info.distance.value).value <= 1.0 / 200.0)
              && (info.velocity.None? ==> r.value.velocity == 0.0)
              && (info.velocity.Some? ==>
                    -1.0 / 200.0 <= r.value.velocity - parseFloat(info.velocity.value).value <= 1.0 / 200.0)
              && IsCents(r.value.distance) && IsCents(r.value.velocity)
              && (info.time.None? <==> r.value.time.None?)
              && (info.time.Some? ==> r.value.time == parseTime(info.time.value))
  {
    var distance :- ParseRounded(info.distance, parseFloat);
    var velocity :- ParseRounded(info.velocity, parseFloat);
    var time :- if info.time.None? then Success(None)
                else match parseTime(info.time.value)
                     case None => Failure(ValueError)
                     case Some(t) => Success(Some(t));
    Success(Approach(OrEmpty(info.designation), time, distance, velocity, None))
  }

  const ApproachKeys: set<string> := {"datetime_utc", "distance_au", "velocity_km_s"}

  /** `CloseApproach.serialize`: the formatted time under "datetime_utc"
      and the two measurements. `timeStr` is the date helper's formatting. */
  function SerializeApproach(a: Approach, timeStr: Option<DateTime> -> string): (m: map<string, Field>)
    ensures m.Keys == ApproachKeys
  {
    map[
      "datetime_utc" := Text(timeStr(a.time)),
      "distance_au" := Float(a.distance),
      "velocity_km_s" := Float(a.velocity)]
  }

  /** Reads a serialized approach back, given what `serialize` leaves out:
      the designation, the time as a value and the NEO reference. */
  function DeserializeApproach(m: map<string, Field>, designation: string, time: Option<DateTime>,
                               neo: Option<nat>): Option<Approach> {
    if ApproachKeys <= m.Keys && m["distance_au"].Float? && m["velocity_km_s"].Float?
    then Some(Approach(designation, time, m["distance_au"].x, m["velocity_km_s"].x, neo))
    else None
  }

  /** The serialized approach keeps both measurements exactly and the time
      as the helper formats it. */
  lemma SerializeApproachRoundTrip(a: Approach, timeStr: Option<DateTime> -> string)
    ensures DeserializeApproach(SerializeApproach(a, timeStr), a.designation, a.time, a.neo) == Some(a)
    ensures SerializeApproach(a, timeStr)["datetime_utc"] == Text(timeStr(a.time))
  {
    var m := SerializeApproach(a, timeStr);
    assert m["distance_au"] == Float(a.distance);
  }

  /** `round(float(info[key]), 2) if key in info else 0.0`. */
  function ParseRounded(entry: Option<string>, parseFloat: string -> Option<real>): (r: Result<real, ModelError>)
    ensures r.Failure? <==> entry.Some? && parseFloat(entry.value).None?
    ensures entry.None? ==> r == Success(0.0)
    ensures r.Success? && entry.Some? ==>
              -1.0 / 200.0 <= r.value - parseFloat(entry.value).value <= 1.0 / 200.0
    ensures r.Success? ==> IsCents(r.value)
  {
    if entry.None? then Success(0.0)
    else match parseFloat(entry.value)
         case None => Failure(ValueError)
         case Some(x) => Success(Round2(x))
  }
}
