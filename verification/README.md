# NEO database — a Dafny model

This project models the core of a small Python tool that explores near-Earth
objects (NEOs) and their close approaches to Earth. The tool loads NEO and
close-approach records, links each approach to its NEO in an in-memory
database, and answers queries. A query is a list of criterion filters built
from user options, optionally cut to a maximum count.

The model has five modules:

- `Wrappers`: `Option` and `Result`.
- `Models`: the two record types, their normalising constructors and their
  serialisation (`models.py`).
- `Filters`: the comparison semantics of the filter classes, the filter
  builder `create_filters` and the limiter `limit` (`filters.py`).
- `Database`: the two first-seen-wins indexes, the linking of approaches to
  NEOs, the two point lookups and the query generator (`database.py`).
- `Scenarios`: small worked examples over concrete records.

Modelling choices:

- Objects are immutable values. An approach's `neo` reference is the
  position of its NEO in the database's NEO collection. An NEO's
  `approaches` list holds positions in the approach collection.
- The constructors' keyword arguments are records of optional strings.
  Python's `float` on a string and the date helper's conversion are function
  parameters. Either returns `None` where the Python call would raise
  `ValueError`, and the constructors then return `Failure(ValueError)`.
- Comparisons follow Python's rules over the values a filter can see:
  - a float;
  - NaN, the unknown-diameter sentinel, which satisfies no comparison;
  - a bool, which compares as 0 or 1;
  - a date. A date is never equal to a number, and ordering it against a
    number raises `TypeError`.
- A generator is modelled as a `Stream`: the items it yields, in order, and
  the exception it raises afterwards, if any. `all(...)` over the lazy
  `map` stops at the first filter that does not return `True`. Later
  filters are never called. The query therefore raises at the first
  approach on which an evaluated filter raises.

Three behaviours of the code are kept as written:

- **Name index.** The docstring of `get_neo_by_name` (`database.py:65-66`)
  says no NEO is associated with the empty string or with `None`. The code
  (`database.py:39-40`) indexes every NEO's name, `None` included. So
  `get_neo_by_name(None)` returns the first unnamed NEO
  (`Database.GetNeoByName`, `Scenarios.OneUnnamedNeoLookups`). The empty
  string still finds nothing, because the NEO constructor turns an empty
  name into `None`. The model follows the code.
- **Zero bounds.** The builder gates each numeric bound with `if bound:`
  (`filters.py:135-146`), so a bound of `0` emits no filter.
  `hazardous=False` is kept, because it is gated by `is not None`
  (`filters.py:147-148`). The model follows the code
  (`Filters.ZeroBoundDropped`).
- **Unlinked approaches.** A diameter or hazard filter reads `.diameter` or
  `.hazardous` through the approach's NEO reference (`filters.py:82`,
  `filters.py:89`). For an approach that was never linked, that reference
  is `None`, and the read raises `AttributeError`. The model follows the
  code: `Filters.Get` returns `Failure(AttributeError)`, and the query
  stream ends with that fault (`Database.Query`).

The lookups and the query need only a database whose references and index
entries point into its collections (and, for the lookups, whose indexes are
first-seen-wins). They do not need the full linking invariant, so their
contracts also apply to databases built from records that are not fresh.

## Model

| member | source | states |
|---|---|---|
| Models.NewNeo | models.py:43-52 | The constructor raises exactly when a non-empty diameter does not parse. Otherwise it gives: the designation, or "" when absent; no name exactly when the name is absent or empty, and never the empty name; an unknown diameter exactly when it is absent or empty, else the parsed value; hazardous exactly when the marker is "Y"; no approaches. |
| Models.Fullname | models.py:54-61 | The designation is a prefix of the full name. The full name is longer exactly when the NEO has a name, and then the rest is a space followed by the name. |
| Models.Serialize | models.py:83-89 | The dictionary has exactly the keys designation, name, diameter_km and potentially_hazardous. |
| Models.SerializeRoundTrip | models.py:83-89 | Reading the serialised dictionary back gives the same NEO, so serialising loses only the approach list. |
| Models.RoundHalfEven | models.py:116-119 | The result is an integer within one half of its input. A whole number is unchanged, and a tie goes to the even integer. |
| Models.Round2 | models.py:116-119 | Rounding to two decimals gives a whole number of hundredths within half a hundredth of the input. A value already in hundredths is unchanged, and a tie goes to the even hundredth. |
| Models.ParseRounded | models.py:116-119 | An absent entry gives 0.0. A present one raises exactly when it does not parse; otherwise it gives a whole number of hundredths within half a hundredth of the parsed value. |
| Models.NewApproach | models.py:114-124 | The approach constructor raises exactly when a present distance, velocity or time does not parse. Otherwise: the NEO reference is unset; the designation defaults to ""; distance and velocity default to 0.0, else are the parsed values rounded to hundredths; the time is absent exactly when not given, else the parsed time. |
| Models.SerializeApproach | models.py:164-169 | The dictionary has exactly the keys datetime_utc, distance_au and velocity_km_s. |
| Models.SerializeApproachRoundTrip | models.py:164-169 | Given the designation, time and reference that the dictionary does not hold, reading it back gives the same approach. The time entry is the helper's formatting of the approach time. |
| Filters.Compare | filters.py:41-43 | The comparison raises `TypeError` exactly when a date is ordered against a non-date. NaN never satisfies a comparison. Dates compare as days, and floats and bools compare as numbers. |
| Filters.CompareSwap | filters.py:26-43 | Putting the reference value on the left is the same as flipping the operator, so the reference side matters only through the operator. |
| Filters.Get | filters.py:45-95 | The base class raises `UnsupportedCriterionError`, and only the base class does. Reading the diameter or hazard flag of an approach without an NEO, or the date of an approach without a time, raises `AttributeError`, and nothing else does. Otherwise each class yields its own attribute: the approach's distance or velocity; the linked NEO's diameter, or NaN when it is unknown; the linked NEO's hazard flag; or the calendar day of the approach time. |
| Filters.Call | filters.py:41-95 | Calling a filter raises `UnsupportedCriterionError` exactly for the base class, and `AttributeError` through an unset reference or time. Otherwise it answers whether the distance, velocity, known diameter, hazard flag or date meets the reference value under the filter's operator. |
| Filters.UnknownDiameterNeverMatches | filters.py:78-82 | An NEO with an unknown diameter passes no diameter filter, whatever the operator or bound. |
| Filters.Step | filters.py:128-148 | Each `if` of the builder appends at most one filter: the filter of its rank, when its option asks for it. |
| Filters.Steps | filters.py:128-150 | After the first k steps, the list holds exactly the requested filters of rank below k, in strictly increasing rank. |
| Filters.CreateFilters | filters.py:98-150 | A filter is in the output exactly when some option requests it with that value. The output is in the builder's fixed order, holds at most ten filters and never holds a base-class filter. No options give no filters. |
| Filters.OnlyHazardous | filters.py:147-148 | With only `hazardous` given, the builder emits exactly one equality filter on the hazard flag. |
| Filters.ZeroBoundDropped | filters.py:135-148 | No distance, velocity or diameter filter with a zero bound is ever emitted, so a zero `distance_min` emits nothing. `hazardous=False` still emits its filter. |
| Filters.Limit | filters.py:153-163 | The limited stream is a prefix of the input. With n zero or absent it is the input itself. Otherwise it holds min(n, length) items. When n items are available it ends without a fault, because the slice stops pulling. When fewer than n are available, it is the whole input, its exception included. |
| Filters.LimitLimit | filters.py:153-163 | Limiting by m and then by n is limiting once by the smaller of the two. |
| Database.FirstSeenIndex | database.py:36-40 | The index built with "insert when absent" maps exactly the keys that occur, each to the position of its first occurrence. |
| Database.LinkedTo | database.py:42-45 | The positions indexed to NEO i are exactly the approaches whose designation the index sends to i, in increasing order. An NEO no key maps to gets none. |
| Database.LinkOne | database.py:42-44 | An approach whose designation is indexed gets the indexed NEO as its reference. Any other approach keeps its reference. Nothing else changes. |
| Database.Link | database.py:42-45 | The linking loop links each approach by its own designation. It appends to each NEO's list exactly the approaches indexed to it, in input order, and leaves every other attribute alone. |
| Database.LinkCount | database.py:42-45 | Linking adds exactly one list entry per approach whose designation is indexed, so no approach is appended twice. |
| Database.LinkedIsValid | database.py:25-45 | Fresh records linked through first-seen designation and name indexes form a valid database. |
| Database.NewDatabase | database.py:25-45 | Both indexes map each designation, and each name value including `None`, to the first NEO carrying it. The constructor changes only NEO lists and approach references. From fresh records it builds a valid database whose total list length equals the number of linked approaches. |
| Database.LinkIff | database.py:42-45 | In a valid database an approach is in an NEO's list exactly when it refers to that NEO. |
| Database.LinkingComplete | database.py:36-45 | An approach whose designation some NEO carries is linked to the first NEO with that designation, which lists it. |
| Database.LinkingSound | database.py:42-45 | An approach whose designation no NEO carries stays unlinked and is in no NEO's list. |
| Database.ApproachesOfNeo | database.py:36-45 | The first NEO with a designation lists exactly the approaches carrying it, in order. A later duplicate lists nothing. |
| Database.GetNeoByDesignation | database.py:47-58 | On any database whose designation index is first-seen-wins, the lookup finds an NEO exactly when one carries the designation, and then it finds the first such NEO. |
| Database.GetNeoByName | database.py:60-76 | On any database whose name index is first-seen-wins, the lookup finds an NEO exactly when one has that name value, and then it finds the first such NEO. "" finds nothing when no name is empty. `None` finds only an unnamed NEO. |
| Database.AllTrue | database.py:99-101 | `all` over the filter results is `True` exactly when every filter returns `True`. |
| Database.AllTrueFirstFailure | database.py:99-101 | When `all` is not `True`, some filter is the first not to return `True`, all before it did, and `all` answers that filter's exception or `False`. |
| Database.Selected | database.py:98-102 | The reference selection is no longer than the input, and with no filters it is the whole input. |
| Database.SelectedMembers | database.py:98-102 | The selection holds exactly the approaches that pass every filter. |
| Database.FirstFailure | database.py:98-102 | Every verdict before the returned position succeeded, and the verdict at that position, if any, raised. |
| Database.Generate | database.py:98-102 | A generator over verdicts yields, up to the first raising verdict, the items whose verdict is `True`. It then raises that verdict's exception, or ends cleanly if no verdict raised. |
| Database.ChosenIsSelected | database.py:98-102 | Choosing approaches by the verdicts of `all` is the reference selection. |
| Database.Query | database.py:78-102 | The query ends cleanly exactly when no approach makes a filter raise, and then yields the reference selection. Otherwise it raises the exception of the first such approach, after yielding the selection of the approaches before it. |
| Database.QueryNoFilters | database.py:86-87 | With no filters, the query yields every approach in collection order. |
| Database.LimitedQuery | filters.py:153-163 | For n > 0, a limited query that has n matches available, or that ends cleanly, yields its first min(n, count) matches and does not raise, even when a later approach would. A query that raises before n matches raises the same exception under the limit, after the same items. |
| Scenarios.EmptyFieldsNormalise | models.py:43-52 | Empty name, diameter and hazard fields give an unnamed NEO with unknown diameter that is not hazardous, whatever `float` does. |
| Scenarios.SingleApproachQuery | database.py:98-102 | Over one approach, the query yields it exactly when `all` is `True` on it. |
| Scenarios.OneNeoHazardQuery | database.py:98-102 | With one NEO and one approach linked to it, a hazard-flag query yields the approach exactly when the flags agree. |
| Scenarios.OneUnnamedNeoLookups | database.py:74-76 | With one unnamed NEO, the name "" finds nothing and `None` finds that NEO. |
| Scenarios.LinkOneApproach | database.py:36-45 | One fresh NEO and one approach with its designation build a valid database in which the approach is linked to it. |
| Scenarios.UnnamedNeoScenario | database.py:25-102 | NEO "2000 AB" with empty fields, plus one approach to it: `hazardous=False` returns the approach, `hazardous=True` returns nothing, "" finds nothing, and `None` finds the NEO. |
| Scenarios.BoundsAreConjoined | filters.py:135-142 | With a distance ceiling of 0.2 au and a velocity floor of 10 km/s, an approach at 0.15 au and 5 km/s passes the distance filter but not the whole list. |

## Left out

- Loading the CSV and JSON data files (`extract.py`) and writing results are not modelled; they are I/O.
- The date helpers that parse and format timestamps are parameters (`parseTime`, `timeStr`), not models.
- Python's `float` on a string is a parameter. Which strings parse, including "nan" and "inf", is not modelled. A parsed diameter is always a finite real, so only an absent or empty diameter yields NaN.
- Models.Round2: rounds exact reals half to even. Python rounds the binary double, so on a decimal tie that has no exact double (19.995, say) the two can differ by one hundredth. The contract bounds the error by half a hundredth, not the double's exact result.
- Models.NewApproach: the time is kept as a full timestamp, and filters read its calendar day as an ordinal number. The calendar itself is not modelled.
- `__str__`, `__repr__` and `time_str` produce display text only and are not modelled.
- Laziness of the generators is not modelled: a query or limit is the whole stream it would produce when consumed to the end, plus the exception that ends it. Filters are pure, so evaluation order changes nothing else.
- Filters.Limit: a negative `n` is excluded by the type `nat`. In Python, `islice` rejects it with `ValueError`.
- Database.NewDatabase: validity is proved only for fresh records, that is, NEOs with no approaches and approaches with no reference. The loader produces only such records. For other inputs only the indexes and the "changes only links" facts are stated.
- Names and criteria values are exact: no case folding or whitespace trimming, which matches the source's exact matching.
- Object identity is not modelled. Two NEO records with equal fields are distinct positions in the collection, as they are distinct objects in Python.
