/** The linked database: two first-seen-wins indexes over the NEOs, the
    one-time linking of approaches to their NEOs, point lookups, and the
    filtered query over the approaches. */
module Database {
  import opened Wrappers
  import opened Models
  import opened Filters

  /** An `NEODatabase`: the owned collections and the two indexes, which
      map a designation, or a name value (`None` included), to a position
      in `neos`. */
  datatype NeoDatabase = NeoDatabase(
    neos: seq<Neo>,
    approaches: seq<Approach>,
    byDesignation: map<string, nat>,
    byName: map<Option<string>, nat>)

  /** `m` maps exactly the keys occurring in `keys`, each to the position
      of its first occurrence. */
  ghost predicate FirstSeen<K>(m: map<K, nat>, keys: seq<K>) {
    && (forall j :: 0 <= j < |keys| ==> keys[j] in m)
    && (forall k :: k in m ==>
          && m[k] < |keys|
          && keys[m[k]] == k
          && forall j :: 0 <= j < m[k] ==> keys[j] != k)
  }

  /** The index a `for` loop builds with `if key not in m: m[key] = ...`. */
  function FirstSeenIndex<K>(keys: seq<K>): (m: map<K, nat>)
    ensures FirstSeen(m, keys)
    decreases |keys|
  {
    if |keys| == 0 then map[]
    else
      var init := keys[..|keys| - 1];
      var m := FirstSeenIndex(init);
      var k := keys[|keys| - 1];
      assert forall j :: 0 <= j < |init| ==> init[j] == keys[j];
      assert keys == init + [k];
      if k in m then m else m[k := |keys| - 1]
  }

  function Designations(neos: seq<Neo>): (ds: seq<string>)
    ensures |ds| == |neos| && forall i :: 0 <= i < |neos| ==> ds[i] == neos[i].designation
  {
    seq(|neos|, i requires 0 <= i < |neos| => neos[i].designation)
  }

  function Names(neos: seq<Neo>): (ns: seq<Option<string>>)
    ensures |ns| == |neos| && forall i :: 0 <= i < |neos| ==> ns[i] == neos[i].name
  {
    seq(|neos|, i requires 0 <= i < |neos| => neos[i].name)
  }

  /** The positions, in increasing order, of the approaches whose
      designation the index sends to NEO `i`. */
  function LinkedTo(aps: seq<Approach>, index: map<string, nat>, i: nat): (r: seq<nat>)
    ensures forall k: nat :: k in r <==> k < |aps| && aps[k].designation in index && index[aps[k].designation] == i
    ensures forall p, q :: 0 <= p < q < |r| ==> r[p] < r[q]
    ensures (forall d :: d in index ==> index[d] != i) ==> r == []
    decreases |aps|
  {
    if |aps| == 0 then []
    else
      var init := aps[..|aps| - 1];
      var a := aps[|aps| - 1];
      var r := LinkedTo(init, index, i);
      assert forall k :: 0 <= k < |init| ==> init[k] == aps[k];
      assert forall p :: 0 <= p < |r| ==> r[p] in r;
      if a.designation in index && index[a.designation] == i then r + [|aps| - 1] else r
  }

  /** An approach after the linking step: its reference set when its
      designation is indexed, otherwise as it was. */
  function LinkOne(a: Approach, index: map<string, nat>): (r: Approach)
    ensures r.(neo := a.neo) == a
    ensures r.neo == if a.designation in index then Some(index[a.designation]) else a.neo
  {
    if a.designation in index then a.(neo := Some(index[a.designation])) else a
  }

  /** The total length of the NEOs' approach lists. */
  function TotalLinks(neos: seq<Neo>): nat
    decreases |neos|
  {
    if |neos| == 0 then 0 else TotalLinks(neos[..|neos| - 1]) + |neos[|neos| - 1].approaches|
  }

  /** The number of approaches whose NEO reference is set. */
  function CountLinked(aps: seq<Approach>): nat
    decreases |aps|
  {
    if |aps| == 0 then 0 else CountLinked(aps[..|aps| - 1]) + (if aps[|aps| - 1].neo.Some? then 1 else 0)
  }

  /** Replacing one NEO changes the total by the change in its list's length. */
  lemma {:induction false} TotalLinksUpdate(neos: seq<Neo>, i: nat, n: Neo)
    requires i < |neos|
    ensures TotalLinks(neos[i := n]) + |neos[i].approaches| == TotalLinks(neos) + |n.approaches|
    decreases |neos|
  {
    var last := |neos| - 1;
    var updated := neos[i := n];
    assert updated[..last] == if i == last then neos[..last] else neos[..last][i := n];
    if i < last {
      TotalLinksUpdate(neos[..last], i, n);
    }
  }

  /** The second loop of `NEODatabase.__init__`: for each approach in
      order, when its designation is indexed, set its reference and append
      it to that NEO's list. */
  function Link(neos: seq<Neo>, aps: seq<Approach>, index: map<string, nat>): (r: (seq<Neo>, seq<Approach>))
    requires forall d :: d in index ==> index[d] < |neos|
    ensures |r.0| == |neos| && |r.1| == |aps|
    ensures forall k :: 0 <= k < |aps| ==> r.1[k] == LinkOne(aps[k], index)
    ensures forall i :: 0 <= i < |neos| ==>
              r.0[i] == neos[i].(approaches := neos[i].approaches + LinkedTo(aps, index, i))
    decreases |aps|
  {
    if |aps| == 0 then (neos, [])
    else
      var init := aps[..|aps| - 1];
      var a := aps[|aps| - 1];
      var k := |aps| - 1;
      var (ns, linked) := Link(neos, init, index);
      assert forall j :: 0 <= j < |init| ==> init[j] == aps[j];
      assert (linked + [LinkOne(a, index)])[..k] == linked;
      if a.designation in index then
        var i := index[a.designation];
        var n := ns[i].(approaches := ns[i].approaches + [k]);
        (ns[i := n], linked + [LinkOne(a, index)])
      else
        (ns, linked + [LinkOne(a, index)])
  }

  /** The number of approaches whose designation the index knows. */
  function CountMatched(aps: seq<Approach>, index: map<string, nat>): nat
    decreases |aps|
  {
    if |aps| == 0 then 0
    else CountMatched(aps[..|aps| - 1], index) + (if aps[|aps| - 1].designation in index then 1 else 0)
  }

  /** Linking adds one entry to the NEOs' lists per indexed approach: every
      approach is appended at most once. */
  lemma {:induction false} LinkCount(neos: seq<Neo>, aps: seq<Approach>, index: map<string, nat>)
    requires forall d :: d in index ==> index[d] < |neos|
    ensures TotalLinks(Link(neos, aps, index).0) == TotalLinks(neos) + CountMatched(aps, index)
    decreases |aps|
  {
    if |aps| > 0 {
      var k := |aps| - 1;
      var init := aps[..k];
      var a := aps[k];
      LinkCount(neos, init, index);
      var before := Link(neos, init, index).0;
      var after := Link(neos, aps, index).0;
      if a.designation in index {
        var i := index[a.designation];
        assert after == before[i := after[i]];
        TotalLinksUpdate(before, i, after[i]);
      } else {
        assert after == before;
      }
    }
  }

  /** NEOs with empty lists have no links in total. */
  lemma {:induction false} TotalLinksEmpty(neos: seq<Neo>)
    requires forall i :: 0 <= i < |neos| ==> neos[i].approaches == []
    ensures TotalLinks(neos) == 0
    decreases |neos|
  {
    if |neos| > 0 {
      TotalLinksEmpty(neos[..|neos| - 1]);
    }
  }

  /** Counting set references is counting indexed designations when exactly
      the indexed approaches carry one. */
  lemma {:induction false} CountLinkedMatched(linked: seq<Approach>, aps: seq<Approach>, index: map<string, nat>)
    requires |linked| == |aps|
    requires forall k :: 0 <= k < |aps| ==> (linked[k].neo.Some? <==> aps[k].designation in index)
    ensures CountLinked(linked) == CountMatched(aps, index)
    decreases |aps|
  {
    if |aps| > 0 {
      var k := |aps| - 1;
      CountLinkedMatched(linked[..k], aps[..k], index);
    }
  }

  /** Records as the loaders make them: no NEO has approaches yet and no
      approach has a NEO. */
  predicate Fresh(neos: seq<Neo>, aps: seq<Approach>) {
    && (forall i :: 0 <= i < |neos| ==> neos[i].approaches == [])
    && (forall k :: 0 <= k < |aps| ==> aps[k].neo.None?)
  }

  /** Every reference and index entry points into the collections. */
  predicate WellFormed(db: NeoDatabase) {
    && (forall d :: d in db.byDesignation ==> db.byDesignation[d] < |db.neos|)
    && (forall n :: n in db.byName ==> db.byName[n] < |db.neos|)
    && (forall k :: 0 <= k < |db.approaches| ==> LinkedIn(db.approaches[k], db.neos))
  }

  /** Both indexes are first-seen-wins indexes of the NEOs. */
  ghost predicate Indexed(db: NeoDatabase) {
    && FirstSeen(db.byDesignation, Designations(db.neos))
    && FirstSeen(db.byName, Names(db.neos))
  }

  /** Each approach refers to the NEO its designation is indexed under,
      and to none when the designation is not indexed. */
  predicate References(db: NeoDatabase) {
    forall k :: 0 <= k < |db.approaches| ==>
      db.approaches[k].neo ==
        if db.approaches[k].designation in db.byDesignation
        then Some(db.byDesignation[db.approaches[k].designation]) else None
  }

  /** Each NEO's list holds, in order, the approaches indexed to it. */
  predicate Lists(db: NeoDatabase) {
    forall i :: 0 <= i < |db.neos| ==> db.neos[i].approaches == LinkedTo(db.approaches, db.byDesignation, i)
  }

  /** The state `NEODatabase.__init__` leaves: first-seen-wins indexes, and
      every approach linked exactly when its designation is indexed, to the
      indexed NEO, whose list holds exactly those approaches in order. */
  ghost predicate Valid(db: NeoDatabase) {
    WellFormed(db) && Indexed(db) && References(db) && Lists(db)
  }

  /** `LinkedTo` reads only the designations. */
  lemma {:induction false} LinkedToDesignations(xs: seq<Approach>, ys: seq<Approach>, index: map<string, nat>, i: nat)
    requires |xs| == |ys|
    requires forall k :: 0 <= k < |xs| ==> xs[k].designation == ys[k].designation
    ensures LinkedTo(xs, index, i) == LinkedTo(ys, index, i)
    decreases |xs|
  {
    if |xs| > 0 {
      var k := |xs| - 1;
      LinkedToDesignations(xs[..k], ys[..k], index, i);
    }
  }

  /** The facts the linking step establishes about its output. */
  ghost predicate LinkedFrom(neos: seq<Neo>, aps: seq<Approach>, db: NeoDatabase) {
    && |db.neos| == |neos| && |db.approaches| == |aps|
    && (forall k :: 0 <= k < |aps| ==> db.approaches[k] == LinkOne(aps[k], db.byDesignation))
    && (forall i :: 0 <= i < |neos| ==>
          db.neos[i] == neos[i].(approaches := neos[i].approaches + LinkedTo(aps, db.byDesignation, i)))
  }

  /** Linking fresh records through a first-seen designation index leaves
      a valid database. */
  lemma LinkedIsValid(neos: seq<Neo>, aps: seq<Approach>, db: NeoDatabase)
    requires Fresh(neos, aps) && LinkedFrom(neos, aps, db)
    requires FirstSeen(db.byDesignation, Designations(neos)) && FirstSeen(db.byName, Names(neos))
    ensures Valid(db)
  {
    assert Designations(db.neos) == Designations(neos);
    assert Names(db.neos) == Names(neos);
    assert Indexed(db);
    LinkedReferences(neos, aps, db);
    LinkedLists(neos, aps, db);
  }

  lemma LinkedReferences(neos: seq<Neo>, aps: seq<Approach>, db: NeoDatabase)
    requires Fresh(neos, aps) && LinkedFrom(neos, aps, db)
    requires FirstSeen(db.byDesignation, Designations(neos)) && FirstSeen(db.byName, Names(neos))
    ensures WellFormed(db) && References(db)
  {
    assert forall d :: d in db.byDesignation ==> db.byDesignation[d] < |db.neos|;
  }

  lemma LinkedLists(neos: seq<Neo>, aps: seq<Approach>, db: NeoDatabase)
    requires Fresh(neos, aps) && LinkedFrom(neos, aps, db)
    ensures Lists(db)
  {
    forall i | 0 <= i < |db.neos|
      ensures db.neos[i].approaches == LinkedTo(db.approaches, db.byDesignation, i)
    {
      LinkedToDesignations(aps, db.approaches, db.byDesignation, i);
    }
  }

  /** `NEODatabase.__init__`: index the NEOs by designation and by name,
      first seen winning, then link the approaches through the designation
      index. */
  function NewDatabase(neos: seq<Neo>, aps: seq<Approach>): (db: NeoDatabase)
    ensures FirstSeen(db.byDesignation, Designations(neos))
    ensures FirstSeen(db.byName, Names(neos))
    ensures |db.neos| == |neos| && |db.approaches| == |aps|
    ensures forall i :: 0 <= i < |neos| ==> db.neos[i].(approaches := neos[i].approaches) == neos[i]
    ensures forall k :: 0 <= k < |aps| ==> db.approaches[k].(neo := aps[k].neo) == aps[k]
    ensures Fresh(neos, aps) ==> Valid(db)
    ensures Fresh(neos, aps) ==> TotalLinks(db.neos) == CountLinked(db.approaches)
  {
    var byDesignation := FirstSeenIndex(Designations(neos));
    var byName := FirstSeenIndex(Names(neos));
    var (linkedNeos, linkedAps) := Link(neos, aps, byDesignation);
    var db := NeoDatabase(linkedNeos, linkedAps, byDesignation, byName);
    if Fresh(neos, aps) then
      LinkedIsValid(neos, aps, db);
      LinkCount(neos, aps, byDesignation);
      TotalLinksEmpty(neos);
      CountLinkedMatched(linkedAps, aps, byDesignation);
      db
    else db
  }

  /** An approach is in a NEO's list exactly when it refers to that NEO:
      each approach sits in at most one list. */
  lemma LinkIff(db: NeoDatabase, i: nat, k: nat)
    requires Valid(db) && i < |db.neos| && k < |db.approaches|
    ensures k in db.neos[i].approaches <==> db.approaches[k].neo == Some(i)
  {
  }

  /** An approach whose designation some NEO carries is linked to the
      first such NEO, which has the same designation and lists it. */
  lemma LinkingComplete(db: NeoDatabase, k: nat, j: nat)
    requires Valid(db) && k < |db.approaches| && j < |db.neos|
    requires db.neos[j].designation == db.approaches[k].designation
    ensures db.approaches[k].neo.Some?
    ensures var i := db.approaches[k].neo.value;
            && i <= j
            && db.neos[i].designation == db.approaches[k].designation
            && k in db.neos[i].approaches
  {
    assert Designations(db.neos)[j] == db.approaches[k].designation;
  }

  /** An approach whose designation no NEO carries stays unlinked and is in
      no NEO's list. */
  lemma LinkingSound(db: NeoDatabase, k: nat)
    requires Valid(db) && k < |db.approaches|
    requires forall j :: 0 <= j < |db.neos| ==> db.neos[j].designation != db.approaches[k].designation
    ensures db.approaches[k].neo.None?
    ensures forall i :: 0 <= i < |db.neos| ==> k !in db.neos[i].approaches
  {
    var d := db.approaches[k].designation;
    if d in db.byDesignation {
      assert false;
    }
  }

  /** A NEO's list is the subsequence of the approaches carrying its
      designation when it is the first NEO with that designation, and empty
      for a later duplicate. */
  lemma ApproachesOfNeo(db: NeoDatabase, i: nat)
    requires Valid(db) && i < |db.neos|
    ensures var first := forall j :: 0 <= j < i ==> db.neos[j].designation != db.neos[i].designation;
            && (forall k: nat :: k in db.neos[i].approaches <==>
                  first && k < |db.approaches| && db.approaches[k].designation == db.neos[i].designation)
            && (forall p, q :: 0 <= p < q < |db.neos[i].approaches| ==>
                  db.neos[i].approaches[p] < db.neos[i].approaches[q])
            && (!first ==> db.neos[i].approaches == [])
  {
    var d := db.neos[i].designation;
    var ds := Designations(db.neos);
    assert ds[i] == d;
    var m := db.byDesignation[d];
    assert ds[m] == d;
    // The index sends a designation to `i` only when it is `d`.
    assert forall e :: e in db.byDesignation && db.byDesignation[e] == i ==> e == d by {
      forall e | e in db.byDesignation && db.byDesignation[e] == i
        ensures e == d
      {
        assert ds[db.byDesignation[e]] == e;
      }
    }
    var first := forall j :: 0 <= j < i ==> db.neos[j].designation != d;
    if first {
      assert ds[m] == db.neos[m].designation;
      assert m == i;
    } else {
      var j :| 0 <= j < i && db.neos[j].designation == d;
      assert ds[j] == d;
      assert m != i;
      assert !(d in db.byDesignation && db.byDesignation[d] == i);
    }
  }

  /** `get_neo_by_designation`: the first NEO with exactly this
      designation, or `None` when no NEO carries it. */
  function GetNeoByDesignation(db: NeoDatabase, designation: string): (r: Option<Neo>)
    requires WellFormed(db) && Indexed(db)
    ensures r.Some? <==> exists i :: 0 <= i < |db.neos| && db.neos[i].designation == designation
    ensures r.Some? ==> exists i :: 0 <= i < |db.neos| && r.value == db.neos[i]
                          && db.neos[i].designation == designation
                          && forall j :: 0 <= j < i ==> db.neos[j].designation != designation
  {
    if designation in db.byDesignation then
      var i := db.byDesignation[designation];
      assert Designations(db.neos)[i] == designation;
      Some(db.neos[i])
    else
      assert forall i :: 0 <= i < |db.neos| ==> Designations(db.neos)[i] == db.neos[i].designation;
      None
  }

  /** `get_neo_by_name`: the first NEO whose name value is exactly `name`,
      or `None`. Unnamed NEOs are indexed under `None`, so asking for
      `None` finds the first unnamed NEO; asking for "" finds nothing when
      names are normalised. */
  function GetNeoByName(db: NeoDatabase, name: Option<string>): (r: Option<Neo>)
    requires WellFormed(db) && Indexed(db)
    ensures r.Some? <==> exists i :: 0 <= i < |db.neos| && db.neos[i].name == name
    ensures r.Some? ==> exists i :: 0 <= i < |db.neos| && r.value == db.neos[i]
                          && db.neos[i].name == name
                          && forall j :: 0 <= j < i ==> db.neos[j].name != name
    ensures name == Some("") && (forall i :: 0 <= i < |db.neos| ==> db.neos[i].name != Some("")) ==> r.None?
    ensures name.None? && r.Some? ==> r.value.name.None?
  {
    if name in db.byName then
      var i := db.byName[name];
      assert Names(db.neos)[i] == name;
      Some(db.neos[i])
    else
      assert forall i :: 0 <= i < |db.neos| ==> Names(db.neos)[i] == db.neos[i].name;
      None
  }

  /** Every approach of the sequence has a reference into `neos`. */
  predicate AllLinkedIn(aps: seq<Approach>, neos: seq<Neo>) {
    forall k :: 0 <= k < |aps| ==> LinkedIn(aps[k], neos)
  }

  /** Every filter returns `True` on the approach. */
  predicate Passes(filters: seq<AttributeFilter>, a: Approach, neos: seq<Neo>)
    requires LinkedIn(a, neos)
  {
    forall j :: 0 <= j < |filters| ==> Call(filters[j], a, neos) == Success(true)
  }

  /** Passing a list of filters is passing its first and then the rest. */
  lemma PassesCons(filters: seq<AttributeFilter>, a: Approach, neos: seq<Neo>)
    requires LinkedIn(a, neos) && |filters| > 0
    ensures Passes(filters, a, neos) <==>
              Call(filters[0], a, neos) == Success(true) && Passes(filters[1..], a, neos)
  {
    var rest := filters[1..];
    assert forall j :: 0 <= j < |rest| ==> rest[j] == filters[j + 1];
  }

  /** `all(flag is True for flag in map(lambda f: f(approach), filters))`:
      the filters are called in order and the first one that does not
      return `True` decides, so a later filter that would raise is never
      called. */
  function AllTrue(filters: seq<AttributeFilter>, a: Approach, neos: seq<Neo>): (r: Result<bool, FilterError>)
    requires LinkedIn(a, neos)
    ensures r == Success(true) <==> Passes(filters, a, neos)
    decreases |filters|
  {
    if |filters| == 0 then Success(true)
    else
      PassesCons(filters, a, neos);
      match Call(filters[0], a, neos)
      case Failure(e) => Failure(e)
      case Success(b) => if !b then Success(false) else AllTrue(filters[1..], a, neos)
  }

  /** When `all` does not return `True`, its answer is that of the first
      filter that did not return `True`, every earlier one having
      returned `True`. */
  lemma {:induction false} AllTrueFirstFailure(filters: seq<AttributeFilter>, a: Approach, neos: seq<Neo>)
    requires LinkedIn(a, neos)
    requires AllTrue(filters, a, neos) != Success(true)
    ensures exists j :: 0 <= j < |filters| && Passes(filters[..j], a, neos)
                        && Call(filters[j], a, neos) != Success(true)
                        && AllTrue(filters, a, neos) == (if Call(filters[j], a, neos).Failure? then Call(filters[j], a, neos) else Success(false))
    decreases |filters|
  {
    PassesCons(filters, a, neos);
    assert Passes(filters[..0], a, neos);
    var c := Call(filters[0], a, neos);
    if c == Success(true) {
      var rest := filters[1..];
      AllTrueFirstFailure(rest, a, neos);
      var j :| 0 <= j < |rest| && Passes(rest[..j], a, neos) && Call(rest[j], a, neos) != Success(true)
               && AllTrue(rest, a, neos) == (if Call(rest[j], a, neos).Failure? then Call(rest[j], a, neos) else Success(false));
      assert rest[j] == filters[j + 1];
      PassesCons(filters[..j + 1], a, neos);
      assert filters[..j + 1][1..] == rest[..j];
    }
  }

  /** The approaches, in order, on which every filter returns `True`: the
      reference the query is measured against. */
  function Selected(aps: seq<Approach>, filters: seq<AttributeFilter>, neos: seq<Neo>): (r: seq<Approach>)
    requires AllLinkedIn(aps, neos)
    ensures |r| <= |aps|
    ensures filters == [] ==> r == aps
    decreases |aps|
  {
    if |aps| == 0 then []
    else (if Passes(filters, aps[0], neos) then [aps[0]] else []) + Selected(aps[1..], filters, neos)
  }

  /** The selection holds exactly the approaches on which every filter
      returns `True`. */
  lemma {:induction false} SelectedMembers(aps: seq<Approach>, filters: seq<AttributeFilter>, neos: seq<Neo>)
    requires AllLinkedIn(aps, neos)
    ensures forall x :: x in Selected(aps, filters, neos) ==> x in aps && Passes(filters, x, neos)
    ensures forall k :: 0 <= k < |aps| && Passes(filters, aps[k], neos) ==> aps[k] in Selected(aps, filters, neos)
    decreases |aps|
  {
    if |aps| > 0 {
      var rest := aps[1..];
      SelectedMembers(rest, filters, neos);
      assert forall k :: 0 < k < |aps| ==> aps[k] == rest[k - 1];
    }
  }

  /** The position of the first verdict that is an exception, or the
      number of verdicts when none is. */
  function FirstFailure<E>(vs: seq<Result<bool, E>>): (f: nat)
    ensures f <= |vs|
    ensures forall j :: 0 <= j < f ==> vs[j].Success?
    ensures f < |vs| ==> vs[f].Failure?
    decreases |vs|
  {
    if |vs| == 0 || vs[0].Failure? then 0 else 1 + FirstFailure(vs[1..])
  }

  /** The items, in order, whose verdict is `True`. */
  function Chosen<T, E>(xs: seq<T>, vs: seq<Result<bool, E>>): seq<T>
    requires |xs| == |vs|
    decreases |xs|
  {
    if |xs| == 0 then []
    else (if vs[0] == Success(true) then [xs[0]] else []) + Chosen(xs[1..], vs[1..])
  }

  /** A generator that, item by item, yields the item when its verdict is
      `True`, skips it when the verdict is `False`, and raises when the
      verdict is an exception. */
  function Generate<T, E>(xs: seq<T>, vs: seq<Result<bool, E>>): (r: Stream<T, E>)
    requires |xs| == |vs|
    ensures var f := FirstFailure(vs);
            && r.items == Chosen(xs[..f], vs[..f])
            && r.fault == if f < |vs| then Some(vs[f].error) else None
    decreases |xs|
  {
    if |xs| == 0 then Stream([], None)
    else if vs[0].Failure? then Stream([], Some(vs[0].error))
    else
      var tail := Generate(xs[1..], vs[1..]);
      var f := FirstFailure(vs[1..]);
      assert xs[..f + 1][1..] == xs[1..][..f];
      assert vs[..f + 1][1..] == vs[1..][..f];
      if vs[0].value then Stream([xs[0]] + tail.items, tail.fault) else tail
  }

  /** What `all` answers on each approach. */
  function Verdicts(aps: seq<Approach>, filters: seq<AttributeFilter>, neos: seq<Neo>): (vs: seq<Result<bool, FilterError>>)
    requires AllLinkedIn(aps, neos)
    ensures |vs| == |aps|
    ensures forall k :: 0 <= k < |aps| ==> vs[k] == AllTrue(filters, aps[k], neos)
  {
    seq(|aps|, k requires 0 <= k < |aps| => AllTrue(filters, aps[k], neos))
  }

  /** Choosing by the verdicts of `all` is selecting by the filters. */
  lemma {:induction false} ChosenIsSelected(aps: seq<Approach>, filters: seq<AttributeFilter>, neos: seq<Neo>)
    requires AllLinkedIn(aps, neos)
    ensures Chosen(aps, Verdicts(aps, filters, neos)) == Selected(aps, filters, neos)
    decreases |aps|
  {
    if |aps| > 0 {
      var rest := aps[1..];
      assert Verdicts(aps, filters, neos)[1..] == Verdicts(rest, filters, neos);
      ChosenIsSelected(rest, filters, neos);
    }
  }

  /** The generator of `query` over `aps`. */
  function Scan(aps: seq<Approach>, filters: seq<AttributeFilter>, neos: seq<Neo>): Stream<Approach, FilterError>
    requires AllLinkedIn(aps, neos)
  {
    Generate(aps, Verdicts(aps, filters, neos))
  }

  /** `NEODatabase.query`: the stream of approaches, in collection order,
      on which every filter returns `True`; when evaluating the filters
      raises on some approach, the stream stops there with that exception,
      having yielded the matches before it. */
  function Query(db: NeoDatabase, filters: seq<AttributeFilter>): (r: Stream<Approach, FilterError>)
    requires WellFormed(db)
    ensures r.fault.None? <==> forall k :: 0 <= k < |db.approaches| ==> AllTrue(filters, db.approaches[k], db.neos).Success?
    ensures r.fault.None? ==> r.items == Selected(db.approaches, filters, db.neos)
    ensures r.fault.Some? ==>
              exists k :: 0 <= k < |db.approaches|
                          && AllTrue(filters, db.approaches[k], db.neos) == Failure(r.fault.value)
                          && (forall j :: 0 <= j < k ==> AllTrue(filters, db.approaches[j], db.neos).Success?)
                          && r.items == Selected(db.approaches[..k], filters, db.neos)
  {
    var aps := db.approaches;
    var vs := Verdicts(aps, filters, db.neos);
    var f := FirstFailure(vs);
    assert vs[..f] == Verdicts(aps[..f], filters, db.neos);
    ChosenIsSelected(aps[..f], filters, db.neos);
    assert aps[..|aps|] == aps;
    Scan(aps, filters, db.neos)
  }

  /** A query with no filters yields every approach, in order, and raises
      nothing. */
  lemma QueryNoFilters(db: NeoDatabase)
    requires Valid(db)
    ensures Query(db, []) == Stream(db.approaches, None)
  {
  }

  /** A limited query yields the first `n` selected approaches, and stops
      before any approach on which a filter would raise once it has them. */
  lemma LimitedQuery(db: NeoDatabase, filters: seq<AttributeFilter>, n: nat)
    requires Valid(db) && n > 0
    ensures var q := Query(db, filters);
            q.fault.None? || n <= |q.items| ==>
              && Limit(q, Some(n)).fault.None?
              && Limit(q, Some(n)).items == q.items[..if n < |q.items| then n else |q.items|]
    ensures var q := Query(db, filters);
            q.fault.Some? && n > |q.items| ==> Limit(q, Some(n)) == q
  {
  }
}
