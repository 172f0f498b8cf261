/** Read-only hospital queries: map markers, the nearest-hospital search over
    an expanding radius ladder, the keyword guard of the name search and the
    open flag of the marker modal. The repository queries are passed in as
    functions; distances come with the rows and are only compared. */
module HospitalQuery {
  import opened Errors
  import opened Text
  import opened Seqs
  import OH = OpeningHour
  import opened Hospital

  // ---------------------------------------------------------------------
  // getHospitalMarkers
  // ---------------------------------------------------------------------

  /** One `(id, latitude, longitude)` row of the bounding-box query. */
  datatype BoundsRow = BoundsRow(id: int, latitude: real, longitude: real)

  datatype HospitalMarker = HospitalMarker(id: int, latitude: real, longitude: real)

  /** One marker per row, in row order, with id and coordinates copied. */
  function GetHospitalMarkers(rows: seq<BoundsRow>): (r: seq<HospitalMarker>)
    ensures |r| == |rows|
    ensures forall i :: 0 <= i < |rows| ==>
      r[i].id == rows[i].id && r[i].latitude == rows[i].latitude && r[i].longitude == rows[i].longitude
  {
    if rows == [] then []
    else [HospitalMarker(rows[0].id, rows[0].latitude, rows[0].longitude)] + GetHospitalMarkers(rows[1..])
  }

  // ---------------------------------------------------------------------
  // getNearestHospitals
  // ---------------------------------------------------------------------

  /** A `(id, name, latitude, longitude, distance)` row of the radius query,
      which is also the search result it becomes. */
  datatype Nearby = Nearby(id: int, name: string, latitude: real, longitude: real, distance: real)

  function Distance(h: Nearby): real { h.distance }

  /** The radius ladder, in kilometres. */
  const RadiusSteps: seq<real> := [10.0, 30.0, 50.0, 70.0, 100.0]

  /** The search stops once the map holds this many hospitals, and returns this many. */
  const Wanted: nat := 6

  /** Every entry of the accumulator is stored under its own id. */
  ghost predicate KeyedById(m: map<int, Nearby>) {
    forall id :: id in m ==> m[id].id == id
  }

  /** First-seen-wins merge of rows into the id-keyed accumulator: a row whose
      id is already present is skipped. */
  function Merge(m: map<int, Nearby>, rows: seq<Nearby>): (r: map<int, Nearby>)
    ensures m.Keys <= r.Keys
    ensures forall id :: id in m ==> r[id] == m[id]
    ensures KeyedById(m) ==> KeyedById(r)
  {
    if rows == [] then m
    else
      var prev := Merge(m, rows[..|rows| - 1]);
      var row := rows[|rows| - 1];
      if row.id in prev then prev else prev[row.id := row]
  }

  /** The first row with the given id, scanning from the front. */
  function FirstWithId(rows: seq<Nearby>, id: int): Found<Nearby>
  {
    FindFirst(rows, (row: Nearby) => row.id == id)
  }

  lemma {:induction false} FirstWithIdSnoc(rows: seq<Nearby>, row: Nearby, id: int)
    ensures FirstWithId(rows + [row], id) ==
      if FirstWithId(rows, id).Found? then FirstWithId(rows, id)
      else if row.id == id then Found(row) else NotFound
  {
    if rows != [] {
      assert (rows + [row])[1..] == rows[1..] + [row];
      FirstWithIdSnoc(rows[1..], row, id);
    }
  }

  /** First seen wins: an id already held keeps its entry, and a new id gets
      the first row that carries it. */
  lemma {:induction false} MergeFirstSeen(m: map<int, Nearby>, rows: seq<Nearby>, id: int)
    ensures id in Merge(m, rows) <==> id in m || FirstWithId(rows, id).Found?
    ensures id in Merge(m, rows) && id !in m ==> Merge(m, rows)[id] == FirstWithId(rows, id).value
  {
    if rows != [] {
      var init, row := rows[..|rows| - 1], rows[|rows| - 1];
      assert rows == init + [row];
      MergeFirstSeen(m, init, id);
      FirstWithIdSnoc(init, row, id);
    }
  }

  /** The accumulator after the first `steps` radii of the ladder. */
  function Accumulated(query: real -> seq<Nearby>, steps: nat): (r: map<int, Nearby>)
    requires steps <= |RadiusSteps|
    ensures KeyedById(r)
  {
    if steps == 0 then map[]
    else Merge(Accumulated(query, steps - 1), query(RadiusSteps[steps - 1]))
  }

  /** The accumulator after `steps` radii still holds fewer than `Wanted` entries. */
  predicate Short(query: real -> seq<Nearby>, steps: nat)
    requires steps <= |RadiusSteps|
  {
    |Accumulated(query, steps)| < Wanted
  }

  /** How many radii are queried from `from` on: the walk stops right after
      the first step that leaves at least `Wanted` entries, or at the end of
      the ladder. */
  function StepsFrom(query: real -> seq<Nearby>, from: nat): (n: nat)
    requires 1 <= from <= |RadiusSteps|
    ensures from <= n <= |RadiusSteps|
    ensures n == |RadiusSteps| || !Short(query, n)
    ensures forall k :: from <= k < n ==> Short(query, k)
    decreases |RadiusSteps| - from
  {
    if from == |RadiusSteps| || !Short(query, from) then from
    else StepsFrom(query, from + 1)
  }

  /** The number of radius queries the search issues. */
  function StepsQueried(query: real -> seq<Nearby>): (n: nat)
    ensures 1 <= n <= |RadiusSteps|
  {
    StepsFrom(query, 1)
  }

  /** What the accumulator holds when the ladder walk ends. */
  function Collected(query: real -> seq<Nearby>): map<int, Nearby>
  {
    Accumulated(query, StepsQueried(query))
  }

  /** A sparse region: when no radius returns anything, the whole ladder is
      walked and nothing is collected. */
  lemma {:induction false} NothingFound(query: real -> seq<Nearby>)
    requires forall k :: 0 <= k < |RadiusSteps| ==> query(RadiusSteps[k]) == []
    ensures StepsQueried(query) == |RadiusSteps|
    ensures Collected(query) == map[]
  {
    forall steps: nat | steps <= |RadiusSteps| ensures Accumulated(query, steps) == map[] {
      AccumulatedEmpty(query, steps);
    }
  }

  lemma {:induction false} AccumulatedEmpty(query: real -> seq<Nearby>, steps: nat)
    requires steps <= |RadiusSteps|
    requires forall k :: 0 <= k < |RadiusSteps| ==> query(RadiusSteps[k]) == []
    ensures Accumulated(query, steps) == map[]
  {
    if steps > 0 {
      AccumulatedEmpty(query, steps - 1);
      assert query(RadiusSteps[steps - 1]) == [];
    }
  }

  /** The inner loop: each row whose id is not yet in the map is put under
      its id; a row whose id is already there is skipped. */
  method MergeRows(m: map<int, Nearby>, rows: seq<Nearby>) returns (merged: map<int, Nearby>)
    ensures merged == Merge(m, rows)
  {
    merged := m;
    var i := 0;
    while i < |rows|
      invariant 0 <= i <= |rows|
      invariant merged == Merge(m, rows[..i])
    {
      assert rows[..i + 1][..i] == rows[..i];
      var row := rows[i];
      if row.id in merged {
        i := i + 1;
        continue;
      }
      merged := merged[row.id := row];
      i := i + 1;
    }
    assert rows[..i] == rows;
  }

  /** The outer loop: query each radius in turn, merge its rows, and stop
      once the map holds `Wanted` hospitals. `queried` records the radii
      passed to the repository, in order. */
  method CollectNearby(query: real -> seq<Nearby>)
    returns (hospitalMap: map<int, Nearby>, ghost queried: seq<real>)
    ensures hospitalMap == Collected(query)
    ensures queried == RadiusSteps[..StepsQueried(query)]
  {
    hospitalMap := map[];
    queried := [];
    var step := 0;
    while step < |RadiusSteps|
      invariant 0 <= step <= |RadiusSteps|
      invariant hospitalMap == Accumulated(query, step)
      invariant queried == RadiusSteps[..step]
      invariant forall k :: 1 <= k <= step ==> Short(query, k)
    {
      var radius := RadiusSteps[step];
      var rows := query(radius);
      assert RadiusSteps[..step + 1] == RadiusSteps[..step] + [radius];
      queried := queried + [radius];
      hospitalMap := MergeRows(hospitalMap, rows);
      assert hospitalMap == Accumulated(query, step + 1);
      step := step + 1;
      if |hospitalMap| >= Wanted {
        break;
      }
    }
    StepsQueriedIs(query, step);
  }

  /** The loop above stops exactly where `StepsQueried` says it does. */
  lemma StepsQueriedIs(query: real -> seq<Nearby>, step: nat)
    requires 1 <= step <= |RadiusSteps|
    requires step == |RadiusSteps| || !Short(query, step)
    requires forall k :: 1 <= k < step ==> Short(query, k)
    ensures StepsQueried(query) == step
  {
  }

  /** `getNearestHospitals`: the ladder walk, then the map's values sorted by
      distance, of which the first `Wanted` are kept: the nearest hospitals
      collected, nearest first, each once. */
  method GetNearestHospitals(query: real -> seq<Nearby>)
    returns (r: seq<Nearby>, ghost queried: seq<real>)
    ensures queried == RadiusSteps[..StepsQueried(query)]
    ensures SortedBy(r, Distance)
    ensures |r| == Min(Wanted, |Collected(query)|)
    ensures forall i :: 0 <= i < |r| ==>
      r[i].id in Collected(query) && Collected(query)[r[i].id] == r[i]
    ensures forall i, j :: 0 <= i < j < |r| ==> r[i].id != r[j].id
    ensures forall id :: id in Collected(query) && Collected(query)[id] !in r ==>
      forall i :: 0 <= i < |r| ==> r[i].distance <= Collected(query)[id].distance
  {
    var hospitalMap;
    hospitalMap, queried := CollectNearby(query);
    var values := ValuesOf(hospitalMap);
    var sorted := SortBy(values, Distance);
    r := Limit(sorted, Wanted);
    SelectedFromMap(hospitalMap, values, sorted, r);
    NearestKept(hospitalMap, values, sorted);
  }

  /** Whatever the cut leaves out of the sorted values is at least as far
      as everything it keeps. */
  lemma NearestKept(m: map<int, Nearby>, values: seq<Nearby>, sorted: seq<Nearby>)
    requires forall id :: id in m ==> m[id] in values
    requires SortedBy(sorted, Distance) && multiset(sorted) == multiset(values)
    ensures forall id :: id in m && m[id] !in Limit(sorted, Wanted) ==>
      forall i :: 0 <= i < |Limit(sorted, Wanted)| ==> Limit(sorted, Wanted)[i].distance <= m[id].distance
  {
    forall id | id in m && m[id] !in Limit(sorted, Wanted)
      ensures forall i :: 0 <= i < |Limit(sorted, Wanted)| ==> Limit(sorted, Wanted)[i].distance <= m[id].distance
    {
      assert m[id] in multiset(values);
      assert m[id] in sorted;
      LimitKeepsSmallest(sorted, Distance, Wanted, m[id]);
    }
  }

  /** A prefix of a reordering of the map's values holds map entries only,
      each once. */
  lemma SelectedFromMap(m: map<int, Nearby>, values: seq<Nearby>, sorted: seq<Nearby>, r: seq<Nearby>)
    requires KeyedById(m)
    requires forall i :: 0 <= i < |values| ==> values[i].id in m && m[values[i].id] == values[i]
    requires Distinct(values)
    requires multiset(sorted) == multiset(values)
    requires |r| <= |sorted| && r == sorted[..|r|]
    ensures forall i :: 0 <= i < |r| ==> r[i].id in m && m[r[i].id] == r[i]
    ensures forall i, j :: 0 <= i < j < |r| ==> r[i].id != r[j].id
  {
    PermutationDistinct(values, sorted);
    forall i | 0 <= i < |r| ensures r[i].id in m && m[r[i].id] == r[i] {
      assert r[i] == sorted[i];
      assert sorted[i] in multiset(values);
    }
    forall i, j | 0 <= i < j < |r| ensures r[i].id != r[j].id {
      assert r[i] == sorted[i] && r[j] == sorted[j];
    }
  }

  lemma KeyToPick(keys: set<int>)
    requires keys != {}
    ensures exists id :: id in keys
  {
    if forall id :: id !in keys {
      assert false;
    }
  }

  /** `hospitalMap.values()`, in an order the map does not specify. */
  method ValuesOf(m: map<int, Nearby>) returns (values: seq<Nearby>)
    requires KeyedById(m)
    ensures |values| == |m|
    ensures forall i :: 0 <= i < |values| ==> values[i].id in m && m[values[i].id] == values[i]
    ensures forall id :: id in m ==> m[id] in values
    ensures Distinct(values)
  {
    values := [];
    var rest := m.Keys;
    while rest != {}
      invariant rest <= m.Keys
      invariant |values| + |rest| == |m.Keys|
      invariant forall i :: 0 <= i < |values| ==>
        values[i].id in m.Keys - rest && m[values[i].id] == values[i]
      invariant forall id :: id in m.Keys - rest ==> m[id] in values
      invariant Distinct(values)
      decreases |rest|
    {
      KeyToPick(rest);
      var id :| id in rest;
      values := values + [m[id]];
      rest := rest - {id};
    }
    assert |m| == |m.Keys|;
  }

  // ---------------------------------------------------------------------
  // searchHospital
  // ---------------------------------------------------------------------

  /** `keyword == null || keyword.isBlank() || keyword.length() < 2`, where
      `length()` counts UTF-16 code units. */
  predicate InvalidKeyword(keyword: Option<string>) {
    keyword.None?
    || (forall i :: 0 <= i < |keyword.value| ==> IsJavaWhitespace(keyword.value[i]))
    || Utf16Length(keyword.value) < 2
  }

  datatype SearchResult = SearchResult(hospitalId: int, name: string, distance: real)

  /** `searchHospital` without paging: the keyword guard, then the name query
      and one result per hospital found, with its distance from the caller. */
  function SearchHospital(keyword: Option<string>, findByNameContaining: string -> seq<Hospital>,
                          distanceTo: Hospital -> real): (r: Result<seq<SearchResult>>)
    ensures InvalidKeyword(keyword) <==> r == Err(HospitalInvalidSearch)
    ensures r.Ok? ==>
      var found := findByNameContaining(keyword.value);
      |r.value| == |found|
      && forall i :: 0 <= i < |found| ==>
        r.value[i] == SearchResult(found[i].id, found[i].name, distanceTo(found[i]))
  {
    if InvalidKeyword(keyword) then Err(HospitalInvalidSearch)
    else
      var found := findByNameContaining(keyword.value);
      Ok(seq(|found|, i requires 0 <= i < |found| =>
        SearchResult(found[i].id, found[i].name, distanceTo(found[i]))))
  }

  /** The guard runs before the repository: a rejected keyword gives the same
      answer whatever the repository holds. */
  lemma RejectedBeforeQuery(keyword: Option<string>, q1: string -> seq<Hospital>, q2: string -> seq<Hospital>,
                            distanceTo: Hospital -> real)
    requires SearchHospital(keyword, q1, distanceTo).Err?
    ensures SearchHospital(keyword, q2, distanceTo) == SearchHospital(keyword, q1, distanceTo)
  {
  }

  /** One character of the Basic Multilingual Plane is too short, while a
      single non-blank character outside it is two code units long and
      passes; two characters starting with a non-blank one pass. */
  lemma KeywordLength(c: char, d: char)
    ensures (c as int) < 0x1_0000 ==> InvalidKeyword(Some([c]))
    ensures (c as int) >= 0x1_0000 && !IsJavaWhitespace(c) ==> !InvalidKeyword(Some([c]))
    ensures !IsJavaWhitespace(c) ==> !InvalidKeyword(Some([c, d]))
  {
    Utf16LengthOfChar(c);
    if !IsJavaWhitespace(c) {
      assert !IsJavaWhitespace([c][0]);
      assert !IsJavaWhitespace([c, d][0]);
    }
  }

  // ---------------------------------------------------------------------
  // getHospitalModal
  // ---------------------------------------------------------------------

  datatype HospitalModal = HospitalModal(hospital: Hospital, distance: real, isOpen: bool)

  /** `getHospitalModal`: an unknown id is `HOSPITAL_NOT_FOUND`; without an
      opening-hours record the hospital shows as closed, otherwise its own
      `isOpenNow` decides, and an error from it propagates. */
  function GetHospitalModal(hospitalId: int, findById: int -> Option<Hospital>,
                            distanceTo: Hospital -> real, today: OH.DayOfWeek, now: OH.MinuteOfDay)
    : (r: Result<HospitalModal>)
    ensures findById(hospitalId).None? <==> r == Err(HospitalNotFound)
    ensures r.Ok? ==> r.value.hospital == findById(hospitalId).value
    ensures r.Ok? && r.value.hospital.openingHour.None? ==> !r.value.isOpen
    ensures r.Ok? && r.value.hospital.openingHour.Some? ==>
      IsOpenNow(r.value.hospital, today, now) == Ok(r.value.isOpen)
    ensures r.Err? && r.error != HospitalNotFound ==>
      r.error == InvalidHospitalOpeningHours
  {
    match findById(hospitalId)
    case None => Err(HospitalNotFound)
    case Some(h) =>
      var distance := distanceTo(h);
      if h.openingHour.None? then Ok(HospitalModal(h, distance, false))
      else match IsOpenNow(h, today, now)
        case Err(e) => Err(e)
        case Ok(isOpen) => Ok(HospitalModal(h, distance, isOpen))
  }

  /** The modal as the recommendation computes its flag: an emergency room
      is open whether or not it has opening hours. */
  function GetHospitalModalCorrected(hospitalId: int, findById: int -> Option<Hospital>,
                                     distanceTo: Hospital -> real, today: OH.DayOfWeek, now: OH.MinuteOfDay)
    : (r: Result<HospitalModal>)
    ensures findById(hospitalId).None? <==> r == Err(HospitalNotFound)
    ensures r.Ok? ==> r.value.hospital == findById(hospitalId).value
    ensures r.Ok? && r.value.hospital.emergency ==> r.value.isOpen
    ensures r.Ok? && !r.value.hospital.emergency && r.value.hospital.openingHour.None? ==> !r.value.isOpen
    ensures r != Err(Raised(NullPointer))
    ensures findById(hospitalId).Some? && !findById(hospitalId).value.emergency ==>
      r == GetHospitalModal(hospitalId, findById, distanceTo, today, now)
  {
    match findById(hospitalId)
    case None => Err(HospitalNotFound)
    case Some(h) =>
      var distance := distanceTo(h);
      if h.emergency then Ok(HospitalModal(h, distance, true))
      else GetHospitalModal(hospitalId, findById, distanceTo, today, now)
  }
}
