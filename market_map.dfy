/** The map view (src/pages/MarketMap.tsx): editions in a date window are
    joined to their places and become map markers; the view keeps the
    window and the selected edition as state. */
module MarketMap {
  import opened Wrappers
  import opened Seqs
  import opened Supabase
  import opened ViewModel
  import Selection

  /** A `places` row. A null coordinate is `None`. */
  datatype Place = Place(id: Id, isActive: bool, latitude: Option<real>, longitude: Option<real>)

  datatype MapMarker = MapMarker(
    id: Id,
    name: string,
    marketName: string,
    description: Option<string>,
    location: (real, real),
    startDate: Day,
    endDate: Day)

  /** A JavaScript number is truthy when it is present and not 0. */
  predicate Truthy(x: Option<real>) {
    x.Some? && x.value != 0.0
  }

  /** `places.find(p => p.id === placeId)`: the FIRST place with that id. A
      null `place_id` matches no place. */
  function FindPlace(places: seq<Place>, placeId: Option<Id>): (found: Option<Place>)
    ensures found.None? <==> forall k :: 0 <= k < |places| ==> Some(places[k].id) != placeId
    ensures found.Some? ==> exists k :: (0 <= k < |places| && places[k] == found.value &&
      Some(found.value.id) == placeId && forall j :: 0 <= j < k ==> Some(places[j].id) != placeId)
  {
    if places == [] then None
    else if Some(places[0].id) == placeId then Some(places[0])
    else
      var found := FindPlace(places[1..], placeId);
      assert found.Some? ==> exists k :: (1 <= k < |places| && places[k] == found.value &&
        Some(found.value.id) == placeId && forall j :: 0 <= j < k ==> Some(places[j].id) != placeId) by {
        if found.Some? {
          var k :| 0 <= k < |places[1..]| && places[1..][k] == found.value &&
            Some(found.value.id) == placeId && forall j :: 0 <= j < k ==> Some(places[1..][j].id) != placeId;
          assert places[k + 1] == found.value;
          assert forall j :: 1 <= j < k + 1 ==> places[j] == places[1..][j - 1];
        }
      }
      found
  }

  /** The body of the `marketEditions.map(...)` callback: null unless the
      place is found and both of its coordinates are truthy. */
  function BuildMarker(edition: EditionResponse, places: seq<Place>): (marker: Option<MapMarker>)
    ensures marker.Some? <==>
      var place := FindPlace(places, edition.placeId);
      place.Some? && Truthy(place.value.latitude) && Truthy(place.value.longitude)
    ensures marker.Some? ==>
      && marker.value.id == edition.id && marker.value.name == edition.name
      && marker.value.startDate == edition.startDate && marker.value.endDate == edition.endDate
      && marker.value.marketName == ResolveMarketName(edition.market)
      && marker.value.description == ResolveDescription(edition.market)
    ensures marker.Some? ==> exists k :: (0 <= k < |places| &&
      Some(places[k].id) == edition.placeId &&
      Truthy(places[k].latitude) && Truthy(places[k].longitude) &&
      marker.value.location == (places[k].latitude.value, places[k].longitude.value) &&
      forall j :: 0 <= j < k ==> Some(places[j].id) != edition.placeId)
  {
    match FindPlace(places, edition.placeId)
    case None => None
    case Some(place) =>
      if !Truthy(place.latitude) || !Truthy(place.longitude) then None
      else Some(MapMarker(
        edition.id, edition.name,
        ResolveMarketName(edition.market), ResolveDescription(edition.market),
        (place.latitude.value, place.longitude.value),
        edition.startDate, edition.endDate))
  }

  function MarkerOf(places: seq<Place>): EditionResponse -> Option<MapMarker> {
    e => BuildMarker(e, places)
  }

  /** The editions that become markers. */
  function Plottable(places: seq<Place>): EditionResponse -> bool {
    (e: EditionResponse) => BuildMarker(e, places).Some?
  }

  /** `marketEditions.map(...).filter(marker => marker !== null)` */
  function BuildMarkers(editions: seq<EditionResponse>, places: seq<Place>): (markers: seq<MapMarker>)
    ensures |markers| <= |editions|
  {
    Somes(Map(editions, MarkerOf(places)))
  }

  /** The markers are, in order, those of exactly the editions that have a
      plottable place: an order-preserving selection of the editions, one
      marker each. */
  lemma MarkersFollowPlottableEditions(editions: seq<EditionResponse>, places: seq<Place>)
    ensures var kept := Filter(editions, Plottable(places));
      && IsSubsequence(kept, editions)
      && |BuildMarkers(editions, places)| == |kept|
      && forall i :: 0 <= i < |kept| ==> Some(BuildMarkers(editions, places)[i]) == BuildMarker(kept[i], places)
  {
    SomesAfterMap(editions, MarkerOf(places), Plottable(places));
  }

  /** A zero coordinate counts as missing: that edition gives no marker. */
  lemma ZeroCoordinateDropsEdition(edition: EditionResponse, places: seq<Place>, place: Place)
    requires FindPlace(places, edition.placeId) == Some(place)
    requires place.latitude == Some(0.0) || place.longitude == Some(0.0)
    ensures BuildMarker(edition, places).None?
    ensures Filter([edition], Plottable(places)) == []
  {
  }

  /** An edition whose place occurs twice gets the coordinates of the first. */
  lemma FirstMatchingPlaceWins(edition: EditionResponse, first: Place, second: Place)
    requires edition.placeId == Some(first.id) && first.id == second.id
    requires Truthy(first.latitude) && Truthy(first.longitude)
    ensures BuildMarker(edition, [first, second]).Some?
    ensures BuildMarker(edition, [first, second]).value.location == (first.latitude.value, first.longitude.value)
  {
  }

  /** `.gte('start_date', startDay).lte('start_date', endDay)`: inclusive at
      both ends. */
  predicate StartsWithin(edition: EditionResponse, startDay: Day, endDay: Day) {
    startDay <= edition.startDate <= endDay
  }

  function InWindow(startDay: Day, endDay: Day): EditionResponse -> bool {
    e => StartsWithin(e, startDay, endDay)
  }

  predicate IsActive(edition: EditionResponse) {
    edition.isActive
  }

  /** The rows the dated query asks the backend for: active editions starting
      inside the window, in their stored order. */
  function DatedQuery(editions: seq<EditionResponse>, startDay: Day, endDay: Day): (rows: seq<EditionResponse>)
    ensures forall i :: 0 <= i < |rows| ==> rows[i].isActive && startDay <= rows[i].startDate <= endDay
    ensures forall e :: e in rows <==> e in editions && e.isActive && startDay <= e.startDate <= endDay
  {
    var active := Filter(editions, IsActive);
    var rows := Filter(active, InWindow(startDay, endDay));
    assert forall e :: e in rows <==> e in editions && e.isActive && startDay <= e.startDate <= endDay by {
      forall e ensures e in rows <==> e in editions && e.isActive && startDay <= e.startDate <= endDay {
        FilterMembership(editions, IsActive, e);
        FilterMembership(active, InWindow(startDay, endDay), e);
      }
    }
    rows
  }

  /** Every marker of a dated query starts inside the window. */
  lemma MarkersStartInWindow(editions: seq<EditionResponse>, places: seq<Place>, startDay: Day, endDay: Day)
    ensures var markers := BuildMarkers(DatedQuery(editions, startDay, endDay), places);
      forall i :: 0 <= i < |markers| ==> startDay <= markers[i].startDate <= endDay
  {
    var rows := DatedQuery(editions, startDay, endDay);
    MarkersFollowPlottableEditions(rows, places);
    var kept := Filter(rows, Plottable(places));
    SubsequenceMembers(kept, rows);
    forall i | 0 <= i < |kept| ensures startDay <= kept[i].startDate <= endDay {
      assert kept[i] in rows;
    }
  }

  /** Window [2025-01-01, 2025-01-31] as days 0..30: of editions starting
      2024-12-31, 2025-01-15 and 2025-02-01 only the second is asked for. */
  lemma DatedQueryExample(a: EditionResponse, b: EditionResponse, c: EditionResponse)
    requires a.isActive && b.isActive && c.isActive
    requires a.startDate == -1 && b.startDate == 14 && c.startDate == 31
    ensures DatedQuery([a, b, c], 0, 30) == [b]
  {
    assert [a, b, c][1..] == [b, c] && [b, c][1..] == [c] && [c][1..] == [];
    assert Filter([c], IsActive) == [c];
    assert Filter([b, c], IsActive) == [b] + [c];
    assert Filter([a, b, c], IsActive) == [a] + [b, c];
    assert Filter([c], InWindow(0, 30)) == [];
    assert Filter([b, c], InWindow(0, 30)) == [b];
    assert Filter([a, b, c], InWindow(0, 30)) == [b];
  }

  /** The date-picker state of the view. */
  class DateWindow {
    var startDate: Day
    var endDate: Day

    /** `useState(new Date())` and `useState(addDays(new Date(), 30))` */
    constructor (today: Day)
      ensures startDate == today && endDate == today + 30
    {
      startDate := today;
      endDate := today + 30;
    }

    /** `disabled={(date) => date < startDate}` on the end-date picker. */
    function EndDateDisabled(date: Day): (disabled: bool)
      reads this
      ensures disabled <==> date < startDate
    {
      date < startDate
    }

    /** `onSelect={(date) => date && setStartDate(date)}`: a cleared picker
        changes nothing; the start picker has no disabled dates, so the start
        may pass the end and leave the window empty. */
    method PickStartDate(date: Option<Day>)
      modifies this
      ensures startDate == (if date.Some? then date.value else old(startDate))
      ensures endDate == old(endDate)
    {
      if date.Some? {
        startDate := date.value;
      }
    }

    /** `onSelect={(date) => date && setEndDate(date)}` on a picker whose
        dates before the start cannot be chosen. */
    method PickEndDate(date: Option<Day>)
      modifies this
      ensures endDate == (if date.Some? && !old(EndDateDisabled(date.value)) then date.value else old(endDate))
      ensures startDate == old(startDate)
      ensures date.Some? && !old(EndDateDisabled(date.value)) ==> startDate <= endDate
    {
      if date.Some? && !EndDateDisabled(date.value) {
        endDate := date.value;
      }
    }
  }

  /** "See details" on a marker's popup: `onSelectMarket(market.id)`. */
  method SeeDetails(selection: Selection.MarketSelection, marker: MapMarker)
    modifies selection
    ensures selection.marketId == Some(marker.id)
  {
    selection.Select(marker.id);
  }
}
