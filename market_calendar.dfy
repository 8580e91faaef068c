/** The calendar view (src/pages/MarketCalendar.tsx): fetched editions are
    mapped and projected to the calendar widget's events. */
module MarketCalendar {
  import opened Wrappers
  import opened Seqs
  import opened Supabase
  import opened ViewModel
  import Selection

  /** The mapped row (`MarketEvent`). */
  datatype MarketEvent = MarketEvent(
    id: Id,
    name: string,
    marketName: string,
    description: Option<string>,
    startDate: Day,
    endDate: Day)

  datatype EventProps = EventProps(marketName: string, editionName: string, description: Option<string>)

  /** An event as the calendar widget receives it. */
  datatype CalendarEvent = CalendarEvent(id: Id, title: string, start: Day, end: Day, extendedProps: EventProps)

  /** The row mapper, with the placeholder policy. */
  function ToMarketEvent(edition: EditionResponse): (event: MarketEvent)
    ensures event.id == edition.id && event.name == edition.name
    ensures event.startDate == edition.startDate && event.endDate == edition.endDate
    ensures event.marketName == ResolveMarketName(edition.market) && event.marketName != ""
    ensures event.description == ResolveDescription(edition.market)
  {
    MarketEvent(
      edition.id, edition.name,
      ResolveMarketName(edition.market), ResolveDescription(edition.market),
      edition.startDate, edition.endDate)
  }

  /** `data.map(...)`: one mapped row per fetched row, in order. */
  function ToMarketEvents(rows: seq<EditionResponse>): (markets: seq<MarketEvent>)
    ensures |markets| == |rows|
    ensures forall i :: 0 <= i < |rows| ==> markets[i] == ToMarketEvent(rows[i])
  {
    Map(rows, ToMarketEvent)
  }

  /** One market as an event: the edition name is both the title and the
      `edition_name` extended property. */
  function ToCalendarEvent(market: MarketEvent): (event: CalendarEvent)
    ensures event.id == market.id && event.title == market.name
    ensures event.start == market.startDate && event.end == market.endDate
    ensures event.extendedProps.editionName == event.title
    ensures event.extendedProps.marketName == market.marketName
    ensures event.extendedProps.description == market.description
  {
    CalendarEvent(
      market.id, market.name, market.startDate, market.endDate,
      EventProps(market.marketName, market.name, market.description))
  }

  /** `markets?.map(...)`: no events until the markets arrive, then one per
      market in order. */
  function CalendarEvents(markets: Option<seq<MarketEvent>>): (events: Option<seq<CalendarEvent>>)
    ensures events.None? <==> markets.None?
    ensures events.Some? ==> |events.value| == |markets.value|
    ensures events.Some? ==> forall i :: 0 <= i < |markets.value| ==> events.value[i] == ToCalendarEvent(markets.value[i])
  {
    match markets
    case None => None
    case Some(ms) => Some(Map(ms, ToCalendarEvent))
  }

  /** From fetched rows to events: the i-th event is the i-th row's edition,
      titled with its name and carrying the resolved market. */
  lemma EventsFollowRows(rows: seq<EditionResponse>)
    ensures var events := CalendarEvents(Some(ToMarketEvents(rows)));
      && events.Some? && |events.value| == |rows|
      && forall i :: 0 <= i < |rows| ==>
        var e := events.value[i];
        && e.id == rows[i].id && e.title == rows[i].name
        && e.start == rows[i].startDate && e.end == rows[i].endDate
        && e.extendedProps == EventProps(ResolveMarketName(rows[i].market), rows[i].name, ResolveDescription(rows[i].market))
  {
  }

  /** `eventClick={(info) => setSelectedMarketId(info.event.id)}` */
  method ClickEvent(selection: Selection.MarketSelection, event: CalendarEvent)
    modifies selection
    ensures selection.marketId == Some(event.id)
  {
    selection.Select(event.id);
  }
}
