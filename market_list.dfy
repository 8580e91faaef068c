/** The list view (src/pages/MarketList.tsx): fetched editions become list
    items, split into upcoming and past by their start date. */
module MarketList {
  import opened Wrappers
  import opened Seqs
  import opened Supabase
  import opened ViewModel
  import Selection

  datatype ListItem = ListItem(
    id: Id,
    editionName: string,
    marketName: string,
    description: Option<string>,
    startDate: Day,
    endDate: Day,
    isActive: bool)

  /** The row mapper: `name` becomes `edition_name` and the market goes
      through the placeholder policy. */
  function ToListItem(edition: EditionResponse): (item: ListItem)
    ensures item.id == edition.id && item.editionName == edition.name
    ensures item.startDate == edition.startDate && item.endDate == edition.endDate
    ensures item.isActive == edition.isActive
    ensures item.marketName == ResolveMarketName(edition.market) && item.marketName != ""
    ensures item.description == ResolveDescription(edition.market)
  {
    ListItem(
      edition.id, edition.name,
      ResolveMarketName(edition.market), ResolveDescription(edition.market),
      edition.startDate, edition.endDate, edition.isActive)
  }

  /** `data.map(...)`: one item per row, in the row order. */
  function ToListItems(rows: seq<EditionResponse>): (items: seq<ListItem>)
    ensures |items| == |rows|
    ensures forall i :: 0 <= i < |rows| ==> items[i] == ToListItem(rows[i])
  {
    Map(rows, ToListItem)
  }

  function StartsOnOrAfter(today: Day): ListItem -> bool {
    (m: ListItem) => m.startDate >= today
  }

  function StartsBefore(today: Day): ListItem -> bool {
    (m: ListItem) => m.startDate < today
  }

  /** `markets?.filter(m => start >= today) || []` */
  function UpcomingMarkets(markets: Option<seq<ListItem>>, today: Day): (upcoming: seq<ListItem>)
    ensures markets.None? ==> upcoming == []
    ensures forall i :: 0 <= i < |upcoming| ==> upcoming[i].startDate >= today
    ensures markets.Some? ==> IsSubsequence(upcoming, markets.value)
  {
    match markets
    case None => []
    case Some(items) => Filter(items, StartsOnOrAfter(today))
  }

  /** `markets?.filter(m => start < today) || []` */
  function PastMarkets(markets: Option<seq<ListItem>>, today: Day): (past: seq<ListItem>)
    ensures markets.None? ==> past == []
    ensures forall i :: 0 <= i < |past| ==> past[i].startDate < today
    ensures markets.Some? ==> IsSubsequence(past, markets.value)
  {
    match markets
    case None => []
    case Some(items) => Filter(items, StartsBefore(today))
  }

  /** Each item is in exactly one of the two lists, so together they hold
      every fetched item, as often as it was fetched. */
  lemma PartitionIsExact(items: seq<ListItem>, today: Day)
    ensures var upcoming, past := UpcomingMarkets(Some(items), today), PastMarkets(Some(items), today);
      && |upcoming| + |past| == |items|
      && multiset(upcoming) + multiset(past) == multiset(items)
      && forall m :: m in items ==> (m in upcoming <==> m !in past)
  {
    FilterPartition(items, StartsOnOrAfter(today), StartsBefore(today));
    forall m | m in items
      ensures m in UpcomingMarkets(Some(items), today) <==> m !in PastMarkets(Some(items), today)
    {
      FilterMembership(items, StartsOnOrAfter(today), m);
      FilterMembership(items, StartsBefore(today), m);
    }
  }

  /** With "now" on 2025-01-01 (day 0), an edition of 2024-01-01 is past and
      one of 2025-06-01 upcoming. */
  lemma PartitionExample(older: ListItem, newer: ListItem)
    requires older.startDate == -366 && newer.startDate == 151
    ensures UpcomingMarkets(Some([older, newer]), 0) == [newer]
    ensures PastMarkets(Some([older, newer]), 0) == [older]
  {
    assert [older, newer][1..] == [newer] && [newer][1..] == [];
    assert Filter([newer], StartsOnOrAfter(0)) == [newer];
    assert Filter([newer], StartsBefore(0)) == [];
  }

  /** A card click: `onClick={() => onSelect(market.id)}`. */
  method SelectCard(selection: Selection.MarketSelection, item: ListItem)
    modifies selection
    ensures selection.marketId == Some(item.id)
  {
    selection.Select(item.id);
  }
}
