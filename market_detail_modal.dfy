/** The detail dialog (src/components/MarketDetailModal.tsx): it fetches one
    edition with its makers when given an id, maps the row to the detail
    shape, and shows loading, the details, or "Market not found". */
module MarketDetailModal {
  import opened Wrappers
  import opened Seqs
  import opened JsStrings
  import opened Supabase
  import opened ViewModel

  /** A maker joined through `market_edition_makers`. */
  datatype MakerRow = MakerRow(
    id: Id,
    name: string,
    description: Option<string>,
    website: Option<string>,
    socialMedia: Option<string>)

  /** One `market_edition_makers` link; its maker join may be null. */
  datatype Membership = Membership(maker: Option<MakerRow>)

  /** The row the detail query returns. */
  datatype DetailRow = DetailRow(
    id: Id,
    name: string,
    startDate: Day,
    endDate: Day,
    market: Option<MarketJoin>,
    marketEditionMakers: seq<Membership>)

  /** A roster entry; every field is undefined (`None`) when the link's maker
      is null. */
  datatype RosterEntry = RosterEntry(
    id: Option<Id>,
    name: Option<string>,
    description: Option<string>,
    website: Option<string>,
    socialMedia: Option<string>)

  datatype MarketDetails = MarketDetails(
    id: Id,
    editionName: string,
    marketName: string,
    description: Option<string>,
    startDate: Day,
    endDate: Day,
    makers: seq<RosterEntry>)

  datatype FetchError = NoMarketId | QueryRejected(message: string)

  /** `!!marketId`: null and the empty string are falsy. */
  predicate IdGiven(marketId: Option<Id>) {
    marketId.Some? && marketId.value != ""
  }

  /** `open={!!marketId}` */
  function DialogOpen(marketId: Option<Id>): (open: bool)
    ensures open <==> IdGiven(marketId)
    ensures open ==> marketId.Some?
  {
    IdGiven(marketId)
  }

  /** `enabled: !!marketId`: the detail query runs exactly while the dialog is open. */
  function QueryEnabled(marketId: Option<Id>): (enabled: bool)
    ensures enabled == DialogOpen(marketId)
  {
    IdGiven(marketId)
  }

  /** `mem => ({ id: mem.maker?.id, ... })`: a null maker becomes an entry
      with no fields, a present one keeps all of its own. */
  function ToRosterEntry(membership: Membership): (entry: RosterEntry)
    ensures membership.maker.None? ==> entry == RosterEntry(None, None, None, None, None)
    ensures membership.maker.Some? ==>
      var m := membership.maker.value;
      entry == RosterEntry(Some(m.id), Some(m.name), m.description, m.website, m.socialMedia)
  {
    match membership.maker
    case None => RosterEntry(None, None, None, None, None)
    case Some(m) => RosterEntry(Some(m.id), Some(m.name), m.description, m.website, m.socialMedia)
  }

  /** The detail mapper: the same placeholder policy as the views, and one
      roster entry per link in the link order, null makers included. */
  function ToMarketDetails(row: DetailRow): (details: MarketDetails)
    ensures details.id == row.id && details.editionName == row.name
    ensures details.startDate == row.startDate && details.endDate == row.endDate
    ensures details.marketName == ResolveMarketName(row.market)
    ensures details.description == ResolveDescription(row.market)
    ensures |details.makers| == |row.marketEditionMakers|
    ensures forall i :: 0 <= i < |details.makers| ==> details.makers[i] == ToRosterEntry(row.marketEditionMakers[i])
  {
    MarketDetails(
      row.id, row.name, ResolveMarketName(row.market), ResolveDescription(row.market),
      row.startDate, row.endDate, Map(row.marketEditionMakers, ToRosterEntry))
  }

  /** Every maker of the edition appears in the roster, fields unchanged, and
      the roster has no entry that does not come from a link. */
  lemma RosterKeepsEveryMaker(row: DetailRow, m: MakerRow)
    requires Membership(Some(m)) in row.marketEditionMakers
    ensures RosterEntry(Some(m.id), Some(m.name), m.description, m.website, m.socialMedia) in ToMarketDetails(row).makers
  {
    var i :| 0 <= i < |row.marketEditionMakers| && row.marketEditionMakers[i] == Membership(Some(m));
    assert ToMarketDetails(row).makers[i] == ToRosterEntry(row.marketEditionMakers[i]);
  }

  /** The query function: it rejects without an id and otherwise maps the
      fetched row, passing a backend rejection on. The backend call is the
      parameter `fetch`. */
  function FetchDetails(marketId: Option<Id>, fetch: Id -> Result<DetailRow, string>): (r: Result<MarketDetails, FetchError>)
    ensures !IdGiven(marketId) <==> r == Failure(NoMarketId)
    ensures IdGiven(marketId) && fetch(marketId.value).Failure? ==> r == Failure(QueryRejected(fetch(marketId.value).error))
    ensures IdGiven(marketId) && fetch(marketId.value).Success? ==> r == Success(ToMarketDetails(fetch(marketId.value).value))
  {
    if !IdGiven(marketId) then Failure(NoMarketId)
    else match fetch(marketId.value)
      case Failure(e) => Failure(QueryRejected(e))
      case Success(row) => Success(ToMarketDetails(row))
  }

  /** Whenever the query is enabled it never fails for want of an id, and
      whenever it is disabled it could only fail that way. */
  lemma EnabledQueryHasAnId(marketId: Option<Id>, fetch: Id -> Result<DetailRow, string>)
    ensures QueryEnabled(marketId) <==> FetchDetails(marketId, fetch) != Failure(NoMarketId)
  {
  }

  /** What the dialog body shows. */
  datatype Display = Loading | Details(details: MarketDetails) | NotFound

  /** `isLoading ? … : market ? … : "Market not found"` */
  function DisplayFor(isLoading: bool, market: Option<MarketDetails>): (d: Display)
    ensures d.Loading? <==> isLoading
    ensures d.Details? <==> !isLoading && market.Some?
    ensures d.Details? ==> market == Some(d.details)
    ensures d.NotFound? <==> !isLoading && market.None?
  {
    if isLoading then Loading
    else match market
      case Some(m) => Details(m)
      case None => NotFound
  }

  const InstagramPrefix: string := "https://instagram.com/"

  /** `` `https://instagram.com/${handle.replace('@', '')}` `` */
  function InstagramHref(handle: string): (href: string)
    ensures |href| >= |InstagramPrefix| && href[..|InstagramPrefix|] == InstagramPrefix
    ensures href[|InstagramPrefix|..] == ReplaceFirst(handle, '@')
  {
    InstagramPrefix + ReplaceFirst(handle, '@')
  }

  /** "@handle" links to the profile "handle". */
  lemma InstagramHrefDropsLeadingAt(handle: string)
    ensures InstagramHref("@" + handle) == InstagramPrefix + handle
  {
    LeadingOccurrenceRemoved('@', handle);
  }

  /** Only the first "@" is removed: "a@b@c" links to "ab@c". */
  lemma InstagramHrefKeepsLaterAts()
    ensures InstagramHref("a@b@c") == InstagramPrefix + "ab@c"
  {
    assert IndexOf("a@b@c", '@') == 1 by {
      assert "a@b@c"[1] == '@';
      assert "a@b@c"[..1] == "a";
    }
  }

  /** A string shown only when truthy (non-null and non-empty). */
  function Shown(s: Option<string>): (shown: Option<string>)
    ensures shown.Some? <==> s.Some? && s.value != ""
    ensures shown.Some? ==> shown == s
  {
    if s.Some? && s.value != "" then s else None
  }

  /** A maker's card: name, the description when truthy, a website link when
      truthy, and an Instagram link labelled with the handle when truthy. */
  datatype MakerCard = MakerCard(
    name: Option<string>,
    description: Option<string>,
    websiteHref: Option<string>,
    instagram: Option<(string, string)>)

  function ToMakerCard(maker: RosterEntry): (card: MakerCard)
    ensures card.name == maker.name
    ensures card.description == Shown(maker.description)
    ensures card.websiteHref == Shown(maker.website)
    ensures card.instagram.Some? <==> Shown(maker.socialMedia).Some?
    ensures card.instagram.Some? ==>
      card.instagram.value == (InstagramHref(maker.socialMedia.value), maker.socialMedia.value)
  {
    MakerCard(
      maker.name, Shown(maker.description), Shown(maker.website),
      match Shown(maker.socialMedia)
      case Some(handle) => Some((InstagramHref(handle), handle))
      case None => None)
  }

  /** The makers section: a message when the roster is empty, otherwise one
      card per roster entry in order. */
  datatype MakersSection = NoMakersMessage | Cards(cards: seq<MakerCard>)

  function MakersSectionFor(makers: seq<RosterEntry>): (section: MakersSection)
    ensures section.NoMakersMessage? <==> |makers| == 0
    ensures section.Cards? ==> |section.cards| == |makers|
    ensures section.Cards? ==> forall i :: 0 <= i < |makers| ==> section.cards[i] == ToMakerCard(makers[i])
  {
    if |makers| > 0 then Cards(Map(makers, ToMakerCard)) else NoMakersMessage
  }
}
