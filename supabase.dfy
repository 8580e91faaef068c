/** Shapes of the rows the backend returns, and `parseLocation`
    (src/lib/supabase.ts). The client construction is network set-up and
    is not modelled. */
module Supabase {
  import opened Wrappers
  import opened JsStrings

  /** Identifiers as the views hold them: strings. */
  type Id = string

  /** A calendar date ("YYYY-MM-DD"), abstracted to its position on the
      calendar so that the usual order of dates is the order of integers. */
  type Day = int

  /** A JavaScript number that is not NaN. NaN itself is `None` in
      `Option<Num>`. */
  datatype Num = Finite(value: real) | PositiveInfinity | NegativeInfinity

  predicate IsFinite(n: Num) {
    n.Finite?
  }

  /** `Number(s)`: floating-point parsing is not modelled, so the conversion
      is a parameter; `None` stands for NaN. */
  type NumberParser = string -> Option<Num>

  /** The joined market of an edition, `market:markets(name, description)`. */
  datatype MarketJoin = MarketJoin(name: string, description: Option<string>)

  /** A `market_editions` row selected with `*` and its joined market. Its
      location is `None` when the column is null. */
  datatype MarketEdition = MarketEdition(
    id: Id,
    marketId: Id,
    name: string,
    startDate: Day,
    endDate: Day,
    location: Option<string>,
    isActive: bool,
    createdAt: string,
    updatedAt: string,
    market: Option<MarketJoin>)

  /** The edition row the map, calendar and list queries receive
      (`MarketEditionResponse`): each query selects some of these columns. */
  datatype EditionResponse = EditionResponse(
    id: Id,
    name: string,
    startDate: Day,
    endDate: Day,
    isActive: bool,
    placeId: Option<Id>,
    market: Option<MarketJoin>)

  /** `parseLocation(location)`: split on ",", convert the first two pieces
      with `Number`, and return the pair when neither is NaN. A missing
      second piece converts to NaN. A null location makes `split` throw,
      and the `catch` turns that into null as well. */
  function ParseLocation(location: Option<string>, parseNum: NumberParser): (r: Option<(Num, Num)>)
    ensures location.None? ==> r.None?
    ensures r.Some? ==> ',' in location.value
  {
    match location
    case None => None
    case Some(s) =>
      var pieces := Split(s, ',');
      var lat := parseNum(pieces[0]);
      var lng := if |pieces| >= 2 then parseNum(pieces[1]) else None;
      if lat.Some? && lng.Some? then
        assert |pieces| >= 2 && s == pieces[0] + [','] + Join(pieces[1..], ',');
        Some((lat.value, lng.value))
      else None
  }

  /** A string without a comma has no second piece and gives null. */
  lemma ParseLocationWithoutComma(s: string, parseNum: NumberParser)
    requires ',' !in s
    ensures ParseLocation(Some(s), parseNum) == None
  {
    SplitWithoutSeparator(s, ',');
  }

  /** `"a,b"`: a pair exactly when both pieces convert, made of their values
      in order. */
  lemma ParseLocationOfPair(a: string, b: string, parseNum: NumberParser)
    requires ',' !in a && ',' !in b
    ensures var r := ParseLocation(Some(a + "," + b), parseNum);
      && (r.Some? <==> parseNum(a).Some? && parseNum(b).Some?)
      && (r.Some? ==> r.value.0 == parseNum(a).value && r.value.1 == parseNum(b).value)
  {
    SplitAtFirstSeparator(a, ',', b);
    SplitWithoutSeparator(b, ',');
  }

  /** Pieces after the second are converted but never looked at. */
  lemma ParseLocationIgnoresTail(a: string, b: string, tail: string, parseNum: NumberParser)
    requires ',' !in a && ',' !in b
    ensures ParseLocation(Some(a + "," + b + "," + tail), parseNum) == ParseLocation(Some(a + "," + b), parseNum)
  {
    SplitAtFirstSeparator(a, ',', b + "," + tail);
    assert a + "," + b + "," + tail == a + [','] + (b + "," + tail);
    SplitAtFirstSeparator(b, ',', tail);
    assert b + "," + tail == b + [','] + tail;
    SplitAtFirstSeparator(a, ',', b);
    SplitWithoutSeparator(b, ',');
  }

  /** Only NaN is rejected: an infinite coordinate is accepted. */
  lemma ParseLocationAcceptsInfinity(a: string, b: string, parseNum: NumberParser)
    requires ',' !in a && ',' !in b
    requires parseNum(a) == Some(PositiveInfinity) && parseNum(b).Some?
    ensures ParseLocation(Some(a + "," + b), parseNum) == Some((PositiveInfinity, parseNum(b).value))
    ensures !IsFinite(ParseLocation(Some(a + "," + b), parseNum).value.0)
  {
    ParseLocationOfPair(a, b, parseNum);
  }

  /** `Number("")` is 0, so a lone comma passes the NaN check as (0, 0). */
  lemma ParseLocationOfEmptyPieces(parseNum: NumberParser)
    requires parseNum("") == Some(Finite(0.0))
    ensures ParseLocation(Some(","), parseNum) == Some((Finite(0.0), Finite(0.0)))
  {
    assert "," == "" + "," + "";
    ParseLocationOfPair("", "", parseNum);
  }

  /** "45.50,-73.57" gives (45.50, -73.57) when `Number` reads the two
      pieces as those values. */
  lemma ParseLocationExample(parseNum: NumberParser)
    requires parseNum("45.50") == Some(Finite(45.50)) && parseNum("-73.57") == Some(Finite(-73.57))
    ensures ParseLocation(Some("45.50,-73.57"), parseNum) == Some((Finite(45.50), Finite(-73.57)))
  {
    assert "45.50,-73.57" == "45.50" + "," + "-73.57";
    ParseLocationOfPair("45.50", "-73.57", parseNum);
  }
}
