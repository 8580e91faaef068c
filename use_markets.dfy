/** `useActiveMarketEditions` (src/hooks/useMarkets.ts): the fetched active
    editions, each annotated with its parsed coordinates, keeping only those
    whose location parses. */
module UseMarkets {
  import opened Wrappers
  import opened Seqs
  import opened Supabase

  /** `{ ...edition, coordinates }`: the row is kept whole beside the parsed
      coordinates. */
  datatype LocatedEdition = LocatedEdition(edition: MarketEdition, coordinates: Option<(Num, Num)>)

  /** `edition => ({ ...edition, coordinates: parseLocation(edition.location) })` */
  function Annotate(parseNum: NumberParser): MarketEdition -> LocatedEdition {
    (e: MarketEdition) => LocatedEdition(e, ParseLocation(e.location, parseNum))
  }

  /** `edition => edition.coordinates !== null` */
  predicate HasCoordinates(a: LocatedEdition) {
    a.coordinates.Some?
  }

  /** The editions whose location parses. */
  function Locatable(parseNum: NumberParser): MarketEdition -> bool {
    (e: MarketEdition) => ParseLocation(e.location, parseNum).Some?
  }

  function EditionOf(a: LocatedEdition): MarketEdition {
    a.edition
  }

  function StartOf(e: MarketEdition): int {
    e.startDate
  }

  function LocatedStartOf(a: LocatedEdition): int {
    a.edition.startDate
  }

  /** What the query at lines 16-18 promises of `data`: active editions that
      have not ended by `today`, in ascending order of start date. */
  ghost predicate ActiveQueryResult(rows: seq<MarketEdition>, today: Day) {
    && (forall i :: 0 <= i < |rows| ==> rows[i].isActive && rows[i].endDate >= today)
    && SortedBy(rows, StartOf)
  }

  /** `data.map(...).filter(...)`: every returned edition carries non-null
      coordinates, and they are those of its own location. */
  function ActiveMarketEditions(rows: seq<MarketEdition>, parseNum: NumberParser): (result: seq<LocatedEdition>)
    ensures |result| <= |rows|
    ensures forall i :: 0 <= i < |result| ==>
      result[i].coordinates.Some? && result[i].coordinates == ParseLocation(result[i].edition.location, parseNum)
  {
    var annotated := Map(rows, Annotate(parseNum));
    var result := Filter(annotated, HasCoordinates);
    assert forall i :: 0 <= i < |result| ==> result[i] in annotated by {
      SubsequenceMembers(result, annotated);
    }
    result
  }

  /** The result is exactly the rows whose location parses, in their input
      order, each annotated, with its fields carried over unchanged. */
  lemma ActiveEditionsAreTheLocatableRows(rows: seq<MarketEdition>, parseNum: NumberParser)
    ensures ActiveMarketEditions(rows, parseNum) == Map(Filter(rows, Locatable(parseNum)), Annotate(parseNum))
    ensures Map(ActiveMarketEditions(rows, parseNum), EditionOf) == Filter(rows, Locatable(parseNum))
  {
    FilterAfterMap(rows, Annotate(parseNum), HasCoordinates, Locatable(parseNum));
    var kept := Filter(rows, Locatable(parseNum));
    assert Map(Map(kept, Annotate(parseNum)), EditionOf) == kept;
  }

  /** An edition is dropped iff its location gives null. */
  lemma ActiveEditionsDropExactlyUnparsed(rows: seq<MarketEdition>, parseNum: NumberParser, e: MarketEdition)
    ensures e in Map(ActiveMarketEditions(rows, parseNum), EditionOf) <==>
      e in rows && ParseLocation(e.location, parseNum).Some?
  {
    ActiveEditionsAreTheLocatableRows(rows, parseNum);
    FilterMembership(rows, Locatable(parseNum), e);
  }

  /** Given the query's order, the result stays sorted by start date, and every
      returned edition is still active and not ended. */
  lemma ActiveEditionsKeepQueryGuarantees(rows: seq<MarketEdition>, today: Day, parseNum: NumberParser)
    requires ActiveQueryResult(rows, today)
    ensures SortedBy(ActiveMarketEditions(rows, parseNum), LocatedStartOf)
    ensures forall a :: a in ActiveMarketEditions(rows, parseNum) ==>
      a.edition.isActive && a.edition.endDate >= today
  {
    var annotated := Map(rows, Annotate(parseNum));
    assert SortedBy(annotated, LocatedStartOf) by {
      forall i, j | 0 <= i < j < |annotated| ensures LocatedStartOf(annotated[i]) <= LocatedStartOf(annotated[j]) {
        assert StartOf(rows[i]) <= StartOf(rows[j]);
      }
    }
    var result := Filter(annotated, HasCoordinates);
    SubsequenceKeepsSorted(result, annotated, LocatedStartOf);
    SubsequenceMembers(result, annotated);
    forall a | a in result ensures a.edition.isActive && a.edition.endDate >= today {
      var i :| 0 <= i < |annotated| && annotated[i] == a;
      assert a.edition == rows[i];
    }
  }
}
