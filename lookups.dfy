/**
 * The two scraping endpoints' own logic, over the page content already
 * parsed into lists: ranking logo search results, and choosing the stock
 * lookup table row.
 */
module Lookups {
  import opened Wrappers
  import opened Model
  import opened PyStrings
  import opened Sorting
  import opened Multisets

  // ---------------------------------------------------------------------------
  // Logo ranking

  /** One `li` of the search result list: the `src` of each `img` and the text
      of each `span`, in document order. */
  datatype ListItem = ListItem(imageSources: seq<string>, spanTexts: seq<string>)

  /** The `result_element` dictionary; an absent key is `None`. */
  datatype LogoEntry = LogoEntry(index: nat, url: Option<string>, title: Option<string>, distance: Option<nat>)

  /** `full_url.split("?")[0]`: the URL up to its first "?". */
  function StripQuery(fullUrl: string): (r: string)
    ensures '?' !in r
    ensures StartsWith(fullUrl, r)
    ensures '?' !in fullUrl ==> r == fullUrl
    ensures |r| < |fullUrl| ==> fullUrl[|r|] == '?'
  {
    FirstToken(fullUrl, '?');
    Split(fullUrl, '?')[0]
  }

  function Last<T>(s: seq<T>): T
    requires |s| > 0
  {
    s[|s| - 1]
  }

  /** The entry built for the item at `index`: the last image gives the URL,
      the last span gives the title and its distance to the target. */
  function EntryOf(index: nat, item: ListItem, target: string, distance: (string, string) -> nat): (e: LogoEntry)
    ensures e.index == index
    ensures e.url.Some? <==> |item.imageSources| > 0
    ensures e.title.Some? <==> |item.spanTexts| > 0
    ensures e.title.Some? ==> e.title.value in item.spanTexts && e.distance == Some(distance(target, e.title.value))
  {
    LogoEntry(
      index,
      if |item.imageSources| == 0 then None else Some(StripQuery(Last(item.imageSources))),
      if |item.spanTexts| == 0 then None else Some(Last(item.spanTexts)),
      if |item.spanTexts| == 0 then None else Some(distance(target, Last(item.spanTexts))))
  }

  /** The nested loops over the list items that build `results`. */
  method ScrapeLogoEntries(items: seq<ListItem>, target: string, distance: (string, string) -> nat)
    returns (results: seq<LogoEntry>)
    ensures |results| == |items|
    ensures forall i :: 0 <= i < |items| ==> results[i] == EntryOf(i, items[i], target, distance)
  {
    results := [];
    for index := 0 to |items|
      invariant |results| == index
      invariant forall i :: 0 <= i < index ==> results[i] == EntryOf(i, items[i], target, distance)
    {
      var element := items[index];
      var url: Option<string> := None;
      var title: Option<string> := None;
      var dist: Option<nat> := None;
      for k := 0 to |element.imageSources|
        invariant url == if k == 0 then None else Some(StripQuery(element.imageSources[k - 1]))
      {
        var fullUrl := element.imageSources[k];
        url := Some(StripQuery(fullUrl));
      }
      for k := 0 to |element.spanTexts|
        invariant title == if k == 0 then None else Some(element.spanTexts[k - 1])
        invariant dist == if k == 0 then None else Some(distance(target, element.spanTexts[k - 1]))
      {
        var text := element.spanTexts[k];
        title := Some(text);
        dist := Some(distance(target, text));
      }
      results := results + [LogoEntry(index, url, title, dist)];
    }
  }

  /** A scraped entry's URL carries no query string and begins the last image's `src`. */
  lemma EntryUrlStripped(index: nat, item: ListItem, target: string, distance: (string, string) -> nat)
    ensures var e := EntryOf(index, item, target, distance);
      e.url.Some? <==> |item.imageSources| > 0
    ensures var e := EntryOf(index, item, target, distance);
      e.url.Some? ==> '?' !in e.url.value && StartsWith(Last(item.imageSources), e.url.value)
    ensures var e := EntryOf(index, item, target, distance);
      e.title.Some? <==> e.distance.Some?
  {
  }

  function IndexKey(e: LogoEntry): int { e.index }

  /** The sort key `x["distance"]` (only used once every entry has one). */
  function DistanceKey(e: LogoEntry): int { if e.distance.Some? then e.distance.value else 0 }

  /** An entry pydantic accepts as a `Logo`. */
  predicate Complete(e: LogoEntry) {
    e.url.Some? && e.title.Some? && e.distance.Some?
  }

  /** The `Logo` pydantic builds from an entry (the defaults are never used:
      only complete entries are converted). */
  function ToLogo(e: LogoEntry): (l: Logo)
    ensures Complete(e) ==> l.url == e.url.value && l.title == e.title.value && l.distance == e.distance.value
    ensures l.index == e.index
  {
    Logo(e.index, e.url.GetOr(""), e.title.GetOr(""), e.distance.GetOr(0))
  }

  function ToLogos(es: seq<LogoEntry>): (r: seq<Logo>)
    ensures |r| == |es|
    ensures forall i :: 0 <= i < |es| ==> r[i] == ToLogo(es[i])
  {
    Mapped(es, ToLogo)
  }

  function Mapped<A, B>(s: seq<A>, f: A -> B): (r: seq<B>)
    ensures |r| == |s|
    ensures forall i :: 0 <= i < |s| ==> r[i] == f(s[i])
  {
    if |s| == 0 then [] else [f(s[0])] + Mapped(s[1..], f)
  }

  lemma MappedConcat<A, B>(a: seq<A>, b: seq<A>, f: A -> B)
    ensures Mapped(a + b, f) == Mapped(a, f) + Mapped(b, f)
  {
  }

  /** `KeyError: 'distance'` from the sort, or pydantic's validation error. */
  datatype LogoError = MissingDistance | InvalidLogo

  /** Sort by index, then stably by distance, then validate each entry as a `Logo`. */
  function RankLogos(results: seq<LogoEntry>): (r: Result<seq<Logo>, LogoError>)
    ensures r.Success? ==> |r.value| == |results|
  {
    if exists i :: 0 <= i < |results| && results[i].distance.None? then Failure(MissingDistance)
    else
      var sortedByIndex := SortBy(results, IndexKey);
      var sortedByDistance := SortBy(sortedByIndex, DistanceKey);
      if exists i :: 0 <= i < |sortedByDistance| && !Complete(sortedByDistance[i]) then Failure(InvalidLogo)
      else Success(ToLogos(sortedByDistance))
  }

  /** Mapping a permutation gives a permutation. */
  lemma {:induction false} MappedPermutation<A, B>(a: seq<A>, b: seq<A>, f: A -> B)
    requires multiset(a) == multiset(b)
    ensures multiset(Mapped(a, f)) == multiset(Mapped(b, f))
    decreases |a|
  {
    if |a| == 0 {
      assert |b| == |multiset(b)| == 0;
    } else {
      TakeHead(a);
      var j := SplitAround(a[0], b);
      var front, back := b[..j], b[j + 1..];
      MappedPermutation(a[1..], front + back, f);
      MappedCons(a, front, back, f);
    }
  }

  lemma MappedCons<A, B>(a: seq<A>, front: seq<A>, back: seq<A>, f: A -> B)
    requires |a| > 0
    requires multiset(Mapped(a[1..], f)) == multiset(Mapped(front + back, f))
    ensures multiset(Mapped(a, f)) == multiset(Mapped(front + [a[0]] + back, f))
  {
    assert a == [a[0]] + a[1..];
    MappedConcat([a[0]], a[1..], f);
    MappedInsert(front, a[0], back, f);
  }

  /** Putting `x` between two parts puts its image into the mapped multiset. */
  lemma MappedInsert<A, B>(front: seq<A>, x: A, back: seq<A>, f: A -> B)
    ensures multiset(Mapped(front + [x] + back, f)) == multiset(Mapped(front + back, f)) + multiset{f(x)}
  {
    MappedConcat(front + [x], back, f);
    MappedConcat(front, [x], f);
    MappedConcat(front, back, f);
  }

  /** Completeness of every entry does not depend on their order. */
  lemma CompletePermutation(a: seq<LogoEntry>, b: seq<LogoEntry>)
    requires multiset(a) == multiset(b)
    ensures (forall i :: 0 <= i < |a| ==> Complete(a[i])) <==> (forall i :: 0 <= i < |b| ==> Complete(b[i]))
  {
    forall i | 0 <= i < |a| ensures a[i] in multiset(b) { assert a[i] in multiset(a); }
    forall i | 0 <= i < |b| ensures b[i] in multiset(a) { assert b[i] in multiset(b); }
  }

  /** The ranking succeeds exactly when every entry is complete, and fails
      with the sort's `KeyError` exactly when some entry has no distance. */
  lemma RankLogosOutcome(results: seq<LogoEntry>)
    ensures RankLogos(results).Success? <==> forall i :: 0 <= i < |results| ==> Complete(results[i])
    ensures RankLogos(results) == Failure(MissingDistance) <==>
      exists i :: 0 <= i < |results| && results[i].distance.None?
  {
    CompletePermutation(results, SortBy(SortBy(results, IndexKey), DistanceKey));
  }

  /** A ranking holds every scraped logo exactly as often as it was scraped. */
  lemma RankLogosPermutation(results: seq<LogoEntry>)
    requires RankLogos(results).Success?
    ensures multiset(RankLogos(results).value) == multiset(ToLogos(results))
  {
    MappedPermutation(SortBy(SortBy(results, IndexKey), DistanceKey), results, ToLogo);
  }

  /** A ranking is ordered by distance, and among equal distances by index. */
  lemma RankLogosOrdered(results: seq<LogoEntry>)
    requires RankLogos(results).Success?
    ensures var logos := RankLogos(results).value;
      forall i, j :: 0 <= i < j < |logos| ==>
        logos[i].distance < logos[j].distance ||
        (logos[i].distance == logos[j].distance && logos[i].index <= logos[j].index)
  {
    var sortedByIndex := SortBy(results, IndexKey);
    var ranked := SortBy(sortedByIndex, DistanceKey);
    SortBySorted(results, IndexKey);
    SortByStable(sortedByIndex, DistanceKey, IndexKey);
    var logos := ToLogos(ranked);
    assert RankLogos(results).value == logos;
    forall i, j | 0 <= i < j < |logos|
      ensures logos[i].distance < logos[j].distance ||
              (logos[i].distance == logos[j].distance && logos[i].index <= logos[j].index)
    {
      assert LexLe(ranked[i], ranked[j], DistanceKey, IndexKey);
    }
  }

  /** Scraped entries carry their positions, so the first sort leaves them as they are. */
  lemma ScrapedEntriesInIndexOrder(results: seq<LogoEntry>)
    requires forall i :: 0 <= i < |results| ==> results[i].index == i
    ensures SortBy(results, IndexKey) == results
  {
    SortBySortedUnchanged(results, IndexKey);
  }

  // ---------------------------------------------------------------------------
  // Stock info row selection

  datatype StockField = TickerSymbol | CompanyName | StockPrice

  /** `header_mapping`: `None` for a column past its keys (a `KeyError`),
      `Some(None)` for a column that is skipped. */
  function HeaderMapping(index: nat): Option<Option<StockField>> {
    if index == 0 then Some(Some(TickerSymbol))
    else if index == 1 then Some(Some(CompanyName))
    else if index == 2 then Some(None)
    else if index == 3 then Some(Some(StockPrice))
    else if index == 4 then Some(None)
    else None
  }

  /** The column a field is read from. */
  function Column(f: StockField): nat {
    match f
    case TickerSymbol => 0
    case CompanyName => 1
    case StockPrice => 3
  }

  /** The fields a row of (at most five) cells yields: each field whose column exists. */
  function RowFields(cells: seq<string>): (m: map<StockField, string>)
    ensures forall f :: f in m <==> Column(f) < |cells|
    ensures forall f :: f in m ==> m[f] == cells[Column(f)]
  {
    map f | f in {TickerSymbol, CompanyName, StockPrice} && Column(f) < |cells| :: cells[Column(f)]
  }

  datatype StockInfoError = HeaderKeyError(index: nat) | InvalidStockInfo

  /** The mapping of one row, or the `KeyError` of its sixth cell. */
  function RowMapping(cells: seq<string>): (r: Result<map<StockField, string>, StockInfoError>)
    ensures r.Failure? <==> |cells| > 5
    ensures r.Success? ==> forall f :: f in r.value <==> Column(f) < |cells|
  {
    if |cells| > 5 then Failure(HeaderKeyError(5)) else Success(RowFields(cells))
  }

  /** The first row that has a cell. */
  function FirstRowWithCells(rows: seq<seq<string>>): (r: Option<nat>)
    ensures r.Some? ==> r.value < |rows| && |rows[r.value]| > 0
    ensures r.Some? ==> forall m :: 0 <= m < r.value ==> |rows[m]| == 0
    ensures r.None? ==> forall m :: 0 <= m < |rows| ==> |rows[m]| == 0
  {
    if |rows| == 0 then None
    else if |rows[0]| > 0 then Some(0)
    else match FirstRowWithCells(rows[1..])
      case None => None
      case Some(k) => Some(k + 1)
  }

  /** The mapping the row loop ends with: that of the first row with a cell,
      or the empty mapping of a last row with none (or of no rows at all). */
  function StockRowSelection(rows: seq<seq<string>>): (r: Result<map<StockField, string>, StockInfoError>)
    ensures r.Success? ==> (TickerSymbol in r.value <==> FirstRowWithCells(rows).Some?)
    ensures r.Success? && TickerSymbol !in r.value ==> r.value == map[]
    ensures r.Failure? ==> r.error == HeaderKeyError(5)
  {
    match FirstRowWithCells(rows)
    case None => Success(map[])
    case Some(k) => RowMapping(rows[k])
  }

  /** The loop over one row's cells through `header_mapping`. */
  method MapRow(cells: seq<string>) returns (r: Result<map<StockField, string>, StockInfoError>)
    ensures r == RowMapping(cells)
  {
    var result: map<StockField, string> := map[];
    for index := 0 to |cells|
      invariant index <= 5
      invariant result == RowFields(cells[..index])
    {
      var header := HeaderMapping(index);
      if header.None? {
        return Failure(HeaderKeyError(index));
      }
      if header.value.Some? {
        result := result[header.value.value := cells[index]];
      }
      RowFieldsStep(cells, index);
    }
    assert cells[..|cells|] == cells;
    return Success(result);
  }

  /** One cell's effect on the row mapping. */
  lemma RowFieldsStep(cells: seq<string>, index: nat)
    requires index < |cells| && index < 5
    ensures HeaderMapping(index).Some?
    ensures HeaderMapping(index).value.None? ==> RowFields(cells[..index + 1]) == RowFields(cells[..index])
    ensures HeaderMapping(index).value.Some? ==>
      RowFields(cells[..index + 1]) == RowFields(cells[..index])[HeaderMapping(index).value.value := cells[index]]
  {
    var before, after := RowFields(cells[..index]), RowFields(cells[..index + 1]);
    forall f ensures f in after ==> after[f] == cells[Column(f)] {}
    if HeaderMapping(index).value.Some? {
      assert Column(HeaderMapping(index).value.value) == index;
    }
  }

  /** The row loop with its reset of `result` and its `break` on a ticker. */
  method SelectStockRow(rows: seq<seq<string>>) returns (r: Result<map<StockField, string>, StockInfoError>)
    ensures r == StockRowSelection(rows)
  {
    var result: map<StockField, string> := map[];
    var i := 0;
    while i < |rows|
      invariant 0 <= i <= |rows|
      invariant forall m :: 0 <= m < i ==> |rows[m]| == 0
      invariant result == map[]
    {
      var cells := rows[i];
      var mapped := MapRow(cells);
      if mapped.Failure? {
        return mapped;
      }
      result := mapped.value;
      if TickerSymbol in result {
        return mapped;
      }
      i := i + 1;
    }
    return Success(result);
  }

  /** Validate the chosen mapping as a `StockInfo`; `parsePrice` is pydantic's
      coercion of the price text to a float. */
  function StockInfoOf(fields: map<StockField, string>, parsePrice: string -> Option<real>): (r: Result<StockInfo, StockInfoError>)
    ensures r.Failure? ==> r.error == InvalidStockInfo
    ensures r.Success? ==> TickerSymbol in fields && CompanyName in fields && StockPrice in fields
    ensures r.Success? ==> r.value.tickerSymbol == fields[TickerSymbol] && r.value.companyName == fields[CompanyName] &&
                           parsePrice(fields[StockPrice]) == Some(r.value.stockPrice)
  {
    if TickerSymbol in fields && CompanyName in fields && StockPrice in fields && parsePrice(fields[StockPrice]).Some?
    then Success(StockInfo(fields[TickerSymbol], fields[CompanyName], parsePrice(fields[StockPrice]).value))
    else Failure(InvalidStockInfo)
  }

  function GetStockInfo(rows: seq<seq<string>>, parsePrice: string -> Option<real>): (r: Result<StockInfo, StockInfoError>)
    ensures r.Failure? ==> r.error == InvalidStockInfo || r.error == HeaderKeyError(5)
  {
    match StockRowSelection(rows)
    case Failure(e) => Failure(e)
    case Success(fields) => StockInfoOf(fields, parsePrice)
  }

  /** The stock info comes from the first row with a cell: columns 0, 1 and 3
      give ticker, company and price; it succeeds exactly when that row has
      four or five cells and its price parses. */
  lemma GetStockInfoSpec(rows: seq<seq<string>>, parsePrice: string -> Option<real>)
    ensures GetStockInfo(rows, parsePrice).Success? <==>
      exists k :: 0 <= k < |rows| && FirstRowWithCells(rows) == Some(k) &&
        4 <= |rows[k]| <= 5 && parsePrice(rows[k][3]).Some?
    ensures forall k :: 0 <= k < |rows| && FirstRowWithCells(rows) == Some(k) && GetStockInfo(rows, parsePrice).Success? ==>
        GetStockInfo(rows, parsePrice).value == StockInfo(rows[k][0], rows[k][1], parsePrice(rows[k][3]).value)
    ensures (forall m :: 0 <= m < |rows| ==> |rows[m]| == 0) ==> GetStockInfo(rows, parsePrice) == Failure(InvalidStockInfo)
  {
  }
}
