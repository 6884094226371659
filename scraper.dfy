/** `SPPScraper` of scraper.py: fetching with retries and backoff, discovery
    of the portal's year types, the two-tier extraction of studies from a
    category page, and the walk over all monitored categories.

    The network, the HTML parser and `urljoin` are parameters: a fetch
    attempt is looked up by url and attempt number, a page is parsed into an
    abstract document of tables and links, and `join` resolves an href
    against BASE_URL. Waits are recorded, not performed. */
module Scraper {
  import opened Wrappers
  import opened Text
  import opened Dicts
  import opened Studies

  const BASE_URL: string := "https://opsportal.spp.org"
  const STUDIES_INDEX_URL: string := BASE_URL + "/Studies/Gen"
  const STUDY_LIST_URL: string := BASE_URL + "/Studies/GenList"

  /** An `<a href=...>` element: its href and its stripped text. */
  datatype Link = Link(href: string, text: string)

  /** A `th` or `td` element: its stripped text and the first link inside it. */
  datatype Cell = Cell(isHeader: bool, text: string, link: Option<Link>)

  datatype Row = Row(cells: seq<Cell>)

  datatype Table = Table(rows: seq<Row>)

  /** A parsed page: its tables in document order and every link with an
      href in document order. */
  datatype Document = Document(tables: seq<Table>, links: seq<Link>)

  /** One GET: the response text, or a request exception (connection error,
      timeout, HTTP error status). */
  datatype Attempt = Fetched(text: string) | Failed

  /** What the scraper cannot see: the network (by url and attempt number),
      the HTML parser, and `urljoin(BASE_URL, href)`. */
  datatype Web = Web(
    net: (string, nat) -> Attempt,
    parse: string -> Document,
    join: string -> string)

  /** A `time.sleep` the scraper makes. */
  datatype Sleep = Backoff(seconds: nat) | Throttle(delay: real)

  /** The constructor arguments of `SPPScraper`. */
  datatype Settings = Settings(yearTypeIds: Option<seq<int>>, requestDelay: real, maxRetries: int)

  const DEFAULT_SETTINGS: Settings := Settings(None, 2.0, 3)

  // ---------------------------------------------------------------------
  // _fetch_page

  function Pow2(n: nat): (r: nat)
    ensures r >= 1
  {
    if n == 0 then 1 else 2 * Pow2(n - 1)
  }

  /** The first attempt in from..maxRetries-1 that fetches, if any. */
  function FirstSuccess(net: (string, nat) -> Attempt, url: string, maxRetries: int, from: nat): (r: Option<nat>)
    ensures r.Some? ==> from <= r.value < maxRetries && net(url, r.value).Fetched?
    ensures forall a: nat :: from <= a < maxRetries && (r.None? || a < r.value) ==> net(url, a).Failed?
    decreases maxRetries - from
  {
    if from >= maxRetries then None
    else if net(url, from).Fetched? then Some(from)
    else FirstSuccess(net, url, maxRetries, from + 1)
  }

  /** What `_fetch_page(url)` returns: the text of the first successful
      attempt among the first maxRetries, or None when all of them fail. */
  function FetchResult(net: (string, nat) -> Attempt, url: string, maxRetries: int): (r: Option<string>)
    ensures maxRetries <= 0 ==> r.None?
    ensures r.None? <==> forall a: nat :: a < maxRetries ==> net(url, a).Failed?
    ensures r.Some? ==>
      exists a: nat :: a < maxRetries && net(url, a) == Fetched(r.value) && forall b: nat :: b < a ==> net(url, b).Failed?
  {
    match FirstSuccess(net, url, maxRetries, 0)
    case Some(a) => Some(net(url, a).text)
    case None => None
  }

  /** How many backoff waits `_fetch_page(url)` makes: one after every failed
      attempt except the last of the maxRetries. */
  function FetchWaits(net: (string, nat) -> Attempt, url: string, maxRetries: int): nat {
    match FirstSuccess(net, url, maxRetries, 0)
    case Some(a) => a
    case None => if maxRetries > 0 then maxRetries - 1 else 0
  }

  /** After failed attempt a (from 0) the wait is 2^(a+1) seconds. */
  function BackoffSchedule(k: nat): (r: seq<Sleep>)
    ensures |r| == k
    ensures forall a :: 0 <= a < k ==> r[a] == Backoff(Pow2(a + 1))
  {
    seq(k, a requires 0 <= a => Backoff(Pow2(a + 1)))
  }

  function BackoffSeconds(sleeps: seq<Sleep>): nat {
    if sleeps == [] then 0
    else BackoffSeconds(sleeps[..|sleeps| - 1]) + (match sleeps[|sleeps| - 1] case Backoff(s) => s case Throttle(_) => 0)
  }

  /** k backoff waits take 2 + 4 + ... + 2^k = 2^(k+1) - 2 seconds. */
  lemma {:induction false} BackoffTotal(k: nat)
    ensures BackoffSeconds(BackoffSchedule(k)) == Pow2(k + 1) - 2
  {
    if k > 0 {
      BackoffTotal(k - 1);
      assert BackoffSchedule(k)[..k - 1] == BackoffSchedule(k - 1);
    }
  }

  /** A total failure of n >= 1 attempts waits n - 1 times. */
  lemma TotalFailureWaits(net: (string, nat) -> Attempt, url: string, maxRetries: int)
    requires maxRetries >= 1
    requires forall a: nat :: a < maxRetries ==> net(url, a).Failed?
    ensures FetchResult(net, url, maxRetries).None?
    ensures FetchWaits(net, url, maxRetries) == maxRetries - 1
  {
  }

  /** `_fetch_page`: at most maxRetries attempts, stopping at the first
      success; never raises. */
  method FetchPage(net: (string, nat) -> Attempt, url: string, maxRetries: int)
    returns (page: Option<string>, ghost waits: seq<Sleep>)
    ensures page == FetchResult(net, url, maxRetries)
    ensures waits == BackoffSchedule(FetchWaits(net, url, maxRetries))
  {
    waits := [];
    var attempt: nat := 0;
    while attempt < maxRetries
      invariant attempt == 0 || attempt <= maxRetries
      invariant FirstSuccess(net, url, maxRetries, 0) == FirstSuccess(net, url, maxRetries, attempt)
      invariant waits == BackoffSchedule(if attempt > 0 && attempt == maxRetries then attempt - 1 else attempt)
      decreases maxRetries - attempt
    {
      match net(url, attempt)
      case Fetched(text) =>
        page := Some(text);
        return;
      case Failed =>
        if attempt < maxRetries - 1 {
          waits := waits + [Backoff(Pow2(attempt + 1))];
        }
        attempt := attempt + 1;
    }
    page := None;
  }

  /** The parsed page at url, or None when the fetch fails or returns an
      empty body (`if not html`). */
  function Page(web: Web, url: string, maxRetries: int): Option<Document> {
    match FetchResult(web.net, url, maxRetries)
    case Some(html) => if html == "" then None else Some(web.parse(html))
    case None => None
  }

  // ---------------------------------------------------------------------
  // discover_year_types

  /** The (id, label) a link on the index page contributes, or None when
      the link is skipped. */
  function LinkYearType(link: Link): Option<(int, string)> {
    if Contains(link.href, "GenList") && Contains(link.href, "yearTypeId=") then
      var after := Split(link.href, "yearTypeId=")[1];
      match ParseInt(Split(after, "&")[0])
      case None => None
      case Some(id) => if link.text != "" then Some((id, link.text)) else None
    else None
  }

  /** The contribution of every link, in document order. */
  function LinkEntries(links: seq<Link>): (r: seq<Option<(int, string)>>)
    ensures |r| == |links| && forall j :: 0 <= j < |links| ==> r[j] == LinkYearType(links[j])
  {
    seq(|links|, j requires 0 <= j < |links| => LinkYearType(links[j]))
  }

  /** The dictionary `year_types[id] = label` builds from the entries, in order. */
  function Collect(entries: seq<Option<(int, string)>>): (d: Dict<int, string>)
    ensures DistinctKeys(d)
  {
    if entries == [] then []
    else
      var d := Collect(entries[..|entries| - 1]);
      match entries[|entries| - 1]
      case None => d
      case Some(entry) => Put(d, entry.0, entry.1)
  }

  /** The map discovery builds from the index page's links. */
  function YearTypesOf(links: seq<Link>): Dict<int, string> {
    Collect(LinkEntries(links))
  }

  /** The entry names id. */
  predicate Names(entry: Option<(int, string)>, id: int) {
    entry.Some? && entry.value.0 == id
  }

  /** Entry i names id and no later entry does. */
  predicate LastNaming(entries: seq<Option<(int, string)>>, i: int, id: int) {
    0 <= i < |entries| && Names(entries[i], id)
    && forall j :: i < j < |entries| ==> !Names(entries[j], id)
  }

  /** No entry for an id that no link names. */
  lemma {:induction false} CollectAbsent(entries: seq<Option<(int, string)>>, id: int)
    ensures Get(Collect(entries), id).None? <==> forall j :: 0 <= j < |entries| ==> !Names(entries[j], id)
  {
    if entries != [] {
      var n := |entries| - 1;
      var pre := entries[..n];
      var e := entries[n];
      CollectAbsent(pre, id);
      assert (forall j :: 0 <= j < |entries| ==> !Names(entries[j], id)) <==>
        (forall j :: 0 <= j < n ==> !Names(pre[j], id)) && !Names(e, id) by {
        assert forall j :: 0 <= j < n ==> pre[j] == entries[j];
      }
      if e.Some? && e.value.0 != id {
        PutOther(Collect(pre), e.value.0, e.value.1, id);
      }
    }
  }

  /** The label of the last link naming an id wins. */
  lemma {:induction false} CollectLastWins(entries: seq<Option<(int, string)>>, i: int, id: int)
    requires LastNaming(entries, i, id)
    ensures Get(Collect(entries), id) == Some(entries[i].value.1)
  {
    var n := |entries| - 1;
    if i < n {
      var pre := entries[..n];
      assert !Names(entries[n], id);
      assert forall j :: 0 <= j < n ==> pre[j] == entries[j];
      assert LastNaming(pre, i, id);
      CollectLastWins(pre, i, id);
      if entries[n].Some? {
        PutOther(Collect(pre), entries[n].value.0, entries[n].value.1, id);
      }
    }
  }

  /** Discovery maps an id to the label of the last link naming it, and has
      no entry for an id no link names. */
  lemma YearTypesLastWins(links: seq<Link>, id: int)
    ensures Get(YearTypesOf(links), id).None? <==> forall j :: 0 <= j < |links| ==> !Names(LinkYearType(links[j]), id)
    ensures forall i :: LastNaming(LinkEntries(links), i, id) ==> Get(YearTypesOf(links), id) == Some(LinkYearType(links[i]).value.1)
  {
    CollectAbsent(LinkEntries(links), id);
    forall i | LastNaming(LinkEntries(links), i, id)
      ensures Get(YearTypesOf(links), id) == Some(LinkYearType(links[i]).value.1)
    {
      CollectLastWins(LinkEntries(links), i, id);
    }
  }

  /** The map `discover_year_types` returns: empty when the index page
      cannot be fetched. */
  function Discovered(web: Web, maxRetries: int): Dict<int, string> {
    match Page(web, STUDIES_INDEX_URL, maxRetries)
    case Some(doc) => YearTypesOf(doc.links)
    case None => []
  }

  /** `discover_year_types` */
  method DiscoverYearTypes(web: Web, maxRetries: int) returns (yearTypes: Dict<int, string>, ghost waits: seq<Sleep>)
    ensures yearTypes == Discovered(web, maxRetries)
    ensures waits == BackoffSchedule(FetchWaits(web.net, STUDIES_INDEX_URL, maxRetries))
  {
    var html;
    html, waits := FetchPage(web.net, STUDIES_INDEX_URL, maxRetries);
    if html.None? || html.value == "" {
      return [], waits;
    }
    var links := web.parse(html.value).links;
    yearTypes := [];
    for k := 0 to |links|
      invariant yearTypes == Collect(LinkEntries(links)[..k])
    {
      assert LinkEntries(links)[..k + 1][..k] == LinkEntries(links)[..k];
      match LinkYearType(links[k])
      case Some(entry) =>
        yearTypes := Put(yearTypes, entry.0, entry.1);
      case None =>
    }
    assert LinkEntries(links)[..|links|] == LinkEntries(links);
  }

  // ---------------------------------------------------------------------
  // fetch_studies_for_year_type

  /** The category page being scanned. */
  datatype Listing = Listing(id: int, yearTypeLabel: string, pageUrl: string, join: string -> string)

  /** The url of the study list of one category. */
  function ListUrl(id: int): string {
    STUDY_LIST_URL + "?yearTypeId=" + IntToString(id)
  }

  /** The row holds a `th`: it is a header row. */
  predicate IsHeaderRow(row: Row) {
    exists c :: c in row.cells && c.isHeader
  }

  function CellTexts(cells: seq<Cell>): (r: seq<string>)
    ensures |r| == |cells| && forall i :: 0 <= i < |cells| ==> r[i] == cells[i].text
  {
    seq(|cells|, i requires 0 <= i < |cells| => cells[i].text)
  }

  /** The details key of cell i: its header, or "col_i" past the headers. */
  function CellKey(headers: seq<string>, i: nat): string {
    if i < |headers| then headers[i] else "col_" + NatToString(i)
  }

  /** One pass of the cell loop: the cell's text under its key and, for a
      cell with a link, the resolved link under "{key}_url". */
  function AddCell(d: Dict<string, string>, key: string, cell: Cell, join: string -> string): (r: Dict<string, string>)
    ensures DistinctKeys(d) ==> DistinctKeys(r)
  {
    match cell.link
    case Some(l) => Put(Put(d, key, cell.text), key + "_url", join(l.href))
    case None => Put(d, key, cell.text)
  }

  lemma AddCellKeys(d: Dict<string, string>, key: string, cell: Cell, join: string -> string, k: string)
    ensures k in Keys(AddCell(d, key, cell, join)) <==>
      k in Keys(d) || k == key || (cell.link.Some? && k == key + "_url")
  {
  }

  /** The cell's own entries. */
  lemma AddCellOwn(d: Dict<string, string>, key: string, cell: Cell, join: string -> string)
    ensures Get(AddCell(d, key, cell, join), key) == Some(cell.text)
    ensures Get(AddCell(d, key, cell, join), key + "_url") ==
      match cell.link
      case Some(l) => Some(join(l.href))
      case None => Get(d, key + "_url")
  {
    assert |key + "_url"| > |key|;
    match cell.link
    case Some(l) => PutOther(Put(d, key, cell.text), key + "_url", join(l.href), key);
    case None => PutOther(d, key, cell.text, key + "_url");
  }

  /** Every other key keeps its entry. */
  lemma AddCellOther(d: Dict<string, string>, key: string, cell: Cell, join: string -> string, k: string)
    requires k != key && k != key + "_url"
    ensures Get(AddCell(d, key, cell, join), k) == Get(d, k)
  {
    PutOther(d, key, cell.text, k);
    if cell.link.Some? {
      PutOther(Put(d, key, cell.text), key + "_url", join(cell.link.value.href), k);
    }
  }

  /** The `row_data` dict after the given cells, cell i stored under key(i). */
  function RowDetailsBy(key: nat -> string, cells: seq<Cell>, join: string -> string): (d: Dict<string, string>)
    ensures DistinctKeys(d)
  {
    if cells == [] then []
    else
      var i := |cells| - 1;
      AddCell(RowDetailsBy(key, cells[..i], join), key(i), cells[i], join)
  }

  /** The column keys a header row gives. */
  function ColumnKey(headers: seq<string>): nat -> string {
    (i: nat) => CellKey(headers, i)
  }

  /** The `row_data` dict of a row under the given headers. */
  function RowDetails(headers: seq<string>, cells: seq<Cell>, join: string -> string): (d: Dict<string, string>)
    ensures DistinctKeys(d)
  {
    RowDetailsBy(ColumnKey(headers), cells, join)
  }

  /** Key k belongs to cell i of the row. */
  predicate KeyOfCell(key: nat -> string, cells: seq<Cell>, i: int, k: string) {
    0 <= i < |cells| && (k == key(i) || (cells[i].link.Some? && k == key(i) + "_url"))
  }

  /** Every cell's keys are in `row_data`. */
  lemma {:induction false} CellKeyPresent(key: nat -> string, cells: seq<Cell>, join: string -> string, i: int, k: string)
    requires KeyOfCell(key, cells, i, k)
    ensures k in Keys(RowDetailsBy(key, cells, join))
  {
    var n := |cells| - 1;
    var before := RowDetailsBy(key, cells[..n], join);
    assert RowDetailsBy(key, cells, join) == AddCell(before, key(n), cells[n], join);
    if i < n {
      assert KeyOfCell(key, cells[..n], i, k) by {
        assert cells[..n][i] == cells[i];
      }
      CellKeyPresent(key, cells[..n], join, i, k);
    }
    AddCellKeys(before, key(n), cells[n], join, k);
  }

  /** Every key of `row_data` belongs to some cell. */
  lemma {:induction false} KeyCell(key: nat -> string, cells: seq<Cell>, join: string -> string, k: string) returns (i: int)
    requires k in Keys(RowDetailsBy(key, cells, join))
    ensures KeyOfCell(key, cells, i, k)
  {
    var n := |cells| - 1;
    var before := RowDetailsBy(key, cells[..n], join);
    AddCellKeys(before, key(n), cells[n], join, k);
    if k in Keys(before) {
      i := KeyCell(key, cells[..n], join, k);
      assert cells[..n][i] == cells[i];
    } else {
      i := n;
    }
  }

  /** `row_data` has a key for every cell, plus "{key}_url" for every cell
      with a link, and nothing else. */
  lemma RowDetailsKeys(headers: seq<string>, cells: seq<Cell>, join: string -> string, key: string)
    ensures key in Keys(RowDetails(headers, cells, join)) <==>
      exists i :: 0 <= i < |cells| && (key == CellKey(headers, i) || (cells[i].link.Some? && key == CellKey(headers, i) + "_url"))
  {
    if key in Keys(RowDetails(headers, cells, join)) {
      var i := KeyCell(ColumnKey(headers), cells, join, key);
      assert ColumnKey(headers)(i) == CellKey(headers, i);
    }
    forall i | 0 <= i < |cells| && (key == CellKey(headers, i) || (cells[i].link.Some? && key == CellKey(headers, i) + "_url"))
      ensures key in Keys(RowDetails(headers, cells, join))
    {
      assert ColumnKey(headers)(i) == CellKey(headers, i);
      CellKeyPresent(ColumnKey(headers), cells, join, i, key);
    }
  }

  /** No two of the first n keys are equal, and none is another's "{key}_url". */
  predicate DistinctKeysBy(key: nat -> string, n: int) {
    (forall i: nat, j: nat :: i < j < n ==> key(i) != key(j))
    && (forall i: nat, j: nat :: i < n && j < n ==> key(i) != key(j) + "_url")
  }

  /** No two columns share a key, and no column key is another's "{key}_url". */
  predicate DistinctColumns(headers: seq<string>, n: int) {
    (forall i: nat, j: nat :: i < j < n ==> CellKey(headers, i) != CellKey(headers, j))
    && (forall i: nat, j: nat :: i < n && j < n ==> CellKey(headers, i) != CellKey(headers, j) + "_url")
  }

  lemma SameSuffix(a: string, b: string, suffix: string)
    requires a + suffix == b + suffix
    ensures a == b
  {
    assert a == (a + suffix)[..|a|];
    assert b == (b + suffix)[..|b|];
  }

  lemma UrlKeyAbsentBy(key: nat -> string, cells: seq<Cell>, join: string -> string, k: string)
    requires forall j: nat :: j < |cells| ==> k + "_url" != key(j) && k != key(j)
    ensures Get(RowDetailsBy(key, cells, join), k + "_url").None?
  {
    if k + "_url" in Keys(RowDetailsBy(key, cells, join)) {
      var j := KeyCell(key, cells, join, k + "_url");
      SameSuffix(k, key(j), "_url");
    }
  }

  /** A url key that no cell has a column for is absent. */
  lemma UrlKeyAbsent(headers: seq<string>, cells: seq<Cell>, join: string -> string, key: string)
    requires forall j :: 0 <= j < |cells| ==> key + "_url" != CellKey(headers, j) && key != CellKey(headers, j)
    ensures Get(RowDetails(headers, cells, join), key + "_url").None?
  {
    UrlKeyAbsentBy(ColumnKey(headers), cells, join, key);
  }

  lemma {:induction false} RowDetailsByText(key: nat -> string, cells: seq<Cell>, join: string -> string, i: int)
    requires DistinctKeysBy(key, |cells|) && 0 <= i < |cells|
    ensures Get(RowDetailsBy(key, cells, join), key(i)) == Some(cells[i].text)
  {
    var n := |cells| - 1;
    var before := RowDetailsBy(key, cells[..n], join);
    if i < n {
      assert cells[..n][i] == cells[i];
      RowDetailsByText(key, cells[..n], join, i);
      assert key(n) != key(i) && key(n) + "_url" != key(i);
      AddCellOther(before, key(n), cells[n], join, key(i));
    } else {
      AddCellOwn(before, key(n), cells[n], join);
    }
  }

  /** With distinct column keys, each cell's text is stored under its key. */
  lemma RowDetailsText(headers: seq<string>, cells: seq<Cell>, join: string -> string, i: int)
    requires DistinctColumns(headers, |cells|) && 0 <= i < |cells|
    ensures Get(RowDetails(headers, cells, join), CellKey(headers, i)) == Some(cells[i].text)
  {
    RowDetailsByText(ColumnKey(headers), cells, join, i);
  }

  lemma {:induction false} RowDetailsByUrl(key: nat -> string, cells: seq<Cell>, join: string -> string, i: int)
    requires DistinctKeysBy(key, |cells|) && 0 <= i < |cells|
    ensures Get(RowDetailsBy(key, cells, join), key(i) + "_url") ==
      match cells[i].link
      case Some(l) => Some(join(l.href))
      case None => None
  {
    var n := |cells| - 1;
    var before := RowDetailsBy(key, cells[..n], join);
    if i < n {
      assert cells[..n][i] == cells[i];
      RowDetailsByUrl(key, cells[..n], join, i);
      assert key(n) != key(i) + "_url";
      if key(n) + "_url" == key(i) + "_url" {
        SameSuffix(key(n), key(i), "_url");
      }
      AddCellOther(before, key(n), cells[n], join, key(i) + "_url");
    } else {
      AddCellOwn(before, key(n), cells[n], join);
      if cells[n].link.None? {
        UrlKeyAbsentBy(key, cells[..n], join, key(i));
      }
    }
  }

  /** With distinct column keys, "{key}_url" holds the resolved link of a
      linked cell and is absent for a cell without a link. */
  lemma RowDetailsUrl(headers: seq<string>, cells: seq<Cell>, join: string -> string, i: int)
    requires DistinctColumns(headers, |cells|) && 0 <= i < |cells|
    ensures Get(RowDetails(headers, cells, join), CellKey(headers, i) + "_url") ==
      match cells[i].link
      case Some(l) => Some(join(l.href))
      case None => None
  {
    RowDetailsByUrl(ColumnKey(headers), cells, join, i);
  }

  /** The study name a data row gives: its first cell's link text, else its
      first cell's text. */
  function RowName(cells: seq<Cell>): string
    requires cells != []
  {
    match cells[0].link
    case Some(l) => l.text
    case None => cells[0].text
  }

  /** The study url a data row gives: its first cell's link, else the page. */
  function RowUrl(cells: seq<Cell>, page: Listing): string
    requires cells != []
  {
    match cells[0].link
    case Some(l) => page.join(l.href)
    case None => page.pageUrl
  }

  /** The study a row without `th` yields under the current headers: None
      when the row has no cells or its name is empty. */
  function RowStudy(headers: seq<string>, cells: seq<Cell>, page: Listing): Option<Study> {
    if cells == [] then None
    else
      var name := RowName(cells);
      if name != "" then Some(Study(name, RowUrl(cells, page), page.id, page.yearTypeLabel, RowDetails(headers, cells, page.join)))
      else None
  }

  function RowYield(page: Listing): (seq<string>, seq<Cell>) -> Option<Study> {
    (headers, cells) => RowStudy(headers, cells, page)
  }

  /** Every study names the category it was fetched for and has a name. */
  predicate Tagged(studies: seq<Study>, id: int, yearTypeLabel: string) {
    forall s :: s in studies ==> s.yearTypeId == id && s.yearTypeLabel == yearTypeLabel && s.name != ""
  }

  /** The `headers` list and the `studies` list while a table is scanned. */
  datatype ScanState = ScanState(headers: seq<string>, studies: seq<Study>)

  /** One pass of the row loop, given what a row without `th` yields. */
  function ScanRow(st: ScanState, row: Row, yieldRow: (seq<string>, seq<Cell>) -> Option<Study>): ScanState {
    if IsHeaderRow(row) then ScanState(CellTexts(row.cells), st.studies)
    else
      match yieldRow(st.headers, row.cells)
      case Some(s) => ScanState(st.headers, st.studies + [s])
      case None => st
  }

  /** The state after the given rows of one table; headers start empty. */
  function Scan(rows: seq<Row>, yieldRow: (seq<string>, seq<Cell>) -> Option<Study>): ScanState {
    if rows == [] then ScanState([], [])
    else ScanRow(Scan(rows[..|rows| - 1], yieldRow), rows[|rows| - 1], yieldRow)
  }

  function ScanRows(rows: seq<Row>, page: Listing): ScanState {
    Scan(rows, RowYield(page))
  }

  /** Row k has no `th` and yields s under the headers of the rows above it. */
  predicate YieldsAt(rows: seq<Row>, k: int, yieldRow: (seq<string>, seq<Cell>) -> Option<Study>, s: Study) {
    0 <= k < |rows| && !IsHeaderRow(rows[k]) && yieldRow(Scan(rows[..k], yieldRow).headers, rows[k].cells) == Some(s)
  }

  lemma ScanRowStep(st: ScanState, row: Row, yieldRow: (seq<string>, seq<Cell>) -> Option<Study>, s: Study)
    ensures s in ScanRow(st, row, yieldRow).studies <==>
      s in st.studies || (!IsHeaderRow(row) && yieldRow(st.headers, row.cells) == Some(s))
  {
  }

  lemma YieldsAtPrefix(rows: seq<Row>, n: int, k: int, yieldRow: (seq<string>, seq<Cell>) -> Option<Study>, s: Study)
    requires 0 <= k < n <= |rows|
    ensures YieldsAt(rows[..n], k, yieldRow, s) == YieldsAt(rows, k, yieldRow, s)
  {
    assert rows[..n][..k] == rows[..k];
  }

  lemma {:induction false} ScanYield(rows: seq<Row>, yieldRow: (seq<string>, seq<Cell>) -> Option<Study>, s: Study)
    ensures s in Scan(rows, yieldRow).studies <==> exists k :: YieldsAt(rows, k, yieldRow, s)
  {
    if rows != [] {
      var n := |rows| - 1;
      var pre := rows[..n];
      ScanYield(pre, yieldRow, s);
      ScanRowStep(Scan(pre, yieldRow), rows[n], yieldRow, s);
      if s in Scan(rows, yieldRow).studies {
        if s in Scan(pre, yieldRow).studies {
          var k :| YieldsAt(pre, k, yieldRow, s);
          YieldsAtPrefix(rows, n, k, yieldRow, s);
        } else {
          assert YieldsAt(rows, n, yieldRow, s);
        }
      }
      if exists k :: YieldsAt(rows, k, yieldRow, s) {
        var k :| YieldsAt(rows, k, yieldRow, s);
        if k < n {
          YieldsAtPrefix(rows, n, k, yieldRow, s);
        }
      }
    }
  }

  /** A table yields exactly the studies of its rows that hold no `th`, have
      cells and a non-empty name, each keyed by the headers of the last header
      row above it. */
  lemma ScanRowsYield(rows: seq<Row>, page: Listing, s: Study)
    ensures s in ScanRows(rows, page).studies <==>
      exists k :: 0 <= k < |rows| && !IsHeaderRow(rows[k])
        && RowStudy(ScanRows(rows[..k], page).headers, rows[k].cells, page) == Some(s)
  {
    ScanYield(rows, RowYield(page), s);
    forall k | 0 <= k < |rows|
      ensures YieldsAt(rows, k, RowYield(page), s) <==>
        !IsHeaderRow(rows[k]) && RowStudy(ScanRows(rows[..k], page).headers, rows[k].cells, page) == Some(s)
    {
      var headers := ScanRows(rows[..k], page).headers;
      assert RowYield(page)(headers, rows[k].cells) == RowStudy(headers, rows[k].cells, page);
    }
  }

  /** The headers after some rows of a table are the cell texts of the last
      row among them that holds a `th`, and empty when none does. */
  lemma {:induction false} ScanRowsHeaders(rows: seq<Row>, page: Listing)
    ensures (forall k :: 0 <= k < |rows| ==> !IsHeaderRow(rows[k])) ==> ScanRows(rows, page).headers == []
    ensures forall k ::
      (0 <= k < |rows| && IsHeaderRow(rows[k]) && forall j :: k < j < |rows| ==> !IsHeaderRow(rows[j]))
      ==> ScanRows(rows, page).headers == CellTexts(rows[k].cells)
  {
    if rows != [] {
      var n := |rows| - 1;
      var pre := rows[..n];
      ScanRowsHeaders(pre, page);
      assert forall k :: 0 <= k < n ==> pre[k] == rows[k];
      assert ScanRows(rows, page) == ScanRow(ScanRows(pre, page), rows[n], RowYield(page));
      if !IsHeaderRow(rows[n]) {
        assert ScanRows(rows, page).headers == ScanRows(pre, page).headers;
      }
    }
  }

  /** Every study a table yields carries the page's category and a name. */
  lemma ScanRowsTagged(rows: seq<Row>, page: Listing)
    ensures Tagged(ScanRows(rows, page).studies, page.id, page.yearTypeLabel)
  {
    forall s | s in ScanRows(rows, page).studies
      ensures s.yearTypeId == page.id && s.yearTypeLabel == page.yearTypeLabel && s.name != ""
    {
      ScanRowsYield(rows, page, s);
    }
  }

  /** The studies the table strategy finds in the given tables. */
  function TablesStudies(tables: seq<Table>, page: Listing): (r: seq<Study>)
    ensures Tagged(r, page.id, page.yearTypeLabel)
  {
    if tables == [] then []
    else
      ScanRowsTagged(tables[|tables| - 1].rows, page);
      TablesStudies(tables[..|tables| - 1], page) + ScanRows(tables[|tables| - 1].rows, page).studies
  }

  /** The link strategy keeps links with text that mention a study, a
      "GEN-" or "DISIS" name, or point at a PDF or a documents folder. */
  predicate IsStudyLink(link: Link) {
    var lower := ToLower(link.text);
    link.text != ""
    && (Contains(lower, "study") || Contains(lower, "gen-") || Contains(lower, "disis")
        || EndsWith(link.href, ".pdf") || Contains(link.href, "/documents/"))
  }

  function LinkStudy(link: Link, page: Listing): Study {
    Study(link.text, page.join(link.href), page.id, page.yearTypeLabel, [])
  }

  /** The studies the link strategy finds, in document order. */
  function LinkStudies(links: seq<Link>, page: Listing): (r: seq<Study>)
    ensures Tagged(r, page.id, page.yearTypeLabel)
    ensures forall s :: s in r ==> s.details == []
  {
    if links == [] then []
    else (if IsStudyLink(links[0]) then [LinkStudy(links[0], page)] else []) + LinkStudies(links[1..], page)
  }

  /** The link strategy keeps exactly the study links, each once per occurrence, in order. */
  lemma {:induction false} LinkStudiesAppend(a: seq<Link>, b: seq<Link>, page: Listing)
    ensures LinkStudies(a + b, page) == LinkStudies(a, page) + LinkStudies(b, page)
  {
    if a != [] {
      assert (a + b)[1..] == a[1..] + b;
      LinkStudiesAppend(a[1..], b, page);
    } else {
      assert a + b == b;
    }
  }

  lemma {:induction false} LinkStudiesMembers(links: seq<Link>, page: Listing, s: Study)
    ensures s in LinkStudies(links, page) <==>
      exists i :: 0 <= i < |links| && IsStudyLink(links[i]) && s == LinkStudy(links[i], page)
  {
    if links != [] {
      LinkStudiesMembers(links[1..], page, s);
      if exists i :: 0 <= i < |links| && IsStudyLink(links[i]) && s == LinkStudy(links[i], page) {
        var i :| 0 <= i < |links| && IsStudyLink(links[i]) && s == LinkStudy(links[i], page);
        if i > 0 {
          assert links[1..][i - 1] == links[i];
        }
      }
    }
  }

  /** Both strategies: the link strategy runs only when the tables give nothing. */
  function PageStudies(doc: Document, page: Listing): (r: seq<Study>)
    ensures Tagged(r, page.id, page.yearTypeLabel)
  {
    var fromTables := TablesStudies(doc.tables, page);
    if fromTables != [] then fromTables else LinkStudies(doc.links, page)
  }

  /** What `fetch_studies_for_year_type(id, label)` returns. */
  function StudiesForYearType(web: Web, maxRetries: int, id: int, yearTypeLabel: string): (r: seq<Study>)
    ensures Tagged(r, id, yearTypeLabel)
  {
    var url := ListUrl(id);
    match Page(web, url, maxRetries)
    case Some(doc) => PageStudies(doc, Listing(id, yearTypeLabel, url, web.join))
    case None => []
  }

  /** The cell loop of a data row: builds `row_data`. */
  method BuildRowData(headers: seq<string>, cells: seq<Cell>, join: string -> string) returns (rowData: Dict<string, string>)
    ensures rowData == RowDetails(headers, cells, join)
  {
    rowData := [];
    for i := 0 to |cells|
      invariant rowData == RowDetails(headers, cells[..i], join)
    {
      assert cells[..i + 1][..i] == cells[..i];
      var key := CellKey(headers, i);
      match cells[i].link
      case Some(l) =>
        rowData := Put(rowData, key, cells[i].text);
        rowData := Put(rowData, key + "_url", join(l.href));
      case None =>
        rowData := Put(rowData, key, cells[i].text);
    }
    assert cells[..|cells|] == cells;
  }

  /** The row loop over one table, appending to `studies`. */
  method ScanTable(rows: seq<Row>, page: Listing, studies0: seq<Study>) returns (studies: seq<Study>)
    ensures studies == studies0 + ScanRows(rows, page).studies
  {
    studies := studies0;
    var headers: seq<string> := [];
    for r := 0 to |rows|
      invariant ScanRows(rows[..r], page).headers == headers
      invariant studies == studies0 + ScanRows(rows[..r], page).studies
    {
      assert rows[..r + 1][..r] == rows[..r];
      assert rows[..r + 1][r] == rows[r];
      assert ScanRows(rows[..r + 1], page) == ScanRow(ScanRows(rows[..r], page), rows[r], RowYield(page));
      var cells := rows[r].cells;
      if IsHeaderRow(rows[r]) {
        headers := CellTexts(cells);
        continue;
      }
      assert RowYield(page)(headers, cells) == RowStudy(headers, cells, page);
      if cells == [] {
        continue;
      }
      var rowData := BuildRowData(headers, cells, page.join);
      var name, studyUrl;
      match cells[0].link {
        case Some(l) =>
          name := l.text;
          studyUrl := page.join(l.href);
        case None =>
          name := cells[0].text;
          studyUrl := page.pageUrl;
      }
      assert RowStudy(headers, cells, page) ==
        if name != "" then Some(Study(name, studyUrl, page.id, page.yearTypeLabel, rowData)) else None;
      if name != "" {
        studies := studies + [Study(name, studyUrl, page.id, page.yearTypeLabel, rowData)];
      }
    }
    assert rows[..|rows|] == rows;
  }

  /** The link loop, run when the tables gave nothing. */
  method ScanLinks(links: seq<Link>, page: Listing) returns (studies: seq<Study>)
    ensures studies == LinkStudies(links, page)
  {
    studies := [];
    for k := 0 to |links|
      invariant studies == LinkStudies(links[..k], page)
    {
      LinkStudiesStep(links, k, page);
      if IsStudyLink(links[k]) {
        studies := studies + [LinkStudy(links[k], page)];
      }
    }
    assert links[..|links|] == links;
  }

  /** One link of the loop: the studies up to and including link k are
      those before it, then its own study if it has one. */
  lemma LinkStudiesStep(links: seq<Link>, k: int, page: Listing)
    requires 0 <= k < |links|
    ensures LinkStudies(links[..k + 1], page) ==
      LinkStudies(links[..k], page) + (if IsStudyLink(links[k]) then [LinkStudy(links[k], page)] else [])
  {
    assert links[..k + 1] == links[..k] + [links[k]];
    LinkStudiesAppend(links[..k], [links[k]], page);
    assert [links[k]][1..] == [];
  }

  /** `fetch_studies_for_year_type`: the table loops, then the link loop if
      they found nothing. */
  method FetchStudiesForYearType(web: Web, maxRetries: int, id: int, yearTypeLabel: string)
    returns (studies: seq<Study>, ghost waits: seq<Sleep>)
    ensures studies == StudiesForYearType(web, maxRetries, id, yearTypeLabel)
    ensures waits == BackoffSchedule(FetchWaits(web.net, ListUrl(id), maxRetries))
  {
    var url := ListUrl(id);
    var html;
    html, waits := FetchPage(web.net, url, maxRetries);
    if html.None? || html.value == "" {
      return [], waits;
    }
    var doc := web.parse(html.value);
    var page := Listing(id, yearTypeLabel, url, web.join);
    studies := [];
    for t := 0 to |doc.tables|
      invariant studies == TablesStudies(doc.tables[..t], page)
    {
      assert doc.tables[..t + 1][..t] == doc.tables[..t];
      studies := ScanTable(doc.tables[t].rows, page, studies);
    }
    assert doc.tables[..|doc.tables|] == doc.tables;
    if studies == [] {
      studies := ScanLinks(doc.links, page);
    }
  }

  // ---------------------------------------------------------------------
  // fetch_all_studies

  /** `{ytid: f"YearType {ytid}" for ytid in ids}` */
  function DefaultLabels(ids: seq<int>): (d: Dict<int, string>)
    ensures DistinctKeys(d)
    ensures forall id :: id in Keys(d) <==> id in ids
  {
    if ids == [] then []
    else Put(DefaultLabels(ids[..|ids| - 1]), ids[|ids| - 1], "YearType " + IntToString(ids[|ids| - 1]))
  }

  /** The relabelling loop over the configured ids. */
  function Relabel(d: Dict<int, string>, ids: seq<int>, discovered: Dict<int, string>): (r: Dict<int, string>)
  {
    if ids == [] then d
    else
      var r := Relabel(d, ids[..|ids| - 1], discovered);
      var id := ids[|ids| - 1];
      match Get(discovered, id)
      case Some(yearTypeLabel) => Put(r, id, yearTypeLabel)
      case None => r
  }

  /** The category map: the configured ids when there are any, labelled from
      discovery where possible; otherwise everything discovered. */
  function Categories(yearTypeIds: Option<seq<int>>, discovered: Dict<int, string>): Dict<int, string> {
    match yearTypeIds
    case Some(ids) => if ids != [] then Relabel(DefaultLabels(ids), ids, discovered) else discovered
    case None => discovered
  }

  lemma {:induction false} RelabelKeeps(d: Dict<int, string>, ids: seq<int>, discovered: Dict<int, string>)
    requires forall id :: id in ids ==> id in Keys(d)
    requires DistinctKeys(d)
    ensures Keys(Relabel(d, ids, discovered)) == Keys(d)
    ensures DistinctKeys(Relabel(d, ids, discovered))
    ensures forall id :: id !in ids || id !in Keys(discovered) ==> Get(Relabel(d, ids, discovered), id) == Get(d, id)
    ensures forall id :: id in ids && id in Keys(discovered) ==> Get(Relabel(d, ids, discovered), id) == Get(discovered, id)
  {
    RelabelKeys(d, ids, discovered);
    forall id
      ensures Get(Relabel(d, ids, discovered), id) ==
        if id in ids && id in Keys(discovered) then Get(discovered, id) else Get(d, id)
    {
      RelabelGet(d, ids, discovered, id);
    }
  }

  lemma {:induction false} RelabelKeys(d: Dict<int, string>, ids: seq<int>, discovered: Dict<int, string>)
    requires forall id :: id in ids ==> id in Keys(d)
    ensures Keys(Relabel(d, ids, discovered)) == Keys(d)
    ensures DistinctKeys(d) ==> DistinctKeys(Relabel(d, ids, discovered))
  {
    if ids != [] {
      RelabelKeys(d, ids[..|ids| - 1], discovered);
      assert ids[|ids| - 1] in ids;
    }
  }

  lemma {:induction false} RelabelGet(d: Dict<int, string>, ids: seq<int>, discovered: Dict<int, string>, id: int)
    ensures Get(Relabel(d, ids, discovered), id) ==
      if id in ids && id in Keys(discovered) then Get(discovered, id) else Get(d, id)
  {
    if ids != [] {
      var n := |ids| - 1;
      var pre := ids[..n];
      var last := ids[n];
      RelabelGet(d, pre, discovered, id);
      assert ids == pre + [last];
      assert id in ids <==> id in pre || id == last;
      var r := Relabel(d, pre, discovered);
      if Get(discovered, last).Some? && id != last {
        PutOther(r, last, Get(discovered, last).value, id);
      }
    }
  }

  lemma {:induction false} DefaultLabelOf(ids: seq<int>, id: int)
    requires id in ids
    ensures Get(DefaultLabels(ids), id) == Some("YearType " + IntToString(id))
  {
    var n := |ids| - 1;
    if ids[n] != id {
      assert ids == ids[..n] + [ids[n]];
      DefaultLabelOf(ids[..n], id);
      PutOther(DefaultLabels(ids[..n]), ids[n], "YearType " + IntToString(ids[n]), id);
    }
  }

  /** With ids configured, the categories are exactly those ids, each with
      its discovered label if there is one, else "YearType {id}". */
  lemma ConfiguredCategories(ids: seq<int>, discovered: Dict<int, string>, id: int)
    requires ids != []
    ensures id in Keys(Categories(Some(ids), discovered)) <==> id in ids
    ensures id in ids ==>
      Get(Categories(Some(ids), discovered), id) ==
        Some(if id in Keys(discovered) then Get(discovered, id).value else "YearType " + IntToString(id))
  {
    var d := DefaultLabels(ids);
    assert Categories(Some(ids), discovered) == Relabel(d, ids, discovered);
    RelabelKeeps(d, ids, discovered);
    if id in ids && id !in Keys(discovered) {
      DefaultLabelOf(ids, id);
    }
  }

  /** The concatenation of the studies of each category, in map order. */
  function CategoriesStudies(web: Web, maxRetries: int, cats: Dict<int, string>): (r: seq<Study>)
    ensures forall s :: s in r ==> exists i :: 0 <= i < |cats| && s.yearTypeId == cats[i].0 && s.yearTypeLabel == cats[i].1
  {
    if cats == [] then []
    else
      var n := |cats| - 1;
      var pre := CategoriesStudies(web, maxRetries, cats[..n]);
      var last := StudiesForYearType(web, maxRetries, cats[n].0, cats[n].1);
      assert forall s :: s in pre ==> exists i :: 0 <= i < |cats| && s.yearTypeId == cats[i].0 && s.yearTypeLabel == cats[i].1 by {
        forall s | s in pre
          ensures exists i :: 0 <= i < |cats| && s.yearTypeId == cats[i].0 && s.yearTypeLabel == cats[i].1
        {
          var i :| 0 <= i < n && s.yearTypeId == cats[..n][i].0 && s.yearTypeLabel == cats[..n][i].1;
          assert cats[..n][i] == cats[i];
        }
      }
      pre + last
  }

  /** The waits of the per-category loop: each fetch's backoffs, then the
      request delay when it is positive. */
  function CategoriesWaits(web: Web, settings: Settings, cats: Dict<int, string>): seq<Sleep> {
    if cats == [] then []
    else
      var n := |cats| - 1;
      CategoriesWaits(web, settings, cats[..n])
      + BackoffSchedule(FetchWaits(web.net, ListUrl(cats[n].0), settings.maxRetries))
      + (if settings.requestDelay > 0.0 then [Throttle(settings.requestDelay)] else [])
  }

  /** The category map `fetch_all_studies` walks; discovery runs in both branches. */
  function AllCategories(web: Web, settings: Settings): Dict<int, string> {
    Categories(settings.yearTypeIds, Discovered(web, settings.maxRetries))
  }

  /** What `fetch_all_studies` returns. */
  function AllStudies(web: Web, settings: Settings): seq<Study> {
    CategoriesStudies(web, settings.maxRetries, AllCategories(web, settings))
  }

  /** Every category map is a dict: no id twice. */
  lemma AllCategoriesDistinct(web: Web, settings: Settings)
    ensures DistinctKeys(AllCategories(web, settings))
  {
    var discovered := Discovered(web, settings.maxRetries);
    if settings.yearTypeIds.Some? && settings.yearTypeIds.value != [] {
      var ids := settings.yearTypeIds.value;
      RelabelKeeps(DefaultLabels(ids), ids, discovered);
    }
  }

  /** Every study fetched carries the label its category has in the map. */
  lemma AllStudiesLabelled(web: Web, settings: Settings, s: Study)
    requires s in AllStudies(web, settings)
    ensures Get(AllCategories(web, settings), s.yearTypeId) == Some(s.yearTypeLabel)
  {
    var cats := AllCategories(web, settings);
    AllCategoriesDistinct(web, settings);
    var i :| 0 <= i < |cats| && s.yearTypeId == cats[i].0 && s.yearTypeLabel == cats[i].1;
    GetAt(cats, i);
  }

  /** The loop over the configured ids that takes each discovered label. */
  method RelabelLoop(d: Dict<int, string>, ids: seq<int>, discovered: Dict<int, string>) returns (yearTypes: Dict<int, string>)
    ensures yearTypes == Relabel(d, ids, discovered)
  {
    yearTypes := d;
    for k := 0 to |ids|
      invariant yearTypes == Relabel(d, ids[..k], discovered)
    {
      assert ids[..k + 1][..k] == ids[..k];
      match Get(discovered, ids[k])
      case Some(yearTypeLabel) =>
        yearTypes := Put(yearTypes, ids[k], yearTypeLabel);
      case None =>
    }
    assert ids[..|ids|] == ids;
  }

  /** The first half of `fetch_all_studies`: the category map. */
  method MonitoredYearTypes(web: Web, settings: Settings) returns (yearTypes: Dict<int, string>, ghost waits: seq<Sleep>)
    ensures yearTypes == AllCategories(web, settings)
    ensures waits == BackoffSchedule(FetchWaits(web.net, STUDIES_INDEX_URL, settings.maxRetries))
  {
    if settings.yearTypeIds.Some? && settings.yearTypeIds.value != [] {
      var ids := settings.yearTypeIds.value;
      yearTypes := DefaultLabels(ids);
      var discovered;
      discovered, waits := DiscoverYearTypes(web, settings.maxRetries);
      yearTypes := RelabelLoop(yearTypes, ids, discovered);
    } else {
      yearTypes, waits := DiscoverYearTypes(web, settings.maxRetries);
    }
  }

  /** The second half of `fetch_all_studies`: one fetch per category, in
      map order, each followed by the request delay when it is positive. */
  method FetchCategories(web: Web, settings: Settings, yearTypes: Dict<int, string>)
    returns (all: seq<Study>, ghost waits: seq<Sleep>)
    ensures all == CategoriesStudies(web, settings.maxRetries, yearTypes)
    ensures waits == CategoriesWaits(web, settings, yearTypes)
  {
    all := [];
    waits := [];
    for k := 0 to |yearTypes|
      invariant all == CategoriesStudies(web, settings.maxRetries, yearTypes[..k])
      invariant waits == CategoriesWaits(web, settings, yearTypes[..k])
    {
      assert yearTypes[..k + 1][..k] == yearTypes[..k];
      var studies;
      ghost var fetchWaits;
      studies, fetchWaits := FetchStudiesForYearType(web, settings.maxRetries, yearTypes[k].0, yearTypes[k].1);
      all := all + studies;
      waits := waits + fetchWaits;
      if settings.requestDelay > 0.0 {
        waits := waits + [Throttle(settings.requestDelay)];
      }
    }
    assert yearTypes[..|yearTypes|] == yearTypes;
  }

  /** `fetch_all_studies` */
  method FetchAllStudies(web: Web, settings: Settings) returns (all: seq<Study>, ghost waits: seq<Sleep>)
    ensures all == AllStudies(web, settings)
    ensures waits == BackoffSchedule(FetchWaits(web.net, STUDIES_INDEX_URL, settings.maxRetries))
      + CategoriesWaits(web, settings, AllCategories(web, settings))
  {
    var yearTypes;
    yearTypes, waits := MonitoredYearTypes(web, settings);
    if yearTypes == [] {
      assert waits + CategoriesWaits(web, settings, yearTypes) == waits;
      return [], waits;
    }
    ghost var loopWaits;
    all, loopWaits := FetchCategories(web, settings, yearTypes);
    waits := waits + loopWaits;
  }
}
