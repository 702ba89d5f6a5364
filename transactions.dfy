/**
  The transactions table (src/app/transactions/page.tsx): the mock rows,
  the page count and page slicing with six rows per page, the row-selection
  record with its "select all visible" and per-row toggles, and the
  pagination bar's enabled buttons.
*/
module Transactions {
  import opened Wrappers

  datatype TxStatus = Processed | Failed | Pending
  datatype TxType = Transfer | Withdrawal | Deposit | Request

  datatype Transaction = Transaction(
    id: string,
    transactionId: string,
    amount: int,
    txType: TxType,
    date: string,
    time: string,
    status: TxStatus)

  function Min(a: int, b: int): int { if a < b then a else b }
  function Max(a: int, b: int): int { if a < b then b else a }

  function DigitChar(d: int): char
    requires 0 <= d < 10
  {
    ('0' as int + d) as char
  }

  /** The number a string of decimal digits denotes, most significant digit first. */
  function DigitsValue(s: string): int
    decreases |s|
  {
    if s == [] then 0 else 10 * DigitsValue(s[..|s| - 1]) + (s[|s| - 1] as int - '0' as int)
  }

  /** `String(n)` for a natural number: its decimal digits, most significant first, without leading zeros. */
  function DecimalString(n: nat): (s: string)
    ensures |s| >= 1
    ensures |s| == 1 <==> n < 10
    ensures forall k :: 0 <= k < |s| ==> '0' <= s[k] <= '9'
    ensures |s| > 1 ==> s[0] != '0'
    ensures DigitsValue(s) == n
    decreases n
  {
    if n < 10 then [DigitChar(n)]
    else
      var s := DecimalString(n / 10) + [DigitChar(n % 10)];
      assert s[..|s| - 1] == DecimalString(n / 10);
      s
  }

  /** Different numbers have different decimal strings, so ids built with `String(i + 1)` are distinct. */
  lemma DecimalStringInjective(a: nat, b: nat)
    requires DecimalString(a) == DecimalString(b)
    ensures a == b
  {
  }

  /** The twenty rows `Array.from({length: 20}).map((_, i) => ...)`. */
  const MockData: seq<Transaction> := seq(20, i requires 0 <= i < 20 =>
    Transaction(
      DecimalString(i + 1),
      "TR_8401857902",
      [43644, 35471, 38948][i % 3],
      [Transfer, Withdrawal, Deposit, Request][i % 4],
      "2022-02-12",
      "10:30",
      [Processed, Failed][i % 2]))

  const PageSize: nat := 6

  /** `Math.max(1, Math.ceil(n / pageSize))`. */
  function Pages(n: nat): (pages: int)
    ensures pages >= 1
    ensures n == 0 ==> pages == 1
    ensures n > 0 ==> (pages - 1) * PageSize < n <= pages * PageSize
  {
    Max(1, (n + PageSize - 1) / PageSize)
  }

  /** A slice index as `Array.prototype.slice` resolves it: negative counts from the end, then clamped to the length. */
  function RelativeIndex(i: int, len: nat): (r: nat)
    ensures r <= len
    ensures 0 <= i ==> r == Min(i, len)
  {
    if i < 0 then Max(len + i, 0) else Min(i, len)
  }

  /** `s.slice(start, end)`. */
  function JsSlice<T>(s: seq<T>, start: int, end: int): (r: seq<T>)
    ensures |r| <= |s|
    ensures 0 <= start <= end ==> r == s[Min(start, |s|)..Min(end, |s|)]
  {
    var from, to := RelativeIndex(start, |s|), RelativeIndex(end, |s|);
    if from < to then s[from..to] else []
  }

  /** `data.slice((page - 1) * pageSize, page * pageSize)`. */
  function PageData(data: seq<Transaction>, page: int): (rows: seq<Transaction>)
    ensures |rows| <= PageSize && |rows| <= |data|
  {
    JsSlice(data, (page - 1) * PageSize, page * PageSize)
  }

  /**
    A page in range holds the rows from `(page - 1) * 6` up to `page * 6` or
    the end: at most six rows, exactly six on every page but the last, and at
    least one as soon as there is data.
  */
  lemma PageDataSpec(data: seq<Transaction>, page: int)
    requires 1 <= page <= Pages(|data|)
    ensures (page - 1) * PageSize <= Min(page * PageSize, |data|)
    ensures PageData(data, page) == data[(page - 1) * PageSize..Min(page * PageSize, |data|)]
    ensures |PageData(data, page)| <= PageSize && |PageData(data, page)| <= |data|
    ensures page < Pages(|data|) ==> |PageData(data, page)| == PageSize
    ensures |data| > 0 ==> |PageData(data, page)| > 0
  {
  }

  /** Pages past the last one are empty. */
  lemma PageBeyondLastIsEmpty(data: seq<Transaction>, page: int)
    requires page > Pages(|data|)
    ensures PageData(data, page) == []
  {
  }

  /** Pages `1..k` laid end to end. */
  function PagesUpTo(data: seq<Transaction>, k: nat): seq<Transaction>
    decreases k
  {
    if k == 0 then [] else PagesUpTo(data, k - 1) + PageData(data, k)
  }

  lemma {:induction false} PagesUpToIsPrefix(data: seq<Transaction>, k: nat)
    requires k <= Pages(|data|)
    ensures PagesUpTo(data, k) == data[..Min(k * PageSize, |data|)]
    decreases k
  {
    if k > 0 {
      PagesUpToIsPrefix(data, k - 1);
      PageDataSpec(data, k);
      var lo, hi := (k - 1) * PageSize, Min(k * PageSize, |data|);
      assert Min((k - 1) * PageSize, |data|) == lo;
      assert data[..lo] + data[lo..hi] == data[..hi];
    }
  }

  /** The pages partition the rows: read in order, pages `1..pages` give back every row exactly once. */
  lemma PagesPartitionRows(data: seq<Transaction>)
    ensures PagesUpTo(data, Pages(|data|)) == data
  {
    PagesUpToIsPrefix(data, Pages(|data|));
    assert data[..|data|] == data;
  }

  /** The selection record: `Record<string, boolean>`, keyed by row id. */
  type Selection = map<string, bool>

  /** `!!selected[id]`: a missing entry reads as unchecked. */
  predicate RowChecked(selected: Selection, id: string)
    ensures id !in selected ==> !RowChecked(selected, id)
  {
    id in selected && selected[id]
  }

  /** `pageData.every(r => selected[r.id])`. */
  predicate AllVisibleChecked(pageData: seq<Transaction>, selected: Selection)
    ensures pageData == [] ==> AllVisibleChecked(pageData, selected)
  {
    forall i :: 0 <= i < |pageData| ==> RowChecked(selected, pageData[i].id)
  }

  function Ids(rows: seq<Transaction>): set<string> {
    set i | 0 <= i < |rows| :: rows[i].id
  }

  /**
    `toggleAllVisible(check)`: copy the record and set each visible row's
    entry to `check`. Every other entry stays as it was, and afterwards the
    header checkbox reads `check` (on a non-empty page).
  */
  method ToggleAllVisible(pageData: seq<Transaction>, selected: Selection, check: bool) returns (next: Selection)
    ensures next.Keys == selected.Keys + Ids(pageData)
    ensures forall i :: 0 <= i < |pageData| ==> next[pageData[i].id] == check
    ensures forall id :: id in selected && id !in Ids(pageData) ==> next[id] == selected[id]
    ensures pageData != [] ==> AllVisibleChecked(pageData, next) == check
  {
    next := selected;
    for i := 0 to |pageData|
      invariant next.Keys == selected.Keys + Ids(pageData[..i])
      invariant forall j :: 0 <= j < i ==> next[pageData[j].id] == check
      invariant forall id :: id in selected && id !in Ids(pageData[..i]) ==> next[id] == selected[id]
    {
      assert Ids(pageData[..i + 1]) == Ids(pageData[..i]) + {pageData[i].id} by {
        assert forall j :: 0 <= j < i ==> pageData[..i + 1][j] == pageData[..i][j];
      }
      next := next[pageData[i].id := check];
    }
    assert pageData[..|pageData|] == pageData;
    if pageData != [] {
      assert RowChecked(next, pageData[0].id) == check;
    }
  }

  /** `setSelected(s => ({...s, [id]: v}))`: the row's entry becomes `v`, and nothing else changes. */
  function ToggleRow(selected: Selection, id: string, v: bool): (next: Selection)
    ensures RowChecked(next, id) == v
    ensures next.Keys == selected.Keys + {id}
    ensures forall other :: other in selected && other != id ==> next[other] == selected[other]
  {
    selected[id := v]
  }

  /** Unchecking any visible row unchecks the header checkbox. */
  lemma UncheckingVisibleRowClearsHeader(pageData: seq<Transaction>, selected: Selection, i: int)
    requires 0 <= i < |pageData|
    ensures !AllVisibleChecked(pageData, ToggleRow(selected, pageData[i].id, false))
  {
  }

  /** Checking the one unchecked visible row checks the header checkbox. */
  lemma CheckingLastVisibleRowSetsHeader(pageData: seq<Transaction>, selected: Selection, i: int)
    requires 0 <= i < |pageData|
    requires forall j :: 0 <= j < |pageData| && pageData[j].id != pageData[i].id ==> RowChecked(selected, pageData[j].id)
    ensures AllVisibleChecked(pageData, ToggleRow(selected, pageData[i].id, true))
  {
  }

  /** The controls of the pagination bar. */
  datatype PagerButton = FirstPage | PreviousPage | PageNumber(p: int) | NextPage | LastPage

  /** What the pagination bar renders: whether « and ‹ are enabled, whether › and » are, and the numbered buttons. */
  datatype PagerView = PagerView(canPrev: bool, canNext: bool, numbers: seq<int>)

  /** The `Pagination` component: nothing for a single page. */
  function Pagination(page: int, pages: int): (bar: Option<PagerView>)
    ensures bar.Some? <==> pages > 1
  {
    if pages <= 1 then None
    else Some(PagerView(page > 1, page < pages, seq(pages, i => i + 1)))
  }

  predicate Enabled(view: PagerView, b: PagerButton) {
    match b
    case FirstPage => view.canPrev
    case PreviousPage => view.canPrev
    case PageNumber(p) => p in view.numbers
    case NextPage => view.canNext
    case LastPage => view.canNext
  }

  /** The page each button's `onPageChange` asks for. */
  function Target(page: int, pages: int, b: PagerButton): int {
    match b
    case FirstPage => 1
    case PreviousPage => page - 1
    case PageNumber(p) => p
    case NextPage => page + 1
    case LastPage => pages
  }

  /**
    The page after clicking `b`: « and ‹ go to the first and previous page
    when the page is not the first, › and » to the next and last page when
    it is not the last, a number button to its page; a button that is not
    rendered or is disabled does nothing.
  */
  function Click(page: int, pages: int, b: PagerButton): (next: int)
    ensures next == page || next == Target(page, pages, b)
    ensures pages <= 1 ==> next == page
    ensures pages > 1 && page > 1 && b == FirstPage ==> next == 1
    ensures pages > 1 && page > 1 && b == PreviousPage ==> next == page - 1
    ensures pages > 1 && page < pages && b == NextPage ==> next == page + 1
    ensures pages > 1 && page < pages && b == LastPage ==> next == pages
    ensures pages > 1 && b.PageNumber? && 1 <= b.p <= pages ==> next == b.p
    ensures page <= 1 && (b == FirstPage || b == PreviousPage) ==> next == page
    ensures page >= pages && (b == NextPage || b == LastPage) ==> next == page
    ensures b.PageNumber? && !(1 <= b.p <= pages) ==> next == page
  {
    match Pagination(page, pages)
    case None => page
    case Some(view) =>
      assert b.PageNumber? && 1 <= b.p <= pages ==> view.numbers[b.p - 1] == b.p;
      if Enabled(view, b) then Target(page, pages, b) else page
  }

  /** The page after clicking `clicks` in order, starting from `page`. */
  function Browse(page: int, pages: int, clicks: seq<PagerButton>): (next: int)
    ensures pages <= 1 ==> next == page
    decreases |clicks|
  {
    if clicks == [] then page
    else Click(Browse(page, pages, clicks[..|clicks| - 1]), pages, clicks[|clicks| - 1])
  }

  /**
    The bar is rendered exactly when there are at least two pages; « and ‹ are
    enabled exactly when the page is not the first, › and » exactly when it is
    not the last; the numbered buttons are 1 to `pages` in order.
  */
  lemma PaginationShape(page: int, pages: int)
    ensures Pagination(page, pages).Some? <==> pages > 1
    ensures Pagination(page, pages).Some? ==>
      var view := Pagination(page, pages).value;
      (view.canPrev <==> page > 1) && (view.canNext <==> page < pages) &&
      |view.numbers| == pages && forall i :: 0 <= i < pages ==> view.numbers[i] == i + 1
  {
  }

  /** An enabled control never leads outside `1..pages`. */
  lemma ClickStaysInRange(page: int, pages: int, b: PagerButton)
    requires 1 <= page <= pages
    ensures 1 <= Click(page, pages, b) <= pages
  {
    if pages > 1 && b.PageNumber? {
      var view := Pagination(page, pages).value;
      if b.p in view.numbers {
        var i :| 0 <= i < |view.numbers| && view.numbers[i] == b.p;
      }
    }
  }

  /** Any sequence of clicks keeps the page within `1..pages`. */
  lemma {:induction false} BrowsingStaysInRange(page: int, pages: int, clicks: seq<PagerButton>)
    requires 1 <= page <= pages
    ensures 1 <= Browse(page, pages, clicks) <= pages
    decreases |clicks|
  {
    if clicks != [] {
      var n := |clicks| - 1;
      BrowsingStaysInRange(page, pages, clicks[..n]);
      ClickStaysInRange(Browse(page, pages, clicks[..n]), pages, clicks[n]);
    }
  }

  /** The table starts on page 1; whatever the user clicks, the visible page of a non-empty table is never empty. */
  lemma BrowsingKeepsRowsVisible(data: seq<Transaction>, clicks: seq<PagerButton>)
    requires |data| > 0
    ensures var page := Browse(1, Pages(|data|), clicks);
      0 < |PageData(data, page)| <= PageSize
  {
    BrowsingStaysInRange(1, Pages(|data|), clicks);
    PageDataSpec(data, Browse(1, Pages(|data|), clicks));
  }

  /**
    The mock rows: twenty of them, with ids "1" to "20" and statuses
    alternating Processed, Failed; with six rows per page that makes four
    pages, the last holding two rows.
  */
  lemma MockDataFacts()
    ensures |MockData| == 20
    ensures forall i :: 0 <= i < 20 ==> MockData[i].id == DecimalString(i + 1)
    ensures MockData[0].id == "1" && MockData[19].id == "20"
    ensures forall i :: 0 <= i < 20 ==> MockData[i].status == (if i % 2 == 0 then Processed else Failed)
    ensures Pages(|MockData|) == 4
    ensures PageData(MockData, 4) == MockData[18..]
    ensures |PageData(MockData, 4)| == 2
  {
  }

  /** No two mock rows share an id, so selecting one row never selects another. */
  lemma MockIdsDistinct()
    ensures forall i, j :: 0 <= i < j < |MockData| ==> MockData[i].id != MockData[j].id
  {
  }

  /** Read back as decimal numbers, the mock ids are the row numbers 1 to 20. */
  lemma MockIdsAreRowNumbers()
    ensures forall i :: 0 <= i < |MockData| ==> DigitsValue(MockData[i].id) == i + 1
  {
  }
}
