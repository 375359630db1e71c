/** The offset-pagination loop shared by every subgraph fetch in
    `Utils/parseArtBlocksAPI.js`: request `first` = 1000 records at
    `skip` = the number gathered so far, append the page, and stop after the
    first page that is not full. */
module Pagination {
  import opened Common

  /** `maxProjectsPerQuery`. */
  const PageSize: nat := 1000

  /** A remote collection as the subgraph serves one query: the rows the
      query selects, in `orderBy` order, served slice by slice. A request
      made at an offset in `faults` throws (the network, the transport, or a
      response without the expected fields). */
  datatype Remote<T> = Remote(rows: seq<T>, faults: set<nat>)

  function Min(a: int, b: int): int {
    if a <= b then a else b
  }

  /** One request for `first` rows starting at offset `skip`. */
  function Page<T>(r: Remote<T>, first: nat, skip: nat): (reply: Result<seq<T>>)
    ensures reply.Ok? <==> skip !in r.faults
    ensures reply.Ok? && skip <= |r.rows| ==> reply.value == r.rows[skip..Min(skip + first, |r.rows|)]
    ensures reply.Ok? && skip > |r.rows| ==> reply.value == []
  {
    if skip in r.faults then Failed
    else if skip >= |r.rows| then Ok([])
    else Ok(r.rows[skip..Min(skip + first, |r.rows|)])
  }

  /** The offset of the k-th request of a run in which every earlier page was full. */
  function Offset(k: nat): nat {
    k * PageSize
  }

  /** Every request a complete run makes, at offsets 0, 1000, ..., from the
      k-th on, is answered. */
  predicate AnswersFrom<T>(r: Remote<T>, k: nat) {
    forall j :: k <= j <= |r.rows| / PageSize ==> Offset(j) !in r.faults
  }

  predicate AnswersAll<T>(r: Remote<T>) {
    AnswersFrom(r, 0)
  }

  /** What one run has done so far: the offsets requested, the pages
      received, and the records accumulated. */
  datatype Trace<T> = Trace(skips: seq<nat>, pages: seq<seq<T>>, records: seq<T>)

  function Concat<T>(pages: seq<seq<T>>): seq<T> {
    if pages == [] then [] else Concat(pages[..|pages| - 1]) + pages[|pages| - 1]
  }

  /** A run still in progress: each page so far was full and each request
      asked for the records after those already gathered. */
  ghost predicate InProgress<T>(t: Trace<T>) {
    && |t.skips| == |t.pages|
    && t.records == Concat(t.pages)
    && |t.records| == |t.skips| * PageSize
    && (forall i :: 0 <= i < |t.pages| ==> |t.pages[i]| == PageSize)
    && (forall i :: 0 <= i < |t.skips| ==> t.skips[i] == Offset(i))
  }

  /** The `while (true)` loop, continued from trace `t`. */
  function Crawl<T>(r: Remote<T>, t: Trace<T>): Result<Trace<T>>
    requires |t.records| <= |r.rows|
    decreases |r.rows| - |t.records|
  {
    if |t.records| in r.faults then Failed
    else
      var t' := Next(r, t);
      if |t'.pages[|t.pages|]| != PageSize then Ok(t') else Crawl(r, t')
  }

  lemma DivStep(n: nat, m: nat)
    requires Offset(m) <= n
    ensures n - Offset(m) < PageSize ==> n / PageSize == m && n % PageSize == n - Offset(m)
    ensures n - Offset(m) >= PageSize ==> Offset(m + 1) <= n && m + 1 <= n / PageSize
    ensures m <= n / PageSize
  {
  }

  /** The trace after the page requested at the end of `t` arrives. */
  function Next<T>(r: Remote<T>, t: Trace<T>): Trace<T>
    requires |t.records| !in r.faults
  {
    var page := Page(r, PageSize, |t.records|).value;
    Trace(t.skips + [|t.records|], t.pages + [page], t.records + page)
  }

  /** The page received is the next slice of the collection, so the trace
      stays a prefix of it. */
  lemma NextExtends<T>(r: Remote<T>, t: Trace<T>)
    requires InProgress(t)
    requires |t.records| <= |r.rows| && t.records == r.rows[..|t.records|]
    requires |t.records| !in r.faults
    ensures var t' := Next(r, t);
      && |t'.skips| == |t'.pages| == |t.skips| + 1
      && t'.pages[..|t'.pages| - 1] == t.pages
      && t'.records == Concat(t'.pages)
      && |t'.records| <= |r.rows| && t'.records == r.rows[..|t'.records|]
      && (|t'.pages[|t.pages|]| == PageSize ==> InProgress(t'))
  {
    var t' := Next(r, t);
    assert t'.pages[..|t'.pages| - 1] == t.pages;
  }

  /** A page that is not full ends the run with the whole collection. */
  lemma LastPage<T>(r: Remote<T>, t: Trace<T>)
    requires InProgress(t)
    requires |t.records| <= |r.rows| && t.records == r.rows[..|t.records|]
    requires |t.records| !in r.faults
    requires |Next(r, t).pages[|t.pages|]| != PageSize
    ensures AnswersFrom(r, |t.skips|)
    ensures var t' := Next(r, t);
      && t'.records == r.rows
      && t'.records == Concat(t'.pages)
      && |t'.skips| == |t'.pages| == |r.rows| / PageSize + 1
      && (forall i :: 0 <= i < |t'.skips| ==> t'.skips[i] == Offset(i) == |Concat(t'.pages[..i])|)
      && (forall i :: 0 <= i < |t'.pages| - 1 ==> |t'.pages[i]| == PageSize)
      && |t'.pages[|t'.pages| - 1]| == |r.rows| % PageSize
  {
    var n := |r.rows|;
    var m := |t.skips|;
    var t' := Next(r, t);
    DivStep(n, m);
    NextExtends(r, t);
    forall j | m <= j <= n / PageSize
      ensures Offset(j) !in r.faults
    {
      assert j == m;
    }
    PrefixLengths(t');
  }

  /** Past a full page, the rest of the run is answered exactly when the
      run from the next offset is. */
  lemma AnswersStep<T>(r: Remote<T>, m: nat)
    requires Offset(m) !in r.faults
    ensures AnswersFrom(r, m) <==> AnswersFrom(r, m + 1)
  {
    if AnswersFrom(r, m + 1) {
      forall j | m <= j <= |r.rows| / PageSize
        ensures Offset(j) !in r.faults
      {
        if j > m {
          assert m + 1 <= j;
        }
      }
    }
  }

  lemma {:induction false} CrawlOutcome<T>(r: Remote<T>, t: Trace<T>)
    requires InProgress(t)
    requires |t.records| <= |r.rows| && t.records == r.rows[..|t.records|]
    ensures Crawl(r, t).Ok? <==> AnswersFrom(r, |t.skips|)
    ensures Crawl(r, t).Ok? ==>
      var t' := Crawl(r, t).value;
      && t'.records == r.rows
      && t'.records == Concat(t'.pages)
      && |t'.skips| == |t'.pages| == |r.rows| / PageSize + 1
      && (forall i :: 0 <= i < |t'.skips| ==> t'.skips[i] == Offset(i) == |Concat(t'.pages[..i])|)
      && (forall i :: 0 <= i < |t'.pages| - 1 ==> |t'.pages[i]| == PageSize)
      && |t'.pages[|t'.pages| - 1]| == |r.rows| % PageSize
    decreases |r.rows| - |t.records|
  {
    var m := |t.skips|;
    assert |t.records| == Offset(m);
    DivStep(|r.rows|, m);
    if |t.records| in r.faults {
      assert !AnswersFrom(r, m);
    } else {
      NextExtends(r, t);
      var t' := Next(r, t);
      assert Crawl(r, t) == if |t'.pages[m]| != PageSize then Ok(t') else Crawl(r, t');
      if |t'.pages[m]| != PageSize {
        LastPage(r, t);
      } else {
        CrawlOutcome(r, t');
        AnswersStep(r, m);
      }
    }
  }

  /** The offsets of a run that ended on its last page. */
  lemma PrefixLengths<T>(t: Trace<T>)
    requires |t.pages| >= 1 && |t.skips| == |t.pages|
    requires InProgress(Trace(t.skips[..|t.skips| - 1], t.pages[..|t.pages| - 1], Concat(t.pages[..|t.pages| - 1])))
    requires t.skips[|t.skips| - 1] == Offset(|t.skips| - 1)
    ensures forall i :: 0 <= i < |t.skips| ==> t.skips[i] == Offset(i) == |Concat(t.pages[..i])|
  {
    var k := |t.pages| - 1;
    var front := t.pages[..k];
    forall i | 0 <= i < |t.skips|
      ensures t.skips[i] == Offset(i) == |Concat(t.pages[..i])|
    {
      assert t.pages[..i] == front[..i];
      FullPagesLength(front[..i]);
    }
  }

  lemma {:induction false} FullPagesLength<T>(pages: seq<seq<T>>)
    requires forall i :: 0 <= i < |pages| ==> |pages[i]| == PageSize
    ensures |Concat(pages)| == Offset(|pages|)
    decreases |pages|
  {
    if pages != [] {
      FullPagesLength(pages[..|pages| - 1]);
    }
  }

  /** A paginated fetch (`_getContractProjects` and its siblings): the whole
      collection, or `undefined` if any request throws. */
  function FetchAll<T>(r: Remote<T>): (res: Result<Trace<T>>)
    ensures res.Ok? <==> AnswersAll(r)
    ensures res.Ok? ==> res.value.records == r.rows
    ensures res.Ok? ==> |res.value.skips| == |r.rows| / PageSize + 1
  {
    var t0 := Trace([], [], []);
    CrawlOutcome(r, t0);
    Crawl(r, t0)
  }

  /** The requests of a successful fetch: the k-th asks for 1000 records at
      offset 1000 * k, which is the number gathered before it; every page but
      the last is full, and the last holds the remainder (an empty page is
      fetched when the length is a multiple of 1000). */
  lemma FetchAllRequests<T>(r: Remote<T>)
    requires FetchAll(r).Ok?
    ensures var t := FetchAll(r).value;
      && t.records == Concat(t.pages)
      && |t.pages| == |t.skips|
      && (forall i :: 0 <= i < |t.skips| ==> t.skips[i] == Offset(i) == |Concat(t.pages[..i])|)
      && (forall i :: 0 <= i < |t.pages| - 1 ==> |t.pages[i]| == PageSize)
      && |t.pages[|t.pages| - 1]| == |r.rows| % PageSize
  {
    CrawlOutcome(r, Trace([], [], []));
  }

  /** The counting loop of `_getContractProjectCount`, continued from `total`. */
  function CountFrom<T>(r: Remote<T>, total: nat): Result<nat>
    requires total <= |r.rows|
    decreases |r.rows| - total
  {
    match Page(r, PageSize, total)
    case Failed => Failed
    case Ok(page) =>
      var total' := total + |page|;
      if |page| != PageSize then Ok(total') else CountFrom(r, total')
  }

  lemma {:induction false} CountFollowsCrawl<T>(r: Remote<T>, t: Trace<T>)
    requires |t.records| <= |r.rows|
    ensures CountFrom(r, |t.records|).Ok? <==> Crawl(r, t).Ok?
    ensures CountFrom(r, |t.records|).Ok? ==> CountFrom(r, |t.records|).value == |Crawl(r, t).value.records|
    decreases |r.rows| - |t.records|
  {
    var skip := |t.records|;
    match Page(r, PageSize, skip)
    case Failed =>
    case Ok(page) =>
      var t' := Trace(t.skips + [skip], t.pages + [page], t.records + page);
      if |page| == PageSize {
        CountFollowsCrawl(r, t');
      }
  }

  /** `_getContractProjectCount`: the sum of the page lengths, or
      `undefined` if any request throws. */
  function CountAll<T>(r: Remote<T>): (res: Option<nat>)
    ensures res.Some? <==> FetchAll(r).Ok?
    ensures res.Some? ==> res.value == |FetchAll(r).value.records| == |r.rows|
  {
    CountFollowsCrawl(r, Trace([], [], []));
    match CountFrom(r, 0)
    case Failed => None
    case Ok(n) => Some(n)
  }
}
