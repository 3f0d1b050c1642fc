/** The search side of the manager: the clauses a search accumulates, the window a
    sliced search asks the backend for, and the pagination policy wrapped around a
    search's hits.

    The search backend and Django's page-number validation are foreign code: the
    backend is an oracle from clauses to the ordered hits, and the validation is an
    oracle `classify` from (hit count, page size, request) to a verdict, bound only by
    `ClassifierContract`. `DjangoClassify` is one classifier meeting that contract,
    following Django's defaults (empty first page allowed, no orphans). */
module Search {
  import opened Wrappers

  /** One clause added to a search. */
  datatype Clause =
    | MatchAll                                                   // s.filter('match_all')
    | TermFilter(terms: map<string, string>)                     // s.filter('term', **kwargs)
    | QueryClause(args: seq<string>, kwargs: map<string, string>)  // s.query(*args, **kwargs)

  /** What a caller passes as the `page` argument. */
  datatype PageRequest = Number(n: int) | Absent | Text(s: string)

  /** The paginator's verdict on a request: a page number it accepts, or one of the
      two exceptions the manager catches. */
  datatype PageCheck = Valid(number: int) | NotAnInteger | Empty

  type PageSize = n: nat | n >= 1 witness 1

  /** A paginator over the hits of one search, fixed when it was built. */
  datatype Paginator<H> = Paginator(hits: seq<H>, perPage: PageSize)

  /** One page: its number and the hits on it. */
  datatype Page<H> = Page(number: int, items: seq<H>)

  /** What a read through a sliced search can raise. */
  datatype SearchError = IndexError | NegativeSlice

  function Min(a: int, b: int): int { if a <= b then a else b }

  // ---------------------------------------------------------------- pagination

  /** The number of pages of a paginator: never fewer than one, since an empty
      first page is allowed. */
  function NumPages(count: nat, perPage: PageSize): (n: nat)
    ensures n >= 1
  {
    var hits := if count >= 1 then count else 1;
    (hits + perPage - 1) / perPage
  }

  /** The pages cover exactly the hits: all but the last are full, and the last
      one is not empty unless there are no hits. */
  lemma NumPagesBounds(count: nat, perPage: PageSize)
    ensures (NumPages(count, perPage) - 1) * perPage < (if count >= 1 then count else 1)
    ensures count <= NumPages(count, perPage) * perPage
  {
    var hits := if count >= 1 then count else 1;
    var n := NumPages(count, perPage);
    var rem := (hits + perPage - 1) % perPage;
    assert hits + perPage - 1 == n * perPage + rem;
    assert (n - 1) * perPage == n * perPage - perPage;
  }

  /** The hits on page `k` of a paginator: the window from `(k - 1) * perPage`
      holding at most `perPage` hits. */
  function PageItems<H>(hits: seq<H>, perPage: PageSize, k: int): (items: seq<H>)
    requires k >= 1
    ensures |items| <= perPage
  {
    var bottom := (k - 1) * perPage;
    var top := if bottom + perPage >= |hits| then |hits| else bottom + perPage;
    if bottom >= |hits| then [] else hits[bottom..top]
  }

  lemma PageItemsIsSlice<H>(hits: seq<H>, perPage: PageSize, k: int)
    requires k >= 1
    ensures PageItems(hits, perPage, k)
         == hits[Min((k - 1) * perPage, |hits|)..Min(k * perPage, |hits|)]
  {
    assert (k - 1) * perPage + perPage == k * perPage;
  }

  /** Pages 1..k laid end to end. */
  function PagesUpTo<H>(hits: seq<H>, perPage: PageSize, k: nat): seq<H>
  {
    if k == 0 then [] else PagesUpTo(hits, perPage, k - 1) + PageItems(hits, perPage, k)
  }

  lemma {:induction false} PagesUpToIsPrefix<H>(hits: seq<H>, perPage: PageSize, k: nat)
    ensures PagesUpTo(hits, perPage, k) == hits[..Min(k * perPage, |hits|)]
  {
    if k > 0 {
      PagesUpToIsPrefix(hits, perPage, k - 1);
      PageItemsIsSlice(hits, perPage, k);
      assert (k - 1) * perPage <= k * perPage;
      var a := Min((k - 1) * perPage, |hits|);
      var b := Min(k * perPage, |hits|);
      assert hits[..a] + hits[a..b] == hits[..b];
    }
  }

  /** Reading every page in order yields every hit exactly once, in order. */
  lemma PagesCoverHits<H>(hits: seq<H>, perPage: PageSize)
    ensures PagesUpTo(hits, perPage, NumPages(|hits|, perPage)) == hits
  {
    var n := NumPages(|hits|, perPage);
    PagesUpToIsPrefix(hits, perPage, n);
    NumPagesBounds(|hits|, perPage);
  }

  /** The arithmetic behind `PageSizes`, for any page count `n` meeting
      `NumPagesBounds`. */
  lemma PageBounds(count: nat, perPage: PageSize, n: nat, k: int)
    requires 1 <= k <= n
    requires (n - 1) * perPage < (if count >= 1 then count else 1)
    requires count <= n * perPage
    ensures (k - 1) * perPage <= count
    ensures k < n ==> k * perPage <= count
    ensures k == n ==> count <= k * perPage
    ensures count > 0 ==> (k - 1) * perPage < count
  {
    assert (k - 1) * perPage <= (n - 1) * perPage;
    if k < n {
      assert k * perPage <= (n - 1) * perPage;
    }
  }

  /** Every page before the last is full, and the last holds the remainder. */
  lemma PageSizes<H>(hits: seq<H>, perPage: PageSize, k: int)
    requires 1 <= k <= NumPages(|hits|, perPage)
    ensures k < NumPages(|hits|, perPage) ==> |PageItems(hits, perPage, k)| == perPage
    ensures k == NumPages(|hits|, perPage)
        ==> |PageItems(hits, perPage, k)| == |hits| - (k - 1) * perPage
    ensures |hits| > 0 ==> |PageItems(hits, perPage, k)| >= 1
  {
    var n := NumPages(|hits|, perPage);
    NumPagesBounds(|hits|, perPage);
    PageBounds(|hits|, perPage, n, k);
    PageItemsIsSlice(hits, perPage, k);
    var lo := (k - 1) * perPage;
    assert k * perPage == lo + perPage;
    WindowLength(|hits|, lo, perPage, k < n);
  }

  /** The length of the window `[lo, lo + size)` cut at `count`, from linear facts. */
  lemma WindowLength(count: nat, lo: int, size: nat, full: bool)
    requires 0 <= lo <= count
    requires full ==> lo + size <= count
    requires !full ==> count <= lo + size
    ensures Min(lo + size, count) - Min(lo, count) == if full then size else count - lo
  {
  }

  /** The rule any page validation must keep: it accepts every page number from 1
      to `NumPages`, with that number, and accepts nothing outside that range. */
  ghost predicate ClassifierContract(classify: (nat, PageSize, PageRequest) -> PageCheck)
  {
    && (forall count: nat, perPage: PageSize, req: PageRequest
          :: classify(count, perPage, req).Valid?
             ==> 1 <= classify(count, perPage, req).number <= NumPages(count, perPage))
    && (forall count: nat, perPage: PageSize, k: int
          :: 1 <= k <= NumPages(count, perPage)
             ==> classify(count, perPage, Number(k)) == Valid(k))
  }

  /** The manager's reaction to the verdict on a page request: an accepted number
      gives that page, not-an-integer gives page 1, an empty page gives the last. */
  function ResolvePage<H>(p: Paginator<H>, check: PageCheck): (pg: Page<H>)
    requires check.Valid? ==> check.number >= 1
    ensures check.Valid? ==> pg.number == check.number
    ensures check.NotAnInteger? ==> pg.number == 1
    ensures check.Empty? ==> pg.number == NumPages(|p.hits|, p.perPage)
    ensures pg.items == PageItems(p.hits, p.perPage, pg.number)
  {
    var k := match check
      case Valid(n) => n
      case NotAnInteger => 1
      case Empty => NumPages(|p.hits|, p.perPage);
    Page(k, PageItems(p.hits, p.perPage, k))
  }

  /** Whatever the request, a page of the paginator comes back, never an error. */
  lemma ResolvePageInRange<H>(classify: (nat, PageSize, PageRequest) -> PageCheck,
                              p: Paginator<H>, req: PageRequest)
    requires ClassifierContract(classify)
    ensures var check := classify(|p.hits|, p.perPage, req);
            check.Valid? ==> check.number >= 1
    ensures var check := classify(|p.hits|, p.perPage, req);
            check.Valid? ==> 1 <= ResolvePage(p, check).number <= NumPages(|p.hits|, p.perPage)
  {
  }

  // ------------------------------------------- Django's default page validation

  /** `int(s)` for a string of decimal digits; anything else is not an integer. */
  function DecimalValue(s: string): (v: Option<nat>)
    ensures v.Some? <==> |s| > 0 && forall i :: 0 <= i < |s| ==> '0' <= s[i] <= '9'
    decreases |s|
  {
    if |s| == 0 || !('0' <= s[|s| - 1] <= '9') then None
    else
      var d := s[|s| - 1] as int - '0' as int;
      if |s| == 1 then Some(d)
      else match DecimalValue(s[..|s| - 1])
        case None => None
        case Some(v) => Some(10 * v + d)
  }

  /** `d` followed by `n` zeros: `d * 10^n`. */
  function Shifted(d: nat, n: nat): nat
  {
    if n == 0 then d else 10 * Shifted(d, n - 1)
  }

  /** The positional value of a digit string, read from the most significant digit:
      the independent reference for `DecimalValue`. */
  function Positional(s: string): nat
    requires forall i :: 0 <= i < |s| ==> '0' <= s[i] <= '9'
  {
    if s == [] then 0
    else Shifted(s[0] as int - '0' as int, |s| - 1) + Positional(s[1..])
  }

  /** Appending a digit shifts the value one place left and adds that digit. */
  lemma {:induction false} PositionalAppend(s: string, c: char)
    requires forall i :: 0 <= i < |s| ==> '0' <= s[i] <= '9'
    requires '0' <= c <= '9'
    ensures Positional(s + [c]) == 10 * Positional(s) + (c as int - '0' as int)
    decreases |s|
  {
    if s != [] {
      assert (s + [c])[0] == s[0] && (s + [c])[1..] == s[1..] + [c];
      PositionalAppend(s[1..], c);
    } else {
      assert [c][1..] == [];
    }
  }

  /** A digit string reads as its positional value, leading zeros included. */
  lemma {:induction false} DecimalValuePositional(s: string)
    requires |s| > 0 && forall i :: 0 <= i < |s| ==> '0' <= s[i] <= '9'
    ensures DecimalValue(s) == Some(Positional(s))
    decreases |s|
  {
    var init := s[..|s| - 1];
    var c := s[|s| - 1];
    assert s == init + [c];
    PositionalAppend(init, c);
    if |s| > 1 {
      DecimalValuePositional(init);
    } else {
      assert init == [];
    }
  }

  function CheckNumber(count: nat, perPage: PageSize, n: int): (c: PageCheck)
  {
    if n < 1 || n > NumPages(count, perPage) then Empty else Valid(n)
  }

  /** Django's validation with its defaults: a missing or non-numeric page is not
      an integer; a number below 1 or past the last page is an empty page. */
  function DjangoClassify(count: nat, perPage: PageSize, req: PageRequest): (c: PageCheck)
    ensures req.Absent? ==> c == NotAnInteger
    ensures req.Number? ==> (c == Valid(req.n) <==> 1 <= req.n <= NumPages(count, perPage))
    ensures req.Number? && c != Valid(req.n) ==> c == Empty
    ensures req.Text? ==> (c.NotAnInteger? <==> DecimalValue(req.s).None?)
    ensures c.Valid? ==> 1 <= c.number <= NumPages(count, perPage)
  {
    match req
    case Absent => NotAnInteger
    case Number(n) => CheckNumber(count, perPage, n)
    case Text(s) =>
      match DecimalValue(s)
      case None => NotAnInteger
      case Some(v) => CheckNumber(count, perPage, v)
  }

  lemma DjangoClassifyMeetsContract()
    ensures ClassifierContract(DjangoClassify)
  {
  }

  /** Seven hits three to a page: pages of 3, 3 and 1 hits; page 99 and page 0 both
      clamp to the last page, and a missing page number gives page 1. */
  lemma SevenHitsThreePerPage<H>(hits: seq<H>)
    requires |hits| == 7
    ensures NumPages(7, 3) == 3
    ensures |PageItems(hits, 3, 1)| == 3 && |PageItems(hits, 3, 3)| == 1
    ensures ResolvePage(Paginator(hits, 3), DjangoClassify(7, 3, Number(99))).number == 3
    ensures ResolvePage(Paginator(hits, 3), DjangoClassify(7, 3, Number(0))).number == 3
    ensures ResolvePage(Paginator(hits, 3), DjangoClassify(7, 3, Absent)).items == hits[..3]
    ensures ResolvePage(Paginator(hits, 3), DjangoClassify(7, 3, Text("2"))).items == hits[3..6]
  {
    assert DecimalValue("2") == Some(2);
  }

  // ------------------------------------------------------- sliced searches

  /** The hits a search sliced to `from`/`size` returns: at most `size` hits
      starting at offset `from`. */
  function Window<H>(hits: seq<H>, from: nat, size: nat): (w: seq<H>)
    ensures |w| <= size
    ensures from + size <= |hits| ==> w == hits[from..from + size]
    ensures from <= |hits| <= from + size ==> w == hits[from..]
    ensures from >= |hits| ==> w == []
  {
    hits[Min(from, |hits|)..Min(from + size, |hits|)]
  }

  /** `list(s[start:stop])`: negative bounds are refused by the search client; a
      missing start is 0 and a missing stop gives ten hits. Otherwise the hits are
      those of the list slice `hits[start:stop]`: consecutive from `start`, as many
      as lie below both `stop` and the end. */
  function SliceHits<H>(hits: seq<H>, start: Option<int>, stop: Option<int>)
    : (r: Result<seq<H>, SearchError>)
    ensures r.Err? <==> (start.Some? && start.value < 0) || (stop.Some? && stop.value < 0)
    ensures r.Err? ==> r.error == NegativeSlice
    ensures r.Ok? ==>
              var lo := if start.Some? then start.value else 0;
              var hi := if stop.Some? then stop.value else lo + 10;
              && |r.value| == (if lo < hi && lo < |hits| then Min(hi, |hits|) - lo else 0)
              && forall i :: 0 <= i < |r.value| ==> r.value[i] == hits[lo + i]
    ensures r.Ok? && start.Some? && stop.Some? && start.value <= stop.value <= |hits|
            ==> r.value == hits[start.value..stop.value]
    ensures r.Ok? && stop.Some? && start.Some? && stop.value <= start.value ==> r.value == []
  {
    if (start.Some? && start.value < 0) || (stop.Some? && stop.value < 0) then Err(NegativeSlice)
    else
      var from := if start.Some? then start.value else 0;
      var size := if stop.None? then 10 else if stop.value - from > 0 then stop.value - from else 0;
      Ok(Window(hits, from, size))
  }

  /** `list(s[k:k+1])[0]`: the hit at offset `k`, an `IndexError` past the end, and
      the client's refusal of a negative offset. */
  function ItemAt<H>(hits: seq<H>, k: int): (r: Result<H, SearchError>)
    ensures 0 <= k < |hits| ==> r == Ok(hits[k])
    ensures k >= |hits| && k >= 0 ==> r == Err(IndexError)
    ensures k < 0 ==> r == Err(NegativeSlice)
  {
    match SliceHits(hits, Some(k), Some(k + 1))
    case Err(e) => Err(e)
    case Ok(w) => if |w| == 0 then Err(IndexError) else Ok(w[0])
  }
}
