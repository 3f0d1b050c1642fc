/** `ElasticManager`, the query facade a model class carries as `elastic`.

    Its mutable state is the `search` slot (unset, or the clauses accumulated so
    far on a search) and the `results` slot (the paginator of the last `execute`,
    never reset once set). The search backend answers a list of clauses with the
    ordered hits (`engine`); Django's page validation is the oracle `classify`. */
module Manager {
  import opened Wrappers
  import opened Text
  import opened Search

  /** The model options the manager reads from `Meta`. */
  datatype Meta = Meta(esIndex: Option<string>, esType: Option<string>, dbTable: string)

  /** The attributes `setup` fills, in the order it fills them. */
  datatype Attr = IndexAttr | TypeAttr | DocTypeAttr

  /** `IndexError` from `db_table.split('_')[1]`. */
  datatype ConfigError = NoSecondTableComponent

  /** The page size `execute` uses when none is given. */
  const DefaultPageSize: PageSize := 3

  /** The clauses `get_search` yields for a slot: a fresh search has none. */
  function Clauses(slot: Option<seq<Clause>>): seq<Clause>
  {
    if slot.Some? then slot.value else []
  }

  /** `get_index`: the model's `es_index`, else the project's default index. */
  function GetIndex(meta: Meta, defaultIndex: string): (r: string)
    ensures meta.esIndex.Some? ==> r == meta.esIndex.value
    ensures meta.esIndex.None? ==> r == defaultIndex
  {
    if meta.esIndex.None? then defaultIndex else meta.esIndex.value
  }

  /** `get_type`: the model's `es_type`, else the second `_`-separated piece of
      `db_table`; a table name without `_` has no such piece. */
  function GetType(meta: Meta): (r: Result<string, ConfigError>)
    ensures meta.esType.Some? ==> r == Ok(meta.esType.value)
    ensures meta.esType.None? ==> (r.Err? <==> '_' !in meta.dbTable)
    ensures meta.esType.None? && r.Ok? ==> '_' !in r.value
  {
    if meta.esType.Some? then Ok(meta.esType.value)
    else
      var parts := Split(meta.dbTable, '_');
      SplitHasSecond(meta.dbTable, '_');
      if |parts| < 2 then Err(NoSecondTableComponent) else Ok(parts[1])
  }

  /** `table` is `app`, `_`, `t`, then nothing or more pieces after another `_`. */
  ghost predicate PiecesOf(table: string, app: string, t: string, rest: string)
  {
    && '_' !in app && '_' !in t && (rest == [] || rest[0] == '_')
    && table == app + "_" + t + rest
  }

  /** `t` sits in `table` between the first `_` and the next `_` or the end. */
  ghost predicate SecondPiece(table: string, t: string)
  {
    exists app: string, rest: string :: PiecesOf(table, app, t, rest)
  }

  /** Without `es_type`, the type is the piece of `db_table` between its first `_`
      and the next `_` (or the end). */
  lemma GetTypeIsSecondPiece(meta: Meta)
    requires meta.esType.None? && '_' in meta.dbTable
    ensures GetType(meta).Ok?
    ensures SecondPiece(meta.dbTable, GetType(meta).value)
  {
    var table := meta.dbTable;
    var parts := Split(table, '_');
    SplitSecond(table, '_');
    var app, t := parts[0], parts[1];
    var rest := if |parts| == 2 then "" else "_" + Join(parts[2..], '_');
    assert table == app + "_" + t + rest;
    assert '_' !in app && '_' !in t;
    assert PiecesOf(table, app, t, rest);
  }

  /** The type is the second piece of the table name, not what follows the app
      label: an app label holding `_` shifts it. */
  lemma GetTypeExamples()
    ensures GetType(Meta(None, None, "blog_article")) == Ok("article")
    ensures GetType(Meta(None, None, "my_app_article")) == Ok("app")
    ensures GetType(Meta(None, None, "article")) == Err(NoSecondTableComponent)
    ensures GetType(Meta(None, Some("post"), "article")) == Ok("post")
  {
    SplitTwoPieces();
    SplitThreePieces();
  }

  lemma SplitTwoPieces()
    ensures Split("blog_article", '_') == ["blog", "article"]
  {
    SplitJoin(["blog", "article"], '_');
    assert Join(["blog", "article"], '_') == "blog_article";
  }

  lemma SplitThreePieces()
    ensures Split("my_app_article", '_') == ["my", "app", "article"]
  {
    SplitJoin(["my", "app", "article"], '_');
    assert Join(["my", "app", "article"], '_') == "my_app_article";
  }

  class ElasticManager<H> {
    /** The search backend: the hits a search with these clauses returns. */
    const engine: seq<Clause> -> seq<H>
    /** Django's page validation: (hit count, page size, request) to a verdict. */
    const classify: (nat, PageSize, PageRequest) -> PageCheck
    /** `settings.ELASTICSEARCH_INDEX`. */
    const defaultIndex: string
    const meta: Meta
    /** What `get_doc_type` resolves to for the model. */
    const docType: string
    /** The class attribute `page_size`. */
    const pageSize: PageSize

    var search: Option<seq<Clause>>
    var results: Option<Paginator<H>>
    /** The attributes `setup` fills; a missing key is an attribute that is `None`. */
    var attrs: map<Attr, string>

    ghost predicate Sound() { ClassifierContract(classify) }

    constructor (engine: seq<Clause> -> seq<H>, classify: (nat, PageSize, PageRequest) -> PageCheck,
                 defaultIndex: string, meta: Meta, docType: string)
      requires ClassifierContract(classify)
      ensures Sound()
      ensures this.engine == engine && this.classify == classify
      ensures this.defaultIndex == defaultIndex && this.meta == meta && this.docType == docType
      ensures pageSize == DefaultPageSize
      ensures search == None && results == None && attrs == map[]
    {
      this.engine, this.classify := engine, classify;
      this.defaultIndex, this.meta, this.docType := defaultIndex, meta, docType;
      pageSize := DefaultPageSize;
      search, results, attrs := None, None, map[];
    }

    /** The value `setup` gives an attribute: `get_index`, `get_type` or `get_doc_type`. */
    function Default(a: Attr): (r: Result<string, ConfigError>)
      ensures r.Err? <==> a == TypeAttr && meta.esType.None? && '_' !in meta.dbTable
      ensures a == IndexAttr ==> r == Ok(GetIndex(meta, defaultIndex))
      ensures a == DocTypeAttr ==> r == Ok(docType)
    {
      match a
      case IndexAttr => Ok(GetIndex(meta, defaultIndex))
      case TypeAttr => GetType(meta)
      case DocTypeAttr => Ok(docType)
    }

    /** `attrs` after a `setup` that started from `before`: set attributes are kept;
        when `get_type` fails only `index` is filled, otherwise every unset
        attribute gets its `get_` value. */
    ghost predicate SetUpFrom(before: map<Attr, string>, after: map<Attr, string>)
    {
      && (forall a :: a in before ==> a in after && after[a] == before[a])
      && (if TypeAttr !in before && Default(TypeAttr).Err?
          then after.Keys == before.Keys + {IndexAttr}
               && (IndexAttr !in before ==> after[IndexAttr] == GetIndex(meta, defaultIndex))
          else forall a :: a !in before ==> a in after && Default(a) == Ok(after[a]))
    }

    /** `setup`: fills `index`, `type` and `doc_type`, in that order, each only if it
        is still unset; an error from `get_type` stops it with `index` already filled. */
    method Setup() returns (r: Result<(), ConfigError>)
      modifies this`attrs
      ensures forall a :: a in old(attrs) ==> a in attrs && attrs[a] == old(attrs)[a]
      ensures r.Ok? ==> forall a :: a !in old(attrs) ==> a in attrs && Default(a) == Ok(attrs[a])
      ensures r.Err? <==> TypeAttr !in old(attrs) && Default(TypeAttr).Err?
      ensures r.Err? ==> Default(TypeAttr).Err? && r.error == Default(TypeAttr).error
      ensures r.Err? ==> attrs.Keys == old(attrs).Keys + {IndexAttr}
                         && attrs[IndexAttr] == (if IndexAttr in old(attrs) then old(attrs)[IndexAttr]
                                                 else GetIndex(meta, defaultIndex))
    {
      var items := [IndexAttr, TypeAttr, DocTypeAttr];
      var i := 0;
      while i < |items|
        invariant 0 <= i <= |items|
        invariant forall a :: a in old(attrs) ==> a in attrs && attrs[a] == old(attrs)[a]
        invariant forall j :: 0 <= j < i ==> items[j] in attrs
        invariant forall a :: a in attrs && a !in old(attrs) ==> Default(a) == Ok(attrs[a])
        invariant attrs.Keys == old(attrs).Keys + (if i >= 1 then {IndexAttr} else {})
                              + (if i >= 2 then {TypeAttr} else {}) + (if i >= 3 then {DocTypeAttr} else {})
        invariant i >= 2 ==> TypeAttr in old(attrs) || Default(TypeAttr).Ok?
      {
        var item := items[i];
        if item !in attrs {
          var value := Default(item);
          if value.Err? {
            return Err(value.error);
          }
          attrs := attrs[item := value.value];
        }
        i := i + 1;
      }
      forall a: Attr | a !in old(attrs) ensures a in attrs {
        match a
        case IndexAttr =>
        case TypeAttr =>
        case DocTypeAttr =>
      }
      r := Ok(());
    }

    /** `get_search`: installs a fresh search when the slot is unset, and returns the
        search in the slot. */
    method GetSearch() returns (s: seq<Clause>)
      modifies this`search
      ensures s == Clauses(old(search))
      ensures search == Some(s)
    {
      if search.None? {
        search := Some([]);
      }
      s := search.value;
    }

    /** `_set_search`: replaces the slot. */
    method SetSearch(slot: Option<seq<Clause>>)
      modifies this`search
      ensures search == slot
    {
      search := slot;
    }

    /** `clear`: unsets the slot, so the next `get_search` starts a fresh search. */
    method Clear()
      modifies this`search
      ensures search == None
    {
      SetSearch(None);
    }

    /** `all`: drops every clause, then filters on `match_all`; returns the manager. */
    method All() returns (m: ElasticManager<H>)
      modifies this`search
      ensures m == this
      ensures search == Some([MatchAll])
    {
      Clear();
      var s := GetSearch();
      assert s == [];
      SetSearch(Some(s + [MatchAll]));
      assert s + [MatchAll] == [MatchAll];
      m := this;
    }

    /** `filter(**terms)`: appends one `term` filter; returns the manager. */
    method Filter(terms: map<string, string>) returns (m: ElasticManager<H>)
      modifies this`search
      ensures m == this
      ensures search == Some(Clauses(old(search)) + [TermFilter(terms)])
    {
      var s := GetSearch();
      SetSearch(Some(s + [TermFilter(terms)]));
      m := this;
    }

    /** `query(*args, **kwargs)`: appends one query clause; returns the manager. */
    method Query(args: seq<string>, kwargs: map<string, string>) returns (m: ElasticManager<H>)
      modifies this`search
      ensures m == this
      ensures search == Some(Clauses(old(search)) + [QueryClause(args, kwargs)])
    {
      var s := GetSearch();
      SetSearch(Some(s + [QueryClause(args, kwargs)]));
      m := this;
    }

    /** `page(page)`: the requested page of the stored paginator, clamped instead of
        failing; with no stored paginator, reading `results` fails. */
    method Page(req: PageRequest) returns (r: Result<Page<H>, string>)
      requires Sound()
      ensures results.None? ==> r == Err("results")
      ensures results.Some? ==> r.Ok?
      ensures results.Some? ==>
                var p := results.value;
                var check := classify(|p.hits|, p.perPage, req);
                && 1 <= r.value.number <= NumPages(|p.hits|, p.perPage)
                && r.value.items == PageItems(p.hits, p.perPage, r.value.number)
                && (check.Valid? ==> r.value.number == check.number)
                && (check.NotAnInteger? ==> r.value.number == 1)
                && (check.Empty? ==> r.value.number == NumPages(|p.hits|, p.perPage))
    {
      if results.None? {
        return Err("results");
      }
      var p := results.value;
      ResolvePageInRange(classify, p, req);
      r := Ok(ResolvePage(p, classify(|p.hits|, p.perPage, req)));
    }

    /** `execute(page_size, page)`: builds a paginator over the current search (page
        size 3 unless given), stores it in `results` and returns the requested page. */
    method Execute(size: Option<PageSize>, req: PageRequest) returns (pg: Page<H>)
      requires Sound()
      modifies this`search, this`results
      ensures search == Some(Clauses(old(search)))
      ensures results == Some(Paginator(engine(Clauses(old(search))),
                                        if size.Some? then size.value else pageSize))
      ensures pg == ResolvePage(results.value, classify(|results.value.hits|, results.value.perPage, req))
    {
      var perPage := if size.Some? then size.value else pageSize;
      var s := GetSearch();
      results := Some(Paginator(engine(s), perPage));
      var r := Page(req);
      pg := r.value;
    }

    /** `count`: executes with the defaults only if no paginator was ever stored;
        otherwise reports the stored paginator's count, however the search has
        changed since. */
    method Count() returns (c: nat)
      requires Sound()
      modifies this`search, this`results
      ensures old(results).Some? ==> c == |old(results).value.hits|
                                     && results == old(results) && search == old(search)
      ensures old(results).None? ==>
                && search == Some(Clauses(old(search)))
                && results == Some(Paginator(engine(Clauses(old(search))), pageSize))
                && c == |engine(Clauses(old(search)))|
    {
      if results.None? {
        var _ := Execute(None, Absent);
      }
      c := |results.value.hits|;
    }

    /** `self[k]` for an integer `k`: the single hit of the window `[k, k+1)` of the
        current search. */
    method GetItem(k: int) returns (r: Result<H, SearchError>)
      modifies this`search
      ensures search == Some(Clauses(old(search)))
      ensures r == ItemAt(engine(Clauses(old(search))), k)
    {
      var s := GetSearch();
      r := ItemAt(engine(s), k);
    }

    /** `self[start:stop]`: the hits of that window of the current search. */
    method GetSlice(start: Option<int>, stop: Option<int>) returns (r: Result<seq<H>, SearchError>)
      modifies this`search
      ensures search == Some(Clauses(old(search)))
      ensures r == SliceHits(engine(Clauses(old(search))), start, stop)
    {
      var s := GetSearch();
      r := SliceHits(engine(s), start, stop);
    }

    /** `first`: `self[0]`, which fails exactly when the search has no hits. */
    method First() returns (r: Result<H, SearchError>)
      modifies this`search
      ensures search == Some(Clauses(old(search)))
      ensures var hits := engine(Clauses(old(search)));
              (|hits| > 0 ==> r == Ok(hits[0])) && (|hits| == 0 ==> r == Err(IndexError))
    {
      r := GetItem(0);
    }

    /** `last`: `self[count() - 1]`. The count is the stored paginator's, so after
        the search changed it may not be the current search's. */
    method Last() returns (r: Result<H, SearchError>)
      requires Sound()
      modifies this`search, this`results
      ensures search == Some(Clauses(old(search)))
      ensures results == if old(results).Some? then old(results)
                         else Some(Paginator(engine(Clauses(old(search))), pageSize))
      ensures var count := if old(results).Some? then |old(results).value.hits|
                           else |engine(Clauses(old(search)))|;
              r == ItemAt(engine(Clauses(old(search))), count - 1)
      ensures old(results).None? ==>
                var hits := engine(Clauses(old(search)));
                (|hits| > 0 ==> r == Ok(hits[|hits| - 1])) && (|hits| == 0 ==> r == Err(NegativeSlice))
    {
      var c := Count();
      r := GetItem(c as int - 1);
    }
  }

  /** `get_search` is idempotent while the slot is set, and after `clear` it yields
      a fresh search with no clauses. */
  method GetSearchAfterClear<H>(m: ElasticManager<H>) returns (first: seq<Clause>, second: seq<Clause>)
    modifies m`search
    ensures first == [] && second == []
    ensures m.search == Some([])
  {
    m.Clear();
    first := m.GetSearch();
    second := m.GetSearch();
  }

  /** `all` forgets earlier clauses; `filter` and `query` each add one, in order. */
  method AllThenFilterThenQuery<H>(m: ElasticManager<H>, terms: map<string, string>,
                                   args: seq<string>)
    modifies m`search
    ensures m.search == Some([MatchAll, TermFilter(terms), QueryClause(args, map[])])
    ensures unchanged(m`results) && unchanged(m`attrs)
  {
    var _ := m.Filter(map["stale" := "clause"]);
    var _ := m.All();
    var _ := m.Filter(terms);
    assert [MatchAll] + [TermFilter(terms)] == [MatchAll, TermFilter(terms)];
    assert m.search == Some([MatchAll, TermFilter(terms)]);
    var _ := m.Query(args, map[]);
    assert [MatchAll, TermFilter(terms)] + [QueryClause(args, map[])]
        == [MatchAll, TermFilter(terms), QueryClause(args, map[])];
  }
}
