/**
 * The `/search` handler: the page query, the page's response rows and next
 * cursor, and the filter options computed from the whole collection.
 */
module StudentSearch {
  import opened Wrappers
  import opened Documents
  import opened StudentQuery
  import opened FacetOrder
  import Shaping

  /** The global configuration document, whose fields may be missing. */
  datatype GlobalConfig = GlobalConfig(studentStatusSortOrder: Option<seq<string>>, tags: Option<seq<string>>)

  datatype Pagination = Pagination(hasNextPage: bool, nextCursor: Option<DocId>)

  datatype FilterOptions = FilterOptions(tags: seq<string>, statuses: seq<string>, countries: seq<string>)

  datatype SearchResponse = SearchResponse(students: seq<Doc>, pagination: Pagination, filterOptions: FilterOptions)

  /** The last row's document id when the page is full (an empty id counts as none). */
  function NextCursor(page: seq<DocSnapshot>): (r: Option<DocId>)
    ensures r.Some? ==> |page| == PageLimit && r.value == page[|page| - 1].id && r.value != ""
    ensures |page| == PageLimit && page[|page| - 1].id != "" ==> r == Some(page[|page| - 1].id)
    ensures |page| != PageLimit ==> r == None
  {
    if |page| == PageLimit && page[|page| - 1].id != "" then Some(page[|page| - 1].id) else None
  }

  /**
   * Handing the next cursor back resumes after the last row: when that row is
   * the stored document and holds the ordering field, the follow-up request
   * succeeds and starts after the row's value of the field.
   */
  lemma NextCursorResumes(
    page: seq<DocSnapshot>, students: Store, country: string, status: string,
    tagList: seq<string>, sort: string, search: string)
    requires NextCursor(page).Some?
    requires var last := page[|page| - 1];
      last.id in students && students[last.id] == last.data && OrderField(sort) in last.data
    ensures var next := PageQuery(country, status, tagList, sort, NextCursor(page).value, search, students);
      && next.Ok?
      && StartAfter(page[|page| - 1].data[OrderField(sort)]) in next.value
  {
    var cursor := NextCursor(page).value;
    var next := PageQuery(country, status, tagList, sort, cursor, search, students);
    assert CursorValue(students, cursor, OrderField(sort)).Ok?;
    PageQueryOrderAndCursor(country, status, tagList, sort, cursor, search, students, next.value);
  }

  /** The non-empty text values of field `f` over a scan, as a set. */
  ghost function FieldTexts(docs: seq<DocSnapshot>, f: string): set<string>
  {
    if docs == [] then {}
    else
      var t := TextOf(docs[|docs| - 1].data, f);
      FieldTexts(docs[..|docs| - 1], f) + (if t != "" then {t} else {})
  }

  /** A value is collected exactly when some scanned document holds it. */
  lemma {:induction false} FieldTextsMeaning(docs: seq<DocSnapshot>, f: string)
    ensures forall s :: s in FieldTexts(docs, f) <==>
      exists i :: 0 <= i < |docs| && TextOf(docs[i].data, f) == s && s != ""
  {
    if docs != [] {
      var init := docs[..|docs| - 1];
      FieldTextsMeaning(init, f);
      forall s ensures s in FieldTexts(docs, f) <==>
        exists i :: 0 <= i < |docs| && TextOf(docs[i].data, f) == s && s != ""
      {
        if exists i :: 0 <= i < |docs| && TextOf(docs[i].data, f) == s && s != "" {
          var i :| 0 <= i < |docs| && TextOf(docs[i].data, f) == s && s != "";
          if i < |docs| - 1 {
            assert init[i] == docs[i];
          }
        }
        if exists i :: 0 <= i < |init| && TextOf(init[i].data, f) == s && s != "" {
          var i :| 0 <= i < |init| && TextOf(init[i].data, f) == s && s != "";
          assert docs[i] == init[i];
        }
      }
    }
  }

  /** `if (data.f) set.add(data.f)` for one document, on a set kept in insertion order. */
  function AddIfPresent(seen: seq<string>, d: Doc, f: string): (r: seq<string>)
    requires Distinct(seen)
    ensures Distinct(r)
    ensures forall s :: s in r <==> s in seen || (s == TextOf(d, f) && s != "")
    ensures |seen| <= |r| && r[..|seen|] == seen
  {
    var t := TextOf(d, f);
    if t != "" && t !in seen then seen + [t] else seen
  }

  /**
   * The `forEach` over the whole collection that fills the status and country
   * sets: each holds every non-empty value once.
   */
  method CollectFacetValues(all: seq<DocSnapshot>) returns (statuses: seq<string>, countries: seq<string>)
    ensures Distinct(statuses) && Distinct(countries)
    ensures forall s :: s in statuses <==> s in FieldTexts(all, "applicationStatus")
    ensures forall s :: s in countries <==> s in FieldTexts(all, "country")
  {
    statuses := [];
    countries := [];
    var i := 0;
    while i < |all|
      invariant 0 <= i <= |all|
      invariant Distinct(statuses) && Distinct(countries)
      invariant forall s :: s in statuses <==> s in FieldTexts(all[..i], "applicationStatus")
      invariant forall s :: s in countries <==> s in FieldTexts(all[..i], "country")
    {
      assert all[..i + 1][..i] == all[..i];
      statuses := AddIfPresent(statuses, all[i].data, "applicationStatus");
      countries := AddIfPresent(countries, all[i].data, "country");
      i := i + 1;
    }
    assert all[..i] == all;
  }

  /** The status order: the configured one, or none when the config or its field is missing. */
  function SortOrder(config: Option<GlobalConfig>): seq<string> {
    if config.Some? && config.value.studentStatusSortOrder.Some? then config.value.studentStatusSortOrder.value else []
  }

  function ConfigTags(config: Option<GlobalConfig>): seq<string> {
    if config.Some? && config.value.tags.Some? then config.value.tags.value else []
  }

  /** The response rows, one shaped record per page row, in page order. */
  function ShapeAll(page: seq<DocSnapshot>, c: TimeCodec): (rows: seq<Doc>)
    ensures |rows| == |page|
    ensures forall i :: 0 <= i < |page| ==> rows[i] == Shaping.ShapeStudent(page[i].id, page[i].data, c)
  {
    seq(|page|, i requires 0 <= i < |page| => Shaping.ShapeStudent(page[i].id, page[i].data, c))
  }

  /**
   * The `/search` handler. `run` stands for the store's query engine: it
   * returns the documents a query description selects; `config` is the
   * global configuration document, if any.
   */
  method Search(
    country: string, status: string, tags: TagsParam, sort: string, cursor: string, search: string,
    students: Store, run: seq<Clause> -> seq<DocSnapshot>, config: Option<GlobalConfig>, c: TimeCodec)
    returns (r: Result<SearchResponse, CursorError>)
    ensures var q := PageQuery(country, status, TagFilter(tags), sort, cursor, search, students);
      && (r.Err? <==> q.Err?)
      && (r.Err? ==> r.error == q.error)
      && (r.Ok? ==> r.value.students == ShapeAll(run(q.value), c))
      && (r.Ok? ==> r.value.pagination == Pagination(NextCursor(run(q.value)).Some?, NextCursor(run(q.value))))
    ensures r.Ok? ==> r.value.filterOptions.tags == ConfigTags(config)
    ensures r.Ok? ==> var st := r.value.filterOptions.statuses;
      && StrictlySorted(StatusRank(SortOrder(config)), st)
      && (forall s :: s in st <==> s in FieldTexts(run(WholeCollection), "applicationStatus"))
    ensures r.Ok? ==> var co := r.value.filterOptions.countries;
      && StrictlySorted(CodePoints, co)
      && (forall s :: s in co <==> s in FieldTexts(run(WholeCollection), "country"))
  {
    var query := BuildPageQuery(country, status, tags, sort, cursor, search, students);
    if query.Err? {
      return Err(query.error);
    }
    var page := run(query.value);
    var rows := ShapeAll(page, c);
    var nextCursor := NextCursor(page);
    var allStatuses, allCountries := CollectFacetValues(run(WholeCollection));
    var sortOrder := SortOrder(config);
    var sortedStatuses := Sort(StatusRank(sortOrder), allStatuses);
    var filterOptions := FilterOptions(ConfigTags(config), sortedStatuses, Sort(CodePoints, allCountries));
    return Ok(SearchResponse(rows, Pagination(nextCursor.Some?, nextCursor), filterOptions));
  }

  /** The status facet is the one rank-sorted list of the collection's statuses. */
  lemma StatusFacetIsDetermined(config: Option<GlobalConfig>, all: seq<DocSnapshot>, st1: seq<string>, st2: seq<string>)
    requires StrictlySorted(StatusRank(SortOrder(config)), st1) && StrictlySorted(StatusRank(SortOrder(config)), st2)
    requires forall s :: s in st1 <==> s in FieldTexts(all, "applicationStatus")
    requires forall s :: s in st2 <==> s in FieldTexts(all, "applicationStatus")
    ensures st1 == st2
  {
    SortedIsUnique(StatusRank(SortOrder(config)), st1, st2);
  }
}
