/**
 * The student page query that `/search` and `/api/students` build: filter,
 * order, cursor and prefix clauses, described as a list and never evaluated.
 */
module StudentQuery {
  import opened Wrappers
  import opened JsStrings
  import opened Documents

  const PageLimit: nat := 20
  const AllowedSortFields: seq<string> := ["name", "lastActive"]

  /** The highest private-use code point appended to a prefix to close the range scan. */
  const PrefixSentinel: string := "\U{F8FF}"

  /** One builder step of a store query. */
  datatype Clause =
    | Limit(n: nat)
    | WhereEq(field: string, value: string)
    | WhereArrayContainsAny(field: string, values: seq<string>)
    | OrderBy(field: string)
    | StartAfter(cursorValue: Value)
    | StartAt(text: string)
    | EndAt(text: string)

  /** The `tags` query parameter: one comma-separated text, or a repeated parameter. */
  datatype TagsParam = TagText(text: string) | TagArray(items: seq<string>)

  /** Why a cursor was refused with 400. */
  datatype CursorError = CursorNotFound | CursorMissingField(field: string)

  /** The ordering field: the requested one if it is allowed, else `name`. */
  function OrderField(sort: string): (f: string)
    ensures f in AllowedSortFields
    ensures sort in AllowedSortFields ==> f == sort
    ensures sort !in AllowedSortFields ==> f == "name"
  {
    if sort in AllowedSortFields then sort else "name"
  }

  function TrimAll(parts: seq<string>): (r: seq<string>)
    ensures |r| == |parts|
    ensures forall k :: 0 <= k < |r| ==> r[k] == Trim(parts[k])
  {
    if parts == [] then [] else [Trim(parts[0])] + TrimAll(parts[1..])
  }

  /** `.filter(Boolean)` on strings. */
  function DropEmpty(parts: seq<string>): (r: seq<string>)
    ensures |r| <= |parts|
    ensures forall k :: 0 <= k < |r| ==> r[k] != "" && r[k] in parts
  {
    if parts == [] then []
    else if parts[0] == "" then DropEmpty(parts[1..])
    else [parts[0]] + DropEmpty(parts[1..])
  }

  /** The positions from `from` on that hold non-empty strings, in ascending order. */
  function NonEmptyPositions(parts: seq<string>, from: nat): (idx: seq<nat>)
    requires from <= |parts|
    ensures forall k :: 0 <= k < |idx| ==> from <= idx[k] < |parts| && parts[idx[k]] != ""
    ensures forall k, l :: 0 <= k < l < |idx| ==> idx[k] < idx[l]
    ensures forall j :: from <= j < |parts| && parts[j] != "" ==> j in idx
    decreases |parts| - from
  {
    if from == |parts| then []
    else if parts[from] == "" then NonEmptyPositions(parts, from + 1)
    else [from] + NonEmptyPositions(parts, from + 1)
  }

  /** `DropEmpty` keeps exactly the non-empty strings, in their order. */
  lemma {:induction false} DropEmptyPositions(parts: seq<string>, from: nat)
    requires from <= |parts|
    ensures var idx, kept := NonEmptyPositions(parts, from), DropEmpty(parts[from..]);
      && |kept| == |idx|
      && forall k :: 0 <= k < |idx| ==> kept[k] == parts[idx[k]]
    decreases |parts| - from
  {
    if from < |parts| {
      var tail := parts[from..];
      assert tail[0] == parts[from] && tail[1..] == parts[from + 1..];
      DropEmptyPositions(parts, from + 1);
      var rest, keptRest := NonEmptyPositions(parts, from + 1), DropEmpty(parts[from + 1..]);
      if parts[from] != "" {
        assert DropEmpty(tail) == [parts[from]] + keptRest;
        assert NonEmptyPositions(parts, from) == [from] + rest;
      }
    }
  }

  /** `text.split(',').map(t => t.trim()).filter(Boolean)`. */
  function ParseTagText(text: string): (tags: seq<string>)
    ensures forall k :: 0 <= k < |tags| ==> tags[k] != "" && IsTrimmed(tags[k]) && ',' !in tags[k]
  {
    var parts := Split(text, ",");
    forall k | 0 <= k < |parts| ensures ',' !in Trim(parts[k]) {
      ContainsChar(parts[k], ',');
    }
    DropEmpty(TrimAll(parts))
  }

  /**
   * What the tag text means: the comma-separated pieces, trimmed, with the
   * blank ones dropped and the rest kept in order.
   */
  lemma ParseTagTextMeaning(text: string)
    ensures var pieces, tags := Split(text, ","), ParseTagText(text);
      var idx := NonEmptyPositions(TrimAll(pieces), 0);
      && (forall j :: 0 <= j < |pieces| ==> (Trim(pieces[j]) != "" <==> j in idx))
      && (forall k, l :: 0 <= k < l < |idx| ==> idx[k] < idx[l])
      && |tags| == |idx|
      && forall k :: 0 <= k < |tags| ==> idx[k] < |pieces| && tags[k] == Trim(pieces[idx[k]])
  {
    var parts := TrimAll(Split(text, ","));
    DropEmptyPositions(parts, 0);
    assert parts[0..] == parts;
  }

  /** The tag list the handlers filter by (empty when the parameter is absent or blank). */
  function TagFilter(tags: TagsParam): seq<string>
  {
    match tags
    case TagArray(items) => items
    case TagText(text) => if text == "" then [] else ParseTagText(text)
  }

  /** The tags a user can pick: non-empty, without surrounding blanks or commas. */
  predicate PickableTags(tags: seq<string>) {
    forall k :: 0 <= k < |tags| ==> tags[k] != "" && IsTrimmed(tags[k]) && ',' !in tags[k]
  }

  /** What a client's comma-joined tag selection reads back as on the server. */
  lemma JoinedTagsParseBack(tags: seq<string>)
    requires PickableTags(tags)
    ensures TagFilter(TagText(Join(tags, ","))) == tags
  {
    if tags != [] {
      SplitJoin(tags, ',');
      TrimAllTrimmed(tags);
      DropEmptyNonEmpty(tags);
    }
  }

  lemma {:induction false} TrimAllTrimmed(parts: seq<string>)
    requires forall k :: 0 <= k < |parts| ==> IsTrimmed(parts[k])
    ensures TrimAll(parts) == parts
  {
    if parts != [] {
      TrimAllTrimmed(parts[1..]);
    }
  }

  lemma {:induction false} DropEmptyNonEmpty(parts: seq<string>)
    requires forall k :: 0 <= k < |parts| ==> parts[k] != ""
    ensures DropEmpty(parts) == parts
  {
    if parts != [] {
      DropEmptyNonEmpty(parts[1..]);
    }
  }

  /** The value `startAfter` resumes from: the cursor document's ordering-field value. */
  function CursorValue(students: Store, cursor: DocId, field: string): (r: Result<Value, CursorError>)
    ensures r.Ok? <==> cursor in students && field in students[cursor]
    ensures r.Ok? ==> r.value == students[cursor][field]
    ensures cursor !in students ==> r == Err(CursorNotFound)
    ensures cursor in students && field !in students[cursor] ==> r == Err(CursorMissingField(field))
  {
    if cursor !in students then Err(CursorNotFound)
    else if field !in students[cursor] then Err(CursorMissingField(field))
    else Ok(students[cursor][field])
  }

  /** An `==` filter on `field`, present only for a non-empty value. */
  function EqualityClauses(field: string, value: string): (q: seq<Clause>)
    ensures forall c :: c in q <==> value != "" && c == WhereEq(field, value)
  {
    if value != "" then [WhereEq(field, value)] else []
  }

  /** The `array-contains-any` filter, present only for a non-empty tag list. */
  function TagClauses(tagList: seq<string>): (q: seq<Clause>)
    ensures forall c :: c in q <==> tagList != [] && c == WhereArrayContainsAny("tags", tagList)
  {
    if tagList != [] then [WhereArrayContainsAny("tags", tagList)] else []
  }

  /** The name-prefix range, applied only under `name` ordering. */
  function SearchClauses(search: string, field: string): (q: seq<Clause>)
    ensures forall c :: c in q <==>
      search != "" && field == "name" && (c == StartAt(search) || c == EndAt(search + PrefixSentinel))
  {
    if search != "" && field == "name" then [StartAt(search), EndAt(search + PrefixSentinel)] else []
  }

  /** The limit and the filter clauses, in the order the handlers add them. */
  function FilterQuery(country: string, status: string, tagList: seq<string>): (q: seq<Clause>)
    ensures |q| >= 1 && q[0] == Limit(PageLimit)
    ensures forall c :: c in q <==>
      c == Limit(PageLimit) || c in EqualityClauses("country", country) || c in EqualityClauses("applicationStatus", status) || c in TagClauses(tagList)
  {
    [Limit(PageLimit)] + EqualityClauses("country", country) + EqualityClauses("applicationStatus", status) + TagClauses(tagList)
  }

  /** The page query the handlers send, or the cursor error they answer 400 with. */
  function PageQuery(
    country: string, status: string, tagList: seq<string>, sort: string,
    cursor: string, search: string, students: Store): Result<seq<Clause>, CursorError>
  {
    var field := OrderField(sort);
    var ordered := FilterQuery(country, status, tagList) + [OrderBy(field)];
    if cursor == "" then Ok(ordered + SearchClauses(search, field))
    else
      match CursorValue(students, cursor, field)
      case Err(e) => Err(e)
      case Ok(v) => Ok(ordered + [StartAfter(v)] + SearchClauses(search, field))
  }

  /** A request fails exactly when it carries a cursor that does not resolve, and then with the cursor's error. */
  lemma PageQueryErrors(
    country: string, status: string, tagList: seq<string>, sort: string,
    cursor: string, search: string, students: Store)
    ensures var r := PageQuery(country, status, tagList, sort, cursor, search, students);
      && (r.Err? <==> cursor != "" && CursorValue(students, cursor, OrderField(sort)).Err?)
      && (r.Err? ==> r.error == CursorValue(students, cursor, OrderField(sort)).error)
  {
  }

  /** Every clause of a successful page query is the limit, a given filter, the ordering, the cursor or the prefix range. */
  lemma PageQueryMembers(
    country: string, status: string, tagList: seq<string>, sort: string,
    cursor: string, search: string, students: Store, q: seq<Clause>)
    requires PageQuery(country, status, tagList, sort, cursor, search, students) == Ok(q)
    ensures |q| >= 1 && q[0] == Limit(PageLimit)
    ensures forall c :: c in q <==>
      (|| c == Limit(PageLimit)
       || (country != "" && c == WhereEq("country", country))
       || (status != "" && c == WhereEq("applicationStatus", status))
       || (tagList != [] && c == WhereArrayContainsAny("tags", tagList))
       || c == OrderBy(OrderField(sort))
       || (cursor != "" && c == StartAfter(students[cursor][OrderField(sort)]))
       || (search != "" && OrderField(sort) == "name" && (c == StartAt(search) || c == EndAt(search + PrefixSentinel))))
  {
  }

  /** A successful page query filters on the country and the status exactly when they are given. */
  lemma PageQueryEqualityFilters(
    country: string, status: string, tagList: seq<string>, sort: string,
    cursor: string, search: string, students: Store, q: seq<Clause>)
    requires PageQuery(country, status, tagList, sort, cursor, search, students) == Ok(q)
    ensures forall v :: WhereEq("country", v) in q <==> country != "" && v == country
    ensures forall v :: WhereEq("applicationStatus", v) in q <==> status != "" && v == status
  {
    PageQueryMembers(country, status, tagList, sort, cursor, search, students, q);
  }

  /** A successful page query filters on the tag list exactly when it is non-empty, and on no other field by equality. */
  lemma PageQueryTagFilter(
    country: string, status: string, tagList: seq<string>, sort: string,
    cursor: string, search: string, students: Store, q: seq<Clause>)
    requires PageQuery(country, status, tagList, sort, cursor, search, students) == Ok(q)
    ensures forall vs :: WhereArrayContainsAny("tags", vs) in q <==> vs == tagList && vs != []
    ensures forall c :: c in q && c.WhereEq? ==> c.field == "country" || c.field == "applicationStatus"
  {
    PageQueryMembers(country, status, tagList, sort, cursor, search, students, q);
  }

  /** A successful page query orders by the resolved field and resumes after the cursor document's value of it. */
  lemma PageQueryOrderAndCursor(
    country: string, status: string, tagList: seq<string>, sort: string,
    cursor: string, search: string, students: Store, q: seq<Clause>)
    requires PageQuery(country, status, tagList, sort, cursor, search, students) == Ok(q)
    ensures forall f :: OrderBy(f) in q <==> f == OrderField(sort)
    ensures forall v :: StartAfter(v) in q <==> cursor != "" && v == students[cursor][OrderField(sort)]
  {
    PageQueryMembers(country, status, tagList, sort, cursor, search, students, q);
  }

  /** A successful page query holds the prefix range exactly when a search is given under name ordering. */
  lemma PageQueryPrefixRange(
    country: string, status: string, tagList: seq<string>, sort: string,
    cursor: string, search: string, students: Store, q: seq<Clause>)
    requires PageQuery(country, status, tagList, sort, cursor, search, students) == Ok(q)
    ensures forall t :: StartAt(t) in q <==> search != "" && OrderField(sort) == "name" && t == search
    ensures forall t :: EndAt(t) in q <==> search != "" && OrderField(sort) == "name" && t == search + PrefixSentinel
  {
    PageQueryMembers(country, status, tagList, sort, cursor, search, students, q);
  }

  /** The query handlers build step by step, as `PageQuery` describes it. */
  method BuildPageQuery(
    country: string, status: string, tags: TagsParam, sort: string,
    cursor: string, search: string, students: Store)
    returns (r: Result<seq<Clause>, CursorError>)
    ensures r == PageQuery(country, status, TagFilter(tags), sort, cursor, search, students)
  {
    var query := [Limit(PageLimit)];
    if country != "" {
      query := query + [WhereEq("country", country)];
    }
    assert query == [Limit(PageLimit)] + EqualityClauses("country", country);
    if status != "" {
      query := query + [WhereEq("applicationStatus", status)];
    }
    assert query == [Limit(PageLimit)] + EqualityClauses("country", country) + EqualityClauses("applicationStatus", status);
    if tags.TagArray? || tags.text != "" {
      var tagsArray := TagFilter(tags);
      if |tagsArray| > 0 {
        query := query + [WhereArrayContainsAny("tags", tagsArray)];
      }
    }
    assert query == FilterQuery(country, status, TagFilter(tags));
    var orderByField := OrderField(sort);
    query := query + [OrderBy(orderByField)];
    ghost var ordered := query;
    if cursor != "" {
      if cursor !in students {
        return Err(CursorNotFound);
      }
      var cursorData := students[cursor];
      if orderByField !in cursorData {
        return Err(CursorMissingField(orderByField));
      }
      query := query + [StartAfter(cursorData[orderByField])];
      assert CursorValue(students, cursor, orderByField) == Ok(cursorData[orderByField]);
    }
    ghost var resumed := query;
    if search != "" {
      if orderByField == "name" {
        query := query + [StartAt(search), EndAt(search + PrefixSentinel)];
      }
    }
    assert query == resumed + SearchClauses(search, orderByField);
    return Ok(query);
  }

  /** The query of a scan of the whole collection, unfiltered. */
  const WholeCollection: seq<Clause> := []

  /** The unpaged query the `/api/students` status summary scans: the country and tag filters only. */
  function SummaryQuery(country: string, tagList: seq<string>): seq<Clause>
  {
    EqualityClauses("country", country) + TagClauses(tagList)
  }

  /** The summary query filters by country and tags as the page query does, and never by status. */
  lemma SummaryQueryFilters(country: string, tagList: seq<string>)
    ensures var q := SummaryQuery(country, tagList);
      && (forall v :: WhereEq("country", v) in q <==> country != "" && v == country)
      && (forall v :: WhereEq("applicationStatus", v) !in q)
      && (forall vs :: WhereArrayContainsAny("tags", vs) in q <==> vs == tagList && vs != [])
      && (forall c :: c in q ==> c.WhereEq? || c.WhereArrayContainsAny?)
  {
  }

  /** The summary query as the handler builds it. */
  method BuildSummaryQuery(country: string, tags: TagsParam) returns (q: seq<Clause>)
    ensures q == SummaryQuery(country, TagFilter(tags))
  {
    q := [];
    if country != "" {
      q := q + [WhereEq("country", country)];
    }
    assert q == EqualityClauses("country", country);
    var tagsArray: seq<string> := [];
    if tags.TagArray? || tags.text != "" {
      tagsArray := TagFilter(tags);
    }
    assert tagsArray == TagFilter(tags);
    if |tagsArray| > 0 {
      q := q + [WhereArrayContainsAny("tags", tagsArray)];
    }
  }
}
