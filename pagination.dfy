/**
 * The student list pages' client state: the current cursor and the stack of
 * earlier cursors behind the Next and Previous buttons, the request
 * parameters built from the filters, and the tag cell's overflow badge.
 */
module Pagination {
  import opened Wrappers
  import opened JsStrings
  import StudentQuery

  /** A cursor is truthy when it is present and non-empty. */
  predicate CursorTruthy(c: Option<string>) {
    c.Some? && c.value != ""
  }

  /** The cursor state: `cursor` and `prevCursors`. */
  datatype PagerState = PagerState(cursor: Option<string>, prevCursors: seq<string>)

  const Initial: PagerState := PagerState(None, [])

  /** `handleNext`: with a truthy next cursor, save the current cursor if it is truthy, and move on. */
  function NextState(s: PagerState, nextCursor: Option<string>): (r: PagerState)
    ensures !CursorTruthy(nextCursor) ==> r == s
    ensures CursorTruthy(nextCursor) ==> r.cursor == nextCursor
    ensures CursorTruthy(nextCursor) && CursorTruthy(s.cursor) ==> r.prevCursors == s.prevCursors + [s.cursor.value]
    ensures CursorTruthy(nextCursor) && !CursorTruthy(s.cursor) ==> r.prevCursors == s.prevCursors
  {
    if !CursorTruthy(nextCursor) then s
    else if CursorTruthy(s.cursor) then PagerState(nextCursor, s.prevCursors + [s.cursor.value])
    else PagerState(nextCursor, s.prevCursors)
  }

  /** `handlePrev`: pop the last saved cursor into `cursor` (none on an empty stack). */
  function PrevState(s: PagerState): (r: PagerState)
    ensures s.prevCursors == [] ==> r == PagerState(None, [])
    ensures s.prevCursors != [] ==>
      (&& r.cursor == Some(s.prevCursors[|s.prevCursors| - 1])
       && r.prevCursors + [s.prevCursors[|s.prevCursors| - 1]] == s.prevCursors)
  {
    if s.prevCursors == [] then PagerState(None, [])
    else PagerState(Some(s.prevCursors[|s.prevCursors| - 1]), s.prevCursors[..|s.prevCursors| - 1])
  }

  /** The Previous button is enabled iff the stack is non-empty. */
  predicate HasPrevPage(s: PagerState) {
    |s.prevCursors| > 0
  }

  /** Only truthy cursors are ever saved, and a present cursor is truthy. */
  predicate Reachable(s: PagerState) {
    && (s.cursor.Some? ==> s.cursor.value != "")
    && (forall i :: 0 <= i < |s.prevCursors| ==> s.prevCursors[i] != "")
  }

  lemma StepsStayReachable(s: PagerState, nextCursor: Option<string>)
    requires Reachable(s)
    ensures Reachable(NextState(s, nextCursor)) && Reachable(PrevState(s))
  {
  }

  /** From a page reached with a cursor, Next then Previous returns to the same state. */
  lemma PrevUndoesNext(s: PagerState, nextCursor: Option<string>)
    requires CursorTruthy(s.cursor) && CursorTruthy(nextCursor)
    ensures PrevState(NextState(s, nextCursor)) == s
  {
    var t := NextState(s, nextCursor);
    assert t.prevCursors[..|t.prevCursors| - 1] == s.prevCursors;
  }

  /**
   * On the first page the cursor is undefined, so the first Next saves
   * nothing: the second page is shown with Previous disabled.
   */
  lemma FirstNextLosesPrevious(nextCursor: string)
    requires nextCursor != ""
    ensures NextState(Initial, Some(nextCursor)).cursor == Some(nextCursor)
    ensures !HasPrevPage(NextState(Initial, Some(nextCursor)))
  {
  }

  /** The corrected state: the stack also records "first page" as `None`. */
  datatype FixedPagerState = FixedPagerState(cursor: Option<string>, prevCursors: seq<Option<string>>)

  /** Corrected `handleNext`: the current cursor is saved whether or not it is defined. */
  function FixedNextState(s: FixedPagerState, nextCursor: Option<string>): (r: FixedPagerState)
    ensures !CursorTruthy(nextCursor) ==> r == s
    ensures CursorTruthy(nextCursor) ==> r == FixedPagerState(nextCursor, s.prevCursors + [s.cursor])
  {
    if !CursorTruthy(nextCursor) then s else FixedPagerState(nextCursor, s.prevCursors + [s.cursor])
  }

  function FixedPrevState(s: FixedPagerState): (r: FixedPagerState)
    ensures s.prevCursors == [] ==> r == FixedPagerState(None, [])
    ensures s.prevCursors != [] ==>
      (&& r.cursor == s.prevCursors[|s.prevCursors| - 1]
       && r.prevCursors + [s.prevCursors[|s.prevCursors| - 1]] == s.prevCursors)
  {
    if s.prevCursors == [] then FixedPagerState(None, [])
    else FixedPagerState(s.prevCursors[|s.prevCursors| - 1], s.prevCursors[..|s.prevCursors| - 1])
  }

  /** With the correction, Previous is enabled after any Next, and always undoes it, first page included. */
  lemma FixedPrevUndoesNext(s: FixedPagerState, nextCursor: Option<string>)
    requires CursorTruthy(nextCursor)
    ensures |FixedNextState(s, nextCursor).prevCursors| > 0
    ensures FixedPrevState(FixedNextState(s, nextCursor)) == s
  {
    var t := FixedNextState(s, nextCursor);
    assert t.prevCursors[..|t.prevCursors| - 1] == s.prevCursors;
  }

  /** The query parameters a page sends: the filters, the tags joined with commas, and the cursor. */
  datatype RequestParams = RequestParams(search: string, status: string, country: string, tags: string, cursor: Option<string>)

  /**
   * The state of one list page: filters and cursors. The cursor handlers
   * follow the corrected stack of `FixedNextState`/`FixedPrevState`, which
   * also saves "first page" as `None`.
   */
  class StudentPager {
    var search: string
    var status: string
    var country: string
    var tags: seq<string>
    var cursor: Option<string>
    var prevCursors: seq<Option<string>>

    constructor ()
      ensures search == "" && status == "" && country == "" && tags == []
      ensures cursor == None && prevCursors == []
    {
      search, status, country, tags := "", "", "", [];
      cursor, prevCursors := None, [];
    }

    function State(): FixedPagerState
      reads this
    {
      FixedPagerState(cursor, prevCursors)
    }

    /** `hasPrevPage`: the Previous button is enabled iff the stack is non-empty. */
    predicate HasPrev()
      reads this
    {
      |prevCursors| > 0
    }

    function Params(): (p: RequestParams)
      reads this
      ensures p.tags == Join(tags, ",") && p.cursor == cursor
      ensures p.search == search && p.status == status && p.country == country
    {
      RequestParams(search, status, country, Join(tags, ","), cursor)
    }

    method HandleNext(nextCursor: Option<string>)
      modifies this
      ensures State() == FixedNextState(old(State()), nextCursor)
      ensures search == old(search) && status == old(status) && country == old(country) && tags == old(tags)
    {
      if CursorTruthy(nextCursor) {
        prevCursors := prevCursors + [cursor];
        cursor := nextCursor;
      }
    }

    method HandlePrev()
      modifies this
      ensures State() == FixedPrevState(old(State()))
      ensures search == old(search) && status == old(status) && country == old(country) && tags == old(tags)
    {
      var newPrevCursors := prevCursors;
      var prevCursor: Option<string> := None;
      if newPrevCursors != [] {
        prevCursor := newPrevCursors[|newPrevCursors| - 1];
        newPrevCursors := newPrevCursors[..|newPrevCursors| - 1];
      }
      prevCursors := newPrevCursors;
      cursor := prevCursor;
    }

    /** A filter change: the filters are replaced, the cursors are left as they are. */
    method SetFilters(newSearch: string, newStatus: string, newCountry: string, newTags: seq<string>)
      modifies this
      ensures search == newSearch && status == newStatus && country == newCountry && tags == newTags
      ensures cursor == old(cursor) && prevCursors == old(prevCursors)
    {
      search, status, country, tags := newSearch, newStatus, newCountry, newTags;
    }
  }

  /** The tag cell of a row: the first three tags and, beyond three, a `+n` badge. */
  datatype TagCellView = TagCellView(shown: seq<string>, overflow: Option<nat>)

  function TagCell(tags: seq<string>): (v: TagCellView)
    ensures |v.shown| == if |tags| < 3 then |tags| else 3
    ensures v.shown == tags[..|v.shown|]
    ensures v.overflow.Some? <==> |tags| > 3
    ensures |v.shown| + v.overflow.GetOr(0) == |tags|
  {
    var shown := if |tags| < 3 then tags else tags[..3];
    TagCellView(shown, if |tags| > 3 then Some(|tags| - 3) else None)
  }
}
