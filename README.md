# Student CRM: verified model of the request handlers and client state

This project is a Dafny model of the deterministic core of a small student CRM. The backend is an Express API over a document store and an identity provider. The frontend is a React client with two small stores and two paged list views.

## What is modelled

**The store.**
- A collection is a map from document id to a schemaless record (`Documents.Store`).
- A whole-collection scan is a sequence of (id, record) pairs covering the map exactly once (`SnapshotOf`).
- A query is a *description*: a list of builder clauses (`StudentQuery.Clause`). The store's query engine is never evaluated. Every handler that runs a query takes the engine as a parameter `run: seq<Clause> -> seq<DocSnapshot>` that returns the documents a description selects. The users routes read the users collection directly, as a map or a scan.

**Student queries** (`/search` and `/api/students`).
- The sort-field allow-list, with fallback to `name`.
- Parsing of the comma-separated tag list, characterised for every input text against the split pieces.
- The filter clauses, the ordering, and cursor resolution with its two 400 errors.
- The `name`-only prefix range.
- The handlers build the query clause by clause (`BuildPageQuery`). A specification function (`PageQuery`) gives it meaning, and lemmas state the properties clause by clause.

**Search responses.**
- Row shaping: the document id becomes `id`, and timestamp date fields become ISO text.
- The full-page next-cursor rule.
- The facet sets, collected in a loop.
- The status comparator, proved a strict total order. The facet lists are sorted by the comparator and by code-point order (standing in for the UTF-16 code-unit order of `sort()`), and each sorted facet list is proved unique.

**Status counting** (`/api/students` summary and `/stats`). A JavaScript counter record is modelled as an association list in key-insertion order, which is how a record behaves for status names that are not integer-like and not `Object.prototype` members. The model proves:
- per-key counts;
- the fallback status;
- the key set;
- that the counts add up to the number of scanned documents.

**Lookup, users and authentication.**
- The `/:id` lookup by the `studentId` field, with the document-id fallback and 404.
- The users routes: the 400/409 guards, the name and role defaults, the single write, `/me`, and the listing.
- The `Bearer ` header middleware, with token verification as an oracle.

**Converters.** Timestamp ↔ ISO text is an abstract codec pair (`TimeCodec`). The model states which fields are converted and that the two directions round-trip.

**Seed script.** The `BatchHandler` write buffer (limit 400) is a class. Its invariant ties the committed batches plus the open batch to every operation handed over. The model proves that clearing and seeding commit every operation exactly once, in call order.

**Client state.**
- The toast store, whose ids are never reused.
- The student pages' cursor stack, request parameters and tag cell.
- The user store's transitions and its id → name map. Network results are parameters.

## Model

| member | source | states |
|---|---|---|
| JsStrings.Split | backend/src/routes/students/search.ts:48 | `split` of a non-empty separator: at least one piece, the pieces join back to the input, and no piece contains the separator |
| JsStrings.SplitHead | backend/src/middlewares/authMiddleware.ts:29 | the first piece of a split is the text before the first occurrence of the separator, or the whole text when there is none: no occurrence starts inside it, and when there is one it starts right after it |
| JsStrings.SplitJoin | frontend/src/pages/Students.tsx:68 | joining separator-free pieces with a one-character separator and splitting again gives the pieces back |
| JsStrings.Trim | backend/src/routes/students/search.ts:48 | `trim` result has no whitespace at either end, keeps only characters of the input, leaves trimmed text unchanged, and is empty iff the input is all whitespace |
| JsStrings.StrLessTotal | backend/src/routes/students/search.ts:131 | the default `sort()` order puts any two distinct strings one before the other |
| JsStrings.StrLessTransitive | backend/src/routes/students/search.ts:131 | the default `sort()` order is transitive |
| Documents.SnapshotSize | backend/src/routes/students/stats.ts:38 | a whole-collection scan holds exactly as many documents as the collection |
| FacetOrder.IndexOf | backend/src/routes/students/search.ts:117-118 | `indexOf` is -1 iff the status is unranked, else the first position holding it |
| FacetOrder.LocaleCompare | backend/src/routes/students/search.ts:125 | the alphabetical fallback is 0 iff equal and negative iff the first string is smaller |
| FacetOrder.StatusRankMeaning | backend/src/routes/students/search.ts:116-126 | the comparator orders two ranked statuses by rank, puts a ranked status before an unranked one, orders two unranked ones alphabetically, and with no configured order is plain string order |
| FacetOrder.PrecedesTotal | backend/src/routes/students/search.ts:116-126 | for both facet orders, two distinct values are ordered exactly one way |
| FacetOrder.PrecedesTransitive | backend/src/routes/students/search.ts:116-126 | both facet orders are transitive, so the comparator is a consistent sort order |
| FacetOrder.Insert | backend/src/routes/students/search.ts:116 | inserting a new value into a strictly sorted list keeps it strictly sorted and adds exactly that value |
| FacetOrder.Sort | backend/src/routes/students/search.ts:116-131 | sorting a duplicate-free list gives a strictly sorted list with the same values and length |
| FacetOrder.StrictlySortedIsDistinct | backend/src/routes/students/search.ts:116-131 | a strictly sorted facet list holds each value once |
| FacetOrder.SortedIsUnique | backend/src/routes/students/search.ts:116-131 | two strictly sorted lists with the same values are equal, so the facet order does not depend on scan order |
| StudentQuery.OrderField | backend/src/routes/students/search.ts:55-56 | the ordering field is always `name` or `lastActive`; an allowed sort is kept and anything else gives `name` |
| StudentQuery.ParseTagText | backend/src/routes/students/search.ts:46-48 | each parsed tag is non-empty, trimmed and comma-free |
| StudentQuery.ParseTagTextMeaning | backend/src/routes/students/search.ts:46-48 | for any text, the tags are exactly the trimmed comma-separated pieces that are not blank, in their order: tag `k` is the trimmed piece at the `k`-th non-blank position |
| StudentQuery.DropEmptyPositions | backend/src/routes/students/search.ts:48 | `.filter(Boolean)` keeps exactly the non-empty strings, in order |
| StudentQuery.JoinedTagsParseBack | backend/src/routes/students/search.ts:45-48 | a list of pickable tags (non-empty, trimmed, comma-free), joined with commas as the list page sends it (frontend/src/pages/Students.tsx:68), parses back to exactly that list |
| StudentQuery.CursorValue | backend/src/routes/students/search.ts:60-72 | the cursor resolves iff its document exists and holds the ordering field, and then to that field's value; otherwise it gives the not-found or missing-field error |
| StudentQuery.EqualityClauses | backend/src/routes/students/search.ts:37-43 | the country or status equality clause is present exactly when that filter is given |
| StudentQuery.TagClauses | backend/src/routes/students/search.ts:49-51 | the `array-contains-any` clause is present exactly when the tag list is non-empty |
| StudentQuery.SearchClauses | backend/src/routes/students/search.ts:77-81 | the prefix range `[search, search + U+F8FF]` is present exactly when a search is given under `name` ordering |
| StudentQuery.FilterQuery | backend/src/routes/students/search.ts:34-52 | the query starts with the page limit; its other clauses are exactly the given filters |
| StudentQuery.PageQueryErrors | backend/src/routes/students/search.ts:60-72 | a request fails exactly when it carries a cursor that does not resolve, and then with that cursor's error |
| StudentQuery.PageQueryMembers | backend/src/routes/students/search.ts:34-81 | a built query holds exactly the limit, the given filters, the ordering, the resolved cursor value and the prefix range |
| StudentQuery.PageQueryEqualityFilters | backend/src/routes/students/search.ts:37-43 | country and status filters appear exactly when given, with the given values |
| StudentQuery.PageQueryTagFilter | backend/src/routes/students/search.ts:45-52 | the tag filter appears exactly when the list is non-empty; no other field gets an equality filter |
| StudentQuery.PageQueryOrderAndCursor | backend/src/routes/students/search.ts:55-74 | the query orders only by the resolved field and starts after the cursor document's value of it, only when a cursor is given |
| StudentQuery.PageQueryPrefixRange | backend/src/routes/students/search.ts:76-81 | start and end bounds appear exactly when a search is given under `name` ordering |
| StudentQuery.BuildPageQuery | backend/src/routes/students/search.ts:34-81 | the step-by-step query construction yields the specified page query or cursor error |
| StudentQuery.SummaryQueryFilters | backend/src/routes/students.ts:89-104 | the summary query filters by country and tags as the page query does, never by `applicationStatus`, and has no other clause |
| StudentQuery.BuildSummaryQuery | backend/src/routes/students.ts:89-102 | the step-by-step summary query construction yields the specified summary query |
| Shaping.IsoIfStamp | backend/src/routes/students/search.ts:90-91 | a timestamp value becomes its ISO text; any other value passes through |
| Shaping.ShapeStudent | backend/src/routes/students/search.ts:85-93 | a response row has the stored keys plus `id`; `id` is the document id; only the two date fields are converted; the rest are copied |
| Shaping.ShapeIsToApiWithId | backend/src/routes/students/get.ts:26-31 | with timestamp date fields, the row shaping is `studentConverter.toApi` with the document id written over `id` |
| Shaping.ShapeKeepsNonStamps | backend/src/routes/students/get.ts:29-30 | date fields that are not timestamps pass through unchanged |
| StudentSearch.NextCursor | backend/src/routes/students/search.ts:95 | both directions: a full page of 20 whose last row has a non-empty document id gives that id as the next cursor; any other page gives none |
| StudentSearch.NextCursorResumes | backend/src/routes/students/search.ts:60-73 | feeding the next cursor back gives a valid query that starts after the last row's ordering value |
| StudentSearch.FieldTextsMeaning | backend/src/routes/students/search.ts:105-109 | a value is collected iff some scanned document holds it as non-empty text |
| StudentSearch.AddIfPresent | backend/src/routes/students/search.ts:107-108 | `Set.add` of a present value keeps the set duplicate-free, adds exactly that value, and keeps insertion order |
| StudentSearch.CollectFacetValues | backend/src/routes/students/search.ts:102-109 | the status and country sets each hold every non-empty value of the scan exactly once |
| StudentSearch.ShapeAll | backend/src/routes/students/search.ts:85-93 | one shaped row per page document, in page order |
| StudentSearch.Search | backend/src/routes/students/search.ts:16-141 | covers errors exactly as the page query, the shaped rows, `hasNextPage` iff a next cursor exists, and config tags or none. Facets come from the unfiltered collection: statuses sorted by the rank comparator, countries in code-point order, each holding exactly the collection's non-empty values |
| StudentSearch.StatusFacetIsDetermined | backend/src/routes/students/search.ts:114-126 | the status facet is the one rank-sorted list of the collection's statuses |
| StatusTally.Zeroes | backend/src/routes/students.ts:108-115 | the initial record holds the given buckets in order, all at 0 |
| StatusTally.Increment | backend/src/routes/students.ts:120 | bumping status `s` (an absent key read as 0) raises exactly key `s` by one, keeps keys distinct and in place, and adds `s` if new |
| StatusTally.SetKey | backend/src/routes/students/stats.ts:36-39 | spreading the record and setting a key sets that key, keeps the others and their order, and adds the key if new |
| StatusTally.LookupAbsent | backend/src/routes/students/stats.ts:32 | a key not in the record reads as 0, so a new status starts from 1 |
| StatusTally.EffectiveStatus | backend/src/routes/students.ts:119 | a document's bucket is its non-empty status, else the fallback |
| StatusTally.TallyStatuses | backend/src/routes/students.ts:117-121 | the counting loop adds to each key the number of documents with that status, adds every seen status as a key, and raises the sum by the number of documents |
| StatusTally.CountByStatus | backend/src/routes/students.ts:108-121 | the buckets start at zero in order; each key counts the documents with that status, new statuses get their own key, and the counts sum to the scan size |
| StatusTally.ZeroesKeys | backend/src/routes/students/stats.ts:20-27 | a record of distinct buckets at zero is well formed, with exactly those keys |
| StatusTally.CountsCoverDocs | backend/src/routes/students/stats.ts:29-33 | when every status is a known bucket, the bucket counts add up to the number of documents |
| StudentList.ListNextCursor | backend/src/routes/students.ts:86 | the next cursor is the last row's stored `id` field, and only on a full page whose last row has a truthy `id`; otherwise null |
| StudentList.RowData | backend/src/routes/students.ts:81-84 | the rows are the stored records, in page order, without document ids |
| StudentList.ListStudents | backend/src/routes/students.ts:11-127 | covers errors exactly as the page query, the rows, and the next cursor. The summary counts the country- and tag-filtered collection with the `prospect` fallback, has exactly the six lowercase buckets, in order first, plus each status seen, and sums to the scan size |
| StudentStats.Stats | backend/src/routes/students/stats.ts:14-40 | `total` is the scan size, which is the collection size. The six capitalised buckets come first; each key counts the documents with that status (`Prospect` when missing); the counts sum to `total`; the response adds `total` and keeps every count |
| StudentLookup.ByStudentId | backend/src/routes/students/get.ts:17 | the first lookup filters on `studentId` and takes at most one document |
| StudentLookup.GetStudent | backend/src/routes/students/get.ts:17-42 | a `studentId` match is returned shaped; only without one is the document id tried; 404 when neither finds a record |
| StudentLookup.GetStudentMeaning | backend/src/routes/students/get.ts:17-42 | against a faithful store, 404 happens iff no student has the id as `studentId` or document id. Otherwise the answer is such a stored student, shaped, with `id` its document id |
| StudentLookup.StudentIdMatchWins | backend/src/routes/students/get.ts:19-21 | a `studentId` match is preferred even when the parameter is also a document id |
| Auth.ExtractToken | backend/src/middlewares/authMiddleware.ts:29 | the token is the text after the leading `Bearer ` up to the next `Bearer ` (or the end), trimmed |
| Auth.BearerRoundTrip | backend/src/middlewares/authMiddleware.ts:29 | a `Bearer <token>` header yields the token back |
| Auth.Authorize | backend/src/middlewares/authMiddleware.ts:20-44 | a missing or non-`Bearer ` header is refused; otherwise the decision is the verifier's answer on the extracted token |
| Auth.Exchange.Authenticate | backend/src/middlewares/authMiddleware.ts:18-44 | a refusal sends 401 and leaves `user` and the `next` count as they were; a success sets `user` to the decoded token and calls `next` exactly once |
| Users.EmailPrefix | backend/src/routes/users.ts:35 | `email.split('@')[0]` is a prefix of the email without `@`, ending at the first `@` or at the end |
| Users.NewUserRecord | backend/src/routes/users.ts:32-38 | a new profile has `id = uid`, the token email, the given name or else the email prefix, the given role or else `user`, and the creation time |
| Users.WithIsoCreatedAt | backend/src/routes/users.ts:42-48 | the response converts `createdAt` to ISO text and keeps every other field |
| Users.UserSummary | backend/src/routes/users.ts:93-100 | a list entry has the document id; its name is the truthy name or else the email; email and role are copied when present |
| Users.ListUsers | backend/src/routes/users.ts:92-101 | one entry per scanned user, in scan order |
| Users.UserDirectory.CreateUser | backend/src/routes/users.ts:11-48 | no email gives 400 and no write; an existing uid gives 409 and no write; otherwise the only write stores the new profile under the uid, and the response is that profile with ISO `createdAt` |
| Users.UserDirectory.GetMe | backend/src/routes/users.ts:59-79 | an unknown uid gives 404; a stored profile is returned with ISO `createdAt` |
| Users.CreatedProfileReadsBack | backend/src/routes/users.ts:40-79 | after creation, `/me` answers exactly what the creation answered |
| Users.ListingCoversUsers | backend/src/routes/users.ts:92-101 | over a full scan, the listing has exactly one entry per stored user |
| Converters.StudentToApi | backend/src/utils/converters.ts:7-11 | `lastActive` and `createdAt` become ISO text; every other field is copied; no key is added or dropped |
| Converters.StudentToFirestore | backend/src/utils/converters.ts:14-25 | each truthy date field is parsed to a timestamp; every other field is copied; no key is added |
| Converters.TaskToApi | backend/src/utils/converters.ts:30-35 | exactly `dueDate`, `createdAt` and `updatedAt` become ISO text; the rest pass through |
| Converters.TaskToFirestore | backend/src/utils/converters.ts:37-43 | each of the three date fields is parsed only when truthy; the rest are copied unchanged |
| Converters.StoreToWireToStore | backend/src/utils/converters.ts:7-25 | store → API → store restores the record when the codec round-trips its timestamps |
| Converters.WireToStoreToWire | backend/src/utils/converters.ts:7-25 | API → store → API restores the record when its date fields are canonical ISO text |
| Converters.StudentRoundTrip | backend/src/utils/converters.ts:7-25 | `toFirestore(toApi(s)) == s` for a student whose timestamps round-trip |
| Converters.TaskRoundTrip | backend/src/utils/converters.ts:30-43 | `toFirestore(toApi(t)) == t` for a task whose timestamps round-trip |
| SeedData.FlattenAppend | backend/scripts/seedData.ts:32-38 | committing one more batch appends its operations to everything committed |
| SeedData.BatchHandler.constructor | backend/scripts/seedData.ts:12-14 | the buffer starts empty, with nothing committed |
| SeedData.BatchHandler.Commit | backend/scripts/seedData.ts:32-38 | with `count == 0` nothing changes; otherwise the open batch is committed, and a fresh empty batch is opened with `count == 0` |
| SeedData.BatchHandler.Add | backend/scripts/seedData.ts:16-30 | one operation is buffered and `count` rises by one; reaching 400 commits the batch, so `count < 400` on return and no operation is lost or reordered |
| SeedData.BatchHandler.Set | backend/scripts/seedData.ts:16-22 | `set` appends one set operation to the open batch; when that makes 400, the batch including it is committed and a fresh empty batch opened |
| SeedData.BatchHandler.Delete | backend/scripts/seedData.ts:24-30 | `delete` appends one delete operation to the open batch; when that makes 400, the batch including it is committed and a fresh empty batch opened |
| SeedData.DeleteAll | backend/scripts/seedData.ts:49-51 | every listed document is handed to the buffer as a delete, in order |
| SeedData.SetAll | backend/scripts/seedData.ts:197-208 | every record is handed to the buffer as a set, in order |
| SeedData.ClearCollections | backend/scripts/seedData.ts:41-55 | the deletes of the five collections are buffered in order, then flushed, so everything handed over is committed |
| SeedData.PendingCount | backend/scripts/seedData.ts:191 | the pending count never exceeds the number of tasks |
| SeedData.PendingPlusCompleted | backend/scripts/seedData.ts:191 | every task is pending or completed, never both |
| SeedData.StudentRecordFields | backend/scripts/seedData.ts:172-195 | the student record carries the number of its communications, the number of its non-completed tasks (which with the completed ones make up all its tasks), and its document id; other fields are kept |
| SeedData.SetRelated | backend/scripts/seedData.ts:197-208 | the related records are buffered as sets: interactions, communications, notes, then tasks, each in order |
| SeedData.SeedStudent | backend/scripts/seedData.ts:195-208 | one student's operations are buffered: the student first, then interactions, communications, notes and tasks |
| SeedData.SeedStep | backend/scripts/seedData.ts:156-209 | one more iteration appends exactly that student's operations to those of the students before it |
| SeedData.SeedStudents | backend/scripts/seedData.ts:156-209 | the seeding loop buffers every generated student with its related records, student by student, in order |
| SeedData.Seed | backend/scripts/seedData.ts:140-212 | clearing then seeding hands over all operations in call order, and the final flush commits each exactly once, in order |
| ToastQueue.WithoutId | frontend/src/store/useToastStore.ts:21 | the filter keeps exactly the toasts whose id differs |
| ToastQueue.WithoutAbsentId | frontend/src/store/useToastStore.ts:21 | removing an id no toast has leaves the list unchanged |
| ToastQueue.WithoutIdKeepsOrder | frontend/src/store/useToastStore.ts:19-22 | removal keeps the remaining toasts in order, so ids stay increasing |
| ToastQueue.WithoutIdIdempotent | frontend/src/store/useToastStore.ts:19-22 | removing an id twice is removing it once |
| ToastQueue.ToastStore.constructor | frontend/src/store/useToastStore.ts:11-14 | no toasts and counter 0 |
| ToastQueue.ToastStore.AddToast | frontend/src/store/useToastStore.ts:15-18 | appends exactly one toast at the end under the pre-incremented counter, an id never issued before; ids stay increasing |
| ToastQueue.ToastStore.RemoveToast | frontend/src/store/useToastStore.ts:19-22 | removes every toast with the id and keeps the others in order; the counter is untouched, so an id is never reissued |
| Pagination.NextState | frontend/src/pages/Students.tsx:78-85 | as written: nothing without a truthy next cursor; else the current cursor is saved only if defined, and the next becomes current |
| Pagination.PrevState | frontend/src/pages/Students.tsx:87-92 | pops the last saved cursor into `cursor`; on an empty stack `cursor` becomes undefined and the stack stays empty |
| Pagination.StepsStayReachable | frontend/src/pages/Students.tsx:78-92 | only non-empty cursors are ever current or saved |
| Pagination.PrevUndoesNext | frontend/src/pages/Students.tsx:78-92 | from a page reached by a cursor, Next then Previous returns to the same state |
| Pagination.FirstNextLosesPrevious | frontend/src/pages/Students.tsx:80-82 | as written, the first Next from page one leaves Previous disabled |
| Pagination.FixedNextState | frontend/src/pages/StudentDirectory.tsx:90-97 | corrected `handleNext`: the current cursor is saved even when undefined |
| Pagination.FixedPrevState | frontend/src/pages/StudentDirectory.tsx:99-104 | corrected `handlePrev`: pops the last saved cursor, possibly "first page" |
| Pagination.FixedPrevUndoesNext | frontend/src/pages/StudentDirectory.tsx:90-104 | with the correction, Previous is enabled after any Next and undoes it, page one included |
| Pagination.StudentPager.constructor | frontend/src/pages/Students.tsx:37-44 | empty filters, no cursor, empty stack |
| Pagination.StudentPager.Params | frontend/src/pages/Students.tsx:62-71 | the request sends the filters, the tags joined with `,`, and the current cursor |
| Pagination.StudentPager.HandleNext | frontend/src/pages/StudentDirectory.tsx:90-97 | the state moves as the corrected `handleNext`; the filters are untouched |
| Pagination.StudentPager.HandlePrev | frontend/src/pages/StudentDirectory.tsx:99-104 | the state moves as `handlePrev`; the filters are untouched |
| Pagination.StudentPager.SetFilters | frontend/src/pages/Students.tsx:108-118 | a filter change does not touch `cursor` or the stack |
| Pagination.TagCell | frontend/src/pages/StudentDirectory.tsx:260-269 | shows the first `min(3, n)` tags, plus a `+(n-3)` badge exactly when n > 3 |
| UserStore.UsersMapOf | frontend/src/store/userStore.ts:74-77 | the map's keys are exactly the returned ids |
| UserStore.LaterEntryWins | frontend/src/store/userStore.ts:74-77 | each id maps to the name of its last entry |
| UserStore.UserStoreState.constructor | frontend/src/store/userStore.ts:19-23 | no users, loading, and an empty map |
| UserStore.UserStoreState.FetchAllUsers | frontend/src/store/userStore.ts:70-83 | a returned list replaces the map with the one built in order; a call that fails or returns no list leaves the map unchanged; an empty list empties it |
| UserStore.UserStoreState.ClearUser | frontend/src/store/userStore.ts:49-54 | both users null, not loading, empty map |
| UserStore.UserStoreState.SignOut | frontend/src/store/userStore.ts:85-99 | success resets the four fields; failure changes only `loading`, to false |
| UserStore.UserStoreState.SetUser | frontend/src/store/userStore.ts:25-47 | `setUser(null)` clears `crmUser`. A user gets `crmUser` replaced only when `/users/me` returns data; the map is refreshed only after a successful `/users/me`. `loading` ends false on every path |
| UserStore.UserStoreState.RefreshCrmUser | frontend/src/store/userStore.ts:56-68 | only a signed-in user whose `/users/me` returns data gets `crmUser` replaced; nothing else changes |

## Left out

- Query evaluation is not modelled: how `where`, `orderBy`, `startAfter`, `startAt`, `endAt` and `limit` combine is the store's behaviour. Handlers receive the engine as a function from query description to documents. `GetStudentMeaning` relies on the engine answering the `studentId` query faithfully.
- Token verification (`verifyIdToken`) is an oracle parameter. Firebase initialisation and the HTTP client interceptors are not part of this model.
- Timestamp ↔ ISO formatting is an abstract codec pair. `Timestamp.now()` is a parameter of `CreateUser`.
- JsStrings.StrLess: compares Unicode code points, not the UTF-16 code units of the default `sort()`. The two orders differ when a character above U+FFFF meets one in U+E000–U+FFFF (the program sorts U+1F600 before U+FF21, the model after it). Lone surrogates cannot be represented.
- StudentSearch.Search: the country facet is sorted by `JsStrings.StrLess`, so it can differ from the program's order on the characters named in the line above.
- FacetOrder.LocaleCompare: locale collation is replaced by code-point order. The model's order of unranked statuses is therefore not the program's: the model puts "Deferred" before "applied", and `localeCompare` puts it after.
- FacetOrder.SortedIsUnique: the uniqueness of a sorted facet, and with it `StudentSearch.StatusFacetIsDetermined`, rely on the fallback order never calling two distinct statuses equal. Locale collation does call canonically equivalent strings equal, and then the program's status order depends on scan order.
- StatusTally.Increment: a JavaScript record lists integer-like keys (such as a status "2024") first, in numeric order, and `summary[status] || 0` reads an inherited value for `Object.prototype` member names ("constructor", "toString", "__proto__"). The model covers statuses that are neither.
- StatusTally.LookupAbsent: an absent key reads 0 only for names that are not `Object.prototype` members.
- StatusTally.TallyStatuses: the sum rises by one per document only for the statuses covered above; a "__proto__" status drops its count.
- StatusTally.CountByStatus: the buckets come first and the counts add up to the number of documents only for statuses that are not integer-like and not `Object.prototype` members.
- StudentList.ListStudents: the summary starts with the six lowercase buckets and sums to the scan size only under the same restriction on status names.
- StudentStats.Stats: the six capitalised buckets come first and the counts add up to `total` only under the same restriction on status names.
- The seed script's random generation (faker) is left out. Generated records, the ids the store assigns, and the ids of the documents to clear are inputs.
- Per-student counters are proved from the generated lists, not from the counts faker draws.
- The fixed student count (50) and the assignee choice (a random user id, or `admin` when there are no users) are not modelled; the seeding members take the generated records, assignees included, as inputs.
- The list endpoints for tasks, notes, communications and interactions are not part of this model.
- Rendering, navigation, query caching, and the asynchronous interleaving of store actions are not modelled.
- `UserStore.UserStoreState.SetUser`: `setUser` starts `fetchAllUsers` without awaiting it. The model takes that call as settled before `setUser` returns, so it does not capture a later `usersMap` update racing other actions.
- Status and country fields are read as text; a non-text value is treated as absent, as the record schema declares these fields as strings.
- The "Invalid cursor data" 400 (search.ts:66-68, students.ts:61-63) needs an existing document with no data. That cannot occur in a map model, so that branch is not represented.
- The 500 answers of every handler's `catch` are not modelled: they come from store or I/O failures. The one exception is `/me` with a stored `createdAt` that is not a timestamp, which is `ServerError`.
- The Next button's `disabled` state is the response's `hasNextPage`, which `Search` states. It is not modelled separately.
- The student directory page calls `/students` with `status`, but the `/api/students` handler reads `applicationStatus` and returns `nextCursor` at the top level rather than under `pagination`. This client/server mismatch is noted, not modelled. Both pages are modelled with one pager.
- `Pagination.StudentPager.HandleNext`: follows the corrected `handleNext` of the Findings below, not the code as written. `Pagination.NextState` models the code as written.
- `Pagination.StudentPager.HandlePrev`: pops from the corrected stack of optional cursors. The original stack holds only defined cursors.

## Findings

| source | as written | input that shows it | evidently intended | confidence | as-written member | corrected member |
|---|---|---|---|---|---|---|
| frontend/src/pages/Students.tsx:80-82 (same in frontend/src/pages/StudentDirectory.tsx:92-94) | `handleNext` saves the current cursor only when it is defined, and page one has an undefined cursor | from the initial state (no cursor, empty stack), Next with next cursor `"c"`: page two is shown, the stack is empty, and Previous is disabled, so page one cannot be reached with Previous | every Next, including the first, can be undone by Previous | not executed | Pagination.FirstNextLosesPrevious | Pagination.FixedPrevUndoesNext |
