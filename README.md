# Project collection service: a Dafny model

This models the in-memory project collection behind the `/projects` HTTP
endpoints of `src/index.js`. The collection is an ordered sequence of records
`{id, title, owner}`. Startup seeds it with ids 1 to 30. Six handlers work on it:

- list, with substring filters, a sort by a key and pagination;
- get by id;
- create;
- replace;
- patch;
- delete.

The model has three modules:

- `Text` (`text.dfy`): JavaScript's `includes` as `Contains`, proved equal to
  "occurs at some position". A code-point lexicographic order `StrLe` stands in
  for `localeCompare`; it is proved total, transitive and antisymmetric. The
  module also has the decimal rendering used by the seed titles.
- `Collection` (`collection.dfy`): records, handler outcomes
  (`Ok` / `NotFound` / `BadRequest` with the source's messages), and the list
  query as one pure function `ListQuery`. That function returns the response
  together with the stored collection afterwards. It also holds first-match
  lookup, the filters, a reference sort, and `slice` with ECMAScript clamping
  of negative and overlong indices.
- `Service` (`service.dfy`): the class `ProjectStore`, whose field `projects`
  is `app.projects`. Its constructor is the seeding loop and its methods are
  the handlers. Each mutating handler has `modifies this` and states the full
  new state in its postcondition; `Get` has no `modifies` clause.
  `MergeFields` is the `for...in` loop of PATCH. A few client methods replay
  concrete scenarios on a freshly started service.

Modelled behaviour worth knowing:

- `direction` is validated only when `order` is truthy, and is never used
  afterwards, so `desc` sorts ascending (`DescendingIsAscending`).
- When neither filter is truthy, the list handler sorts the stored array
  itself. A read therefore reorders the collection
  (`ListStoreEffect`). This also happens when the page check then answers 400.
- A new record gets id `length + 1`. After a delete this can repeat an
  existing id (`IdCollisionAfterDelete`). Ids are therefore not unique in
  general, and no invariant claims they are.
- JavaScript truthiness is explicit: an empty string counts as absent, and
  `page` 0 means no pagination. When `pagesize` is absent, the page
  arithmetic is `NaN`, which `slice` reads as 0, so the page is empty.

Three consequences of the code that a reader might not expect:

- `order=id&direction=desc` on the freshly seeded service lists id 1 first,
  because the direction is never applied (`DescendingByIdOnFreshService`).
- Ids can collide: after a delete, a POST can hand out an id that a stored
  record already has (`IdCollisionAfterDelete`).
- A GET right after a POST returns the created record only when no earlier
  record already has the new id; otherwise it finds the older record
  (`FindAfterAppend`).

## Model

| member | source | states |
|---|---|---|
| `Text.ContainsIff` | src/index.js:41-44 | a field passes a filter exactly when the query string occurs in it at some position (both directions), so the test is case-sensitive containment rather than equality |
| `Text.StrLeTotal` | src/index.js:57-59 | any two strings are comparable under the title/owner sort order |
| `Text.StrLeTransitive` | src/index.js:57-59 | the title/owner sort order is transitive |
| `Text.NatToStringIsDecimal` | src/index.js:26-27 | the number rendered in the seed titles denotes the record's id and has no leading zero, so it is the decimal numeral of the id |
| `Text.StrLeAntisymmetric` | src/index.js:57-59 | two strings that each come before the other are equal |
| `Collection.FindIndex` | src/index.js:100-101 | returns the position of the first record with the requested id, and None exactly when no record has that id |
| `Collection.FindAfterAppend` | src/index.js:78-93 | after an append, looking up the new id finds the new record exactly when no earlier record has that id; otherwise it finds the earlier one |
| `Collection.RemovedIdIsGone` | src/index.js:134-138 | when ids are unique, splicing out the matched position leaves no record with that id |
| `Collection.Filter` | src/index.js:40-45 | every kept record contains the query in the field; a passing record is kept as often as it occurs and a failing one is dropped; kept records keep their relative order |
| `Collection.InsertPermutes` | src/index.js:54-60 | inserting into the sorted part adds exactly that record |
| `Collection.InsertSorted` | src/index.js:54-60 | inserting into an ascending sequence keeps it ascending |
| `Collection.SortSortsAndPermutes` | src/index.js:54-60 | sorting by id, title or owner yields an ascending permutation of its input |
| `Collection.SortOfSorted` | src/index.js:55 | sorting a sequence that is already ascending leaves it unchanged |
| `Collection.SliceCounts` | src/index.js:70 | `slice` with a negative start takes that many records from the end, an end past the length stops at the length, and an end not after the start gives an empty page |
| `Collection.PageWindow` | src/index.js:67-70 | for `page >= 1` and `pagesize >= 0`, the page is the window `[(page-1)*pagesize, page*pagesize)` cut to the length |
| `Collection.PagesArePrefix` | src/index.js:67-70 | pages 1 to n, read in turn, are the first `n*pagesize` records in order, with no gaps and no repeats |
| `Collection.ListMatchesFilters` | src/index.js:40-45 | every record a successful list returns is stored and holds the title query in its title and the owner query in its owner, with or without sorting and paging |
| `Collection.ListKeepsAllMatches` | src/index.js:40-45 | without paging, a list returns each passing stored record as often as it is stored, and no other record |
| `Collection.ListKeepsStoredOrder` | src/index.js:40-70 | without a sort, a successful result keeps the stored relative order, with or without a page; without a page the list always succeeds |
| `Collection.SliceIsSubsequence` | src/index.js:70 | a page cut by `slice` keeps the relative order of the records it is cut from |
| `Collection.ListDirectionCheck` | src/index.js:46-52 | the direction 400 occurs exactly when `order` is truthy and a truthy direction is neither `asc` nor `desc`, and then the store is unchanged; without `order` the direction has no effect |
| `Collection.DescendingIsAscending` | src/index.js:46-60 | `direction=desc`, an absent direction and an empty one each give the same answer and the same new store as `direction=asc` |
| `Collection.ListSortedByKey` | src/index.js:54-60 | with `order` set to id, title or owner, a successful result is ascending by that key, whatever the direction and also when paged |
| `Collection.ListStoreEffect` | src/index.js:39-60 | the store is replaced by its sorted self exactly when no filter applies, the direction passes and `order` is a known key; otherwise it is unchanged; a list never adds or loses a record |
| `Collection.ListPageChecked` | src/index.js:63-68 | a truthy non-numeric `page` is the 400 "Page must be a number"; a numeric page without a `pagesize` returns an empty page |
| `Collection.ListPageWindow` | src/index.js:63-70 | a numeric `page >= 1` with `pagesize >= 0` returns the page window of the filtered and sorted records |
| `Service.SeedFacts` | src/index.js:23-29 | the seeded ids are unique and ascending, so sorting the seed by id changes nothing |
| `Service.MergeFields` | src/index.js:123-127 | the merged record keeps its id even when the body has one; title and owner each take the last value the body gives, or keep their old value when the body gives none |
| `Service.ProjectStore.constructor` | src/index.js:21-29 | the collection starts as the 30 records `{i, "Project i", "Owner i"}` in order |
| `Service.ProjectStore.List` | src/index.js:37-74 | the response and the new stored collection are those of the list pipeline on the old collection |
| `Service.ProjectStore.Get` | src/index.js:76-83 | answers the first record with the id, or not found; the collection is unchanged either way |
| `Service.ProjectStore.Create` | src/index.js:85-95 | the new record has id old length + 1 and is appended; earlier records are unchanged |
| `Service.ProjectStore.Replace` | src/index.js:97-114 | a missing id is not found before the field check; a falsy title or owner is a 400 with the collection unchanged; otherwise only the matched position changes, to `{path id, title, owner}` |
| `Service.ProjectStore.Patch` | src/index.js:116-130 | a missing id is not found and nothing changes; otherwise only the matched position changes, to the merged record, whose id is the requested id |
| `Service.ProjectStore.Delete` | src/index.js:132-141 | a missing id is not found and nothing changes; otherwise exactly the first match is removed and the rest keep their order |
| `Service.CreateOnFreshService` | src/index.js:85-95 | a POST on the freshly seeded service creates id 31 |
| `Service.DescendingByIdOnFreshService` | src/index.js:46-60 | `order=id&direction=desc` on the seeded service returns the 30 records with id 1 first and id 30 last |
| `Service.IdCollisionAfterDelete` | src/index.js:88-93 | after deleting id 1 from the seed, a POST creates a second record with id 30; a lookup of 30 then finds the seeded record, and ids are no longer unique |
| `Service.DeleteTwiceOnFreshService` | src/index.js:132-141 | on the seeded service, deleting an id succeeds once and the second delete of the same id is not found |

## Left out

- HTTP and Express wiring are not modelled: routing, `express.json`,
  status codes, JSON serialisation, `app.listen` and the `PORT` variable.
  Handlers return a `Response` value instead.
- The request logger in `src/logRoute.js` and every `console.log` only write
  to the console, so they are not modelled.
- The root route `GET /` only returns a constant message, so it is not modelled.
- The query parser's type coercion and `parseInt` of the path are not
  modelled. Ids are taken as integers, filters, `order` and `direction` as
  strings, and `page` as an integer or "not a number". A fractional or
  boolean `page` is left out.
- `pagesize` is taken as an integer, or as absent. A boolean `pagesize`
  (`true` gives a one-record page), a fractional one (which `slice`
  truncates) and a non-numeric string are not modelled.
- `localeCompare` depends on the locale and is a library call. The model
  uses code-point lexicographic order (`Text.StrLe`) in its place.
- The engine's `sort` algorithm is not modelled. The model sorts with a
  stable insertion sort (`Collection.Sort`), and `ProjectStore.List` and
  `ListStoreEffect` commit to its exact output. ECMAScript requires `sort`
  to be stable, so for the title and owner comparators and for distinct ids
  this is the engine's order too. Only with duplicate ids, where the id
  comparator `(a.id < b.id) ? -1 : 1` is inconsistent, may the engine's
  order differ from the model's.
- Service.ProjectStore.Create: takes `title` and `owner` as strings. A POST
  body without them stores `undefined`, which is not modelled.
- Service.ProjectStore.Replace: takes `title` and `owner` as optional
  strings. A JSON body with `0` or `false` (falsy, so a 400) or with other
  non-string truthy values (stored as they are) is not modelled.
- Service.MergeFields: a PATCH body is limited to the `id`, `title` and
  `owner` properties with values of the record's own types. Extra
  properties that the source would add to the record are not modelled.
- Records are values. Shared references to a record object from earlier
  responses are not modelled. PATCH's in-place mutation appears as storing
  the merged record at the same position.
- Concurrency is not modelled. Requests run one after another.
