/** The project records and the pure operations the `/projects` handlers of
    src/index.js run over the collection: lookup by id, the substring filters,
    the sort by a key, the page window, and the whole list query pipeline,
    which also says what the stored collection looks like afterwards. */
module Collection {
  import opened Text

  datatype Option<T> = None | Some(value: T)

  datatype Project = Project(id: int, title: string, owner: string)

  /** What a handler answers: a value (200, 201 or 204), 404 or 400 with its message. */
  datatype Response<T> = Ok(value: T) | NotFound | BadRequest(message: string)

  const DIRECTION_MESSAGE := "Direction must be asc or desc"
  const PAGE_MESSAGE := "Page must be a number"
  const REQUIRED_MESSAGE := "Title and owner are required"

  /** JavaScript truthiness of an optional string parameter: absent and "" are falsy. */
  predicate Given(o: Option<string>)
  {
    o.Some? && o.value != ""
  }

  // ---------------------------------------------------------------------------
  // Lookup by id (`find` / `findIndex` with `project.id === id`)
  // ---------------------------------------------------------------------------

  /** Position of the first record whose id is `id`; None stands for `-1`. */
  function FindIndex(s: seq<Project>, id: int): (r: Option<nat>)
    ensures r.Some? ==> r.value < |s| && s[r.value].id == id
    ensures r.Some? ==> forall j :: 0 <= j < r.value ==> s[j].id != id
    ensures r.None? <==> forall j :: 0 <= j < |s| ==> s[j].id != id
  {
    if s == [] then None
    else if s[0].id == id then Some(0)
    else match FindIndex(s[1..], id)
      case None => None
      case Some(k) => Some(k + 1)
  }

  /** No two records share an id. The collection does not maintain this. */
  ghost predicate UniqueIds(s: seq<Project>)
  {
    forall i, j :: 0 <= i < |s| && 0 <= j < |s| && s[i].id == s[j].id ==> i == j
  }

  /** A record appended at the end is what a lookup of its id finds exactly
      when no earlier record already carries that id. */
  lemma {:induction false} FindAfterAppend(s: seq<Project>, p: Project)
    ensures FindIndex(s + [p], p.id) == Some(|s|) <==> FindIndex(s, p.id).None?
    ensures FindIndex(s, p.id).Some? ==> FindIndex(s + [p], p.id) == FindIndex(s, p.id)
  {
    if s != [] {
      assert (s + [p])[1..] == s[1..] + [p];
      FindAfterAppend(s[1..], p);
    }
  }

  /** Removing the matched record leaves no record with that id when ids are unique. */
  lemma RemovedIdIsGone(s: seq<Project>, id: int, i: nat)
    requires UniqueIds(s) && FindIndex(s, id) == Some(i)
    ensures FindIndex(s[..i] + s[i + 1..], id).None?
  {
    var t := s[..i] + s[i + 1..];
    forall j | 0 <= j < |t| ensures t[j].id != id {
      if j >= i {
        assert t[j] == s[j + 1];
      }
    }
  }

  // ---------------------------------------------------------------------------
  // PATCH bodies (`for (field in req.body)`)
  // ---------------------------------------------------------------------------

  /** One property of a PATCH body, in the order `for...in` visits them. */
  datatype BodyField = SetId(id: int) | SetTitle(title: string) | SetOwner(owner: string)

  /** `q` is `p` after merging `body`: the id is kept whatever the body says,
      and each of title and owner takes the last value the body gives it, or
      keeps its old value when the body gives none. */
  ghost predicate Merged(p: Project, body: seq<BodyField>, q: Project)
  {
    && q.id == p.id
    && ((forall k :: 0 <= k < |body| ==> !body[k].SetTitle?) ==> q.title == p.title)
    && (forall k :: 0 <= k < |body| && body[k].SetTitle? && (forall m :: k < m < |body| ==> !body[m].SetTitle?)
          ==> q.title == body[k].title)
    && ((forall k :: 0 <= k < |body| ==> !body[k].SetOwner?) ==> q.owner == p.owner)
    && (forall k :: 0 <= k < |body| && body[k].SetOwner? && (forall m :: k < m < |body| ==> !body[m].SetOwner?)
          ==> q.owner == body[k].owner)
  }

  // ---------------------------------------------------------------------------
  // Substring filters (`filter(project => project.title.includes(title))`)
  // ---------------------------------------------------------------------------

  datatype Field = TitleField | OwnerField

  function FieldOf(p: Project, f: Field): string
  {
    match f
    case TitleField => p.title
    case OwnerField => p.owner
  }

  predicate Passes(p: Project, f: Field, needle: string)
  {
    Contains(FieldOf(p, f), needle)
  }

  /** `r` is `s` with some elements dropped and the rest in their original order. */
  ghost predicate IsSubsequence(r: seq<Project>, s: seq<Project>)
    decreases |s|
  {
    r == [] || (s != [] && if r[0] == s[0] then IsSubsequence(r[1..], s[1..]) else IsSubsequence(r, s[1..]))
  }

  /** The records of `s` whose field `f` contains `needle`: every kept record
      passes, every passing record is kept as often as it occurs, and the
      kept records keep their relative order. */
  function Filter(s: seq<Project>, f: Field, needle: string): (r: seq<Project>)
    ensures forall i :: 0 <= i < |r| ==> Passes(r[i], f, needle)
    ensures forall x :: multiset(r)[x] == if Passes(x, f, needle) then multiset(s)[x] else 0
    ensures IsSubsequence(r, s)
  {
    if s == [] then []
    else
      assert s == [s[0]] + s[1..];
      var rest := Filter(s[1..], f, needle);
      if Passes(s[0], f, needle) then [s[0]] + rest else rest
  }

  // ---------------------------------------------------------------------------
  // Sorting by `id`, `title` or `owner`
  // ---------------------------------------------------------------------------

  datatype SortKey = ById | ByTitle | ByOwner

  /** The recognised values of the `order` parameter; any other leaves the order alone. */
  function KeyOf(order: string): Option<SortKey>
  {
    if order == "id" then Some(ById)
    else if order == "title" then Some(ByTitle)
    else if order == "owner" then Some(ByOwner)
    else None
  }

  /** `a` may come before `b` in ascending order of key `k`. */
  predicate Le(k: SortKey, a: Project, b: Project)
  {
    match k
    case ById => a.id <= b.id
    case ByTitle => StrLe(a.title, b.title)
    case ByOwner => StrLe(a.owner, b.owner)
  }

  lemma LeTotal(k: SortKey, a: Project, b: Project)
    ensures Le(k, a, b) || Le(k, b, a)
  {
    match k
    case ById =>
    case ByTitle => StrLeTotal(a.title, b.title);
    case ByOwner => StrLeTotal(a.owner, b.owner);
  }

  lemma LeTransitive(k: SortKey, a: Project, b: Project, c: Project)
    requires Le(k, a, b) && Le(k, b, c)
    ensures Le(k, a, c)
  {
    match k
    case ById =>
    case ByTitle => StrLeTransitive(a.title, b.title, c.title);
    case ByOwner => StrLeTransitive(a.owner, b.owner, c.owner);
  }

  ghost predicate Sorted(k: SortKey, s: seq<Project>)
  {
    forall i, j :: 0 <= i < j < |s| ==> Le(k, s[i], s[j])
  }

  /** Inserts `x` before the first element it may precede. */
  function Insert(k: SortKey, x: Project, s: seq<Project>): seq<Project>
  {
    if s == [] then [x]
    else if Le(k, x, s[0]) then [x] + s
    else [s[0]] + Insert(k, x, s[1..])
  }

  /** Reference sort: insertion sort, ascending by `k`. */
  function Sort(k: SortKey, s: seq<Project>): seq<Project>
  {
    if s == [] then [] else Insert(k, s[0], Sort(k, s[1..]))
  }

  lemma {:induction false} InsertPermutes(k: SortKey, x: Project, s: seq<Project>)
    ensures multiset(Insert(k, x, s)) == multiset(s) + multiset{x}
  {
    if s != [] && !Le(k, x, s[0]) {
      InsertPermutes(k, x, s[1..]);
      assert s == [s[0]] + s[1..];
    }
  }

  lemma {:induction false} InsertSorted(k: SortKey, x: Project, s: seq<Project>)
    requires Sorted(k, s)
    ensures Sorted(k, Insert(k, x, s))
  {
    if s == [] {
    } else if Le(k, x, s[0]) {
      forall j | 0 <= j < |s| ensures Le(k, x, s[j]) {
        if j > 0 { LeTransitive(k, x, s[0], s[j]); }
      }
    } else {
      LeTotal(k, x, s[0]);
      InsertSorted(k, x, s[1..]);
      InsertPermutes(k, x, s[1..]);
      var t := Insert(k, x, s[1..]);
      forall j | 0 <= j < |t| ensures Le(k, s[0], t[j]) {
        assert t[j] in multiset(t);
        assert t[j] == x || t[j] in multiset(s[1..]);
        if t[j] != x {
          var m :| 0 <= m < |s[1..]| && s[1..][m] == t[j];
          assert s[m + 1] == t[j];
        }
      }
    }
  }

  /** The sort yields an ascending permutation of its input. */
  lemma {:induction false} SortSortsAndPermutes(k: SortKey, s: seq<Project>)
    ensures Sorted(k, Sort(k, s))
    ensures multiset(Sort(k, s)) == multiset(s)
  {
    if s != [] {
      SortSortsAndPermutes(k, s[1..]);
      InsertSorted(k, s[0], Sort(k, s[1..]));
      InsertPermutes(k, s[0], Sort(k, s[1..]));
      assert s == [s[0]] + s[1..];
    }
  }

  /** Sorting an already ascending sequence leaves it as it is. */
  lemma {:induction false} SortOfSorted(k: SortKey, s: seq<Project>)
    requires Sorted(k, s)
    ensures Sort(k, s) == s
  {
    if s != [] {
      SortOfSorted(k, s[1..]);
      assert s == [s[0]] + s[1..];
    }
  }

  // ---------------------------------------------------------------------------
  // Pagination (`slice(start, end)` with ECMAScript index clamping)
  // ---------------------------------------------------------------------------

  /** How `Array.prototype.slice` turns a relative index into a position:
      a negative one counts from the end, and both are clamped to `[0, len]`. */
  function Clamp(rel: int, len: nat): (k: nat)
    ensures k <= len
  {
    if rel < 0 then (if len + rel < 0 then 0 else len + rel)
    else if rel < len then rel else len
  }

  function Slice<T>(s: seq<T>, start: int, end: int): seq<T>
  {
    var lo := Clamp(start, |s|);
    var hi := Clamp(end, |s|);
    if lo < hi then s[lo..hi] else []
  }

  /** `slice` with a negative start takes that many records from the end, an
      end past the length stops at the length, and a window whose end does
      not lie after its start is empty. */
  lemma SliceCounts<T>(s: seq<T>, start: int, end: int)
    ensures 0 < -start <= |s| && |s| <= end ==> Slice(s, start, end) == s[|s| + start..]
    ensures 0 <= start <= |s| <= end ==> Slice(s, start, end) == s[start..]
    ensures 0 <= end <= start ==> Slice(s, start, end) == []
  {
  }

  /** The page arithmetic of the list handler: `start = (page - 1) * pagesize`,
      `end = start + pagesize`. An absent `pagesize` makes both NaN, which
      `slice` reads as 0, so the page is empty. */
  function Paginate(s: seq<Project>, page: int, pagesize: Option<int>): seq<Project>
  {
    match pagesize
    case None => []
    case Some(size) =>
      var start := (page - 1) * size;
      Slice(s, start, start + size)
  }

  function Min(a: int, b: int): int { if a < b then a else b }

  /** Positions `[(page - 1) * size, page * size)` of `s`, cut to its length. */
  function Window(s: seq<Project>, page: int, size: int): (w: seq<Project>)
    requires page >= 1 && size >= 0
    ensures |w| <= size
  {
    var start := (page - 1) * size;
    assert 0 <= start && start + size == page * size;
    s[Min(start, |s|)..Min(start + size, |s|)]
  }

  /** For `page >= 1` and `pagesize >= 0` the page is exactly the window
      `[(page - 1) * pagesize, page * pagesize)` cut to the sequence. */
  lemma PageWindow(s: seq<Project>, page: int, size: int)
    requires page >= 1 && size >= 0
    ensures Paginate(s, page, Some(size)) == Window(s, page, size)
  {
    var start := (page - 1) * size;
    assert 0 <= start;
  }

  /** Pages 1 to n, one after the other. */
  function Pages(s: seq<Project>, size: int, n: nat): seq<Project>
  {
    if n == 0 then [] else Pages(s, size, n - 1) + Paginate(s, n, Some(size))
  }

  /** Reading pages 1, 2, ..., n in turn returns the first `n * pagesize`
      records in order, without gaps or repeats. */
  lemma {:induction false} PagesArePrefix(s: seq<Project>, size: nat, n: nat)
    ensures Pages(s, size, n) == s[..Min(n * size, |s|)]
  {
    if n > 0 {
      MulSucc(n - 1, size);
      PagesArePrefix(s, size, n - 1);
      PageWindow(s, n, size);
      PrefixThenWindow(s, (n - 1) * size, n * size);
    }
  }

  lemma PrefixThenWindow(s: seq<Project>, a: int, b: int)
    requires 0 <= a <= b
    ensures s[..Min(a, |s|)] + s[Min(a, |s|)..Min(b, |s|)] == s[..Min(b, |s|)]
  {
  }

  lemma MulSucc(m: nat, size: nat)
    ensures m * size + size == (m + 1) * size
    ensures 0 <= m * size <= (m + 1) * size
  {
  }

  // ---------------------------------------------------------------------------
  // The list query pipeline (`GET /projects`)
  // ---------------------------------------------------------------------------

  /** `page` as the query parser hands it over: a number, or a string that is not one. */
  datatype PageArg = Number(n: int) | NotNumeric

  datatype Query = Query(
    title: Option<string>,
    owner: Option<string>,
    order: Option<string>,
    direction: Option<string>,
    page: Option<PageArg>,
    pagesize: Option<int>)

  /** `if (page)`: the number 0 is falsy, a non-empty non-numeric string is truthy. */
  predicate PageGiven(p: Option<PageArg>)
  {
    p.Some? && (p.value.NotNumeric? || p.value.n != 0)
  }

  /** The direction after defaulting a falsy one to "asc". */
  function Direction(q: Query): string
  {
    if Given(q.direction) then q.direction.value else "asc"
  }

  predicate DirectionRejected(q: Query)
  {
    Given(q.order) && Direction(q) != "asc" && Direction(q) != "desc"
  }

  /** Neither filter applies, so the handler works on the stored array itself. */
  predicate Unfiltered(q: Query)
  {
    !Given(q.title) && !Given(q.owner)
  }

  /** The title filter, then the owner filter, each only when its parameter is truthy. */
  function Filtered(s: seq<Project>, q: Query): seq<Project>
  {
    var byTitle := if Given(q.title) then Filter(s, TitleField, q.title.value) else s;
    if Given(q.owner) then Filter(byTitle, OwnerField, q.owner.value) else byTitle
  }

  /** The key the query sorts by, if `order` is truthy and recognised. */
  function SortKeyOf(q: Query): Option<SortKey>
  {
    if Given(q.order) then KeyOf(q.order.value) else None
  }

  /** The filtered records, sorted when the query names a known key. */
  function Ordered(s: seq<Project>, q: Query): seq<Project>
  {
    match SortKeyOf(q)
    case None => Filtered(s, q)
    case Some(k) => Sort(k, Filtered(s, q))
  }

  /** The answer to a list query together with the stored collection afterwards. */
  datatype Listing = Listing(response: Response<seq<Project>>, store: seq<Project>)

  /** `GET /projects`: filter, then check the direction and sort, then paginate.
      The sort happens in place, so when no filter made a copy the stored
      collection comes back sorted, even when page validation then fails. */
  function ListQuery(stored: seq<Project>, q: Query): Listing
  {
    if DirectionRejected(q) then Listing(BadRequest(DIRECTION_MESSAGE), stored)
    else
      var ordered := Ordered(stored, q);
      var store := if Unfiltered(q) then ordered else stored;
      if !PageGiven(q.page) then Listing(Ok(ordered), store)
      else if q.page.value.NotNumeric? then Listing(BadRequest(PAGE_MESSAGE), store)
      else Listing(Ok(Paginate(ordered, q.page.value.n, q.pagesize)), store)
  }

  lemma SliceIsPart(s: seq<Project>, start: int, end: int)
    ensures forall x :: x in Slice(s, start, end) ==> x in s
  {
    var lo := Clamp(start, |s|);
    var hi := Clamp(end, |s|);
    if lo < hi {
      forall x | x in s[lo..hi] ensures x in s {
        var m :| 0 <= m < hi - lo && s[lo..hi][m] == x;
        assert s[lo + m] == x;
      }
    }
  }

  lemma FilteredPasses(s: seq<Project>, q: Query)
    ensures forall x :: x in Filtered(s, q) ==> x in s
    ensures forall x :: x in Filtered(s, q) && Given(q.title) ==> Contains(x.title, q.title.value)
    ensures forall x :: x in Filtered(s, q) && Given(q.owner) ==> Contains(x.owner, q.owner.value)
  {
    var byTitle := if Given(q.title) then Filter(s, TitleField, q.title.value) else s;
    forall x | x in byTitle
      ensures x in s && (Given(q.title) ==> Contains(x.title, q.title.value))
    {
      assert x in multiset(byTitle);
    }
    forall x | x in Filtered(s, q)
      ensures x in byTitle && (Given(q.owner) ==> Contains(x.owner, q.owner.value))
    {
      assert x in multiset(Filtered(s, q));
    }
  }

  lemma OrderedPermutes(s: seq<Project>, q: Query)
    ensures multiset(Ordered(s, q)) == multiset(Filtered(s, q))
    ensures SortKeyOf(q).Some? ==> Sorted(SortKeyOf(q).value, Ordered(s, q))
  {
    if SortKeyOf(q).Some? {
      SortSortsAndPermutes(SortKeyOf(q).value, Filtered(s, q));
    }
  }

  /** Every record a successful list returns is a stored record holding the
      `title` query in its title and the `owner` query in its owner. */
  lemma {:induction false} ListMatchesFilters(stored: seq<Project>, q: Query)
    ensures var r := ListQuery(stored, q).response;
      r.Ok? ==> forall x :: x in r.value ==>
        x in stored
        && (Given(q.title) ==> Contains(x.title, q.title.value))
        && (Given(q.owner) ==> Contains(x.owner, q.owner.value))
  {
    var r := ListQuery(stored, q).response;
    if r.Ok? {
      FilteredPasses(stored, q);
      OrderedPermutes(stored, q);
      var ordered := Ordered(stored, q);
      forall x | x in ordered ensures x in Filtered(stored, q) {
        assert x in multiset(ordered);
      }
      if PageGiven(q.page) && q.pagesize.Some? {
        var n, size := q.page.value.n, q.pagesize.value;
        SliceIsPart(ordered, (n - 1) * size, (n - 1) * size + size);
      }
    }
  }

  /** Without paging, a list returns exactly the passing records, each as
      often as it is stored, whether or not it sorts them. */
  lemma ListKeepsAllMatches(stored: seq<Project>, q: Query)
    requires !DirectionRejected(q) && !PageGiven(q.page)
    ensures var r := ListQuery(stored, q).response;
      && r.Ok?
      && (forall x :: multiset(r.value)[x] ==
            if (Given(q.title) ==> Contains(x.title, q.title.value))
               && (Given(q.owner) ==> Contains(x.owner, q.owner.value))
            then multiset(stored)[x] else 0)
  {
    OrderedPermutes(stored, q);
  }

  /** A subsequence of a subsequence of `s` is a subsequence of `s`. */
  lemma {:induction false} SubsequenceTransitive(a: seq<Project>, b: seq<Project>, c: seq<Project>)
    requires IsSubsequence(a, b) && IsSubsequence(b, c)
    ensures IsSubsequence(a, c)
    decreases |c|
  {
    if a != [] {
      assert c != [];
      if b[0] == c[0] {
        if a[0] == b[0] {
          SubsequenceTransitive(a[1..], b[1..], c[1..]);
        } else {
          SubsequenceTransitive(a, b[1..], c[1..]);
          SubsequenceSkip(a, c);
        }
      } else {
        SubsequenceTransitive(a, b, c[1..]);
        SubsequenceSkip(a, c);
      }
    }
  }

  /** Matching against a sequence that starts with one more element keeps a subsequence one. */
  lemma {:induction false} SubsequenceSkip(a: seq<Project>, c: seq<Project>)
    requires c != [] && IsSubsequence(a, c[1..])
    ensures IsSubsequence(a, c)
    decreases |c|, 1
  {
    if a != [] && a[0] == c[0] {
      SubsequenceTail(a, c[1..]);
    }
  }

  /** Dropping the head of a subsequence keeps a subsequence. */
  lemma {:induction false} SubsequenceTail(a: seq<Project>, c: seq<Project>)
    requires a != [] && IsSubsequence(a, c)
    ensures IsSubsequence(a[1..], c)
    decreases |c|, 2
  {
    assert c != [];
    if a[0] == c[0] {
      SubsequenceSkip(a[1..], c);
    } else {
      SubsequenceTail(a, c[1..]);
      SubsequenceSkip(a[1..], c);
    }
  }

  /** With no sort applied, a list keeps the stored relative order, with or
      without paging; without a page it always succeeds. */
  lemma ListKeepsStoredOrder(stored: seq<Project>, q: Query)
    requires !DirectionRejected(q) && SortKeyOf(q).None?
    ensures !PageGiven(q.page) ==> ListQuery(stored, q).response.Ok?
    ensures var r := ListQuery(stored, q).response;
      r.Ok? ==> IsSubsequence(r.value, stored)
  {
    var byTitle := if Given(q.title) then Filter(stored, TitleField, q.title.value) else stored;
    SubsequenceReflexive(stored);
    SubsequenceReflexive(byTitle);
    SubsequenceTransitive(Filtered(stored, q), byTitle, stored);
    if PageGiven(q.page) && q.page.value.Number? && q.pagesize.Some? {
      var n, size := q.page.value.n, q.pagesize.value;
      var page := Slice(Filtered(stored, q), (n - 1) * size, (n - 1) * size + size);
      SliceIsSubsequence(Filtered(stored, q), (n - 1) * size, (n - 1) * size + size);
      SubsequenceTransitive(page, Filtered(stored, q), stored);
    }
  }

  /** A page cut by `slice` keeps the order of the sequence it is cut from. */
  lemma SliceIsSubsequence(s: seq<Project>, start: int, end: int)
    ensures IsSubsequence(Slice(s, start, end), s)
  {
    var lo := Clamp(start, |s|);
    var hi := Clamp(end, |s|);
    if lo < hi {
      SegmentIsSubsequence(s, lo, hi);
    }
  }

  lemma {:induction false} SegmentIsSubsequence(s: seq<Project>, lo: nat, hi: nat)
    requires lo <= hi <= |s|
    ensures IsSubsequence(s[lo..hi], s)
    decreases |s|
  {
    if lo > 0 {
      SegmentIsSubsequence(s[1..], lo - 1, hi - 1);
      assert s[1..][lo - 1..hi - 1] == s[lo..hi];
      SubsequenceSkip(s[lo..hi], s);
    } else if hi > 0 {
      SegmentIsSubsequence(s[1..], 0, hi - 1);
      assert s[..hi][1..] == s[1..][0..hi - 1];
    }
  }

  lemma {:induction false} SubsequenceReflexive(s: seq<Project>)
    ensures IsSubsequence(s, s)
  {
    if s != [] { SubsequenceReflexive(s[1..]); }
  }

  /** With `order` truthy, the direction is checked after defaulting a falsy
      one to "asc", and a value other than "asc" or "desc" is a 400 that
      leaves the stored collection alone. Without `order` it is never checked. */
  lemma ListDirectionCheck(stored: seq<Project>, q: Query)
    ensures ListQuery(stored, q).response == BadRequest(DIRECTION_MESSAGE)
            <==> Given(q.order) && Given(q.direction)
                 && q.direction.value != "asc" && q.direction.value != "desc"
    ensures DirectionRejected(q) ==> ListQuery(stored, q).store == stored
    ensures !Given(q.order) ==> forall d :: ListQuery(stored, q) == ListQuery(stored, q.(direction := d))
  {
  }

  /** Every accepted direction means the same: `direction=desc` is checked
      and then ignored, and a falsy direction defaults to "asc", so all three
      give the answer and the new store of `direction=asc`. */
  lemma DescendingIsAscending(stored: seq<Project>, q: Query)
    ensures ListQuery(stored, q.(direction := Some("desc"))) == ListQuery(stored, q.(direction := Some("asc")))
    ensures ListQuery(stored, q.(direction := None)) == ListQuery(stored, q.(direction := Some("asc")))
    ensures ListQuery(stored, q.(direction := Some(""))) == ListQuery(stored, q.(direction := Some("asc")))
  {
    var asc := q.(direction := Some("asc"));
    OnlyRejectionReadsDirection(stored, q.(direction := Some("desc")), asc);
    OnlyRejectionReadsDirection(stored, q.(direction := None), asc);
    OnlyRejectionReadsDirection(stored, q.(direction := Some("")), asc);
  }

  /** Past the direction check, the direction plays no part in a list. */
  lemma OnlyRejectionReadsDirection(stored: seq<Project>, q1: Query, q2: Query)
    requires q1.(direction := None) == q2.(direction := None)
    requires DirectionRejected(q1) == DirectionRejected(q2)
    ensures ListQuery(stored, q1) == ListQuery(stored, q2)
  {
    assert Filtered(stored, q1) == Filtered(stored, q2);
    assert SortKeyOf(q1) == SortKeyOf(q2);
    assert Ordered(stored, q1) == Ordered(stored, q2);
  }

  /** A successful list with a known `order` is ascending by that key,
      whatever the direction, also when it is one page of the result. */
  lemma {:induction false} ListSortedByKey(stored: seq<Project>, q: Query, k: SortKey)
    requires SortKeyOf(q) == Some(k)
    ensures var r := ListQuery(stored, q).response;
      r.Ok? ==> Sorted(k, r.value)
  {
    OrderedPermutes(stored, q);
    var ordered := Ordered(stored, q);
    if PageGiven(q.page) && q.page.value.Number? && q.pagesize.Some? {
      var n, size := q.page.value.n, q.pagesize.value;
      var lo := Clamp((n - 1) * size, |ordered|);
      var hi := Clamp((n - 1) * size + size, |ordered|);
      if lo < hi {
        var w := ordered[lo..hi];
        forall i, j | 0 <= i < j < |w| ensures Le(k, w[i], w[j]) {
          assert w[i] == ordered[lo + i] && w[j] == ordered[lo + j];
        }
      }
    }
  }

  /** A list reorders the stored collection exactly when no filter applies,
      the direction passes and `order` names a known key; otherwise the store
      is unchanged. It never adds or loses a stored record. */
  lemma ListStoreEffect(stored: seq<Project>, q: Query)
    ensures ListQuery(stored, q).store ==
      if Unfiltered(q) && !DirectionRejected(q) && SortKeyOf(q).Some?
      then Sort(SortKeyOf(q).value, stored) else stored
    ensures multiset(ListQuery(stored, q).store) == multiset(stored)
  {
    var listing := ListQuery(stored, q);
    if !DirectionRejected(q) && Unfiltered(q) {
      assert Filtered(stored, q) == stored;
      assert listing.store == Ordered(stored, q);
      OrderedPermutes(stored, q);
    } else {
      assert listing.store == stored;
    }
  }

  /** A truthy `page` that is not a number is a 400; a numeric one with an
      absent `pagesize` gives an empty page. */
  lemma ListPageChecked(stored: seq<Project>, q: Query)
    requires !DirectionRejected(q) && PageGiven(q.page)
    ensures var r := ListQuery(stored, q).response;
      && (q.page.value.NotNumeric? <==> r == BadRequest(PAGE_MESSAGE))
      && (q.pagesize.None? && q.page.value.Number? ==> r == Ok([]))
  {
  }

  /** A numeric `page >= 1` with `pagesize >= 0` returns the window
      `[(page - 1) * pagesize, min(len, page * pagesize))` of the filtered and
      sorted records. */
  lemma ListPageWindow(stored: seq<Project>, q: Query, page: int, size: int)
    requires !DirectionRejected(q)
    requires q.page == Some(Number(page)) && page >= 1
    requires q.pagesize == Some(size) && size >= 0
    ensures ListQuery(stored, q).response == Ok(Window(Ordered(stored, q), page, size))
  {
    var ordered := Ordered(stored, q);
    assert ListQuery(stored, q).response == Ok(Paginate(ordered, page, Some(size)));
    PageWindow(ordered, page, size);
  }
}
