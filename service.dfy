/** The service's state: the in-memory `app.projects` array of src/index.js,
    seeded at startup, and the six `/projects` handlers as methods on it. */
module Service {
  import opened Text
  import opened Collection

  const SEED_COUNT := 30

  /** The i-th record the startup loop pushes. */
  function SeedRecord(i: nat): Project
  {
    Project(i, "Project " + NatToString(i), "Owner " + NatToString(i))
  }

  /** `s` is the collection as the startup loop leaves it. */
  ghost predicate Seeded(s: seq<Project>)
  {
    |s| == SEED_COUNT && forall k :: 0 <= k < |s| ==> s[k] == SeedRecord(k + 1)
  }

  /** The seeded ids are 1 to 30 in increasing order: they are unique, the
      collection is ascending by id, and sorting it by id changes nothing. */
  lemma SeedFacts(s: seq<Project>)
    requires Seeded(s)
    ensures UniqueIds(s) && Sorted(ById, s) && Sort(ById, s) == s
  {
    SortOfSorted(ById, s);
  }

  /** The PATCH merge loop: every body field except `id` is copied onto the record. */
  method MergeFields(p: Project, body: seq<BodyField>) returns (q: Project)
    ensures Merged(p, body, q)
  {
    q := p;
    var i := 0;
    while i < |body|
      invariant 0 <= i <= |body|
      invariant q.id == p.id
      invariant (forall k :: 0 <= k < i ==> !body[k].SetTitle?) ==> q.title == p.title
      invariant forall k :: 0 <= k < i && body[k].SetTitle? && (forall m :: k < m < i ==> !body[m].SetTitle?)
                  ==> q.title == body[k].title
      invariant (forall k :: 0 <= k < i ==> !body[k].SetOwner?) ==> q.owner == p.owner
      invariant forall k :: 0 <= k < i && body[k].SetOwner? && (forall m :: k < m < i ==> !body[m].SetOwner?)
                  ==> q.owner == body[k].owner
    {
      match body[i] {
        case SetId(_) =>
        case SetTitle(t) => q := q.(title := t);
        case SetOwner(o) => q := q.(owner := o);
      }
      i := i + 1;
    }
  }

  class ProjectStore {
    var projects: seq<Project>

    /** Startup: push records 1 to 30, titled "Project i" and owned by "Owner i". */
    constructor ()
      ensures Seeded(projects)
    {
      projects := [];
      new;
      var i := 1;
      while i <= SEED_COUNT
        invariant 1 <= i <= SEED_COUNT + 1
        invariant |projects| == i - 1
        invariant forall k :: 0 <= k < i - 1 ==> projects[k] == SeedRecord(k + 1)
      {
        projects := projects + [SeedRecord(i)];
        i := i + 1;
      }
    }

    /** `GET /projects`: answers the query, and sorts the stored collection
        itself when the list it sorts is that collection. */
    method List(q: Query) returns (r: Response<seq<Project>>)
      modifies this
      ensures Listing(r, projects) == ListQuery(old(projects), q)
    {
      var result := projects;
      var aliased := true;
      if Given(q.title) {
        result := Filter(result, TitleField, q.title.value);
        aliased := false;
      }
      if Given(q.owner) {
        result := Filter(result, OwnerField, q.owner.value);
        aliased := false;
      }
      if Given(q.order) {
        var direction := if Given(q.direction) then q.direction.value else "asc";
        if direction != "asc" && direction != "desc" {
          return BadRequest(DIRECTION_MESSAGE);
        }
        match KeyOf(q.order.value)
        case None =>
        case Some(k) =>
          result := Sort(k, result);
          if aliased {
            projects := result;
          }
      }
      if PageGiven(q.page) {
        match q.page.value
        case NotNumeric =>
          return BadRequest(PAGE_MESSAGE);
        case Number(page) =>
          result := Paginate(result, page, q.pagesize);
      }
      r := Ok(result);
    }

    /** `GET /projects/:id`: the first record with that id, or not found. */
    method Get(id: int) returns (r: Response<Project>)
      ensures FindIndex(projects, id).None? ==> r == NotFound
      ensures FindIndex(projects, id).Some? ==> r == Ok(projects[FindIndex(projects, id).value])
    {
      var i := FindIndex(projects, id);
      if i.None? {
        return NotFound;
      }
      r := Ok(projects[i.value]);
    }

    /** `POST /projects`: appends a record numbered one past the current length. */
    method Create(title: string, owner: string) returns (p: Project)
      modifies this
      ensures p == Project(|old(projects)| + 1, title, owner)
      ensures projects == old(projects) + [p]
    {
      p := Project(|projects| + 1, title, owner);
      projects := projects + [p];
    }

    /** `PUT /projects/:id`: the lookup comes first, then both fields must be
        truthy, then the matched position holds a new record with the path's id. */
    method Replace(id: int, title: Option<string>, owner: Option<string>) returns (r: Response<Project>)
      modifies this
      ensures FindIndex(old(projects), id).None? ==> r == NotFound && projects == old(projects)
      ensures FindIndex(old(projects), id).Some? && !(Given(title) && Given(owner)) ==>
        r == BadRequest(REQUIRED_MESSAGE) && projects == old(projects)
      ensures FindIndex(old(projects), id).Some? && Given(title) && Given(owner) ==>
        && r == Ok(Project(id, title.value, owner.value))
        && projects == old(projects)[FindIndex(old(projects), id).value := r.value]
    {
      var i := FindIndex(projects, id);
      if i.None? {
        return NotFound;
      }
      if !Given(title) || !Given(owner) {
        return BadRequest(REQUIRED_MESSAGE);
      }
      var p := Project(id, title.value, owner.value);
      projects := projects[i.value := p];
      r := Ok(p);
    }

    /** `PATCH /projects/:id`: merges the body into the matched record, never its id. */
    method Patch(id: int, body: seq<BodyField>) returns (r: Response<Project>)
      modifies this
      ensures FindIndex(old(projects), id).None? ==> r == NotFound && projects == old(projects)
      ensures FindIndex(old(projects), id).Some? ==>
        var i := FindIndex(old(projects), id).value;
        && r.Ok?
        && r.value.id == id
        && Merged(old(projects)[i], body, r.value)
        && projects == old(projects)[i := r.value]
    {
      var i := FindIndex(projects, id);
      if i.None? {
        return NotFound;
      }
      var p := MergeFields(projects[i.value], body);
      projects := projects[i.value := p];
      r := Ok(p);
    }

    /** `DELETE /projects/:id`: splices out the first record with that id. */
    method Delete(id: int) returns (r: Response<()>)
      modifies this
      ensures FindIndex(old(projects), id).None? ==> r == NotFound && projects == old(projects)
      ensures FindIndex(old(projects), id).Some? ==>
        var i := FindIndex(old(projects), id).value;
        r == Ok(()) && projects == old(projects)[..i] + old(projects)[i + 1..]
    {
      var i := FindIndex(projects, id);
      if i.None? {
        return NotFound;
      }
      projects := projects[..i.value] + projects[i.value + 1..];
      r := Ok(());
    }
  }

  /** On a freshly started service a POST gets id 31. */
  method CreateOnFreshService(title: string, owner: string) returns (p: Project)
    ensures p == Project(31, title, owner)
  {
    var store := new ProjectStore();
    p := store.Create(title, owner);
  }

  /** `order=id&direction=desc` on a freshly started service lists the records
      ascending, id 1 first: the direction is checked and then not used. */
  method DescendingByIdOnFreshService() returns (r: Response<seq<Project>>)
    ensures r.Ok? && |r.value| == SEED_COUNT && r.value[0].id == 1 && r.value[SEED_COUNT - 1].id == SEED_COUNT
  {
    var store := new ProjectStore();
    SeedFacts(store.projects);
    r := store.List(Query(None, None, Some("id"), Some("desc"), None, None));
  }

  /** Deleting record 1 and then creating one hands out id 30 a second time;
      a lookup of 30 then finds the seeded record, not the new one. */
  method IdCollisionAfterDelete(title: string, owner: string)
    returns (created: Project, found: Response<Project>, after: seq<Project>)
    ensures created == Project(30, title, owner)
    ensures found == Ok(SeedRecord(30))
    ensures |after| == SEED_COUNT
    ensures after[|after| - 1] == created && after[|after| - 2].id == created.id
    ensures !UniqueIds(after)
  {
    var store := new ProjectStore();
    var deleted := store.Delete(1);
    created := store.Create(title, owner);
    found := store.Get(30);
    after := store.projects;
    assert after[28] == SeedRecord(30);
  }

  /** With unique ids a second DELETE of the same id is a 404. */
  method DeleteTwiceOnFreshService(id: int) returns (first: Response<()>, second: Response<()>)
    requires 1 <= id <= SEED_COUNT
    ensures first == Ok(()) && second == NotFound
  {
    var store := new ProjectStore();
    SeedFacts(store.projects);
    assert store.projects[id - 1].id == id;
    ghost var before := store.projects;
    first := store.Delete(id);
    RemovedIdIsGone(before, id, id - 1);
    second := store.Delete(id);
  }
}
