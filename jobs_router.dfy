/** The two handlers of app/routers/jobs.py. `/page` counts the live
    (non-expired) jobs, serves the requested page of them, newest first,
    when it exists, and projects each row in a loop; `/{job_id}` returns one
    live job. The job table is a sequence of rows in storage order, the
    database's filtering, ordering and `paginate` are the functions below,
    and `to_schema(JobSchema)` is a parameter `project` that may fail. */
module JobsRouter {
  import opened Base
  import opened Validators

  /** The columns of a job row the handlers read. */
  datatype JobRow = JobRow(id: int, createdOn: int, expired: bool)

  /** `.where(Job.expired == False)`, in storage order. */
  function Live(table: seq<JobRow>): (r: seq<JobRow>)
    ensures |r| <= |table|
    ensures forall j :: j in r <==> j in table && !j.expired
  {
    if table == [] then []
    else (if table[0].expired then [] else [table[0]]) + Live(table[1..])
  }

  /** The filter keeps every live row as often as the table holds it and
      no expired row, so the live count is the number of live rows. */
  lemma {:induction false} LiveMultiplicity(table: seq<JobRow>, j: JobRow)
    ensures multiset(Live(table))[j] == if j.expired then 0 else multiset(table)[j]
    decreases |table|
  {
    if table != [] {
      LiveMultiplicity(table[1..], j);
      assert table == [table[0]] + table[1..];
    }
  }

  /** One row is kept exactly when it is not expired. */
  lemma LiveSingle(j: JobRow)
    ensures Live([j]) == if j.expired then [] else [j]
  {
    assert [j][1..] == [];
  }

  /** The filter keeps storage order: the live rows of two runs of rows are
      the live rows of the first followed by those of the second. */
  lemma {:induction false} LiveAppend(a: seq<JobRow>, b: seq<JobRow>)
    ensures Live(a + b) == Live(a) + Live(b)
    decreases |a|
  {
    if a != [] {
      var head := if a[0].expired then [] else [a[0]];
      LiveAppend(a[1..], b);
      assert (a + b)[1..] == a[1..] + b;
      calc {
        Live(a + b);
        head + Live(a[1..] + b);
        head + (Live(a[1..]) + Live(b));
        (head + Live(a[1..])) + Live(b);
        Live(a) + Live(b);
      }
    } else {
      assert a + b == b;
    }
  }

  // ---------------------------------------------------------------------
  // .order_by(-Job.created_on)

  predicate NewestFirst(xs: seq<JobRow>)
  {
    forall i, j :: 0 <= i < j < |xs| ==> xs[i].createdOn >= xs[j].createdOn
  }

  /** Puts `x` in front of the first row that is not newer. */
  function Insert(x: JobRow, xs: seq<JobRow>): seq<JobRow>
  {
    if xs == [] || x.createdOn >= xs[0].createdOn then [x] + xs
    else [xs[0]] + Insert(x, xs[1..])
  }

  /** The rows newest first; rows created at the same moment keep their
      storage order. */
  function SortNewest(xs: seq<JobRow>): seq<JobRow>
  {
    if xs == [] then [] else Insert(xs[0], SortNewest(xs[1..]))
  }

  lemma {:induction false} InsertPermutes(x: JobRow, xs: seq<JobRow>)
    ensures multiset(Insert(x, xs)) == multiset{x} + multiset(xs)
    decreases |xs|
  {
    if xs != [] && x.createdOn < xs[0].createdOn {
      InsertPermutes(x, xs[1..]);
      assert xs == [xs[0]] + xs[1..];
    }
  }

  lemma {:induction false} InsertSorted(x: JobRow, xs: seq<JobRow>)
    requires NewestFirst(xs)
    ensures NewestFirst(Insert(x, xs))
    decreases |xs|
  {
    if xs != [] && x.createdOn < xs[0].createdOn {
      var rest := Insert(x, xs[1..]);
      InsertSorted(x, xs[1..]);
      InsertPermutes(x, xs[1..]);
      forall k | 0 <= k < |rest|
        ensures rest[k].createdOn <= xs[0].createdOn
      {
        assert rest[k] in multiset(rest);
        assert rest[k] == x || rest[k] in multiset(xs[1..]);
        if rest[k] != x {
          var m :| 0 <= m < |xs[1..]| && xs[1..][m] == rest[k];
          assert xs[m + 1] == rest[k];
        }
      }
      assert Insert(x, xs) == [xs[0]] + rest;
    }
  }

  /** The served order is newest first and holds exactly the given rows. */
  lemma {:induction false} SortNewestCorrect(xs: seq<JobRow>)
    ensures NewestFirst(SortNewest(xs))
    ensures multiset(SortNewest(xs)) == multiset(xs)
    decreases |xs|
  {
    if xs != [] {
      SortNewestCorrect(xs[1..]);
      InsertSorted(xs[0], SortNewest(xs[1..]));
      InsertPermutes(xs[0], SortNewest(xs[1..]));
      assert xs == [xs[0]] + xs[1..];
    }
  }

  // ---------------------------------------------------------------------
  // counting and paginating

  /** `ceil(jobs_count / per_page)`. */
  function PageCount(count: nat, perPage: int): nat
    requires perPage >= 1
  {
    (count + perPage - 1) / perPage
  }

  /** The page count is the ceiling: the last page is reached and not
      passed. */
  lemma PageCountIsCeiling(count: nat, perPage: int)
    requires perPage >= 1
    ensures count == 0 ==> PageCount(count, perPage) == 0
    ensures count > 0 ==> (PageCount(count, perPage) - 1) * perPage < count <= PageCount(count, perPage) * perPage
  {
    var c := (count + perPage - 1) / perPage;
    var r := (count + perPage - 1) % perPage;
    assert count + perPage - 1 == c * perPage + r;
    assert (c - 1) * perPage == c * perPage - perPage;
  }

  /** `.paginate(page, per_page)`: `per_page` rows from offset
      `(page - 1) * per_page`, fewer at the end of the rows. */
  function Window<X>(xs: seq<X>, page: int, perPage: int): (w: seq<X>)
    requires page >= 1 && perPage >= 1
    ensures |w| <= perPage
    ensures |w| == if (page - 1) * perPage < |xs| then
      (if (page - 1) * perPage + perPage <= |xs| then perPage else |xs| - (page - 1) * perPage) else 0
    ensures forall k :: 0 <= k < |w| ==> (page - 1) * perPage + k < |xs| && w[k] == xs[(page - 1) * perPage + k]
    ensures (page - 1) * perPage < |xs| ==> |w| > 0
  {
    var lo := if (page - 1) * perPage < |xs| then (page - 1) * perPage else |xs|;
    var hi := if lo + perPage < |xs| then lo + perPage else |xs|;
    xs[lo..hi]
  }

  /** `[job.to_schema(JobSchema) for job in rows]`, failing on the first row
      whose projection fails. */
  function ProjectAll<T, E>(project: JobRow -> Result<T, E>, rows: seq<JobRow>): (r: Result<seq<T>, E>)
    ensures r.Ok? <==> forall i :: 0 <= i < |rows| ==> project(rows[i]).Ok?
    ensures r.Ok? ==> |r.value| == |rows| && forall i :: 0 <= i < |rows| ==> project(rows[i]) == Ok(r.value[i])
  {
    if rows == [] then Ok([])
    else
      var v :- project(rows[0]);
      var vs :- ProjectAll(project, rows[1..]);
      assert forall i :: 1 <= i < |rows| ==> rows[1..][i - 1] == rows[i];
      Ok([v] + vs)
  }

  // ---------------------------------------------------------------------
  // POST /page

  datatype PaginationMeta = PaginationMeta(totalCount: int, currentPage: int, pageCount: int, perPage: int)

  datatype JobsPage<T> = JobsPage(meta: PaginationMeta, jobs: seq<T>)

  /** The handler's answer once `count` jobs have been counted: `None`
      when the page is past the last one (the `HTTPException` is built but
      not raised, so the coroutine returns `None`), otherwise the meta and
      the projected window. */
  function PageFromCount<T, E>(count: nat, table: seq<JobRow>, req: PageRequest, project: JobRow -> Result<T, E>): Result<Option<JobsPage<T>>, E>
    requires ValidPageRequest(req)
  {
    var pages := PageCount(count, req.perPage);
    if req.page > pages then Ok(None)
    else
      var jobs :- ProjectAll(project, Window(SortNewest(Live(table)), req.page, req.perPage));
      Ok(Some(JobsPage(PaginationMeta(count, req.page, pages, req.perPage), jobs)))
  }

  /** `get_jobs` counting the live jobs, as the comparison with `False`
      evidently intends. */
  function JobsPageSpec<T, E>(table: seq<JobRow>, req: PageRequest, project: JobRow -> Result<T, E>): Result<Option<JobsPage<T>>, E>
    requires ValidPageRequest(req)
  {
    PageFromCount(|Live(table)|, table, req, project)
  }

  /** `get_jobs` as written: `Job.select(Job.expired == False)` selects the
      comparison as a column instead of filtering, so `count()` counts every
      row, expired ones included. */
  function JobsPageAsWritten<T, E>(table: seq<JobRow>, req: PageRequest, project: JobRow -> Result<T, E>): Result<Option<JobsPage<T>>, E>
    requires ValidPageRequest(req)
  {
    PageFromCount(|table|, table, req, project)
  }

  /** A table holding one expired job: as written the handler serves an
      empty first page claiming one job; counting live jobs serves nothing. */
  lemma ExpiredJobsCountedAsWritten<T, E>(project: JobRow -> Result<T, E>)
    ensures JobsPageAsWritten([JobRow(1, 0, true)], PageRequest(1, 30), project).Ok?
    ensures JobsPageAsWritten([JobRow(1, 0, true)], PageRequest(1, 30), project).value ==
      Some(JobsPage(PaginationMeta(1, 1, 1, 30), []))
    ensures JobsPageSpec([JobRow(1, 0, true)], PageRequest(1, 30), project).Ok?
    ensures JobsPageSpec([JobRow(1, 0, true)], PageRequest(1, 30), project).value.None?
  {
    var table := [JobRow(1, 0, true)];
    assert Live(table) == [];
    assert SortNewest([]) == [];
    assert Window<JobRow>([], 1, 30) == [];
    assert ProjectAll(project, []) == Ok([]);
  }

  ghost function Prepend<T, E>(done: seq<T>, rest: Result<seq<T>, E>): Result<seq<T>, E>
  {
    if rest.Ok? then Ok(done + rest.value) else rest
  }

  /** The `jobs.append(job.to_schema(JobSchema))` loop. */
  method ProjectEach<T(==), E(==)>(project: JobRow -> Result<T, E>, rows: seq<JobRow>) returns (r: Result<seq<T>, E>)
    ensures r == ProjectAll(project, rows)
  {
    var jobs: seq<T> := [];
    var i := 0;
    ghost var whole := ProjectAll(project, rows);
    assert whole.Ok? ==> jobs + whole.value == whole.value;
    while i < |rows|
      invariant 0 <= i <= |rows|
      invariant whole == Prepend(jobs, ProjectAll(project, rows[i..]))
    {
      assert rows[i..][1..] == rows[i + 1..];
      var job :- project(rows[i]);
      ghost var rest := ProjectAll(project, rows[i + 1..]);
      assert rest.Ok? ==> jobs + ([job] + rest.value) == (jobs + [job]) + rest.value;
      jobs := jobs + [job];
      i := i + 1;
    }
    assert rows[i..] == [];
    assert jobs + [] == jobs;
    return Ok(jobs);
  }

  /** The handler: count, compare, then project the window's rows. */
  method GetJobsPage<T(==), E(==)>(table: seq<JobRow>, req: PageRequest, project: JobRow -> Result<T, E>)
    returns (r: Result<Option<JobsPage<T>>, E>)
    requires ValidPageRequest(req)
    ensures r == JobsPageSpec(table, req, project)
  {
    var count := |Live(table)|;
    var pages := PageCount(count, req.perPage);
    if req.page > pages {
      return Ok(None);
    }
    var rows := Window(SortNewest(Live(table)), req.page, req.perPage);
    var jobs :- ProjectEach(project, rows);
    return Ok(Some(JobsPage(PaginationMeta(count, req.page, pages, req.perPage), jobs)));
  }

  /** The sorted live rows are live rows of the table. */
  lemma SortedLiveMembers(table: seq<JobRow>)
    ensures forall x :: x in SortNewest(Live(table)) ==> x in table && !x.expired
    ensures |SortNewest(Live(table))| == |Live(table)|
  {
    var live := Live(table);
    SortNewestCorrect(live);
    forall x | x in SortNewest(live)
      ensures x in live
    {
      assert x in multiset(SortNewest(live));
    }
    assert |SortNewest(live)| == |multiset(SortNewest(live))| == |multiset(live)| == |live|;
  }

  /** A window of rows in newest-first order is in newest-first order. */
  lemma WindowNewestFirst(xs: seq<JobRow>, page: int, perPage: int)
    requires page >= 1 && perPage >= 1 && NewestFirst(xs)
    ensures NewestFirst(Window(xs, page, perPage))
  {
    var rows := Window(xs, page, perPage);
    var off := (page - 1) * perPage;
    forall a, b | 0 <= a < b < |rows|
      ensures rows[a].createdOn >= rows[b].createdOn
    {
      assert rows[a] == xs[off + a] && rows[b] == xs[off + b];
    }
  }

  /** A window holds rows of what it is taken from. */
  lemma WindowMembers<X>(xs: seq<X>, page: int, perPage: int)
    requires page >= 1 && perPage >= 1
    ensures forall x :: x in Window(xs, page, perPage) ==> x in xs
  {
    var rows := Window(xs, page, perPage);
    forall x | x in rows
      ensures x in xs
    {
      var k :| 0 <= k < |rows| && rows[k] == x;
      assert rows[k] == xs[(page - 1) * perPage + k];
    }
  }

  /** The rows of any window are live jobs of the table, newest first. */
  lemma WindowOfLive(table: seq<JobRow>, page: int, perPage: int)
    requires page >= 1 && perPage >= 1
    ensures NewestFirst(Window(SortNewest(Live(table)), page, perPage))
    ensures forall x :: x in Window(SortNewest(Live(table)), page, perPage) ==> x in table && !x.expired
  {
    SortNewestCorrect(Live(table));
    WindowNewestFirst(SortNewest(Live(table)), page, perPage);
    SortedLiveMembers(table);
    WindowMembers(SortNewest(Live(table)), page, perPage);
  }

  /** What a served page holds: at most `per_page` projections of live
      jobs, newest first, one per row of the requested window, with the
      meta echoing the count and the request; and a page is served exactly
      when it is not past the last one. */
  lemma ServedPage<T, E>(table: seq<JobRow>, req: PageRequest, project: JobRow -> Result<T, E>)
    requires ValidPageRequest(req)
    ensures var r := JobsPageSpec(table, req, project);
      r.Ok? ==> (r.value.Some? <==> req.page <= PageCount(|Live(table)|, req.perPage))
    ensures var r := JobsPageSpec(table, req, project);
      r.Ok? && r.value.Some? ==>
        var rows := Window(SortNewest(Live(table)), req.page, req.perPage);
        |r.value.value.jobs| == |rows| <= req.perPage &&
        NewestFirst(rows) &&
        (forall k :: 0 <= k < |rows| ==> rows[k] in table && !rows[k].expired && project(rows[k]) == Ok(r.value.value.jobs[k])) &&
        r.value.value.meta == PaginationMeta(|Live(table)|, req.page, PageCount(|Live(table)|, req.perPage), req.perPage)
  {
    WindowOfLive(table, req.page, req.perPage);
  }

  lemma MulMonotone(a: int, b: int, c: int)
    requires a <= b && c >= 0
    ensures a * c <= b * c
  {
    assert b * c - a * c == (b - a) * c;
  }

  /** With no live jobs no page is served, and a served page is never
      empty. */
  lemma ServedPagesAreNonEmpty<T, E>(table: seq<JobRow>, req: PageRequest, project: JobRow -> Result<T, E>)
    requires ValidPageRequest(req)
    ensures |Live(table)| == 0 ==> JobsPageSpec(table, req, project).Ok? && JobsPageSpec(table, req, project).value.None?
    ensures req.page <= PageCount(|Live(table)|, req.perPage) ==>
      |Window(SortNewest(Live(table)), req.page, req.perPage)| > 0
  {
    var n := |Live(table)|;
    var pages := PageCount(n, req.perPage);
    PageCountIsCeiling(n, req.perPage);
    SortedLiveMembers(table);
    if req.page <= pages {
      MulMonotone(req.page - 1, pages - 1, req.perPage);
    }
  }

  // ---------------------------------------------------------------------
  // GET /{job_id}

  datatype LookupError<E> = Unprocessable | NotFound | Failed(error: E)

  /** `Job.get_or_none(job_id)`: the row with that primary key. */
  function FindJob(table: seq<JobRow>, id: int): (r: Option<JobRow>)
    ensures r.None? <==> forall j :: j in table ==> j.id != id
    ensures r.Some? ==> r.value in table && r.value.id == id
  {
    if table == [] then None
    else if table[0].id == id then Some(table[0])
    else FindJob(table[1..], id)
  }

  /** The lookup handler: an id below 1 fails the path's `ge=1` (422), a
      missing or expired job is 404, and a live job is projected. */
  function LookupJob<T, E>(table: seq<JobRow>, id: int, project: JobRow -> Result<T, E>): (r: Result<T, LookupError<E>>)
    ensures id < 1 ==> r.Err? && r.error.Unprocessable?
    ensures r.Err? && r.error.NotFound? <==> id >= 1 && (FindJob(table, id).None? || FindJob(table, id).value.expired)
    ensures r.Ok? ==> exists j :: j in table && j.id == id && !j.expired && project(j) == Ok(r.value)
    ensures id >= 1 && FindJob(table, id).Some? && !FindJob(table, id).value.expired ==>
      r == match project(FindJob(table, id).value)
           case Ok(v) => Ok(v)
           case Err(e) => Err(Failed(e))
  {
    if id < 1 then Err(Unprocessable)
    else
      match FindJob(table, id)
      case None => Err(NotFound)
      case Some(job) =>
        if job.expired then Err(NotFound)
        else
          match project(job)
          case Ok(v) => Ok(v)
          case Err(e) => Err(Failed(e))
  }
}
