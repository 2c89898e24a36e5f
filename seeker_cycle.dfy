/** A small database of app/dbmodel.py's own classes on which `to_dict`
    with `max_depth` omitted never finishes. One seeker has one skill
    (`SkillSeeker`) and one job request (`JobRequest`). A reverse relation's
    children are called without `seen`, so the walk goes
    Seeker -> skills -> SkillSeeker -> seeker -> Seeker -> job_requests ->
    JobRequest -> seeker -> Seeker -> skills -> ... and the depth counter,
    starting at -1, never reaches 0. Given a finite `max_depth`, the same
    export on the same database finishes. */
module SeekerCycle {
  import opened Base
  import opened EntityGraph
  import opened GraphExport
  import opened ExportProperties

  /** `BaseModel`'s policy; `maxDepth` is the class's `_max_depth_`, which
      app/dbmodel.py does not declare (`None`) and dbmodel.py sets to
      `True`. */
  function BaseOf(maxDepth: Option<int>): Policy
  {
    Policy(true, true, {}, [], maxDepth, None)
  }

  /** `User`, inherited by `Seeker` and `Employer`: `_exclude_` lists two
      strings. */
  function UserOf(maxDepth: Option<int>): Policy
  {
    Policy(true, true, {Name("pass_hash"), Name("job_requests")}, [], maxDepth, None)
  }

  const SkillsFk := Field("SkillSeeker", "seeker")
  const RequestsFk := Field("JobRequest", "seeker")
  const RequestJobFk := Field("JobRequest", "job")

  /** The keys of `JobSkillThrough`, the join model `Job.skills` creates. */
  const JoinKeys := {Field("JobSkillThrough", "job"), Field("JobSkillThrough", "skill")}

  /** Rows 0 to 5: the seeker, the skill link, the skill, the job request,
      the job and its employer, each with the columns its class declares, in
      declaration order, and with the reverse relations peewee registers for
      it, in registration order. The job has no skills: its join-model
      relation `jobskillthrough_set` is empty, so it only writes `[]` (a
      join row would be a plain peewee model without `to_dict`). */
  function SeekerDb(maxDepth: Option<int>): Graph
  {
    var base := BaseOf(maxDepth);
    var user := UserOf(maxDepth);
    map[
      0 := Record("Seeker", user,
        [ScalarColumn("id", Str("s-1")), ScalarColumn("firstname", Null), ScalarColumn("lastname", Null),
         ScalarColumn("email", Str("s@example.com")), ScalarColumn("phone_number", Str("123456789")),
         ScalarColumn("pass_hash", Str("hash")), ScalarColumn("cv_content", Null)],
        [], [Backref("skills", SkillsFk, [1]), Backref("job_requests", RequestsFk, [3])], map[], {}),
      1 := Record("SkillSeeker", base,
        [ScalarColumn("id", Int(1)), ForeignKey("seeker", Some(0)), ForeignKey("skill", Some(2)),
         ScalarColumn("score", Int(90))],
        [], [], map[], {}),
      2 := Record("Skill", base.(backrefs := false),
        [ScalarColumn("id", Int(2)), ScalarColumn("title", Str("Python")), ScalarColumn("desc", Null)],
        [ManyToMany("jobs", Field("Skill", "jobs"), Field("Job", "skills"), JoinKeys, [])],
        [Backref("exams", Field("Exam", "skill"), []), Backref("seekers", Field("SkillSeeker", "skill"), [1]),
         Backref("jobskillthrough_set", Field("JobSkillThrough", "skill"), [])], map[], {}),
      3 := Record("JobRequest", base,
        [ScalarColumn("id", Int(3)), ForeignKey("job", Some(4)), ForeignKey("seeker", Some(0)),
         ScalarColumn("created_on", Str("2024-01-01")), ScalarColumn("expire_on", Str("2024-02-01")),
         ScalarColumn("expired", Bool(false))],
        [], [], map[], {}),
      4 := Record("Job", base.(exclude := {Name("requests")}),
        [ScalarColumn("id", Int(4)), ScalarColumn("title", Str("Developer")), ScalarColumn("content", Str("")),
         ScalarColumn("min_salary", Int(10)), ScalarColumn("max_salary", Int(20)),
         ScalarColumn("created_on", Str("2024-01-01")), ScalarColumn("expire_on", Str("2024-02-01")),
         ScalarColumn("expired", Bool(false)), ForeignKey("employer", Some(5))],
        [ManyToMany("skills", Field("Job", "skills"), Field("Skill", "jobs"), JoinKeys, [])],
        [Backref("jobskillthrough_set", Field("JobSkillThrough", "job"), []),
         Backref("requests", RequestJobFk, [3])], map[], {}),
      5 := Record("Employer", user,
        [ScalarColumn("id", Str("e-1")), ScalarColumn("firstname", Null), ScalarColumn("lastname", Null),
         ScalarColumn("email", Str("e@example.com")), ScalarColumn("phone_number", Str("987654321")),
         ScalarColumn("pass_hash", Str("hash")), ScalarColumn("co_name", Str("Co")),
         ScalarColumn("co_address", Null), ScalarColumn("co_phones", Null), ScalarColumn("co_ver_code", Null)],
        [], [Backref("jobs", Field("Job", "employer"), [4])], map[], {})
    ]
  }

  /** The arguments every call on the cycle gets when the outermost call
      omits them all: only `max_depth` is passed, and it stays negative. */
  predicate Unbounded(a: Args)
  {
    a.recurse.Default? && a.backrefs.Default? && a.only == {} && a.exclude.Default? &&
    a.extraAttrs.Default? && !a.manytomany && Configure(App, BaseOf(None), a).depth < 0
  }

  /** A seeker reached with at most one of its two reverse relations in
      `seen` never finishes: the other relation leads back to it. */
  lemma {:induction false} SeekerNeverFinishes(a: Args, fuel: nat)
    requires Unbounded(a)
    requires a.seen == {} || a.seen == {SkillsFk} || a.seen == {RequestJobFk, RequestsFk}
    ensures Export(App, SeekerDb(None), 0, a, fuel).Err?
    decreases fuel, 1
  {
    if fuel > 0 {
      var f := fuel - 1;
      var g := SeekerDb(None);
      var rec := g[0];
      var ctx := Ctx(App, g, rec, a);
      var st0 := InitialState(ctx);
      assert st0.exclude == rec.policy.exclude + a.seen;
      assert ManyToManyStage(ctx, st0, f) == Ok(st0);
      ColumnsLoopFrame(ctx, rec.columns, st0, f);
      assert ctx.S().extras == [] && ctx.S().backrefs && ctx.S().recurse;
      var front := FrontStages(ctx, f);
      if front.Ok? {
        var st3 := front.value;
        assert st3.exclude == st0.exclude;
        var child := ChildArgs(ctx, {});
        var b1 := rec.backrefs[0];
        var b2 := rec.backrefs[1];
        if SkillsFk !in a.seen {
          assert !SkipBackref(ctx, st3.exclude, b1);
          SkillSeekerNeverFinishes(child, f);
          assert ExportRows(App, g, [1], child, f).Err?;
          assert BackrefStep(ctx, b1, st3, f).Err?;
        } else {
          assert SkipBackref(ctx, st3.exclude, b1);
          assert BackrefStep(ctx, b1, st3, f) == Ok(st3);
          assert !SkipBackref(ctx, st3.exclude, b2);
          JobRequestNeverFinishes(child, f);
          assert ExportRows(App, g, [3], child, f).Err?;
          assert BackrefStep(ctx, b2, st3, f).Err?;
          assert BackrefsLoop(ctx, rec.backrefs[1..], st3, f).Err?;
        }
        assert BackrefsLoop(ctx, rec.backrefs, st3, f).Err?;
        assert BackrefStage(ctx, rec.backrefs, st3, f).Err?;
      }
      assert ExportRecord(ctx, f).Err?;
      assert Export(App, g, 0, a, fuel) == ExportRecord(ctx, f);
    }
  }

  /** The skill link, reached through the seeker's `skills`, follows its
      `seeker` key back to the seeker with only that key in `seen`. */
  lemma {:induction false} SkillSeekerNeverFinishes(a: Args, fuel: nat)
    requires Unbounded(a) && a.seen == {}
    ensures Export(App, SeekerDb(None), 1, a, fuel).Err?
    decreases fuel, 0
  {
    if fuel > 0 {
      var f := fuel - 1;
      var g := SeekerDb(None);
      var rec := g[1];
      var ctx := Ctx(App, g, rec, a);
      var st0 := InitialState(ctx);
      assert st0 == LoopState([], {}, {});
      assert ManyToManyStage(ctx, st0, f) == Ok(st0);
      var s1 := ColumnStep(ctx, rec.columns[0], st0, f);
      assert s1.Ok? && s1.value.exclude == {} && s1.value.seen == {};
      var down := ChildArgs(ctx, {SkillsFk});
      assert s1.value.seen + {Field(rec.kind, "seeker")} == {SkillsFk};
      SeekerNeverFinishes(down, f);
      assert ColumnStep(ctx, rec.columns[1], s1.value, f).Err?;
      assert ColumnsLoop(ctx, rec.columns[1..], s1.value, f).Err?;
      assert ColumnsLoop(ctx, rec.columns, st0, f).Err?;
      assert FrontStages(ctx, f).Err?;
      assert Export(App, g, 1, a, fuel) == ExportRecord(ctx, f);
    }
  }

  /** The job request, reached through the seeker's `job_requests`, follows
      `job` and then `seeker` back to the seeker, with those two keys in
      `seen`. */
  lemma {:induction false} JobRequestNeverFinishes(a: Args, fuel: nat)
    requires Unbounded(a) && a.seen == {}
    ensures Export(App, SeekerDb(None), 3, a, fuel).Err?
    decreases fuel, 0
  {
    if fuel > 0 {
      var f := fuel - 1;
      var g := SeekerDb(None);
      var rec := g[3];
      var ctx := Ctx(App, g, rec, a);
      var st0 := InitialState(ctx);
      assert st0 == LoopState([], {}, {});
      assert ManyToManyStage(ctx, st0, f) == Ok(st0);
      var s1 := ColumnStep(ctx, rec.columns[0], st0, f);
      assert s1.Ok? && s1.value.exclude == {} && s1.value.seen == {};
      var s2 := ColumnStep(ctx, rec.columns[1], s1.value, f);
      if s2.Ok? {
        assert s2.value.exclude == {} && s2.value.seen == {RequestJobFk};
        var down := ChildArgs(ctx, {RequestJobFk, RequestsFk});
        assert s2.value.seen + {Field(rec.kind, "seeker")} == {RequestJobFk, RequestsFk};
        SeekerNeverFinishes(down, f);
        assert ColumnStep(ctx, rec.columns[2], s2.value, f).Err?;
        assert ColumnsLoop(ctx, rec.columns[2..], s2.value, f).Err?;
      }
      assert ColumnsLoop(ctx, rec.columns[1..], s1.value, f).Err?;
      assert ColumnsLoop(ctx, rec.columns, st0, f).Err?;
      assert FrontStages(ctx, f).Err?;
      assert Export(App, g, 3, a, fuel) == ExportRecord(ctx, f);
    }
  }

  /** Every row the database refers to is in it, and no class lists extra
      attributes. */
  lemma SeekerDbClosed(maxDepth: Option<int>)
    ensures Closed(SeekerDb(maxDepth))
  {
    var g := SeekerDb(maxDepth);
    forall id | id in g
      ensures RowClosed(g, g[id])
    {
      assert id in {0, 1, 2, 3, 4, 5};
    }
  }

  /** app/dbmodel.py as written: `seeker.to_dict()` on this database runs
      out of recursion whatever the budget, because the walk never ends. */
  lemma SeekerExportNeverFinishes(fuel: nat)
    ensures Export(App, SeekerDb(None), 0, NoArgs, fuel) == Err(OutOfFuel)
  {
    SeekerNeverFinishes(NoArgs, fuel);
    SeekerDbClosed(None);
    OnlyRunsOut(App, SeekerDb(None), 0, NoArgs, fuel);
  }

  /** The same call under app/dbmodel.py with only the depth changed: given
      a finite `max_depth` of 1 instead of the omitted one, `seeker.to_dict`
      on the same database returns a value once two levels of recursion are
      allowed. The revision and the database are those of
      `SeekerExportNeverFinishes`, so the depth alone ends the walk. */
  lemma SeekerExportWithDepthFinishes(fuel: nat)
    requires fuel >= 2
    ensures Export(App, SeekerDb(None), 0, NoArgs.(maxDepth := Given(Some(1))), fuel).Ok?
  {
    var g := SeekerDb(None);
    var a := NoArgs.(maxDepth := Given(Some(1)));
    assert Configure(App, g[0].policy, a).depth == 1;
    SeekerDbClosed(None);
    ClosedExportSucceeds(App, g, 0, a, fuel);
  }
}
