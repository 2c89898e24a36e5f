/** The pydantic schemas of app/models/schemas.py that `to_schema` projects
    rows through, as field lists, and what projecting through them demands
    of a row. A module body binds each class name when its `class`
    statement runs, so a name declared twice means its last declaration. */
module AppSchemas {
  import opened Base
  import opened EntityGraph
  import opened SchemaProjection
  import opened ProjectionProperties

  /** The class a name is bound to after the declarations `decls` have run
      in order: the last one with that name. */
  function Bound(decls: seq<Schema>, title: string): (r: Option<Schema>)
    ensures r.None? <==> forall i :: 0 <= i < |decls| ==> decls[i].title != title
    ensures r.Some? ==> exists i :: (0 <= i < |decls| && decls[i] == r.value && r.value.title == title &&
      forall j :: i < j < |decls| ==> decls[j].title != title)
  {
    if decls == [] then None
    else if decls[|decls| - 1].title == title then Some(decls[|decls| - 1])
    else Bound(decls[..|decls| - 1], title)
  }

  const ExamInfo := Schema("ExamInfo", [SchemaField("id", Scalar), SchemaField("title", Scalar)])

  const CourseSchema := Schema("CourseSchema", [
    SchemaField("slug", Scalar), SchemaField("title", Scalar),
    SchemaField("description", Scalar), SchemaField("link", Scalar)])

  /** The first `SkillItem` declaration. */
  const SkillItemFirst := Schema("SkillItem", [
    SchemaField("slug", Scalar), SchemaField("title", Scalar), SchemaField("description", Scalar)])

  /** The second `SkillItem` declaration, with the course and exam lists. */
  const SkillItemSecond := Schema("SkillItem", [
    SchemaField("slug", Scalar), SchemaField("title", Scalar), SchemaField("description", Scalar),
    SchemaField("courses", NestedList(CourseSchema)), SchemaField("exams", NestedList(ExamInfo))])

  const TimeDeltaSchema := Schema("TimeDelta", [SchemaField("unit", Scalar), SchemaField("amount", Scalar)])

  const SalarySchema := Schema("Salary", [SchemaField("min", Scalar), SchemaField("max", Scalar)])

  /** `EmployerSummary(UserSchema)`: `email` and `phone_number` are plain
      class attributes of `UserSchema`, not fields. */
  const EmployerSummary := Schema("EmployerSummary", [
    SchemaField("uuid", Scalar), SchemaField("avatar", Scalar),
    SchemaField("co_name", Scalar), SchemaField("city", Scalar)])

  /** The schema declarations relevant to job cards, in source order. */
  const Declarations := [EmployerSummary, ExamInfo, CourseSchema, SkillItemFirst, SkillItemSecond,
    TimeDeltaSchema, SalarySchema]

  /** `JobSchema`, whose `skills` items are whatever `SkillItem` names when
      the class body runs. */
  function JobSchema(): Schema
  {
    var skill := Bound(Declarations, "SkillItem");
    Schema("JobSchema", [
      SchemaField("id", Scalar), SchemaField("title", Scalar), SchemaField("description", Scalar),
      SchemaField("salary", Nested(SalarySchema)), SchemaField("created_on", Scalar),
      SchemaField("employer", Nested(EmployerSummary)), SchemaField("requirements_list", Scalar),
      SchemaField("skills", if skill.Some? then NestedList(skill.value) else Scalar),
      SchemaField("timedelta", Nested(TimeDeltaSchema))])
  }

  /** The second `SkillItem` replaces the first, so a skill item also has
      `courses` and `exams` lists, and `JobSchema` uses it. */
  lemma EffectiveSkillItem()
    ensures Bound(Declarations, "SkillItem") == Some(SkillItemSecond)
    ensures FieldNames(SkillItemSecond.fields) == ["slug", "title", "description", "courses", "exams"]
    ensures JobSchema().fields[7] == SchemaField("skills", NestedList(SkillItemSecond))
  {
    var d6 := Declarations[..6];
    var d5 := d6[..5];
    assert d5[4] == SkillItemSecond;
    assert Bound(d5, "SkillItem") == Some(SkillItemSecond);
    assert Bound(d6, "SkillItem") == Bound(d5, "SkillItem");
    assert Bound(Declarations, "SkillItem") == Bound(d6, "SkillItem");
  }

  /** Projecting a skill through the effective `SkillItem` fails unless the
      row has `courses` and `exams` attributes. */
  lemma SkillItemNeedsCoursesAndExams(g: Graph, id: Id)
    requires id in g && (Attr(g[id], "courses").None? || Attr(g[id], "exams").None?)
    ensures Project(g, id, SkillItemSecond).Err?
  {
    assert DistinctNames(SkillItemSecond.fields);
    if Attr(g[id], "courses").None? {
      MissingAttributeFails(g, id, SkillItemSecond, 3);
    } else {
      MissingAttributeFails(g, id, SkillItemSecond, 4);
    }
  }

  /** `JobSchema` asks for `requirements_list` and `employer.uuid`; a job
      row without the first attribute (the `Job` model stores
      `requirements` and defines no such property) cannot be projected. */
  lemma JobSchemaNeedsRequirementsList(g: Graph, id: Id)
    requires id in g && Attr(g[id], "requirements_list").None?
    ensures Project(g, id, JobSchema()).Err?
  {
    EffectiveSkillItem();
    assert DistinctNames(JobSchema().fields);
    MissingAttributeFails(g, id, JobSchema(), 6);
  }
}
