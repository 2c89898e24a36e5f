# Pisheh API: entity-graph export, schema projection and job listing

This project models the core of the Pisheh job-board API in Dafny and
proves properties of it. The core is the peewee `BaseModel` base class and
what is built on it:

- `to_dict`, the depth-bounded walk that turns a row and its related rows
  into a nested dictionary. It covers scalar columns, foreign keys,
  many-to-many lists and reverse relations ("backrefs"). The walk is
  controlled by the `DEFAULT` sentinel, the depth counter, the
  `only`/`exclude` filters and the `seen` set of followed foreign keys.
  There are two copies: dbmodel.py (`Root`) and app/dbmodel.py (`App`).
- `to_schema`, the projection of a row onto a pydantic schema's declared
  fields. There are two copies: dbmodel.py (`DbModel`) and
  app/models/dbmodel.py (`AppModels`).
- The job card: `Job.salary`, the Persian age labels of `Job.timedelta`,
  and the expiry flag `Job.get` sets.
- The `add_table` registry.
- The input validators: `PhoneNumber.validate`, `PageRequest`, `Role`, the
  id and `TimeDelta` constraints, and the effective `SkillItem`.
- The two job handlers of app/routers/jobs.py: the page listing and the
  lookup by id.

The entity graph is a finite map from row ids to records. A record holds
ordered columns, where a column is a scalar or a foreign key holding an
optional id. It also holds many-to-many lists, reverse relations and the
other attributes. Python's insertion-ordered dicts are sequences of
`(key, value)` pairs (`Base.Entries`). Members of the `only`, `exclude` and
`seen` sets are `EntityGraph.Key` values. A peewee field, a plain string
and a backref descriptor are different keys, because Python compares them
as different objects.

Each loop of the source is a specification function that threads the state
the loop mutates. Imperative methods run the same loops and are proved
equal to those functions:

- `ToDictMethod` for `to_dict`;
- `SchemaProjection.ToSchema` for `to_schema`;
- `Registry.TableRegistry` for `add_table`;
- `JobsRouter.GetJobsPage` for the page handler.

The lemmas state what the source promises about those functions.

Module layout:

| file | module | models |
|---|---|---|
| base.dfy | `Base` | `Result`, the `DEFAULT` sentinel, ordered dicts |
| entity_graph.dfy | `EntityGraph` | rows, columns, relations, schemas, `getattr` |
| graph_export.dfy | `GraphExport` | `to_dict`, as specification functions |
| graph_export_method.dfy | `ToDictMethod` | `to_dict`, as loops |
| graph_export_lemmas.dfy | `ExportProperties` | what `to_dict` promises |
| schema_projection.dfy | `SchemaProjection` | `to_schema`, specification and loops |
| schema_projection_lemmas.dfy | `ProjectionProperties` | what `to_schema` promises |
| app_schemas.dfy | `AppSchemas` | the declared job-card schemas |
| job_card.dfy | `JobCard` | `salary`, `timedelta`, `Job.get` |
| registry.dfy | `Registry` | `add_table` and `TABLES` |
| validators.dfy | `Validators` | phone, page request, role, id and age constraints |
| jobs_router.dfy | `JobsRouter` | `/page` and `/{job_id}` |
| seeker_cycle.dfy | `SeekerCycle` | a database of app/dbmodel.py's classes on which `to_dict` never finishes |

The `to_dict` revisions differ in these ways:

- **`max_depth` default.** dbmodel.py takes the class's `_max_depth_`, and
  the base class has `True`, which acts as 1. app/dbmodel.py takes `None`,
  which means unbounded.
- **Column filter.** dbmodel.py also tests the column's name. It requires
  that name to be in `only` even when `only` is empty. app/dbmodel.py
  tests only the field object, and an empty `only` keeps every column.
- **Relation names.** dbmodel.py adds the many-to-many names to the
  exclusions when `manytomany` is off. It also tests a backref's name
  against the exclusions.
- **`only` on many-to-many names.** app/dbmodel.py's `should_skip` also
  skips a many-to-many name that a non-empty `only` does not list.
  dbmodel.py's `should_skip` tests a plain name only against the
  exclusions, because a string has no `name` attribute.

A third revision, `Patched`, is dbmodel.py with the column test corrected
(see Findings).

## Model

| member | source | states |
|---|---|---|
| Base.Resolve | dbmodel.py:36 | `_default`: the sentinel falls back to the class policy; any other argument, `None` and `False` included, is used as given |
| Base.PutKeys | dbmodel.py:169 | `data[k] = v` keeps an existing key in its position and appends a new key at the end |
| Base.PutLookup | dbmodel.py:169 | after `data[k] = v`, `k` maps to `v` and every other key keeps its value |
| EntityGraph.Attr | app/models/dbmodel.py:95 | `getattr` looks in order at the columns, the many-to-many fields, the reverse relations and the other attributes, and returns the value of the first that has the name (the related instance for a foreign key, the related rows for a relation); it fails exactly when none of them has the name |
| EntityGraph.ManyToManyNames | dbmodel.py:147 | the names excluded when `manytomany` is off are exactly the many-to-many names |
| GraphExport.Configure | dbmodel.py:94-101 | resolved depth: `None` becomes -1, an explicit value is kept, a resolved 0 turns recursion off, and otherwise `recurse` is the resolved option; dbmodel.py's default depth is the class's `_max_depth_`, while in app/dbmodel.py (lines 74-81) an omitted `max_depth` is -1 |
| GraphExport.ChildArgs | dbmodel.py:158-165 | every nested call resolves to a depth one below its caller's, never expands many-to-many fields, and gets the given `seen` |
| ToDictMethod.ToDict | dbmodel.py:66-208 | the imperative `to_dict` returns exactly the specification's export, or the same error |
| ToDictMethod.ExportRowsInOrder | dbmodel.py:191-204 | the `accum.append` loop builds exactly the specification's list of child exports |
| ToDictMethod.ManyToManyPhase | dbmodel.py:124-147 | the many-to-many block (or its `else`) leaves exactly the specification's state |
| ToDictMethod.ColumnsPhase | dbmodel.py:149-169 | the column loop leaves exactly the specification's state |
| ToDictMethod.ExtrasPhase | dbmodel.py:171-177 | the extra-attribute loop leaves exactly the specification's state |
| ToDictMethod.BackrefsPhase | dbmodel.py:179-206 | the backref loop leaves exactly the specification's state |
| ExportProperties.ExportRowsShape | dbmodel.py:195-204 | a list of child exports succeeds exactly when every child does, and then holds one export per row, in query order |
| ExportProperties.ManyToManyLoopFrame | app/dbmodel.py:99-119 | the many-to-many loop only grows `_exclude`, leaves `seen` alone, and keeps earlier keys in place |
| ExportProperties.ColumnsLoopFrame | dbmodel.py:149-169 | the column loop leaves `_exclude` alone, only grows `seen`, and keeps earlier keys in place |
| ExportProperties.ExtrasLoopFrame | app/dbmodel.py:143-149 | the extras loop changes neither set and keeps earlier keys in place |
| ExportProperties.BackrefsLoopFrame | app/dbmodel.py:151-176 | the backref loop only grows `_exclude`, leaves `seen` alone, and keeps earlier keys in place |
| ExportProperties.StagesInOrder | app/dbmodel.py:99-176 | output keys come in the order many-to-many, columns, extra attributes, reverse relations |
| ExportProperties.ColumnEntry | dbmodel.py:153-169 | a kept column is written under its name: with recursion, a foreign key becomes the nested export (or `None` when null); otherwise the stored value is copied; other keys are untouched |
| ExportProperties.FollowedKeyIsSeen | dbmodel.py:154-165 | a followed foreign key is in `seen` before the nested call, which receives that `seen` |
| ExportProperties.BackrefEntry | dbmodel.py:191-206 | a kept reverse relation is written as the list of its rows' exports in query order (`[]` for none), and its foreign key is excluded from then on |
| ExportProperties.ManyToManyEntry | app/dbmodel.py:104-119 | a kept many-to-many relation is written as its rows' exports; the relation, its reverse and the join table's keys are excluded from then on; children do not expand many-to-many fields |
| ExportProperties.BaseDefaultsNestOneLevel | dbmodel.py:44 | with every option defaulted, a base-class row recurses one level and its nested rows do not recurse |
| ExportProperties.ExportWithinDepth | dbmodel.py:98-101 | with a resolved depth `d >= 0`, unless `d == 0` with `manytomany=True` (whose many-to-many children get depth -1), the walk nests at most `d` calls, so it always finishes |
| ExportProperties.RecordWithinDepth | app/dbmodel.py:79-81 | the body of one call finishes within its resolved depth |
| ExportProperties.ExtrasFailOnlyOnMissing | app/dbmodel.py:143-149 | the extra attributes fail only on a missing attribute |
| ExportProperties.LoopChildIsEmpty | app/dbmodel.py:156-157 | a hypothetical record whose only column is a foreign key to itself, reached through that key, exports nothing, since `seen` hides both that column and its reverse relation |
| ExportProperties.UnboundedCycleRunsOut | app/dbmodel.py:55 | with `max_depth` omitted, that hypothetical record never finishes: the reverse relation re-enters it with an empty `seen` |
| ExportProperties.OnlyRunsOut | app/dbmodel.py:46-178 | in a graph of `BaseModel` rows where every referenced row exists and no extra attributes are asked for, `to_dict` returns a value or runs out of recursion, and fails in no other way |
| ExportProperties.RecordOnlyRunsOut | app/dbmodel.py:93-178 | the same for the body of one call on a `BaseModel` row |
| ExportProperties.ClosedExportSucceeds | app/dbmodel.py:79-81 | in such a graph of `BaseModel` rows, a call with a resolved depth `d >= 0`, unless `d == 0` with `manytomany=True` (whose many-to-many children get depth -1), returns a value |
| SeekerCycle.SeekerNeverFinishes | app/dbmodel.py:151-176 | a `Seeker` with a skill and a job request whose job has no skills, reached with at most one of its two reverse-relation keys in `seen`, is never exported when `max_depth` is omitted |
| SeekerCycle.SkillSeekerNeverFinishes | app/dbmodel.py:126-139 | the `SkillSeeker` row reached through `skills` follows `seeker` back to that seeker, so it is never exported either |
| SeekerCycle.JobRequestNeverFinishes | app/dbmodel.py:126-139 | the `JobRequest` row reached through `job_requests` follows `job` and then `seeker` back to that seeker, so it is never exported either |
| SeekerCycle.SeekerExportNeverFinishes | app/dbmodel.py:79 | as written, `seeker.to_dict()` on that database runs out of recursion whatever the budget |
| SeekerCycle.SeekerExportWithDepthFinishes | app/dbmodel.py:79-81 | on the same revision and database, with only `max_depth=1` given instead of omitted, `seeker.to_dict` returns a value once two levels of recursion are allowed, so a finite depth alone ends the cycle |
| ExportProperties.ExcludedKeyHidesBackrefs | dbmodel.py:186-187 | once a foreign key is excluded, the backref loop acts as if that key's reverse relations did not exist |
| ExportProperties.SeenStaysExcluded | dbmodel.py:119-121 | everything in `seen` is still excluded when the backref loop starts |
| ExportProperties.SeenEdgeNotExpanded | dbmodel.py:120-121 | a row reached through a foreign key is exported as if it had no reverse relation through that key |
| ExportProperties.ColumnsKept | dbmodel.py:149-151 | columns that all pass the filter all appear in the output |
| ExportProperties.ColumnsDropped | dbmodel.py:149-151 | columns that all fail the filter leave the state unchanged |
| ExportProperties.RootEmptyOnlyDropsColumns | dbmodel.py:105-109 | dbmodel.py with `only` omitted drops every named column |
| ExportProperties.AppEmptyOnlyKeepsColumns | app/dbmodel.py:84 | app/dbmodel.py with `only` omitted keeps every column whose field is not excluded |
| ExportProperties.PatchedEmptyOnlyKeepsColumns | dbmodel.py:105-109 | the corrected filter with `only` omitted keeps every column whose field and name are not excluded |
| ExportProperties.NameExclusionHonoured | dbmodel.py:106-107 | dbmodel.py and the corrected filter never write a column or reverse relation whose plain name is excluded |
| ExportProperties.AppIgnoresNameExclusion | app/dbmodel.py:84 | app/dbmodel.py exports a `Seeker`'s `pass_hash` and `job_requests` although the `_exclude_` it inherits from `User` lists both names |
| ExportProperties.PatchedHonoursNameExclusion | app/dbmodel.py:220 | under the corrected filter that `Seeker` exports neither |
| SchemaProjection.ToSchemaSpec | app/models/dbmodel.py:91-93 | an omitted schema means the class's `_default_schema_` in app/models/dbmodel.py and fails in dbmodel.py; a given schema is projected as is |
| SchemaProjection.ToSchema | app/models/dbmodel.py:91-105 | the imperative `to_schema` returns exactly the specification's projection |
| SchemaProjection.ProjectRow | dbmodel.py:51-64 | the `data[name] = value` loop builds exactly the specification's document |
| SchemaProjection.FieldValue | dbmodel.py:54-62 | one field's value, including the `l.append` loop, is exactly the specification's |
| ProjectionProperties.ProjectFieldsShape | dbmodel.py:52-63 | the field loop succeeds exactly when every field does, and then adds exactly the schema's field names, in order, each holding its projection |
| ProjectionProperties.ProjectFieldsKeep | dbmodel.py:63 | the field loop leaves the value of a name it does not write alone |
| ProjectionProperties.ProjectShape | dbmodel.py:51-64 | the projection fails exactly when the row or a field fails; on success it holds exactly the declared fields in declared order |
| ProjectionProperties.MissingAttributeFails | app/models/dbmodel.py:95 | a field whose attribute is missing makes the projection fail |
| ProjectionProperties.PropertyFieldCopied | app/models/dbmodel.py:95-104 | a computed property such as `salary` is copied unchanged unless it is a row |
| ProjectionProperties.RowFieldProjected | dbmodel.py:56-57 | a related row is projected through the field's type, and fails when that type has no fields |
| ProjectionProperties.ProjectRowsShape | dbmodel.py:60-61 | a list of projected rows succeeds exactly when every row does, one projection per row, in order |
| ProjectionProperties.RelationFieldProjected | app/models/dbmodel.py:99-103 | a relation becomes `[]` when empty, and otherwise the list of its rows projected through the item type, in iteration order |
| ProjectionProperties.DefaultSchemaUsed | app/models/dbmodel.py:93 | omitting the schema is the same as naming the class's default schema |
| AppSchemas.Bound | app/models/schemas.py:97-108 | a name declared twice is bound to its last declaration |
| AppSchemas.EffectiveSkillItem | app/models/schemas.py:103-108 | the effective `SkillItem` is the second one, with `courses` and `exams` lists, and `JobSchema.skills` uses it |
| AppSchemas.SkillItemNeedsCoursesAndExams | app/models/schemas.py:103-108 | a skill row lacking `courses` or `exams` cannot be projected |
| AppSchemas.JobSchemaNeedsRequirementsList | app/models/schemas.py:159-168 | a job row lacking a `requirements_list` attribute cannot be projected through `JobSchema` |
| JobCard.Salary | app/models/dbmodel.py:298-302 | no salary exactly when either bound is 0; otherwise both stored bounds |
| JobCard.TimeDeltaIsBucket | app/models/dbmodel.py:305-335 | the label chain computes exactly the table of age ranges |
| JobCard.TimeDeltaAmounts | app/models/dbmodel.py:305-335 | the amount is never negative and stays within its label's range |
| JobCard.OlderNeverFresher | app/models/dbmodel.py:309-334 | an older post never gets a fresher label, nor a smaller amount under the same label |
| JobCard.ExpiredAfterLoad | app/dbmodel.py:272-278 | after loading, a job is expired exactly when it was already, or its expiry time has passed |
| JobCard.ExpiryIsSticky | app/dbmodel.py:275-276 | loading never clears the flag, is idempotent, and stays expired later |
| JobCard.Job.MarkIfExpired | app/dbmodel.py:272-278 | the loaded row's flag becomes the value above, and its expiry time is unchanged |
| Registry.AllTablesAppend | app/models/dbmodel.py:111-116 | registering two runs of classes appends their tables in sequence |
| Registry.ClassTablesContiguous | app/models/dbmodel.py:112-115 | each class's table is followed by its join tables, where the earlier classes' tables end |
| Registry.TableRegistry.AddTable | app/models/dbmodel.py:111-116 | appends the class's table and then its join tables, keeps earlier entries, returns the class |
| Registry.TableRegistry.AddTables | app/models/dbmodel.py:108-116 | the decorators in source order leave exactly the tables of every class in order |
| Validators.MatchDigitsMeaning | schemas.py:8 | `\d{n}$` matches exactly a rest of `n` digits |
| Validators.FullMatchMeaning | schemas.py:29 | the full match succeeds exactly on "09" and nine digits, and its group is what follows "09" |
| Validators.ValidatePhone | schemas.py:26-32 | a non-string is a `TypeError`; a string is accepted exactly when it is "09" and nine digits, yielding those nine digits; anything else is a `ValueError`; the copies in app/models/schemas.py and app/schemas.py are identical |
| Validators.ValidateNotIdempotent | schemas.py:29-32 | an accepted number's result is never itself accepted |
| Validators.ValidatePhoneAsWritten | schemas.py:29 | as written, every call fails, because the mangled regex name is undefined |
| Validators.AsWrittenRejectsExample | schemas.py:21-22 | the schema's own example number is rejected as written and accepted as intended |
| Validators.MakePageRequest | schemas.py:144-156 | defaults 1 and 30; accepted exactly when `page >= 1` and `1 <= per_page <= 100`; the error names each failing field; app/models/schemas.py repeats the class unchanged |
| Validators.PageRequestDefaults | app/models/schemas.py:184-185 | an empty request is page 1 of 30 |
| Validators.ParseRole | app/schemas.py:9 | `Role` admits exactly "employer" and "seeker" |
| Validators.RoleRoundTrip | app/models/schemas.py:10 | every role parses back from its name |
| Validators.CheckId | schemas.py:67 | an id is accepted exactly when it is at least 1, and kept unchanged; the same bound holds for `JobSchema.id` in both schema modules |
| Validators.JobAgeIsValidTimeDelta | app/models/schemas.py:137-151 | every age a job computes passes app/models/schemas.py's `TimeDelta` |
| Validators.SchemasRejectDaysAgo | schemas.py:98-112 | schemas.py's `TimeDelta` rejects the label a job gets for an age of two to six days |
| JobsRouter.Live | app/routers/jobs.py:18 | the filtered rows are exactly the table's non-expired rows |
| JobsRouter.LiveSingle | app/routers/jobs.py:18 | a single row is kept exactly when it is not expired |
| JobsRouter.LiveAppend | app/routers/jobs.py:18 | the filter keeps storage order: the live rows of two runs of rows are those of the first followed by those of the second |
| JobsRouter.LiveMultiplicity | app/routers/jobs.py:18 | the filter keeps each live row as many times as the table holds it and drops every expired row, so the live count is the number of live rows |
| JobsRouter.SortNewestCorrect | app/routers/jobs.py:19 | the ordering is newest first and is a permutation of the rows |
| JobsRouter.PageCountIsCeiling | app/routers/jobs.py:13 | the page count is the ceiling of the job count over `per_page` |
| JobsRouter.Window | app/routers/jobs.py:20 | `paginate` yields the rows from offset `(page - 1) * per_page`, `per_page` of them or all that remain when fewer do, and none past the end |
| JobsRouter.ProjectAll | app/routers/jobs.py:16-22 | the projected list succeeds exactly when every row does, one projection per row, in order |
| JobsRouter.ProjectEach | app/routers/jobs.py:15-22 | the `jobs.append` loop builds exactly the list of projections, or fails with the first row's error |
| JobsRouter.GetJobsPage | app/routers/jobs.py:10-33 | the handler with line 12 corrected to count only live jobs returns exactly `JobsPageSpec`: `None` past the last page, otherwise the meta and the projected window; the handler as written, which counts every job, is `JobsPageAsWritten` (see Findings) |
| JobsRouter.WindowOfLive | app/routers/jobs.py:16-21 | a window holds only live jobs of the table, newest first |
| JobsRouter.ServedPage | app/routers/jobs.py:14-31 | a page is served exactly when it is not past the last one; it holds at most `per_page` projections of live jobs, newest first, and the meta echoes the count and the request |
| JobsRouter.ServedPagesAreNonEmpty | app/routers/jobs.py:12-14 | with no live jobs no page is served, and a served page is never empty |
| JobsRouter.ExpiredJobsCountedAsWritten | app/routers/jobs.py:12-13 | as written, one expired job makes the handler serve an empty page claiming one job |
| JobsRouter.FindJob | app/routers/jobs.py:40 | the lookup finds a row with that id exactly when one exists |
| JobsRouter.LookupJob | app/routers/jobs.py:36-42 | an id below 1 is 422; a missing or expired job is 404; a live job is answered with its projection, or `Failed` with the projection's error |

## Left out

- The peewee ORM itself is not modelled: queries, `__data__`, lazy loading
  and `_meta`. The entity graph is plain data.
- The `fields_from_query` branch of `to_dict` (dbmodel.py:111-116 and
  app/dbmodel.py:86-91) is left out, because it reads a query's
  `_returning`, an ORM internal.
- The `only` argument is modelled as a set and `exclude` as a set or the
  sentinel. The extra attributes are a sequence, standing for the
  iteration order of the cloned set.
- `to_schema` ends with `type_(**data)`, pydantic's validation of the
  collected fields. That step is not modelled: the result is the collected
  `data`. The field constraints are modelled as separate checks in
  `Validators`.
- `name in self._meta.backrefs` is taken as a given set of names per
  record, because that table is keyed by foreign-key objects.
- Iterating a relation value that is not a list of rows is modelled as a
  failure (`NotIterable`).
- `to_dict` has no fuel in the source. Here every nested call uses one unit
  of fuel, and `OutOfFuel` stands for Python's recursion limit.
  `SeekerCycle.SeekerExportNeverFinishes` shows this is reached on
  app/dbmodel.py's own classes. The values stored in that sample database
  are made up; only its rows and links matter.
- At a resolved depth of 0, `to_dict` turns off only `recurse`; its
  many-to-many block still runs when `manytomany=True` and passes
  `max_depth=-1`, which means no limit, to every child (dbmodel.py:124-142
  and app/dbmodel.py:99-119). The depth therefore bounds the walk only
  without that combination, and ExportProperties.ExportWithinDepth and
  ExportProperties.ClosedExportSucceeds exclude it.
- ExportProperties.OnlyRunsOut: records stand for `BaseModel` rows only.
  The join models `ManyToManyField` creates (such as `Job.skills`'s
  `JobSkillThrough`) are plain peewee models without `to_dict`, and
  reaching one through its reverse relation raises `AttributeError`; the
  model has no such row and no such failure.
- ExportProperties.RecordOnlyRunsOut: the same restriction to `BaseModel`
  rows; a join-model row reached through a reverse relation is not
  represented.
- ExportProperties.ClosedExportSucceeds: the same restriction; on a graph
  that reaches a join-model row the source raises `AttributeError` instead
  of returning a value.
- Password hashing, `simphash`, JWT handling, `JsonField`,
  `JsonObjectField` and `EnumField` are not modelled; they are foreign
  libraries or thin wrappers over them.
- `JobCategory`'s salary averages are not modelled (SQL aggregates over
  floats).
- The routing and startup code, the other routers, `expire_jobs`,
  model.py, the tests and test_script.py are not modelled; they are HTTP,
  database and scheduling glue.
- Clock reads are parameters: `Job.timedelta` takes the age as
  `(days, seconds)` in the form Python's `timedelta` normalises it to, and
  `Job.get` takes "now".
- `Job.get`'s database read is not modelled: `MarkIfExpired` acts on an
  already loaded row.
- JobsRouter.SortNewest: SQL leaves the order of jobs created at the same
  moment unspecified; the model keeps their storage order.
- JobsRouter.GetJobsPage: the job table, its filtering, ordering and
  pagination are functions on a sequence. `to_schema(JobSchema)` is a
  parameter.
- app/routers/jobs.py imports `JobsPage`, which app/models/schemas.py does
  not define (its page class is `Jobs`). The model uses the shape `Jobs`
  declares. The out-of-range page's `HTTPException` is built and not
  raised, so the handler returns `None` (`Ok(None)`). What FastAPI then
  sends for that `None` (checked against the response model) is not
  modelled.
- Validators.ValidatePhone: `\d` is the parameter `isDigit`, because
  Python 3's `\d` accepts every Unicode decimal digit.
- pydantic's other field types (`EmailStr`, `UUID`, `datetime`) are not
  modelled.

## Findings

| source | as written | input that shows it | evidently intended | confidence | as-written member | corrected member |
|---|---|---|---|---|---|---|
| dbmodel.py:105-109 | a column is skipped when its name is not in `only`, even when `only` is empty | any row exported with `only` omitted: every named column is dropped | an empty `only` restricts nothing, as in app/dbmodel.py:84 | high, not executed | ExportProperties.RootEmptyOnlyDropsColumns | ExportProperties.PatchedEmptyOnlyKeepsColumns |
| app/dbmodel.py:84 | `should_skip` tests only the field object against `_exclude`, and the classes list plain names | a `Seeker`, whose `_exclude_ = ["pass_hash", "job_requests"]` comes from `User`, exports its password hash and job requests | names in `_exclude_` hide the column or relation, as dbmodel.py:107 does | high, not executed | ExportProperties.AppIgnoresNameExclusion | ExportProperties.PatchedHonoursNameExclusion |
| schemas.py:29 | inside the class, `__phone_num_re` is mangled to `_PhoneNumber__phone_num_re`, which is undefined | `"09123456789"` raises `NameError` | match `^09(\d{9})$` and return the nine digits | high, not executed | Validators.ValidatePhoneAsWritten | Validators.ValidatePhone |
| app/routers/jobs.py:12 | `Job.select(Job.expired == False)` selects the comparison as a column, so `count()` counts every job | one expired job and page 1: an empty page is served claiming one job | count only the non-expired jobs | high, not executed | JobsRouter.ExpiredJobsCountedAsWritten | JobsRouter.ServedPagesAreNonEmpty |
| app/dbmodel.py:79 | an omitted `max_depth` becomes -1, so the depth never reaches 0, and reverse-relation children start with an empty `seen` (lines 165-174) | `seeker.to_dict()` for a seeker with one skill and one job request whose job has no skills: Seeker, SkillSeeker, Seeker, JobRequest, Seeker, and so on, until Python's recursion limit | every export finishes, as the same call does when a finite `max_depth` is given | medium, not executed | SeekerCycle.SeekerExportNeverFinishes | SeekerCycle.SeekerExportWithDepthFinishes |
