/** `BaseModel.to_dict`, the depth-bounded graph exporter, in its two copies:
    dbmodel.py (`Root`) and app/dbmodel.py (`App`). The functions below are
    the specification: one function per loop of the source, each threading
    the state the loop mutates (the output dict `data`, the cloned `_exclude`
    set and the cloned `seen` set). `ToDict` and its phase methods in
    graph_export_method.dfy run the same loops imperatively and are proved
    equal to them.

    Recursion in the source has no fuel; here `fuel` counts the nested calls
    still allowed and `OutOfFuel` stands for Python's recursion limit. */
module GraphExport {
  import opened Base
  import opened EntityGraph

  /** Which copy of `to_dict`: dbmodel.py (`Root`), app/dbmodel.py (`App`),
      or `Patched`, which is `Root` with the column test corrected (see the
      findings in README.md): an empty `only` restricts nothing, and both a
      field and its name are honoured in `only` and `exclude`. */
  datatype Revision = Root | App | Patched

  /** The keyword arguments of `to_dict`. `only` and `seen` default to
      `None`, which `_clone_set` turns into the empty set; in `App`,
      `max_depth` defaults to `None`, so there `Default` means "omitted". */
  datatype Args = Args(
    recurse: Opt<bool>,
    backrefs: Opt<bool>,
    only: set<Key>,
    exclude: Opt<set<Key>>,
    seen: set<Key>,
    extraAttrs: Opt<seq<string>>,
    maxDepth: Opt<Option<int>>,
    manytomany: bool)

  /** A call with every argument omitted. */
  const NoArgs := Args(Default, Default, {}, Default, {}, Default, Default, false)

  /** The options after `_default` has been applied. `extras` is the
      iteration order of the cloned `_extra_attrs` set. */
  datatype Settings = Settings(recurse: bool, backrefs: bool, extras: seq<string>, depth: int)

  datatype ExportError = OutOfFuel | MissingRow(id: Id) | MissingAttribute(name: string)

  /** The `max_depth` value before `None` is replaced by -1. */
  function DepthArg(rev: Revision, p: Policy, a: Args): Option<int>
  {
    match rev
    case App => if a.maxDepth.Default? then None else a.maxDepth.v
    case _ => Resolve(a.maxDepth, p.maxDepth)
  }

  function Configure(rev: Revision, p: Policy, a: Args): (s: Settings)
    ensures s.depth == 0 ==> !s.recurse
    ensures s.depth != 0 ==> s.recurse == Resolve(a.recurse, p.recurse)
    ensures a.maxDepth == Given(None) ==> s.depth == -1
    ensures forall k :: a.maxDepth == Given(Some(k)) ==> s.depth == k
    ensures rev == App && a.maxDepth.Default? ==> s.depth == -1
    ensures rev != App && a.maxDepth.Default? ==> s.depth == if p.maxDepth.None? then -1 else p.maxDepth.value
  {
    var d := DepthArg(rev, p, a);
    var depth := if d.None? then -1 else d.value;
    Settings(
      if depth == 0 then false else Resolve(a.recurse, p.recurse),
      Resolve(a.backrefs, p.backrefs),
      Resolve(a.extraAttrs, p.includes),
      depth)
  }

  /** One invocation: the revision, the graph, the row being exported and the
      arguments it was called with. */
  datatype Ctx = Ctx(rev: Revision, g: Graph, rec: Record, args: Args) {
    function S(): Settings { Configure(rev, rec.policy, args) }
  }

  /** What every nested call receives: the caller's own `recurse`,
      `backrefs` and `exclude` arguments (possibly the sentinel), the cloned
      `only`, `max_depth - 1`, and the given `seen` (empty for reverse and
      many-to-many children, which are not passed one). */
  function ChildArgs(ctx: Ctx, seen: set<Key>): (a: Args)
    ensures forall p :: Configure(ctx.rev, p, a).depth == ctx.S().depth - 1
    ensures !a.manytomany && a.seen == seen
  {
    Args(ctx.args.recurse, ctx.args.backrefs, ctx.args.only, ctx.args.exclude, seen,
         Default, Given(Some(ctx.S().depth - 1)), false)
  }

  /** The locals the loops mutate. */
  datatype LoopState = LoopState(data: Entries<Value>, exclude: set<Key>, seen: set<Key>)

  /** `_exclude = _clone_set(_exclude); seen = _clone_set(seen); _exclude |= seen`. */
  function InitialState(ctx: Ctx): LoopState
  {
    LoopState([], Resolve(ctx.args.exclude, ctx.rec.policy.exclude) + ctx.args.seen, ctx.args.seen)
  }

  /** `should_skip(name)` for a string name. The closure reads the current
      `_exclude`, so the test sees every key added so far. */
  predicate SkipName(ctx: Ctx, exclude: set<Key>, n: string)
  {
    match ctx.rev
    case App => Name(n) in exclude || (ctx.args.only != {} && Name(n) !in ctx.args.only)
    case _ => Name(n) in exclude
  }

  /** `should_skip(field)` for a column. In `Root` the field's name is also
      looked up in `exclude` and must be in `only`; in `App` only the field
      itself is tested, and an empty `only` keeps everything. */
  predicate SkipColumn(ctx: Ctx, exclude: set<Key>, name: string)
  {
    var f := Field(ctx.rec.kind, name);
    match ctx.rev
    case Root => f in exclude || (name != "" && Name(name) in exclude) || (name != "" && Name(name) !in ctx.args.only)
    case App => f in exclude || (ctx.args.only != {} && f !in ctx.args.only)
    case Patched =>
      f in exclude || Name(name) in exclude ||
      (ctx.args.only != {} && f !in ctx.args.only && Name(name) !in ctx.args.only)
  }

  /** The tests that make the backref loop `continue`. */
  predicate SkipBackref(ctx: Ctx, exclude: set<Key>, b: Backref)
  {
    var d := Descriptor(ctx.rec.kind, b.name);
    || (ctx.rev != App && Name(b.name) in exclude)
    || b.name == "+"
    || d in exclude || b.fk in exclude
    || (ctx.args.only != {} && d !in ctx.args.only && b.fk !in ctx.args.only)
  }

  /** `[rel_obj.to_dict(...) for rel_obj in rows]`, failing on the first child
      that fails. */
  function ExportRows(rev: Revision, g: Graph, rows: seq<Id>, a: Args, fuel: nat): Result<seq<Value>, ExportError>
    decreases fuel, 1, |rows|
  {
    if rows == [] then Ok([])
    else
      var v :- Export(rev, g, rows[0], a, fuel);
      var vs :- ExportRows(rev, g, rows[1..], a, fuel);
      Ok([v] + vs)
  }

  /** One pass of the many-to-many loop. */
  function ManyToManyStep(ctx: Ctx, m: ManyToMany, st: LoopState, fuel: nat): Result<LoopState, ExportError>
    decreases fuel, 2, 0
  {
    if SkipName(ctx, st.exclude, m.name) then Ok(st)
    else
      var acc :- ExportRows(ctx.rev, ctx.g, m.rows, ChildArgs(ctx, {}), fuel);
      Ok(LoopState(Put(st.data, m.name, List(acc)), st.exclude + {m.field, m.reverse} + m.throughRefs, st.seen))
  }

  function ManyToManyLoop(ctx: Ctx, ms: seq<ManyToMany>, st: LoopState, fuel: nat): Result<LoopState, ExportError>
    decreases fuel, 2, |ms|
  {
    if ms == [] then Ok(st)
    else
      var st' :- ManyToManyStep(ctx, ms[0], st, fuel);
      ManyToManyLoop(ctx, ms[1..], st', fuel)
  }

  /** The `if manytomany: ... else: ...` block; the `else` exists only in dbmodel.py. */
  function ManyToManyStage(ctx: Ctx, st: LoopState, fuel: nat): Result<LoopState, ExportError>
    decreases fuel, 3, 0
  {
    if ctx.args.manytomany then ManyToManyLoop(ctx, ctx.rec.manyToMany, st, fuel)
    else if ctx.rev != App then Ok(st.(exclude := st.exclude + ManyToManyNames(ctx.rec.manyToMany)))
    else Ok(st)
  }

  /** One pass of the column loop. A followed foreign key goes into `seen`
      before the nested call, which receives that `seen`. */
  function ColumnStep(ctx: Ctx, c: Column, st: LoopState, fuel: nat): Result<LoopState, ExportError>
    decreases fuel, 2, 0
  {
    if SkipColumn(ctx, st.exclude, c.name) then Ok(st)
    else if c.ForeignKey? && ctx.S().recurse then
      if c.target.None? then Ok(st.(data := Put(st.data, c.name, Null)))
      else
        var seen' := st.seen + {Field(ctx.rec.kind, c.name)};
        var child :- Export(ctx.rev, ctx.g, c.target.value, ChildArgs(ctx, seen'), fuel);
        Ok(LoopState(Put(st.data, c.name, child), st.exclude, seen'))
    else Ok(st.(data := Put(st.data, c.name, Stored(c))))
  }

  function ColumnsLoop(ctx: Ctx, cs: seq<Column>, st: LoopState, fuel: nat): Result<LoopState, ExportError>
    decreases fuel, 2, |cs|
  {
    if cs == [] then Ok(st)
    else
      var st' :- ColumnStep(ctx, cs[0], st, fuel);
      ColumnsLoop(ctx, cs[1..], st', fuel)
  }

  /** One extra attribute: a callable is invoked, anything else copied. */
  function ExtraStep(rec: Record, name: string, st: LoopState): Result<LoopState, ExportError>
  {
    var a := Attr(rec, name);
    if a.None? then Err(MissingAttribute(name))
    else
      var v := if a.value.Method? then a.value.ret else a.value;
      Ok(st.(data := Put(st.data, name, v)))
  }

  function ExtrasLoop(rec: Record, names: seq<string>, st: LoopState): Result<LoopState, ExportError>
  {
    if names == [] then Ok(st)
    else
      var st' :- ExtraStep(rec, names[0], st);
      ExtrasLoop(rec, names[1..], st')
  }

  /** One pass of the backref loop; the foreign key is excluded from then on. */
  function BackrefStep(ctx: Ctx, b: Backref, st: LoopState, fuel: nat): Result<LoopState, ExportError>
    decreases fuel, 2, 0
  {
    if SkipBackref(ctx, st.exclude, b) then Ok(st)
    else
      var acc :- ExportRows(ctx.rev, ctx.g, b.rows, ChildArgs(ctx, {}), fuel);
      Ok(LoopState(Put(st.data, b.name, List(acc)), st.exclude + {b.fk}, st.seen))
  }

  function BackrefsLoop(ctx: Ctx, bs: seq<Backref>, st: LoopState, fuel: nat): Result<LoopState, ExportError>
    decreases fuel, 2, |bs|
  {
    if bs == [] then Ok(st)
    else
      var st' :- BackrefStep(ctx, bs[0], st, fuel);
      BackrefsLoop(ctx, bs[1..], st', fuel)
  }

  /** `if _backrefs and _recurse:` around the backref loop. */
  function BackrefStage(ctx: Ctx, bs: seq<Backref>, st: LoopState, fuel: nat): Result<LoopState, ExportError>
    decreases fuel, 3, 0
  {
    if ctx.S().backrefs && ctx.S().recurse then BackrefsLoop(ctx, bs, st, fuel) else Ok(st)
  }

  /** Everything before the backref loop. */
  function FrontStages(ctx: Ctx, fuel: nat): Result<LoopState, ExportError>
    decreases fuel, 4, 0
  {
    var st1 :- ManyToManyStage(ctx, InitialState(ctx), fuel);
    var st2 :- ColumnsLoop(ctx, ctx.rec.columns, st1, fuel);
    ExtrasLoop(ctx.rec, ctx.S().extras, st2)
  }

  /** The body of `to_dict` for one row; `fuel` is what nested calls get. */
  function ExportRecord(ctx: Ctx, fuel: nat): Result<Value, ExportError>
    decreases fuel, 5, 0
  {
    var st3 :- FrontStages(ctx, fuel);
    var st4 :- BackrefStage(ctx, ctx.rec.backrefs, st3, fuel);
    Ok(Dict(st4.data))
  }

  /** `g[id].to_dict(**a)`. */
  function Export(rev: Revision, g: Graph, id: Id, a: Args, fuel: nat): Result<Value, ExportError>
    decreases fuel, 0, 0
  {
    if fuel == 0 then Err(OutOfFuel)
    else if id !in g then Err(MissingRow(id))
    else ExportRecord(Ctx(rev, g, g[id], a), fuel - 1)
  }
}
