/** `to_dict` as the source runs it: loops that fill the output dict, append
    child exports to `accum` lists and add to the cloned `_exclude` and `seen`
    sets. Each method is proved equal to its specification in GraphExport. */
module ToDictMethod {
  import opened Base
  import opened EntityGraph
  import opened GraphExport

  /** `g[id].to_dict(**a)`, with at most `fuel` nested calls. */
  method ToDict(rev: Revision, g: Graph, id: Id, a: Args, fuel: nat) returns (r: Result<Value, ExportError>)
    ensures r == Export(rev, g, id, a, fuel)
    decreases fuel, 0, 0
  {
    if fuel == 0 {
      return Err(OutOfFuel);
    }
    if id !in g {
      return Err(MissingRow(id));
    }
    var ctx := Ctx(rev, g, g[id], a);
    var exclude := Resolve(a.exclude, ctx.rec.policy.exclude);
    var seen := a.seen;
    exclude := exclude + seen;
    var st := LoopState([], exclude, seen);
    assert st == InitialState(ctx);
    assert Export(rev, g, id, a, fuel) == ExportRecord(ctx, fuel - 1);
    st :- ManyToManyPhase(ctx, st, fuel - 1);
    st :- ColumnsPhase(ctx, st, fuel - 1);
    st :- ExtrasPhase(ctx.rec, ctx.S().extras, st);
    if ctx.S().backrefs && ctx.S().recurse {
      st :- BackrefsPhase(ctx, st, fuel - 1);
    }
    return Ok(Dict(st.data));
  }

  ghost function Prepend(acc: seq<Value>, r: Result<seq<Value>, ExportError>): Result<seq<Value>, ExportError>
  {
    if r.Ok? then Ok(acc + r.value) else r
  }

  /** `for rel_obj in rows: accum.append(rel_obj.to_dict(**a))`. */
  method ExportRowsInOrder(rev: Revision, g: Graph, rows: seq<Id>, a: Args, fuel: nat)
    returns (r: Result<seq<Value>, ExportError>)
    ensures r == ExportRows(rev, g, rows, a, fuel)
    decreases fuel, 1, 0
  {
    var accum: seq<Value> := [];
    var i := 0;
    assert rows[i..] == rows;
    ghost var whole := ExportRows(rev, g, rows, a, fuel);
    assert whole.Ok? ==> accum + whole.value == whole.value;
    while i < |rows|
      invariant 0 <= i <= |rows|
      invariant ExportRows(rev, g, rows, a, fuel) == Prepend(accum, ExportRows(rev, g, rows[i..], a, fuel))
    {
      assert rows[i..][1..] == rows[i + 1..];
      var v :- ToDict(rev, g, rows[i], a, fuel);
      var rest := ExportRows(rev, g, rows[i + 1..], a, fuel);
      assert rest.Ok? ==> accum + ([v] + rest.value) == (accum + [v]) + rest.value;
      accum := accum + [v];
      i := i + 1;
    }
    assert rows[i..] == [];
    assert accum + [] == accum;
    return Ok(accum);
  }

  /** The `if manytomany:` block and, in dbmodel.py, its `else`. */
  method ManyToManyPhase(ctx: Ctx, st: LoopState, fuel: nat) returns (r: Result<LoopState, ExportError>)
    ensures r == ManyToManyStage(ctx, st, fuel)
    decreases fuel, 2, 0
  {
    var ms := ctx.rec.manyToMany;
    if !ctx.args.manytomany {
      if ctx.rev != App {
        return Ok(st.(exclude := st.exclude + ManyToManyNames(ms)));
      }
      return Ok(st);
    }
    var data, exclude := st.data, st.exclude;
    var i := 0;
    while i < |ms|
      invariant 0 <= i <= |ms|
      invariant ManyToManyLoop(ctx, ms, st, fuel) == ManyToManyLoop(ctx, ms[i..], LoopState(data, exclude, st.seen), fuel)
    {
      var m := ms[i];
      assert ms[i..][1..] == ms[i + 1..];
      if !SkipName(ctx, exclude, m.name) {
        exclude := exclude + {m.field, m.reverse};
        exclude := exclude + m.throughRefs;
        var accum :- ExportRowsInOrder(ctx.rev, ctx.g, m.rows, ChildArgs(ctx, {}), fuel);
        data := Put(data, m.name, List(accum));
      }
      i := i + 1;
    }
    return Ok(LoopState(data, exclude, st.seen));
  }

  /** `for field in self._meta.sorted_fields:`. */
  method ColumnsPhase(ctx: Ctx, st: LoopState, fuel: nat) returns (r: Result<LoopState, ExportError>)
    ensures r == ColumnsLoop(ctx, ctx.rec.columns, st, fuel)
    decreases fuel, 2, 0
  {
    var cs := ctx.rec.columns;
    var data, seen := st.data, st.seen;
    var i := 0;
    while i < |cs|
      invariant 0 <= i <= |cs|
      invariant ColumnsLoop(ctx, cs, st, fuel) == ColumnsLoop(ctx, cs[i..], LoopState(data, st.exclude, seen), fuel)
    {
      var c := cs[i];
      assert cs[i..][1..] == cs[i + 1..];
      if !SkipColumn(ctx, st.exclude, c.name) {
        var fieldData := Stored(c);
        if c.ForeignKey? && ctx.S().recurse {
          if c.target.Some? {
            seen := seen + {Field(ctx.rec.kind, c.name)};
            fieldData :- ToDict(ctx.rev, ctx.g, c.target.value, ChildArgs(ctx, seen), fuel);
          } else {
            fieldData := Null;
          }
        }
        data := Put(data, c.name, fieldData);
      }
      i := i + 1;
    }
    return Ok(LoopState(data, st.exclude, seen));
  }

  /** `for attr_name in _extra_attrs:`. */
  method ExtrasPhase(rec: Record, names: seq<string>, st: LoopState) returns (r: Result<LoopState, ExportError>)
    ensures r == ExtrasLoop(rec, names, st)
  {
    var data := st.data;
    var i := 0;
    while i < |names|
      invariant 0 <= i <= |names|
      invariant ExtrasLoop(rec, names, st) == ExtrasLoop(rec, names[i..], st.(data := data))
    {
      assert names[i..][1..] == names[i + 1..];
      var attr := Attr(rec, names[i]);
      if attr.None? {
        return Err(MissingAttribute(names[i]));
      }
      if attr.value.Method? {
        data := Put(data, names[i], attr.value.ret);
      } else {
        data := Put(data, names[i], attr.value);
      }
      i := i + 1;
    }
    return Ok(st.(data := data));
  }

  /** `for foreign_key, rel_model in self._meta.backrefs.items():`. */
  method BackrefsPhase(ctx: Ctx, st: LoopState, fuel: nat) returns (r: Result<LoopState, ExportError>)
    ensures r == BackrefsLoop(ctx, ctx.rec.backrefs, st, fuel)
    decreases fuel, 2, 0
  {
    var bs := ctx.rec.backrefs;
    var data, exclude := st.data, st.exclude;
    var i := 0;
    while i < |bs|
      invariant 0 <= i <= |bs|
      invariant BackrefsLoop(ctx, bs, st, fuel) == BackrefsLoop(ctx, bs[i..], LoopState(data, exclude, st.seen), fuel)
    {
      var b := bs[i];
      assert bs[i..][1..] == bs[i + 1..];
      if !SkipBackref(ctx, exclude, b) {
        exclude := exclude + {b.fk};
        var accum :- ExportRowsInOrder(ctx.rev, ctx.g, b.rows, ChildArgs(ctx, {}), fuel);
        data := Put(data, b.name, List(accum));
      }
      i := i + 1;
    }
    return Ok(LoopState(data, exclude, st.seen));
  }
}
