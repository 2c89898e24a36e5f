/** What `to_dict` promises, proved about the specification in GraphExport:
    the shape of the nested lists, the order of the output keys, the depth
    bound that makes the walk finish (and a cycle on which it does not), the
    `seen` guard against walking back along a followed foreign key, and the
    behaviour of the column filter in each revision. */
module ExportProperties {
  import opened Base
  import opened EntityGraph
  import opened GraphExport

  // ---------------------------------------------------------------------
  // Lists of child exports

  /** `[r.to_dict(...) for r in rows]` succeeds exactly when every child
      does, and then holds one export per row, in query order. */
  lemma {:induction false} ExportRowsShape(rev: Revision, g: Graph, rows: seq<Id>, a: Args, fuel: nat)
    ensures ExportRows(rev, g, rows, a, fuel).Ok? <==>
      forall i :: 0 <= i < |rows| ==> Export(rev, g, rows[i], a, fuel).Ok?
    ensures ExportRows(rev, g, rows, a, fuel).Ok? ==>
      |ExportRows(rev, g, rows, a, fuel).value| == |rows| &&
      forall i :: 0 <= i < |rows| ==> Export(rev, g, rows[i], a, fuel) == Ok(ExportRows(rev, g, rows, a, fuel).value[i])
    decreases |rows|
  {
    if rows != [] {
      ExportRowsShape(rev, g, rows[1..], a, fuel);
      assert forall i :: 1 <= i < |rows| ==> rows[1..][i - 1] == rows[i];
    }
  }

  // ---------------------------------------------------------------------
  // What each loop leaves unchanged: keys already in `data` keep their
  // position, `_exclude` only grows, and `seen` only grows.

  lemma {:induction false} ManyToManyLoopFrame(ctx: Ctx, ms: seq<ManyToMany>, st: LoopState, fuel: nat)
    ensures var r := ManyToManyLoop(ctx, ms, st, fuel);
      r.Ok? ==> st.exclude <= r.value.exclude && r.value.seen == st.seen && KeyPrefix(st.data, r.value.data)
    decreases |ms|
  {
    if ms != [] {
      var s := ManyToManyStep(ctx, ms[0], st, fuel);
      if s.Ok? {
        if !SkipName(ctx, st.exclude, ms[0].name) {
          PutKeys(st.data, ms[0].name, List(ExportRows(ctx.rev, ctx.g, ms[0].rows, ChildArgs(ctx, {}), fuel).value));
        }
        ManyToManyLoopFrame(ctx, ms[1..], s.value, fuel);
      }
    }
  }

  /** The value a column that passes the filter is written with. */
  function ColumnValue(ctx: Ctx, c: Column, st: LoopState, fuel: nat): Value
    requires !SkipColumn(ctx, st.exclude, c.name) && ColumnStep(ctx, c, st, fuel).Ok?
  {
    if c.ForeignKey? && ctx.S().recurse then
      if c.target.None? then Null
      else Export(ctx.rev, ctx.g, c.target.value, ChildArgs(ctx, st.seen + {Field(ctx.rec.kind, c.name)}), fuel).value
    else Stored(c)
  }

  lemma {:induction false} ColumnsLoopFrame(ctx: Ctx, cs: seq<Column>, st: LoopState, fuel: nat)
    ensures var r := ColumnsLoop(ctx, cs, st, fuel);
      r.Ok? ==> r.value.exclude == st.exclude && st.seen <= r.value.seen && KeyPrefix(st.data, r.value.data)
    decreases |cs|
  {
    if cs != [] {
      var s := ColumnStep(ctx, cs[0], st, fuel);
      if s.Ok? {
        if !SkipColumn(ctx, st.exclude, cs[0].name) {
          PutKeys(st.data, cs[0].name, ColumnValue(ctx, cs[0], st, fuel));
        }
        ColumnsLoopFrame(ctx, cs[1..], s.value, fuel);
      }
    }
  }

  lemma {:induction false} ExtrasLoopFrame(rec: Record, names: seq<string>, st: LoopState)
    ensures var r := ExtrasLoop(rec, names, st);
      r.Ok? ==> r.value.exclude == st.exclude && r.value.seen == st.seen && KeyPrefix(st.data, r.value.data)
    decreases |names|
  {
    if names != [] {
      var s := ExtraStep(rec, names[0], st);
      if s.Ok? {
        var a := Attr(rec, names[0]).value;
        PutKeys(st.data, names[0], if a.Method? then a.ret else a);
        ExtrasLoopFrame(rec, names[1..], s.value);
      }
    }
  }

  lemma {:induction false} BackrefsLoopFrame(ctx: Ctx, bs: seq<Backref>, st: LoopState, fuel: nat)
    ensures var r := BackrefsLoop(ctx, bs, st, fuel);
      r.Ok? ==> st.exclude <= r.value.exclude && r.value.seen == st.seen && KeyPrefix(st.data, r.value.data)
    decreases |bs|
  {
    if bs != [] {
      var s := BackrefStep(ctx, bs[0], st, fuel);
      if s.Ok? {
        if !SkipBackref(ctx, st.exclude, bs[0]) {
          PutKeys(st.data, bs[0].name, List(ExportRows(ctx.rev, ctx.g, bs[0].rows, ChildArgs(ctx, {}), fuel).value));
        }
        BackrefsLoopFrame(ctx, bs[1..], s.value, fuel);
      }
    }
  }

  /** The output lists many-to-many relations, then columns, then extra
      attributes, then reverse relations: each stage's keys are a prefix of
      the next stage's. */
  lemma StagesInOrder(ctx: Ctx, fuel: nat)
    ensures var st1 := ManyToManyStage(ctx, InitialState(ctx), fuel);
      ExportRecord(ctx, fuel).Ok? ==>
        st1.Ok? &&
        var st2 := ColumnsLoop(ctx, ctx.rec.columns, st1.value, fuel);
        st2.Ok? && KeyPrefix(st1.value.data, st2.value.data) &&
        var st3 := ExtrasLoop(ctx.rec, ctx.S().extras, st2.value);
        st3.Ok? && KeyPrefix(st2.value.data, st3.value.data) &&
        KeyPrefix(st3.value.data, ExportRecord(ctx, fuel).value.entries)
  {
    var st1 := ManyToManyStage(ctx, InitialState(ctx), fuel);
    var r := ExportRecord(ctx, fuel);
    if r.Ok? {
      assert FrontStages(ctx, fuel).Ok?;
      assert st1.Ok?;
      ColumnsLoopFrame(ctx, ctx.rec.columns, st1.value, fuel);
      var st2 := ColumnsLoop(ctx, ctx.rec.columns, st1.value, fuel);
      assert st2.Ok?;
      ExtrasLoopFrame(ctx.rec, ctx.S().extras, st2.value);
      var st3 := ExtrasLoop(ctx.rec, ctx.S().extras, st2.value);
      assert FrontStages(ctx, fuel) == st3;
      assert st3.Ok?;
      if ctx.S().backrefs && ctx.S().recurse {
        BackrefsLoopFrame(ctx, ctx.rec.backrefs, st3.value, fuel);
      }
    }
  }

  // ---------------------------------------------------------------------
  // One step of each loop: the entry it writes.

  /** A column that passes the filter is written under its name: with
      recursion on, a foreign key becomes the export of the row it points at
      (or `None`); otherwise the stored value is copied. Other keys keep
      their values. */
  lemma ColumnEntry(ctx: Ctx, c: Column, st: LoopState, fuel: nat, k: string)
    requires !SkipColumn(ctx, st.exclude, c.name)
    ensures var r := ColumnStep(ctx, c, st, fuel);
      r.Ok? ==>
        Lookup(r.value.data, k) ==
          if k != c.name then Lookup(st.data, k)
          else if c.ForeignKey? && ctx.S().recurse then
            if c.target.None? then Some(Null)
            else Some(Export(ctx.rev, ctx.g, c.target.value,
                             ChildArgs(ctx, st.seen + {Field(ctx.rec.kind, c.name)}), fuel).value)
          else Some(Stored(c))
  {
    var r := ColumnStep(ctx, c, st, fuel);
    if r.Ok? {
      var v := if c.ForeignKey? && ctx.S().recurse then
          if c.target.None? then Null
          else Export(ctx.rev, ctx.g, c.target.value, ChildArgs(ctx, st.seen + {Field(ctx.rec.kind, c.name)}), fuel).value
        else Stored(c);
      assert r.value.data == Put(st.data, c.name, v);
      PutLookup(st.data, c.name, v, k);
    }
  }

  /** A followed foreign key goes into `seen`, and the nested call receives
      that `seen`. */
  lemma FollowedKeyIsSeen(ctx: Ctx, c: Column, st: LoopState, fuel: nat)
    requires !SkipColumn(ctx, st.exclude, c.name) && c.ForeignKey? && c.target.Some? && ctx.S().recurse
    ensures var r := ColumnStep(ctx, c, st, fuel);
      r.Ok? ==>
        (Field(ctx.rec.kind, c.name) in r.value.seen &&
         Export(ctx.rev, ctx.g, c.target.value, ChildArgs(ctx, r.value.seen), fuel).Ok? &&
         Lookup(r.value.data, c.name) == Some(Export(ctx.rev, ctx.g, c.target.value, ChildArgs(ctx, r.value.seen), fuel).value))
  {
    ColumnEntry(ctx, c, st, fuel, c.name);
  }

  /** A reverse relation that passes the filters is written as the list of
      its rows' exports, in query order (`[]` for no rows), and its foreign
      key is excluded from then on. */
  lemma BackrefEntry(ctx: Ctx, b: Backref, st: LoopState, fuel: nat)
    requires !SkipBackref(ctx, st.exclude, b)
    ensures var r := BackrefStep(ctx, b, st, fuel);
      r.Ok? ==>
        b.fk in r.value.exclude &&
        Lookup(r.value.data, b.name).Some? && Lookup(r.value.data, b.name).value.List? &&
        var vs := Lookup(r.value.data, b.name).value.items;
        |vs| == |b.rows| && (b.rows == [] ==> vs == []) &&
        forall i :: 0 <= i < |b.rows| ==> Export(ctx.rev, ctx.g, b.rows[i], ChildArgs(ctx, {}), fuel) == Ok(vs[i])
  {
    var rows := ExportRows(ctx.rev, ctx.g, b.rows, ChildArgs(ctx, {}), fuel);
    ExportRowsShape(ctx.rev, ctx.g, b.rows, ChildArgs(ctx, {}), fuel);
    if rows.Ok? {
      PutLookup(st.data, b.name, List(rows.value), b.name);
    }
  }

  /** A many-to-many relation that passes the filter is written as the list
      of its rows' exports; the relation, its reverse and the join table's
      foreign keys are excluded from then on; the children do not expand
      many-to-many relations themselves. */
  lemma ManyToManyEntry(ctx: Ctx, m: ManyToMany, st: LoopState, fuel: nat)
    requires !SkipName(ctx, st.exclude, m.name)
    ensures var r := ManyToManyStep(ctx, m, st, fuel);
      r.Ok? ==>
        m.field in r.value.exclude && m.reverse in r.value.exclude && m.throughRefs <= r.value.exclude &&
        !ChildArgs(ctx, {}).manytomany &&
        Lookup(r.value.data, m.name).Some? && Lookup(r.value.data, m.name).value.List? &&
        var vs := Lookup(r.value.data, m.name).value.items;
        |vs| == |m.rows| &&
        forall i :: 0 <= i < |m.rows| ==> Export(ctx.rev, ctx.g, m.rows[i], ChildArgs(ctx, {}), fuel) == Ok(vs[i])
  {
    var rows := ExportRows(ctx.rev, ctx.g, m.rows, ChildArgs(ctx, {}), fuel);
    ExportRowsShape(ctx.rev, ctx.g, m.rows, ChildArgs(ctx, {}), fuel);
    if rows.Ok? {
      PutLookup(st.data, m.name, List(rows.value), m.name);
    }
  }

  // ---------------------------------------------------------------------
  // Depth

  /** With every option defaulted, a `BaseModel` of dbmodel.py recurses one
      level (`_max_depth_ = True`), and the rows it nests are exported with
      depth 0, hence without recursion. */
  lemma BaseDefaultsNestOneLevel(ctx: Ctx, seen: set<Key>, p: Policy)
    requires ctx.rev == Root && ctx.rec.policy == BasePolicy && ctx.args.maxDepth.Default?
    ensures ctx.S().depth == 1
    ensures Configure(ctx.rev, p, ChildArgs(ctx, seen)).depth == 0
    ensures !Configure(ctx.rev, p, ChildArgs(ctx, seen)).recurse
  {
  }

  /** A resolved depth the walk is guaranteed to finish within. */
  predicate Fits(rev: Revision, p: Policy, a: Args, fuel: nat)
  {
    var d := Configure(rev, p, a).depth;
    0 <= d <= fuel && !(d == 0 && a.manytomany)
  }

  /** With a resolved depth `d >= 0`, `to_dict` nests at most `d` calls, so
      `d + 1` levels of fuel always suffice. (`manytomany=True` at depth 0
      is excluded: its many-to-many children get depth -1, which is
      unbounded.) */
  lemma {:induction false} ExportWithinDepth(rev: Revision, g: Graph, id: Id, a: Args, fuel: nat)
    requires 0 < fuel
    requires id in g ==> Fits(rev, g[id].policy, a, fuel - 1)
    ensures Export(rev, g, id, a, fuel) != Err(OutOfFuel)
    decreases fuel, 0, 0
  {
    if id in g {
      RecordWithinDepth(Ctx(rev, g, g[id], a), fuel - 1);
    }
  }

  lemma {:induction false} RowsWithinDepth(ctx: Ctx, rows: seq<Id>, seen: set<Key>, fuel: nat)
    requires 1 <= ctx.S().depth <= fuel
    ensures ExportRows(ctx.rev, ctx.g, rows, ChildArgs(ctx, seen), fuel) != Err(OutOfFuel)
    decreases fuel, 1, |rows|
  {
    if rows != [] {
      ExportWithinDepth(ctx.rev, ctx.g, rows[0], ChildArgs(ctx, seen), fuel);
      RowsWithinDepth(ctx, rows[1..], seen, fuel);
    }
  }

  lemma {:induction false} ManyToManyWithinDepth(ctx: Ctx, ms: seq<ManyToMany>, st: LoopState, fuel: nat)
    requires 1 <= ctx.S().depth <= fuel
    ensures ManyToManyLoop(ctx, ms, st, fuel) != Err(OutOfFuel)
    decreases fuel, 2, |ms|
  {
    if ms != [] {
      if !SkipName(ctx, st.exclude, ms[0].name) {
        RowsWithinDepth(ctx, ms[0].rows, {}, fuel);
      }
      var s := ManyToManyStep(ctx, ms[0], st, fuel);
      if s.Ok? {
        ManyToManyWithinDepth(ctx, ms[1..], s.value, fuel);
      }
    }
  }

  lemma {:induction false} ColumnsWithinDepth(ctx: Ctx, cs: seq<Column>, st: LoopState, fuel: nat)
    requires 0 <= ctx.S().depth <= fuel
    ensures ColumnsLoop(ctx, cs, st, fuel) != Err(OutOfFuel)
    decreases fuel, 2, |cs|
  {
    if cs != [] {
      var c := cs[0];
      if !SkipColumn(ctx, st.exclude, c.name) && c.ForeignKey? && ctx.S().recurse && c.target.Some? {
        var seen' := st.seen + {Field(ctx.rec.kind, c.name)};
        ExportWithinDepth(ctx.rev, ctx.g, c.target.value, ChildArgs(ctx, seen'), fuel);
      }
      var s := ColumnStep(ctx, c, st, fuel);
      if s.Ok? {
        ColumnsWithinDepth(ctx, cs[1..], s.value, fuel);
      }
    }
  }

  lemma {:induction false} BackrefsWithinDepth(ctx: Ctx, bs: seq<Backref>, st: LoopState, fuel: nat)
    requires 1 <= ctx.S().depth <= fuel
    ensures BackrefsLoop(ctx, bs, st, fuel) != Err(OutOfFuel)
    decreases fuel, 2, |bs|
  {
    if bs != [] {
      if !SkipBackref(ctx, st.exclude, bs[0]) {
        RowsWithinDepth(ctx, bs[0].rows, {}, fuel);
      }
      var s := BackrefStep(ctx, bs[0], st, fuel);
      if s.Ok? {
        BackrefsWithinDepth(ctx, bs[1..], s.value, fuel);
      }
    }
  }

  /** The extra attributes never recurse: they fail only on a missing
      attribute. */
  lemma {:induction false} ExtrasFailOnlyOnMissing(rec: Record, names: seq<string>, st: LoopState)
    ensures var r := ExtrasLoop(rec, names, st);
      r.Err? ==> exists i :: 0 <= i < |names| && r.error == MissingAttribute(names[i]) && Attr(rec, names[i]).None?
    decreases |names|
  {
    if names != [] {
      var s := ExtraStep(rec, names[0], st);
      if s.Ok? {
        ExtrasFailOnlyOnMissing(rec, names[1..], s.value);
        var r := ExtrasLoop(rec, names[1..], s.value);
        if r.Err? {
          var i :| 0 <= i < |names[1..]| && r.error == MissingAttribute(names[1..][i]) && Attr(rec, names[1..][i]).None?;
          assert names[1..][i] == names[i + 1];
        }
      }
    }
  }

  lemma {:induction false} RecordWithinDepth(ctx: Ctx, fuel: nat)
    requires Fits(ctx.rev, ctx.rec.policy, ctx.args, fuel)
    ensures ExportRecord(ctx, fuel) != Err(OutOfFuel)
    decreases fuel, 5, 0
  {
    var st0 := InitialState(ctx);
    if ctx.args.manytomany {
      ManyToManyWithinDepth(ctx, ctx.rec.manyToMany, st0, fuel);
    }
    var st1 := ManyToManyStage(ctx, st0, fuel);
    if st1.Ok? {
      ColumnsWithinDepth(ctx, ctx.rec.columns, st1.value, fuel);
      var st2 := ColumnsLoop(ctx, ctx.rec.columns, st1.value, fuel);
      if st2.Ok? {
        ExtrasFailOnlyOnMissing(ctx.rec, ctx.S().extras, st2.value);
        var st3 := ExtrasLoop(ctx.rec, ctx.S().extras, st2.value);
        if st3.Ok? && ctx.S().backrefs && ctx.S().recurse {
          BackrefsWithinDepth(ctx, ctx.rec.backrefs, st3.value, fuel);
        }
      }
    }
  }

  // ---------------------------------------------------------------------
  // Running out is the only failure in a closed graph

  /** Every row a record refers to is in the graph, and its class lists no
      extra attributes (`_include_` is empty). */
  predicate RowClosed(g: Graph, rec: Record)
  {
    && rec.policy.includes == []
    && (forall i :: 0 <= i < |rec.columns| && rec.columns[i].ForeignKey? && rec.columns[i].target.Some? ==>
          rec.columns[i].target.value in g)
    && (forall i, k :: 0 <= i < |rec.manyToMany| && 0 <= k < |rec.manyToMany[i].rows| ==> rec.manyToMany[i].rows[k] in g)
    && (forall i, k :: 0 <= i < |rec.backrefs| && 0 <= k < |rec.backrefs[i].rows| ==> rec.backrefs[i].rows[k] in g)
  }

  predicate Closed(g: Graph)
  {
    forall id :: id in g ==> RowClosed(g, g[id])
  }

  /** `extra_attrs` omitted or empty. */
  predicate NoExtras(a: Args)
  {
    a.extraAttrs.Default? || a.extraAttrs == Given([])
  }

  /** In a closed graph, without extra attributes, `to_dict` either returns
      a value or runs out of recursion: no row is missing and no attribute
      lookup fails. */
  lemma {:induction false} OnlyRunsOut(rev: Revision, g: Graph, id: Id, a: Args, fuel: nat)
    requires Closed(g) && id in g && NoExtras(a)
    ensures Export(rev, g, id, a, fuel).Ok? || Export(rev, g, id, a, fuel) == Err(OutOfFuel)
    decreases fuel, 0, 0
  {
    if fuel > 0 {
      RecordOnlyRunsOut(Ctx(rev, g, g[id], a), fuel - 1);
    }
  }

  lemma {:induction false} RowsOnlyRunOut(rev: Revision, g: Graph, rows: seq<Id>, a: Args, fuel: nat)
    requires Closed(g) && NoExtras(a) && forall k :: 0 <= k < |rows| ==> rows[k] in g
    ensures ExportRows(rev, g, rows, a, fuel).Ok? || ExportRows(rev, g, rows, a, fuel) == Err(OutOfFuel)
    decreases fuel, 1, |rows|
  {
    if rows != [] {
      OnlyRunsOut(rev, g, rows[0], a, fuel);
      RowsOnlyRunOut(rev, g, rows[1..], a, fuel);
    }
  }

  lemma {:induction false} ManyToManyOnlyRunsOut(ctx: Ctx, ms: seq<ManyToMany>, st: LoopState, fuel: nat)
    requires Closed(ctx.g)
    requires forall i, k :: 0 <= i < |ms| && 0 <= k < |ms[i].rows| ==> ms[i].rows[k] in ctx.g
    ensures ManyToManyLoop(ctx, ms, st, fuel).Ok? || ManyToManyLoop(ctx, ms, st, fuel) == Err(OutOfFuel)
    decreases fuel, 2, |ms|
  {
    if ms != [] {
      if !SkipName(ctx, st.exclude, ms[0].name) {
        RowsOnlyRunOut(ctx.rev, ctx.g, ms[0].rows, ChildArgs(ctx, {}), fuel);
      }
      var s := ManyToManyStep(ctx, ms[0], st, fuel);
      if s.Ok? {
        assert forall i :: 0 <= i < |ms[1..]| ==> ms[1..][i] == ms[i + 1];
        ManyToManyOnlyRunsOut(ctx, ms[1..], s.value, fuel);
      }
    }
  }

  lemma {:induction false} ColumnsOnlyRunOut(ctx: Ctx, cs: seq<Column>, st: LoopState, fuel: nat)
    requires Closed(ctx.g)
    requires forall i :: 0 <= i < |cs| && cs[i].ForeignKey? && cs[i].target.Some? ==> cs[i].target.value in ctx.g
    ensures ColumnsLoop(ctx, cs, st, fuel).Ok? || ColumnsLoop(ctx, cs, st, fuel) == Err(OutOfFuel)
    decreases fuel, 2, |cs|
  {
    if cs != [] {
      var c := cs[0];
      if !SkipColumn(ctx, st.exclude, c.name) && c.ForeignKey? && ctx.S().recurse && c.target.Some? {
        var seen' := st.seen + {Field(ctx.rec.kind, c.name)};
        OnlyRunsOut(ctx.rev, ctx.g, c.target.value, ChildArgs(ctx, seen'), fuel);
      }
      var s := ColumnStep(ctx, c, st, fuel);
      if s.Ok? {
        assert forall i :: 0 <= i < |cs[1..]| ==> cs[1..][i] == cs[i + 1];
        ColumnsOnlyRunOut(ctx, cs[1..], s.value, fuel);
      }
    }
  }

  lemma {:induction false} BackrefsOnlyRunOut(ctx: Ctx, bs: seq<Backref>, st: LoopState, fuel: nat)
    requires Closed(ctx.g)
    requires forall i, k :: 0 <= i < |bs| && 0 <= k < |bs[i].rows| ==> bs[i].rows[k] in ctx.g
    ensures BackrefsLoop(ctx, bs, st, fuel).Ok? || BackrefsLoop(ctx, bs, st, fuel) == Err(OutOfFuel)
    decreases fuel, 2, |bs|
  {
    if bs != [] {
      if !SkipBackref(ctx, st.exclude, bs[0]) {
        RowsOnlyRunOut(ctx.rev, ctx.g, bs[0].rows, ChildArgs(ctx, {}), fuel);
      }
      var s := BackrefStep(ctx, bs[0], st, fuel);
      if s.Ok? {
        assert forall i :: 0 <= i < |bs[1..]| ==> bs[1..][i] == bs[i + 1];
        BackrefsOnlyRunOut(ctx, bs[1..], s.value, fuel);
      }
    }
  }

  lemma {:induction false} RecordOnlyRunsOut(ctx: Ctx, fuel: nat)
    requires Closed(ctx.g) && RowClosed(ctx.g, ctx.rec) && NoExtras(ctx.args)
    ensures ExportRecord(ctx, fuel).Ok? || ExportRecord(ctx, fuel) == Err(OutOfFuel)
    decreases fuel, 5, 0
  {
    var st0 := InitialState(ctx);
    if ctx.args.manytomany {
      ManyToManyOnlyRunsOut(ctx, ctx.rec.manyToMany, st0, fuel);
    }
    var st1 := ManyToManyStage(ctx, st0, fuel);
    if st1.Ok? {
      ColumnsOnlyRunOut(ctx, ctx.rec.columns, st1.value, fuel);
      var st2 := ColumnsLoop(ctx, ctx.rec.columns, st1.value, fuel);
      if st2.Ok? {
        assert ctx.S().extras == [];
        var st3 := ExtrasLoop(ctx.rec, ctx.S().extras, st2.value);
        assert st3 == Ok(st2.value);
        if ctx.S().backrefs && ctx.S().recurse {
          BackrefsOnlyRunOut(ctx, ctx.rec.backrefs, st2.value, fuel);
        }
      }
    }
  }

  /** Together with the depth bound: in a closed graph, a call with a
      resolved depth `d >= 0` and no extra attributes returns a value. */
  lemma ClosedExportSucceeds(rev: Revision, g: Graph, id: Id, a: Args, fuel: nat)
    requires Closed(g) && id in g && NoExtras(a)
    requires 0 < fuel && Fits(rev, g[id].policy, a, fuel - 1)
    ensures Export(rev, g, id, a, fuel).Ok?
  {
    ExportWithinDepth(rev, g, id, a, fuel);
    OnlyRunsOut(rev, g, id, a, fuel);
  }

  // ---------------------------------------------------------------------
  // A cycle the depth counter does not bound

  /** A hypothetical record with a single column, a `previous` foreign key
      that points at the row itself, so the row is also its own `next`. No
      class of app/dbmodel.py looks like this; SeekerCycle shows the same
      behaviour on that module's own classes. */
  const LoopRecord := Record("Node", BasePolicy, [ForeignKey("previous", Some(0))], [],
                             [Backref("next", Field("Node", "previous"), [0])], map[], {})
  const LoopGraph: Graph := map[0 := LoopRecord]

  /** The export of the one-column record reached through `previous`:
      `seen` excludes both its only column and its only reverse relation,
      so it is empty. */
  lemma LoopChildIsEmpty(a: Args, fuel: nat)
    requires a.recurse.Default? && a.backrefs.Default? && a.only == {} && a.exclude.Default? && a.extraAttrs.Default?
    requires a.seen == {Field("Node", "previous")} && !a.manytomany
    requires 0 < fuel
    ensures Export(App, LoopGraph, 0, a, fuel) == Ok(Dict([]))
  {
    var ctx := Ctx(App, LoopGraph, LoopRecord, a);
    var f := fuel - 1;
    var st0 := InitialState(ctx);
    assert st0.exclude == {Field("Node", "previous")};
    assert ManyToManyStage(ctx, st0, f) == Ok(st0);
    assert SkipColumn(ctx, st0.exclude, "previous");
    assert ColumnsLoop(ctx, LoopRecord.columns, st0, f) == Ok(st0);
    assert ctx.S().extras == [];
    assert ExtrasLoop(LoopRecord, ctx.S().extras, st0) == Ok(st0);
    assert FrontStages(ctx, f) == Ok(st0);
    assert SkipBackref(ctx, st0.exclude, LoopRecord.backrefs[0]);
    assert BackrefsLoop(ctx, LoopRecord.backrefs, st0, f) == Ok(st0);
    assert BackrefStage(ctx, LoopRecord.backrefs, st0, f) == Ok(st0);
    assert Export(App, LoopGraph, 0, a, fuel) == ExportRecord(ctx, f);
  }

  /** In app/dbmodel.py, with `max_depth` left unbounded, the one-column
      record never finishes: the reverse relation re-enters the same row
      with an empty `seen`, whatever the fuel. */
  lemma {:induction false} UnboundedCycleRunsOut(a: Args, fuel: nat)
    requires a.recurse.Default? && a.backrefs.Default? && a.only == {} && a.exclude.Default? && a.extraAttrs.Default?
    requires a.seen == {} && !a.manytomany
    requires Configure(App, BasePolicy, a).depth < 0
    ensures Export(App, LoopGraph, 0, a, fuel) == Err(OutOfFuel)
    decreases fuel
  {
    if fuel > 0 {
      var f := fuel - 1;
      var ctx := Ctx(App, LoopGraph, LoopRecord, a);
      var st0 := InitialState(ctx);
      assert st0 == LoopState([], {}, {});
      assert ManyToManyStage(ctx, st0, f) == Ok(st0);
      var k := Field("Node", "previous");
      var fk := LoopRecord.columns[0];
      var down := ChildArgs(ctx, {k});
      var back := ChildArgs(ctx, {});
      UnboundedCycleRunsOut(back, f);
      if f == 0 {
        assert ColumnStep(ctx, fk, st0, f) == Err(OutOfFuel);
        assert ColumnsLoop(ctx, LoopRecord.columns, st0, f) == Err(OutOfFuel);
      } else {
        LoopChildIsEmpty(down, f);
        var st1 := LoopState([("previous", Dict([]))], {}, {k});
        assert st0.seen + {k} == {k};
        assert !SkipColumn(ctx, st0.exclude, "previous") && ctx.S().recurse;
        assert Export(App, LoopGraph, 0, down, f) == Ok(Dict([]));
        assert ColumnStep(ctx, fk, st0, f) == Ok(st1);
        assert ColumnsLoop(ctx, LoopRecord.columns, st0, f) == Ok(st1);
        assert ExtrasLoop(LoopRecord, ctx.S().extras, st1) == Ok(st1);
        assert ExportRows(App, LoopGraph, [0], back, f) == Err(OutOfFuel);
        assert BackrefStep(ctx, LoopRecord.backrefs[0], st1, f) == Err(OutOfFuel);
        assert BackrefsLoop(ctx, LoopRecord.backrefs, st1, f) == Err(OutOfFuel);
        assert FrontStages(ctx, f) == Ok(st1);
        assert BackrefStage(ctx, LoopRecord.backrefs, st1, f) == Err(OutOfFuel);
      }
      assert Export(App, LoopGraph, 0, a, fuel) == ExportRecord(ctx, f);
    }
  }

  // ---------------------------------------------------------------------
  // The `seen` guard

  /** The reverse relations other than those of foreign key `fk`. */
  function Without(bs: seq<Backref>, fk: Key): (r: seq<Backref>)
    ensures forall b :: b in r <==> b in bs && b.fk != fk
  {
    if bs == [] then []
    else if bs[0].fk == fk then Without(bs[1..], fk)
    else [bs[0]] + Without(bs[1..], fk)
  }

  /** Once `fk` is excluded, the backref loop behaves as if the relations of
      `fk` were not there. */
  lemma {:induction false} ExcludedKeyHidesBackrefs(ctx: Ctx, bs: seq<Backref>, st: LoopState, fuel: nat, fk: Key)
    requires fk in st.exclude
    ensures BackrefsLoop(ctx, bs, st, fuel) == BackrefsLoop(ctx, Without(bs, fk), st, fuel)
    decreases |bs|
  {
    if bs != [] {
      if bs[0].fk == fk {
        assert SkipBackref(ctx, st.exclude, bs[0]);
        ExcludedKeyHidesBackrefs(ctx, bs[1..], st, fuel, fk);
      } else {
        var w := Without(bs, fk);
        assert w[0] == bs[0] && w[1..] == Without(bs[1..], fk);
        var s := BackrefStep(ctx, bs[0], st, fuel);
        if s.Ok? {
          ExcludedKeyHidesBackrefs(ctx, bs[1..], s.value, fuel, fk);
        }
      }
    }
  }

  /** Everything in `seen` is still excluded when the backref loop starts. */
  lemma SeenStaysExcluded(ctx: Ctx, fuel: nat)
    ensures FrontStages(ctx, fuel).Ok? ==> ctx.args.seen <= FrontStages(ctx, fuel).value.exclude
  {
    var st0 := InitialState(ctx);
    if ctx.args.manytomany {
      ManyToManyLoopFrame(ctx, ctx.rec.manyToMany, st0, fuel);
    }
    var st1 := ManyToManyStage(ctx, st0, fuel);
    if st1.Ok? {
      ColumnsLoopFrame(ctx, ctx.rec.columns, st1.value, fuel);
      var st2 := ColumnsLoop(ctx, ctx.rec.columns, st1.value, fuel);
      if st2.Ok? {
        ExtrasLoopFrame(ctx.rec, ctx.S().extras, st2.value);
      }
    }
  }

  /** A row reached through foreign key `fk` (so `fk` is in `seen`) is
      exported exactly as if it had no reverse relation through `fk`: the
      walk never comes back along the edge it arrived by. */
  lemma SeenEdgeNotExpanded(ctx: Ctx, fuel: nat, fk: Key)
    requires fk in ctx.args.seen
    ensures ExportRecord(ctx, fuel) ==
      (var st3 :- FrontStages(ctx, fuel);
       var st4 :- BackrefStage(ctx, Without(ctx.rec.backrefs, fk), st3, fuel);
       Ok(Dict(st4.data)))
  {
    SeenStaysExcluded(ctx, fuel);
    var st3 := FrontStages(ctx, fuel);
    if st3.Ok? {
      ExcludedKeyHidesBackrefs(ctx, ctx.rec.backrefs, st3.value, fuel, fk);
    }
  }

  // ---------------------------------------------------------------------
  // The column filter

  /** Columns that all pass the filter all appear in the output. */
  lemma {:induction false} ColumnsKept(ctx: Ctx, cs: seq<Column>, st: LoopState, fuel: nat)
    requires forall c :: c in cs ==> !SkipColumn(ctx, st.exclude, c.name)
    ensures var r := ColumnsLoop(ctx, cs, st, fuel);
      r.Ok? ==> forall c :: c in cs ==> c.name in Keys(r.value.data)
    decreases |cs|
  {
    if cs != [] {
      var s := ColumnStep(ctx, cs[0], st, fuel);
      if s.Ok? {
        PutKeys(st.data, cs[0].name, ColumnValue(ctx, cs[0], st, fuel));
        assert forall c :: c in cs[1..] ==> c in cs;
        ColumnsKept(ctx, cs[1..], s.value, fuel);
        ColumnsLoopFrame(ctx, cs[1..], s.value, fuel);
        var r := ColumnsLoop(ctx, cs[1..], s.value, fuel);
        if r.Ok? {
          KeyPrefixMember(s.value.data, r.value.data, cs[0].name);
        }
      }
    }
  }

  /** Columns that all fail the filter leave the state as it was. */
  lemma {:induction false} ColumnsDropped(ctx: Ctx, cs: seq<Column>, st: LoopState, fuel: nat)
    requires forall c :: c in cs ==> SkipColumn(ctx, st.exclude, c.name)
    ensures ColumnsLoop(ctx, cs, st, fuel) == Ok(st)
    decreases |cs|
  {
    if cs != [] {
      assert forall c :: c in cs[1..] ==> c in cs;
      ColumnsDropped(ctx, cs[1..], st, fuel);
    }
  }

  /** dbmodel.py as written: when `only` is omitted, every named column is
      dropped, because the name test is not guarded by `only` being
      non-empty. */
  lemma RootEmptyOnlyDropsColumns(ctx: Ctx, cs: seq<Column>, st: LoopState, fuel: nat)
    requires ctx.rev == Root && ctx.args.only == {}
    requires forall c :: c in cs ==> c.name != ""
    ensures ColumnsLoop(ctx, cs, st, fuel) == Ok(st)
  {
    ColumnsDropped(ctx, cs, st, fuel);
  }

  /** app/dbmodel.py: an empty `only` keeps every column whose field is not
      excluded. */
  lemma AppEmptyOnlyKeepsColumns(ctx: Ctx, cs: seq<Column>, st: LoopState, fuel: nat)
    requires ctx.rev == App && ctx.args.only == {}
    requires forall c :: c in cs ==> Field(ctx.rec.kind, c.name) !in st.exclude
    ensures var r := ColumnsLoop(ctx, cs, st, fuel);
      r.Ok? ==> forall c :: c in cs ==> c.name in Keys(r.value.data)
  {
    ColumnsKept(ctx, cs, st, fuel);
  }

  /** The corrected filter: an empty `only` keeps every column whose field
      and name are both not excluded. */
  lemma PatchedEmptyOnlyKeepsColumns(ctx: Ctx, cs: seq<Column>, st: LoopState, fuel: nat)
    requires ctx.rev == Patched && ctx.args.only == {}
    requires forall c :: c in cs ==> Field(ctx.rec.kind, c.name) !in st.exclude && Name(c.name) !in st.exclude
    ensures var r := ColumnsLoop(ctx, cs, st, fuel);
      r.Ok? ==> forall c :: c in cs ==> c.name in Keys(r.value.data)
  {
    ColumnsKept(ctx, cs, st, fuel);
  }

  /** dbmodel.py and the corrected filter honour a plain name in `exclude`
      (as the classes' `_exclude_` lists are written): a column or reverse
      relation of that name never writes its entry. */
  lemma {:induction false} NameExclusionHonoured(ctx: Ctx, cs: seq<Column>, bs: seq<Backref>, st: LoopState, fuel: nat, n: string)
    requires ctx.rev != App && Name(n) in st.exclude && n != ""
    ensures var r := ColumnsLoop(ctx, cs, st, fuel);
      r.Ok? ==> Lookup(r.value.data, n) == Lookup(st.data, n)
    ensures var r := BackrefsLoop(ctx, bs, st, fuel);
      r.Ok? ==> Lookup(r.value.data, n) == Lookup(st.data, n)
    decreases |cs| + |bs|
  {
    if cs != [] {
      var s := ColumnStep(ctx, cs[0], st, fuel);
      if s.Ok? {
        if !SkipColumn(ctx, st.exclude, cs[0].name) {
          ColumnEntry(ctx, cs[0], st, fuel, n);
        }
        NameExclusionHonoured(ctx, cs[1..], bs, s.value, fuel, n);
      }
    }
    if bs != [] {
      var s := BackrefStep(ctx, bs[0], st, fuel);
      if s.Ok? {
        if !SkipBackref(ctx, st.exclude, bs[0]) {
          var rows := ExportRows(ctx.rev, ctx.g, bs[0].rows, ChildArgs(ctx, {}), fuel);
          PutLookup(st.data, bs[0].name, List(rows.value), n);
        }
        NameExclusionHonoured(ctx, cs, bs[1..], s.value, fuel, n);
      }
    }
  }

  /** A `Seeker` row of app/dbmodel.py, reduced to the two members its
      inherited `_exclude_` names as strings: the `pass_hash` column of
      `User` and the `job_requests` reverse relation of `JobRequest.seeker`,
      here with no requests. */
  const UserPolicy := Policy(true, true, {Name("pass_hash"), Name("job_requests")}, [], None, None)
  const SeekerRow := Record("Seeker", UserPolicy, [ScalarColumn("pass_hash", Str("hash"))], [],
                            [Backref("job_requests", Field("JobRequest", "seeker"), [])], map[], {})
  const SeekerGraph: Graph := map[0 := SeekerRow]

  /** app/dbmodel.py as written: the string entries of `_exclude_` match
      neither the field nor the reverse relation, so the password hash and
      the job requests are both exported. */
  lemma AppIgnoresNameExclusion()
    ensures Export(App, SeekerGraph, 0, NoArgs, 2) ==
      Ok(Dict([("pass_hash", Str("hash")), ("job_requests", List([]))]))
  {
    var ctx := Ctx(App, SeekerGraph, SeekerRow, NoArgs);
    var st0 := InitialState(ctx);
    assert !SkipColumn(ctx, st0.exclude, "pass_hash");
    var st1 := st0.(data := [("pass_hash", Str("hash"))]);
    assert ColumnsLoop(ctx, SeekerRow.columns, st0, 1) == Ok(st1);
    assert !SkipBackref(ctx, st1.exclude, SeekerRow.backrefs[0]);
    assert ExportRows(App, SeekerGraph, [], ChildArgs(ctx, {}), 1) == Ok([]);
    assert Put(st1.data, "job_requests", List([])) == [("pass_hash", Str("hash")), ("job_requests", List([]))];
    assert BackrefsLoop(ctx, SeekerRow.backrefs, st1, 1) ==
      Ok(LoopState([("pass_hash", Str("hash")), ("job_requests", List([]))], st1.exclude + {Field("JobRequest", "seeker")}, {}));
  }

  /** The same row under the corrected filter exports neither. */
  lemma PatchedHonoursNameExclusion()
    ensures Export(Patched, SeekerGraph, 0, NoArgs, 2) == Ok(Dict([]))
  {
    var ctx := Ctx(Patched, SeekerGraph, SeekerRow, NoArgs);
    var st0 := InitialState(ctx);
    NameExclusionHonoured(ctx, SeekerRow.columns, SeekerRow.backrefs, st0, 1, "pass_hash");
    assert ColumnsLoop(ctx, SeekerRow.columns, st0, 1) == Ok(st0);
    assert BackrefsLoop(ctx, SeekerRow.backrefs, st0, 1) == Ok(st0);
  }
}
