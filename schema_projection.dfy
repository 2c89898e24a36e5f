/** `BaseModel.to_schema`, the schema-driven projection, in its two copies:
    dbmodel.py (`DbModel`) and app/models/dbmodel.py (`AppModels`), which
    differ only in what an omitted `type_` means. The functions are the
    specification; `ToSchema` and the methods below it fill the `data` dict
    and the `l` lists in loops as the source does, and are proved equal to
    them.

    The schema shrinks at every nested call, so the projection always
    finishes, whatever cycles the graph has. Building `type_(**data)` (the
    pydantic validation of the collected fields) is not part of this model:
    the result is the collected `data`. */
module SchemaProjection {
  import opened Base
  import opened EntityGraph

  /** Which copy of `to_schema`. */
  datatype Copy = DbModel | AppModels

  /** The exceptions a projection can raise. */
  datatype ProjectionError =
    | UnknownRow(id: Id)          // a related row that does not exist
    | NoSchema                    // `type_` resolved to an object without `__fields__`
    | NoAttribute(name: string)   // `getattr(self, name)` raised `AttributeError`
    | NoFieldsFor(name: string)   // a related row whose field type is not a schema
    | NotIterable(name: string)   // a relation name whose value cannot be iterated
    | NoItemType(name: string)    // a non-empty relation whose field is not `list[X]`

  /** `name in self._meta.manytomany or name in self._meta.backrefs`. */
  predicate IsRelation(rec: Record, name: string)
  {
    IsManyToManyName(rec, name) || name in rec.backrefTable
  }

  /** `row.to_schema(s)` for the row `id`. */
  function Project(g: Graph, id: Id, s: Schema): Result<Value, ProjectionError>
    decreases s, 0, 0
  {
    if id !in g then Err(UnknownRow(id))
    else
      var data :- ProjectFields(g, g[id], s.fields, []);
      Ok(Dict(data))
  }

  /** The field loop, from the fields `fs` still to do and the `data` built
      so far. */
  function ProjectFields(g: Graph, rec: Record, fs: seq<SchemaField>, data: Entries<Value>): Result<Entries<Value>, ProjectionError>
    decreases fs, 0, 0
  {
    if fs == [] then Ok(data)
    else
      var v :- ProjectField(g, rec, fs[0]);
      ProjectFields(g, rec, fs[1..], Put(data, fs[0].name, v))
  }

  /** The value one field is given: the attribute, projected through the
      field's type when it is a row, and turned into a list of projected
      rows when the name is a relation. */
  function ProjectField(g: Graph, rec: Record, f: SchemaField): Result<Value, ProjectionError>
    decreases f, 0, 0
  {
    var a := Attr(rec, f.name);
    if a.None? then Err(NoAttribute(f.name))
    else
      var v :-
        if !a.value.Entity? then Ok(a.value)
        else if f.ty.Scalar? then Err(NoFieldsFor(f.name))
        else Project(g, a.value.id, f.ty.schema);
      if !IsRelation(rec, f.name) then Ok(v)
      else if !v.Rows? then Err(NotIterable(f.name))
      else if v.ids == [] then Ok(List([]))
      else if !f.ty.NestedList? then Err(NoItemType(f.name))
      else
        var items :- ProjectRows(g, v.ids, f.ty.schema);
        Ok(List(items))
  }

  /** `[v.to_schema(s) for v in rows]`, failing on the first row that fails. */
  function ProjectRows(g: Graph, ids: seq<Id>, s: Schema): Result<seq<Value>, ProjectionError>
    decreases s, 1, |ids|
  {
    if ids == [] then Ok([])
    else
      var v :- Project(g, ids[0], s);
      var vs :- ProjectRows(g, ids[1..], s);
      Ok([v] + vs)
  }

  /** `row.to_schema(t)`: `t` omitted means the class's `_default_schema_`
      in app/models/dbmodel.py, and fails in dbmodel.py, whose `DEFAULT`
      sentinel has no fields. */
  function ToSchemaSpec(c: Copy, g: Graph, id: Id, t: Opt<Schema>): (r: Result<Value, ProjectionError>)
    ensures t.Given? ==> r == Project(g, id, t.v)
    ensures t.Default? && c == DbModel ==> r == Err(NoSchema)
    ensures t.Default? && c == AppModels && id in g ==>
      r == if g[id].policy.defaultSchema.None? then Err(NoSchema) else Project(g, id, g[id].policy.defaultSchema.value)
  {
    match t
    case Given(s) => Project(g, id, s)
    case Default =>
      if c == DbModel then Err(NoSchema)
      else if id !in g then Err(UnknownRow(id))
      else if g[id].policy.defaultSchema.None? then Err(NoSchema)
      else Project(g, id, g[id].policy.defaultSchema.value)
  }

  // ---------------------------------------------------------------------
  // The loops

  method ToSchema(c: Copy, g: Graph, id: Id, t: Opt<Schema>) returns (r: Result<Value, ProjectionError>)
    ensures r == ToSchemaSpec(c, g, id, t)
  {
    var s: Schema;
    match t {
      case Given(given) =>
        s := given;
      case Default =>
        if c == DbModel {
          return Err(NoSchema);
        }
        if id !in g {
          return Err(UnknownRow(id));
        }
        if g[id].policy.defaultSchema.None? {
          return Err(NoSchema);
        }
        s := g[id].policy.defaultSchema.value;
    }
    r := ProjectRow(g, id, s);
  }

  /** `data = {}; for name, field in type_.__fields__.items(): ... data[name] = value`. */
  method ProjectRow(g: Graph, id: Id, s: Schema) returns (r: Result<Value, ProjectionError>)
    ensures r == Project(g, id, s)
    decreases s, 0, 0
  {
    if id !in g {
      return Err(UnknownRow(id));
    }
    var rec := g[id];
    var data: Entries<Value> := [];
    var i := 0;
    while i < |s.fields|
      invariant 0 <= i <= |s.fields|
      invariant ProjectFields(g, rec, s.fields, []) == ProjectFields(g, rec, s.fields[i..], data)
    {
      var f := s.fields[i];
      assert s.fields[i..][1..] == s.fields[i + 1..];
      var value :- FieldValue(g, rec, f);
      data := Put(data, f.name, value);
      i := i + 1;
    }
    assert s.fields[i..] == [];
    return Ok(Dict(data));
  }

  ghost function PrependItems(l: seq<Value>, r: Result<seq<Value>, ProjectionError>): Result<seq<Value>, ProjectionError>
  {
    if r.Ok? then Ok(l + r.value) else r
  }

  /** The body of the field loop: `getattr`, the nested call, and the
      `l.append(v.to_schema(field.sub_fields[0].type_))` loop. */
  method FieldValue(g: Graph, rec: Record, f: SchemaField) returns (r: Result<Value, ProjectionError>)
    ensures r == ProjectField(g, rec, f)
    decreases f, 0, 0
  {
    var attr := Attr(rec, f.name);
    if attr.None? {
      return Err(NoAttribute(f.name));
    }
    var value := attr.value;
    if value.Entity? {
      if f.ty.Scalar? {
        return Err(NoFieldsFor(f.name));
      }
      value :- ProjectRow(g, value.id, f.ty.schema);
    }
    if IsRelation(rec, f.name) {
      if !value.Rows? {
        return Err(NotIterable(f.name));
      }
      var ids := value.ids;
      var l: seq<Value> := [];
      var j := 0;
      ghost var whole := if f.ty.NestedList? then ProjectRows(g, ids, f.ty.schema) else Ok([]);
      assert whole.Ok? ==> l + whole.value == whole.value;
      while j < |ids|
        invariant 0 <= j <= |ids|
        invariant !f.ty.NestedList? ==> j == 0 && l == []
        invariant f.ty.NestedList? ==>
          ProjectRows(g, ids, f.ty.schema) == PrependItems(l, ProjectRows(g, ids[j..], f.ty.schema))
      {
        if !f.ty.NestedList? {
          return Err(NoItemType(f.name));
        }
        assert ids[j..][1..] == ids[j + 1..];
        var item :- ProjectRow(g, ids[j], f.ty.schema);
        ghost var rest := ProjectRows(g, ids[j + 1..], f.ty.schema);
        assert rest.Ok? ==> l + ([item] + rest.value) == (l + [item]) + rest.value;
        l := l + [item];
        j := j + 1;
      }
      assert ids[j..] == [];
      assert l + [] == l;
      value := List(l);
    }
    return Ok(value);
  }
}
