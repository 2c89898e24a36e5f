/** What `to_schema` promises, proved about the specification in
    SchemaProjection: the output has exactly the schema's fields in declared
    order, each holding its projected attribute; a row-valued field is
    projected through the field's type; a relation becomes the list of its
    projected rows; and any failing field fails the whole projection. */
module ProjectionProperties {
  import opened Base
  import opened EntityGraph
  import opened SchemaProjection

  /** No two fields share a name (a pydantic model's `__fields__` is a dict). */
  predicate DistinctNames(fs: seq<SchemaField>)
  {
    forall i, j :: 0 <= i < j < |fs| ==> fs[i].name != fs[j].name
  }

  /** The field loop succeeds exactly when every field does. */
  lemma {:induction false} ProjectFieldsSucceeds(g: Graph, rec: Record, fs: seq<SchemaField>, data: Entries<Value>)
    ensures ProjectFields(g, rec, fs, data).Ok? <==> forall i :: 0 <= i < |fs| ==> ProjectField(g, rec, fs[i]).Ok?
    decreases |fs|
  {
    if fs != [] {
      var v := ProjectField(g, rec, fs[0]);
      if v.Ok? {
        ProjectFieldsSucceeds(g, rec, fs[1..], Put(data, fs[0].name, v.value));
      }
      assert forall i :: 1 <= i < |fs| ==> fs[1..][i - 1] == fs[i];
    }
  }

  /** On success the field loop adds exactly the schema's field names, in
      order, after the names already there. */
  lemma {:induction false} ProjectFieldsKeys(g: Graph, rec: Record, fs: seq<SchemaField>, data: Entries<Value>)
    requires forall i :: 0 <= i < |fs| ==> fs[i].name !in Keys(data)
    requires DistinctNames(fs)
    ensures var r := ProjectFields(g, rec, fs, data);
      r.Ok? ==> Keys(r.value) == Keys(data) + FieldNames(fs)
    decreases |fs|
  {
    if fs != [] {
      var f := fs[0];
      var v := ProjectField(g, rec, f);
      if v.Ok? {
        var data' := Put(data, f.name, v.value);
        PutKeys(data, f.name, v.value);
        forall i | 0 <= i < |fs[1..]|
          ensures fs[1..][i].name !in Keys(data')
        {
          assert fs[1..][i] == fs[i + 1];
        }
        ProjectFieldsKeys(g, rec, fs[1..], data');
        assert FieldNames(fs) == [f.name] + FieldNames(fs[1..]);
      }
    }
  }

  /** On success each of the schema's names holds its field's projection. */
  lemma {:induction false} ProjectFieldsValues(g: Graph, rec: Record, fs: seq<SchemaField>, data: Entries<Value>)
    requires DistinctNames(fs)
    ensures var r := ProjectFields(g, rec, fs, data);
      r.Ok? ==> forall i :: 0 <= i < |fs| ==>
        ProjectField(g, rec, fs[i]).Ok? && Lookup(r.value, fs[i].name) == Some(ProjectField(g, rec, fs[i]).value)
    decreases |fs|
  {
    if fs != [] {
      var f := fs[0];
      var v := ProjectField(g, rec, f);
      if v.Ok? {
        var data' := Put(data, f.name, v.value);
        ProjectFieldsValues(g, rec, fs[1..], data');
        var r := ProjectFields(g, rec, fs[1..], data');
        if r.Ok? {
          forall i | 0 <= i < |fs|
            ensures ProjectField(g, rec, fs[i]).Ok? && Lookup(r.value, fs[i].name) == Some(ProjectField(g, rec, fs[i]).value)
          {
            if i == 0 {
              ProjectFieldsKeep(g, rec, fs[1..], data', f.name);
              PutLookup(data, f.name, v.value, f.name);
            } else {
              assert fs[1..][i - 1] == fs[i];
            }
          }
        }
      }
    }
  }

  /** The field loop succeeds exactly when every field does; it then adds
      exactly the schema's field names, in order, each holding the field's
      projection. */
  lemma ProjectFieldsShape(g: Graph, rec: Record, fs: seq<SchemaField>, data: Entries<Value>)
    requires DistinctNames(fs)
    requires forall i :: 0 <= i < |fs| ==> fs[i].name !in Keys(data)
    ensures var r := ProjectFields(g, rec, fs, data);
      (r.Ok? <==> forall i :: 0 <= i < |fs| ==> ProjectField(g, rec, fs[i]).Ok?) &&
      (r.Ok? ==>
        Keys(r.value) == Keys(data) + FieldNames(fs) &&
        forall i :: 0 <= i < |fs| ==> Lookup(r.value, fs[i].name) == Some(ProjectField(g, rec, fs[i]).value))
  {
    ProjectFieldsSucceeds(g, rec, fs, data);
    ProjectFieldsKeys(g, rec, fs, data);
    ProjectFieldsValues(g, rec, fs, data);
  }

  /** The field loop leaves the value of a name it does not write alone. */
  lemma {:induction false} ProjectFieldsKeep(g: Graph, rec: Record, fs: seq<SchemaField>, data: Entries<Value>, k: string)
    requires forall i :: 0 <= i < |fs| ==> fs[i].name != k
    ensures var r := ProjectFields(g, rec, fs, data);
      r.Ok? ==> Lookup(r.value, k) == Lookup(data, k)
    decreases |fs|
  {
    if fs != [] {
      var v := ProjectField(g, rec, fs[0]);
      if v.Ok? {
        PutLookup(data, fs[0].name, v.value, k);
        assert forall i :: 0 <= i < |fs[1..]| ==> fs[1..][i] == fs[i + 1];
        ProjectFieldsKeep(g, rec, fs[1..], Put(data, fs[0].name, v.value), k);
      }
    }
  }

  /** `to_schema(s)` on a row: no partial document (it fails exactly when a
      field fails, or the row is missing), and on success a dict with exactly
      the schema's field names in declared order, each holding that field's
      projection. */
  lemma ProjectShape(g: Graph, id: Id, s: Schema)
    requires DistinctNames(s.fields)
    ensures Project(g, id, s).Ok? <==>
      id in g && forall i :: 0 <= i < |s.fields| ==> ProjectField(g, g[id], s.fields[i]).Ok?
    ensures Project(g, id, s).Ok? ==>
      Project(g, id, s).value.Dict? &&
      Keys(Project(g, id, s).value.entries) == FieldNames(s.fields) &&
      forall i :: 0 <= i < |s.fields| ==>
        Lookup(Project(g, id, s).value.entries, s.fields[i].name) == Some(ProjectField(g, g[id], s.fields[i]).value)
  {
    if id in g {
      ProjectFieldsShape(g, g[id], s.fields, []);
    }
  }

  /** A field whose attribute is missing makes the projection fail. */
  lemma MissingAttributeFails(g: Graph, id: Id, s: Schema, i: int)
    requires DistinctNames(s.fields) && id in g && 0 <= i < |s.fields|
    requires Attr(g[id], s.fields[i].name).None?
    ensures Project(g, id, s).Err?
  {
    ProjectShape(g, id, s);
    assert ProjectField(g, g[id], s.fields[i]) == Err(NoAttribute(s.fields[i].name));
  }

  /** A field read by attribute lookup that names neither a column nor a
      relation gets the attribute (a property such as `salary`) unchanged,
      unless it is a row. */
  lemma PropertyFieldCopied(g: Graph, rec: Record, f: SchemaField)
    requires FindColumn(rec.columns, f.name).None? && FindManyToMany(rec.manyToMany, f.name).None?
    requires FindBackref(rec.backrefs, f.name).None? && f.name in rec.props
    requires !rec.props[f.name].Entity? && f.name !in rec.backrefTable
    ensures ProjectField(g, rec, f) == Ok(rec.props[f.name])
  {
  }

  /** A related row (`isinstance(value, BaseModel)`) is projected through
      the field's type; a field type without fields cannot project it. */
  lemma RowFieldProjected(g: Graph, rec: Record, f: SchemaField, id: Id)
    requires Attr(rec, f.name) == Some(Entity(id)) && !IsRelation(rec, f.name)
    ensures ProjectField(g, rec, f) ==
      if f.ty.Scalar? then Err(NoFieldsFor(f.name)) else Project(g, id, f.ty.schema)
  {
  }

  /** `[v.to_schema(s) for v in rows]` succeeds exactly when every row does,
      and then holds one projection per row, in order. */
  lemma {:induction false} ProjectRowsShape(g: Graph, ids: seq<Id>, s: Schema)
    ensures ProjectRows(g, ids, s).Ok? <==> forall i :: 0 <= i < |ids| ==> Project(g, ids[i], s).Ok?
    ensures ProjectRows(g, ids, s).Ok? ==>
      |ProjectRows(g, ids, s).value| == |ids| &&
      forall i :: 0 <= i < |ids| ==> Project(g, ids[i], s) == Ok(ProjectRows(g, ids, s).value[i])
    decreases |ids|
  {
    if ids != [] {
      ProjectRowsShape(g, ids[1..], s);
      assert forall i :: 1 <= i < |ids| ==> ids[1..][i - 1] == ids[i];
    }
  }

  /** A relation name becomes a list: `[]` for no rows whatever the field
      type, and otherwise, for a `list[X]` field, the rows projected through
      `X` in iteration order. */
  lemma RelationFieldProjected(g: Graph, rec: Record, f: SchemaField, ids: seq<Id>)
    requires IsRelation(rec, f.name) && Attr(rec, f.name) == Some(Rows(ids))
    ensures ids == [] ==> ProjectField(g, rec, f) == Ok(List([]))
    ensures ids != [] && !f.ty.NestedList? ==> ProjectField(g, rec, f) == Err(NoItemType(f.name))
    ensures ids != [] && f.ty.NestedList? ==>
      (ProjectField(g, rec, f).Ok? <==> forall i :: 0 <= i < |ids| ==> Project(g, ids[i], f.ty.schema).Ok?) &&
      (ProjectField(g, rec, f).Ok? ==>
        ProjectField(g, rec, f).value.List? && |ProjectField(g, rec, f).value.items| == |ids| &&
        forall i :: 0 <= i < |ids| ==> Project(g, ids[i], f.ty.schema) == Ok(ProjectField(g, rec, f).value.items[i]))
  {
    if f.ty.NestedList? {
      ProjectRowsShape(g, ids, f.ty.schema);
    }
  }

  /** app/models/dbmodel.py: an omitted schema is the class's
      `_default_schema_`, so the call equals the call naming it. */
  lemma DefaultSchemaUsed(g: Graph, id: Id, s: Schema)
    requires id in g && g[id].policy.defaultSchema == Some(s)
    ensures ToSchemaSpec(AppModels, g, id, Default) == ToSchemaSpec(AppModels, g, id, Given(s))
  {
  }
}
