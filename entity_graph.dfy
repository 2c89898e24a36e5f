/** The data both exporters walk: a finite graph of entity rows keyed by id,
    each row carrying its class's export policy, its stored columns in
    declaration order (`_meta.sorted_fields`), its many-to-many and reverse
    relations with the related rows in query order, and its other attributes
    (properties and methods). Schema descriptors, the target shapes of
    `to_schema`, live here too because a class names one as its default. */
module EntityGraph {
  import opened Base

  type Id = int

  /** An element of the `only`, `exclude` and `seen` sets. A peewee field
      hashes and compares as the pair (model name, field name); a plain
      string only ever matches a string; a backref descriptor only matches
      itself. */
  datatype Key =
    | Field(model: string, name: string)
    | Name(name: string)
    | Descriptor(model: string, name: string)

  /** The Python values an export reads and produces. */
  datatype Value =
    | Null
    | Int(i: int)
    | Str(s: string)
    | Bool(b: bool)
    | Entity(id: Id)              // a model instance, loaded on access
    | Rows(ids: seq<Id>)          // a relation query, iterated in query order
    | Method(ret: Value)          // a bound method; calling it returns `ret`
    | Dict(entries: Entries<Value>)
    | List(items: seq<Value>)

  /** Target shape of `to_schema`: a pydantic model's `__fields__`. */
  datatype Schema = Schema(title: string, fields: seq<SchemaField>)
  datatype SchemaField = SchemaField(name: string, ty: FieldType)
  datatype FieldType =
    | Scalar                      // a type without `__fields__`
    | Nested(schema: Schema)      // `X` or `X | None`: `field.type_` is X
    | NestedList(schema: Schema)  // `list[X]`: `type_` and `sub_fields[0].type_` are X

  function FieldNames(fs: seq<SchemaField>): (ns: seq<string>)
    ensures |ns| == |fs|
    ensures forall i :: 0 <= i < |fs| ==> ns[i] == fs[i].name
  {
    if fs == [] then [] else [fs[0].name] + FieldNames(fs[1..])
  }

  /** A stored column: a plain value, or a foreign key holding the id of the
      referenced row (or nothing). */
  datatype Column =
    | ScalarColumn(name: string, value: Value)
    | ForeignKey(name: string, target: Option<Id>)

  /** A many-to-many field of the class: the field itself, the reverse field
      on the related class, the foreign keys of the join table, and the
      related rows. */
  datatype ManyToMany = ManyToMany(
    name: string, field: Key, reverse: Key, throughRefs: set<Key>, rows: seq<Id>)

  /** An entry of `_meta.backrefs`: the foreign key on another class that
      points here, the name it is exposed under (`"+"` for none), and the rows
      that point at this one. */
  datatype Backref = Backref(name: string, fk: Key, rows: seq<Id>)

  /** The class-level policy attributes `_recurse_`, `_backrefs_`,
      `_exclude_`, `_include_`, `_max_depth_` and `_default_schema_`
      (`None` and an empty list both read as the empty collection). */
  datatype Policy = Policy(
    recurse: bool, backrefs: bool, exclude: set<Key>, includes: seq<string>,
    maxDepth: Option<int>, defaultSchema: Option<Schema>)

  /** The policy of `BaseModel` in dbmodel.py. `_max_depth_ = True`, and
      Python's arithmetic and `== 0` treat `True` as 1. */
  const BasePolicy := Policy(true, true, {}, [], Some(1), None)

  /** One row. `backrefTable` holds the names `n` for which the test
      `n in self._meta.backrefs` succeeds; peewee keys that table by
      foreign-key objects, so for string names it is normally empty. */
  datatype Record = Record(
    kind: string,
    policy: Policy,
    columns: seq<Column>,
    manyToMany: seq<ManyToMany>,
    backrefs: seq<Backref>,
    props: map<string, Value>,
    backrefTable: set<string>)

  type Graph = map<Id, Record>

  /** `self.__data__.get(name)`: what the row stores for a column; a foreign
      key stores the referenced id. */
  function Stored(c: Column): Value
  {
    match c
    case ScalarColumn(_, v) => v
    case ForeignKey(_, t) => if t.Some? then Int(t.value) else Null
  }

  /** `getattr(self, name)` on a column: a foreign key yields the related
      instance. */
  function ColumnAttr(c: Column): Value
  {
    match c
    case ScalarColumn(_, v) => v
    case ForeignKey(_, t) => if t.Some? then Entity(t.value) else Null
  }

  function FindColumn(cs: seq<Column>, name: string): Option<Column>
  {
    if cs == [] then None
    else if cs[0].name == name then Some(cs[0])
    else FindColumn(cs[1..], name)
  }

  function FindManyToMany(ms: seq<ManyToMany>, name: string): Option<ManyToMany>
  {
    if ms == [] then None
    else if ms[0].name == name then Some(ms[0])
    else FindManyToMany(ms[1..], name)
  }

  function FindBackref(bs: seq<Backref>, name: string): Option<Backref>
  {
    if bs == [] then None
    else if bs[0].name == name then Some(bs[0])
    else FindBackref(bs[1..], name)
  }

  /** `getattr(self, name)`: columns, then many-to-many fields, then reverse
      relations, then the other attributes; `None` is an `AttributeError`. */
  function Attr(rec: Record, name: string): (r: Option<Value>)
    ensures FindColumn(rec.columns, name).Some? ==> r == Some(ColumnAttr(FindColumn(rec.columns, name).value))
    ensures (FindColumn(rec.columns, name).None? && FindManyToMany(rec.manyToMany, name).Some?) ==>
      r == Some(Rows(FindManyToMany(rec.manyToMany, name).value.rows))
    ensures (FindColumn(rec.columns, name).None? && FindManyToMany(rec.manyToMany, name).None? &&
      FindBackref(rec.backrefs, name).Some?) ==> r == Some(Rows(FindBackref(rec.backrefs, name).value.rows))
    ensures (FindColumn(rec.columns, name).None? && FindManyToMany(rec.manyToMany, name).None? &&
      FindBackref(rec.backrefs, name).None? && name in rec.props) ==> r == Some(rec.props[name])
    ensures r.None? <==>
      FindColumn(rec.columns, name).None? && FindManyToMany(rec.manyToMany, name).None? &&
      FindBackref(rec.backrefs, name).None? && name !in rec.props
  {
    var c := FindColumn(rec.columns, name);
    if c.Some? then Some(ColumnAttr(c.value))
    else
      var m := FindManyToMany(rec.manyToMany, name);
      if m.Some? then Some(Rows(m.value.rows))
      else
        var b := FindBackref(rec.backrefs, name);
        if b.Some? then Some(Rows(b.value.rows))
        else if name in rec.props then Some(rec.props[name])
        else None
  }

  /** `name in self._meta.manytomany`. */
  predicate IsManyToManyName(rec: Record, name: string)
  {
    FindManyToMany(rec.manyToMany, name).Some?
  }

  /** The keys of `self._meta.manytomany`, as strings. */
  function ManyToManyNames(ms: seq<ManyToMany>): (ks: set<Key>)
    ensures ks == set m | m in ms :: Name(m.name)
  {
    if ms == [] then {} else {Name(ms[0].name)} + ManyToManyNames(ms[1..])
  }
}
