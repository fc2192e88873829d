/** The model constructor of `DataModelBase<T>` and its typed field reader.

    Reflection is replaced by an explicit description of the model type:
    its optional `[DataTable]` name and its public properties in the order
    reflection lists them, each with its declared type and optional
    `[DataField]` attribute. The constructor becomes `Build`, a function
    that either fails with one of three configuration errors or returns the
    derived metadata and the four SQL statements. */
module DataModelBase {
  import opened Wrappers
  import opened Linq
  import opened StringExtensions

  /** The declared CLR type of a property (the ones the model needs). */
  datatype TypeTag = Int32 | Boolean | String | NullableInt32

  /** A boxed property value; `Null` is the null reference. */
  datatype Value = Null | Int(i: int) | Bool(b: bool) | Str(s: string)

  /** `default(T)`: zero for the value types, null for the others. */
  function Default(t: TypeTag): (r: Value)
    ensures HasType(r, t)
    ensures r == Null <==> t == String || t == NullableInt32
    ensures t == Int32 ==> r == Int(0)
    ensures t == Boolean ==> r == Bool(false)
  {
    match t
    case Int32 => Int(0)
    case Boolean => Bool(false)
    case String => Null
    case NullableInt32 => Null
  }

  /** The values a property of declared type `t` can hold. */
  predicate HasType(v: Value, t: TypeTag)
  {
    match t
    case Int32 => v.Int? && -0x8000_0000 <= v.i < 0x8000_0000
    case Boolean => v.Bool?
    case String => v.Null? || v.Str?
    case NullableInt32 => v.Null? || (v.Int? && -0x8000_0000 <= v.i < 0x8000_0000)
  }

  /** `[DataField(IsPrimaryKey = ...)]`. */
  datatype DataField = DataField(isPrimaryKey: bool)

  /** A public property: its name, declared type and `[DataField]`, if any. */
  datatype Property = Property(name: string, propertyType: TypeTag, dataField: Option<DataField>)

  /** A model type: its `[DataTable]` name, if any, and its properties. */
  datatype ModelType = ModelType(dataTable: Option<string>, properties: seq<Property>)

  /** The three distinguishable ways a model type can be misconfigured. */
  datatype ConfigError = MissingDataTable | NoPrimaryKey | MultiplePrimaryKeys

  /** What the constructor derives once for a model type. */
  datatype Metadata = Metadata(
    tableName: string,
    dataFields: seq<string>,
    primaryKey: string,
    select: string,
    insert: string,
    update: string,
    delete: string)

  /** The message of the `InvalidOperationException` raised for each error. */
  function Message(e: ConfigError): (r: string)
    ensures "A data model " <= r && r[|r| - 1] == '.'
  {
    match e
    case MissingDataTable => "A data model must have a DataTableAttribute defined."
    case NoPrimaryKey => "A data model must have a single primary key."
    case MultiplePrimaryKeys => "A data model can have only a single primary key."
  }

  /** All three errors are raised as the same exception type, so callers
      tell them apart by message: the messages are pairwise different. */
  lemma MessagesDistinguish(e1: ConfigError, e2: ConfigError)
    ensures Message(e1) == Message(e2) ==> e1 == e2
  {
    // the three messages already differ in length
    assert |Message(MissingDataTable)| == 52;
    assert |Message(NoPrimaryKey)| == 44;
    assert |Message(MultiplePrimaryKeys)| == 48;
  }

  /** Marked with `[DataField(IsPrimaryKey = true)]`. A property without
      the attribute is never a key: the null guard of the key filter. */
  predicate IsKey(p: Property)
    ensures IsKey(p) ==> p.dataField.Some?
  {
    p.dataField.Some? && p.dataField.value.isPrimaryKey
  }

  /** `DataFieldInfo`: the properties that carry `[DataField]`, in order. */
  function DataFieldProperties(ps: seq<Property>): (r: seq<Property>)
    ensures |r| <= |ps|
    ensures forall i :: 0 <= i < |r| ==> r[i].dataField.Some?
  {
    if ps == [] then []
    else
      (if ps[0].dataField.Some? then [ps[0]] else []) + DataFieldProperties(ps[1..])
  }

  /** `pkList`: the properties whose `[DataField]` sets `IsPrimaryKey`. */
  function KeyProperties(ps: seq<Property>): (r: seq<Property>)
    ensures |r| <= |ps|
    ensures forall i :: 0 <= i < |r| ==> IsKey(r[i])
  {
    if ps == [] then []
    else
      (if IsKey(ps[0]) then [ps[0]] else []) + KeyProperties(ps[1..])
  }

  /** The names of `ps`, in order. */
  function Names(ps: seq<Property>): (r: seq<string>)
    ensures |r| == |ps|
    ensures forall i :: 0 <= i < |r| ==> r[i] == ps[i].name
  {
    Project((p: Property) => p.name, ps)
  }

  /** The SELECT template: every field as a column, then the table. */
  function SelectText(table: string, fields: seq<string>): (r: string)
    ensures "SELECT " <= r
    ensures |r| >= |" FROM " + Bracket(table)|
    ensures r[|r| - |" FROM " + Bracket(table)|..] == " FROM " + Bracket(table)
  {
    "SELECT " + Join(", ", Project(Bracket, fields)) + " FROM " + Bracket(table)
  }

  /** The INSERT template: a column list and a parameter list. */
  function InsertText(table: string, nonKey: seq<string>): (r: string)
    ensures "INSERT INTO " + Bracket(table) + " (" <= r
    ensures r[|r| - 1] == ')'
  {
    "INSERT INTO " + Bracket(table) + " (" + Join(", ", Project(Bracket, nonKey))
      + ") VALUES (" + Join(", ", Project(Parameterize, nonKey)) + ")"
  }

  /** The UPDATE template: one assignment per non-key field, no WHERE. */
  function UpdateText(table: string, nonKey: seq<string>): (r: string)
    ensures "UPDATE " + Bracket(table) + " SET " <= r
    ensures nonKey == [] ==> r == "UPDATE " + Bracket(table) + " SET "
  {
    "UPDATE " + Bracket(table) + " SET " + Join(", ", Project(Equation, nonKey))
  }

  /** The DELETE template: the table alone, no WHERE. */
  function DeleteText(table: string): (r: string)
    ensures "DELETE FROM " <= r
    ensures r[|"DELETE FROM "|..] == Bracket(table)
  {
    "DELETE FROM " + Bracket(table)
  }

  /** The constructor `DataModelBase(connectionString)`: the table check
      comes first, then the primary-key count; on success the data fields,
      the key and the four statements are derived, INSERT and UPDATE from
      the data fields `Except` the key. */
  function Build(m: ModelType): (r: Result<Metadata, ConfigError>)
    ensures m.dataTable.None? ==> r == Failure(MissingDataTable)
    ensures r.Success? ==>
      && r.value.tableName == m.dataTable.value
      && r.value.select == SelectText(r.value.tableName, r.value.dataFields)
      && r.value.insert == InsertText(r.value.tableName, Except(r.value.dataFields, [r.value.primaryKey]))
      && r.value.update == UpdateText(r.value.tableName, Except(r.value.dataFields, [r.value.primaryKey]))
      && r.value.delete == DeleteText(r.value.tableName)
  {
    if m.dataTable.None? then Failure(MissingDataTable)
    else
      var table := m.dataTable.value;
      var dataFieldInfo := DataFieldProperties(m.properties);
      var dataFields := Names(dataFieldInfo);
      var pkList := KeyProperties(dataFieldInfo);
      if |pkList| == 0 then Failure(NoPrimaryKey)
      else if |pkList| > 1 then Failure(MultiplePrimaryKeys)
      else
        var primaryKey := pkList[0].name;
        var nonKey := Except(dataFields, [primaryKey]);
        Success(Metadata(
          table, dataFields, primaryKey,
          SelectText(table, dataFields),
          InsertText(table, nonKey),
          UpdateText(table, nonKey),
          DeleteText(table)))
  }

  // ---------------------------------------------------------------------
  // Facts about the property filters

  /** A property is listed as a key exactly when it is a flagged property. */
  lemma {:induction false} KeyPropertiesMembers(ps: seq<Property>, p: Property)
    ensures p in KeyProperties(ps) <==> p in ps && IsKey(p)
  {
    if ps != [] {
      KeyPropertiesMembers(ps[1..], p);
      assert ps == [ps[0]] + ps[1..];
    }
  }

  /** A property is listed as a data field exactly when it carries `[DataField]`. */
  lemma {:induction false} DataFieldPropertiesMembers(ps: seq<Property>, p: Property)
    ensures p in DataFieldProperties(ps) <==> p in ps && p.dataField.Some?
  {
    if ps != [] {
      DataFieldPropertiesMembers(ps[1..], p);
      assert ps == [ps[0]] + ps[1..];
    }
  }

  /** Looking for keys among the data fields finds the same keys as looking
      among all properties: a key is always a data field. */
  lemma {:induction false} KeysOfDataFields(ps: seq<Property>)
    ensures KeyProperties(DataFieldProperties(ps)) == KeyProperties(ps)
  {
    if ps != [] {
      KeysOfDataFields(ps[1..]);
      var head := if ps[0].dataField.Some? then [ps[0]] else [];
      KeyPropertiesAppend(head, DataFieldProperties(ps[1..]));
    }
  }

  lemma {:induction false} KeyPropertiesAppend(a: seq<Property>, b: seq<Property>)
    ensures KeyProperties(a + b) == KeyProperties(a) + KeyProperties(b)
  {
    if a == [] {
      assert a + b == b;
    } else {
      var head := if IsKey(a[0]) then [a[0]] else [];
      assert (a + b)[0] == a[0];
      assert (a + b)[1..] == a[1..] + b;
      KeyPropertiesAppend(a[1..], b);
      assert KeyProperties(a + b) == head + (KeyProperties(a[1..]) + KeyProperties(b));
      assert KeyProperties(a) == head + KeyProperties(a[1..]);
    }
  }

  /** No property is flagged as the primary key. */
  predicate NoneFlagged(ps: seq<Property>)
  {
    forall i :: 0 <= i < |ps| ==> !IsKey(ps[i])
  }

  /** Two different properties are flagged as the primary key. */
  predicate TwoFlagged(ps: seq<Property>)
  {
    exists i, j :: 0 <= i < j < |ps| && IsKey(ps[i]) && IsKey(ps[j])
  }

  /** Exactly one property is flagged as the primary key. */
  predicate OneFlagged(ps: seq<Property>)
  {
    exists k :: 0 <= k < |ps| && IsKey(ps[k]) && forall j :: 0 <= j < |ps| && IsKey(ps[j]) ==> j == k
  }

  /** No key is listed exactly when no property is flagged. */
  lemma {:induction false} NoKeys(ps: seq<Property>)
    ensures |KeyProperties(ps)| == 0 <==> NoneFlagged(ps)
  {
    if ps != [] {
      NoKeys(ps[1..]);
      if forall i :: 0 <= i < |ps| - 1 ==> !IsKey(ps[1..][i]) {
        assert forall i :: 1 <= i < |ps| ==> !IsKey(ps[i]) by {
          forall i | 1 <= i < |ps| ensures !IsKey(ps[i]) {
            assert ps[i] == ps[1..][i - 1];
          }
        }
      }
    }
  }

  /** More than one key is listed exactly when two properties are flagged. */
  lemma {:induction false} ManyKeys(ps: seq<Property>)
    ensures |KeyProperties(ps)| > 1 <==> TwoFlagged(ps)
  {
    if ps != [] {
      var tail := ps[1..];
      ManyKeys(tail);
      NoKeys(tail);
      assert |KeyProperties(ps)| == (if IsKey(ps[0]) then 1 else 0) + |KeyProperties(tail)|;
      if |KeyProperties(ps)| > 1 {
        if IsKey(ps[0]) {
          var j :| 0 <= j < |tail| && IsKey(tail[j]);
          assert IsKey(ps[0]) && IsKey(ps[j + 1]);
        } else {
          var i, j :| 0 <= i < j < |tail| && IsKey(tail[i]) && IsKey(tail[j]);
          assert IsKey(ps[i + 1]) && IsKey(ps[j + 1]);
        }
      }
      if exists i, j :: 0 <= i < j < |ps| && IsKey(ps[i]) && IsKey(ps[j]) {
        var i, j :| 0 <= i < j < |ps| && IsKey(ps[i]) && IsKey(ps[j]);
        assert IsKey(tail[j - 1]);
        if i > 0 {
          assert IsKey(tail[i - 1]);
        }
      }
    }
  }

  /** The listed order is kept: the data fields of a concatenation are
      those of the first part followed by those of the second. */
  lemma {:induction false} DataFieldPropertiesAppend(a: seq<Property>, b: seq<Property>)
    ensures DataFieldProperties(a + b) == DataFieldProperties(a) + DataFieldProperties(b)
  {
    if a == [] {
      assert a + b == b;
    } else {
      var head := if a[0].dataField.Some? then [a[0]] else [];
      assert (a + b)[0] == a[0];
      assert (a + b)[1..] == a[1..] + b;
      DataFieldPropertiesAppend(a[1..], b);
      assert DataFieldProperties(a + b) == head + (DataFieldProperties(a[1..]) + DataFieldProperties(b));
      assert DataFieldProperties(a) == head + DataFieldProperties(a[1..]);
    }
  }

  // ---------------------------------------------------------------------
  // What the constructor promises

  /** The outcome of the constructor: the missing table wins over every
      field check; otherwise zero flagged properties, two or more flagged
      properties, or exactly one, decide between the two key errors and
      success. */
  lemma BuildOutcome(m: ModelType)
    ensures Build(m) == Failure(MissingDataTable) <==> m.dataTable.None?
    ensures Build(m) == Failure(NoPrimaryKey) <==> m.dataTable.Some? && NoneFlagged(m.properties)
    ensures Build(m) == Failure(MultiplePrimaryKeys) <==> m.dataTable.Some? && TwoFlagged(m.properties)
    ensures Build(m).Success? <==> m.dataTable.Some? && OneFlagged(m.properties)
  {
    BuildByKeyCount(m);
    NoKeys(m.properties);
    ManyKeys(m.properties);
    OneKey(m.properties);
  }

  /** The constructor's decision, read off the number of flagged properties. */
  lemma BuildByKeyCount(m: ModelType)
    ensures m.dataTable.Some? && |KeyProperties(m.properties)| == 0 ==> Build(m) == Failure(NoPrimaryKey)
    ensures m.dataTable.Some? && |KeyProperties(m.properties)| > 1 ==> Build(m) == Failure(MultiplePrimaryKeys)
    ensures m.dataTable.Some? && |KeyProperties(m.properties)| == 1 ==> Build(m).Success?
  {
    KeysOfDataFields(m.properties);
  }

  /** Exactly one key is listed when exactly one property is flagged. */
  lemma OneKey(ps: seq<Property>)
    ensures |KeyProperties(ps)| == 1 <==> OneFlagged(ps)
  {
    NoKeys(ps);
    ManyKeys(ps);
    if |KeyProperties(ps)| == 1 {
      var p := KeyProperties(ps)[0];
      KeyPropertiesMembers(ps, p);
      var k :| 0 <= k < |ps| && ps[k] == p;
      forall j | 0 <= j < |ps| && IsKey(ps[j]) ensures j == k {
      }
    }
  }

  /** On success the data fields are the names of exactly the properties
      marked `[DataField]`, the key is the name of a flagged property, and
      the key is one of the data fields. */
  lemma BuildFields(m: ModelType, md: Metadata)
    requires Build(m) == Success(md)
    ensures md.tableName == m.dataTable.value
    ensures md.dataFields == Names(DataFieldProperties(m.properties))
    ensures forall f :: f in md.dataFields <==>
      exists p :: p in m.properties && p.dataField.Some? && p.name == f
    ensures exists k :: (0 <= k < |m.properties| && IsKey(m.properties[k]) &&
      m.properties[k].name == md.primaryKey)
    ensures md.primaryKey in md.dataFields
  {
    var ps := m.properties;
    var dfp := DataFieldProperties(ps);
    forall f ensures f in md.dataFields <==> exists p :: p in ps && p.dataField.Some? && p.name == f {
      DataFieldNamesMembers(ps, f);
    }
    var key := KeyProperties(dfp)[0];
    KeysOfDataFields(ps);
    KeyPropertiesMembers(ps, key);
    var k :| 0 <= k < |ps| && ps[k] == key;
    assert IsKey(ps[k]) && ps[k].name == md.primaryKey;
    DataFieldNamesMembers(ps, key.name);
  }

  /** A name is a data field exactly when some `[DataField]` property has it. */
  lemma DataFieldNamesMembers(ps: seq<Property>, f: string)
    ensures f in Names(DataFieldProperties(ps)) <==> exists p :: p in ps && p.dataField.Some? && p.name == f
  {
    var dfp := DataFieldProperties(ps);
    var names := Names(dfp);
    if f in names {
      var i :| 0 <= i < |names| && names[i] == f;
      DataFieldPropertiesMembers(ps, dfp[i]);
    }
    if exists p :: p in ps && p.dataField.Some? && p.name == f {
      var p :| p in ps && p.dataField.Some? && p.name == f;
      DataFieldPropertiesMembers(ps, p);
      var i :| 0 <= i < |dfp| && dfp[i] == p;
      assert names[i] == f;
    }
  }

  /** Properties without `[DataField]` never reach the statements: when a
      property name is not shared with another property, an unmarked
      property is not a data field. */
  lemma UnmarkedExcluded(m: ModelType, md: Metadata, p: Property)
    requires Build(m) == Success(md)
    requires p in m.properties && p.dataField.None?
    requires forall q :: q in m.properties && q.name == p.name ==> q == p
    ensures p.name !in md.dataFields
  {
    BuildFields(m, md);
  }

  /** INSERT and UPDATE are built from the same non-key list: it never holds
      the key, holds every other data field once, and, when the data field
      names are distinct, is the data fields with the key removed, in order. */
  lemma NonKeyFields(m: ModelType, md: Metadata)
    requires Build(m) == Success(md)
    ensures md.primaryKey !in Except(md.dataFields, [md.primaryKey])
    ensures forall f :: f in Except(md.dataFields, [md.primaryKey]) <==> f in md.dataFields && f != md.primaryKey
    ensures Distinct(Except(md.dataFields, [md.primaryKey]))
    ensures Distinct(md.dataFields) ==>
      Except(md.dataFields, [md.primaryKey]) == Without(md.dataFields, md.primaryKey) &&
      |Except(md.dataFields, [md.primaryKey])| == |md.dataFields| - 1
  {
    if Distinct(md.dataFields) {
      BuildFields(m, md);
      ExceptOfDistinct(md.dataFields, md.primaryKey);
      WithoutOfDistinctLength(md.dataFields, md.primaryKey);
    }
  }

  // ---------------------------------------------------------------------
  // The statement texts, read around one field

  /** SELECT lists every data field, the key included, in order: the
      `i`-th column `[f_i]` comes after the earlier columns, each followed
      by `, `, and before the later ones and ` FROM [table]`. */
  lemma SelectColumnAt(table: string, fields: seq<string>, i: nat)
    requires i < |fields|
    ensures SelectText(table, fields)
         == "SELECT " + Before(", ", Project(Bracket, fields), i) + Bracket(fields[i])
              + After(", ", Project(Bracket, fields), i) + " FROM " + Bracket(table)
  {
    var cols := Project(Bracket, fields);
    JoinAround(", ", cols, i);
    ConcatAssoc("SELECT ", Before(", ", cols, i), cols[i], After(", ", cols, i));
  }

  /** INSERT pairs the `i`-th column `[f_i]` with the `i`-th value `@f_i`:
      both lists come from the same non-key fields, so the same number of
      entries precede each of them and they name the same field. */
  lemma InsertPairAt(table: string, nonKey: seq<string>, i: nat)
    requires i < |nonKey|
    ensures |Project(Bracket, nonKey)| == |Project(Parameterize, nonKey)| == |nonKey|
    ensures InsertText(table, nonKey)
         == "INSERT INTO " + Bracket(table) + " ("
              + Before(", ", Project(Bracket, nonKey), i) + Bracket(nonKey[i]) + After(", ", Project(Bracket, nonKey), i)
              + ") VALUES ("
              + Before(", ", Project(Parameterize, nonKey), i) + Parameterize(nonKey[i]) + After(", ", Project(Parameterize, nonKey), i)
              + ")"
  {
    var cols := Project(Bracket, nonKey);
    var vals := Project(Parameterize, nonKey);
    var head := "INSERT INTO " + Bracket(table) + " (";
    JoinAround(", ", cols, i);
    JoinAround(", ", vals, i);
    var c := Before(", ", cols, i) + cols[i] + After(", ", cols, i);
    var v := Before(", ", vals, i) + vals[i] + After(", ", vals, i);
    calc {
      InsertText(table, nonKey);
      head + c + ") VALUES (" + v + ")";
      { ConcatAssoc(head, Before(", ", cols, i), cols[i], After(", ", cols, i)); }
      head + Before(", ", cols, i) + cols[i] + After(", ", cols, i) + ") VALUES (" + v + ")";
      { ConcatAssoc(head + Before(", ", cols, i) + cols[i] + After(", ", cols, i) + ") VALUES (",
          Before(", ", vals, i), vals[i], After(", ", vals, i)); }
      head + Before(", ", cols, i) + cols[i] + After(", ", cols, i) + ") VALUES ("
        + Before(", ", vals, i) + vals[i] + After(", ", vals, i) + ")";
    }
  }

  /** UPDATE assigns each non-key field its own parameter, in order: the
      `i`-th assignment `[f_i] = @f_i` comes after the earlier assignments,
      each followed by `, `, and the last one ends the statement (there is
      no WHERE clause). */
  lemma UpdateAssignmentAt(table: string, nonKey: seq<string>, i: nat)
    requires i < |nonKey|
    ensures UpdateText(table, nonKey)
         == "UPDATE " + Bracket(table) + " SET " + Before(", ", Project(Equation, nonKey), i)
              + (Bracket(nonKey[i]) + " = " + Parameterize(nonKey[i]))
              + After(", ", Project(Equation, nonKey), i)
    ensures i + 1 == |nonKey| ==> After(", ", Project(Equation, nonKey), i) == ""
  {
    var eqs := Project(Equation, nonKey);
    JoinAround(", ", eqs, i);
    assert eqs[i] == Equation(nonKey[i]);
    ConcatAssoc("UPDATE " + Bracket(table) + " SET ", Before(", ", eqs, i), eqs[i], After(", ", eqs, i));
  }

  /** DELETE depends on the table alone: two models over the same table
      get the same DELETE whatever their fields. */
  lemma DeleteIndependentOfFields(m1: ModelType, m2: ModelType, md1: Metadata, md2: Metadata)
    requires Build(m1) == Success(md1) && Build(m2) == Success(md2)
    requires m1.dataTable == m2.dataTable
    ensures md1.delete == md2.delete == "DELETE FROM " + Bracket(m1.dataTable.value)
  {
  }

  // ---------------------------------------------------------------------
  // Field<TValue>

  /** An instance of a model type: the values its properties hold. A
      property that was never assigned holds the default of its type. */
  datatype Instance = Instance(modelType: ModelType, values: map<string, Value>)

  /** `GetProperty(name)`: the first property with that name. */
  function FindProperty(ps: seq<Property>, name: string): (r: Option<Property>)
    ensures r.None? <==> forall p :: p in ps ==> p.name != name
    ensures r.Some? ==> r.value in ps && r.value.name == name
  {
    if ps == [] then None
    else if ps[0].name == name then Some(ps[0])
    else FindProperty(ps[1..], name)
  }

  /** `GetValue(this)` for property `p`: the stored value, or the default of
      the declared type when nothing was assigned. A getter that throws is
      not modelled: every property is readable. */
  function CurrentValue(inst: Instance, p: Property): (r: Value)
    ensures p.name in inst.values ==> r == inst.values[p.name]
    ensures p.name !in inst.values ==> r == Default(p.propertyType)
    ensures (p.name in inst.values ==> HasType(inst.values[p.name], p.propertyType)) ==> HasType(r, p.propertyType)
  {
    if p.name in inst.values then inst.values[p.name] else Default(p.propertyType)
  }

  /** `Field<TValue>(name)`: the stored value when the property exists, is
      declared with exactly the requested type and is not null; the
      requested type's default otherwise. It never fails for a missing,
      mismatched or null property. */
  function Field(inst: Instance, name: string, t: TypeTag): (r: Value)
    ensures (forall p :: p in inst.modelType.properties ==> p.name != name) ==> r == Default(t)
    ensures r != Default(t) ==>
      exists p :: p in inst.modelType.properties && p.name == name && p.propertyType == t &&
        r == CurrentValue(inst, p) && r != Null
  {
    match FindProperty(inst.modelType.properties, name)
    case None => Default(t)
    case Some(prop) =>
      if prop.propertyType != t then Default(t)
      else
        var v := CurrentValue(inst, prop);
        if v == Null then Default(t) else v
  }

  /** Every property holds a value of its declared type. */
  predicate WellTyped(inst: Instance)
  {
    forall p :: p in inst.modelType.properties ==> HasType(CurrentValue(inst, p), p.propertyType)
  }

  /** The field reader is type safe: on a well-typed instance its result
      always has the requested type, so the cast `(TValue)val` cannot fail. */
  lemma FieldHasRequestedType(inst: Instance, name: string, t: TypeTag)
    requires WellTyped(inst)
    ensures HasType(Field(inst, name, t), t)
  {
  }

  /** With property names unique, the three default cases are exactly a
      mismatched type and a null value besides the missing property. */
  lemma FieldOfProperty(inst: Instance, p: Property, t: TypeTag)
    requires p in inst.modelType.properties
    requires forall q :: q in inst.modelType.properties && q.name == p.name ==> q == p
    ensures p.propertyType != t ==> Field(inst, p.name, t) == Default(t)
    ensures p.propertyType == t && CurrentValue(inst, p) == Null ==> Field(inst, p.name, t) == Default(t)
    ensures p.propertyType == t && CurrentValue(inst, p) != Null ==> Field(inst, p.name, t) == CurrentValue(inst, p)
  {
  }
}
