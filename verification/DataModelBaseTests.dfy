/** The model types of the repository's unit tests and the outcomes those
    tests pin down, stated as lemmas about the model. Expected statement
    texts are written as concatenations of their quoted names, keywords
    and separators; read together they spell the text the tests expect. */
module DataModelBaseTests {
  import opened Wrappers
  import opened Linq
  import opened StringExtensions
  import opened DataModelBase

  const Id := Property("Id", Int32, Some(DataField(true)))
  const FirstName := Property("FirstName", String, Some(DataField(false)))
  const LastName := Property("LastName", String, Some(DataField(false)))
  const ExtraField := Property("ExtraField", String, None)
  const Id2 := Property("Id2", Int32, Some(DataField(true)))

  /** `[DataTable("Person")]` with `Id` (key), `FirstName`, `LastName`. */
  const Person := ModelType(Some("Person"), [Id, FirstName, LastName])

  /** The same properties without `[DataTable]`. */
  const PersonMissingDataTable := ModelType(None, [Id, FirstName, LastName])

  /** Person plus an `ExtraField` property without `[DataField]`. */
  const PersonExtraField := ModelType(Some("Person"), [Id, FirstName, LastName, ExtraField])

  /** Only `FirstName` and `LastName`, neither flagged as key. */
  const PersonMissingPrimaryKey := ModelType(Some("Person"), [FirstName, LastName])

  /** Two flagged keys, `Id` and `Id2`. */
  const PersonMultiplePrimaryKey := ModelType(Some("Person"), [Id, Id2, FirstName, LastName])

  /** The derived metadata of `Person`, statement by statement. */
  lemma PersonMetadata()
    ensures Build(Person).Success?
    ensures Build(Person).value.tableName == "Person"
    ensures Build(Person).value.primaryKey == "Id"
    ensures Build(Person).value.dataFields == ["Id", "FirstName", "LastName"]
    ensures Build(Person).value.select
         == "SELECT " + "[Id]" + ", " + "[FirstName]" + ", " + "[LastName]" + " FROM " + "[Person]"
    ensures Build(Person).value.insert
         == "INSERT INTO " + "[Person]" + " (" + "[FirstName]" + ", " + "[LastName]"
              + ") VALUES (" + "@FirstName" + ", " + "@LastName" + ")"
    ensures Build(Person).value.update
         == "UPDATE " + "[Person]" + " SET " + "[FirstName] = @FirstName" + ", " + "[LastName] = @LastName"
    ensures Build(Person).value.delete == "DELETE FROM " + "[Person]"
  {
    PersonShape();
    PersonBracketed();
    IdBracketed();
    FirstNameBracketed();
    LastNameBracketed();
    FirstNameEquation();
    LastNameEquation();
    SelectOfThree("Person", "Id", "FirstName", "LastName");
    InsertOfTwo("Person", "FirstName", "LastName");
    UpdateOfTwo("Person", "FirstName", "LastName");
  }

  /** Filtering the Person statements on `Id` appends one condition. */
  lemma PersonFiltered()
    ensures Build(Person).Success?
    ensures Filter(Build(Person).value.select, ["Id"]) == Build(Person).value.select + " WHERE " + "[Id] = @Id"
    ensures Filter(Build(Person).value.update, ["Id"]) == Build(Person).value.update + " WHERE " + "[Id] = @Id"
    ensures Filter(Build(Person).value.delete, ["Id"]) == "DELETE FROM " + "[Person]" + " WHERE " + "[Id] = @Id"
  {
    PersonMetadata();
    IdEquation();
    assert Project(Equation, ["Id"]) == ["[Id] = @Id"];
  }

  /** A model without `[DataTable]` is refused. */
  lemma MissingDataTableRefused()
    ensures Build(PersonMissingDataTable) == Failure(MissingDataTable)
  {
  }

  /** A model whose data fields carry no key flag is refused. */
  lemma MissingPrimaryKeyRefused()
    ensures Build(PersonMissingPrimaryKey) == Failure(NoPrimaryKey)
  {
    BuildOutcome(PersonMissingPrimaryKey);
  }

  /** A model with two key flags is refused. */
  lemma MultiplePrimaryKeyRefused()
    ensures Build(PersonMultiplePrimaryKey) == Failure(MultiplePrimaryKeys)
  {
    var ps := PersonMultiplePrimaryKey.properties;
    KeysOfDataFields(ps);
    ManyKeys(ps);
    assert IsKey(ps[0]) && IsKey(ps[1]);
  }

  /** A property without `[DataField]` takes no part in the statements. */
  lemma ExtraFieldIgnored()
    ensures Build(PersonExtraField) == Build(Person)
  {
    var extra := PersonExtraField.properties;
    assert extra == [Id, FirstName, LastName] + [ExtraField];
    DataFieldPropertiesAppend([Id, FirstName, LastName], [ExtraField]);
    assert DataFieldProperties([ExtraField]) == [];
    PersonShape();
    assert DataFieldProperties(extra) == DataFieldProperties(Person.properties);
  }

  /** `Field` on a Person with `Id = 1` and nothing else set. */
  lemma PersonFields()
    ensures Field(Instance(Person, map["Id" := Int(1)]), "Id", Int32) == Int(1)
    ensures Field(Instance(Person, map[]), "NoField", String) == Null
    ensures Field(Instance(Person, map[]), "Id", String) == Null
    ensures Field(Instance(Person, map[]), "FirstName", String) == Null
  {
    assert FindProperty(Person.properties, "Id") == Some(Id);
    assert Person.properties[1..] == [FirstName, LastName];
    assert FindProperty(Person.properties, "FirstName") == Some(FirstName);
  }

  // ---------------------------------------------------------------------
  // Steps of the computations above

  lemma PersonShape()
    ensures DataFieldProperties([Id, FirstName, LastName]) == [Id, FirstName, LastName]
    ensures Build(Person) == Success(Metadata(
      "Person", ["Id", "FirstName", "LastName"], "Id",
      SelectText("Person", ["Id", "FirstName", "LastName"]),
      InsertText("Person", ["FirstName", "LastName"]),
      UpdateText("Person", ["FirstName", "LastName"]),
      DeleteText("Person")))
  {
    var ps := Person.properties;
    assert ps[1..] == [FirstName, LastName] && ps[1..][1..] == [LastName] && [LastName][1..] == [];
    assert DataFieldProperties([LastName]) == [LastName];
    assert DataFieldProperties([FirstName, LastName]) == [FirstName, LastName];
    assert DataFieldProperties(ps) == ps;
    assert KeyProperties([LastName]) == [];
    assert KeyProperties([FirstName, LastName]) == [];
    assert KeyProperties(ps) == [Id];
    var fields := ["Id", "FirstName", "LastName"];
    assert Names(ps) == fields;
    assert fields[1..] == ["FirstName", "LastName"] && fields[1..][1..] == ["LastName"] && ["LastName"][1..] == [];
    ExceptOfDistinct(fields, "Id");
    assert Without(fields, "Id") == ["FirstName", "LastName"];
  }

  lemma PersonBracketed()
    ensures Bracket("Person") == "[Person]"
  {
    assert "[" + "Person" == "[Person";
    assert "[Person" + "]" == "[Person]";
  }

  lemma IdEquation()
    ensures Equation("Id") == "[Id] = @Id"
  {
    IdBracketed();
    assert "[Id]" + " = " == "[Id] = ";
    assert "[Id] = " + "@Id" == "[Id] = @Id";
  }

  lemma IdBracketed()
    ensures Bracket("Id") == "[Id]" && Parameterize("Id") == "@Id"
  {
    assert "[" + "Id" == "[Id";
    assert "[Id" + "]" == "[Id]";
  }

  lemma FirstNameEquation()
    ensures Equation("FirstName") == "[FirstName] = @FirstName"
  {
    FirstNameBracketed();
    assert "[FirstName]" + " = " == "[FirstName] = ";
    assert "[FirstName] = " + "@FirstName" == "[FirstName] = @FirstName";
  }

  lemma FirstNameBracketed()
    ensures Bracket("FirstName") == "[FirstName]" && Parameterize("FirstName") == "@FirstName"
  {
    assert "[" + "FirstName" == "[FirstName";
    assert "[FirstName" + "]" == "[FirstName]";
  }

  lemma LastNameEquation()
    ensures Equation("LastName") == "[LastName] = @LastName"
  {
    LastNameBracketed();
    assert "[LastName]" + " = " == "[LastName] = ";
    assert "[LastName] = " + "@LastName" == "[LastName] = @LastName";
  }

  lemma LastNameBracketed()
    ensures Bracket("LastName") == "[LastName]" && Parameterize("LastName") == "@LastName"
  {
    assert "[" + "LastName" == "[LastName";
    assert "[LastName" + "]" == "[LastName]";
  }

  lemma JoinOfTwo(sep: string, x: string, y: string)
    ensures Join(sep, [x, y]) == x + sep + y
  {
    assert [x, y][1..] == [y];
  }

  lemma JoinOfThree(sep: string, x: string, y: string, z: string)
    ensures Join(sep, [x, y, z]) == x + sep + y + sep + z
  {
    assert [x, y, z][1..] == [y, z];
    JoinOfTwo(sep, y, z);
    ConcatAssoc(x + sep, y, sep, z);
  }

  lemma SelectOfThree(table: string, a: string, b: string, c: string)
    ensures SelectText(table, [a, b, c])
         == "SELECT " + Bracket(a) + ", " + Bracket(b) + ", " + Bracket(c) + " FROM " + Bracket(table)
  {
    assert Project(Bracket, [a, b, c]) == [Bracket(a), Bracket(b), Bracket(c)];
    JoinOfThree(", ", Bracket(a), Bracket(b), Bracket(c));
    calc {
      "SELECT " + (Bracket(a) + ", " + Bracket(b) + ", " + Bracket(c));
      { ConcatAssoc("SELECT ", Bracket(a) + ", ", Bracket(b) + ", ", Bracket(c)); }
      "SELECT " + (Bracket(a) + ", ") + (Bracket(b) + ", ") + Bracket(c);
      "SELECT " + Bracket(a) + ", " + Bracket(b) + ", " + Bracket(c);
    }
  }

  lemma InsertOfTwo(table: string, a: string, b: string)
    ensures InsertText(table, [a, b])
         == "INSERT INTO " + Bracket(table) + " (" + Bracket(a) + ", " + Bracket(b)
              + ") VALUES (" + Parameterize(a) + ", " + Parameterize(b) + ")"
  {
    assert Project(Bracket, [a, b]) == [Bracket(a), Bracket(b)];
    assert Project(Parameterize, [a, b]) == [Parameterize(a), Parameterize(b)];
    JoinOfTwo(", ", Bracket(a), Bracket(b));
    JoinOfTwo(", ", Parameterize(a), Parameterize(b));
    var head := "INSERT INTO " + Bracket(table) + " (";
    ConcatAssoc(head, Bracket(a), ", ", Bracket(b));
    var front := head + Bracket(a) + ", " + Bracket(b) + ") VALUES (";
    ConcatAssoc(front, Parameterize(a), ", ", Parameterize(b));
  }

  lemma UpdateOfTwo(table: string, a: string, b: string)
    ensures UpdateText(table, [a, b])
         == "UPDATE " + Bracket(table) + " SET " + Equation(a) + ", " + Equation(b)
  {
    assert Project(Equation, [a, b]) == [Equation(a), Equation(b)];
    JoinOfTwo(", ", Equation(a), Equation(b));
    ConcatAssoc("UPDATE " + Bracket(table) + " SET ", Equation(a), ", ", Equation(b));
  }
}
