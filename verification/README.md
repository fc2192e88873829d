# DapperPoco: the model base class and its string helpers

DapperPoco is a small layer over Dapper. A plain C# class that derives from
`DataModelBase<T>` does three things:

- it names its table with `[DataTable("...")]`;
- it marks its persisted properties with `[DataField]`;
- it flags exactly one of them with `IsPrimaryKey = true`.

The base-class constructor then reads those attributes once. It derives:

- the table name;
- the ordered list of data fields;
- the primary key;
- four ready-made SQL statements: SELECT, INSERT, UPDATE and DELETE.

The string extensions `Bracket`, `Parameterize` and `Filter` quote
identifiers, make `@name` placeholders and append a `WHERE` clause.
`Field<TValue>` reads a property by name and falls back to the type's
default value.

This project models that core in Dafny:

- `Wrappers.dfy`: `Option` and `Result`.
- `Linq.dfy`: the LINQ operators the constructor uses.
  - `Select` becomes `Project`.
  - `Except` is modelled with LINQ's set semantics: it drops every element of the second sequence, drops later duplicates and keeps first-occurrence order.
  - `Without`: a plain order-preserving filter. For distinct input, `Except` equals it.
- `StringExtensions.dfy`: `Bracket`, `Parameterize`, `Filter` and `Join`.
  - `Join` is `string.Join`.
  - Its positional reading is `Before + element + After`.
- `DataModelBase.dfy`: the model types and the constructor.
  - A model type is described explicitly, replacing reflection. It has an optional table name and its properties in reflection order, each with a name, a declared type and an optional `[DataField]`.
  - The constructor is the function `Build`. It returns either one of three configuration errors or the derived `Metadata`.
  - `Field` reads an `Instance` of a model type.
- `DataModelBaseTests.dfy`: the model types of the repository's unit tests, and the outcomes those tests expect, as lemmas.

The constructor follows the source's order:

1. it checks the table attribute;
2. it derives the data fields (a model without any falls through to the key check);
3. it checks the count of primary keys: none is an error, and more than one is an error.

Only then are the statements built. INSERT and UPDATE use the data fields
without the primary key, computed with `Except` exactly as the source does.

## Model

| member | source | states |
|---|---|---|
| DataModelBase.Build | DapperPoco/DataModelBase.cs:38-77 | A missing table attribute fails with MissingDataTable. On success the table name is the attribute's, SELECT lists all data fields, INSERT and UPDATE use the data fields `Except` the primary key, and DELETE names the table. |
| DataModelBase.BuildOutcome | DapperPoco/DataModelBase.cs:43-61 | Each outcome holds exactly when its condition does. MissingDataTable: no table attribute. NoPrimaryKey: a table but no flagged property (`NoneFlagged`). MultiplePrimaryKeys: a table and flagged properties at two positions (`TwoFlagged`). Success: a table and a flagged property at exactly one position (`OneFlagged`). |
| DataModelBase.BuildByKeyCount | DapperPoco/DataModelBase.cs:52-61 | With a table present, zero key candidates fail with NoPrimaryKey, more than one fail with MultiplePrimaryKeys, and exactly one succeeds. |
| DataModelBase.OneKey | DapperPoco/DataModelBase.cs:58-60 | Exactly one key candidate is listed iff exactly one position holds a flagged property. |
| DataModelBase.BuildFields | DapperPoco/DataModelBase.cs:45-61 | After a successful build, the data fields are the names of the `[DataField]` properties, in the order the properties are listed. A name is a data field iff some property with that name carries `[DataField]`. The primary key is the name of a flagged property and is one of the data fields. |
| DataModelBase.DataFieldNamesMembers | DapperPoco/DataModelBase.cs:48-49 | A name is in the data-field list iff some property with that name carries `[DataField]`. |
| DataModelBase.UnmarkedExcluded | DapperPoco/DataModelBase.cs:48 | A property without `[DataField]` whose name no other property shares is not a data field. |
| DataModelBase.NonKeyFields | DapperPoco/DataModelBase.cs:67-74 | The columns of INSERT and UPDATE leave out the primary key and contain every other data field, without duplicates. When the data fields are distinct, they are exactly the data fields with the key removed, in order, one fewer. |
| DataModelBase.IsKey | DapperPoco/DataModelBase.cs:53-57 | The key lambda: a property is a key only when it carries `[DataField]` with `IsPrimaryKey` set; one without the attribute is never a key (the null guard). |
| DataModelBase.Names | DapperPoco/DataModelBase.cs:49 | `Select(df => df.Name)`: one name per property, the i-th name being the i-th property's. |
| DataModelBase.SelectText | DapperPoco/DataModelBase.cs:63-65 | The SELECT template: "SELECT ", the bracketed fields joined by ", ", " FROM ", then the bracketed table. Its contract states the keyword prefix and the `" FROM " + [table]` suffix; SelectColumnAt reads every column in place. |
| DataModelBase.InsertText | DapperPoco/DataModelBase.cs:67-70 | The INSERT template: "INSERT INTO [table] (", the bracketed columns, ") VALUES (", the `@` parameters, ")". Its contract states the prefix up to the column list and the closing parenthesis; InsertPairAt reads column and parameter i together. |
| DataModelBase.UpdateText | DapperPoco/DataModelBase.cs:72-74 | The UPDATE template: "UPDATE [table] SET " then the assignments `[f] = @f` joined by ", ". Its contract states that prefix and that no non-key field leaves only the prefix; UpdateAssignmentAt reads assignment i in place. |
| DataModelBase.DeleteText | DapperPoco/DataModelBase.cs:76 | The DELETE template: "DELETE FROM " followed by exactly the bracketed table and nothing else; DeleteIndependentOfFields states that no field affects it. |
| DataModelBase.SelectColumnAt | DapperPoco/DataModelBase.cs:63-65 | The SELECT text is "SELECT ", then the bracketed fields before position i and a separator, then the i-th bracketed field, then the rest of the list, then " FROM " and the bracketed table. |
| DataModelBase.InsertPairAt | DapperPoco/DataModelBase.cs:67-70 | The column list and the VALUES list have one entry per non-key field. The i-th column is `[f]` and the i-th value is `@f` for the same field f, at the same position in both lists. |
| DataModelBase.UpdateAssignmentAt | DapperPoco/DataModelBase.cs:72-74 | The SET list holds `[f] = @f` for the i-th non-key field at position i, and nothing follows the last assignment. |
| DataModelBase.DeleteIndependentOfFields | DapperPoco/DataModelBase.cs:76 | Two models with the same table get the same DELETE statement, "DELETE FROM " plus the bracketed table, whatever their fields. |
| DataModelBase.KeysOfDataFields | DapperPoco/DataModelBase.cs:52-57 | The primary-key candidates taken from the data fields are the flagged properties among all properties. The null-attribute guard inside the key filter never rejects a data field. |
| DataModelBase.KeyPropertiesMembers | DapperPoco/DataModelBase.cs:52-57 | A property is a key candidate iff it is one of the properties and its `[DataField]` is flagged as primary key. |
| DataModelBase.DataFieldPropertiesMembers | DapperPoco/DataModelBase.cs:48 | A property is kept as a data field iff it is one of the properties and carries `[DataField]`. |
| DataModelBase.NoKeys | DapperPoco/DataModelBase.cs:58 | There are no key candidates iff no property is flagged. |
| DataModelBase.ManyKeys | DapperPoco/DataModelBase.cs:59 | There is more than one key candidate iff two different positions hold flagged properties. |
| DataModelBase.DataFieldProperties | DapperPoco/DataModelBase.cs:48 | The `Where` over the properties keeps at most as many properties as it is given, and every kept property carries `[DataField]`. Membership both ways is in DataFieldPropertiesMembers. |
| DataModelBase.KeyProperties | DapperPoco/DataModelBase.cs:52-57 | The key filter keeps at most as many properties as it is given, and every kept property is flagged as primary key. Membership both ways is in KeyPropertiesMembers. |
| DataModelBase.Message | DapperPoco/DataModelBase.cs:44-59 | Every error message begins "A data model " and ends with a full stop. |
| DataModelBase.Default | DapperPoco/DataModelBase.cs:82-86 | `default(TValue)` is a value of the requested type: 0 for `int`, false for `bool`, and null exactly for the reference and nullable types. |
| DataModelBase.CurrentValue | DapperPoco/DataModelBase.cs:85 | An assigned property reads back as its stored value, and a never-assigned one as its type's default. If the stored value has the declared type, so does the value read. |
| DataModelBase.KeyPropertiesAppend | DapperPoco/DataModelBase.cs:52-57 | The key filter distributes over concatenation of property lists. |
| DataModelBase.DataFieldPropertiesAppend | DapperPoco/DataModelBase.cs:48 | The data-field filter distributes over concatenation of property lists. |
| DataModelBase.MessagesDistinguish | DapperPoco/DataModelBase.cs:44-59 | All three errors are thrown as InvalidOperationException. Their three messages are pairwise different, so the message identifies the error. |
| DataModelBase.FindProperty | DapperPoco/DataModelBase.cs:81 | The lookup finds nothing iff no property has the name. A found property is one of the model's properties and has that name. |
| DataModelBase.Field | DapperPoco/DataModelBase.cs:79-89 | An unknown name yields the requested type's default. Any other result is the current value of a property with that name, declared with exactly the requested type, and is not null. |
| DataModelBase.FieldHasRequestedType | DapperPoco/DataModelBase.cs:79-89 | When every property holds a value of its declared type, `Field` returns a value of the requested type, so the final cast never fails. |
| DataModelBase.FieldOfProperty | DapperPoco/DataModelBase.cs:82-88 | For a property with a unique name: a type mismatch gives the default; a null value gives the default; otherwise the result is the property's value. |
| StringExtensions.Bracket | DapperWrapper/StringExtensions.cs:11-15 | An empty string is returned unchanged. Any other string comes back as itself between `[` and `]`. |
| StringExtensions.BracketInjective | DapperWrapper/StringExtensions.cs:11-15 | Different identifiers are quoted differently. |
| StringExtensions.Parameterize | DapperWrapper/StringExtensions.cs:17-21 | An empty string is returned unchanged. Any other string comes back as itself after `@`. |
| StringExtensions.ParameterizeInjective | DapperWrapper/StringExtensions.cs:17-21 | Different names get different placeholders. |
| StringExtensions.Filter | DapperWrapper/StringExtensions.cs:23-32 | No fields leaves the statement unchanged. Otherwise the statement is kept as a prefix, followed by " WHERE ". |
| StringExtensions.FilterIndependent | DapperWrapper/StringExtensions.cs:30-31 | The clause `Filter` appends does not depend on the statement it is appended to. |
| StringExtensions.FilterConditionAt | DapperWrapper/StringExtensions.cs:30-31 | After " WHERE ", the i-th condition is `[f] = @f` for the i-th field, between the earlier conditions joined by " AND " and the later ones. |
| StringExtensions.Equation | DapperWrapper/StringExtensions.cs:31 | The `"{0} = {1}"` condition for field f is `[`, f, `] = @`, f. Column and parameter name the same field. An empty name gives " = ". The same format is used at DataModelBase.cs:74. |
| StringExtensions.Join | DapperWrapper/StringExtensions.cs:31 | `string.Join` of no elements is "". Otherwise its length is the summed lengths of the elements plus one separator between each pair, and it begins with the first element. |
| StringExtensions.JoinAround | DapperWrapper/StringExtensions.cs:31 | A joined list is the elements before position i with their separators, then element i, then a separator and the joined rest. |
| StringExtensions.BeforeIsJoinedPrefix | DapperWrapper/StringExtensions.cs:31 | What precedes element i (i > 0) is the first i elements joined, plus one separator. |
| StringExtensions.JoinAt | DapperWrapper/StringExtensions.cs:31 | Element i of a joined list occurs in the joined text at the offset given by the text before it. |
| Linq.Project | DapperPoco/DataModelBase.cs:49 | Projection keeps the length and maps each element in place. |
| Linq.Except | DapperPoco/DataModelBase.cs:69-74 | `first.Except(second)` yields an element iff it is in the first sequence and not in the second, and it yields no element twice. |
| Linq.ExceptFrom | DapperPoco/DataModelBase.cs:69-74 | The one-pass walk behind `Except` yields an element iff it is in the input and not yet excluded, and never yields an element twice. |
| Linq.Without | DapperPoco/DataModelBase.cs:69 | The independent reference filter keeps exactly the elements other than the removed key. |
| Linq.ExceptFromIgnoresAbsent | DapperPoco/DataModelBase.cs:69 | Removing an element that does not occur changes nothing. |
| Linq.ExceptOfDistinct | DapperPoco/DataModelBase.cs:69 | On a duplicate-free list, `Except` of a single key is the list with that key filtered out, in order. |
| Linq.ExceptFromSingleOfDistinct | DapperPoco/DataModelBase.cs:69 | On a duplicate-free list, the set-based removal of one key equals the order-preserving filter. |
| Linq.WithoutOfDistinctLength | DapperPoco/DataModelBase.cs:69 | Removing a key that occurs in a duplicate-free list shortens it by exactly one, and the key no longer occurs. |
| Linq.WithoutAbsent | DapperPoco/DataModelBase.cs:69 | Removing a key that does not occur leaves the list unchanged. |
| DataModelBaseTests.PersonMetadata | Tests/DataModelBaseTests.cs:11-53 | For Person, the outcomes are: primary key "Id"; data fields Id, FirstName, LastName; SELECT `SELECT [Id], [FirstName], [LastName] FROM [Person]`; INSERT `INSERT INTO [Person] ([FirstName], [LastName]) VALUES (@FirstName, @LastName)`; UPDATE `UPDATE [Person] SET [FirstName] = @FirstName, [LastName] = @LastName`; DELETE `DELETE FROM [Person]`. |
| DataModelBaseTests.PersonFiltered | Tests/DataModelBaseTests.cs:85-104 | Filtering the Person SELECT, UPDATE and DELETE on "Id" appends ` WHERE [Id] = @Id`. |
| DataModelBaseTests.MissingDataTableRefused | Tests/DataModelBaseTests.cs:55-60 | A model without a table attribute is refused with MissingDataTable. |
| DataModelBaseTests.MissingPrimaryKeyRefused | Tests/DataModelBaseTests.cs:71-76 | A model without a flagged field is refused with NoPrimaryKey. |
| DataModelBaseTests.MultiplePrimaryKeyRefused | Tests/DataModelBaseTests.cs:78-83 | A model with two flagged fields is refused with MultiplePrimaryKeys. |
| DataModelBaseTests.ExtraFieldIgnored | Tests/DataModelBaseTests.cs:62-69 | A property without `[DataField]` changes nothing: the model builds exactly as Person does. |
| DataModelBaseTests.PersonFields | Tests/DataModelBaseTests.cs:106-136 | On Person: `Field<int>("Id")` after setting Id to 1 gives 1. `Field<string>` of an unknown name, of the int-typed "Id", and of the unset "FirstName" each gives null. |

## Left out

- The `Query` and `Execute` methods: they run SQL through Dapper on a live connection.
- The cached `_instance` singleton: the model builds the metadata as a value instead.
- The connection string: it is stored and never read by the modelled code.
- Reflection, and the `DataTableAttribute` and `DataFieldAttribute` classes: they become the `ModelType`, `Property` and `DataField` values above.
  - A property appears in reflection's order, which C# does not guarantee to be declaration order. The model takes the order as given.
- Null strings are modelled as "". Within generated SQL they render alike, but `Bracket(null)` and `Parameterize(null)` return null itself. A null `params` array given to `Filter` is modelled as the empty sequence; both return the statement unchanged.
- StringExtensions.Filter: its contract names the prefix and the " WHERE " keyword. The conditions are stated by StringExtensions.FilterConditionAt.
- DataModelBase.FindProperty: `GetProperty` throws when two public properties share a name (for example, one hidden with `new`). The model takes the first match instead.
- DataModelBase.FindProperty: a null `field` argument makes `GetProperty` throw; the model has no null name.
- DataModelBase.Field: `GetValue` can throw, and those throws are not modelled. This covers a property without a getter (`ArgumentException`), an indexer found by the name "Item" (`TargetParameterCountException`) and a getter that itself throws (`TargetInvocationException`). The model treats every property as a readable value.
- DataModelBase.Field: types are compared by exact tag. `TValue` can only be one of the four declared types modelled here, and unboxing casts such as `int` to `long` are not modelled.
- The database tests (`VerifySelectPerson`, `VerifyInsertPerson`, `VerifyUpdatePerson`): they need a database.
- `PrimaryKeyInfo` and `DataFieldInfo`: they are kept only implicitly, as the properties `Build` filters.
