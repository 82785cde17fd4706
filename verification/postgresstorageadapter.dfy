/**
 * The pure part of the Postgres storage adapter: the Parse-type to column-type
 * map, the comparator table, the two value transforms and the CLP tables.
 */
module PostgresStorageAdapterModel {
  import opened Results
  import opened JsString
  import opened JsValue
  import SchemaControllerModel

  /**
   * `parseTypeToPostgresType(type)`. An unknown type throws a string built
   * from `JSON.stringify(type)`; that text is passed in as `json`.
   */
  function ParseTypeToPostgresType(descriptor: Value, json: string): (r: Result<string, Exception>)
    ensures r.Err? <==>
      (descriptor.Undefined? || descriptor.Null? || Member(descriptor, "type").value !in TypeNames)
    ensures r.Ok? && Member(descriptor, "type").value != Str("Array") ==>
      r.value == ColumnTypes[Member(descriptor, "type").value.s]
    ensures r.Ok? && Member(descriptor, "type").value == Str("Array") ==>
      r.value == if IsStringArray(descriptor) then "text[]" else "jsonb"
    ensures !descriptor.Undefined? && !descriptor.Null? && r.Err? ==>
      r.error == Raised(Str("no type for " + json + " yet"))
  {
    match Member(descriptor, "type")
    case Err(e) => Err(e)
    case Ok(t) =>
      if t == Str("String") then Ok("text")
      else if t == Str("Date") then Ok("timestamp with time zone")
      else if t == Str("Object") then Ok("jsonb")
      else if t == Str("File") then Ok("text")
      else if t == Str("Boolean") then Ok("boolean")
      else if t == Str("Pointer") then Ok("char(10)")
      else if t == Str("Number") then Ok("double precision")
      else if t == Str("GeoPoint") then Ok("point")
      else if t == Str("Bytes") then Ok("jsonb")
      else if t == Str("Array") then
        var contents := Member(descriptor, "contents").value;
        if Truthy(contents) && Member(contents, "type") == Ok(Str("String")) then Ok("text[]") else Ok("jsonb")
      else Err(Raised(Str("no type for " + json + " yet")))
  }

  /** The Parse types the switch knows. */
  const TypeNames: set<Value> := {Str("String"), Str("Date"), Str("Object"), Str("File"), Str("Boolean"),
    Str("Pointer"), Str("Number"), Str("GeoPoint"), Str("Bytes"), Str("Array")}

  /** The column type of each non-array Parse type: the reference table the switch must agree with. */
  const ColumnTypes: map<string, string> := map[
    "String" := "text", "Date" := "timestamp with time zone", "Object" := "jsonb", "File" := "text",
    "Boolean" := "boolean", "Pointer" := "char(10)", "Number" := "double precision", "GeoPoint" := "point",
    "Bytes" := "jsonb"]

  /** An `Array` whose `contents.type` is `String`. */
  predicate IsStringArray(descriptor: Value)
    requires !descriptor.Undefined? && !descriptor.Null?
  {
    var contents := Member(descriptor, "contents").value;
    Truthy(contents) && Member(contents, "type") == Ok(Str("String"))
  }

  /** Only the two column types that can hold any value are shared by several Parse types. */
  lemma ColumnTypesShared(a: string, b: string)
    requires a in ColumnTypes && b in ColumnTypes && a != b && ColumnTypes[a] == ColumnTypes[b]
    ensures ColumnTypes[a] == "jsonb" || ColumnTypes[a] == "text"
  {
  }

  /** `ParseToPostgresComparator`: the four range operators and their SQL spelling. */
  const Comparators: map<string, string> := map["$gt" := ">", "$lt" := "<", "$gte" := ">=", "$lte" := "<="]

  /** Each comparator has its own SQL operator, so a query's intent survives the translation. */
  lemma ComparatorsDistinct()
    ensures Comparators.Keys == {"$gt", "$lt", "$gte", "$lte"}
    ensures forall a, b :: a in Comparators && b in Comparators && a != b ==> Comparators[a] != Comparators[b]
  {
  }

  /**
   * `toPostgresValue(value)`: a `Date` object becomes its `iso`, a `File`
   * object its `name`; everything else is unchanged. `typeof null` is
   * `"object"`, so `null` throws on reading `__type`.
   */
  function ToPostgresValue(value: Value): (r: Result<Value, Exception>)
    ensures value.Null? ==> r.Err?
    ensures TypeOf(value) != "object" ==> r == Ok(value)
    ensures value.Arr? ==> r == Ok(value)
    ensures value.Obj? && Lookup(value.props, "__type") == Str("Date") ==> r == Ok(Lookup(value.props, "iso"))
    ensures value.Obj? && Lookup(value.props, "__type") == Str("File") ==> r == Ok(Lookup(value.props, "name"))
    ensures value.Obj? && Lookup(value.props, "__type") != Str("Date") && Lookup(value.props, "__type") != Str("File") ==>
      r == Ok(value)
  {
    if TypeOf(value) == "object" then
      match Member(value, "__type")
      case Err(e) => Err(e)
      case Ok(t) =>
        if t == Str("Date") then Member(value, "iso")
        else if t == Str("File") then Member(value, "name")
        else Ok(value)
    else Ok(value)
  }

  /** `transformValue(value)`: a `Pointer` object becomes its `objectId`; `null` throws as above. */
  function TransformValue(value: Value): (r: Result<Value, Exception>)
    ensures value.Null? ==> r.Err?
    ensures TypeOf(value) != "object" ==> r == Ok(value)
    ensures value.Arr? ==> r == Ok(value)
    ensures value.Obj? ==> r == Ok(if Lookup(value.props, "__type") == Str("Pointer")
                                   then Lookup(value.props, "objectId") else value)
  {
    if TypeOf(value) == "object" then
      match Member(value, "__type")
      case Err(e) => Err(e)
      case Ok(t) => if t == Str("Pointer") then Member(value, "objectId") else Ok(value)
    else Ok(value)
  }

  /** The operations both CLP tables list, in order (`addFiled` spelled as in the tables). */
  const CLPOperations: seq<string> := ["find", "get", "create", "update", "delete", "addFiled"]

  /** A CLP table granting `grant` on each operation. */
  function CLPTable(grant: Value): (v: Value)
    ensures v.Obj? && KeysOf(v.props) == CLPOperations
    ensures forall i :: 0 <= i < |CLPOperations| ==> Lookup(v.props, CLPOperations[i]) == grant
  {
    var props := [Entry("find", grant), Entry("get", grant), Entry("create", grant), Entry("update", grant),
                  Entry("delete", grant), Entry("addFiled", grant)];
    CLPOperationsDistinct();
    forall i | 0 <= i < |CLPOperations|
      ensures Lookup(props, CLPOperations[i]) == grant
    {
      assert props[i].key == CLPOperations[i];
      LookupFirst(props, i);
    }
    assert KeysOf(props) == CLPOperations;
    Obj(props)
  }

  lemma CLPOperationsDistinct()
    ensures forall i, j :: 0 <= i < j < |CLPOperations| ==> CLPOperations[i] != CLPOperations[j]
  {
  }

  /** `emptyCLPS`: an empty object per operation. */
  const EmptyCLPs: Value := CLPTable(Obj([]))

  /** `defaultCLPS`: `{'*': true}` per operation. */
  const DefaultCLPs: Value := CLPTable(Obj([Entry("*", Bool(true))]))

  /** Each of the first five operations of either table passes on its own. */
  lemma GrantPasses(grant: Value, i: nat, fields: Value)
    requires grant == Obj([]) || grant == Obj([Entry("*", Bool(true))])
    requires i < 5
    ensures SchemaControllerModel.ValidateOperation(CLPTable(grant), CLPOperations[i], fields).Ok?
  {
    var op := CLPOperations[i];
    PlainOperation(i);
    assert Member(CLPTable(grant), op).value == grant;
    GrantPermissionsPass(grant, op);
  }

  /** The first five operations are valid CLP operations, none of them a user-fields one. */
  lemma PlainOperation(i: nat)
    requires i < 5
    ensures CLPOperations[i] in SchemaControllerModel.CLPValidKeys
    ensures !SchemaControllerModel.IsUserFieldsOperation(CLPOperations[i])
  {
    var k := [0, 2, 3, 4, 5][i];
    assert SchemaControllerModel.CLPValidKeys[k] == CLPOperations[i];
  }

  /** Both grants hold only valid keys mapped to `true`. */
  lemma GrantPermissionsPass(grant: Value, op: string)
    requires grant == Obj([]) || grant == Obj([Entry("*", Bool(true))])
    ensures SchemaControllerModel.ValidatePermissions(ObjectKeys(grant).value, grant, op) == Ok(())
  {
    var keys := ObjectKeys(grant).value;
    if grant == Obj([]) {
      assert keys == [];
    } else {
      assert keys == ["*"] && keys[1..] == [];
      assert SchemaControllerModel.VerifyPermissionKey("*").Ok?;
      assert Member(grant, "*") == Ok(Bool(true));
    }
  }

  /**
   * The tables name `addFiled`, which the schema validator does not know:
   * neither table passes `validateCLP`, whatever the fields.
   */
  lemma CLPTablesRejected(grant: Value, fields: Value)
    requires grant == Obj([]) || grant == Obj([Entry("*", Bool(true))])
    ensures SchemaControllerModel.ValidateCLP(CLPTable(grant), fields) ==
      Err(SchemaControllerModel.InvalidOperationError("addFiled"))
  {
    var perms := CLPTable(grant);
    forall j | 0 <= j < 5
      ensures SchemaControllerModel.ValidateOperation(perms, CLPOperations[j], fields).Ok?
    {
      GrantPasses(grant, j, fields);
    }
    AddFiledRejected(perms, fields);
    FirstFailingOperation(perms, fields);
  }

  /** A table with the listed operations, the first five passing, fails as its sixth does. */
  lemma FirstFailingOperation(perms: Value, fields: Value)
    requires perms.Obj? && KeysOf(perms.props) == CLPOperations
    requires forall j | 0 <= j < 5 :: SchemaControllerModel.ValidateOperation(perms, CLPOperations[j], fields).Ok?
    requires SchemaControllerModel.ValidateOperation(perms, CLPOperations[5], fields).Err?
    ensures SchemaControllerModel.ValidateCLP(perms, fields) ==
      SchemaControllerModel.ValidateOperation(perms, CLPOperations[5], fields)
  {
    assert ObjectKeys(perms).value == CLPOperations;
    SchemaControllerModel.ValidateOperationsFirstError(perms, CLPOperations, fields, 5);
  }

  /** The misspelt operation is refused whatever it grants. */
  lemma AddFiledRejected(perms: Value, fields: Value)
    requires !perms.Undefined? && !perms.Null?
    ensures SchemaControllerModel.ValidateOperation(perms, CLPOperations[5], fields) ==
      Err(SchemaControllerModel.InvalidOperationError("addFiled"))
  {
    var op := CLPOperations[5];
    assert op == "addFiled" && |op| == 8 && op[5] == 'l';
    assert op !in SchemaControllerModel.CLPValidKeys;
  }
}
