/**
 * The schema validators: class and field names, permission keys and
 * class-level permissions (CLPs), over the frozen default-column tables.
 * Each regular expression is written as a predicate on characters.
 */
module SchemaControllerModel {
  import opened Results
  import opened JsString
  import opened JsValue

  /** One column of a default-column table: its type and, for pointers and relations, the target class. */
  datatype Column = Column(fieldType: string, targetClass: Option<string>)

  type Columns = map<string, Column>

  function Plain(t: string): Column { Column(t, None) }

  /** The default columns of every class, and the extra ones of each system class. */
  const DefaultColumns: map<string, Columns> := map[
    "_Default" := map[
      "objectId" := Plain("String"), "createdAt" := Plain("Date"), "updatedAt" := Plain("Date"),
      "ACL" := Plain("ACL")],
    "_User" := map[
      "username" := Plain("String"), "password" := Plain("String"), "email" := Plain("String"),
      "emailVerified" := Plain("Boolean"), "authData" := Plain("Object")],
    "_Installation" := map[
      "installationId" := Plain("String"), "deviceToken" := Plain("String"), "channels" := Plain("Array"),
      "pushType" := Plain("String"), "GCMSenderId" := Plain("String"), "timeZone" := Plain("String"),
      "localeIdentifier" := Plain("String"), "badge" := Plain("Number"), "appVersion" := Plain("String"),
      "appName" := Plain("String"), "appIdentifier" := Plain("String"), "parseVersion" := Plain("String")],
    "_Role" := map[
      "name" := Plain("String"), "users" := Column("Relation", Some("_User")),
      "roles" := Column("Relation", Some("_Role"))],
    "_Session" := map[
      "restricted" := Plain("Boolean"), "user" := Column("Pointer", Some("_User")),
      "installationId" := Plain("String"), "sessionToken" := Plain("String"), "expiresAt" := Plain("Date"),
      "createWith" := Plain("Object")],
    "_Product" := map[
      "productIdentifier" := Plain("String"), "download" := Plain("File"), "downloadName" := Plain("String"),
      "icon" := Plain("File"), "order" := Plain("Number"), "title" := Plain("String"),
      "subtitle" := Plain("String")],
    "_PushStatus" := map[
      "pushTime" := Plain("String"), "source" := Plain("String"), "query" := Plain("String"),
      "payload" := Plain("String"), "title" := Plain("String"), "expiry" := Plain("Number"),
      "status" := Plain("String"), "numSent" := Plain("Number"), "numFailed" := Plain("Number"),
      "pushHash" := Plain("String"), "errorMessage" := Plain("Object"), "sentPerType" := Plain("Object"),
      "failedPerType" := Plain("Object"), "count" := Plain("Number")],
    "_JobStatus" := map[
      "jobName" := Plain("String"), "source" := Plain("String"), "status" := Plain("String"),
      "message" := Plain("String"), "params" := Plain("Object"), "finishedAt" := Plain("Date")],
    "_JobSchedule" := map[
      "jobName" := Plain("String"), "description" := Plain("String"), "params" := Plain("String"),
      "startAfter" := Plain("String"), "daysOfWeek" := Plain("Array"), "timeOfDay" := Plain("String"),
      "lastRun" := Plain("Number"), "repeatMinutes" := Plain("Number")],
    "_Hooks" := map[
      "functionName" := Plain("String"), "className" := Plain("String"), "triggerName" := Plain("String"),
      "url" := Plain("String")],
    "_GlobalConfig" := map["objectId" := Plain("String"), "Params" := Plain("Object")],
    "_Audience" := map["objectId" := Plain("String"), "name" := Plain("String"), "query" := Plain("String")]
  ]

  /** The system classes, as listed (`_JobStatus` twice; `_Hooks` and `_GlobalConfig` absent). */
  const SystemClasses: seq<string> := ["_User", "_Installation", "_Role", "_Session", "_Product", "_PushStatus",
    "_JobStatus", "_JobStatus", "_JobSchedule", "_Audience"]

  /** The operations a CLP may name. */
  const CLPValidKeys: seq<string> := ["find", "count", "get", "create", "update", "delete", "addField",
    "readUserFields", "writeUserFields"]

  /** The static methods of `Object` (ECMAScript 2019). */
  const ObjectStatics: set<string> := {"assign", "create", "defineProperties", "defineProperty", "entries",
    "freeze", "fromEntries", "getOwnPropertyDescriptor", "getOwnPropertyDescriptors", "getOwnPropertyNames",
    "getOwnPropertySymbols", "getPrototypeOf", "is", "isExtensible", "isFrozen", "isSealed", "keys",
    "preventExtensions", "seal", "setPrototypeOf", "values"}

  /** The methods every function inherits from `Function.prototype`. */
  const FunctionPrototypeMembers: set<string> := {"apply", "bind", "call", "constructor", "toString"}

  /** The declared parameter count (`length`) of `Object` and of each method of `Object.prototype`. */
  function PrototypeFunctionLength(name: string): nat
  {
    if name in {"toString", "valueOf", "toLocaleString"} then 0
    else if name in {"__defineGetter__", "__defineSetter__"} then 2
    else 1
  }

  /**
   * The names under which `defaultColumns[className][name]` is truthy when
   * `className` is not a table but a member of `Object.prototype`:
   * `__proto__` finds `Object.prototype` itself; any other finds a function,
   * with its `name`, a non-zero `length`, what functions and objects inherit
   * and, for `constructor` (that is `Object`), its `prototype` and statics.
   */
  function InheritedColumns(className: string): (r: set<string>)
    ensures className !in ObjectPrototypeMembers ==> r == {}
    ensures className in ObjectPrototypeMembers && className != "__proto__" ==>
      "name" in r && ("length" in r <==> PrototypeFunctionLength(className) != 0) &&
      ("prototype" in r <==> className == "constructor") && FunctionPrototypeMembers <= r
  {
    if className == "__proto__" then ObjectPrototypeMembers - {"__proto__"}
    else if className in ObjectPrototypeMembers then
      FunctionPrototypeMembers + ObjectPrototypeMembers + {"name"} +
      (if PrototypeFunctionLength(className) != 0 then {"length"} else {}) +
      (if className == "constructor" then {"prototype"} + ObjectStatics else {})
    else {}
  }

  // ---------------------------------------------------------------- permission keys

  /** The four permission-key patterns, in the order they are tried. */
  datatype Pattern = UserIdPattern | RolePattern | PublicPattern | RequiresAuthenticationPattern

  const PermissionKeyPatterns: seq<Pattern> :=
    [UserIdPattern, RolePattern, PublicPattern, RequiresAuthenticationPattern]

  /** The number of ASCII letters and digits `s` has from index `i` on, before any other character. */
  function AlnumRun(s: string, i: nat): (n: nat)
    requires i <= |s|
    ensures i + n <= |s|
    ensures forall k :: i <= k < i + n ==> IsAsciiAlnum(s[k])
    ensures i + n == |s| || !IsAsciiAlnum(s[i + n])
    decreases |s| - i
  {
    if i == |s| || !IsAsciiAlnum(s[i]) then 0 else 1 + AlnumRun(s, i + 1)
  }

  /** Whether `key.match(pattern)` finds a match. */
  function Matches(p: Pattern, key: string): bool
  {
    match p
    case UserIdPattern => AlnumRun(key, 0) >= 10
    case RolePattern => StartsWith(key, "role:")
    case PublicPattern => key == "*"
    case RequiresAuthenticationPattern => key == "requiresAuthentication"
  }

  /** `permissionKeyRegex.reduce((isGood, regEx) => isGood || key.match(regEx) !== null, isGood)`. */
  function AnyMatches(patterns: seq<Pattern>, key: string, isGood: bool): bool
  {
    if |patterns| == 0 then isGood
    else AnyMatches(patterns[1..], key, isGood || Matches(patterns[0], key))
  }

  /** The fold finds a match exactly when some pattern matches. */
  lemma {:induction false} AnyMatchesSpec(patterns: seq<Pattern>, key: string, isGood: bool)
    ensures AnyMatches(patterns, key, isGood) <==>
      isGood || exists i :: 0 <= i < |patterns| && Matches(patterns[i], key)
  {
    if |patterns| > 0 {
      AnyMatchesSpec(patterns[1..], key, isGood || Matches(patterns[0], key));
      if exists i :: 0 <= i < |patterns[1..]| && Matches(patterns[1..][i], key) {
        var i :| 0 <= i < |patterns[1..]| && Matches(patterns[1..][i], key);
        assert patterns[i + 1] == patterns[1..][i];
      }
      if exists i :: 1 <= i < |patterns| && Matches(patterns[i], key) {
        var i :| 1 <= i < |patterns| && Matches(patterns[i], key);
        assert patterns[1..][i - 1] == patterns[i];
      }
    }
  }

  /** The permission keys: a user id (ten letters or digits, then anything), a role, `*`, or `requiresAuthentication`. */
  predicate IsPermissionKey(key: string)
  {
    (|key| >= 10 && forall i :: 0 <= i < 10 ==> IsAsciiAlnum(key[i])) ||
    StartsWith(key, "role:") || key == "*" || key == "requiresAuthentication"
  }

  function InvalidKeyError(key: string): Exception
  {
    ParseError(InvalidJson, Concat(["'", key, "' is not a valid key for class level permissions"]))
  }

  /** `verifyPermissionKey(key)`: accepts exactly the permission keys, and throws `INVALID_JSON` for the rest. */
  function VerifyPermissionKey(key: string): (r: Result<(), Exception>)
    ensures r.Ok? <==> IsPermissionKey(key)
    ensures r.Err? ==> r.error == InvalidKeyError(key)
  {
    var result := AnyMatches(PermissionKeyPatterns, key, false);
    assert result <==> IsPermissionKey(key) by {
      AnyMatchesSpec(PermissionKeyPatterns, key, false);
      var n := AlnumRun(key, 0);
      assert Matches(UserIdPattern, key) <==> |key| >= 10 && forall i :: 0 <= i < 10 ==> IsAsciiAlnum(key[i]) by {
        if |key| >= 10 && forall i :: 0 <= i < 10 ==> IsAsciiAlnum(key[i]) {
        }
      }
      assert PermissionKeyPatterns[0] == UserIdPattern && PermissionKeyPatterns[1] == RolePattern;
      assert PermissionKeyPatterns[2] == PublicPattern && PermissionKeyPatterns[3] == RequiresAuthenticationPattern;
    }
    if !result then Err(InvalidKeyError(key)) else Ok(())
  }

  // ---------------------------------------------------------------- class-level permissions

  predicate IsUserFieldsOperation(op: string)
  {
    op == "readUserFields" || op == "writeUserFields"
  }

  /** A field definition that `readUserFields`/`writeUserFields` may name: a pointer to `_User`. */
  predicate IsUserPointer(def: Value)
  {
    Truthy(def) && Member(def, "type") == Ok(Str("Pointer")) && Member(def, "targetClass") == Ok(Str("_User"))
  }

  function InvalidOperationError(op: string): Exception
  {
    ParseError(InvalidJson, Concat([op, " is not a valid operation for class level permission"]))
  }

  function NotAnArrayError(value: Value, op: string): Exception
  {
    ParseError(InvalidJson, Concat(["'", ToJsString(value), "' is not a valid value for class level permissions ", op]))
  }

  function InvalidColumnError(key: Value, op: string): Exception
  {
    ParseError(InvalidJson, Concat(["'", ToJsString(key), "' is not valid column for class level pointer permissions ", op]))
  }

  function InvalidPermissionError(perm: Value, op: string, key: string): Exception
  {
    ParseError(InvalidJson, Concat(["'", ToJsString(perm), "' is not a valid for class level permissions ",
      op, ":", key, ":", ToJsString(perm)]))
  }

  /** `perms[operation].forEach(key => ...)` for the user-field operations: each key must name a pointer to `_User`. */
  function ValidatePointerFields(keys: seq<Value>, fields: Value, op: string): (r: Result<(), Exception>)
  {
    if |keys| == 0 then Ok(())
    else match Member(fields, ToJsString(keys[0]))
      case Err(e) => Err(e)
      case Ok(def) =>
        if !IsUserPointer(def) then Err(InvalidColumnError(keys[0], op))
        else ValidatePointerFields(keys[1..], fields, op)
  }

  /** Every key of one operation's permission object is a permission key mapped to exactly `true`. */
  function ValidatePermissions(keys: seq<string>, permission: Value, op: string): (r: Result<(), Exception>)
    requires !permission.Undefined? && !permission.Null?
  {
    if |keys| == 0 then Ok(())
    else match VerifyPermissionKey(keys[0])
      case Err(e) => Err(e)
      case Ok(_) =>
        var perm := Member(permission, keys[0]).value;
        if perm != Bool(true) then Err(InvalidPermissionError(perm, op, keys[0]))
        else ValidatePermissions(keys[1..], permission, op)
  }

  /**
   * One operation of `validateCLP`, with the permission object's keys walked
   * by `Object.keys(perms[operation]).forEach(...)`, as the code evidently means.
   */
  function ValidateOperation(perms: Value, op: string, fields: Value): (r: Result<(), Exception>)
    requires !perms.Undefined? && !perms.Null?
  {
    if op !in CLPValidKeys then Err(InvalidOperationError(op))
    else
      var value := Member(perms, op).value;
      if IsUserFieldsOperation(op) then
        if !value.Arr? then Err(NotAnArrayError(value, op))
        else ValidatePointerFields(value.items, fields, op)
      else match ObjectKeys(value)
        case Err(e) => Err(e)
        case Ok(keys) => ValidatePermissions(keys, value, op)
  }

  function ValidateOperations(perms: Value, ops: seq<string>, fields: Value): (r: Result<(), Exception>)
    requires !perms.Undefined? && !perms.Null?
  {
    if |ops| == 0 then Ok(())
    else match ValidateOperation(perms, ops[0], fields)
      case Err(e) => Err(e)
      case Ok(_) => ValidateOperations(perms, ops[1..], fields)
  }

  /** `validateCLP(perms, fields)`: falsy perms pass; otherwise each operation in `Object.keys` order. */
  function ValidateCLP(perms: Value, fields: Value): (r: Result<(), Exception>)
    ensures !Truthy(perms) ==> r == Ok(())
  {
    if !Truthy(perms) then Ok(())
    else ValidateOperations(perms, ObjectKeys(perms).value, fields)
  }

  /** A user-fields entry names a field defined as a pointer to `_User`. */
  predicate PointerFieldOk(fields: Value, key: Value)
  {
    Member(fields, ToJsString(key)).Ok? && IsUserPointer(Member(fields, ToJsString(key)).value)
  }

  /** A permission entry is a permission key granted exactly `true`. */
  predicate PermissionGranted(permission: Value, key: string)
  {
    IsPermissionKey(key) && Member(permission, key) == Ok(Bool(true))
  }

  /** What a valid CLP entry is, stated without the walk. */
  predicate OperationValid(perms: Value, op: string, fields: Value)
    requires !perms.Undefined? && !perms.Null?
  {
    op in CLPValidKeys &&
    var value := Member(perms, op).value;
    if IsUserFieldsOperation(op) then
      value.Arr? &&
      forall i :: 0 <= i < |value.items| ==> PointerFieldOk(fields, value.items[i])
    else
      !value.Undefined? && !value.Null? &&
      forall i :: 0 <= i < |ObjectKeys(value).value| ==> PermissionGranted(value, ObjectKeys(value).value[i])
  }

  lemma {:induction false} ValidatePointerFieldsOk(keys: seq<Value>, fields: Value, op: string)
    ensures ValidatePointerFields(keys, fields, op).Ok? <==>
      forall i :: 0 <= i < |keys| ==> PointerFieldOk(fields, keys[i])
  {
    if |keys| > 0 {
      ValidatePointerFieldsOk(keys[1..], fields, op);
      assert ValidatePointerFields(keys, fields, op).Ok? <==>
        PointerFieldOk(fields, keys[0]) && ValidatePointerFields(keys[1..], fields, op).Ok?;
      assert forall i :: 1 <= i < |keys| ==> keys[i] == keys[1..][i - 1];
    }
  }

  lemma {:induction false} ValidatePermissionsOk(keys: seq<string>, permission: Value, op: string)
    requires !permission.Undefined? && !permission.Null?
    ensures ValidatePermissions(keys, permission, op).Ok? <==>
      forall i :: 0 <= i < |keys| ==> PermissionGranted(permission, keys[i])
  {
    if |keys| > 0 {
      ValidatePermissionsOk(keys[1..], permission, op);
      assert forall i :: 1 <= i < |keys| ==> keys[i] == keys[1..][i - 1];
    }
  }

  lemma ValidateOperationOk(perms: Value, op: string, fields: Value)
    requires !perms.Undefined? && !perms.Null?
    ensures ValidateOperation(perms, op, fields).Ok? <==> OperationValid(perms, op, fields)
  {
    if op in CLPValidKeys {
      if IsUserFieldsOperation(op) {
        UserFieldsOperationOk(perms, op, fields);
      } else {
        PermissionOperationOk(perms, op, fields);
      }
    }
  }

  lemma UserFieldsOperationOk(perms: Value, op: string, fields: Value)
    requires !perms.Undefined? && !perms.Null? && op in CLPValidKeys && IsUserFieldsOperation(op)
    ensures ValidateOperation(perms, op, fields).Ok? <==> OperationValid(perms, op, fields)
  {
    var value := Member(perms, op).value;
    if value.Arr? {
      ValidatePointerFieldsOk(value.items, fields, op);
    }
  }

  lemma PermissionOperationOk(perms: Value, op: string, fields: Value)
    requires !perms.Undefined? && !perms.Null? && op in CLPValidKeys && !IsUserFieldsOperation(op)
    ensures ValidateOperation(perms, op, fields).Ok? <==> OperationValid(perms, op, fields)
  {
    var value := Member(perms, op).value;
    if !value.Undefined? && !value.Null? {
      ValidatePermissionsOk(ObjectKeys(value).value, value, op);
    }
  }

  lemma {:induction false} ValidateOperationsOk(perms: Value, ops: seq<string>, fields: Value)
    requires !perms.Undefined? && !perms.Null?
    ensures ValidateOperations(perms, ops, fields).Ok? <==>
      forall i :: 0 <= i < |ops| ==> OperationValid(perms, ops[i], fields)
  {
    if |ops| > 0 {
      ValidateOperationOk(perms, ops[0], fields);
      ValidateOperationsOk(perms, ops[1..], fields);
      assert forall i :: 1 <= i < |ops| ==> ops[i] == ops[1..][i - 1];
    }
  }

  /** A truthy CLP passes exactly when every one of its operations is valid. */
  lemma ValidateCLPSpec(perms: Value, fields: Value)
    requires Truthy(perms)
    ensures ValidateCLP(perms, fields).Ok? <==>
      forall i :: 0 <= i < |ObjectKeys(perms).value| ==> OperationValid(perms, ObjectKeys(perms).value[i], fields)
  {
    ValidateOperationsOk(perms, ObjectKeys(perms).value, fields);
  }

  /** The first invalid operation in key order decides the error. */
  lemma {:induction false} ValidateOperationsFirstError(perms: Value, ops: seq<string>, fields: Value, i: nat)
    requires !perms.Undefined? && !perms.Null?
    requires i < |ops| && ValidateOperation(perms, ops[i], fields).Err?
    requires forall j :: 0 <= j < i ==> ValidateOperation(perms, ops[j], fields).Ok?
    ensures ValidateOperations(perms, ops, fields) == ValidateOperation(perms, ops[i], fields)
  {
    if i > 0 {
      ValidateOperationsFirstError(perms, ops[1..], fields, i - 1);
    }
  }

  // ---------------------------------------------------------------- validateCLP as written

  /**
   * The permission branch as written: `Object.keys(perms[operation].forEach(...))`.
   * Only an array has `forEach`; each element is checked as a key and
   * looked up in the array; `forEach` yields `undefined`, which
   * `Object.keys` refuses.
   */
  function ForEachPermissionAsWritten(items: seq<Value>, permission: Value, op: string): (r: Result<(), Exception>)
    requires permission.Arr?
  {
    if |items| == 0 then Ok(())
    else
      var key := items[0];
      if key.Undefined? || key.Null? then Err(TypeErrorReading("match", ToJsString(key)))
      else if !key.Str? then Err(TypeError("key.match is not a function"))
      else match VerifyPermissionKey(key.s)
        case Err(e) => Err(e)
        case Ok(_) =>
          var perm := Member(permission, key.s).value;
          if perm != Bool(true) then Err(InvalidPermissionError(perm, op, key.s))
          else ForEachPermissionAsWritten(items[1..], permission, op)
  }

  function PermissionBranchAsWritten(value: Value, op: string): (r: Result<(), Exception>)
    ensures r.Err?
  {
    match Member(value, "forEach")
    case Err(e) => Err(e)
    case Ok(_) =>
      if !value.Arr? then Err(TypeError("perms[operation].forEach is not a function"))
      else match ForEachPermissionAsWritten(value.items, value, op)
        case Err(e) => Err(e)
        case Ok(_) => ObjectKeysOfUndefined()
  }

  function ObjectKeysOfUndefined(): (r: Result<(), Exception>)
    ensures r.Err?
  {
    match ObjectKeys(Undefined)
    case Err(e) => Err(e)
    case Ok(_) => Ok(())
  }

  function ValidateOperationAsWritten(perms: Value, op: string, fields: Value): (r: Result<(), Exception>)
    requires !perms.Undefined? && !perms.Null?
  {
    if op !in CLPValidKeys then Err(InvalidOperationError(op))
    else
      var value := Member(perms, op).value;
      if IsUserFieldsOperation(op) then
        if !value.Arr? then Err(NotAnArrayError(value, op))
        else ValidatePointerFields(value.items, fields, op)
      else PermissionBranchAsWritten(value, op)
  }

  function ValidateOperationsAsWritten(perms: Value, ops: seq<string>, fields: Value): (r: Result<(), Exception>)
    requires !perms.Undefined? && !perms.Null?
  {
    if |ops| == 0 then Ok(())
    else match ValidateOperationAsWritten(perms, ops[0], fields)
      case Err(e) => Err(e)
      case Ok(_) => ValidateOperationsAsWritten(perms, ops[1..], fields)
  }

  /** `validateCLP` exactly as written. */
  function ValidateCLPAsWritten(perms: Value, fields: Value): (r: Result<(), Exception>)
    ensures !Truthy(perms) ==> r == Ok(())
  {
    if !Truthy(perms) then Ok(())
    else ValidateOperationsAsWritten(perms, ObjectKeys(perms).value, fields)
  }

  /** As written, a CLP passes only if it names no operation other than the two user-field ones. */
  lemma {:induction false} AsWrittenPassesOnlyUserFields(perms: Value, ops: seq<string>, fields: Value)
    requires !perms.Undefined? && !perms.Null?
    ensures ValidateOperationsAsWritten(perms, ops, fields).Ok? ==>
      forall i :: 0 <= i < |ops| ==> IsUserFieldsOperation(ops[i])
  {
    if |ops| > 0 {
      AsWrittenPassesOnlyUserFields(perms, ops[1..], fields);
      assert forall i :: 1 <= i < |ops| ==> ops[i] == ops[1..][i - 1];
    }
  }

  /** `{find: {'*': true}}` is refused with a `TypeError` as written, and accepted by the evident rule. */
  lemma PublicFindAsWritten()
    ensures var perms := Obj([Entry("find", Obj([Entry("*", Bool(true))]))]);
      ValidateCLPAsWritten(perms, Obj([])) == Err(TypeError("perms[operation].forEach is not a function")) &&
      ValidateCLP(perms, Obj([])) == Ok(())
  {
    var perms := Obj([Entry("find", Obj([Entry("*", Bool(true))]))]);
    PublicFindRefused(perms);
    PublicFindAccepted(perms);
  }

  lemma PublicFindRefused(perms: Value)
    requires perms == Obj([Entry("find", Obj([Entry("*", Bool(true))]))])
    ensures ValidateCLPAsWritten(perms, Obj([])) == Err(TypeError("perms[operation].forEach is not a function"))
  {
    var find := Obj([Entry("*", Bool(true))]);
    FindIsPlainOperation();
    assert ObjectKeys(perms).value == ["find"];
    assert Member(perms, "find") == Ok(find);
    assert ValidateOperationAsWritten(perms, "find", Obj([])) == PermissionBranchAsWritten(find, "find");
  }

  lemma PublicFindAccepted(perms: Value)
    requires perms == Obj([Entry("find", Obj([Entry("*", Bool(true))]))])
    ensures ValidateCLP(perms, Obj([])) == Ok(())
  {
    var find := Obj([Entry("*", Bool(true))]);
    FindIsPlainOperation();
    assert ObjectKeys(perms).value == ["find"];
    assert Member(perms, "find") == Ok(find);
    assert VerifyPermissionKey("*").Ok?;
    assert ObjectKeys(find).value == ["*"];
    assert ValidatePermissions(["*"], find, "find") == Ok(());
    assert ValidateOperation(perms, "find", Obj([])) == Ok(());
  }

  lemma FindIsPlainOperation()
    ensures "find" in CLPValidKeys && !IsUserFieldsOperation("find")
  {
    assert CLPValidKeys[0] == "find";
  }

  // ---------------------------------------------------------------- class and field names

  predicate IsWordChar(c: char) { IsAsciiAlnum(c) || c == '_' }

  /** `/^_Join:[A-Za-z0-9]+:[A-Za-z0-9_]+/` finds a match: `_Join:`, letters or digits, `:`, then a word character. */
  predicate IsJoinClassName(s: string)
  {
    StartsWith(s, "_Join:") &&
    exists j :: 7 <= j && j + 1 < |s| && AlnumBetween(s, 6, j) && s[j] == ':' && IsWordChar(s[j + 1])
  }

  /** Every character of `s` from `lo` up to `hi` is an ASCII letter or digit. */
  predicate AlnumBetween(s: string, lo: nat, hi: nat)
    requires lo <= hi <= |s|
  {
    forall k :: lo <= k < hi ==> IsAsciiAlnum(s[k])
  }

  /** The same test as a scan: the run of letters and digits after `_Join:` must be followed by `:` and a word character. */
  function JoinClassTest(s: string): bool
  {
    StartsWith(s, "_Join:") &&
    var n := AlnumRun(s, 6);
    n >= 1 && 6 + n + 1 < |s| && s[6 + n] == ':' && IsWordChar(s[6 + n + 1])
  }

  /** The scan answers the regular expression: the second `:` can only come right after the maximal run. */
  lemma JoinClassTestSpec(s: string)
    ensures JoinClassTest(s) <==> IsJoinClassName(s)
  {
    if IsJoinClassName(s) {
      var n := AlnumRun(s, 6);
      var j :| 7 <= j && j + 1 < |s| && AlnumBetween(s, 6, j) && s[j] == ':' && IsWordChar(s[j + 1]);
    }
  }

  /** `/^[A-Za-z][A-Za-z0-9]*$/`: a letter, then letters and digits only; no underscore anywhere. */
  predicate FieldNameIsValid(fieldName: string)
  {
    |fieldName| > 0 && IsAsciiLetter(fieldName[0]) &&
    forall i :: 1 <= i < |fieldName| ==> IsAsciiAlnum(fieldName[i])
  }

  /** `classNameIsValid`: a listed system class, a join table, or a valid field name. */
  function ClassNameIsValid(className: string): (r: bool)
    ensures r <==> className in SystemClasses || IsJoinClassName(className) || FieldNameIsValid(className)
  {
    JoinClassTestSpec(className);
    className in SystemClasses || JoinClassTest(className) || FieldNameIsValid(className)
  }

  /** `_Hooks` and `_GlobalConfig` have default columns but are not valid class names. */
  lemma UnlistedSystemClasses()
    ensures "_Hooks" in DefaultColumns && !ClassNameIsValid("_Hooks")
    ensures "_GlobalConfig" in DefaultColumns && !ClassNameIsValid("_GlobalConfig")
  {
    assert !FieldNameIsValid("_Hooks") by { assert "_Hooks"[0] == '_'; }
    assert !FieldNameIsValid("_GlobalConfig") by { assert "_GlobalConfig"[0] == '_'; }
  }

  /** A name starting with `_` is valid only as a system class or a join table. */
  lemma UnderscoreNames(className: string)
    requires |className| > 0 && className[0] == '_'
    ensures ClassNameIsValid(className) <==> className in SystemClasses || IsJoinClassName(className)
  {
  }

  /**
   * A column of `_Default`, of the class's own table, a name inherited from
   * `Object.prototype`, or, for a class named after a member of
   * `Object.prototype`, a truthy property of that member.
   */
  predicate IsDefaultColumn(fieldName: string, className: string)
  {
    fieldName in DefaultColumns["_Default"] || fieldName in ObjectPrototypeMembers ||
    (className in DefaultColumns && fieldName in DefaultColumns[className]) ||
    (className !in DefaultColumns && fieldName in InheritedColumns(className))
  }

  /** `fieldNameIsValidForClass`: a valid name that clobbers no default column. */
  function FieldNameIsValidForClass(fieldName: string, className: string): (r: bool)
    ensures r ==> FieldNameIsValid(fieldName)
    ensures r <==> FieldNameIsValid(fieldName) && !IsDefaultColumn(fieldName, className)
  {
    if !FieldNameIsValid(fieldName) then false
    else if fieldName in DefaultColumns["_Default"] || fieldName in ObjectPrototypeMembers then false
    else if className in DefaultColumns && fieldName in DefaultColumns[className] then false
    else if className !in DefaultColumns && fieldName in InheritedColumns(className) then false
    else true
  }

  /** No class may take a `_Default` column, and `_User` may not take `email`. */
  lemma DefaultColumnsRefused(className: string)
    ensures !FieldNameIsValidForClass("objectId", className) && !FieldNameIsValidForClass("createdAt", className)
    ensures !FieldNameIsValidForClass("updatedAt", className) && !FieldNameIsValidForClass("ACL", className)
    ensures !FieldNameIsValidForClass("email", "_User") && FieldNameIsValidForClass("email", "GameScore")
  {
    SharedColumns();
    EmailColumn();
  }

  lemma SharedColumns()
    ensures var shared := DefaultColumns["_Default"];
      "objectId" in shared && "createdAt" in shared && "updatedAt" in shared && "ACL" in shared
  {
  }

  lemma EmailColumn()
    ensures "email" in DefaultColumns["_User"] && "GameScore" !in DefaultColumns
    ensures "email" !in DefaultColumns["_Default"] && "email" !in ObjectPrototypeMembers
    ensures FieldNameIsValid("email")
  {
  }

  /**
   * A class without a table of its own refuses only invalid names, the shared
   * columns and the inherited names, plus, when the class is named after a
   * member of `Object.prototype`, that member's truthy properties.
   */
  lemma CustomClassFields(fieldName: string, className: string)
    requires className !in DefaultColumns
    ensures className !in ObjectPrototypeMembers ==>
      (FieldNameIsValidForClass(fieldName, className) <==>
       FieldNameIsValid(fieldName) && fieldName !in DefaultColumns["_Default"] && fieldName !in ObjectPrototypeMembers)
    ensures FieldNameIsValidForClass(fieldName, className) <==>
      FieldNameIsValid(fieldName) && fieldName !in DefaultColumns["_Default"] && fieldName !in ObjectPrototypeMembers &&
      fieldName !in InheritedColumns(className)
  {
  }

  /**
   * `constructor` is a valid class name, yet `defaultColumns['constructor']`
   * is `Object`, so its `name`, `length` and statics such as `keys` are refused.
   */
  lemma ConstructorClassFields()
    ensures ClassNameIsValid("constructor") && "constructor" !in DefaultColumns
    ensures !FieldNameIsValidForClass("name", "constructor") && !FieldNameIsValidForClass("keys", "constructor")
    ensures !FieldNameIsValidForClass("length", "constructor")
  {
    PrototypeClassNames();
    assert FieldNameIsValid("constructor");
  }

  /** `toString` has length 0: as a class name it refuses `name` but not `length`. */
  lemma ToStringClassFields()
    ensures !FieldNameIsValidForClass("name", "toString") && FieldNameIsValidForClass("length", "toString")
  {
    PrototypeClassNames();
    PlainFieldNames();
    CustomClassFields("length", "toString");
  }

  lemma PrototypeClassNames()
    ensures "constructor" !in DefaultColumns && "toString" !in DefaultColumns
  {
  }

  lemma PlainFieldNames()
    ensures "length" !in DefaultColumns["_Default"] && "length" !in ObjectPrototypeMembers
    ensures FieldNameIsValid("length")
  {
  }
}
