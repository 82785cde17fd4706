/**
 * The option bookkeeping of the command-line `Command`: the defaults and
 * reverse (environment name to option) tables built from the definitions,
 * the options read from the environment and from a config file, and the
 * first-writer-wins assignment onto the command. The options set on the
 * command are the map `values`; option `action`s are called through the
 * parameter `apply`, and the loaded config file is the parameter
 * `jsonConfig`.
 */
module CommanderModel {
  import opened Results
  import opened JsString
  import opened JsValue

  lemma KeysOfKeySet(props: Props)
    ensures forall k :: k in KeysOf(props) <==> k in KeySet(props)
  {
    forall k ensures k in KeysOf(props) <==> k in KeySet(props) {
      KeySetMembers(props, k);
    }
  }

  // ---------------------------------------------------------------------
  // First writer wins

  /** `setValuesIfNeeded` over the first keys of `keys`: a key already set keeps its value. */
  function MergeKeys(base: Props, options: Props, keys: seq<string>): (r: Props)
    ensures KeySet(r) == KeySet(base) + (set k | k in keys)
    ensures forall k :: (Lookup(r, k) ==
      if k in KeySet(base) then Lookup(base, k) else if k in keys then Lookup(options, k) else Undefined)
    decreases |keys|
  {
    if |keys| == 0 then base
    else
      var init := keys[..|keys| - 1];
      var k := keys[|keys| - 1];
      assert keys == init + [k];
      var acc := MergeKeys(base, options, init);
      if k in KeySet(acc) then acc else Assign(acc, k, Lookup(options, k))
  }

  /** The options on the command after `setValuesIfNeeded(options)`. */
  function Merge(base: Props, options: Props): (r: Props)
    ensures KeySet(r) == KeySet(base) + KeySet(options)
    ensures forall k :: Lookup(r, k) == if k in KeySet(base) then Lookup(base, k) else Lookup(options, k)
  {
    KeysOfKeySet(options);
    MergeKeys(base, options, KeysOf(options))
  }

  /**
   * `parse` writes the environment's options, then the file's, then the
   * defaults, each only where nothing is set yet: what was set before wins,
   * then the environment, then the file, then the default.
   */
  lemma Precedence(base: Props, fromEnv: Props, fromFile: Props, defaults: Props, k: string)
    ensures var r := Merge(Merge(Merge(base, fromEnv), fromFile), defaults);
      Lookup(r, k) ==
        if k in KeySet(base) then Lookup(base, k)
        else if k in KeySet(fromEnv) then Lookup(fromEnv, k)
        else if k in KeySet(fromFile) then Lookup(fromFile, k)
        else Lookup(defaults, k)
  {
  }

  /** Writing the same options twice changes nothing the second time. */
  lemma MergeIdempotent(base: Props, options: Props)
    ensures KeySet(Merge(Merge(base, options), options)) == KeySet(Merge(base, options))
    ensures forall k :: Lookup(Merge(Merge(base, options), options), k) == Lookup(Merge(base, options), k)
  {
  }

  // ---------------------------------------------------------------------
  // A sequence of property writes

  /** `obj[key] = value` with a value that may have thrown instead. */
  datatype Write = Write(key: string, value: Result<Value, Exception>)

  /** One write on the object built so far; a throw, earlier or now, stops the reduce. */
  function Step(acc: Result<Props, Exception>, w: Option<Write>): Result<Props, Exception>
  {
    if acc.Err? || w.None? then acc
    else if w.value.value.Err? then Err(w.value.value.error)
    else Ok(Assign(acc.value, w.value.key, w.value.value.value))
  }

  /** A reduce that performs the writes in order on an empty object, stopping at the first throw. */
  function ApplyWrites(writes: seq<Option<Write>>): (r: Result<Props, Exception>)
    decreases |writes|
  {
    if |writes| == 0 then Ok([]) else Step(ApplyWrites(writes[..|writes| - 1]), writes[|writes| - 1])
  }

  /** `writes[i]` is the last write to its key. */
  predicate LastWrite(writes: seq<Option<Write>>, i: nat)
    requires i < |writes|
  {
    writes[i].Some? &&
    forall j :: i < j < |writes| && writes[j].Some? ==> writes[j].value.key != writes[i].value.key
  }

  /** The writes throw exactly when one of them does. */
  lemma {:induction false} ApplyWritesErr(writes: seq<Option<Write>>)
    ensures ApplyWrites(writes).Err? <==>
      exists i :: 0 <= i < |writes| && writes[i].Some? && writes[i].value.value.Err?
    decreases |writes|
  {
    if |writes| > 0 {
      var init := writes[..|writes| - 1];
      assert forall i :: 0 <= i < |init| ==> init[i] == writes[i];
      ApplyWritesErr(init);
    }
  }

  /** Without a throw, every written key is in the object. */
  lemma {:induction false} ApplyWritesHasKeys(writes: seq<Option<Write>>)
    ensures ApplyWrites(writes).Ok? ==> forall i :: 0 <= i < |writes| && writes[i].Some? ==>
      writes[i].value.key in KeySet(ApplyWrites(writes).value)
    decreases |writes|
  {
    if |writes| > 0 {
      var last := |writes| - 1;
      var init := writes[..last];
      ApplyWritesHasKeys(init);
      var r := ApplyWrites(writes);
      var acc := ApplyWrites(init);
      if r.Ok? {
        assert acc.Ok?;
        assert KeySet(acc.value) <= KeySet(r.value);
        forall i | 0 <= i < |writes| && writes[i].Some?
          ensures writes[i].value.key in KeySet(r.value)
        {
          if i < last {
            assert init[i] == writes[i];
          }
        }
      }
    }
  }

  /** A key the last write did not set was already in the object before it. */
  lemma StepKeepsKeys(writes: seq<Option<Write>>, k: string)
    requires |writes| > 0 && ApplyWrites(writes).Ok? && k in KeySet(ApplyWrites(writes).value)
    requires var w := writes[|writes| - 1]; !(w.Some? && w.value.key == k)
    ensures var acc := ApplyWrites(writes[..|writes| - 1]); acc.Ok? && k in KeySet(acc.value)
  {
    var w := writes[|writes| - 1];
    var acc := ApplyWrites(writes[..|writes| - 1]);
    assert ApplyWrites(writes) == Step(acc, w);
    if w.Some? {
      assert KeySet(ApplyWrites(writes).value) == KeySet(acc.value) + {w.value.key};
    }
  }

  /** A last write stays the last one when a write to another key follows. */
  lemma LastWriteExtend(writes: seq<Option<Write>>, i: nat)
    requires i < |writes| - 1 && LastWrite(writes[..|writes| - 1], i)
    requires var w := writes[|writes| - 1]; !(w.Some? && w.value.key == writes[i].value.key)
    ensures LastWrite(writes, i)
  {
    var init := writes[..|writes| - 1];
    assert forall j :: i < j < |init| ==> init[j] == writes[j];
  }

  /** A key of the object was written, last by a `LastWrite`. */
  lemma {:induction false} ApplyWritesOnlyKey(writes: seq<Option<Write>>, k: string)
    requires ApplyWrites(writes).Ok? && k in KeySet(ApplyWrites(writes).value)
    ensures exists i :: 0 <= i < |writes| && LastWrite(writes, i) && writes[i].value.key == k
    decreases |writes|
  {
    assert |writes| > 0;
    var last := |writes| - 1;
    var w := writes[last];
    if w.Some? && w.value.key == k {
      assert LastWrite(writes, last);
    } else {
      var init := writes[..last];
      StepKeepsKeys(writes, k);
      ApplyWritesOnlyKey(init, k);
      var i :| 0 <= i < |init| && LastWrite(init, i) && init[i].value.key == k;
      assert init[i] == writes[i];
      LastWriteExtend(writes, i);
    }
  }

  /** Without a throw, every key of the object was written, last by a `LastWrite`. */
  lemma ApplyWritesOnlyKeys(writes: seq<Option<Write>>)
    ensures ApplyWrites(writes).Ok? ==> forall k :: k in KeySet(ApplyWrites(writes).value) ==>
      exists i :: 0 <= i < |writes| && LastWrite(writes, i) && writes[i].value.key == k
  {
    if ApplyWrites(writes).Ok? {
      forall k | k in KeySet(ApplyWrites(writes).value)
        ensures exists i :: 0 <= i < |writes| && LastWrite(writes, i) && writes[i].value.key == k
      {
        ApplyWritesOnlyKey(writes, k);
      }
    }
  }

  /** Without a throw, each written key holds its last written value. */
  lemma {:induction false} ApplyWritesValues(writes: seq<Option<Write>>)
    ensures ApplyWrites(writes).Ok? ==> forall i :: 0 <= i < |writes| && LastWrite(writes, i) ==>
      writes[i].value.value == Ok(Lookup(ApplyWrites(writes).value, writes[i].value.key))
    decreases |writes|
  {
    if |writes| > 0 {
      var last := |writes| - 1;
      var init := writes[..last];
      assert forall i :: 0 <= i < |init| ==> init[i] == writes[i];
      ApplyWritesValues(init);
      forall i | 0 <= i < last && LastWrite(writes, i) ensures LastWrite(init, i) {
      }
    }
  }

  // ---------------------------------------------------------------------
  // Tables built from the definitions

  /** `definition.default`, for a definition that is not `null` or `undefined`. */
  function DefaultOf(definition: Value): Value
  {
    if definition.Undefined? || definition.Null? then Undefined else Member(definition, "default").value
  }

  /** The `_defaults` reduce over `keys`: each option whose `default` is truthy, with that default. */
  function DefaultsFold(definitions: Props, keys: seq<string>): (r: Props)
    ensures forall k :: k in KeySet(r) <==> k in keys && Truthy(DefaultOf(Lookup(definitions, k)))
    ensures forall k :: (Lookup(r, k) ==
      if k in keys && Truthy(DefaultOf(Lookup(definitions, k))) then DefaultOf(Lookup(definitions, k)) else Undefined)
    decreases |keys|
  {
    if |keys| == 0 then []
    else
      var init := keys[..|keys| - 1];
      var k := keys[|keys| - 1];
      assert keys == init + [k];
      var acc := DefaultsFold(definitions, init);
      var d := DefaultOf(Lookup(definitions, k));
      if Truthy(d) then Assign(acc, k, d) else acc
  }

  /** The environment variable an option is read from: the definition itself, or its `env` field. */
  function EnvName(definition: Value): Value
  {
    if definition.Obj? || definition.Arr? then Member(definition, "env").value else definition
  }

  /** The property name the reverse table files an option under, when its environment name is truthy. */
  function EnvKey(definitions: Props, k: string): Option<string>
  {
    var name := EnvName(Lookup(definitions, k));
    if Truthy(name) then Some(ToJsString(name)) else None
  }

  /** The writes of the `_reverseDefinitions` reduce: each option under its environment name. */
  function ReverseWrites(definitions: Props, keys: seq<string>): (writes: seq<Option<Write>>)
    ensures |writes| == |keys|
  {
    seq(|keys|, i requires 0 <= i < |keys| =>
      match EnvKey(definitions, keys[i])
      case None => None
      case Some(name) => Some(Write(name, Ok(Str(keys[i])))))
  }

  /** The `_reverseDefinitions` reduce over `keys`: each environment name to the option it sets. */
  function ReverseFold(definitions: Props, keys: seq<string>): Props
  {
    var writes := ReverseWrites(definitions, keys);
    ApplyWritesErr(writes);
    ApplyWrites(writes).value
  }

  /** No later option shares the environment name of `keys[i]`. */
  predicate LastWithEnvKey(definitions: Props, keys: seq<string>, i: nat)
    requires i < |keys|
  {
    forall j :: i < j < |keys| ==> EnvKey(definitions, keys[j]) != EnvKey(definitions, keys[i])
  }

  /**
   * The reverse table files each option with a truthy environment name
   * under that name, and nothing else; of several options with one name,
   * the last one is filed.
   */
  lemma ReverseFoldSpec(definitions: Props, keys: seq<string>)
    ensures var r := ReverseFold(definitions, keys);
      forall e :: e in KeySet(r) ==>
        exists i :: 0 <= i < |keys| && EnvKey(definitions, keys[i]) == Some(e) && Lookup(r, e) == Str(keys[i])
    ensures var r := ReverseFold(definitions, keys);
      forall i :: 0 <= i < |keys| && EnvKey(definitions, keys[i]).Some? ==>
        EnvKey(definitions, keys[i]).value in KeySet(r)
    ensures var r := ReverseFold(definitions, keys);
      forall i :: 0 <= i < |keys| && EnvKey(definitions, keys[i]).Some? && LastWithEnvKey(definitions, keys, i) ==>
        Lookup(r, EnvKey(definitions, keys[i]).value) == Str(keys[i])
  {
    var writes := ReverseWrites(definitions, keys);
    ApplyWritesErr(writes);
    ApplyWritesHasKeys(writes);
    ApplyWritesOnlyKeys(writes);
    ApplyWritesValues(writes);
    forall i | 0 <= i < |keys| && EnvKey(definitions, keys[i]).Some?
      ensures LastWrite(writes, i) <==> LastWithEnvKey(definitions, keys, i)
    {
      if LastWrite(writes, i) {
        forall j | i < j < |keys| ensures EnvKey(definitions, keys[j]) != EnvKey(definitions, keys[i]) {
          if EnvKey(definitions, keys[j]).Some? {
            assert writes[j].Some?;
          }
        }
      }
      if LastWithEnvKey(definitions, keys, i) {
        forall j | i < j < |writes| && writes[j].Some? ensures writes[j].value.key != writes[i].value.key {
          assert EnvKey(definitions, keys[j]) != EnvKey(definitions, keys[i]);
        }
      }
    }
  }

  // ---------------------------------------------------------------------
  // Options from the environment

  /** `definition.action`, when the definition is an object with a truthy one. */
  function ActionOf(definition: Value): Option<Value>
  {
    if (definition.Obj? || definition.Arr?) && Truthy(Member(definition, "action").value)
    then Some(Member(definition, "action").value) else None
  }

  /** The option the reverse table files under `name`, as a property name. */
  function OriginalKey(reverse: Props, name: string): string
  {
    ToJsString(Lookup(reverse, name))
  }

  /** The value of the environment variable `name`, passed through its option's action if it has one. */
  function EnvParsed(reverse: Props, definitions: Props, env: Props, apply: (Value, Value) -> Result<Value, Exception>,
                     name: string): Result<Value, Exception>
  {
    match ActionOf(Lookup(definitions, OriginalKey(reverse, name)))
    case None => Ok(Lookup(env, name))
    case Some(action) => apply(action, Lookup(env, name))
  }

  /** The writes of `parseEnvironment`: each set variable's option, with its parsed value. */
  function EnvWrites(reverse: Props, definitions: Props, env: Props,
                     apply: (Value, Value) -> Result<Value, Exception>, names: seq<string>): (writes: seq<Option<Write>>)
    ensures |writes| == |names|
  {
    seq(|names|, i requires 0 <= i < |names| =>
      if Truthy(Lookup(env, names[i]))
      then Some(Write(OriginalKey(reverse, names[i]), EnvParsed(reverse, definitions, env, apply, names[i])))
      else None)
  }

  /**
   * `parseEnvironment(env)` over the environment names `names`: every name
   * with a truthy value in `env` sets its option; an action that throws
   * stops the reduce.
   */
  function EnvOptionsFold(reverse: Props, definitions: Props, env: Props,
                          apply: (Value, Value) -> Result<Value, Exception>, names: seq<string>): Result<Props, Exception>
  {
    ApplyWrites(EnvWrites(reverse, definitions, env, apply, names))
  }

  /** The environment variable `names[i]` is set, and no later set one is filed under the same option. */
  predicate LastSetForOption(reverse: Props, env: Props, names: seq<string>, i: nat)
    requires i < |names|
  {
    Truthy(Lookup(env, names[i])) &&
    forall j :: i < j < |names| && Truthy(Lookup(env, names[j])) ==>
      OriginalKey(reverse, names[j]) != OriginalKey(reverse, names[i])
  }

  /**
   * `parseEnvironment` throws exactly when the action of a set variable
   * throws; otherwise it sets exactly the options of the set variables,
   * each to its parsed value.
   */
  lemma EnvOptionsFoldSpec(reverse: Props, definitions: Props, env: Props,
                           apply: (Value, Value) -> Result<Value, Exception>, names: seq<string>)
    ensures var r := EnvOptionsFold(reverse, definitions, env, apply, names);
      r.Err? <==> exists i :: (0 <= i < |names| && Truthy(Lookup(env, names[i])) &&
                               EnvParsed(reverse, definitions, env, apply, names[i]).Err?)
    ensures var r := EnvOptionsFold(reverse, definitions, env, apply, names);
      r.Ok? ==> forall o :: o in KeySet(r.value) ==>
        exists i :: 0 <= i < |names| && Truthy(Lookup(env, names[i])) && OriginalKey(reverse, names[i]) == o
    ensures var r := EnvOptionsFold(reverse, definitions, env, apply, names);
      r.Ok? ==> forall i :: 0 <= i < |names| && Truthy(Lookup(env, names[i])) ==>
        OriginalKey(reverse, names[i]) in KeySet(r.value)
    ensures var r := EnvOptionsFold(reverse, definitions, env, apply, names);
      r.Ok? ==> forall i :: 0 <= i < |names| && LastSetForOption(reverse, env, names, i) ==>
        Lookup(r.value, OriginalKey(reverse, names[i])) == EnvParsed(reverse, definitions, env, apply, names[i]).value
  {
    var writes := EnvWrites(reverse, definitions, env, apply, names);
    ApplyWritesErr(writes);
    ApplyWritesHasKeys(writes);
    ApplyWritesOnlyKeys(writes);
    ApplyWritesValues(writes);
    forall i | 0 <= i < |names| && Truthy(Lookup(env, names[i]))
      ensures LastWrite(writes, i) <==> LastSetForOption(reverse, env, names, i)
    {
      if LastWrite(writes, i) {
        forall j | i < j < |names| && Truthy(Lookup(env, names[j]))
          ensures OriginalKey(reverse, names[j]) != OriginalKey(reverse, names[i])
        {
          assert writes[j].Some?;
        }
      }
      if LastSetForOption(reverse, env, names, i) {
        forall j | i < j < |writes| && writes[j].Some? ensures writes[j].value.key != writes[i].value.key {
          assert Truthy(Lookup(env, names[j]));
        }
      }
    }
  }

  // ---------------------------------------------------------------------
  // Options from the config file

  const MultipleApps: Exception := Raised(Str("Multiple apps are not supported"))

  function UnknownOption(key: string): Exception
  {
    Raised(Str("error: unknown option " + key))
  }

  /**
   * The options object of a loaded config file: the only element of its
   * `apps` list when it has a truthy one (read as `apps[0]`), else the file
   * itself; more than one app is refused.
   */
  function ConfigOptions(jsonConfig: Value): (r: Result<Value, Exception>)
    ensures (jsonConfig.Undefined? || jsonConfig.Null?) ==> r.Err?
    ensures jsonConfig.Obj? && !Truthy(Lookup(jsonConfig.props, "apps")) ==> r == Ok(jsonConfig)
    ensures jsonConfig.Obj? && Lookup(jsonConfig.props, "apps").Arr? && |Lookup(jsonConfig.props, "apps").items| > 1 ==>
      r == Err(MultipleApps)
    ensures jsonConfig.Obj? && Lookup(jsonConfig.props, "apps").Arr? && |Lookup(jsonConfig.props, "apps").items| == 1 ==>
      r == Ok(Lookup(jsonConfig.props, "apps").items[0])
  {
    match Member(jsonConfig, "apps")
    case Err(e) => Err(e)
    case Ok(apps) =>
      if !Truthy(apps) then Ok(jsonConfig)
      else
        var length := Member(apps, "length").value;
        if length.Num? && length.n > 1 then Err(MultipleApps)
        else
          assert apps.Arr? ==> CanonicalIndex("0") == Some(0) by {
            assert AllDigits("0") && DigitsValue("0") == 0 && NatToString(0) == "0";
          }
          Member(apps, "0")
  }

  /** An options value as an ordered list of its own properties. */
  function View(options: Value): (r: Props)
    requires !options.Undefined? && !options.Null?
    ensures KeysOf(r) == ObjectKeys(options).value
  {
    if options.Obj? then options.props
    else
      var keys := ObjectKeys(options).value;
      seq(|keys|, i requires 0 <= i < |keys| => Entry(keys[i], Member(options, keys[i]).value))
  }

  /**
   * A file key that `parseConfigFile` accepts: it names a defined option, and
   * that option's action, when it has one, succeeds on the key's value.
   */
  predicate KeyLoads(definitions: Props, options: Props, apply: (Value, Value) -> Result<Value, Exception>,
                     k: string)
  {
    var definition := ReadWithPrototype(definitions, k);
    Truthy(definition) &&
    var action := Member(definition, "action").value;
    Truthy(action) ==> apply(action, Lookup(options, k)).Ok?
  }

  /** What the check of a refused key throws: the unknown-option message, else the action's error. */
  function KeyError(definitions: Props, options: Props, apply: (Value, Value) -> Result<Value, Exception>,
                    k: string): (e: Exception)
    requires !KeyLoads(definitions, options, apply, k)
    ensures !Truthy(ReadWithPrototype(definitions, k)) ==> e == UnknownOption(k)
    ensures Truthy(ReadWithPrototype(definitions, k)) ==>
      var action := Member(ReadWithPrototype(definitions, k), "action").value;
      Truthy(action) && apply(action, Lookup(options, k)) == Err(e)
  {
    var definition := ReadWithPrototype(definitions, k);
    if !Truthy(definition) then UnknownOption(k)
    else apply(Member(definition, "action").value, Lookup(options, k)).error
  }

  /**
   * The `forEach` of `parseConfigFile` over `keys`: every key must name a
   * defined option (an own definition, or a name `_definitions` inherits from
   * `Object.prototype`), and an option with an action gets the action's result.
   */
  function ConfigFold(definitions: Props, options: Props, apply: (Value, Value) -> Result<Value, Exception>,
                      keys: seq<string>): (r: Result<Props, Exception>)
    requires forall k :: k in keys ==> k in KeySet(options)
    ensures r.Ok? ==> KeySet(r.value) == KeySet(options)
    ensures r.Ok? ==> forall k :: k in keys ==> Truthy(ReadWithPrototype(definitions, k))
    ensures (exists i :: 0 <= i < |keys| && !Truthy(ReadWithPrototype(definitions, keys[i]))) ==> r.Err?
    ensures r.Ok? ==> forall k :: k !in keys ==> Lookup(r.value, k) == Lookup(options, k)
    ensures r.Ok? ==> forall k :: k in keys ==>
      var action := Member(ReadWithPrototype(definitions, k), "action").value;
      if Truthy(action) then
        apply(action, Lookup(options, k)).Ok? && Lookup(r.value, k) == apply(action, Lookup(options, k)).value
      else Lookup(r.value, k) == Lookup(options, k)
    ensures (forall i :: 0 <= i < |keys| ==> KeyLoads(definitions, options, apply, keys[i])) ==> r.Ok?
    ensures forall i :: (0 <= i < |keys| && !KeyLoads(definitions, options, apply, keys[i]) &&
                         (forall j :: 0 <= j < i ==> KeyLoads(definitions, options, apply, keys[j]))) ==>
      r == Err(KeyError(definitions, options, apply, keys[i]))
    decreases |keys|
  {
    if |keys| == 0 then Ok(options)
    else
      var init := keys[..|keys| - 1];
      var key := keys[|keys| - 1];
      assert keys == init + [key];
      match ConfigFold(definitions, options, apply, init)
      case Err(e) => Err(e)
      case Ok(acc) =>
        var definition := ReadWithPrototype(definitions, key);
        if !Truthy(definition) then Err(UnknownOption(key))
        else
          var action := Member(definition, "action").value;
          if !Truthy(action) then Ok(acc)
          else match apply(action, Lookup(options, key))
            case Err(e) => Err(e)
            case Ok(v) => Ok(Assign(acc, key, v))
  }

  /**
   * A file key that names no own definition but a member of `Object.prototype`,
   * such as `toString`, passes the check and is kept as it is.
   */
  lemma InheritedOptionKept(definitions: Props, options: Props, apply: (Value, Value) -> Result<Value, Exception>,
                            key: string)
    requires key in KeySet(options) && key !in KeySet(definitions) && key in ObjectPrototypeMembers
    ensures ConfigFold(definitions, options, apply, [key]) == Ok(options)
  {
    assert [key][..0] == [];
  }

  /**
   * `parseConfigFile(program)`: no options without a path argument;
   * otherwise the options of the loaded file, every key checked against the
   * definitions.
   */
  function ParseConfigFile(definitions: Props, args: seq<string>, jsonConfig: Value,
                           apply: (Value, Value) -> Result<Value, Exception>): (r: Result<Props, Exception>)
    ensures |args| == 0 ==> r == Ok([])
    ensures |args| > 0 && ConfigOptions(jsonConfig).Err? ==> r == Err(ConfigOptions(jsonConfig).error)
    ensures |args| > 0 && r.Ok? ==> forall k :: k in KeySet(r.value) ==> Truthy(ReadWithPrototype(definitions, k))
    ensures |args| > 0 && ConfigOptions(jsonConfig).Ok? && ConfigOptions(jsonConfig).value.Obj? &&
      (exists i :: 0 <= i < |ConfigOptions(jsonConfig).value.props| &&
        !Truthy(ReadWithPrototype(definitions, ConfigOptions(jsonConfig).value.props[i].key)))
      ==> r.Err?
    ensures |args| > 0 && ConfigOptions(jsonConfig).Ok? && ConfigOptions(jsonConfig).value.Obj? ==>
      var props := ConfigOptions(jsonConfig).value.props;
      (forall i :: 0 <= i < |props| ==> KeyLoads(definitions, props, apply, props[i].key)) ==>
        r.Ok? && KeySet(r.value) == KeySet(props)
    ensures |args| > 0 && ConfigOptions(jsonConfig).Ok? && ConfigOptions(jsonConfig).value.Obj? ==>
      var props := ConfigOptions(jsonConfig).value.props;
      forall i :: (0 <= i < |props| && !KeyLoads(definitions, props, apply, props[i].key) &&
                   (forall j :: 0 <= j < i ==> KeyLoads(definitions, props, apply, props[j].key))) ==>
        r == Err(KeyError(definitions, props, apply, props[i].key))
  {
    if |args| == 0 then Ok([])
    else match ConfigOptions(jsonConfig)
      case Err(e) => Err(e)
      case Ok(options) =>
        if options.Undefined? || options.Null? then Err(TypeError("Cannot convert undefined or null to object"))
        else
          var view := View(options);
          KeysOfKeySet(view);
          var r := ConfigFold(definitions, view, apply, KeysOf(view));
          assert options.Obj? ==> view == options.props;
          r
  }

  // ---------------------------------------------------------------------
  // The command

  /** `getOptions()` over `keys`: each defined option whose value on the command is not `undefined`. */
  function OptionsFold(values: Props, keys: seq<string>): (r: Props)
    ensures forall k :: k in KeySet(r) <==> k in keys && !Lookup(values, k).Undefined?
    ensures forall k :: Lookup(r, k) == if k in keys then Lookup(values, k) else Undefined
    decreases |keys|
  {
    if |keys| == 0 then []
    else
      var init := keys[..|keys| - 1];
      var k := keys[|keys| - 1];
      assert keys == init + [k];
      var acc := OptionsFold(values, init);
      if !Lookup(values, k).Undefined? then Assign(acc, k, Lookup(values, k)) else acc
  }

  /** Whether the definitions survive the reduces of `loadDefinitions`: none is `null` or `undefined`. */
  predicate Loadable(definitions: Props)
  {
    forall i :: 0 <= i < |definitions| ==>
      !Lookup(definitions, definitions[i].key).Null? && !Lookup(definitions, definitions[i].key).Undefined?
  }

  class Command {
    var definitions: Props
    var defaults: Props
    var reverseDefinitions: Props
    /** The options set on the command, in the order they were set. */
    var values: Props

    constructor()
      ensures definitions == [] && defaults == [] && reverseDefinitions == [] && values == []
    {
      definitions := [];
      defaults := [];
      reverseDefinitions := [];
      values := [];
    }

    /**
     * `loadDefinitions(definitions)`: keeps the definitions and builds the
     * defaults and reverse tables; a `null` definition fails the first
     * reduce and an `undefined` one the defaults reduce.
     */
    method LoadDefinitions(definitions: Props) returns (r: Result<(), Exception>)
      modifies this
      ensures this.definitions == definitions && values == old(values)
      ensures r.Ok? <==> Loadable(definitions)
      ensures r.Ok? ==> (defaults == DefaultsFold(definitions, KeysOf(definitions)) &&
                         reverseDefinitions == ReverseFold(definitions, KeysOf(definitions)))
      ensures r.Err? ==> defaults == old(defaults) && reverseDefinitions == old(reverseDefinitions)
    {
      this.definitions := definitions;
      var keys := KeysOf(definitions);
      var i := 0;
      while i < |keys|
        invariant 0 <= i <= |keys|
        invariant forall j :: 0 <= j < i ==> !Lookup(definitions, keys[j]).Null?
      {
        if Lookup(definitions, keys[i]).Null? {
          assert keys[i] == definitions[i].key;
          return Err(TypeError("Cannot destructure 'additionalOptions' as it is null."));
        }
        i := i + 1;
      }
      i := 0;
      while i < |keys|
        invariant 0 <= i <= |keys|
        invariant forall j :: 0 <= j < i ==> !Lookup(definitions, keys[j]).Undefined?
      {
        if Lookup(definitions, keys[i]).Undefined? {
          assert keys[i] == definitions[i].key;
          return Err(TypeErrorReading("default", "undefined"));
        }
        i := i + 1;
      }
      assert Loadable(definitions) by {
        forall j | 0 <= j < |definitions|
          ensures !Lookup(definitions, definitions[j].key).Null? && !Lookup(definitions, definitions[j].key).Undefined?
        {
          assert keys[j] == definitions[j].key;
        }
      }
      defaults := DefaultsFold(definitions, keys);
      reverseDefinitions := ReverseFold(definitions, keys);
      return Ok(());
    }

    /** `parseEnvironment(env)`: the options the environment sets. */
    function ParseEnvironment(env: Props, apply: (Value, Value) -> Result<Value, Exception>): Result<Props, Exception>
      reads this
    {
      EnvOptionsFold(reverseDefinitions, definitions, env, apply, KeysOf(reverseDefinitions))
    }

    /** `setValuesIfNeeded(options)`: sets each option not set yet. */
    method SetValuesIfNeeded(options: Props)
      modifies this
      ensures values == Merge(old(values), options)
      ensures definitions == old(definitions) && defaults == old(defaults) &&
        reverseDefinitions == old(reverseDefinitions)
    {
      var keys := KeysOf(options);
      var i := 0;
      while i < |keys|
        invariant 0 <= i <= |keys|
        invariant values == MergeKeys(old(values), options, keys[..i])
        invariant definitions == old(definitions) && defaults == old(defaults) &&
          reverseDefinitions == old(reverseDefinitions)
      {
        var key := keys[i];
        var prefix := keys[..i + 1];
        assert prefix[..|prefix| - 1] == keys[..i] && prefix[|prefix| - 1] == key;
        assert MergeKeys(old(values), options, prefix) ==
          if key in KeySet(values) then values else Assign(values, key, Lookup(options, key));
        if key !in KeySet(values) {
          values := Assign(values, key, Lookup(options, key));
        }
        i := i + 1;
      }
      assert keys[..i] == keys;
    }

    /**
     * `parse(args, env)`: reads the environment and the config file, then
     * sets their options and the defaults, in that order, where nothing is
     * set yet. If either read throws, nothing is set.
     */
    method Parse(args: seq<string>, env: Props, jsonConfig: Value, apply: (Value, Value) -> Result<Value, Exception>)
      returns (r: Result<(), Exception>)
      modifies this
      ensures definitions == old(definitions) && defaults == old(defaults) &&
        reverseDefinitions == old(reverseDefinitions)
      ensures var fromEnv := old(ParseEnvironment(env, apply));
        var fromFile := ParseConfigFile(definitions, args, jsonConfig, apply);
        if fromEnv.Err? then r == Err(fromEnv.error) && values == old(values)
        else if fromFile.Err? then r == Err(fromFile.error) && values == old(values)
        else r == Ok(()) && values == Merge(Merge(Merge(old(values), fromEnv.value), fromFile.value), defaults)
    {
      var fromEnv := ParseEnvironment(env, apply);
      if fromEnv.Err? {
        return Err(fromEnv.error);
      }
      var fromFile := ParseConfigFile(definitions, args, jsonConfig, apply);
      if fromFile.Err? {
        return Err(fromFile.error);
      }
      SetValuesIfNeeded(fromEnv.value);
      SetValuesIfNeeded(fromFile.value);
      SetValuesIfNeeded(defaults);
      return Ok(());
    }

    /** `getOptions()`: the defined options that are set to something other than `undefined`. */
    function GetOptions(): (r: Props)
      reads this
      ensures forall k :: k in KeySet(r) <==> k in KeySet(definitions) && !Lookup(values, k).Undefined?
      ensures forall k :: k in KeySet(r) ==> Lookup(r, k) == Lookup(values, k)
    {
      KeysOfKeySet(definitions);
      OptionsFold(values, KeysOf(definitions))
    }
  }
}
