/**
 * The schema cache in front of the cache controller. The controller is an
 * abstract store (`CacheStore`); promises are flattened to the value they
 * resolve to, or the exception they reject with.
 */
module SchemaCacheModel {
  import opened Results
  import opened JsString
  import opened JsValue
  import CryptoUtils

  const MainSchema: string := "__MAIN_SCHEMA"
  const SchemaCachePrefix: string := "__SCHEMA"
  const AllKeys: string := "__ALL_KEYS"
  /** The default schema cache ttl, in ms. */
  const DefaultSchemaCacheTtl: int := 5000

  /** The cache controller, as a key/value store; a missing key reads as `null`. */
  class CacheStore {
    var entries: map<string, Value>

    constructor(entries: map<string, Value>)
      ensures this.entries == entries
    {
      this.entries := entries;
    }

    function Get(key: string): Value
      reads this
    {
      if key in entries then entries[key] else Null
    }

    method Del(key: string)
      modifies this
      ensures entries == old(entries) - {key}
    {
      entries := entries - {key};
    }
  }

  /** The `ttl` constructor argument: absent, a string, or a number (`None`: NaN). */
  datatype TtlArgument = TtlDefault | TtlString(text: string) | TtlNumber(n: Option<int>)

  /** A string ttl goes through base-10 `parseInt`; NaN is `None`. */
  function TtlOf(arg: TtlArgument): (ttl: Option<int>)
    ensures arg.TtlString? ==> ttl == ParseInt(arg.text)
    ensures arg.TtlNumber? ==> ttl == arg.n
    ensures arg.TtlDefault? ==> ttl == Some(DefaultSchemaCacheTtl)
  {
    match arg
    case TtlDefault => Some(DefaultSchemaCacheTtl)
    case TtlString(text) => ParseInt(text)
    case TtlNumber(n) => n
  }

  /** The cache is on when the ttl is truthy: neither 0 nor NaN. */
  predicate Enabled(ttl: Option<int>)
  {
    ttl.Some? && ttl.value != 0
  }

  lemma TtlStringEnabled(text: string)
    ensures Enabled(TtlOf(TtlString(text))) <==> ParseInt(text).Some? && ParseInt(text).value != 0
  {
  }

  /**
   * `cachedSchemas.find(s => s.className === className)`: the first element
   * whose `className` is the name; reading it from `null` or `undefined` throws.
   */
  function FindByClassName(items: seq<Value>, className: string): (r: Result<Option<Value>, Exception>)
    ensures r.Ok? && r.value.Some? ==>
      (exists i :: 0 <= i < |items| && items[i] == r.value.value && Member(items[i], "className") == Ok(Str(className)))
  {
    if |items| == 0 then Ok(None)
    else match Member(items[0], "className")
      case Err(e) => Err(e)
      case Ok(v) =>
        if v == Str(className) then Ok(Some(items[0]))
        else
          var rest := FindByClassName(items[1..], className);
          assert rest.Ok? && rest.value.Some? ==>
            (exists i :: 1 <= i < |items| && items[i] == rest.value.value && Member(items[i], "className") == Ok(Str(className))) by {
            if rest.Ok? && rest.value.Some? {
              var i :| 0 <= i < |items[1..]| && items[1..][i] == rest.value.value &&
                Member(items[1..][i], "className") == Ok(Str(className));
              assert items[i + 1] == items[1..][i];
            }
          }
          rest
  }

  /** `find` returns the first match: every element before it was read and did not match. */
  lemma {:induction false} FindByClassNameFirst(items: seq<Value>, className: string, i: nat)
    requires i < |items|
    requires Member(items[i], "className") == Ok(Str(className))
    requires forall j :: 0 <= j < i ==>
      Member(items[j], "className").Ok? && Member(items[j], "className") != Ok(Str(className))
    ensures FindByClassName(items, className) == Ok(Some(items[i]))
  {
    if i > 0 {
      FindByClassNameFirst(items[1..], className, i - 1);
    }
  }

  /** No element matches: `find` gives `undefined` and nothing throws. */
  lemma {:induction false} FindByClassNameNone(items: seq<Value>, className: string)
    requires forall j :: 0 <= j < |items| ==>
      Member(items[j], "className").Ok? && Member(items[j], "className") != Ok(Str(className))
    ensures FindByClassName(items, className) == Ok(None)
  {
    if |items| > 0 {
      FindByClassNameNone(items[1..], className);
    }
  }

  class SchemaCache {
    const cache: CacheStore
    const ttl: Option<int>
    const prefix: string

    /**
     * `new SchemaCache(controller, ttl, singleCache)`; without `singleCache`
     * the prefix gets `randomString(20)` as written, drawn from `randomBytes`:
     * 20 alphanumerics when every byte is below 128.
     */
    constructor(cacheController: CacheStore, randomBytes: seq<Byte>, ttl: TtlArgument := TtlDefault,
                singleCache: bool := false)
      requires |randomBytes| == 20
      ensures cache == cacheController && this.ttl == TtlOf(ttl)
      ensures singleCache ==> prefix == SchemaCachePrefix
      ensures !singleCache ==> prefix == SchemaCachePrefix + CryptoUtils.Pieces(randomBytes)
      ensures !singleCache && (forall i :: 0 <= i < 20 ==> randomBytes[i] < 128) ==>
        |prefix| == |SchemaCachePrefix| + 20
    {
      this.ttl := TtlOf(ttl);
      cache := cacheController;
      var p := SchemaCachePrefix;
      if !singleCache {
        var id := CryptoUtils.RandomString(20, randomBytes);
        if forall i :: 0 <= i < 20 ==> randomBytes[i] < 128 {
          CryptoUtils.LowBytesAgree(randomBytes);
        }
        p := p + id.value;
      }
      prefix := p;
    }

    /** `put` only reads the `__ALL_KEYS` entry: it resolves to `undefined` and stores nothing. */
    function Put(key: string, value: Value): (r: Value)
      reads this, cache
      ensures r == Undefined
    {
      var _ := cache.Get(prefix + AllKeys);
      Undefined
    }

    function GetAllClasses(): (r: Value)
      reads this, cache
      ensures !Enabled(ttl) ==> r == Null
      ensures Enabled(ttl) ==> r == cache.Get(prefix + MainSchema)
    {
      if !Enabled(ttl) then Null else cache.Get(prefix + MainSchema)
    }

    function SetAllClasses(schema: Value): (r: Value)
      reads this, cache
      ensures r == if Enabled(ttl) then Undefined else Null
    {
      if !Enabled(ttl) then Null else Put(prefix + MainSchema, schema)
    }

    function SetOnSchema(className: string, schema: Value): (r: Value)
      reads this, cache
      ensures r == if Enabled(ttl) then Undefined else Null
    {
      if !Enabled(ttl) then Null else Put(prefix + className, schema)
    }

    /**
     * `getOneSchema(className)`: the class's own entry if truthy, else the
     * first element of the main list with that class name, else `null`.
     */
    function GetOneSchema(className: string): (r: Result<Value, Exception>)
      reads this, cache
      ensures !Enabled(ttl) ==> r == Ok(Null)
      ensures r.Ok? ==> r.value == Null || Truthy(r.value)
      ensures Enabled(ttl) && Truthy(cache.Get(prefix + className)) ==> r == Ok(cache.Get(prefix + className))
    {
      if !Enabled(ttl) then Ok(Null)
      else
        var schema := cache.Get(prefix + className);
        if Truthy(schema) then Ok(schema)
        else
          var cached := cache.Get(prefix + MainSchema);
          var cachedSchemas := if Truthy(cached) then cached else Arr([]);
          if !cachedSchemas.Arr? then Err(TypeError("cachedSchemas.find is not a function"))
          else match FindByClassName(cachedSchemas.items, className)
            case Err(e) => Err(e)
            case Ok(found) => if found.Some? && Truthy(found.value) then Ok(found.value) else Ok(Null)
    }

    /**
     * `clear()`: deletes every key named in the `__ALL_KEYS` object (the keys
     * as listed, without the prefix); without that object it does nothing.
     */
    method Clear()
      modifies cache
      ensures !Truthy(old(cache.Get(prefix + AllKeys))) ==> cache.entries == old(cache.entries)
      ensures Truthy(old(cache.Get(prefix + AllKeys))) ==>
        var keys := ObjectKeys(old(cache.Get(prefix + AllKeys))).value;
        cache.entries == old(cache.entries) - (set k | k in keys)
    {
      var allKeys := cache.Get(prefix + AllKeys);
      if !Truthy(allKeys) {
        return;
      }
      var keys := ObjectKeys(allKeys).value;
      var i := 0;
      while i < |keys|
        invariant 0 <= i <= |keys|
        invariant cache.entries == old(cache.entries) - (set k | k in keys[..i])
      {
        cache.Del(keys[i]);
        assert keys[..i + 1] == keys[..i] + [keys[i]];
        i := i + 1;
      }
      assert keys[..i] == keys;
    }
  }

  /** With a falsy ttl every read and write answers `null` and the store is not consulted. */
  lemma DisabledAnswersNull(sc: SchemaCache, className: string, schema: Value)
    requires !Enabled(sc.ttl)
    ensures sc.GetAllClasses() == Null && sc.SetAllClasses(schema) == Null
    ensures sc.SetOnSchema(className, schema) == Null && sc.GetOneSchema(className) == Ok(Null)
  {
  }

  /** A truthy entry under the class's own key wins. */
  lemma GetOneSchemaDirect(sc: SchemaCache, className: string)
    requires Enabled(sc.ttl) && Truthy(sc.cache.Get(sc.prefix + className))
    ensures sc.GetOneSchema(className) == Ok(sc.cache.Get(sc.prefix + className))
  {
  }

  /** Otherwise the main list is searched; a missing list counts as empty. */
  lemma GetOneSchemaFallback(sc: SchemaCache, className: string)
    requires Enabled(sc.ttl) && !Truthy(sc.cache.Get(sc.prefix + className))
    ensures !Truthy(sc.cache.Get(sc.prefix + MainSchema)) ==> sc.GetOneSchema(className) == Ok(Null)
    ensures sc.cache.Get(sc.prefix + MainSchema).Arr? ==>
      var items := sc.cache.Get(sc.prefix + MainSchema).items;
      (FindByClassName(items, className).Err? ==> sc.GetOneSchema(className) == Err(FindByClassName(items, className).error)) &&
      (FindByClassName(items, className) == Ok(None) ==> sc.GetOneSchema(className) == Ok(Null))
  {
  }

  /** A matching object in the main list is what `getOneSchema` answers. */
  lemma GetOneSchemaFromList(sc: SchemaCache, className: string, i: nat)
    requires Enabled(sc.ttl) && !Truthy(sc.cache.Get(sc.prefix + className))
    requires sc.cache.Get(sc.prefix + MainSchema).Arr?
    requires var items := sc.cache.Get(sc.prefix + MainSchema).items;
      i < |items| && items[i].Obj? && Member(items[i], "className") == Ok(Str(className)) &&
      forall j :: 0 <= j < i ==> Member(items[j], "className").Ok? && Member(items[j], "className") != Ok(Str(className))
    ensures sc.GetOneSchema(className) == Ok(sc.cache.Get(sc.prefix + MainSchema).items[i])
  {
    FindByClassNameFirst(sc.cache.Get(sc.prefix + MainSchema).items, className, i);
  }
}
