/**
 * `loadAdapter(adapter, defaultAdapter, options)`: turns an adapter
 * descriptor (a falsy value, a function, a module name, or an object naming
 * a `module`, `class` or `adapter`) into the adapter. Calling a function,
 * constructing with `new` and `require` are not visible here: they are the
 * fields of `Host`. A module name may resolve to another module name, so
 * each `require` spends one unit of `fuel`; `None` means the fuel ran out.
 */
module AdapterLoaderModel {
  import opened Results
  import opened JsString
  import opened JsValue

  /** The calls `loadAdapter` makes into code it cannot see. */
  datatype Host = Host(call: (Value, Value) -> Result<Value, Exception>,
                       construct: (Value, Value) -> Result<Value, Exception>,
                       require: string -> Result<Value, Exception>)

  /**
   * Whether a caught error's `name` is `'TypeError'`. A thrown object is
   * judged by its own `name` property; reading the name of a thrown `null`
   * or `undefined` throws; other thrown primitives have no such name.
   */
  function CaughtTypeError(e: Exception): (r: Result<bool, Exception>)
    ensures e.TypeError? ==> r == Ok(true)
    ensures !e.TypeError? && !e.Raised? ==> r == Ok(false)
    ensures e.Raised? && (e.value.Null? || e.value.Undefined?) ==> r.Err? && r.error.TypeError?
    ensures e.Raised? && e.value.Obj? ==> r == Ok(Lookup(e.value.props, "name") == Str("TypeError"))
    ensures e.Raised? && !e.value.Null? && !e.value.Undefined? && !e.value.Obj? ==> r == Ok(false)
  {
    match e
    case TypeError(_) => Ok(true)
    case Raised(v) =>
      (match Member(v, "name")
       case Err(e2) => Err(e2)
       case Ok(name) => Ok(name == Str("TypeError")))
    case _ => Ok(false)
  }

  /**
   * `try { return adapter(options) } catch (e) { ... }`: a `TypeError`, or a
   * thrown object named `'TypeError'`, retries with `new`; a thrown `null`
   * or `undefined` fails while its name is read; anything else is rethrown.
   */
  function CallOrConstruct(adapter: Value, options: Value, host: Host): (r: Result<Value, Exception>)
    ensures host.call(adapter, options).Ok? ==> r == host.call(adapter, options)
    ensures host.call(adapter, options).Err? && host.call(adapter, options).error.TypeError? ==>
      r == host.construct(adapter, options)
    ensures (host.call(adapter, options).Err? && !host.call(adapter, options).error.TypeError? &&
             !host.call(adapter, options).error.Raised?) ==> r == host.call(adapter, options)
    ensures host.call(adapter, options).Err? && host.call(adapter, options).error.Raised? ==>
      var thrown := host.call(adapter, options).error.value;
      (thrown.Null? || thrown.Undefined? ==> r.Err? && r.error.TypeError?) &&
      (thrown.Obj? && Lookup(thrown.props, "name") == Str("TypeError") ==> r == host.construct(adapter, options)) &&
      (thrown.Obj? && Lookup(thrown.props, "name") != Str("TypeError") ==> r == host.call(adapter, options)) &&
      (!thrown.Null? && !thrown.Undefined? && !thrown.Obj? ==> r == host.call(adapter, options))
  {
    match host.call(adapter, options)
    case Ok(v) => Ok(v)
    case Err(e) =>
      match CaughtTypeError(e)
      case Err(e2) => Err(e2)
      case Ok(isTypeError) => if isTypeError then host.construct(adapter, options) else Err(e)
  }

  /** A property that holds a truthy value lies inside the object or array it was read from. */
  lemma MemberSmaller(v: Value, k: string)
    requires !v.Undefined? && !v.Null? && !v.Str? && k != "length" && Truthy(Member(v, k).value)
    ensures Member(v, k).value < v
  {
    match v
    case Obj(props) =>
      KeySetMembers(props, k);
      var i :| 0 <= i < |props| && props[i].key == k && forall j :: 0 <= j < i ==> props[j].key != k by {
        var i0 :| 0 <= i0 < |props| && props[i0].key == k;
        FirstOccurrence(props, k, i0);
      }
      LookupFirst(props, i);
      assert props[i] in props;
    case Arr(items) =>
      if CanonicalIndex(k).Some? && CanonicalIndex(k).value < |items| {
        assert items[CanonicalIndex(k).value] in items;
      }
    case _ =>
  }

  /** Of the properties named `k`, there is a first one. */
  lemma FirstOccurrence(props: Props, k: string, i0: nat)
    requires i0 < |props| && props[i0].key == k
    ensures exists i :: 0 <= i < |props| && props[i].key == k && forall j :: 0 <= j < i ==> props[j].key != k
    decreases i0
  {
    if exists j :: 0 <= j < i0 && props[j].key == k {
      var j :| 0 <= j < i0 && props[j].key == k;
      FirstOccurrence(props, k, j);
    }
  }

  /** The descriptor key `loadAdapter` follows in an object: `module`, else `class`, else `adapter`. */
  function DescriptorKey(adapter: Value): (r: Option<string>)
    ensures r.Some? ==> r.value in {"module", "class", "adapter"}
  {
    if adapter.Undefined? || adapter.Null? || adapter.Str? || adapter.Fn? then None
    else if Truthy(Member(adapter, "module").value) then Some("module")
    else if Truthy(Member(adapter, "class").value) then Some("class")
    else if Truthy(Member(adapter, "adapter").value) then Some("adapter")
    else None
  }

  function LoadAdapter(adapter: Value, defaultAdapter: Value, options: Value, host: Host, fuel: nat)
    : (r: Option<Result<Value, Exception>>)
    ensures !Truthy(adapter) && !Truthy(defaultAdapter) ==> r == Some(Ok(options))
    ensures adapter.Fn? ==> r.Some?
    ensures Truthy(adapter) && !adapter.Str? && !adapter.Fn? && DescriptorKey(adapter).None? ==> r == Some(Ok(adapter))
    decreases fuel, if Truthy(defaultAdapter) then 1 else 0, adapter
  {
    if !Truthy(adapter) then
      if !Truthy(defaultAdapter) then Some(Ok(options))
      else LoadAdapter(defaultAdapter, Undefined, options, host, fuel)
    else if adapter.Fn? then Some(CallOrConstruct(adapter, options, host))
    else if adapter.Str? then
      if fuel == 0 then None
      else match ModuleStep(adapter.s, host)
        case Err(e) => Some(Err(e))
        case Ok(next) => LoadAdapter(next, Undefined, options, host, fuel - 1)
    else match DescriptorKey(adapter)
      case None => Some(Ok(adapter))
      case Some(k) =>
        MemberSmaller(adapter, k);
        LoadAdapter(Member(adapter, k).value, Undefined, Member(adapter, "options").value, host, fuel)
  }

  /**
   * The dispatch on the descriptor's shape: a falsy adapter gives the
   * options, or the default loaded with them; a function is called (or
   * constructed); an object follows `module`, `class` or `adapter` with its
   * own `options`, and is itself the adapter otherwise.
   */
  lemma LoadAdapterCases(adapter: Value, defaultAdapter: Value, options: Value, host: Host, fuel: nat)
    ensures !Truthy(adapter) && !Truthy(defaultAdapter) ==>
      LoadAdapter(adapter, defaultAdapter, options, host, fuel) == Some(Ok(options))
    ensures !Truthy(adapter) && Truthy(defaultAdapter) ==>
      LoadAdapter(adapter, defaultAdapter, options, host, fuel) == LoadAdapter(defaultAdapter, Undefined, options, host, fuel)
    ensures adapter.Fn? ==>
      LoadAdapter(adapter, defaultAdapter, options, host, fuel) == Some(CallOrConstruct(adapter, options, host))
    ensures adapter.Obj? && Truthy(Lookup(adapter.props, "module")) ==>
      LoadAdapter(adapter, defaultAdapter, options, host, fuel) ==
      LoadAdapter(Lookup(adapter.props, "module"), Undefined, Lookup(adapter.props, "options"), host, fuel)
    ensures adapter.Obj? && !Truthy(Lookup(adapter.props, "module")) && Truthy(Lookup(adapter.props, "class")) ==>
      LoadAdapter(adapter, defaultAdapter, options, host, fuel) ==
      LoadAdapter(Lookup(adapter.props, "class"), Undefined, Lookup(adapter.props, "options"), host, fuel)
    ensures (adapter.Obj? && !Truthy(Lookup(adapter.props, "module")) && !Truthy(Lookup(adapter.props, "class")) &&
             Truthy(Lookup(adapter.props, "adapter"))) ==>
      LoadAdapter(adapter, defaultAdapter, options, host, fuel) ==
      LoadAdapter(Lookup(adapter.props, "adapter"), Undefined, Lookup(adapter.props, "options"), host, fuel)
    ensures adapter.Obj? && DescriptorKey(adapter).None? ==>
      LoadAdapter(adapter, defaultAdapter, options, host, fuel) == Some(Ok(adapter))
  {
  }

  /**
   * A module name is `require`d and its `default` export, when truthy, is
   * loaded in place of the module, with the same options.
   */
  lemma LoadAdapterModule(name: string, defaultAdapter: Value, options: Value, host: Host, fuel: nat)
    requires name != "" && fuel > 0
    ensures host.require(name).Err? ==>
      LoadAdapter(Str(name), defaultAdapter, options, host, fuel) == Some(Err(host.require(name).error))
    ensures host.require(name).Ok? && host.require(name).value.Obj? ==>
      var m := host.require(name).value;
      var d := Lookup(m.props, "default");
      LoadAdapter(Str(name), defaultAdapter, options, host, fuel) ==
      LoadAdapter(if Truthy(d) then d else m, Undefined, options, host, fuel - 1)
  {
  }

  /** Once an adapter is given, the default plays no part. */
  lemma DefaultIgnored(adapter: Value, defaultAdapter: Value, options: Value, host: Host, fuel: nat)
    requires Truthy(adapter)
    ensures LoadAdapter(adapter, defaultAdapter, options, host, fuel) == LoadAdapter(adapter, Undefined, options, host, fuel)
  {
  }

  /** A descriptor object carries its own options: the ones passed in play no part. */
  lemma DescriptorOptions(adapter: Value, defaultAdapter: Value, options1: Value, options2: Value, host: Host, fuel: nat)
    requires Truthy(adapter) && DescriptorKey(adapter).Some?
    ensures LoadAdapter(adapter, defaultAdapter, options1, host, fuel) ==
      LoadAdapter(adapter, defaultAdapter, options2, host, fuel)
  {
  }

  /** An object that names no descriptor is the adapter itself, and loading it again gives it again. */
  lemma PlainObjectFixpoint(adapter: Value, defaultAdapter: Value, options: Value, host: Host, fuel: nat)
    requires adapter.Obj? && DescriptorKey(adapter).None?
    ensures LoadAdapter(adapter, defaultAdapter, options, host, fuel) == Some(Ok(adapter))
    ensures LoadAdapter(LoadAdapter(adapter, defaultAdapter, options, host, fuel).value.value, Undefined, options, host, fuel) ==
      Some(Ok(adapter))
  {
  }

  /**
   * Nested descriptors are followed to the end, and the innermost options
   * win: `{module: {class: f, options: o2}, options: o1}` calls `f(o2)`.
   */
  lemma NestedDescriptor(f: nat, o1: Value, o2: Value, options: Value, host: Host, fuel: nat)
    ensures var inner := Obj([Entry("class", Fn(f)), Entry("options", o2)]);
      LoadAdapter(Obj([Entry("module", inner), Entry("options", o1)]), Undefined, options, host, fuel) ==
      Some(CallOrConstruct(Fn(f), o2, host))
  {
    var inner := Obj([Entry("class", Fn(f)), Entry("options", o2)]);
    var outer := Obj([Entry("module", inner), Entry("options", o1)]);
    assert "module" != "class" && "module" != "options" by {
      assert "module"[0] != "class"[0] && "module"[0] != "options"[0];
    }
    assert "class" != "options" by {
      assert "class"[0] != "options"[0];
    }
    assert Lookup(inner.props, "module") == Undefined;
    assert DescriptorKey(outer) == Some("module");
    assert DescriptorKey(inner) == Some("class");
    assert LoadAdapter(outer, Undefined, options, host, fuel) == LoadAdapter(inner, Undefined, o1, host, fuel);
    assert inner.props[1..] == [Entry("options", o2)];
    assert Lookup(inner.props[1..], "options") == o2;
    assert Member(inner, "class").value == Fn(f) && Member(inner, "options").value == o2;
    assert LoadAdapter(inner, Undefined, o1, host, fuel) == LoadAdapter(Fn(f), Undefined, o2, host, fuel);
  }

  /** More fuel never changes a load that finished: the fuel bound only cuts off endless module chains. */
  lemma {:induction false} FuelMonotone(adapter: Value, defaultAdapter: Value, options: Value, host: Host, fuel: nat)
    requires LoadAdapter(adapter, defaultAdapter, options, host, fuel).Some?
    ensures LoadAdapter(adapter, defaultAdapter, options, host, fuel + 1) ==
      LoadAdapter(adapter, defaultAdapter, options, host, fuel)
    decreases fuel, if Truthy(defaultAdapter) then 1 else 0, adapter, 1
  {
    if !Truthy(adapter) {
      if Truthy(defaultAdapter) {
        FuelMonotone(defaultAdapter, Undefined, options, host, fuel);
      }
    } else if adapter.Str? {
      FuelMonotoneModule(adapter.s, options, host, fuel);
    } else if !adapter.Fn? && DescriptorKey(adapter).Some? {
      var k := DescriptorKey(adapter).value;
      MemberSmaller(adapter, k);
      var inner := Member(adapter, k).value;
      var innerOptions := Member(adapter, "options").value;
      assert LoadAdapter(adapter, defaultAdapter, options, host, fuel) ==
        LoadAdapter(inner, Undefined, innerOptions, host, fuel);
      FuelMonotone(inner, Undefined, innerOptions, host, fuel);
      assert LoadAdapter(adapter, defaultAdapter, options, host, fuel + 1) ==
        LoadAdapter(inner, Undefined, innerOptions, host, fuel + 1);
    }
  }

  /** `FuelMonotone` for a module name: one unit of fuel is spent, the rest is the resolved module's load. */
  lemma {:induction false} FuelMonotoneModule(name: string, options: Value, host: Host, fuel: nat)
    requires name != "" && LoadAdapter(Str(name), Undefined, options, host, fuel).Some?
    ensures LoadAdapter(Str(name), Undefined, options, host, fuel + 1) ==
      LoadAdapter(Str(name), Undefined, options, host, fuel)
    decreases fuel, 0, Str(name), 0
  {
    var next := ModuleStep(name, host);
    if next.Ok? {
      assert fuel > 0;
      var n, f := next.value, fuel - 1;
      ModuleLoad(name, options, host, f, n);
      ModuleLoad(name, options, host, fuel, n);
      assert LoadAdapter(n, Undefined, options, host, f) == LoadAdapter(Str(name), Undefined, options, host, fuel);
      FuelMonotone(n, Undefined, options, host, f);
    }
  }

  /** A module name that resolves loads what it resolved to, for one unit of fuel less. */
  lemma ModuleLoad(name: string, options: Value, host: Host, fuel: nat, next: Value)
    requires name != "" && ModuleStep(name, host) == Ok(next)
    ensures LoadAdapter(Str(name), Undefined, options, host, fuel + 1) == LoadAdapter(next, Undefined, options, host, fuel)
  {
  }

  /** What a module name resolves to: its truthy `default` export, else the module. */
  function ModuleStep(name: string, host: Host): (r: Result<Value, Exception>)
    ensures host.require(name).Err? ==> r == host.require(name)
    ensures r.Ok? ==> host.require(name).Ok?
    ensures r.Ok? ==>
      r.value == host.require(name).value || (Truthy(r.value) && Member(host.require(name).value, "default") == Ok(r.value))
    ensures (host.require(name).Ok? && host.require(name).value.Obj? &&
             !Truthy(Lookup(host.require(name).value.props, "default"))) ==> r == host.require(name)
  {
    match host.require(name)
    case Err(e) => Err(e)
    case Ok(m) =>
      match Member(m, "default")
      case Err(e) => Err(e)
      case Ok(d) => Ok(if Truthy(d) then d else m)
  }
}
