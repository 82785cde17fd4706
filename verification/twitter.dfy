/**
 * The Twitter auth adapter's configuration choice. The configured options
 * are one value or an array of option objects that the adapter writes into;
 * the request to Twitter and its answer are not part of this model.
 */
module TwitterModel {
  import opened Results
  import opened JsValue
  import OAuth1ClientModel

  /** The adapter's `options` as written down: one value, or an array of shared option objects. */
  datatype ConfiguredOptions = Single(v: Value) | Many(items: seq<OAuth1ClientModel.JsObject>)

  /** An array of options is always `Many`: `Single` holds a value that is not an array. */
  type Options = o: ConfiguredOptions | !(o.Single? && o.v.Arr?) witness Single(Undefined)

  /** What `handleMultipleConfigurations` returns: one option object of the array, or the value it was given. */
  datatype Choice = Chosen(obj: OAuth1ClientModel.JsObject) | Given(v: Value)

  /** The credentials and host the OAuth client of `validateAuthData` is given. */
  datatype ClientSettings = ClientSettings(consumerKey: Value, consumerSecret: Value, authToken: Value,
                                           authTokenSecret: Value, host: string)

  const TwitterHost: string := "api.twitter.com"

  const ConfigurationMissing: Exception :=
    ParseError(InternalServerError, "Twitter auth configuration missiong.")

  const InvalidForUser: Exception := ParseError(ObjectNotFound, "Twitter auth is invalid for this user.")

  /** `!options`: only a falsy single value counts as missing; an array is always truthy. */
  predicate OptionsMissing(options: Options)
  {
    options.Single? && !Truthy(options.v)
  }

  /** The option objects of an array, each holding `consumer_key` set to `key`. */
  twostate predicate KeyWritten(items: seq<OAuth1ClientModel.JsObject>, key: Value)
    reads set o | o in items
  {
    forall o :: o in items ==> o.props == Assign(old(o.props), "consumer_key", key)
  }

  /**
   * `handleMultipleConfigurations(authData, options)`. For an array, the
   * `filter` callback assigns `consumer_key` instead of comparing it: every
   * element is kept, each gets the client's key written into it, and the
   * first one is chosen.
   */
  method HandleMultipleConfigurations(authData: Value, options: Options) returns (r: Result<Choice, Exception>)
    modifies if options.Many? then set o | o in options.items else {}
    ensures options.Single? ==> r == Ok(Given(options.v))
    ensures options.Many? && Member(authData, "consumer_key").Err? ==>
      r == Err(Member(authData, "consumer_key").error) && unchanged(set o | o in options.items)
    ensures options.Many? && Member(authData, "consumer_key").Ok? && !Truthy(Member(authData, "consumer_key").value) ==>
      r == Err(InvalidForUser) && unchanged(set o | o in options.items)
    ensures options.Many? && Member(authData, "consumer_key").Ok? && Truthy(Member(authData, "consumer_key").value) ==>
      KeyWritten(options.items, Member(authData, "consumer_key").value) &&
      r == if |options.items| == 0 then Err(InvalidForUser) else Ok(Chosen(options.items[0]))
  {
    if options.Single? {
      return Ok(Given(options.v));
    }
    var items := options.items;
    var consumerKey := Member(authData, "consumer_key");
    if consumerKey.Err? {
      return Err(consumerKey.error);
    }
    if !Truthy(consumerKey.value) {
      return Err(InvalidForUser);
    }
    WriteKey(items, consumerKey.value);
    if |items| == 0 {
      return Err(InvalidForUser);
    }
    return Ok(Chosen(items[0]));
  }

  /** The `filter` callback's assignment, run on every option object in turn. */
  method WriteKey(items: seq<OAuth1ClientModel.JsObject>, key: Value)
    modifies set o | o in items
    ensures KeyWritten(items, key)
  {
    var i := 0;
    while i < |items|
      invariant 0 <= i <= |items|
      invariant forall j :: 0 <= j < i ==> items[j].props == Assign(old(items[j].props), "consumer_key", key)
      invariant forall o :: o in items ==>
        o.props == old(o.props) || o.props == Assign(old(o.props), "consumer_key", key)
    {
      var o := items[i];
      ghost var written := Assign(old(o.props), "consumer_key", key);
      AssignIdempotent(old(o.props), "consumer_key", key);
      assert Assign(o.props, "consumer_key", key) == written;
      label before:
      o.props := Assign(o.props, "consumer_key", key);
      forall j | 0 <= j <= i
        ensures items[j].props == Assign(old(items[j].props), "consumer_key", key)
      {
        if items[j] != o {
          assert items[j].props == old@before(items[j].props);
        }
      }
      i := i + 1;
    }
    forall o | o in items
      ensures o.props == Assign(old(o.props), "consumer_key", key)
    {
      var j :| 0 <= j < |items| && items[j] == o;
    }
  }

  /** The index of the first option object whose `consumer_key` is `key`, if any. */
  function FirstWithKey(items: seq<OAuth1ClientModel.JsObject>, key: Value): (r: Option<nat>)
    reads set o | o in items
    ensures r.None? <==> forall i :: 0 <= i < |items| ==> Lookup(items[i].props, "consumer_key") != key
    ensures r.Some? ==>
      (r.value < |items| && Lookup(items[r.value].props, "consumer_key") == key &&
       forall i :: 0 <= i < r.value ==> Lookup(items[i].props, "consumer_key") != key)
  {
    if |items| == 0 then None
    else if Lookup(items[0].props, "consumer_key") == key then Some(0)
    else match FirstWithKey(items[1..], key)
      case None => None
      case Some(i) => Some(i + 1)
  }

  /**
   * `handleMultipleConfigurations` with the filter comparing keys, as the
   * code evidently intends: the first option object configured with the
   * client's key, and nothing written.
   */
  function SelectConfiguration(authData: Value, options: Options): (r: Result<Choice, Exception>)
    reads set o | options.Many? && o in options.items
    ensures options.Single? ==> r == Ok(Given(options.v))
    ensures options.Many? && Member(authData, "consumer_key").Err? ==> r == Err(Member(authData, "consumer_key").error)
    ensures options.Many? && Member(authData, "consumer_key").Ok? && !Truthy(Member(authData, "consumer_key").value) ==>
      r == Err(InvalidForUser)
    ensures options.Many? && Member(authData, "consumer_key").Ok? && Truthy(Member(authData, "consumer_key").value) ==>
      (r.Ok? <==> exists i :: 0 <= i < |options.items| &&
                    Lookup(options.items[i].props, "consumer_key") == Member(authData, "consumer_key").value)
    ensures options.Many? && r.Ok? ==>
      r.value.Chosen? && r.value.obj in options.items &&
      Lookup(r.value.obj.props, "consumer_key") == Member(authData, "consumer_key").value
  {
    match options
    case Single(v) => Ok(Given(v))
    case Many(items) =>
      match Member(authData, "consumer_key")
      case Err(e) => Err(e)
      case Ok(key) =>
        if !Truthy(key) then Err(InvalidForUser)
        else match FirstWithKey(items, key)
          case None => Err(InvalidForUser)
          case Some(i) => Ok(Chosen(items[i]))
  }

  /**
   * Two configurations keyed `a` and `b`, and a client sending `b`: the
   * comparing filter picks the second one, where the assigning filter of
   * `HandleMultipleConfigurations` picks the first and rewrites its key.
   */
  lemma SelectsMatchingConfiguration(first: OAuth1ClientModel.JsObject, second: OAuth1ClientModel.JsObject)
    requires first.props == [Entry("consumer_key", Str("a"))]
    requires second.props == [Entry("consumer_key", Str("b"))]
    ensures SelectConfiguration(Obj([Entry("consumer_key", Str("b"))]), Many([first, second])) == Ok(Chosen(second))
  {
    assert Lookup(first.props, "consumer_key") == Str("a");
    assert Lookup(second.props, "consumer_key") == Str("b");
    assert FirstWithKey([first, second][1..], Str("b")) == Some(0);
  }

  /** The value a choice stands for, as the OAuth constructor reads it. */
  function ChoiceValue(c: Choice): Value
    reads if c.Chosen? then {c.obj} else {}
  {
    match c
    case Chosen(obj) => Obj(obj.props)
    case Given(v) => v
  }

  /** The configured options as a JavaScript value. */
  function OptionsValue(options: Options): Value
    reads set o | options.Many? && o in options.items
  {
    match options
    case Single(v) => v
    case Many(items) => Arr(seq(|items|, i requires 0 <= i < |items| reads items => Obj(items[i].props)))
  }

  /**
   * The client `validateAuthData` sets up from the options value `source`:
   * consumer credentials from `source`, the user's token from `authData`,
   * and the Twitter host.
   */
  function SettingsFrom(source: Value, authData: Value): (r: Result<ClientSettings, Exception>)
    requires Truthy(source)
    ensures r.Err? <==> authData.Undefined? || authData.Null?
    ensures r.Ok? ==>
      (r.value.host == TwitterHost &&
       r.value.consumerKey == Member(source, "consumer_key").value &&
       r.value.consumerSecret == Member(source, "consumer_secret").value &&
       r.value.authToken == Member(authData, "auth_token").value &&
       r.value.authTokenSecret == Member(authData, "auth_token_secret").value)
  {
    match Member(authData, "auth_token")
    case Err(e) => Err(e)
    case Ok(token) =>
      Ok(ClientSettings(Member(source, "consumer_key").value, Member(source, "consumer_secret").value,
                        token, Member(authData, "auth_token_secret").value, TwitterHost))
  }

  /**
   * `validateAuthData(authData, options)` as written, up to the request:
   * the client is built from the whole `options`, not from the chosen one.
   */
  method ValidateAuthDataAsWritten(authData: Value, options: Options) returns (r: Result<ClientSettings, Exception>)
    modifies if options.Many? then set o | o in options.items else {}
    ensures OptionsMissing(options) ==> r == Err(ConfigurationMissing)
    ensures options.Single? && Truthy(options.v) ==> r == SettingsFrom(options.v, authData)
    ensures options.Many? && Member(authData, "consumer_key").Err? ==>
      r == Err(Member(authData, "consumer_key").error) && unchanged(set o | o in options.items)
    ensures options.Many? && Member(authData, "consumer_key").Ok? && !Truthy(Member(authData, "consumer_key").value) ==>
      r == Err(InvalidForUser) && unchanged(set o | o in options.items)
    ensures options.Many? && Member(authData, "consumer_key").Ok? && Truthy(Member(authData, "consumer_key").value) ==>
      KeyWritten(options.items, Member(authData, "consumer_key").value) &&
      r == if |options.items| == 0 then Err(InvalidForUser) else SettingsFrom(OptionsValue(options), authData)
    ensures r.Ok? && options.Many? ==> r.value.consumerKey == Undefined && r.value.consumerSecret == Undefined
  {
    if OptionsMissing(options) {
      return Err(ConfigurationMissing);
    }
    var option := HandleMultipleConfigurations(authData, options);
    if option.Err? {
      return Err(option.error);
    }
    r := SettingsFrom(OptionsValue(options), authData);
  }

  /**
   * `validateAuthData` as the code evidently intends: the client is built
   * from the option object configured with the client's consumer key.
   */
  function ValidateAuthData(authData: Value, options: Options): (r: Result<ClientSettings, Exception>)
    reads set o | options.Many? && o in options.items
    ensures OptionsMissing(options) ==> r == Err(ConfigurationMissing)
    ensures options.Single? && Truthy(options.v) ==> r == SettingsFrom(options.v, authData)
    ensures r.Ok? && options.Many? ==>
      exists i :: 0 <= i < |options.items| && Member(authData, "consumer_key").Ok? &&
        r.value.consumerKey == Member(authData, "consumer_key").value &&
        Lookup(options.items[i].props, "consumer_key") == r.value.consumerKey &&
        r.value.consumerSecret == Lookup(options.items[i].props, "consumer_secret")
  {
    if OptionsMissing(options) then Err(ConfigurationMissing)
    else match SelectConfiguration(authData, options)
      case Err(e) => Err(e)
      case Ok(choice) =>
        var r := SettingsFrom(ChoiceValue(choice), authData);
        assert r.Ok? && options.Many? ==> choice.Chosen? && choice.obj in options.items;
        r
  }
}
