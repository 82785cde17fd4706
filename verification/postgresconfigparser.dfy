/**
 * Database options from a Postgres connection URI. The URI arrives already
 * split by the legacy `url.parse` (`ParsedUrl`, `None` for a part it
 * reports as `null`); the query string is parsed here.
 */
module PostgresConfigParserModel {
  import opened Results
  import opened JsString
  import opened JsValue
  import opened Uri

  /** The parts of `url.parse(uri)` the options are read from. */
  datatype ParsedUrl = ParsedUrl(
    query: Option<string>, auth: Option<string>, hostname: Option<string>,
    port: Option<string>, pathname: Option<string>)

  /**
   * One segment of the query string: the decoded text before the first `=`,
   * and the decoded rest (`''` when there is no `=`). The key is decoded first.
   */
  function ParseSegment(c: string): (r: Result<(string, string), Exception>)
  {
    var parts := Split(c, '=');
    match DecodeURIComponent(parts[0])
    case Err(e) => Err(e)
    case Ok(key) =>
      if |parts| > 1 then
        match DecodeURIComponent(Join(parts[1..], '='))
        case Err(e) => Err(e)
        case Ok(value) => Ok((key, value))
      else Ok((key, ""))
  }

  /** A segment splits at its first `=`; without one its value is empty. */
  lemma ParseSegmentSpec(c: string)
    ensures '=' !in c ==>
      ParseSegment(c) == (match DecodeURIComponent(c) case Err(e) => Err(e) case Ok(k) => Ok((k, "")))
    ensures '=' in c ==> var i := IndexOf(c, '=').value;
      ParseSegment(c) ==
        (match DecodeURIComponent(c[..i])
         case Err(e) => Err(e)
         case Ok(k) => (match DecodeURIComponent(c[i + 1..])
                        case Err(e) => Err(e)
                        case Ok(v) => Ok((k, v))))
  {
    SplitHead(c, '=');
    CountZero(c, '=');
    if '=' in c {
      SplitTail(c, '=', IndexOf(c, '=').value);
    }
  }

  /** The `reduce`: each segment assigns its key on the accumulator, in order. */
  function ParseSegments(acc: Props, segments: seq<string>): (r: Result<Props, Exception>)
    decreases |segments|
  {
    if |segments| == 0 then Ok(acc)
    else match ParseSegment(segments[0])
      case Err(e) => Err(e)
      case Ok((key, value)) => ParseSegments(SetProperty(acc, key, Str(value)), segments[1..])
  }

  /** Parsing one more segment assigns its key on the result so far. */
  lemma {:induction false} ParseSegmentsSnoc(acc: Props, segments: seq<string>, c: string)
    ensures ParseSegments(acc, segments + [c]) ==
      match ParseSegments(acc, segments)
      case Err(e) => Err(e)
      case Ok(p) => (match ParseSegment(c)
                     case Err(e) => Err(e)
                     case Ok((key, value)) => Ok(SetProperty(p, key, Str(value))))
    decreases |segments|
  {
    if |segments| == 0 {
      assert segments + [c] == [c];
    } else {
      assert (segments + [c])[1..] == segments[1..] + [c];
      match ParseSegment(segments[0])
      case Err(e) =>
      case Ok((key, value)) =>
        ParseSegmentsSnoc(SetProperty(acc, key, Str(value)), segments[1..], c);
    }
  }

  /** `parseQueryParams(query)` on a string. */
  function ParseQuery(query: string): (r: Result<Props, Exception>)
  {
    ParseSegments([], Split(query, '&'))
  }

  /**
   * The accumulator starts as `{}`, so a `__proto__` key only reaches the
   * inherited accessor, and the result never has it as its own.
   */
  lemma {:induction false} ParseSegmentsNoProto(acc: Props, segments: seq<string>)
    requires "__proto__" !in KeySet(acc)
    ensures ParseSegments(acc, segments).Ok? ==> "__proto__" !in KeySet(ParseSegments(acc, segments).value)
    decreases |segments|
  {
    if |segments| > 0 {
      match ParseSegment(segments[0])
      case Err(e) =>
      case Ok((key, value)) =>
        ParseSegmentsNoProto(SetProperty(acc, key, Str(value)), segments[1..]);
    }
  }

  /**
   * The key of the last segment holds that segment's value: later duplicates
   * overwrite. The key `__proto__` never becomes a property of the result.
   */
  lemma LastSegmentWins(segments: seq<string>, c: string)
    requires ParseSegments([], segments + [c]).Ok?
    ensures ParseSegment(c).Ok?
    ensures ParseSegment(c).value.0 != "__proto__" ==>
      Lookup(ParseSegments([], segments + [c]).value, ParseSegment(c).value.0) == Str(ParseSegment(c).value.1)
    ensures "__proto__" !in KeySet(ParseSegments([], segments + [c]).value)
  {
    ParseSegmentsSnoc([], segments, c);
    ParseSegmentsNoProto([], segments + [c]);
  }

  /** The empty query string gives the one empty key with an empty value. */
  lemma EmptyQuery()
    ensures ParseQuery("") == Ok([Entry("", Str(""))])
  {
    assert Split("", '&') == [""];
    assert Split("", '=') == [""];
  }

  /** What the string encoders emit holds no `=` or `&`. */
  lemma EncodedHasNoDelimiters(s: string)
    ensures '=' !in EncodeURIComponent(s) && '&' !in EncodeURIComponent(s)
  {
  }

  /** `encodeURIComponent(k) + '=' + encodeURIComponent(v)` parses back to `(k, v)`. */
  lemma SegmentRoundTrip(k: string, v: string)
    ensures ParseSegment(EncodeURIComponent(k) + "=" + EncodeURIComponent(v)) == Ok((k, v))
  {
    var ek := EncodeURIComponent(k);
    var ev := EncodeURIComponent(v);
    var c := ek + "=" + ev;
    EncodedHasNoDelimiters(k);
    EncodedHasNoDelimiters(v);
    SplitAfterPiece(ek, '=', ev);
    SplitNoSep(ev, '=');
    assert Split(c, '=') == [ek, ev];
    assert Join([ev], '=') == ev;
    DecodeEncode(k);
    DecodeEncode(v);
  }

  /** The text of a query string built from encoded pairs. */
  function EncodedPairs(pairs: seq<(string, string)>): (segments: seq<string>)
    ensures |segments| == |pairs|
    ensures forall i :: 0 <= i < |pairs| ==>
      segments[i] == EncodeURIComponent(pairs[i].0) + "=" + EncodeURIComponent(pairs[i].1)
  {
    seq(|pairs|, i requires 0 <= i < |pairs| => EncodeURIComponent(pairs[i].0) + "=" + EncodeURIComponent(pairs[i].1))
  }

  /** The object built by assigning each pair in turn. */
  function AssignAll(acc: Props, pairs: seq<(string, string)>): Props
    decreases |pairs|
  {
    if |pairs| == 0 then acc else AssignAll(SetProperty(acc, pairs[0].0, Str(pairs[0].1)), pairs[1..])
  }

  /** The keys of the pairs end up as properties, except an inherited `__proto__`. */
  lemma {:induction false} AssignAllKeys(acc: Props, pairs: seq<(string, string)>)
    ensures KeySet(AssignAll(acc, pairs)) == KeySet(acc) + (set p | p in pairs && Settable(acc, p.0) :: p.0)
    decreases |pairs|
  {
    if |pairs| > 0 {
      var acc' := SetProperty(acc, pairs[0].0, Str(pairs[0].1));
      AssignAllKeys(acc', pairs[1..]);
      assert forall k :: Settable(acc', k) == Settable(acc, k);
      assert forall p :: p in pairs <==> p == pairs[0] || p in pairs[1..];
    }
  }

  lemma {:induction false} ParseEncodedSegments(acc: Props, pairs: seq<(string, string)>)
    ensures ParseSegments(acc, EncodedPairs(pairs)) == Ok(AssignAll(acc, pairs))
    decreases |pairs|
  {
    if |pairs| > 0 {
      SegmentRoundTrip(pairs[0].0, pairs[0].1);
      assert EncodedPairs(pairs)[1..] == EncodedPairs(pairs[1..]);
      ParseEncodedSegments(SetProperty(acc, pairs[0].0, Str(pairs[0].1)), pairs[1..]);
    }
  }

  /** A query string of encoded `key=value` pairs joined by `&` parses back to those pairs. */
  lemma QueryRoundTrip(pairs: seq<(string, string)>)
    requires |pairs| > 0
    ensures ParseQuery(Join(EncodedPairs(pairs), '&')) == Ok(AssignAll([], pairs))
    ensures KeySet(AssignAll([], pairs)) == (set p | p in pairs :: p.0) - {"__proto__"}
  {
    var segments := EncodedPairs(pairs);
    forall i | 0 <= i < |segments|
      ensures '&' !in segments[i]
    {
      EncodedHasNoDelimiters(pairs[i].0);
      EncodedHasNoDelimiters(pairs[i].1);
    }
    SplitJoin(segments, '&');
    ParseEncodedSegments([], pairs);
    AssignAllKeys([], pairs);
  }

  /** `parseQueryParams(query = '')` as written: `null` is not `undefined`, so it reaches `null.split`. */
  function ParseQueryParamsAsWritten(query: Value): (r: Result<Props, Exception>)
    requires query.Undefined? || query.Null? || query.Str?
    ensures query.Undefined? ==> r == ParseQuery("")
    ensures query.Null? ==> r == Err(TypeErrorReading("split", "null"))
    ensures query.Str? ==> r == ParseQuery(query.s)
  {
    match query
    case Undefined => ParseQuery("")
    case Null => Err(TypeErrorReading("split", "null"))
    case Str(s) => ParseQuery(s)
  }

  /** `parseQueryParams` as evidently meant: a missing query string is the empty one. */
  function ParseQueryParams(query: Option<string>): (r: Result<Props, Exception>)
    ensures r.Ok? || query.Some?
    ensures query.None? ==> r == Ok([Entry("", Str(""))])
  {
    EmptyQuery();
    ParseQuery(if query.Some? then query.value else "")
  }

  /** The options handed to the Postgres client. `None` as a port is `NaN`. */
  datatype DatabaseOptions = DatabaseOptions(
    host: string, port: Option<int>, database: Option<string>, user: string, password: string,
    ssl: bool, binary: bool, clientEncoding: Value, applicationName: Value,
    fallbackApplicationName: Value, poolSize: Option<int>)

  const DefaultHost: string := "localhost"
  const DefaultPort: int := 5432
  const DefaultPoolSize: int := 10

  /** `ssl && ssl.toLowerCase() === 'true'`: only a string spelling `true` in any case. */
  predicate FlagOn(v: Value)
  {
    Truthy(v) && v.Str? && ToLowerAscii(v.s) == "true"
  }

  /** `parseInt(poolSize, 10) || 10`, for a truthy `poolSize`. */
  function PoolSize(v: Value): (n: int)
    ensures n != 0
    ensures v.Str? && ParseInt(v.s).Some? && ParseInt(v.s).value != 0 ==> n == ParseInt(v.s).value
  {
    var parsed := ParseInt(ToJsString(v));
    if parsed.Some? && parsed.value != 0 then parsed.value else DefaultPoolSize
  }

  /** `url.auth.split(':')` when the URI has a non-empty auth part, else nothing. */
  function AuthParts(auth: Option<string>): seq<string>
  {
    if auth.Some? && auth.value != "" then Split(auth.value, ':') else []
  }

  /** The options for a URI whose query parameters are `params`. */
  function OptionsFrom(url: ParsedUrl, params: Props): (o: DatabaseOptions)
  {
    var authParts := AuthParts(url.auth);
    DatabaseOptions(
      host := if url.hostname.Some? && url.hostname.value != "" then url.hostname.value else DefaultHost,
      port := if url.port.Some? && url.port.value != "" then ParseInt(url.port.value) else Some(DefaultPort),
      database := if url.pathname.Some? && url.pathname.value != "" then Some(url.pathname.value[1..]) else None,
      user := if |authParts| > 0 then authParts[0] else "",
      password := if |authParts| > 1 then authParts[1] else "",
      ssl := FlagOn(Lookup(params, "ssl")),
      binary := FlagOn(Lookup(params, "binary")),
      clientEncoding := Lookup(params, "client_encoding"),
      applicationName := Lookup(params, "application_name"),
      fallbackApplicationName := Lookup(params, "fallback_application_name"),
      poolSize := if Truthy(Lookup(params, "poolSize")) then Some(PoolSize(Lookup(params, "poolSize"))) else None)
  }

  /** `getDatabaseOptionsFromURI` as written: a URI without a query string throws. */
  function GetDatabaseOptionsFromUriAsWritten(url: ParsedUrl): (r: Result<DatabaseOptions, Exception>)
    ensures url.query.None? ==> r == Err(TypeErrorReading("split", "null"))
  {
    match ParseQueryParamsAsWritten(if url.query.Some? then Str(url.query.value) else Null)
    case Err(e) => Err(e)
    case Ok(params) => Ok(OptionsFrom(url, params))
  }

  /** `getDatabaseOptionsFromURI(uri)`, with a missing query string read as empty. */
  function GetDatabaseOptionsFromUri(url: ParsedUrl): (r: Result<DatabaseOptions, Exception>)
    ensures url.query.None? ==> r.Ok?
    ensures url.query.Some? ==> r == GetDatabaseOptionsFromUriAsWritten(url)
  {
    match ParseQueryParams(url.query)
    case Err(e) => Err(e)
    case Ok(params) => Ok(OptionsFrom(url, params))
  }

  /** `postgres://` with nothing else: every default, and no error. */
  lemma BareUriDefaults()
    ensures GetDatabaseOptionsFromUri(ParsedUrl(None, None, None, None, None)) ==
      Ok(DatabaseOptions(DefaultHost, Some(DefaultPort), None, "", "", false, false,
                         Undefined, Undefined, Undefined, None))
    ensures GetDatabaseOptionsFromUriAsWritten(ParsedUrl(None, None, None, None, None)).Err?
  {
  }

  /** The connection fields, each from its part of the URI or its default. */
  lemma ConnectionFields(url: ParsedUrl, params: Props)
    ensures var o := OptionsFrom(url, params);
      (url.hostname.Some? && url.hostname.value != "" ==> o.host == url.hostname.value) &&
      (url.hostname.None? || url.hostname.value == "" ==> o.host == "localhost") &&
      (url.port.None? || url.port.value == "" ==> o.port == Some(5432)) &&
      (forall n: nat :: url.port == Some(NatToString(n)) ==> o.port == Some(n)) &&
      (url.pathname.Some? && url.pathname.value != "" ==> o.database == Some(url.pathname.value[1..])) &&
      (url.pathname.None? || url.pathname.value == "" ==> o.database.None?)
  {
    forall n: nat | url.port == Some(NatToString(n))
      ensures OptionsFrom(url, params).port == Some(n)
    {
      ParseIntOfNatString(n);
    }
  }

  /**
   * The user is the auth text before the first `:`, and the password the
   * text between the first and any second `:`; both default to `''`.
   */
  lemma Credentials(url: ParsedUrl, params: Props, user: string, password: string, rest: string)
    requires ':' !in user && ':' !in password
    ensures url.auth == Some(user + ":" + password) ==>
      OptionsFrom(url, params).user == user && OptionsFrom(url, params).password == password
    ensures url.auth == Some(user + ":" + password + ":" + rest) ==>
      OptionsFrom(url, params).user == user && OptionsFrom(url, params).password == password
    ensures url.auth == Some(user) ==>
      OptionsFrom(url, params).user == user && OptionsFrom(url, params).password == ""
  {
    if url.auth == Some(user + ":" + password) {
      UserAndPassword(user, password);
    } else if url.auth == Some(user + ":" + password + ":" + rest) {
      UserPasswordAndRest(user, password, rest);
    } else if url.auth == Some(user) {
      UserOnly(user);
    }
  }

  lemma UserAndPassword(user: string, password: string)
    requires ':' !in user && ':' !in password
    ensures var parts := AuthParts(Some(user + ":" + password));
      |parts| > 1 && parts[0] == user && parts[1] == password
  {
    SplitAfterPiece(user, ':', password);
    SplitNoSep(password, ':');
  }

  lemma UserPasswordAndRest(user: string, password: string, rest: string)
    requires ':' !in user && ':' !in password
    ensures var parts := AuthParts(Some(user + ":" + password + ":" + rest));
      |parts| > 1 && parts[0] == user && parts[1] == password
  {
    SplitAfterPiece(user, ':', password + ":" + rest);
    SplitAfterPiece(password, ':', rest);
    assert user + ":" + password + ":" + rest == user + [':'] + (password + [':'] + rest);
  }

  lemma UserOnly(user: string)
    requires ':' !in user
    ensures var parts := AuthParts(Some(user));
      (|parts| > 0 ==> parts[0] == user) && |parts| <= 1 && (user != "" ==> |parts| == 1)
  {
    SplitNoSep(user, ':');
  }

  /** `ssl` and `binary` are on exactly for a string that lower-cases to `true`. */
  lemma Flags(url: ParsedUrl, params: Props)
    ensures OptionsFrom(url, params).ssl <==>
      Lookup(params, "ssl").Str? && ToLowerAscii(Lookup(params, "ssl").s) == "true"
    ensures OptionsFrom(url, params).binary <==>
      Lookup(params, "binary").Str? && ToLowerAscii(Lookup(params, "binary").s) == "true"
    ensures Lookup(params, "ssl") == Str("TRUE") ==> OptionsFrom(url, params).ssl
  {
    if Lookup(params, "ssl") == Str("TRUE") {
      UpperTrue();
    }
  }

  lemma UpperTrue()
    ensures ToLowerAscii("TRUE") == "true"
  {
    var r := ToLowerAscii("TRUE");
    assert r[0] == 't' && r[1] == 'r' && r[2] == 'u' && r[3] == 'e';
  }

  /** `poolSize` is set only when given, to its integer value, or 10 for `0` or no digits. */
  lemma PoolSizeRule(url: ParsedUrl, params: Props)
    ensures !Truthy(Lookup(params, "poolSize")) <==> OptionsFrom(url, params).poolSize.None?
    ensures Truthy(Lookup(params, "poolSize")) ==>
      OptionsFrom(url, params).poolSize == Some(PoolSize(Lookup(params, "poolSize")))
  {
  }

  /** Both `0` and text without digits fall back to the default pool size. */
  lemma PoolSizeDefaults()
    ensures PoolSize(Str("0")) == 10 && PoolSize(Str("many")) == 10
  {
    var zero, many := "0", "many";
    assert zero == NatToString(0);
    ParseIntOfNatString(0);
    assert many[0] == 'm';
    ParseIntNoDigit(many);
  }

  /** A positive pool size written in decimal is read as itself. */
  lemma {:induction false} PoolSizeValues(n: nat)
    requires n > 0
    ensures PoolSize(Str(NatToString(n))) == n
  {
    ParseIntOfNatString(n);
  }
}
