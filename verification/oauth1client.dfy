/**
 * The OAuth 1.0 client's string work: percent-encoding (section 3.6 of
 * RFC 5849), the normalised parameter string (section 3.4.1.3.2), the
 * signature base string (section 3.4.1.1), the signing key (section 3.4.2),
 * the request path, the shared `oauthParams` object and the nonce.
 * `Math.random()` is a parameter; the HMAC, the headers and the HTTPS
 * request are not part of this model.
 */
module OAuth1ClientModel {
  import opened Results
  import opened JsString
  import opened JsValue
  import Uri
  import CryptoUtils

  // ---------------------------------------------------------------------
  // Percent-encoding

  /** The characters section 2.3 of RFC 3986 calls unreserved: ALPHA, DIGIT, `-`, `.`, `_`, `~`. */
  predicate IsUnreserved(c: char)
  {
    IsAsciiAlnum(c) || c == '-' || c == '.' || c == '_' || c == '~'
  }

  /**
   * The reference encoding of section 3.6 of RFC 5849: unreserved characters
   * stay, every other character becomes the `%XX` escapes of its UTF-8
   * bytes, with upper-case hex digits.
   */
  function Rfc5849Encode(s: string): (r: string)
    ensures forall c :: c in r ==> IsUnreserved(c) || c == '%'
  {
    if |s| == 0 then ""
    else
      var head := if IsUnreserved(s[0]) then [s[0]] else Uri.PercentEncode(s[0]);
      assert forall c :: c in head ==> IsUnreserved(c) || c == '%';
      head + Rfc5849Encode(s[1..])
  }

  /** `s.replace(/c/g, rep)`. */
  function ReplaceAll(s: string, c: char, rep: string): (r: string)
    ensures c !in s ==> r == s
  {
    if |s| == 0 then ""
    else
      assert s == [s[0]] + s[1..];
      (if s[0] == c then rep else [s[0]]) + ReplaceAll(s[1..], c, rep)
  }

  lemma {:induction false} ReplaceAllConcat(a: string, b: string, c: char, rep: string)
    ensures ReplaceAll(a + b, c, rep) == ReplaceAll(a, c, rep) + ReplaceAll(b, c, rep)
  {
    if |a| == 0 {
      assert a + b == b;
    } else {
      assert (a + b)[0] == a[0] && (a + b)[1..] == a[1..] + b;
      ReplaceAllConcat(a[1..], b, c, rep);
    }
  }

  /** The five `replace` calls that escape `!'()*` after `encodeURIComponent`. */
  function EscapeSubDelims(s: string): string
  {
    ReplaceAll(ReplaceAll(ReplaceAll(ReplaceAll(ReplaceAll(s, '!', "%21"), '\'', "%27"), '(', "%28"), ')', "%29"), '*', "%2A")
  }

  lemma EscapeSubDelimsConcat(a: string, b: string)
    ensures EscapeSubDelims(a + b) == EscapeSubDelims(a) + EscapeSubDelims(b)
  {
    var a1, b1 := ReplaceAll(a, '!', "%21"), ReplaceAll(b, '!', "%21");
    var a2, b2 := ReplaceAll(a1, '\'', "%27"), ReplaceAll(b1, '\'', "%27");
    var a3, b3 := ReplaceAll(a2, '(', "%28"), ReplaceAll(b2, '(', "%28");
    var a4, b4 := ReplaceAll(a3, ')', "%29"), ReplaceAll(b3, ')', "%29");
    ReplaceAllConcat(a, b, '!', "%21");
    ReplaceAllConcat(a1, b1, '\'', "%27");
    ReplaceAllConcat(a2, b2, '(', "%28");
    ReplaceAllConcat(a3, b3, ')', "%29");
    ReplaceAllConcat(a4, b4, '*', "%2A");
  }

  lemma ReplaceAllOne(x: char, c: char, rep: string)
    ensures ReplaceAll([x], c, rep) == if x == c then rep else [x]
  {
    assert [x][1..] == "";
  }

  /** A string none of whose characters is one of `!'()*` passes the five replacements unchanged. */
  lemma EscapeSubDelimsAbsent(s: string)
    requires forall c :: c in s ==> c != '!' && c != '\'' && c != '(' && c != ')' && c != '*'
    ensures EscapeSubDelims(s) == s
  {
  }

  /** An ASCII character's escape is one `%XX`. */
  lemma PercentEncodeAscii(c: char)
    requires c as int < 0x80
    ensures Uri.PercentEncode(c) == Uri.PercentByte(c as int)
  {
    assert Uri.Utf8(c) == [c as int];
    assert Uri.PercentBytes([c as int]) == Uri.PercentByte(c as int) + Uri.PercentBytes([]);
  }

  /** The five characters `encodeURIComponent` leaves alone but section 3.6 escapes. */
  predicate IsSubDelim(c: char)
  {
    c == '!' || c == '\'' || c == '(' || c == ')' || c == '*'
  }

  /** The replacements escape each of `!'()*` exactly as section 3.6 does. */
  lemma SubDelimEscape(c: char)
    requires IsSubDelim(c)
    ensures EscapeSubDelims([c]) == Uri.PercentEncode(c)
  {
    if c == '!' { EscapeBang(); }
    else if c == '\'' { EscapeQuote(); }
    else if c == '(' { EscapeOpen(); }
    else if c == ')' { EscapeClose(); }
    else { EscapeStar(); }
  }

  /** None of the five replacements changes a string without `!'()*`. */
  lemma ReplacementsKeep(h: string)
    requires forall i :: 0 <= i < |h| ==> !IsSubDelim(h[i])
    ensures ReplaceAll(h, '!', "%21") == h && ReplaceAll(h, '\'', "%27") == h
    ensures ReplaceAll(h, '(', "%28") == h && ReplaceAll(h, ')', "%29") == h && ReplaceAll(h, '*', "%2A") == h
  {
  }

  lemma EscapeBang()
    ensures EscapeSubDelims(['!']) == Uri.PercentEncode('!')
  {
    assert Uri.PercentEncode('!') == "%21" by {
      PercentEncodeAscii('!');
      assert Uri.PercentByte('!' as int) == "%21";
    }
    ReplaceAllOne('!', '!', "%21");
    ReplacementsKeep("%21");
  }

  lemma EscapeQuote()
    ensures EscapeSubDelims(['\'']) == Uri.PercentEncode('\'')
  {
    assert Uri.PercentEncode('\'') == "%27" by {
      PercentEncodeAscii('\'');
      assert Uri.PercentByte('\'' as int) == "%27";
    }
    ReplaceAllOne('\'', '!', "%21");
    ReplaceAllOne('\'', '\'', "%27");
    ReplacementsKeep("%27");
  }

  lemma EscapeOpen()
    ensures EscapeSubDelims(['(']) == Uri.PercentEncode('(')
  {
    assert Uri.PercentEncode('(') == "%28" by {
      PercentEncodeAscii('(');
      assert Uri.PercentByte('(' as int) == "%28";
    }
    ReplaceAllOne('(', '!', "%21");
    ReplaceAllOne('(', '\'', "%27");
    ReplaceAllOne('(', '(', "%28");
    ReplacementsKeep("%28");
  }

  lemma EscapeClose()
    ensures EscapeSubDelims([')']) == Uri.PercentEncode(')')
  {
    assert Uri.PercentEncode(')') == "%29" by {
      PercentEncodeAscii(')');
      assert Uri.PercentByte(')' as int) == "%29";
    }
    ReplaceAllOne(')', '!', "%21");
    ReplaceAllOne(')', '\'', "%27");
    ReplaceAllOne(')', '(', "%28");
    ReplaceAllOne(')', ')', "%29");
    ReplacementsKeep("%29");
  }

  lemma EscapeStar()
    ensures EscapeSubDelims(['*']) == Uri.PercentEncode('*')
  {
    assert Uri.PercentEncode('*') == "%2A" by {
      PercentEncodeAscii('*');
      assert Uri.PercentByte('*' as int) == "%2A";
    }
    ReplaceAllOne('*', '!', "%21");
    ReplaceAllOne('*', '\'', "%27");
    ReplaceAllOne('*', '(', "%28");
    ReplaceAllOne('*', ')', "%29");
    ReplaceAllOne('*', '*', "%2A");
    ReplacementsKeep("%2A");
  }

  /** One character: `encodeURIComponent` and the replacements together encode it as the reference does. */
  lemma EncodeOneChar(c: char)
    ensures EscapeSubDelims(Uri.EncodeChar(c)) == if IsUnreserved(c) then [c] else Uri.PercentEncode(c)
  {
    if IsSubDelim(c) {
      assert Uri.EncodeChar(c) == [c];
      SubDelimEscape(c);
    } else if IsUnreserved(c) {
      EscapeSubDelimsAbsent([c]);
    } else {
      assert Uri.EncodeChar(c) == Uri.PercentEncode(c);
      EscapeSubDelimsAbsent(Uri.PercentEncode(c));
    }
  }

  /** `encodeURIComponent` followed by the five replacements is the section 3.6 encoding. */
  lemma {:induction false} EncodeIsRfc5849(s: string)
    ensures EscapeSubDelims(Uri.EncodeURIComponent(s)) == Rfc5849Encode(s)
  {
    if |s| == 0 {
      assert EscapeSubDelims("") == "";
    } else {
      EscapeSubDelimsConcat(Uri.EncodeChar(s[0]), Uri.EncodeURIComponent(s[1..]));
      EncodeOneChar(s[0]);
      EncodeIsRfc5849(s[1..]);
    }
  }

  /** `decodeURIComponent` undoes the section 3.6 encoding, for every string. */
  lemma {:induction false} DecodeRfc5849(s: string)
    ensures Uri.DecodeURIComponent(Rfc5849Encode(s)) == Ok(s)
    decreases |s|
  {
    if |s| > 0 {
      var e := Rfc5849Encode(s);
      var tail := Rfc5849Encode(s[1..]);
      assert s == [s[0]] + s[1..];
      DecodeRfc5849(s[1..]);
      if IsUnreserved(s[0]) {
        assert e == [s[0]] + tail;
        assert e[0] == s[0] && s[0] != '%' && e[1..] == tail;
        Uri.DecodePlainStep(e);
      } else {
        var len := 3 * |Uri.Utf8(s[0])|;
        Uri.Utf8Decodes(s[0], tail);
        assert e == Uri.PercentBytes(Uri.Utf8(s[0])) + tail;
        assert e[0] == '%' && e[len..] == tail;
        Uri.DecodeEscapeStep(e, s[0], len);
      }
    }
  }

  /**
   * `encode(str)`: the string form of the value, encoded as section 3.6
   * asks; decoding gives the string form back.
   */
  function Encode(v: Value): (r: string)
    ensures r == Rfc5849Encode(ToJsString(v))
  {
    EncodeIsRfc5849(ToJsString(v));
    EscapeSubDelims(Uri.EncodeURIComponent(ToJsString(v)))
  }

  /** An encoded value holds none of the delimiters the strings built from it rely on. */
  lemma EncodeHasNoDelimiters(v: Value)
    ensures '&' !in Encode(v) && '=' !in Encode(v) && '?' !in Encode(v)
  {
    NoDelimiters(Encode(v));
  }

  lemma NoDelimiters(r: string)
    requires forall c :: c in r ==> IsUnreserved(c) || c == '%'
    ensures '&' !in r && '=' !in r && '?' !in r
  {
    assert !IsUnreserved('&') && !IsUnreserved('=') && !IsUnreserved('?');
  }

  /** Decoding an encoded value gives back its string form. */
  lemma EncodeRoundTrip(v: Value)
    ensures Uri.DecodeURIComponent(Encode(v)) == Ok(ToJsString(v))
  {
    DecodeRfc5849(ToJsString(v));
  }

  // ---------------------------------------------------------------------
  // Parameter string, signature base string, signing key

  /** One `key=encode(value)` pair; the key goes in as it is. */
  function Pair(obj: Value, key: string): string
    requires !obj.Undefined? && !obj.Null?
  {
    key + "=" + Encode(Member(obj, key).value)
  }

  /**
   * `buildParameterString(obj)`: the pairs of the own keys in ascending
   * order, joined by `&`; `Object.keys` throws on `null` and `undefined`.
   */
  function BuildParameterString(obj: Value): (r: Result<string, Exception>)
    ensures r.Err? <==> obj.Undefined? || obj.Null?
    ensures obj == Obj([]) ==> r == Ok("")
  {
    match ObjectKeys(obj)
    case Err(e) => Err(e)
    case Ok(keys) =>
      Ok(Join(Pairs(obj, SortStrings(keys)), '&'))
  }

  /** The pair of each key, in the order of `keys`. */
  function Pairs(obj: Value, keys: seq<string>): (r: seq<string>)
    requires !obj.Undefined? && !obj.Null?
    ensures |r| == |keys| && forall i :: 0 <= i < |keys| ==> r[i] == Pair(obj, keys[i])
  {
    seq(|keys|, i requires 0 <= i < |keys| => Pair(obj, keys[i]))
  }

  /** Two objects that read the same under every key give the same pairs. */
  lemma PairsSameValues(a: Props, b: Props, keys: seq<string>)
    requires forall k :: Lookup(a, k) == Lookup(b, k)
    ensures Pairs(Obj(a), keys) == Pairs(Obj(b), keys)
  {
    forall i | 0 <= i < |keys| ensures Pair(Obj(a), keys[i]) == Pair(Obj(b), keys[i]) {
      assert Member(Obj(a), keys[i]).value == Member(Obj(b), keys[i]).value;
    }
  }

  /**
   * The parameter string depends on the object's keys and values only, not
   * on the order its properties were added in.
   */
  lemma ParameterStringCanonical(a: Props, b: Props)
    requires multiset(KeysOf(a)) == multiset(KeysOf(b))
    requires forall k :: Lookup(a, k) == Lookup(b, k)
    ensures BuildParameterString(Obj(a)) == BuildParameterString(Obj(b))
  {
    SortStringsCanonical(KeysOf(a), KeysOf(b));
    var sorted := SortStrings(KeysOf(a));
    PairsSameValues(a, b, sorted);
    assert BuildParameterString(Obj(a)) == Ok(Join(Pairs(Obj(a), sorted), '&'));
    assert BuildParameterString(Obj(b)) == Ok(Join(Pairs(Obj(b), sorted), '&'));
  }

  lemma SortedMember(keys: seq<string>, i: nat)
    requires i < |SortStrings(keys)|
    ensures SortStrings(keys)[i] in keys
  {
    assert SortStrings(keys)[i] in multiset(SortStrings(keys));
  }

  /**
   * When no key holds `&` or `=`, the parameter string splits back into
   * one `key=value` pair per key, keys in ascending order, each value
   * decoding to the string form of the property.
   */
  lemma ParameterStringParts(props: Props)
    requires |props| > 0
    requires forall i :: 0 <= i < |props| ==> '&' !in props[i].key && '=' !in props[i].key
    ensures var parts := Split(BuildParameterString(Obj(props)).value, '&');
      var keys := SortStrings(KeysOf(props));
      IsSorted(keys) && |parts| == |keys| &&
      forall i :: 0 <= i < |parts| ==>
        Split(parts[i], '=') == [keys[i], Encode(Lookup(props, keys[i]))] &&
        Uri.DecodeURIComponent(Split(parts[i], '=')[1]) == Ok(ToJsString(Lookup(props, keys[i])))
  {
    var obj := Obj(props);
    var keys := SortStrings(KeysOf(props));
    var pairs := Pairs(obj, keys);
    forall i | 0 <= i < |keys|
      ensures '&' !in pairs[i]
      ensures Split(pairs[i], '=') == [keys[i], Encode(Lookup(props, keys[i]))]
      ensures Uri.DecodeURIComponent(Encode(Lookup(props, keys[i]))) == Ok(ToJsString(Lookup(props, keys[i])))
    {
      SortedMember(KeysOf(props), i);
      var j :| 0 <= j < |props| && KeysOf(props)[j] == keys[i];
      PairSplits(props, keys[i]);
      EncodeRoundTrip(Lookup(props, keys[i]));
    }
    SplitJoin(pairs, '&');
    assert BuildParameterString(obj).value == Join(pairs, '&');
  }

  /** A pair whose key holds neither delimiter splits at its `=` into the key and the encoded value. */
  lemma PairSplits(props: Props, key: string)
    requires '&' !in key && '=' !in key
    ensures '&' !in Pair(Obj(props), key)
    ensures Split(Pair(Obj(props), key), '=') == [key, Encode(Lookup(props, key))]
  {
    var e := Encode(Lookup(props, key));
    EncodeHasNoDelimiters(Lookup(props, key));
    assert Pair(Obj(props), key) == key + "=" + e;
    KeyValueSplit(key, e);
  }

  /** `key=value` with no `=` in either part splits back into the two, and has no `&` unless they do. */
  lemma KeyValueSplit(key: string, value: string)
    requires '=' !in key && '=' !in value
    ensures Split(key + "=" + value, '=') == [key, value]
    ensures '&' !in key && '&' !in value ==> '&' !in key + "=" + value
  {
    assert key + "=" + value == key + ['='] + value;
    SplitAfterPiece(key, '=', value);
    SplitNoSep(value, '=');
  }

  /** `buildSignatureString(method, url, parameters)`: `method & encode(url) & encode(parameters)`. */
  function BuildSignatureString(httpMethod: string, url: string, parameters: string): (r: string)
    ensures '&' !in httpMethod ==> Split(r, '&') == [httpMethod, Encode(Str(url)), Encode(Str(parameters))]
  {
    var parts := [httpMethod, Encode(Str(url)), Encode(Str(parameters))];
    assert '&' !in httpMethod ==> Split(Join(parts, '&'), '&') == parts by {
      if '&' !in httpMethod {
        EncodeHasNoDelimiters(Str(url));
        EncodeHasNoDelimiters(Str(parameters));
        SplitJoin(parts, '&');
      }
    }
    Join(parts, '&')
  }

  /** The three parts of a base string are recoverable: the method, and the url and parameters decoded. */
  lemma SignatureStringRoundTrip(httpMethod: string, url: string, parameters: string)
    requires '&' !in httpMethod
    ensures var parts := Split(BuildSignatureString(httpMethod, url, parameters), '&');
      |parts| == 3 && parts[0] == httpMethod &&
      Uri.DecodeURIComponent(parts[1]) == Ok(url) && Uri.DecodeURIComponent(parts[2]) == Ok(parameters)
  {
    EncodeRoundTrip(Str(url));
    EncodeRoundTrip(Str(parameters));
  }

  /**
   * The signing key of `signRequest`: `encode(consumerSecret) & encode(authTokenSecret)`,
   * an `undefined` token secret taking its default `''`. Its one caller passes
   * the consumer key and the token into these two parameters.
   */
  function SigningKey(consumerSecret: Value, authTokenSecret: Value): (r: string)
    ensures var parts := Split(r, '&');
      |parts| == 2 &&
      Uri.DecodeURIComponent(parts[0]) == Ok(ToJsString(consumerSecret)) &&
      Uri.DecodeURIComponent(parts[1]) == Ok(if authTokenSecret.Undefined? then "" else ToJsString(authTokenSecret))
    ensures authTokenSecret.Undefined? ==> r == Encode(consumerSecret) + "&"
  {
    var secret := if authTokenSecret.Undefined? then Str("") else authTokenSecret;
    EncodeHasNoDelimiters(consumerSecret);
    EncodeHasNoDelimiters(secret);
    TwoPartsSplit(Encode(consumerSecret), Encode(secret));
    EncodeRoundTrip(consumerSecret);
    EncodeRoundTrip(secret);
    assert Encode(Str("")) == "";
    Join([Encode(consumerSecret), Encode(secret)], '&')
  }

  lemma TwoPartsSplit(x: string, y: string)
    requires '&' !in x && '&' !in y
    ensures Split(Join([x, y], '&'), '&') == [x, y]
    ensures y == "" ==> Join([x, y], '&') == x + "&"
  {
    SplitJoin([x, y], '&');
    assert [x, y][1..] == [y];
  }

  // ---------------------------------------------------------------------
  // Request path

  /** `path`, with a `/` put in front unless `path.indexOf('/')` is 0. */
  function RootedPath(path: string): (r: string)
    ensures |r| > 0 && r[0] == '/'
    ensures |path| > 0 && path[0] == '/' ==> r == path
    ensures (|path| == 0 || path[0] != '/') ==> r == "/" + path
  {
    if IndexOf(path, '/') != Some(0) then "/" + path else path
  }

  /** `params && Object.keys(params).length > 0`. */
  predicate HasParams(params: Value)
  {
    Truthy(params) && |ObjectKeys(params).value| > 0
  }

  /** The `path` of the request `buildRequest` assembles. */
  function RequestPath(path: string, params: Value): (r: string)
    ensures !HasParams(params) ==> r == RootedPath(path)
    ensures HasParams(params) ==> r == RootedPath(path) + "?" + BuildParameterString(params).value
  {
    if HasParams(params) then RootedPath(path) + "?" + BuildParameterString(params).value
    else RootedPath(path)
  }

  /**
   * For a path without `?`, the first `?` of the request path separates the
   * rooted path from the parameter string; with no parameters there is none.
   */
  lemma {:induction false} RequestPathQuery(path: string, params: Value)
    requires '?' !in path
    ensures var r := RequestPath(path, params);
      if HasParams(params) then
        IndexOf(r, '?') == Some(|RootedPath(path)|) &&
        r[..|RootedPath(path)|] == RootedPath(path) &&
        r[|RootedPath(path)| + 1..] == BuildParameterString(params).value
      else IndexOf(r, '?') == None
  {
    var rooted := RootedPath(path);
    assert '?' !in rooted by {
      if rooted != path { assert rooted == "/" + path; }
    }
    if HasParams(params) {
      QueryAfterPath(rooted, BuildParameterString(params).value);
    }
  }

  /** In `path ? query` with no `?` in `path`, the first `?` is the one after `path`. */
  lemma QueryAfterPath(path: string, query: string)
    requires '?' !in path
    ensures var r := path + "?" + query;
      IndexOf(r, '?') == Some(|path|) && r[..|path|] == path && r[|path| + 1..] == query
  {
    var r := path + "?" + query;
    IndexOfAfter(path, '?', query);
    assert r[..|path|] == path;
    assert r[|path| + 1..] == query;
  }

  // ---------------------------------------------------------------------
  // The client

  /** A JavaScript object that several holders share by reference. */
  class JsObject {
    var props: Props

    constructor(props: Props)
      ensures this.props == props
    {
      this.props := props;
    }
  }

  /** The `oauthParams` properties after one `buildRequest`. */
  function ParamsAfterBuild(props: Props, consumerKey: Value, authToken: Value): (r: Props)
    ensures Lookup(r, "oauth_consumer_key") == consumerKey
    ensures Lookup(r, "oauth_token") == if Truthy(authToken) then authToken else Lookup(props, "oauth_token")
    ensures forall k :: k != "oauth_consumer_key" && k != "oauth_token" ==> Lookup(r, k) == Lookup(props, k)
  {
    var withKey := Assign(props, "oauth_consumer_key", consumerKey);
    if Truthy(authToken) then Assign(withKey, "oauth_token", authToken) else withKey
  }

  /** A second `buildRequest` with the same credentials leaves the shared object as the first left it. */
  lemma ParamsAfterBuildIdempotent(props: Props, consumerKey: Value, authToken: Value)
    ensures ParamsAfterBuild(ParamsAfterBuild(props, consumerKey, authToken), consumerKey, authToken) ==
            ParamsAfterBuild(props, consumerKey, authToken)
  {
    var withKey := Assign(props, "oauth_consumer_key", consumerKey);
    AssignIdempotent(props, "oauth_consumer_key", consumerKey);
    if Truthy(authToken) {
      var both := Assign(withKey, "oauth_token", authToken);
      // re-assigning the consumer key finds it already in place
      assert "oauth_consumer_key" in KeySet(both);
      AssignKeep(both, "oauth_consumer_key", consumerKey);
      AssignIdempotent(withKey, "oauth_token", authToken);
    }
  }

  /** Assigning a property the value it already holds changes nothing. */
  lemma {:induction false} AssignKeep(props: Props, k: string, v: Value)
    requires k in KeySet(props) && Lookup(props, k) == v
    ensures Assign(props, k, v) == props
  {
    if props[0].key != k {
      AssignKeep(props[1..], k, v);
      assert props == [props[0]] + props[1..];
    } else {
      assert props == [Entry(k, v)] + props[1..];
    }
  }

  /** What `signRequest` throws: its line collecting the parameters names an undeclared variable. */
  const SignRequestError: Exception := ReferenceError("oauthParameters is not defined")

  class OAuth {
    const consumerKey: Value
    const consumerSecret: Value
    const authToken: Value
    const authTokenSecret: Value
    const host: Value
    /** Shared with whoever passed it in as `oauth_params`. */
    const oauthParams: JsObject

    /** `new OAuth(options)`; a missing (`null`) `oauth_params` gives a fresh empty object. */
    constructor(consumerKey: Value, consumerSecret: Value, authToken: Value, authTokenSecret: Value,
                host: Value, oauthParams: JsObject?)
      ensures this.consumerKey == consumerKey && this.consumerSecret == consumerSecret
      ensures this.authToken == authToken && this.authTokenSecret == authTokenSecret && this.host == host
      ensures oauthParams != null ==> this.oauthParams == oauthParams
      ensures oauthParams == null ==> fresh(this.oauthParams) && this.oauthParams.props == []
    {
      this.consumerKey := consumerKey;
      this.consumerSecret := consumerSecret;
      this.authToken := authToken;
      this.authTokenSecret := authTokenSecret;
      this.host := host;
      if oauthParams != null {
        this.oauthParams := oauthParams;
      } else {
        this.oauthParams := new JsObject([]);
      }
    }

    /**
     * `buildRequest(method, path, params, body)`: writes the consumer key,
     * and the token when set, into the shared `oauthParams`, then calls
     * `signRequest`, which throws.
     */
    method BuildRequest(httpMethod: string, path: string, params: Value, body: Value)
      returns (requestPath: string, r: Result<Value, Exception>)
      modifies oauthParams
      ensures requestPath == RequestPath(path, params)
      ensures oauthParams.props == ParamsAfterBuild(old(oauthParams.props), consumerKey, authToken)
      ensures r == Err(SignRequestError)
    {
      requestPath := path;
      if IndexOf(requestPath, '/') != Some(0) {
        requestPath := "/" + requestPath;
      }
      if Truthy(params) && |ObjectKeys(params).value| > 0 {
        requestPath := requestPath + "?" + BuildParameterString(params).value;
      }
      oauthParams.props := Assign(oauthParams.props, "oauth_consumer_key", consumerKey);
      if Truthy(authToken) {
        oauthParams.props := Assign(oauthParams.props, "oauth_token", authToken);
      }
      r := Err(SignRequestError);
    }

    /** `nonce()`: 30 characters, the `i`th picked by `Math.floor(randoms[i] * 62)`. */
    static method Nonce(randoms: seq<real>) returns (text: string)
      requires |randoms| == 30 && forall i :: 0 <= i < 30 ==> 0.0 <= randoms[i] < 1.0
      ensures |text| == 30
      ensures forall i :: 0 <= i < 30 ==>
        (0 <= (randoms[i] * 62.0).Floor < 62 && text[i] == CryptoUtils.Alphabet[(randoms[i] * 62.0).Floor])
      ensures forall i :: 0 <= i < 30 ==> IsAsciiAlnum(text[i])
    {
      CryptoUtils.AlphabetIsAlnum();
      text := "";
      var i := 0;
      while i < 30
        invariant 0 <= i <= 30 && |text| == i
        invariant forall j :: 0 <= j < i ==>
          (0 <= (randoms[j] * 62.0).Floor < 62 && text[j] == CryptoUtils.Alphabet[(randoms[j] * 62.0).Floor])
      {
        var index := (randoms[i] * 62.0).Floor;
        text := text + [CryptoUtils.Alphabet[index]];
        i := i + 1;
      }
    }
  }
}
