/**
 * The command-line option parsers. Each takes the raw option value (a
 * string from the command line or the environment, or a value from a
 * config file) and returns the parsed value or throws. `JSON.parse` is a
 * parameter.
 */
module CliParsers {
  import opened Results
  import opened JsString
  import opened JsValue

  function InvalidNumber(key: string, opt: Value): Exception
  {
    Error("Key " + key + " has invalid value " + ToJsString(opt))
  }

  /**
   * `numberParsers(key)(opt)`: `parseInt(opt, 10)`, which reads the string
   * form of `opt`; `NaN` is refused with an error naming the key.
   */
  function NumberParsers(key: string, opt: Value): (r: Result<Value, Exception>)
    ensures r.Ok? <==> ParseInt(ToJsString(opt)).Some?
    ensures r.Ok? ==> r.value == Num(ParseInt(ToJsString(opt)).value)
    ensures r.Err? ==> r.error == InvalidNumber(key, opt)
  {
    match ParseInt(ToJsString(opt))
    case None => Err(InvalidNumber(key, opt))
    case Some(n) => Ok(Num(n))
  }

  /** A number, or the decimal text of one, parses to that number. */
  lemma NumberParsersRoundTrip(key: string, n: int)
    ensures NumberParsers(key, Num(n)) == Ok(Num(n))
    ensures NumberParsers(key, Str(IntToString(n))) == Ok(Num(n))
  {
    NumberParsersOfNumber(key, n);
    NumberParsersOfText(key, n);
  }

  lemma NumberParsersOfNumber(key: string, n: int)
    ensures NumberParsers(key, Num(n)) == Ok(Num(n))
  {
    ParseIntOfIntToString(n);
    assert ToJsString(Num(n)) == IntToString(n);
  }

  lemma NumberParsersOfText(key: string, n: int)
    ensures NumberParsers(key, Str(IntToString(n))) == Ok(Num(n))
  {
    ParseIntOfIntToString(n);
  }

  /** Text without a leading digit (after blanks and a sign) is refused. */
  lemma NumberParsersRefuses(key: string, s: string)
    requires |s| > 0 && !IsJsWhiteSpace(s[0]) && !IsAsciiDigit(s[0]) && s[0] != '-' && s[0] != '+'
    ensures NumberParsers(key, Str(s)) == Err(InvalidNumber(key, Str(s)))
  {
    ParseIntNoDigit(s);
  }

  /**
   * `numberOrBoolParser(key)(opt)`: booleans as they are, `'true'` and
   * `'false'` as booleans, anything else through `numberParsers`.
   */
  function NumberOrBoolParser(key: string, opt: Value): (r: Result<Value, Exception>)
    ensures opt.Bool? ==> r == Ok(opt)
    ensures opt == Str("true") ==> r == Ok(Bool(true))
    ensures opt == Str("false") ==> r == Ok(Bool(false))
    ensures !opt.Bool? && opt != Str("true") && opt != Str("false") ==> r == NumberParsers(key, opt)
  {
    if TypeOf(opt) == "boolean" then Ok(opt)
    else if opt == Str("true") then Ok(Bool(true))
    else if opt == Str("false") then Ok(Bool(false))
    else NumberParsers(key, opt)
  }

  /** The string form of a boolean or an integer parses back to it. */
  lemma NumberOrBoolRoundTrip(key: string, v: Value)
    requires v.Bool? || v.Num?
    ensures NumberOrBoolParser(key, Str(ToJsString(v))) == Ok(v)
  {
    if v.Num? {
      NumberParsersRoundTrip(key, v.n);
      assert IntToString(v.n) != "true" && IntToString(v.n) != "false" by {
        if v.n < 0 { assert IntToString(v.n)[0] == '-'; }
        else { assert IsAsciiDigit(IntToString(v.n)[0]); }
      }
    }
  }

  /** `objectParser(opt)`: objects (including arrays and `null`) as they are, anything else through `JSON.parse`. */
  function ObjectParser(opt: Value, jsonParse: string -> Result<Value, Exception>): (r: Result<Value, Exception>)
    ensures TypeOf(opt) == "object" ==> r == Ok(opt)
    ensures TypeOf(opt) != "object" ==> r == jsonParse(ToJsString(opt))
  {
    if TypeOf(opt) == "object" then Ok(opt) else jsonParse(ToJsString(opt))
  }

  function ArrayShapeError(opt: Value): Exception
  {
    Error(ToJsString(opt) + " should be a comma separated string or any array")
  }

  /** `arrayParser(opt)`: arrays as they are, strings split on `,`, anything else refused. */
  function ArrayParser(opt: Value): (r: Result<Value, Exception>)
    ensures opt.Arr? ==> r == Ok(opt)
    ensures opt.Str? ==>
      (r.Ok? && r.value.Arr? && |r.value.items| == Count(opt.s, ',') + 1 &&
       forall i :: 0 <= i < |r.value.items| ==> r.value.items[i].Str? && ',' !in r.value.items[i].s)
    ensures !opt.Arr? && !opt.Str? ==> r == Err(ArrayShapeError(opt))
  {
    match opt
    case Arr(_) => Ok(opt)
    case Str(s) =>
      var parts := Split(s, ',');
      Ok(Arr(seq(|parts|, i requires 0 <= i < |parts| => Str(parts[i]))))
    case _ => Err(ArrayShapeError(opt))
  }

  /** The strings of the parsed array, joined with `,`, give back the option text. */
  lemma ArrayParserJoin(s: string)
    ensures var items := ArrayParser(Str(s)).value.items;
      Join(seq(|items|, i requires 0 <= i < |items| => items[i].s), ',') == s
  {
    var items := ArrayParser(Str(s)).value.items;
    assert seq(|items|, i requires 0 <= i < |items| => items[i].s) == Split(s, ',');
    JoinSplit(s, ',');
  }

  /** A list of comma-free strings written with `,` parses back to that list. */
  lemma ArrayParserSplit(parts: seq<string>)
    requires |parts| >= 1 && forall i :: 0 <= i < |parts| ==> ',' !in parts[i]
    ensures ArrayParser(Str(Join(parts, ','))) == Ok(Arr(seq(|parts|, i requires 0 <= i < |parts| => Str(parts[i]))))
  {
    SplitJoin(parts, ',');
  }

  /**
   * `moduleOrObjectParaser(opt)`: the `finally` block returns `opt`, which
   * replaces both the parsed value and a parse error: the result is always
   * `opt`.
   */
  function ModuleOrObjectParser(opt: Value, jsonParse: string -> Result<Value, Exception>): (r: Result<Value, Exception>)
    ensures r == Ok(opt)
  {
    if TypeOf(opt) == "object" then Ok(opt)
    else
      var _ := jsonParse(ToJsString(opt));
      Ok(opt)
  }

  /** `booleanParaser(opt)`: true for `true`, `'true'` and `'1'` only. */
  predicate BooleanParser(opt: Value): (r: bool)
    ensures r ==> Truthy(opt)
    ensures opt.Bool? ==> r == opt.b
    ensures opt.Str? && r ==> |opt.s| in {1, 4}
  {
    opt == Bool(true) || opt == Str("true") || opt == Str("1")
  }

  /**
   * The string form of a boolean reads back as that boolean; the number 1,
   * unlike the string `'1'`, reads as false.
   */
  lemma BooleanParserRoundTrip(b: bool)
    ensures BooleanParser(Str(ToJsString(Bool(b)))) == b
    ensures !BooleanParser(Num(1)) && BooleanParser(Str(ToJsString(Num(1))))
  {
    assert ToJsString(Num(1)) == "1";
  }

  /** `nullParser(opt)`: the text `'null'` becomes `undefined`; anything else is left as it is. */
  function NullParser(opt: Value): (r: Value)
    ensures r != opt ==> opt == Str("null")
    ensures r.Undefined? <==> opt.Undefined? || opt == Str("null")
  {
    if opt == Str("null") then Undefined else opt
  }

  /**
   * A `null` written out as text comes back as `undefined`, not `null`; any
   * other text is kept, and parsing twice is parsing once.
   */
  lemma NullParserText(opt: Value, s: string)
    requires s != "null"
    ensures NullParser(Str(ToJsString(Null))) == Undefined && NullParser(Str(s)) == Str(s)
    ensures NullParser(NullParser(opt)) == NullParser(opt)
  {
  }
}
