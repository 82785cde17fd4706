/** The live-query object identifier: a class name and an object id written as `className:objectId`. */
module LiveQueryId {
  import opened Results
  import opened JsString
  import opened JsValue

  datatype Id = Id(className: string, objectId: string)

  /** `toString()`: the two parts around one `:`. */
  function ToString(id: Id): (s: string)
    ensures |s| == |id.className| + 1 + |id.objectId|
    ensures s[..|id.className|] == id.className && s[|id.className|] == ':'
    ensures s[|id.className| + 1..] == id.objectId
  {
    id.className + ":" + id.objectId
  }

  /** `Id.fromString(s)`: accepted exactly when splitting on `:` gives two parts. */
  function FromString(s: string): (r: Result<Id, Exception>)
    ensures r.Ok? <==> Count(s, ':') == 1
    ensures r.Err? ==> r.error == TypeError("Cannot create Id object from this string")
  {
    var split := Split(s, ':');
    if |split| != 2 then Err(TypeError("Cannot create Id object from this string"))
    else Ok(Id(split[0], split[1]))
  }

  /** Any string with exactly one `:` is printed back unchanged. */
  lemma FromStringToString(s: string)
    requires Count(s, ':') == 1
    ensures FromString(s).Ok? && ToString(FromString(s).value) == s
  {
    var split := Split(s, ':');
    JoinSplit(s, ':');
    assert Join(split, ':') == split[0] + [':'] + Join(split[1..], ':');
    assert Join(split[1..], ':') == split[1];
  }

  /** Names without `:` survive printing and parsing. */
  lemma ToStringFromString(id: Id)
    requires ':' !in id.className && ':' !in id.objectId
    ensures FromString(ToString(id)) == Ok(id)
  {
    SplitAfterPiece(id.className, ':', id.objectId);
    SplitNoSep(id.objectId, ':');
    assert ToString(id) == id.className + [':'] + id.objectId;
  }

  /** Only the number of parts is checked: empty parts are accepted. */
  lemma EmptyPartsAccepted()
    ensures FromString(":") == Ok(Id("", ""))
  {
    SplitAfterPiece("", ':', "");
    SplitNoSep("", ':');
    assert ":" == "" + [':'] + "";
  }
}
