/**
 * An app's `Config`: its keys and settings, copied from the app cache entry
 * for its application id. The entry `appCache.get(appId)` returned is the
 * parameter `cacheInfo`; the cache itself is not part of this model.
 */
module ConfigModel {
  import opened Results
  import opened JsString
  import opened JsValue

  /**
   * `removeTrailingSlash(str)`, with `None` for `undefined`: a falsy string
   * gives `undefined`, and one trailing `/` is dropped.
   */
  function RemoveTrailingSlash(str: Option<string>): (r: Option<string>)
    ensures str.None? || str == Some("") ==> r.None?
    ensures str.Some? && str.value != "" && EndsWith(str.value, "/") ==>
      r == Some(str.value[..|str.value| - 1])
    ensures str.Some? && !EndsWith(str.value, "/") && str.value != "" ==> r == str
  {
    match str
    case None => None
    case Some(s) =>
      if s == "" then None
      else if EndsWith(s, "/") then Some(s[..|s| - 1])
      else Some(s)
  }

  /** A slash appended to any string is taken off again, even to the empty string. */
  lemma RemoveTrailingSlashAppended(s: string)
    ensures RemoveTrailingSlash(Some(s + "/")) == Some(s)
  {
    assert (s + "/")[..|s|] == s;
  }

  /**
   * Only one slash goes: the result ends in `/` exactly when the input ended
   * in two, so the function is not idempotent (`'a//'` gives `'a/'`, then `'a'`).
   */
  lemma RemoveTrailingSlashOnce(s: string)
    requires s != ""
    ensures RemoveTrailingSlash(Some(s)).Some? ==>
      (EndsWith(RemoveTrailingSlash(Some(s)).value, "/") <==> EndsWith(s, "//"))
    ensures RemoveTrailingSlash(Some("a//")) == Some("a/") && RemoveTrailingSlash(Some("a/")) == Some("a")
  {
    var r := RemoveTrailingSlash(Some(s));
    if r.Some? && EndsWith(s, "/") {
      var t := r.value;
      assert t == s[..|s| - 1];
      if EndsWith(s, "//") {
        assert t[|t| - 1] == s[|s| - 2];
        assert t[|t| - 1..] == "/";
      }
      if EndsWith(t, "/") {
        assert s[|s| - 2..] == [t[|t| - 1], s[|s| - 1]];
      }
    }
    assert "a//"[..2] == "a/";
    assert "a/"[..1] == "a";
  }

  /** A field of a truthy cache entry. */
  function CacheField(cacheInfo: Value, name: string): Value
    requires Truthy(cacheInfo)
  {
    Member(cacheInfo, name).value
  }

  class Config {
    var applicationId: Value
    var jsonLogs: Value
    var masterKey: Value
    var clientKey: Value
    var javascriptKey: Value
    var dotNetKey: Value
    var restAPIKey: Value
    var webhookKey: Value
    var fileKey: Value
    /** Holds the cache entry's `allowClientClassCreation`, under this name. */
    var allowClientCssCreation: Value
    var userSensitiveFields: Value

    /**
     * `new Config(appId, mount)`: without a cache entry nothing is set (every
     * field stays `undefined`); with one, the id and each cached field are
     * copied. `mount` is not used.
     */
    constructor(appId: string, mount: string, cacheInfo: Value)
      ensures !Truthy(cacheInfo) ==>
        (applicationId == Undefined && jsonLogs == Undefined && masterKey == Undefined && clientKey == Undefined &&
         javascriptKey == Undefined && dotNetKey == Undefined && restAPIKey == Undefined &&
         webhookKey == Undefined && fileKey == Undefined && allowClientCssCreation == Undefined &&
         userSensitiveFields == Undefined)
      ensures Truthy(cacheInfo) ==>
        (applicationId == Str(appId) &&
         jsonLogs == CacheField(cacheInfo, "jsonLogs") &&
         masterKey == CacheField(cacheInfo, "masterKey") &&
         clientKey == CacheField(cacheInfo, "clientKey") &&
         javascriptKey == CacheField(cacheInfo, "javascriptKey") &&
         dotNetKey == CacheField(cacheInfo, "dotNetKey") &&
         restAPIKey == CacheField(cacheInfo, "restAPIKey") &&
         webhookKey == CacheField(cacheInfo, "webhookKey") &&
         fileKey == CacheField(cacheInfo, "fileKey") &&
         allowClientCssCreation == CacheField(cacheInfo, "allowClientClassCreation") &&
         userSensitiveFields == CacheField(cacheInfo, "userSensitiveFields"))
    {
      applicationId := Undefined;
      jsonLogs := Undefined;
      masterKey := Undefined;
      clientKey := Undefined;
      javascriptKey := Undefined;
      dotNetKey := Undefined;
      restAPIKey := Undefined;
      webhookKey := Undefined;
      fileKey := Undefined;
      allowClientCssCreation := Undefined;
      userSensitiveFields := Undefined;
      new;
      if Truthy(cacheInfo) {
        applicationId := Str(appId);
        jsonLogs := CacheField(cacheInfo, "jsonLogs");
        masterKey := CacheField(cacheInfo, "masterKey");
        clientKey := CacheField(cacheInfo, "clientKey");
        javascriptKey := CacheField(cacheInfo, "javascriptKey");
        dotNetKey := CacheField(cacheInfo, "dotNetKey");
        restAPIKey := CacheField(cacheInfo, "restAPIKey");
        webhookKey := CacheField(cacheInfo, "webhookKey");
        fileKey := CacheField(cacheInfo, "fileKey");
        allowClientCssCreation := CacheField(cacheInfo, "allowClientClassCreation");
        userSensitiveFields := CacheField(cacheInfo, "userSensitiveFields");
      }
    }
  }
}
