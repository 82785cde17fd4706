/**
 * One live-query connection: its subscription table (request id to
 * subscription info) and the protocol messages it pushes to its socket.
 * Record payloads are projected onto the default fields plus the fields the
 * subscription asked for.
 */
module LiveQueryClient {
  import opened Results
  import opened JsString
  import opened JsValue

  /** The fields every projection keeps, spelled as the protocol code spells them. */
  const DefaultFields: seq<string> := ["className", "objectId", "updateAt", "createAt", "ACL"]

  /** The eight events a client pushes. */
  datatype EventKind = Connected | Subscribed | Unsubscribed | Create | Enter | Update | Delete | Leave

  function OpName(kind: EventKind): string
  {
    match kind
    case Connected => "connected"
    case Subscribed => "subscribed"
    case Unsubscribed => "unsubscribed"
    case Create => "create"
    case Enter => "enter"
    case Update => "update"
    case Delete => "delete"
    case Leave => "leave"
  }

  /** What the socket's `send` receives: the JSON text of a message object. */
  datatype Frame = Stringified(message: Value)

  /** The socket: the frames sent to it, in order. */
  class Socket {
    var sent: seq<Frame>

    constructor()
      ensures sent == []
    {
      sent := [];
    }
  }

  /** The keys a `for ... of` over `fields` visits; only arrays and strings are iterable here. */
  function FieldKeys(fields: Value): (r: Result<seq<string>, Exception>)
    ensures r.Ok? <==> fields.Arr? || fields.Str?
    ensures fields.Arr? ==> r.value == seq(|fields.items|, i requires 0 <= i < |fields.items| => ToJsString(fields.items[i]))
  {
    match fields
    case Arr(items) => Ok(seq(|items|, i requires 0 <= i < |items| => ToJsString(items[i])))
    case Str(s) => Ok(seq(|s|, i requires 0 <= i < |s| => [s[i]]))
    case _ => Err(TypeError("fields is not iterable"))
  }

  /** Copies `record[k]` into `acc` for each key in turn. */
  function CopyFields(acc: Props, record: Value, keys: seq<string>): Result<Props, Exception>
    decreases |keys|
  {
    if |keys| == 0 then Ok(acc)
    else match Member(record, keys[0])
      case Err(e) => Err(e)
      case Ok(v) => CopyFields(SetProperty(acc, keys[0], v), record, keys[1..])
  }

  lemma {:induction false} CopyFieldsSpec(acc: Props, record: Value, keys: seq<string>)
    ensures CopyFields(acc, record, keys).Err? <==> |keys| > 0 && (record.Undefined? || record.Null?)
    ensures CopyFields(acc, record, keys).Ok? ==>
      var r := CopyFields(acc, record, keys).value;
      KeySet(r) == KeySet(acc) + (set k | k in keys && Settable(acc, k)) &&
      forall k :: Lookup(r, k) == if k in keys && Settable(acc, k) then Member(record, k).value else Lookup(acc, k)
    decreases |keys|
  {
    if |keys| > 0 {
      var m := Member(record, keys[0]);
      if m.Ok? {
        var acc' := SetProperty(acc, keys[0], m.value);
        CopyFieldsSpec(acc', record, keys[1..]);
        assert forall k :: Settable(acc', k) == Settable(acc, k);
        assert forall k :: k in keys <==> k == keys[0] || k in keys[1..];
      }
    }
  }

  /** `_toJSONWithFields`: the record itself without fields, else a fresh object of the chosen fields. */
  function Projection(record: Value, fields: Value): Result<Value, Exception>
  {
    if !Truthy(fields) then Ok(record)
    else match CopyFields([], record, DefaultFields)
      case Err(e) => Err(e)
      case Ok(acc) =>
        match FieldKeys(fields)
        case Err(e) => Err(e)
        case Ok(keys) =>
          match CopyFields(acc, record, keys)
          case Err(e) => Err(e)
          case Ok(r) => Ok(Obj(r))
  }

  /**
   * With no fields the record goes out unchanged; with fields the result has
   * exactly the default fields and the requested ones, each holding the
   * record's value (`undefined` when the record lacks it). A requested
   * `__proto__` reaches the fresh object's inherited accessor and adds no
   * property.
   */
  lemma ProjectionSpec(record: Value, fields: Value)
    ensures !Truthy(fields) ==> Projection(record, fields) == Ok(record)
    ensures Truthy(fields) ==>
      (Projection(record, fields).Err? <==> record.Undefined? || record.Null? || FieldKeys(fields).Err?)
    ensures Truthy(fields) && Projection(record, fields).Ok? ==>
      var keys := FieldKeys(fields).value;
      var p := Projection(record, fields).value;
      p.Obj? &&
      KeySet(p.props) == (set k | k in DefaultFields) + (set k | k in keys && k != "__proto__") &&
      forall k :: (k in DefaultFields || (k in keys && k != "__proto__")) ==> Lookup(p.props, k) == Member(record, k).value
  {
    if Truthy(fields) {
      if record.Undefined? || record.Null? {
        CopyFieldsSpec([], record, DefaultFields);
      } else if FieldKeys(fields).Err? {
        CopyFromEmpty(record, DefaultFields);
      } else {
        ProjectionChosen(record, fields);
      }
    }
  }

  /** From a record with members, every listed field is copied, under exactly those keys. */
  lemma CopyFromEmpty(record: Value, keys: seq<string>)
    requires !record.Undefined? && !record.Null?
    ensures CopyFields([], record, keys).Ok?
    ensures KeySet(CopyFields([], record, keys).value) == set k | k in keys && k != "__proto__"
    ensures forall k :: k in keys && k != "__proto__" ==> Lookup(CopyFields([], record, keys).value, k) == Member(record, k).value
  {
    CopyFieldsSpec([], record, keys);
  }

  lemma ProjectionChosen(record: Value, fields: Value)
    requires Truthy(fields) && !record.Undefined? && !record.Null? && FieldKeys(fields).Ok?
    ensures Projection(record, fields).Ok?
    ensures var keys := FieldKeys(fields).value;
      var p := Projection(record, fields).value;
      p.Obj? &&
      KeySet(p.props) == (set k | k in DefaultFields) + (set k | k in keys && k != "__proto__") &&
      forall k :: (k in DefaultFields || (k in keys && k != "__proto__")) ==> Lookup(p.props, k) == Member(record, k).value
  {
    CopyFromEmpty(record, DefaultFields);
    var acc := CopyFields([], record, DefaultFields).value;
    var keys := FieldKeys(fields).value;
    ProtoNotDefault();
    assert KeySet(acc) == set k | k in DefaultFields;
    CopyOntoFresh(acc, record, keys);
    assert Projection(record, fields) == Ok(Obj(CopyFields(acc, record, keys).value));
  }

  /** No default field is `__proto__`. */
  lemma ProtoNotDefault()
    ensures "__proto__" !in DefaultFields
  {
    forall i | 0 <= i < |DefaultFields|
      ensures DefaultFields[i] != "__proto__"
    {
      assert DefaultFields[i][0] != '_';
    }
  }

  /** Copying onto an object without an own `__proto__` sets every other listed key. */
  lemma CopyOntoFresh(acc: Props, record: Value, keys: seq<string>)
    requires "__proto__" !in KeySet(acc) && !record.Undefined? && !record.Null?
    ensures CopyFields(acc, record, keys).Ok?
    ensures var r := CopyFields(acc, record, keys).value;
      KeySet(r) == KeySet(acc) + (set k | k in keys && k != "__proto__") &&
      forall k :: Lookup(r, k) == if k in keys && k != "__proto__" then Member(record, k).value else Lookup(acc, k)
  {
    assert forall k :: Settable(acc, k) == (k != "__proto__");
    CopyFieldsSpec(acc, record, keys);
  }

  /** The `fields` of the subscription info stored under the request id, if there is one. */
  function FieldsFor(infos: map<int, Value>, requestId: Option<int>): Result<Value, Exception>
  {
    if requestId.Some? && requestId.value in infos then Member(infos[requestId.value], "fields")
    else Ok(Undefined)
  }

  /** The `op`, `clientId` and optional `requestId` every event message starts with. */
  function Header(clientId: int, kind: EventKind, requestId: Option<int>): (h: Props)
    ensures Lookup(h, "op") == Str(OpName(kind)) && Lookup(h, "clientId") == Num(clientId)
    ensures "requestId" in KeySet(h) <==> requestId.Some?
    ensures requestId.Some? ==> Lookup(h, "requestId") == Num(requestId.value)
    ensures "object" !in KeySet(h)
  {
    var base := [Entry("op", Str(OpName(kind))), Entry("clientId", Num(clientId))];
    assert KeySet(base) == {"op", "clientId"} by {
      assert base[1..][1..] == [];
      assert KeySet(base[1..]) == {"clientId"};
    }
    if requestId.Some? then Assign(base, "requestId", Num(requestId.value)) else base
  }

  /** The message one of the `push*` callbacks builds, or what it throws. */
  function EventResponse(clientId: int, infos: map<int, Value>, kind: EventKind,
                         requestId: Option<int>, record: Value): Result<Value, Exception>
  {
    var withId := Header(clientId, kind, requestId);
    if record.Undefined? then Ok(Obj(withId))
    else match FieldsFor(infos, requestId)
      case Err(e) => Err(e)
      case Ok(fields) =>
        match Projection(record, fields)
        case Err(e) => Err(e)
        case Ok(o) => Ok(Obj(Assign(withId, "object", o)))
  }

  /**
   * Every event message carries the event name and the client id;
   * `requestId` is there exactly when one was given, and `object` exactly
   * when a record was given, projected on the fields stored for that request.
   */
  lemma EventResponseSpec(clientId: int, infos: map<int, Value>, kind: EventKind,
                          requestId: Option<int>, record: Value)
    ensures record.Undefined? ==> EventResponse(clientId, infos, kind, requestId, record).Ok?
    ensures EventResponse(clientId, infos, kind, requestId, record).Err? <==>
      !record.Undefined? &&
      (FieldsFor(infos, requestId).Err? || Projection(record, FieldsFor(infos, requestId).value).Err?)
    ensures EventResponse(clientId, infos, kind, requestId, record).Ok? ==>
      var m := EventResponse(clientId, infos, kind, requestId, record).value;
      m.Obj? &&
      Lookup(m.props, "op") == Str(OpName(kind)) &&
      Lookup(m.props, "clientId") == Num(clientId) &&
      ("requestId" in KeySet(m.props) <==> requestId.Some?) &&
      (requestId.Some? ==> Lookup(m.props, "requestId") == Num(requestId.value)) &&
      ("object" in KeySet(m.props) <==> !record.Undefined?) &&
      (!record.Undefined? ==> Lookup(m.props, "object") == Projection(record, FieldsFor(infos, requestId).value).value)
  {
  }

  /** Without stored info for the request, the record is sent whole. */
  lemma NoInfoSendsRecord(clientId: int, infos: map<int, Value>, kind: EventKind,
                          requestId: Option<int>, record: Value)
    requires requestId.None? || requestId.value !in infos
    requires !record.Undefined?
    ensures EventResponse(clientId, infos, kind, requestId, record).Ok?
    ensures Lookup(EventResponse(clientId, infos, kind, requestId, record).value.props, "object") == record
  {
    EventResponseSpec(clientId, infos, kind, requestId, record);
    ProjectionSpec(record, Undefined);
  }

  /** The error message `pushError` sends. */
  function ErrorMessage(code: int, error: string, reconnect: bool): (m: Value)
    ensures m.Obj? && KeysOf(m.props) == ["op", "error", "code", "reconnect"]
  {
    Obj([Entry("op", Str("error")), Entry("error", Str(error)), Entry("code", Num(code)),
         Entry("reconnect", Bool(reconnect))])
  }

  class Client {
    const id: int
    const socket: Socket
    var roles: seq<string>
    var subscriptionInfos: map<int, Value>

    constructor(id: int, socket: Socket)
      ensures this.id == id && this.socket == socket
      ensures roles == [] && subscriptionInfos == map[]
    {
      this.id := id;
      this.socket := socket;
      roles := [];
      subscriptionInfos := map[];
    }

    /** `pushResponse`: hands one frame to the socket. */
    static method PushResponse(socket: Socket, message: Frame)
      modifies socket
      ensures socket.sent == old(socket.sent) + [message]
    {
      socket.sent := socket.sent + [message];
    }

    /** `pushError`: one `error` message; `reconnect` defaults to true. */
    static method PushError(socket: Socket, code: int, error: string, reconnect: bool := true)
      modifies socket
      ensures socket.sent == old(socket.sent) + [Stringified(ErrorMessage(code, error, reconnect))]
    {
      PushResponse(socket, Stringified(ErrorMessage(code, error, reconnect)));
    }

    /** `subscriptionInfos.get(requestId)`. */
    function GetSubscriptionInfo(requestId: int): (info: Value)
      reads this
      ensures requestId !in subscriptionInfos ==> info == Undefined
    {
      if requestId in subscriptionInfos then subscriptionInfos[requestId] else Undefined
    }

    method AddSubscriptionInfo(requestId: int, info: Value)
      modifies this
      ensures subscriptionInfos == old(subscriptionInfos)[requestId := info]
      ensures GetSubscriptionInfo(requestId) == info
      ensures forall r :: r != requestId ==> GetSubscriptionInfo(r) == old(GetSubscriptionInfo(r))
      ensures roles == old(roles)
    {
      subscriptionInfos := subscriptionInfos[requestId := info];
    }

    /** Removes the entry; the result says whether there was one. */
    method DeleteSubscriptionInfo(requestId: int) returns (existed: bool)
      modifies this
      ensures existed <==> requestId in old(subscriptionInfos)
      ensures subscriptionInfos == old(subscriptionInfos) - {requestId}
      ensures GetSubscriptionInfo(requestId) == Undefined
      ensures roles == old(roles)
    {
      existed := requestId in subscriptionInfos;
      subscriptionInfos := subscriptionInfos - {requestId};
    }

    /**
     * The `push*` callbacks (`pushConnect` ... `pushLeave`): build the event
     * message and send it, or throw and send nothing.
     */
    method PushEvent(kind: EventKind, requestId: Option<int>, record: Value) returns (r: Result<(), Exception>)
      modifies socket
      ensures var m := EventResponse(id, subscriptionInfos, kind, requestId, record);
        (r.Ok? <==> m.Ok?) &&
        (m.Ok? ==> socket.sent == old(socket.sent) + [Stringified(m.value)]) &&
        (m.Err? ==> r == Err(m.error) && socket.sent == old(socket.sent))
    {
      var m := EventResponse(id, subscriptionInfos, kind, requestId, record);
      if m.Err? {
        return Err(m.error);
      }
      PushResponse(socket, Stringified(m.value));
      r := Ok(());
    }
  }
}
