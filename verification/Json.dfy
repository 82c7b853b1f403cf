/** JSON documents as trees, and the field accessors that encoding/json gives a Go struct: a missing
    or null field leaves the zero value, a field of another kind is an error. */
module Json {
  import opened Types

  /** The object keys that the router configuration uses; any other key is kept by its name. */
  datatype Key =
    | Id | Mode | Metadata | Name | CertFile | PrivateKeyFile | CaCertFile | Role | Host | Port
    | RouteContainer | Http | Cost | SslProfile | SaslMechanisms | AuthenticatePeer | LinkCapacity
    | HttpRootDir | Websockets | Healthz | Metrics | VerifyHostname | Prefix | Distribution | Address
    | SiteId | ProtocolVersion | Aggregation | EventChannel | HostOverride
    | Other(name: string)

  datatype Json =
    | Null
    | Bool(b: bool)
    | Number(n: real)
    | String(s: string)
    | Array(elements: seq<Json>)
    | Object(fields: map<Key, Json>)

  type int32 = i: int | -0x8000_0000 <= i < 0x8000_0000

  type Fields = map<Key, Json>

  /** `omitempty`: the zero value of a field is not written. */
  predicate IsZero(v: Json) {
    match v
    case Null => true
    case Bool(b) => !b
    case Number(n) => n == 0.0
    case String(s) => s == ""
    case Array(elements) => elements == []
    case Object(_) => false
  }

  /** A struct's fields as written: all but the zero values of those marked `omitempty`. */
  function Written(fields: Fields, always: set<Key>): (written: Fields)
    ensures forall k :: k in written <==> k in fields && (k in always || !IsZero(fields[k]))
    ensures forall k :: k in written ==> written[k] == fields[k]
  {
    map k | k in fields && (k in always || !IsZero(fields[k])) :: fields[k]
  }

  function FieldsOf(json: Json): Result<Fields> {
    match json
    case Object(fields) => Ok(fields)
    case Null => Ok(map[])
    case _ => Err("not an object")
  }

  function GetString(fields: Fields, key: Key): Result<string> {
    if key !in fields || fields[key].Null? then Ok("")
    else if fields[key].String? then Ok(fields[key].s)
    else Err("not a string")
  }

  function GetBool(fields: Fields, key: Key): Result<bool> {
    if key !in fields || fields[key].Null? then Ok(false)
    else if fields[key].Bool? then Ok(fields[key].b)
    else Err("not a boolean")
  }

  function GetInt32(fields: Fields, key: Key): Result<int32> {
    if key !in fields || fields[key].Null? then Ok(0)
    else if !fields[key].Number? then Err("not a number")
    else
      var i := fields[key].n.Floor;
      if i as real == fields[key].n && -0x8000_0000 <= i < 0x8000_0000 then Ok(i) else Err("not an int32")
  }

  // A field reads back as written, whether or not `omitempty` dropped it.

  lemma ReadsString(full: Fields, always: set<Key>, key: Key)
    requires key in full && full[key].String?
    ensures GetString(Written(full, always), key) == Ok(full[key].s)
  {
  }

  lemma ReadsBool(full: Fields, always: set<Key>, key: Key)
    requires key in full && full[key].Bool?
    ensures GetBool(Written(full, always), key) == Ok(full[key].b)
  {
  }

  lemma ReadsInt32(full: Fields, always: set<Key>, key: Key, i: int32)
    requires key in full && full[key] == Number(i as real)
    ensures GetInt32(Written(full, always), key) == Ok(i)
  {
  }
}
