/**
 * User records, the `find`/`findIndex`/`filter` queries the service runs over
 * the `users` array, and the `[status, payload]` replies its services return.
 */
module Records {
  import opened JsValues

  /**
   * A user record, or a request body shaped like one; `moduleTag` is the
   * field named `module`. Every field is a JavaScript value, because records
   * are built by spreading the request body (`...userData`) and the initial
   * store may hold any JSON.
   */
  datatype Record = Record(
    name: Value, email: Value, moduleTag: Value, id: Value, password: Value,
    uuid: Value, isAdm: Value, createdOn: Value, updatedOn: Value)

  /** A record with no fields, the empty JSON object `{}`. */
  function EmptyRecord(): Record
  {
    Record(Undefined, Undefined, Undefined, Undefined, Undefined,
           Undefined, Undefined, Undefined, Undefined)
  }

  /** The fields the service searches on. */
  datatype Field = Name | Email | Module | Id | Uuid

  function Get(u: Record, f: Field): Value
  {
    match f
    case Name => u.name
    case Email => u.email
    case Module => u.moduleTag
    case Id => u.id
    case Uuid => u.uuid
  }

  /** `u[key]`: the field with that property name, `undefined` for any other name. */
  function Property(u: Record, key: string): (v: Value)
    ensures |key| > 9 ==> v == Undefined
  {
    if key == "name" then u.name
    else if key == "email" then u.email
    else if key == "module" then u.moduleTag
    else if key == "id" then u.id
    else if key == "password" then u.password
    else if key == "uuid" then u.uuid
    else if key == "isAdm" then u.isAdm
    else if key == "createdOn" then u.createdOn
    else if key == "updatedOn" then u.updatedOn
    else Undefined
  }

  /** `i` is the position of the first record whose field `f` is `v`. */
  ghost predicate FirstWith(users: seq<Record>, f: Field, v: Value, i: int)
  {
    && 0 <= i < |users|
    && Get(users[i], f) == v
    && forall j :: 0 <= j < i ==> Get(users[j], f) != v
  }

  /**
   * `users.findIndex((el) => el[f] === v)`: the position of the first match,
   * or -1 when no record matches. `users.find` is the record at that position,
   * or `undefined` when it is -1.
   */
  function FindIndex(users: seq<Record>, f: Field, v: Value): (i: int)
    ensures -1 <= i < |users|
    ensures i == -1 <==> forall j :: 0 <= j < |users| ==> Get(users[j], f) != v
    ensures i != -1 ==> FirstWith(users, f, v, i)
  {
    if users == [] then -1
    else if Get(users[0], f) == v then 0
    else
      var k := FindIndex(users[1..], f, v);
      if k == -1 then -1 else k + 1
  }

  /** `users.filter((item) => item.module === m)`. */
  function FilterModule(users: seq<Record>, m: Value): (r: seq<Record>)
    ensures |r| <= |users|
    ensures forall u :: u in r <==> u in users && u.moduleTag == m
  {
    if users == [] then []
    else
      assert users == [users[0]] + users[1..];
      (if users[0].moduleTag == m then [users[0]] else []) + FilterModule(users[1..], m)
  }

  /** Filtering keeps store order: it distributes over concatenation. */
  lemma {:induction false} FilterAppend(a: seq<Record>, b: seq<Record>, m: Value)
    ensures FilterModule(a + b, m) == FilterModule(a, m) + FilterModule(b, m)
  {
    if a == [] {
      assert a + b == b;
    } else {
      assert (a + b)[0] == a[0];
      assert (a + b)[1..] == a[1..] + b;
      FilterAppend(a[1..], b, m);
    }
  }

  /** A one-record store is kept exactly when its module matches. */
  lemma FilterSingleton(u: Record, m: Value)
    ensures FilterModule([u], m) == if u.moduleTag == m then [u] else []
  {
  }

  /** Every stored record has a string `uuid`, as every record written by the create service does. */
  ghost predicate UuidsAreStrings(users: seq<Record>)
  {
    forall j :: 0 <= j < |users| ==> users[j].uuid.Str?
  }

  /** A record as the create service returns it: every field but `password`. */
  datatype PublicUser = PublicUser(
    name: Value, email: Value, moduleTag: Value, id: Value,
    uuid: Value, isAdm: Value, createdOn: Value, updatedOn: Value)

  /** `delete UserResponse.password` on a copy of the record. */
  function Redact(u: Record): PublicUser
  {
    PublicUser(u.name, u.email, u.moduleTag, u.id, u.uuid, u.isAdm, u.createdOn, u.updatedOn)
  }

  /** Redaction drops the password and nothing else: records with the same redaction differ at most in it. */
  lemma RedactDropsOnlyPassword(u: Record, v: Record)
    ensures Redact(u) == Redact(v) <==> v.(password := u.password) == u
  {
  }

  /** The JSON payload of a reply. */
  datatype Body =
    | Message(text: string)          // `{message: ...}`
    | Created(user: PublicUser)      // the redacted new record
    | Users(list: seq<Record>)       // a list of full records
    | Json(value: Value)             // a bare value, as `user[id]`
    | TokenBody(token: string)       // `{token}`
    | Empty                          // `{}`
    | Pair(status: int, inner: Body) // a `[status, payload]` tuple serialised whole

  /**
   * What a service or guard produces: a status and payload, or `Crash` when
   * a JavaScript exception escapes instead (a TypeError, a rejected promise).
   */
  datatype Reply = Reply(status: int, body: Body) | Crash

  /** The reply is a response with this status. */
  predicate HasStatus(r: Reply, code: int)
  {
    r.Reply? && r.status == code
  }

  /** A reply together with the store as it is afterwards. */
  datatype Effect = Effect(reply: Reply, users: seq<Record>)

  const NotFoundMessage := "User not found!"
}
