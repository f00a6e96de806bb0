/**
 * The user directory services: create, list, retrieve, change and delete over
 * the module-level `users` array. The queries are functions of the store; the
 * two services that mutate the array in place are methods of `Directory`.
 */
module Services {
  import opened JsValues
  import opened Crypto
  import opened Records

  /** What `uuidv4()`, bcrypt's random salt and `new Date()` supply to one create call. */
  datatype Generated = Generated(uuid: string, salt: string, now: int)

  /** `uuidv4()` yields an identifier that no stored record carries. */
  ghost predicate FreshFor(users: seq<Record>, gen: Generated)
  {
    forall j :: 0 <= j < |users| ==> users[j].uuid != Str(gen.uuid)
  }

  const UserExistsMessage := "User already exists."

  /**
   * The record the create service pushes: the body's own fields, then the
   * fields written after the spread, which override whatever the body held.
   */
  function NewRecord(data: Record, digest: string, gen: Generated): (u: Record)
    ensures u.isAdm == Bool(false) && u.uuid == Str(gen.uuid) && u.password == Str(digest)
    ensures u.createdOn == Date(gen.now) && u.updatedOn == Date(gen.now)
    ensures u.name == data.name && u.email == data.email && u.moduleTag == data.moduleTag && u.id == data.id
  {
    data.(password := Str(digest), uuid := Str(gen.uuid), isAdm := Bool(false),
          createdOn := Date(gen.now), updatedOn := Date(gen.now))
  }

  /**
   * The create service. A duplicate `name` gives 409 and leaves the store
   * alone; otherwise bcrypt hashes the password (and rejects a password that
   * is not a string), and the new record is appended and returned without its
   * password. The new record is not an administrator and carries the gen
   * identifier, whatever `isAdm` and `uuid` the body supplied.
   */
  function CreateUser(users: seq<Record>, data: Record, gen: Generated, crypto: Primitives): (e: Effect)
    requires FreshFor(users, gen)
    ensures e.reply == Reply(409, Message(UserExistsMessage))
            <==> exists j :: 0 <= j < |users| && users[j].name == data.name
    ensures e.reply == Crash
            <==> (forall j :: 0 <= j < |users| ==> users[j].name != data.name) && !data.password.Str?
    ensures e.reply.Reply? ==> e.reply.status == 201 || e.reply.status == 409
    ensures !HasStatus(e.reply, 201) ==> e.users == users
    ensures HasStatus(e.reply, 201) ==>
              && |e.users| == |users| + 1
              && e.users[..|users|] == users
              && var u := e.users[|users|];
                 && u.isAdm == Bool(false)
                 && u.uuid == Str(gen.uuid)
                 && (forall j :: 0 <= j < |users| ==> users[j].uuid != u.uuid)
                 && u.name == data.name && u.email == data.email
                 && u.moduleTag == data.moduleTag && u.id == data.id
                 && data.password.Str?
                 && u.password == Str(crypto.hash(data.password.s, gen.salt))
                 && e.reply.body == Created(Redact(u))
  {
    if FindIndex(users, Name, data.name) != -1 then
      Effect(Reply(409, Message(UserExistsMessage)), users)
    else if !data.password.Str? then
      Effect(Crash, users)
    else
      var u := NewRecord(data, crypto.hash(data.password.s, gen.salt), gen);
      assert (users + [u])[..|users|] == users;
      Effect(Reply(201, Created(Redact(u))), users + [u])
  }

  /**
   * The list service: with a truthy `module` argument `tag` the stored records whose
   * `module` equals it, in store order; otherwise the whole store. Always 200.
   */
  function List(users: seq<Record>, tag: Param): (r: Reply)
    ensures r.Reply? && r.status == 200 && r.body.Users?
    ensures Truthy(FromParam(tag)) ==>
              && r.body.list == FilterModule(users, FromParam(tag))
              && forall u :: u in r.body.list <==> u in users && u.moduleTag == FromParam(tag)
    ensures !Truthy(FromParam(tag)) ==> r.body.list == users
  {
    if Truthy(FromParam(tag)) then Reply(200, Users(FilterModule(users, FromParam(tag))))
    else Reply(200, Users(users))
  }

  /**
   * The retrieve service: 404 exactly when no record's `uuid` is `id`;
   * otherwise 200 with `user[id]`, the property of the first matching record
   * whose NAME is the id, not the record itself.
   */
  function Retrieve(users: seq<Record>, id: Param): (r: Reply)
    ensures r == Reply(404, Message(NotFoundMessage))
            <==> forall j :: 0 <= j < |users| ==> users[j].uuid != FromParam(id)
    ensures r != Reply(404, Message(NotFoundMessage)) ==>
              exists j :: FirstWith(users, Uuid, FromParam(id), j)
                          && r == Reply(200, Json(Property(users[j], PropertyKey(id))))
  {
    var i := FindIndex(users, Uuid, FromParam(id));
    if i == -1 then Reply(404, Message(NotFoundMessage))
    else Reply(200, Json(Property(users[i], PropertyKey(id))))
  }

  /**
   * A found record answers with the property named by its own identifier,
   * which for an identifier longer than any field name is `undefined`: the
   * service never returns the record.
   */
  lemma RetrieveLongIdGivesUndefined(users: seq<Record>, s: string)
    requires |s| > 9
    ensures Retrieve(users, Given(s)) == Reply(404, Message(NotFoundMessage))
            || Retrieve(users, Given(s)) == Reply(200, Json(Undefined))
  {
  }

  /** Called with `undefined`, as its controller does, it answers 404 or an empty 200. */
  lemma RetrieveUndefinedId(users: seq<Record>)
    ensures Retrieve(users, Absent) == Reply(404, Message(NotFoundMessage))
            || Retrieve(users, Absent) == Reply(200, Json(Undefined))
    ensures UuidsAreStrings(users) ==> Retrieve(users, Absent) == Reply(404, Message(NotFoundMessage))
  {
  }

  /**
   * The change service. It matches on the field `id`, not `uuid`; when a
   * record matches, `Object.assign(200).json(...)` throws a TypeError before
   * anything is merged. It never answers 404: with no match it answers 200
   * with `{}`. It never modifies the store.
   */
  function Change(users: seq<Record>, id: Param, changes: Record): (r: Reply)
    ensures r == Crash <==> exists j :: 0 <= j < |users| && users[j].id == FromParam(id)
    ensures r.Reply? ==> r == Reply(200, Empty)
  {
    if FindIndex(users, Id, FromParam(id)) != -1 then Crash
    else Reply(200, Empty)
  }

  /**
   * The start position `Array.prototype.splice` computes for its first
   * argument: `undefined` counts as 0, a negative index counts from the end,
   * and positions are clamped to `[0, len]`.
   */
  function SpliceStart(len: nat, index: Option<int>): (k: nat)
    ensures k <= len
  {
    match index
    case None => 0
    case Some(i) =>
      if i < 0 then (if len + i < 0 then 0 else len + i)
      else if i < len then i
      else len
  }

  /**
   * The store after `users.splice(index, 1)`: the element at the start
   * position is gone and the rest keep their relative order; a start position
   * at the end removes nothing.
   */
  function Spliced(users: seq<Record>, index: Option<int>): (r: seq<Record>)
    ensures var k := SpliceStart(|users|, index);
            if k < |users| then
              && |r| == |users| - 1
              && forall j :: 0 <= j < |r| ==> r[j] == users[if j < k then j else j + 1]
            else r == users
  {
    var k := SpliceStart(|users|, index);
    if k < |users| then users[..k] + users[k + 1..] else users
  }

  /** Deleting at an index in range loses exactly that element. */
  lemma {:induction false} DeleteInRange(users: seq<Record>, i: int)
    requires 0 <= i < |users|
    ensures Spliced(users, Some(i)) == users[..i] + users[i + 1..]
    ensures multiset(Spliced(users, Some(i))) + multiset{users[i]} == multiset(users)
  {
    assert users == users[..i] + [users[i]] + users[i + 1..];
    assert Spliced(users, Some(i)) == users[..i] + users[i + 1..];
  }

  /** Deleting at an index past the end changes nothing. */
  lemma DeleteOutOfRange(users: seq<Record>, i: int)
    requires i >= |users|
    ensures Spliced(users, Some(i)) == users
  {
  }

  /** An undefined index behaves as index 0: the first record goes. */
  lemma DeleteUndefined(users: seq<Record>)
    ensures Spliced(users, None) == Spliced(users, Some(0))
    ensures Spliced(users, None) == if users == [] then [] else users[1..]
  {
  }

  /** The module-level `users` array, updated in place by create and delete. */
  class Directory {
    var users: seq<Record>

    constructor (initial: seq<Record>)
      ensures users == initial
    {
      users := initial;
    }

    /** `createUsersService`: `users.push` of the new record, answered without its password. */
    method Create(data: Record, gen: Generated, crypto: Primitives) returns (r: Reply)
      requires FreshFor(users, gen)
      modifies this
      ensures Effect(r, users) == CreateUser(old(users), data, gen, crypto)
      ensures users == old(users)
              || users == old(users) + [NewRecord(data, crypto.hash(data.password.s, gen.salt), gen)]
    {
      var found := FindIndex(users, Name, data.name);
      if found != -1 {
        return Reply(409, Message(UserExistsMessage));
      }
      if !data.password.Str? {
        return Crash;
      }
      var newUser := NewRecord(data, crypto.hash(data.password.s, gen.salt), gen);
      users := users + [newUser];
      r := Reply(201, Created(Redact(newUser)));
    }

    /** `deleteUserService`: `users.splice(index, 1)`, then 204 whatever was removed. */
    method Delete(index: Option<int>) returns (r: Reply)
      modifies this
      ensures r == Reply(204, Empty)
      ensures users == Spliced(old(users), index)
    {
      var k := SpliceStart(|users|, index);
      if k < |users| {
        users := users[..k] + users[k + 1..];
      }
      r := Reply(204, Empty);
    }
  }
}
