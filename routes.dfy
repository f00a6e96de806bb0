/**
 * The route table: which guards each route declares before its controller,
 * what each controller passes to its service, and what a request to a route
 * does to the reply and the store.
 */
module Routes {
  import opened JsValues
  import opened Crypto
  import opened Records
  import opened Services
  import opened Session
  import opened Guards

  /** `POST /users`, `GET /users`, `GET /users/profile`, `PATCH /users/:id`, `DELETE /users/:id`, `POST /login`. */
  datatype Route = PostUsers | GetUsers | GetProfile | PatchUser | DeleteUser | PostLogin

  /** The guards each route declares before its controller, in declaration order. */
  function GuardsOf(route: Route): (gs: seq<Guard>)
    ensures forall k :: 0 <= k < |gs| && gs[k] == Adm ==> 0 < k && gs[k - 1] == Auth
    ensures UserExists in gs <==> route == GetProfile || route == PatchUser || route == DeleteUser
    ensures Adm in gs <==> route == GetUsers || route == PatchUser || route == DeleteUser
    ensures gs == [] <==> route == PostUsers || route == PostLogin
  {
    match route
    case PostUsers => []
    case GetUsers => [Auth, Adm]
    case GetProfile => [Auth, UserExists]
    case PatchUser => [UserExists, Auth, Adm]
    case DeleteUser => [Auth, Adm, UserExists]
    case PostLogin => []
  }

  /**
   * The controllers. The retrieve, change and delete controllers read
   * `request.params.uuid`, which no route declares, so they pass `undefined`;
   * the list controller sends the whole `[status, list]` pair as its body.
   */
  function Controller(route: Route, users: seq<Record>, input: Incoming, crypto: Primitives, gen: Generated): (e: Effect)
    requires route == PostUsers ==> FreshFor(users, gen)
    ensures route != PostUsers && route != DeleteUser ==> e.users == users
    ensures route == DeleteUser ==> e.reply == Reply(204, Empty) && e.users == Spliced(users, None)
    ensures route == GetProfile ==> e.reply == Retrieve(users, Absent)
    ensures route == PatchUser ==> e.reply == Reply(200, Empty) || e.reply == Crash
    ensures route == GetUsers ==> HasStatus(e.reply, 200) && e.reply.body.Pair? && e.reply.body.status == 200
  {
    match route
    case PostUsers => CreateUser(users, input.body, gen, crypto)
    case GetUsers =>
      var listed := List(users, input.moduleQuery);
      Effect(Reply(200, Pair(listed.status, listed.body)), users)
    case GetProfile => Effect(Retrieve(users, Absent), users)
    case PatchUser => Effect(Change(users, Absent, input.body), users)
    case DeleteUser => Effect(Reply(204, Empty), Spliced(users, None))
    case PostLogin => Effect(Login(users, input.body.email, input.body.password, crypto), users)
  }

  /**
   * A request to a route: the declared guards run in order from an unset
   * `request.user`; the first that ends the request gives the reply and leaves
   * the store alone, and the controller runs only when all of them continue.
   * Only sign-up and delete can change the store.
   */
  function Serve(route: Route, users: seq<Record>, input: Incoming, crypto: Primitives, gen: Generated): (e: Effect)
    requires route == PostUsers ==> FreshFor(users, gen)
    ensures RunGuards(GuardsOf(route), users, crypto, input, Unset).Halt? ==>
              e == Effect(RunGuards(GuardsOf(route), users, crypto, input, Unset).reply, users)
    ensures route != PostUsers && route != DeleteUser ==> e.users == users
    ensures route == PostLogin ==> e.reply == Login(users, input.body.email, input.body.password, crypto)
  {
    match RunGuards(GuardsOf(route), users, crypto, input, Unset)
    case Halt(r) => Effect(r, users)
    case Next(_) => Controller(route, users, input, crypto, gen)
  }

  /**
   * `DELETE /users/:id` checks that the caller is an administrator and that
   * the target exists, then removes the FIRST record of the store, whichever
   * record the route named, and answers 204. Any other answer leaves the
   * store alone.
   */
  lemma {:induction false} DeleteRemovesFirstRecord(
    users: seq<Record>, input: Incoming, crypto: Primitives, gen: Generated)
    ensures var e := Serve(DeleteUser, users, input, crypto, gen);
            && (HasStatus(e.reply, 204) ==>
                 && (exists t :: FirstWith(users, Uuid, FromParam(input.idParam), t))
                 && |users| > 0
                 && e.users == users[1..])
            && (!HasStatus(e.reply, 204) ==> e.users == users)
  {
    var gs := [Auth, Adm, UserExists];
    assert gs[1..] == [Adm, UserExists] && gs[1..][1..] == [UserExists] && gs[1..][1..][1..] == [];
    var e := Serve(DeleteUser, users, input, crypto, gen);
    if HasStatus(e.reply, 204) {
      var s := RunGuards(gs, users, crypto, input, Unset);
      assert s.Next?;
      var a := AuthStep(crypto, input.authorization);
      var b := AdmStep(users, a.ctx);
      assert ExistsStep(users, input.idParam).Next?;
    }
  }

  /**
   * `PATCH /users/:id` never changes the store. When its guards let the
   * request through it throws if any record's `id` field is undefined (the
   * controller passes `undefined`, and a record built from a body without an
   * `id` has none), and otherwise answers 200 with `{}`.
   */
  lemma {:induction false} PatchNeverUpdates(
    users: seq<Record>, input: Incoming, crypto: Primitives, gen: Generated)
    ensures var e := Serve(PatchUser, users, input, crypto, gen);
            && e.users == users
            && (HasStatus(e.reply, 200) ==> e.reply.body == Empty)
            && (RunGuards(GuardsOf(PatchUser), users, crypto, input, Unset).Next? ==>
                 (e.reply == Crash <==> exists j :: 0 <= j < |users| && users[j].id == Undefined))
  {
    var gs := GuardsOf(PatchUser);
    if !RunGuards(gs, users, crypto, input, Unset).Next? {
      assert gs[1..] == [Auth, Adm] && gs[1..][1..] == [Adm] && gs[1..][1..][1..] == [];
    }
  }

  /**
   * On every route with an admin guard, the guard runs right after the auth
   * guard, so it judges the caller named by the token, never the record the
   * route targets: a request gets through only if the first record whose
   * `uuid` is the token's subject is not marked `isAdm: false`.
   */
  lemma {:induction false} AdminRoutesCheckCaller(
    route: Route, users: seq<Record>, input: Incoming, crypto: Primitives)
    requires route == GetUsers || route == PatchUser || route == DeleteUser
    requires RunGuards(GuardsOf(route), users, crypto, input, Unset).Next?
    ensures input.authorization.Given? && BearerToken(input.authorization.text).Given?
    ensures exists sub, i ::
              && crypto.verify(BearerToken(input.authorization.text).text) == Some(sub)
              && FirstWith(users, Uuid, sub, i)
              && users[i].isAdm != Bool(false)
  {
    var gs := GuardsOf(route);
    var pre: seq<Guard>, post: seq<Guard>;
    if route == GetUsers {
      pre, post := [], [];
    } else if route == PatchUser {
      pre, post := [UserExists], [];
    } else {
      pre, post := [], [UserExists];
    }
    assert gs == pre + ([Auth, Adm] + post);
    RunGuardsAppend(pre, [Auth, Adm] + post, users, crypto, input, Unset);
    var c0 := RunGuards(pre, users, crypto, input, Unset).ctx;
    RunGuardsAppend([Auth, Adm], post, users, crypto, input, c0);
    AuthThenAdmChecksCaller(users, crypto, input, c0);
  }

  /**
   * `GET /users` answers the list exactly to a caller whose token verifies
   * and whose record is not marked `isAdm: false`; such a caller gets 403
   * when it is.
   */
  lemma {:induction false} ListNeedsAdmin(
    users: seq<Record>, input: Incoming, crypto: Primitives, gen: Generated, sub: Value, i: int)
    requires input.authorization.Given? && BearerToken(input.authorization.text).Given?
    requires crypto.verify(BearerToken(input.authorization.text).text) == Some(sub)
    requires FirstWith(users, Uuid, sub, i)
    ensures users[i].isAdm == Bool(false) ==>
              Serve(GetUsers, users, input, crypto, gen).reply == Reply(403, Message(ForbiddenMessage))
    ensures users[i].isAdm != Bool(false) ==>
              Serve(GetUsers, users, input, crypto, gen).reply
              == Reply(200, Pair(200, List(users, input.moduleQuery).body))
  {
    assert [Auth, Adm][1..] == [Adm];
    var a := AuthStep(crypto, input.authorization);
    assert a == Next(Caller(sub));
    assert FindIndex(users, Uuid, sub) == i;
  }

  /**
   * `GET /users/profile` has no `id` parameter, so its existence guard looks
   * for a record whose `uuid` is undefined: when every stored `uuid` is a
   * string the route answers 401 or 404 and never reaches its controller.
   */
  lemma {:induction false} ProfileNeverSucceeds(
    users: seq<Record>, input: Incoming, crypto: Primitives, gen: Generated)
    requires input.idParam == Absent
    requires UuidsAreStrings(users)
    ensures var r := Serve(GetProfile, users, input, crypto, gen).reply;
            r == Reply(401, Message(MissingHeadersMessage))
            || r == Reply(401, Message(InvalidTokenMessage))
            || r == Reply(404, Message(NotFoundMessage))
  {
    assert [Auth, UserExists][1..] == [UserExists];
    assert forall j :: 0 <= j < |users| ==> users[j].uuid != Undefined;
    assert ExistsStep(users, input.idParam) == Halt(Reply(404, Message(NotFoundMessage)));
  }

  /**
   * No route gives a stored record a `uuid` that is not a string: sign-up
   * writes a string and delete only removes records.
   */
  lemma ServeKeepsUuidsStrings(
    route: Route, users: seq<Record>, input: Incoming, crypto: Primitives, gen: Generated)
    requires route == PostUsers ==> FreshFor(users, gen)
    requires UuidsAreStrings(users)
    ensures UuidsAreStrings(Serve(route, users, input, crypto, gen).users)
  {
  }

  /** A login body `{email, password}`. */
  function LoginBody(e: string, p: string): Record
  {
    EmptyRecord().(email := Str(e), password := Str(p))
  }

  /**
   * Sign up, log in, list: registering succeeds, logging in with the same
   * credentials yields a token for the new record, and listing the users with
   * that token is refused with 403, since a new record is never an
   * administrator.
   */
  lemma {:induction false} SignUpLoginThenList(
    users: seq<Record>, data: Record, gen: Generated, crypto: Primitives, e: string, p: string)
    requires Sound(crypto) && FreshFor(users, gen)
    requires data.email == Str(e) && data.password == Str(p)
    requires forall j :: 0 <= j < |users| ==> users[j].name != data.name
    requires forall j :: 0 <= j < |users| ==> users[j].email != Str(e)
    ensures var signUp := Serve(PostUsers, users, Incoming(Absent, Absent, Absent, data), crypto, gen);
            && HasStatus(signUp.reply, 201)
            && var token := crypto.sign(gen.uuid);
               && Serve(PostLogin, signUp.users, Incoming(Absent, Absent, Absent, LoginBody(e, p)), crypto, gen).reply
                  == Reply(200, TokenBody(token))
               && Serve(GetUsers, signUp.users, Incoming(Given("Bearer " + token), Absent, Absent, EmptyRecord()), crypto, gen).reply
                  == Reply(403, Message(ForbiddenMessage))
  {
    SignUpThenLogin(users, data, gen, crypto, e, p);
    var created := CreateUser(users, data, gen, crypto);
    var token := crypto.sign(gen.uuid);
    SchemeNotChecked("Bearer", token);
    assert "Bearer" + " " + token == "Bearer " + token;
    var input := Incoming(Given("Bearer " + token), Absent, Absent, EmptyRecord());
    var u := created.users[|users|];
    assert FirstWith(created.users, Uuid, Str(gen.uuid), |users|);
    ListNeedsAdmin(created.users, input, crypto, gen, Str(gen.uuid), |users|);
  }

  /**
   * Express walking a route's guards: each guard writes `request.user` and
   * either ends the request or hands over to the next.
   */
  method RunChain(gs: seq<Guard>, req: Request, users: seq<Record>, crypto: Primitives) returns (stop: Option<Reply>)
    modifies req
    ensures match RunGuards(gs, users, crypto, req.input, old(req.user))
            case Halt(r) => stop == Some(r)
            case Next(c) => stop == None && req.user == c
  {
    ghost var start := req.user;
    var i := 0;
    while i < |gs|
      invariant 0 <= i <= |gs|
      invariant RunGuards(gs[..i], users, crypto, req.input, start) == Next(req.user)
    {
      ghost var before := req.user;
      var s: Option<Reply>;
      match gs[i] {
        case Auth => s := req.EnsureAuth(crypto);
        case UserExists => s := req.EnsureUserExists(users);
        case Adm => s := req.EnsureAdm(users);
      }
      assert gs[..i + 1] == gs[..i] + [gs[i]];
      assert [gs[i]][1..] == [];
      RunGuardsAppend(gs[..i], [gs[i]], users, crypto, req.input, start);
      if s.Some? {
        assert gs == gs[..i + 1] + gs[i + 1..];
        RunGuardsAppend(gs[..i + 1], gs[i + 1..], users, crypto, req.input, start);
        return s;
      }
      i := i + 1;
    }
    assert gs[..i] == gs;
    stop := None;
  }

  /** One request to a route, against the directory. */
  method Handle(route: Route, req: Request, dir: Directory, crypto: Primitives, gen: Generated) returns (reply: Reply)
    requires req.user == Unset
    requires route == PostUsers ==> FreshFor(dir.users, gen)
    modifies req, dir
    ensures Effect(reply, dir.users) == Serve(route, old(dir.users), req.input, crypto, gen)
  {
    var stop := RunChain(GuardsOf(route), req, dir.users, crypto);
    if stop.Some? {
      return stop.value;
    }
    match route {
      case PostUsers =>
        reply := dir.Create(req.input.body, gen, crypto);
      case GetUsers =>
        var listed := List(dir.users, req.input.moduleQuery);
        reply := Reply(200, Pair(listed.status, listed.body));
      case GetProfile =>
        reply := Retrieve(dir.users, Absent);
      case PatchUser =>
        reply := Change(dir.users, Absent, req.input.body);
      case DeleteUser =>
        reply := dir.Delete(None);
      case PostLogin =>
        reply := Login(dir.users, req.input.body.email, req.input.body.password, crypto);
    }
  }
}
