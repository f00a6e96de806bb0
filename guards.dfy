/**
 * The three middleware guards and their composition. Each guard either
 * answers the request itself, or overwrites `request.user` and passes control
 * to the next handler of the route.
 */
module Guards {
  import opened JsValues
  import opened Crypto
  import opened Records

  // ---------------------------------------------------------------------------
  // `authorization.split(" ")[1]`
  // ---------------------------------------------------------------------------

  /** `s.split(" ")`: the pieces between single spaces, empty pieces included. */
  function Split(s: string): (parts: seq<string>)
    ensures |parts| >= 1
    ensures forall k :: 0 <= k < |parts| ==> ' ' !in parts[k]
    ensures |parts| == 1 <==> ' ' !in s
  {
    if s == [] then [""]
    else
      var rest := Split(s[1..]);
      assert s == [s[0]] + s[1..];
      if s[0] == ' ' then [""] + rest
      else [[s[0]] + rest[0]] + rest[1..]
  }

  /** `parts.join(" ")`. */
  function Join(parts: seq<string>): string
    requires |parts| >= 1
  {
    if |parts| == 1 then parts[0] else parts[0] + " " + Join(parts[1..])
  }

  /** Joining the pieces gives back the header. */
  lemma {:induction false} JoinSplit(s: string)
    ensures Join(Split(s)) == s
  {
    if s != [] {
      var rest := Split(s[1..]);
      JoinSplit(s[1..]);
      if s[0] == ' ' {
        assert Split(s) == [""] + rest;
        assert Split(s)[1..] == rest;
      } else {
        assert Split(s) == [[s[0]] + rest[0]] + rest[1..];
        if |rest| > 1 {
          assert Split(s)[1..] == rest[1..];
        }
      }
    }
  }

  /** A word without spaces in front of a string sticks to that string's first piece. */
  lemma {:induction false} SplitPrefix(w: string, s: string)
    requires ' ' !in w
    ensures Split(w + s) == [w + Split(s)[0]] + Split(s)[1..]
    decreases |w|
  {
    if w != [] {
      assert (w + s)[0] == w[0];
      assert (w + s)[1..] == w[1..] + s;
      assert ' ' !in w[1..] by {
        forall k | 0 <= k < |w[1..]| ensures w[1..][k] != ' ' {
          assert w[1..][k] == w[k + 1];
        }
      }
      SplitPrefix(w[1..], s);
      assert [w[0]] + (w[1..] + Split(s)[0]) == w + Split(s)[0];
    } else {
      assert w + s == s && w + Split(s)[0] == Split(s)[0];
      assert Split(s) == [Split(s)[0]] + Split(s)[1..];
    }
  }

  /** Splitting pieces that hold no space after joining them gives the pieces back. */
  lemma {:induction false} SplitJoin(parts: seq<string>)
    requires |parts| >= 1
    requires forall k :: 0 <= k < |parts| ==> ' ' !in parts[k]
    ensures Split(Join(parts)) == parts
  {
    if |parts| == 1 {
      SplitPrefix(parts[0], "");
      assert parts[0] + "" == parts[0];
    } else {
      SplitJoin(parts[1..]);
      var tail := Join(parts[1..]);
      assert (" " + tail)[1..] == tail;
      assert Split(" " + tail) == [""] + parts[1..];
      SplitPrefix(parts[0], " " + tail);
      assert parts[0] + (" " + tail) == parts[0] + " " + tail;
      assert parts[0] + "" == parts[0];
      assert parts == [parts[0]] + parts[1..];
    }
  }

  /**
   * The token the auth guard passes to `jwt.verify`: the second
   * space-separated word of the header, or `undefined` when it has no space.
   */
  function BearerToken(header: string): (t: Param)
    ensures t.Given? <==> ' ' in header
    ensures t.Given? ==> ' ' !in t.text && t.text == Split(header)[1]
  {
    var parts := Split(header);
    if |parts| > 1 then Given(parts[1]) else Absent
  }

  /**
   * The first word is never looked at: any scheme, not only `Bearer`, is
   * accepted in front of the token.
   */
  lemma SchemeNotChecked(scheme: string, token: string)
    requires ' ' !in scheme && ' ' !in token
    ensures BearerToken(scheme + " " + token) == Given(token)
  {
    SplitJoin([scheme, token]);
    assert Join([scheme, token]) == scheme + " " + token;
  }

  /** A header without a space carries no token. */
  lemma NoSpaceNoToken(header: string)
    ensures BearerToken(header) == Absent <==> ' ' !in header
  {
  }

  // ---------------------------------------------------------------------------
  // The guards as steps over (store, request context)
  // ---------------------------------------------------------------------------

  /**
   * `request.user`: `undefined` before any guard ran, `{id}` after the auth
   * guard, `{userIndex}` after the existence guard.
   */
  datatype Ctx = Unset | Caller(id: Value) | Located(userIndex: int)

  /** `request.user.id`, which `{userIndex}` does not have. */
  function CallerId(ctx: Ctx): Value
    requires !ctx.Unset?
  {
    if ctx.Caller? then ctx.id else Undefined
  }

  /** A guard either calls `next()` with the new context, or ends the request. */
  datatype Step = Next(ctx: Ctx) | Halt(reply: Reply)

  datatype Guard = Auth | UserExists | Adm

  /** What the guards and controllers read from a request. */
  datatype Incoming = Incoming(
    authorization: Param,  // `request.headers.authorization`
    idParam: Param,        // `request.params.id`
    moduleQuery: Param,    // `request.query.module`
    body: Record)          // `request.body`

  const MissingHeadersMessage := "Missing authorization headers"
  const InvalidTokenMessage := "Invalid token"
  const ForbiddenMessage := "You don`t have authorization"

  /**
   * `ensureAuthMiddleware`: 401 when the header is absent or empty, 401 when
   * the token does not verify (an undefined token included), otherwise the
   * context becomes `{id: sub}`.
   */
  function AuthStep(crypto: Primitives, authorization: Param): (s: Step)
    ensures s == Halt(Reply(401, Message(MissingHeadersMessage))) <==> !Truthy(FromParam(authorization))
    ensures s.Next? <==>
              && Truthy(FromParam(authorization))
              && BearerToken(authorization.text).Given?
              && crypto.verify(BearerToken(authorization.text).text).Some?
    ensures s.Next? ==> s.ctx == Caller(crypto.verify(BearerToken(authorization.text).text).value)
    ensures !s.Next? && Truthy(FromParam(authorization)) ==> s == Halt(Reply(401, Message(InvalidTokenMessage)))
  {
    if !Truthy(FromParam(authorization)) then Halt(Reply(401, Message(MissingHeadersMessage)))
    else
      match BearerToken(authorization.text)
      case Absent => Halt(Reply(401, Message(InvalidTokenMessage)))
      case Given(token) =>
        match crypto.verify(token)
        case None => Halt(Reply(401, Message(InvalidTokenMessage)))
        case Some(sub) => Next(Caller(sub))
  }

  /**
   * `ensureUserExistsMiddleware`: 404 when no record's `uuid` is the route's
   * `id` parameter; otherwise the context becomes `{userIndex}`, the position
   * of the first match, and the caller's `id` is gone.
   */
  function ExistsStep(users: seq<Record>, id: Param): (s: Step)
    ensures s == Halt(Reply(404, Message(NotFoundMessage)))
            <==> forall j :: 0 <= j < |users| ==> users[j].uuid != FromParam(id)
    ensures s.Next? || s == Halt(Reply(404, Message(NotFoundMessage)))
    ensures s.Next? ==> s.ctx.Located? && FirstWith(users, Uuid, FromParam(id), s.ctx.userIndex)
  {
    var i := FindIndex(users, Uuid, FromParam(id));
    if i == -1 then Halt(Reply(404, Message(NotFoundMessage)))
    else Next(Located(i))
  }

  /**
   * `ensureAdmMiddleware`: looks up the first record whose `uuid` is
   * `request.user.id`. It answers 403 exactly when that record's `isAdm` is
   * `false`; it throws when `request.user` is unset or no record matches;
   * otherwise it continues with the context untouched.
   */
  function AdmStep(users: seq<Record>, ctx: Ctx): (s: Step)
    ensures s == Halt(Reply(403, Message(ForbiddenMessage))) <==>
              !ctx.Unset? && exists i :: FirstWith(users, Uuid, CallerId(ctx), i) && users[i].isAdm == Bool(false)
    ensures s.Next? <==>
              !ctx.Unset? && exists i :: FirstWith(users, Uuid, CallerId(ctx), i) && users[i].isAdm != Bool(false)
    ensures s == Halt(Crash) <==>
              ctx.Unset? || forall j :: 0 <= j < |users| ==> users[j].uuid != CallerId(ctx)
    ensures s.Next? ==> s.ctx == ctx
  {
    if ctx.Unset? then Halt(Crash)
    else
      var i := FindIndex(users, Uuid, CallerId(ctx));
      if i == -1 then Halt(Crash)
      else if users[i].isAdm == Bool(false) then Halt(Reply(403, Message(ForbiddenMessage)))
      else Next(ctx)
  }

  function Apply(g: Guard, users: seq<Record>, crypto: Primitives, input: Incoming, ctx: Ctx): Step
  {
    match g
    case Auth => AuthStep(crypto, input.authorization)
    case UserExists => ExistsStep(users, input.idParam)
    case Adm => AdmStep(users, ctx)
  }

  /** A chain of guards run in order, stopping at the first that ends the request. */
  function RunGuards(gs: seq<Guard>, users: seq<Record>, crypto: Primitives, input: Incoming, ctx: Ctx): (s: Step)
    ensures s.Halt? ==> s.reply == Crash || s.reply.status in {401, 403, 404}
    ensures s.Next? && (forall k :: 0 <= k < |gs| ==> gs[k] == Adm) ==> s.ctx == ctx
    ensures s.Next? && !ctx.Unset? ==> !s.ctx.Unset?
    ensures s.Next? && Auth in gs ==> !s.ctx.Unset?
    decreases |gs|
  {
    if gs == [] then Next(ctx)
    else
      match Apply(gs[0], users, crypto, input, ctx)
      case Halt(r) => Halt(r)
      case Next(c) => RunGuards(gs[1..], users, crypto, input, c)
  }

  /** Running two chains one after the other is running their concatenation. */
  lemma {:induction false} RunGuardsAppend(
    a: seq<Guard>, b: seq<Guard>, users: seq<Record>, crypto: Primitives, input: Incoming, ctx: Ctx)
    ensures RunGuards(a + b, users, crypto, input, ctx) ==
            match RunGuards(a, users, crypto, input, ctx)
            case Halt(r) => Halt(r)
            case Next(c) => RunGuards(b, users, crypto, input, c)
    decreases |a|
  {
    if a == [] {
      assert a + b == b;
    } else {
      assert (a + b)[0] == a[0];
      assert (a + b)[1..] == a[1..] + b;
      match Apply(a[0], users, crypto, input, ctx)
      case Halt(r) =>
      case Next(c) => RunGuardsAppend(a[1..], b, users, crypto, input, c);
    }
  }

  /**
   * A chain lets the request through only if every guard in it continued,
   * each from the context the guards before it left.
   */
  lemma {:induction false} AdmittedByEveryGuard(
    gs: seq<Guard>, users: seq<Record>, crypto: Primitives, input: Incoming, ctx: Ctx, k: nat)
    requires RunGuards(gs, users, crypto, input, ctx).Next?
    requires k < |gs|
    ensures RunGuards(gs[..k], users, crypto, input, ctx).Next?
    ensures Apply(gs[k], users, crypto, input, RunGuards(gs[..k], users, crypto, input, ctx).ctx).Next?
  {
    assert gs == gs[..k] + ([gs[k]] + gs[k + 1..]);
    RunGuardsAppend(gs[..k], [gs[k]] + gs[k + 1..], users, crypto, input, ctx);
    var c := RunGuards(gs[..k], users, crypto, input, ctx).ctx;
    assert ([gs[k]] + gs[k + 1..])[0] == gs[k];
    assert ([gs[k]] + gs[k + 1..])[1..] == gs[k + 1..];
  }

  /** The admin guard without an auth guard before it throws: `request.user` is undefined. */
  lemma AdmWithoutAuthThrows(users: seq<Record>, crypto: Primitives, input: Incoming)
    ensures RunGuards([Adm], users, crypto, input, Unset) == Halt(Crash)
  {
  }

  /**
   * The existence guard replaces `{id}` with `{userIndex}`, so an admin guard
   * after it looks for a record whose `uuid` is undefined. When every stored
   * `uuid` is a string that lookup fails: the pair never lets a request
   * through, whatever context it starts from.
   */
  lemma ExistsThenAdmNeverAdmits(
    users: seq<Record>, crypto: Primitives, input: Incoming, ctx: Ctx)
    requires UuidsAreStrings(users)
    ensures RunGuards([UserExists, Adm], users, crypto, input, ctx) == Halt(Reply(404, Message(NotFoundMessage)))
            || RunGuards([UserExists, Adm], users, crypto, input, ctx) == Halt(Crash)
  {
  }

  /**
   * With the auth guard immediately before it, the admin guard judges the
   * caller named by the token: a request gets through only if the first
   * record whose `uuid` is the token's subject is not marked `isAdm: false`.
   */
  lemma AuthThenAdmChecksCaller(
    users: seq<Record>, crypto: Primitives, input: Incoming, ctx: Ctx)
    requires RunGuards([Auth, Adm], users, crypto, input, ctx).Next?
    ensures var c := RunGuards([Auth, Adm], users, crypto, input, ctx).ctx;
            && c.Caller?
            && input.authorization.Given?
            && BearerToken(input.authorization.text).Given?
            && crypto.verify(BearerToken(input.authorization.text).text) == Some(c.id)
            && exists i :: FirstWith(users, Uuid, c.id, i) && users[i].isAdm != Bool(false)
  {
  }

  /** An HTTP request as the guards see it: fixed inputs and the mutable `request.user`. */
  class Request {
    const input: Incoming
    var user: Ctx

    constructor (input: Incoming)
      ensures this.input == input && user == Unset
    {
      this.input := input;
      user := Unset;
    }

    /** `ensureAuthMiddleware`; `None` means it called `next()`. */
    method EnsureAuth(crypto: Primitives) returns (stop: Option<Reply>)
      modifies this
      ensures stop == None ==> AuthStep(crypto, input.authorization) == Next(user)
      ensures stop.Some? ==> AuthStep(crypto, input.authorization) == Halt(stop.value) && user == old(user)
    {
      if !Truthy(FromParam(input.authorization)) {
        return Some(Reply(401, Message(MissingHeadersMessage)));
      }
      var token := BearerToken(input.authorization.text);
      if token.Absent? {
        return Some(Reply(401, Message(InvalidTokenMessage)));
      }
      var decoded := crypto.verify(token.text);
      if decoded.None? {
        return Some(Reply(401, Message(InvalidTokenMessage)));
      }
      user := Caller(decoded.value);
      stop := None;
    }

    /** `ensureUserExistsMiddleware`; `None` means it called `next()`. */
    method EnsureUserExists(users: seq<Record>) returns (stop: Option<Reply>)
      modifies this
      ensures stop == None ==> ExistsStep(users, input.idParam) == Next(user)
      ensures stop.Some? ==> ExistsStep(users, input.idParam) == Halt(stop.value) && user == old(user)
    {
      var userIndex := FindIndex(users, Uuid, FromParam(input.idParam));
      if userIndex == -1 {
        return Some(Reply(404, Message(NotFoundMessage)));
      }
      user := Located(userIndex);
      stop := None;
    }

    /** `ensureAdmMiddleware`; `None` means it called `next()`. It never writes `request.user`. */
    method EnsureAdm(users: seq<Record>) returns (stop: Option<Reply>)
      ensures stop == None ==> AdmStep(users, user) == Next(user)
      ensures stop.Some? ==> AdmStep(users, user) == Halt(stop.value)
    {
      if user.Unset? {
        return Some(Crash);
      }
      var i := FindIndex(users, Uuid, CallerId(user));
      if i == -1 {
        return Some(Crash);
      }
      if users[i].isAdm == Bool(false) {
        return Some(Reply(403, Message(ForbiddenMessage)));
      }
      stop := None;
    }
  }
}
