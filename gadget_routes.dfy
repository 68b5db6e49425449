/**
 * The gadget router: seven routes, each a fixed middleware chain in front of a handler.
 * Reads and self-destruct need only `authenticate`; create, update and decommission add
 * `authorize(['admin'])` after it.
 */
module GadgetRoutes {
  import opened Wrappers
  import opened Text
  import opened Gadgets
  import opened Http
  import opened Auth
  import Controller = GadgetController
  import CodenameGenerator

  datatype Verb = Get | Post | Patch | Delete

  datatype Endpoint =
    ListGadgets | GetGadget | CreateGadget | UpdateGadget | DeleteGadget | SelfDestruct | ListByStatus

  datatype Middleware = Authenticate | Authorize(roles: seq<string>)

  datatype Route = Route(verb: Verb, path: string, chain: seq<Middleware>)

  /** The route registered for each endpoint, relative to the router's mount point. */
  function RouteOf(e: Endpoint): Route {
    match e
    case ListGadgets => Route(Get, "/", [Authenticate])
    case GetGadget => Route(Get, "/:id", [Authenticate])
    case CreateGadget => Route(Post, "/", [Authenticate, Authorize(["admin"])])
    case UpdateGadget => Route(Patch, "/:id", [Authenticate, Authorize(["admin"])])
    case DeleteGadget => Route(Delete, "/:id", [Authenticate, Authorize(["admin"])])
    case SelfDestruct => Route(Post, "/:id/self-destruct", [Authenticate])
    case ListByStatus => Route(Get, "/status/:status", [Authenticate])
  }

  /** The endpoints that change gadgets on an admin's behalf. */
  predicate AdminOnly(e: Endpoint) {
    e == CreateGadget || e == UpdateGadget || e == DeleteGadget
  }

  /** Running a middleware chain: either the handler is reached, or a middleware answers. */
  datatype ChainResult = Reached(user: Option<Claims>) | Halted(response: Response)

  /** One middleware, given the identity recorded so far. */
  function Step(m: Middleware, authorization: Option<string>, user: Option<Claims>, jwt: Jwt): ChainResult {
    match m
    case Authenticate =>
      (match Authentication(authorization, jwt)
       case Admit(c) => Reached(Some(c))
       case Deny(r) => Halted(r))
    case Authorize(roles) =>
      (match Authorization(roles, user)
       case None => Reached(user)
       case Some(r) => Halted(r))
  }

  /** The chain run left to right; the first middleware that answers ends it. */
  function RunChain(chain: seq<Middleware>, authorization: Option<string>, user: Option<Claims>, jwt: Jwt)
    : ChainResult
    decreases |chain|
  {
    if chain == [] then Reached(user)
    else match Step(chain[0], authorization, user, jwt)
      case Halted(r) => Halted(r)
      case Reached(u) => RunChain(chain[1..], authorization, u, jwt)
  }

  /** Every route is guarded, and `authenticate` always runs first. */
  lemma EveryChainAuthenticatesFirst(e: Endpoint)
    ensures |RouteOf(e).chain| >= 1 && RouteOf(e).chain[0] == Authenticate
    ensures AdminOnly(e) <==> RouteOf(e).chain == [Authenticate, Authorize(["admin"])]
    ensures !AdminOnly(e) <==> RouteOf(e).chain == [Authenticate]
  {
  }

  /** No two routes share a verb and a path. */
  lemma RoutesDistinct(e: Endpoint, e': Endpoint)
    requires e != e'
    ensures RouteOf(e).verb != RouteOf(e').verb || RouteOf(e).path != RouteOf(e').path
  {
  }

  /**
   * A request authentication rejects gets that 401 on every route, admin-only ones
   * included, and never a 403: `authenticate` answers before `authorize` runs.
   */
  lemma UnauthenticatedGets401(e: Endpoint, authorization: Option<string>, jwt: Jwt)
    requires Authentication(authorization, jwt).Deny?
    ensures RunChain(RouteOf(e).chain, authorization, None, jwt) == Halted(Authentication(authorization, jwt).response)
    ensures RunChain(RouteOf(e).chain, authorization, None, jwt).response.status == 401
    ensures BearerToken(authorization).None? ==> RunChain(RouteOf(e).chain, authorization, None, jwt) == Halted(NoToken)
  {
  }

  /** Any admitted caller, whatever its role, reaches the handler of the read routes and self-destruct. */
  lemma AdmittedReachesOpenRoutes(e: Endpoint, authorization: Option<string>, jwt: Jwt)
    requires !AdminOnly(e) && Authentication(authorization, jwt).Admit?
    ensures RunChain(RouteOf(e).chain, authorization, None, jwt) == Reached(Some(Authentication(authorization, jwt).user))
  {
    assert RouteOf(e).chain == [Authenticate];
  }

  /** Any admitted caller whose role is not "admin" gets 403 on create, update and delete. */
  lemma AdmittedNonAdminForbidden(e: Endpoint, authorization: Option<string>, jwt: Jwt)
    requires AdminOnly(e) && Authentication(authorization, jwt).Admit?
    requires Authentication(authorization, jwt).user.role != "admin"
    ensures RunChain(RouteOf(e).chain, authorization, None, jwt) == Halted(Forbidden)
  {
    assert RouteOf(e).chain[1..] == [Authorize(["admin"])];
  }

  /** Any admitted caller whose role is "admin" reaches the handler of create, update and delete. */
  lemma AdmittedAdminReachesAdminRoutes(e: Endpoint, authorization: Option<string>, jwt: Jwt)
    requires AdminOnly(e) && Authentication(authorization, jwt).Admit?
    requires Authentication(authorization, jwt).user.role == "admin"
    ensures RunChain(RouteOf(e).chain, authorization, None, jwt) == Reached(Some(Authentication(authorization, jwt).user))
  {
    assert RouteOf(e).chain[1..] == [Authorize(["admin"])];
  }

  /** Any role may use the read routes and self-destruct with a token the service signed. */
  lemma AnyRoleReachesOpenRoutes(e: Endpoint, jwt: Jwt, c: Claims)
    requires !AdminOnly(e) && SoundJwt(jwt)
    ensures RunChain(RouteOf(e).chain, Some(BearerPrefix + jwt.sign(c)), None, jwt) == Reached(Some(c))
  {
    SignedTokenAdmits(jwt, c);
    AdmittedReachesOpenRoutes(e, Some(BearerPrefix + jwt.sign(c)), jwt);
  }

  /** A signed-in caller whose role is not "admin" gets 403 on create, update and delete. */
  lemma NonAdminForbidden(e: Endpoint, jwt: Jwt, c: Claims)
    requires AdminOnly(e) && SoundJwt(jwt) && c.role != "admin"
    ensures RunChain(RouteOf(e).chain, Some(BearerPrefix + jwt.sign(c)), None, jwt) == Halted(Forbidden)
  {
    SignedTokenAdmits(jwt, c);
    AdmittedNonAdminForbidden(e, Some(BearerPrefix + jwt.sign(c)), jwt);
  }

  /** A signed-in admin reaches the handler of create, update and delete. */
  lemma AdminReachesAdminRoutes(e: Endpoint, jwt: Jwt, c: Claims)
    requires AdminOnly(e) && SoundJwt(jwt) && c.role == "admin"
    ensures RunChain(RouteOf(e).chain, Some(BearerPrefix + jwt.sign(c)), None, jwt) == Reached(Some(c))
  {
    SignedTokenAdmits(jwt, c);
    AdmittedAdminReachesAdminRoutes(e, Some(BearerPrefix + jwt.sign(c)), jwt);
  }

  /** What a request to a gadget route carries. */
  datatype GadgetRequest = GadgetRequest(
    authorization: Option<string>,
    id: Id,
    pathStatus: string,
    queryStatus: Option<string>,
    name: Option<string>,
    status: Option<string>,
    confirmationCode: Option<string>)

  /** What the source takes from the clock, the store and `Math.random()`. */
  datatype Environment = Environment(
    now: Time,
    newId: Id,
    draws: seq<CodenameGenerator.Draw>,
    expectedCode: string)

  /**
   * What the handler of `e` answers for `request` and leaves in the table, from `before`
   * to `after`, as each controller handler promises. `None`: no answer yet.
   */
  ghost predicate Handled(e: Endpoint, request: GadgetRequest, env: Environment,
                          before: map<Id, Gadget>, after: map<Id, Gadget>, resp: Option<Response>)
  {
    var id := request.id;
    match e
    case ListGadgets =>
      && after == before
      && resp == Some(
        if !Truthy(request.queryStatus) then Response(200, GadgetList(before))
        else if ParseStatus(request.queryStatus.value).Some? then
          Response(200, GadgetList(FindMany(before, ParseStatus(request.queryStatus.value))))
        else Response(500, Error("Failed to retrieve gadgets")))
    case GetGadget =>
      && after == before
      && resp == Some(if id in before then Response(200, GadgetBody(before[id])) else Controller.NotFound)
    case CreateGadget =>
      if !Truthy(request.name) then resp == Some(Controller.NameRequired) && after == before
      else
        && (resp.None? <==>
             forall i | 0 <= i < |env.draws| :: CodenameInUse(before, CodenameGenerator.Candidate(env.draws[i])))
        && (resp.None? ==> after == before)
        && (resp.Some? ==>
             && env.newId in after
             && resp.value == Response(201, GadgetBody(after[env.newId]))
             && after == before[env.newId := after[env.newId]]
             && after[env.newId].name == request.name.value
             && after[env.newId].status == Available
             && !CodenameInUse(before, after[env.newId].codename))
    case UpdateGadget =>
      var patch := GadgetPatch(request.name, request.status);
      if !Truthy(request.name) && !Truthy(request.status) then
        resp == Some(Controller.NothingToUpdate) && after == before
      else if id !in before then resp == Some(Controller.NotFound) && after == before
      else if !AcceptedPatch(patch) then
        resp == Some(Response(500, Error("Failed to update gadget"))) && after == before
      else
        var g := Patched(before[id], patch);
        resp == Some(Response(200, GadgetBody(g))) && after == before[id := g]
    case DeleteGadget =>
      if id !in before then resp == Some(Controller.NotFound) && after == before
      else
        var g := before[id].(status := Decommissioned, decommissionedAt := Some(env.now));
        resp == Some(Response(200, GadgetMessage(Controller.DecommissionedMessage, g))) && after == before[id := g]
    case SelfDestruct =>
      var code := request.confirmationCode;
      if !Truthy(code) || code.value != env.expectedCode then
        resp == Some(Controller.WrongCode(env.expectedCode)) && after == before
      else if id !in before then resp == Some(Controller.NotFound) && after == before
      else
        var g := before[id].(status := Destroyed);
        resp == Some(Response(200, GadgetMessage(Controller.DestroyedMessage, g))) && after == before[id := g]
    case ListByStatus =>
      && after == before
      && resp == Some(
        if request.queryStatus.None? then Response(200, GadgetList(before))
        else if ParseStatus(request.queryStatus.value).Some? then
          Response(200, GadgetList(FindMany(before, ParseStatus(request.queryStatus.value))))
        else Response(500, Error("Failed to retrieve gadgets by status")))
  }

  /**
   * Handling one request at one endpoint: the route's middleware in order, then its
   * handler. A middleware that answers ends the request before the handler runs, so the
   * table is unchanged; a request the chain lets through gets exactly what the route's
   * handler answers (`Handled`). `None`: no answer yet (the codename search is still
   * running).
   */
  method Serve(db: GadgetTable, e: Endpoint, request: GadgetRequest, env: Environment, jwt: Jwt)
    returns (resp: Option<Response>)
    requires db.Valid() && env.newId !in db.rows
    modifies db
    ensures db.Valid()
    ensures RunChain(RouteOf(e).chain, request.authorization, None, jwt).Halted? ==>
      && resp == Some(RunChain(RouteOf(e).chain, request.authorization, None, jwt).response)
      && db.rows == old(db.rows)
    ensures RunChain(RouteOf(e).chain, request.authorization, None, jwt).Reached? ==>
      Handled(e, request, env, old(db.rows), db.rows, resp)
    ensures e in {ListGadgets, GetGadget, ListByStatus} ==> db.rows == old(db.rows)
    ensures e != CreateGadget ==> resp.Some?
  {
    var chain := RouteOf(e).chain;
    var req := new HttpRequest(request.authorization);
    var halt: Option<Response> := None;
    var i := 0;
    while i < |chain| && halt.None?
      invariant 0 <= i <= |chain|
      invariant halt.None? ==>
        RunChain(chain, request.authorization, None, jwt) == RunChain(chain[i..], request.authorization, req.user, jwt)
      invariant halt.Some? ==> RunChain(chain, request.authorization, None, jwt) == Halted(halt.value)
      invariant req.authorization == request.authorization
      modifies req
      decreases |chain| - i
    {
      assert chain[i..][1..] == chain[i + 1..];
      match chain[i] {
        case Authenticate =>
          halt := Auth.Authenticate(req, jwt);
        case Authorize(roles) =>
          halt := Authorization(roles, req.user);
      }
      i := i + 1;
    }
    if halt.Some? {
      return halt;
    }
    var r: Response;
    match e {
      case ListGadgets =>
        r := Controller.GetGadgets(db, request.queryStatus);
      case GetGadget =>
        r := Controller.GetGadget(db, request.id);
      case CreateGadget =>
        resp := Controller.CreateGadget(db, request.name, env.newId, env.draws);
        return;
      case UpdateGadget =>
        r := Controller.UpdateGadget(db, request.id, request.name, request.status);
      case DeleteGadget =>
        r := Controller.DeleteGadget(db, request.id, env.now);
      case SelfDestruct =>
        r := Controller.SelfDestructGadget(db, request.id, request.confirmationCode, env.expectedCode);
      case ListByStatus =>
        r := Controller.GetGadgetsByStatus(db, request.pathStatus, request.queryStatus);
    }
    resp := Some(r);
  }
}
