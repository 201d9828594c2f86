/** The admin router: every route runs `protect`, then `authorize` with its
    role list, then its validation stages, then its handler. The sign-in
    check and the role check are modelled by their decisions only; their
    module (`authMiddleware`) is not part of this model. As written the
    router never loads, because it registers handlers the controller does
    not define (`RouterNeverLoads`); the dispatch model describes the table
    with every handler defined (`CompleteRouterLoads`). */
module AdminRoutes {
  import opened Strings
  import opened Accounts
  import Validation

  datatype Method = Get | Post | Put | Delete

  datatype Handler =
    | GetUsers | GetUser | RestrictUser | ResetUserPassword | UpdateUserRole | DeleteUser
    | AutoDiscoverSimulations | SyncSimulations | GetSimulations | ToggleSimulationVisibility
    | GetUnits | ToggleUnitVisibility | SyncUnits

  /** The handlers the admin controller actually defines; the router imports
      the other eight by name, and they are undefined. */
  predicate Implemented(h: Handler) {
    h in {GetUsers, GetUser, RestrictUser, UpdateUserRole, DeleteUser}
  }

  /** A controller in which every handler the router names is defined. */
  predicate Complete(h: Handler) {
    true
  }

  /** A stage of a route after the router-wide `protect`. */
  datatype Stage =
    | Authorize(roles: set<Role>)
    | ResetLimiter
    | IdRules
    | ResetPasswordRules
    | Validate
    | Run(handler: Handler)

  datatype Route = Route(verb: Method, path: string, stages: seq<Stage>)

  const Staff: set<Role> := {Manager, Owner}
  const OwnerOnly: set<Role> := {Owner}

  /** The route table, in registration order. */
  const Routes: seq<Route> := [
    Route(Get, "/users", [Authorize(Staff), Run(GetUsers)]),
    Route(Get, "/users/:id", [Authorize(Staff), IdRules, Validate, Run(GetUser)]),
    Route(Put, "/users/:id/restrict", [Authorize(Staff), IdRules, Validate, Run(RestrictUser)]),
    Route(Put, "/users/:id/reset-password",
          [Authorize(Staff), ResetLimiter, IdRules, ResetPasswordRules, Validate, Run(ResetUserPassword)]),
    Route(Put, "/users/:id/role", [Authorize(OwnerOnly), IdRules, Validate, Run(UpdateUserRole)]),
    Route(Delete, "/users/:id", [Authorize(OwnerOnly), IdRules, Validate, Run(DeleteUser)]),
    Route(Post, "/simulations/auto-discover", [Authorize(OwnerOnly), Run(AutoDiscoverSimulations)]),
    Route(Post, "/simulations/sync", [Authorize(OwnerOnly), Run(SyncSimulations)]),
    Route(Get, "/simulations", [Authorize(Staff), Run(GetSimulations)]),
    Route(Put, "/simulations/:id/toggle", [Authorize(Staff), Run(ToggleSimulationVisibility)]),
    Route(Get, "/units", [Authorize(Staff), Run(GetUnits)]),
    Route(Put, "/units/:id/toggle", [Authorize(Staff), Run(ToggleUnitVisibility)]),
    Route(Post, "/units/sync", [Authorize(OwnerOnly), Run(SyncUnits)])
  ]

  /** Every handler a route runs is defined. */
  predicate Defined(route: Route, defined: Handler -> bool) {
    forall i :: 0 <= i < |route.stages| && route.stages[i].Run? ==> defined(route.stages[i].handler)
  }

  /** Loading the router module: the routes are registered in order, and
      registering one whose handler is not a function throws, so the module
      fails to load. */
  datatype Loaded = Mounted(routes: seq<Route>) | LoadError(at: nat)

  function Mount(routes: seq<Route>, defined: Handler -> bool): (r: Loaded)
    ensures r.Mounted? <==> forall i :: 0 <= i < |routes| ==> Defined(routes[i], defined)
    ensures r.Mounted? ==> r.routes == routes
    ensures r.LoadError? ==> r.at < |routes| && !Defined(routes[r.at], defined)
                             && forall i :: 0 <= i < r.at ==> Defined(routes[i], defined)
    decreases |routes|
  {
    if routes == [] then Mounted([])
    else if !Defined(routes[0], defined) then LoadError(0)
    else
      match Mount(routes[1..], defined)
      case Mounted(_) =>
        assert forall i :: 1 <= i < |routes| ==> routes[i] == routes[1..][i - 1];
        Mounted(routes)
      case LoadError(k) =>
        assert routes[1..][k] == routes[k + 1];
        assert forall i :: 1 <= i < k + 1 ==> routes[i] == routes[1..][i - 1];
        LoadError(k + 1)
  }

  /** With the controller as written the router never loads: the first
      route it cannot register is the password reset, whose handler is
      undefined. So no admin request reaches any handler. */
  lemma RouterNeverLoads()
    ensures Mount(Routes, Implemented) == LoadError(3)
  {
    assert !Defined(Routes[3], Implemented) by {
      assert Routes[3].stages[5] == Run(ResetUserPassword);
    }
    assert Defined(Routes[0], Implemented) && Defined(Routes[1], Implemented) && Defined(Routes[2], Implemented);
    FailsAt(Routes, Implemented, 3);
  }

  /** Loading stops at the first route with an undefined handler. */
  lemma FailsAt(routes: seq<Route>, defined: Handler -> bool, k: nat)
    requires k < |routes| && !Defined(routes[k], defined)
    requires forall i :: 0 <= i < k ==> Defined(routes[i], defined)
    ensures Mount(routes, defined) == LoadError(k)
  {
  }

  /** With every handler defined, the router loads the whole table, and
      then a regular user still reaches no handler on any route. */
  lemma CompleteRouterLoads(rq: Request, isMongoId: string -> bool)
    ensures Mount(Routes, Complete) == Mounted(Routes)
    ensures rq.caller == Some(User) ==> forall i :: 0 <= i < |Routes| ==> Dispatch(Routes[i], rq, isMongoId) == NotAllowed
  {
    if rq.caller == Some(User) {
      forall i | 0 <= i < |Routes| ensures Dispatch(Routes[i], rq, isMongoId) == NotAllowed {
        RegularUsersReachNothing(i, rq, isMongoId);
      }
    }
  }

  /** What a request meets on the way through a route. `limited` is the
      rate limiter's verdict; the id and body checks are those of the
      validation rules. */
  datatype Request = Request(caller: Option<Role>, id: string, newPassword: Validation.Field, limited: bool)

  datatype Outcome =
    | NotSignedIn
    | NotAllowed
    | Limited
    | Rejected(error: Validation.Outcome)
    | Reached(handler: Handler)

  /** Running the stages in order, carrying the validation messages collected so far. */
  function RunStages(stages: seq<Stage>, rq: Request, isMongoId: string -> bool, errors: seq<Validation.Message>): (r: Outcome)
    requires rq.caller.Some?
    ensures r != NotSignedIn
    ensures r.Reached? ==> Run(r.handler) in stages
    ensures r == NotAllowed ==> exists i :: 0 <= i < |stages| && stages[i].Authorize? && rq.caller.value !in stages[i].roles
    decreases |stages|
  {
    if stages == [] then Rejected(Validation.Validate(errors))
    else
      var rest := stages[1..];
      match stages[0]
      case Authorize(roles) =>
        if rq.caller.value in roles then RunStages(rest, rq, isMongoId, errors) else NotAllowed
      case ResetLimiter =>
        if rq.limited then Limited else RunStages(rest, rq, isMongoId, errors)
      case IdRules =>
        RunStages(rest, rq, isMongoId, errors + Validation.IdParamErrors(rq.id, isMongoId))
      case ResetPasswordRules =>
        RunStages(rest, rq, isMongoId, errors + Validation.ResetPasswordErrors(rq.newPassword))
      case Validate =>
        if errors == [] then RunStages(rest, rq, isMongoId, errors) else Rejected(Validation.Validate(errors))
      case Run(h) => Reached(h)
  }

  /** A request through a route: the router-wide `protect` first. */
  function Dispatch(route: Route, rq: Request, isMongoId: string -> bool): (r: Outcome)
    ensures rq.caller.None? <==> r == NotSignedIn
  {
    if rq.caller.None? then NotSignedIn else RunStages(route.stages, rq, isMongoId, [])
  }

  /** The roles a route admits. */
  function Admitted(route: Route): set<Role>
    requires |route.stages| > 0 && route.stages[0].Authorize?
  {
    route.stages[0].roles
  }

  /** Every route begins with its role check and ends with its handler, and
      nothing between them is a handler or a role check. */
  lemma RoutesShape()
    ensures forall i :: 0 <= i < |Routes| ==>
              var st := Routes[i].stages;
              |st| >= 2 && st[0].Authorize? && st[|st| - 1].Run?
              && forall j :: 0 < j < |st| - 1 ==> !st[j].Run? && !st[j].Authorize?
  {
  }

  /** The role table: managers and owners may list, view, restrict and
      reset users and list and toggle simulations and units; only owners may
      change roles, delete users, discover or sync simulations and sync units. */
  lemma RoleTable()
    ensures forall i :: 0 <= i < |Routes| ==> Routes[i].stages[0].Authorize? && Owner in Routes[i].stages[0].roles
    ensures forall i :: 0 <= i < |Routes| ==> User !in Routes[i].stages[0].roles
    ensures forall i :: 0 <= i < |Routes| ==>
              var h := Routes[i].stages[|Routes[i].stages| - 1].handler;
              (Manager in Routes[i].stages[0].roles <==>
                 h !in {UpdateUserRole, DeleteUser, AutoDiscoverSimulations, SyncSimulations, SyncUnits})
  {
  }

  /** A regular user reaches no handler, whatever the request. */
  lemma RegularUsersReachNothing(i: nat, rq: Request, isMongoId: string -> bool)
    requires i < |Routes| && rq.caller == Some(User)
    ensures Dispatch(Routes[i], rq, isMongoId) == NotAllowed
  {
  }

  /** The stages of a route after its role check. */
  lemma {:induction false} PastAuthorize(stages: seq<Stage>, rq: Request, isMongoId: string -> bool)
    requires rq.caller.Some? && |stages| > 0 && stages[0].Authorize?
    ensures rq.caller.value in stages[0].roles ==> RunStages(stages, rq, isMongoId, []) == RunStages(stages[1..], rq, isMongoId, [])
    ensures rq.caller.value !in stages[0].roles ==> RunStages(stages, rq, isMongoId, []) == NotAllowed
  {
  }

  /** Stages that check the id and then `validate` before their handler
      never let a malformed id through to the handler. */
  lemma {:induction false} MalformedIdStops(stages: seq<Stage>, rq: Request, isMongoId: string -> bool, errors: seq<Validation.Message>)
    requires rq.caller.Some? && !isMongoId(rq.id)
    requires exists i :: 0 <= i < |stages| && stages[i] == IdRules
    requires forall i :: 0 <= i < |stages| && stages[i].Run? ==>
               exists j :: 0 <= j < i && stages[j] == Validate && exists k :: 0 <= k < j && stages[k] == IdRules
    ensures !RunStages(stages, rq, isMongoId, errors).Reached?
    decreases |stages|
  {
    if stages != [] {
      var rest := stages[1..];
      match stages[0]
      case Authorize(roles) =>
        if rq.caller.value in roles { MalformedIdStops(rest, rq, isMongoId, errors); }
      case ResetLimiter =>
        if !rq.limited { MalformedIdStops(rest, rq, isMongoId, errors); }
      case IdRules =>
        assert Validation.IdParamErrors(rq.id, isMongoId) == [Validation.InvalidId];
        CarriedErrorStops(rest, rq, isMongoId, errors + [Validation.InvalidId]);
      case ResetPasswordRules =>
        MalformedIdStops(rest, rq, isMongoId, errors + Validation.ResetPasswordErrors(rq.newPassword));
      case Validate =>
        if errors == [] { MalformedIdStops(rest, rq, isMongoId, errors); }
      case Run(h) =>
        assert false;
    }
  }

  /** Once a message is collected, the next `validate` stops the request. */
  lemma {:induction false} CarriedErrorStops(stages: seq<Stage>, rq: Request, isMongoId: string -> bool, errors: seq<Validation.Message>)
    requires rq.caller.Some? && errors != []
    requires forall i :: 0 <= i < |stages| && stages[i].Run? ==> exists j :: 0 <= j < i && stages[j] == Validate
    ensures !RunStages(stages, rq, isMongoId, errors).Reached?
    decreases |stages|
  {
    if stages != [] {
      var rest := stages[1..];
      if stages[0] != Validate {
        forall i | 0 <= i < |rest| && rest[i].Run? ensures exists j :: 0 <= j < i && rest[j] == Validate {
          assert stages[i + 1] == rest[i];
          var j :| 0 <= j < i + 1 && stages[j] == Validate;
          assert j > 0;
          assert rest[j - 1] == Validate;
        }
      }
      match stages[0]
      case Authorize(roles) =>
        if rq.caller.value in roles { CarriedErrorStops(rest, rq, isMongoId, errors); }
      case ResetLimiter =>
        if !rq.limited { CarriedErrorStops(rest, rq, isMongoId, errors); }
      case IdRules =>
        CarriedErrorStops(rest, rq, isMongoId, errors + Validation.IdParamErrors(rq.id, isMongoId));
      case ResetPasswordRules =>
        CarriedErrorStops(rest, rq, isMongoId, errors + Validation.ResetPasswordErrors(rq.newPassword));
      case Validate =>
      case Run(h) =>
        assert false;
    }
  }

  /** On every user route with an `:id`, a malformed id stops before the handler. */
  lemma MalformedIdNeverReachesHandler(i: nat, rq: Request, isMongoId: string -> bool)
    requires 1 <= i <= 5 && !isMongoId(rq.id)
    ensures !Dispatch(Routes[i], rq, isMongoId).Reached?
  {
    if rq.caller.Some? {
      var st := Routes[i].stages;
      var k := if i == 3 then 2 else 1;
      var v := if i == 3 then 4 else 2;
      assert st[k] == IdRules && st[v] == Validate && k < v;
      MalformedIdStops(st, rq, isMongoId, []);
    }
  }

  /** The reset-password route applies the limiter, then the id rule, then
      the password rules, then `validate`, and only then its handler. */
  lemma ResetPasswordOrder()
    ensures Routes[3].verb == Put && Routes[3].path == "/users/:id/reset-password"
    ensures Routes[3].stages ==
              [Authorize(Staff), ResetLimiter, IdRules, ResetPasswordRules, Validate, Run(ResetUserPassword)]
  {
  }

  /** Exactly the five user routes other than password reset lead to a
      handler the controller defines. */
  lemma ImplementedRoutes()
    ensures forall i :: 0 <= i < |Routes| ==>
              (Implemented(Routes[i].stages[|Routes[i].stages| - 1].handler) <==> i in {0, 1, 2, 4, 5})
  {
  }
}
