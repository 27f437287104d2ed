/**
 * The schema routes and the admin account routes: each one's capability
 * guard (required command, admitted roles, policy) and the order of the steps
 * a request passes through. A step that fails ends the request; the service
 * runs only when every step before it passed.
 *
 * Token verification and the token's command check, and the schema
 * ownership check, are not modelled here: each request carries their
 * outcomes.
 */
module Routes {
  import opened Wrappers
  import opened Json
  import opened AccountTypes
  import Utf16

  datatype Role = RootRole | AdminRole | OrganizationRole

  function RoleOf(account: AccountDocument): Role
  {
    match account
    case RootAccount(_, _) => RootRole
    case AdminAccount(_, _) => AdminRole
    case OrganizationAccount(_, _, _, _, _, _, _, _) => OrganizationRole
  }

  datatype Route =
    | SchemasList | SchemasAdd | SchemasRemove | SchemasMetadata | SchemasCreateIndex | SchemasDropIndex
    | AdminCreate | AdminRemove | AdminList | AdminSetSubscriptionState | AdminGetSubscriptionState
  {
    predicate IsSchemasRoute()
    {
      SchemasList? || SchemasAdd? || SchemasRemove? || SchemasMetadata? || SchemasCreateIndex? || SchemasDropIndex?
    }
  }

  /** A command of the capability command tree, as its path of segments. */
  type Command = seq<string>

  const SCHEMAS_CMD: Command := ["nil", "db", "schemas"]
  const ADMIN_CMD: Command := ["nil", "db", "admin"]

  datatype Guard = Guard(cmd: Command, roles: seq<Role>)

  /** The guard literal of each route. */
  function GuardOf(route: Route): (g: Guard)
    ensures route.IsSchemasRoute() ==> g == Guard(SCHEMAS_CMD, [OrganizationRole])
    ensures !route.IsSchemasRoute() ==> g.cmd == ADMIN_CMD
    ensures route == AdminCreate ==> g.roles == [RootRole, AdminRole]
    ensures !route.IsSchemasRoute() && route != AdminCreate ==> g.roles == [AdminRole]
  {
    match route
    case SchemasList => Guard(SCHEMAS_CMD, [OrganizationRole])
    case SchemasAdd => Guard(SCHEMAS_CMD, [OrganizationRole])
    case SchemasRemove => Guard(SCHEMAS_CMD, [OrganizationRole])
    case SchemasMetadata => Guard(SCHEMAS_CMD, [OrganizationRole])
    case SchemasCreateIndex => Guard(SCHEMAS_CMD, [OrganizationRole])
    case SchemasDropIndex => Guard(SCHEMAS_CMD, [OrganizationRole])
    case AdminCreate => Guard(ADMIN_CMD, [RootRole, AdminRole])
    case AdminRemove => Guard(ADMIN_CMD, [AdminRole])
    case AdminList => Guard(ADMIN_CMD, [AdminRole])
    case AdminSetSubscriptionState => Guard(ADMIN_CMD, [AdminRole])
    case AdminGetSubscriptionState => Guard(ADMIN_CMD, [AdminRole])
  }

  /** The guard's policy hook: it accepts every request. */
  function PolicyAccepts(route: Route, request: Request): (ok: bool)
    ensures ok
  {
    true
  }

  /** The steps of a request, in the order the route runs them. */
  datatype Step = PayloadValidation | ParamsValidation | VerifyToken | EnforceCapability | SchemaOwnership | Service

  predicate IsValidator(step: Step)
  {
    step == PayloadValidation || step == ParamsValidation
  }

  /**
   * `p` is `n` validators, then token verification and the capability
   * check, then the ownership check or not, then the service.
   */
  predicate ValidatorsThenGuards(p: seq<Step>, n: int)
  {
    && 0 <= n && n + 3 <= |p|
    && (forall k :: 0 <= k < n ==> IsValidator(p[k]))
    && p[n] == VerifyToken && p[n + 1] == EnforceCapability
    && (p[n + 2..] == [Service] || p[n + 2..] == [SchemaOwnership, Service])
  }

  function Plan(route: Route): (p: seq<Step>)
    ensures |p| >= 3 && p[|p| - 1] == Service
    ensures forall k :: 0 <= k < |p| - 1 ==> p[k] != Service
    ensures p[|p| - 2] == EnforceCapability || (p[|p| - 2] == SchemaOwnership && p[|p| - 3] == EnforceCapability)
    ensures ValidatorsThenGuards(p, |p| - 3) || ValidatorsThenGuards(p, |p| - 4)
  {
    match route
    case SchemasList => [VerifyToken, EnforceCapability, Service]
    case SchemasAdd => [PayloadValidation, VerifyToken, EnforceCapability, Service]
    case SchemasRemove => [PayloadValidation, VerifyToken, EnforceCapability, SchemaOwnership, Service]
    case SchemasMetadata => [ParamsValidation, VerifyToken, EnforceCapability, SchemaOwnership, Service]
    case SchemasCreateIndex => [PayloadValidation, ParamsValidation, VerifyToken, EnforceCapability, SchemaOwnership, Service]
    case SchemasDropIndex => [ParamsValidation, VerifyToken, EnforceCapability, SchemaOwnership, Service]
    case AdminCreate => [PayloadValidation, VerifyToken, EnforceCapability, Service]
    case AdminRemove => [PayloadValidation, VerifyToken, EnforceCapability, Service]
    case AdminList => [VerifyToken, EnforceCapability, Service]
    case AdminSetSubscriptionState => [PayloadValidation, VerifyToken, EnforceCapability, Service]
    case AdminGetSubscriptionState => [ParamsValidation, VerifyToken, EnforceCapability, Service]
  }

  /**
   * A request as the steps see it. `payloadValid` and `paramsValid` are the
   * verdicts of the request schemas other than the index-name length;
   * `subject` is the account the verified token names, or `None` when the
   * token is rejected; `tokenGrants` says whether the token's command covers
   * a command; the two remaining fields are the outcomes of the ownership
   * check and of the service call.
   */
  datatype Request = Request(
    payloadValid: bool,
    paramsValid: bool,
    indexName: string,
    subject: Option<AccountDocument>,
    tokenGrants: Command -> bool,
    ownsSchema: bool,
    serviceSucceeds: bool)

  const MIN_INDEX_NAME_LENGTH: nat := 4

  /** Whether the capability step admits the request: command, role and policy. */
  predicate CapabilityGranted(route: Route, request: Request)
  {
    && request.subject.Some?
    && request.tokenGrants(GuardOf(route).cmd)
    && RoleOf(request.subject.value) in GuardOf(route).roles
    && PolicyAccepts(route, request)
  }

  /** Whether one step lets the request through. */
  predicate Passes(route: Route, request: Request, step: Step)
  {
    match step
    case PayloadValidation => request.payloadValid
    case ParamsValidation =>
      request.paramsValid && (route == SchemasDropIndex ==> Utf16.Length(request.indexName) >= MIN_INDEX_NAME_LENGTH)
    case VerifyToken => request.subject.Some?
    case EnforceCapability => CapabilityGranted(route, request)
    case SchemaOwnership => request.ownsSchema
    case Service => request.serviceSucceeds
  }

  const OK: int := 200
  const CREATED: int := 201
  const NO_CONTENT: int := 204

  /** The status of a successful request. */
  function SuccessStatus(route: Route): (status: int)
    ensures status == CREATED <==> route in {SchemasAdd, SchemasCreateIndex, AdminCreate}
    ensures status == NO_CONTENT <==> route in {SchemasRemove, SchemasDropIndex, AdminRemove}
    ensures status == OK <==> route in {SchemasList, SchemasMetadata, AdminList, AdminSetSubscriptionState, AdminGetSubscriptionState}
  {
    match route
    case SchemasAdd => CREATED
    case SchemasCreateIndex => CREATED
    case AdminCreate => CREATED
    case SchemasRemove => NO_CONTENT
    case SchemasDropIndex => NO_CONTENT
    case AdminRemove => NO_CONTENT
    case _ => OK
  }

  datatype Outcome = Completed(status: int) | StoppedAt(step: Step)

  /** The steps a request went through, the last one included, and how it ended. */
  datatype Run = Run(trace: seq<Step>, outcome: Outcome)

  /** No step before position `k` of `steps` stops the request. */
  predicate AllPassBefore(route: Route, request: Request, steps: seq<Step>, k: int)
  {
    forall i :: 0 <= i < k && i < |steps| ==> Passes(route, request, steps[i])
  }

  /** Runs the steps in order, stopping at the first that fails. */
  function RunSteps(route: Route, request: Request, steps: seq<Step>): (r: Run)
    ensures |r.trace| <= |steps| && r.trace == steps[..|r.trace|]
    ensures r.outcome.Completed? <==> AllPassBefore(route, request, steps, |steps|)
    ensures r.outcome.Completed? ==> r.trace == steps && r.outcome.status == SuccessStatus(route)
    ensures r.outcome.StoppedAt? ==>
              && |r.trace| >= 1
              && r.outcome.step == r.trace[|r.trace| - 1]
              && !Passes(route, request, r.outcome.step)
              && AllPassBefore(route, request, steps, |r.trace| - 1)
  {
    if steps == [] then Run([], Completed(SuccessStatus(route)))
    else if !Passes(route, request, steps[0]) then Run([steps[0]], StoppedAt(steps[0]))
    else
      var rest := RunSteps(route, request, steps[1..]);
      assert forall i :: 1 <= i < |steps| ==> steps[i] == steps[1..][i - 1];
      Run([steps[0]] + rest.trace, rest.outcome)
  }

  /** Handling a request on a route. */
  function Handle(route: Route, request: Request): Run
  {
    RunSteps(route, request, Plan(route))
  }

  /** A step that ran had every earlier step of the plan pass. */
  lemma {:induction false} RanMeansEarlierPassed(route: Route, request: Request, k: nat)
    requires k < |Handle(route, request).trace|
    ensures AllPassBefore(route, request, Plan(route), k)
  {
    var r := Handle(route, request);
    if r.outcome.StoppedAt? {
      assert k <= |r.trace| - 1;
    }
  }

  /** The service runs exactly when every step before it passed. */
  lemma {:induction false} ServiceRunsIffStepsPass(route: Route, request: Request)
    ensures Service in Handle(route, request).trace <==> AllPassBefore(route, request, Plan(route), |Plan(route)| - 1)
  {
    var r, p := Handle(route, request), Plan(route);
    if r.outcome.Completed? {
      assert r.trace[|p| - 1] == Service;
    } else if |r.trace| == |p| {
      assert r.trace[|p| - 1] == Service;
    } else {
      assert !Passes(route, request, p[|r.trace| - 1]);
      assert forall k :: 0 <= k < |r.trace| ==> r.trace[k] != Service;
    }
  }

  /** A route whose plan checks ownership runs the service only for the schema's owner. */
  lemma OwnershipGuardsService(route: Route, request: Request)
    requires SchemaOwnership in Plan(route)
    requires Service in Handle(route, request).trace
    ensures request.ownsSchema
    ensures route in {SchemasRemove, SchemasMetadata, SchemasCreateIndex, SchemasDropIndex}
  {
    ServiceRunsIffStepsPass(route, request);
    var p := Plan(route);
    var k :| 0 <= k < |p| && p[k] == SchemaOwnership;
    assert k < |p| - 1;
  }

  /** Exactly `remove`, `metadata`, `createIndex` and `dropIndex` check ownership. */
  lemma OwnershipRoutes(route: Route)
    ensures SchemaOwnership in Plan(route) <==>
              route in {SchemasRemove, SchemasMetadata, SchemasCreateIndex, SchemasDropIndex}
  {
  }

  /** `list` and `add` run no ownership check. */
  lemma ListAndAddSkipOwnership()
    ensures SchemaOwnership !in Plan(SchemasList) && SchemaOwnership !in Plan(SchemasAdd)
  {
  }

  /** A subject whose role the guard does not admit never reaches the service. */
  lemma {:induction false} RoleOutsideGuardStops(route: Route, request: Request)
    requires request.subject.Some? && RoleOf(request.subject.value) !in GuardOf(route).roles
    ensures Service !in Handle(route, request).trace
    ensures Handle(route, request).outcome.StoppedAt?
  {
    var p := Plan(route);
    var k := if p[|p| - 2] == EnforceCapability then |p| - 2 else |p| - 3;
    assert p[k] == EnforceCapability;
    FailingStepStopsService(route, request, k);
  }

  /** A step of the plan that fails keeps the service from running. */
  lemma FailingStepStopsService(route: Route, request: Request, k: int)
    requires 0 <= k < |Plan(route)| - 1 && !Passes(route, request, Plan(route)[k])
    ensures Service !in Handle(route, request).trace
    ensures Handle(route, request).outcome.StoppedAt?
  {
    ServiceRunsIffStepsPass(route, request);
  }

  /** The root account cannot use the admin routes other than `create`. */
  lemma RootOnlyCreates(route: Route, request: Request)
    requires !route.IsSchemasRoute() && route != AdminCreate
    requires request.subject.Some? && request.subject.value.RootAccount?
    ensures Service !in Handle(route, request).trace
  {
    RoleOutsideGuardStops(route, request);
  }

  /** An index name shorter than four UTF-16 code units is turned away by the first step, before any token work. */
  lemma ShortIndexNameStopsFirst(request: Request)
    requires Utf16.Length(request.indexName) < MIN_INDEX_NAME_LENGTH
    ensures Handle(SchemasDropIndex, request) == Run([ParamsValidation], StoppedAt(ParamsValidation))
  {
  }

  /** A request that completes answers the route's success status. */
  lemma CompletedStatus(route: Route, request: Request)
    requires Handle(route, request).outcome.Completed?
    ensures Handle(route, request).outcome.status == SuccessStatus(route)
    ensures Handle(route, request).trace == Plan(route)
  {
  }

  // ---------------------------------------------------------------------
  // `add`: the caller becomes the owner

  /** `{ ...payload, owner: id }`: an existing `owner` key keeps its place and takes the new value; otherwise it is appended. */
  function WithOwner(payload: seq<(string, Json)>, owner: Did): (r: seq<(string, Json)>)
    ensures Keys(r) == if "owner" in Keys(payload) then Keys(payload) else Keys(payload) + ["owner"]
    ensures forall i :: 0 <= i < |payload| ==> r[i].1 == if payload[i].0 == "owner" then Str(owner) else payload[i].1
    ensures "owner" !in Keys(payload) ==> r[|payload|] == ("owner", Str(owner))
  {
    if "owner" in Keys(payload) then
      seq(|payload|, i requires 0 <= i < |payload| =>
        if payload[i].0 == "owner" then ("owner", Str(owner)) else payload[i])
    else
      assert forall i :: 0 <= i < |payload| ==> payload[i].0 == Keys(payload)[i];
      payload + [("owner", Str(owner))]
  }

  /** The schema recorded by `add` is owned by the caller, whatever owner the payload named. */
  lemma {:induction false} AddRecordsCaller(payload: seq<(string, Json)>, owner: Did)
    ensures exists i :: 0 <= i < |WithOwner(payload, owner)| && WithOwner(payload, owner)[i] == ("owner", Str(owner))
    ensures forall i :: 0 <= i < |WithOwner(payload, owner)| && WithOwner(payload, owner)[i].0 == "owner" ==>
              WithOwner(payload, owner)[i].1 == Str(owner)
  {
    var r := WithOwner(payload, owner);
    if "owner" in Keys(payload) {
      var i :| 0 <= i < |payload| && Keys(payload)[i] == "owner";
      assert Keys(r)[i] == "owner";
      assert r[i] == ("owner", Str(owner));
    } else {
      assert Keys(r)[|payload|] == "owner";
      assert r[|payload|] == ("owner", Str(owner));
    }
  }
}
