/**
 * The configstate controller of a Horizon node: the view of the node's
 * configuration state, and the update that moves a registered node from
 * configuring to configured, auto-configuring the microservices its
 * pattern's workloads need on the way.
 *
 * The controller's collaborators (the local device store, the exchange
 * pattern and workload lookups, the API spec list operations, service
 * creation and the node's architecture) are the fields of a
 * `Collaborators` value. Every run of the update returns, besides its
 * response, the trace of collaborator calls it made, in order.
 */
module Configstates {

  import opened Results
  import opened States
  import opened ServiceNames
  import opened SpecLists

  /** The configstate object the API reads and writes. */
  datatype Configstate = Configstate(state: string)

  /** The node's recorded exchange registration, as the local store holds it. */
  datatype HorizonDevice = HorizonDevice(id: string, org: string, pattern: string, token: string, config: Configstate)

  /** What reading the device record from the local store yields. */
  datatype DeviceLookup = ReadFailed(reason: string) | NoDevice | Found(device: HorizonDevice)

  datatype WorkloadChoice = WorkloadChoice(version: string)

  datatype Workload = Workload(url: string, org: string, arch: string, versions: seq<WorkloadChoice>)

  datatype Pattern = Pattern(workloads: seq<Workload>)

  datatype PatternRequest = PatternRequest(org: string, name: string, requester: string, token: string)

  datatype WorkloadRequest = WorkloadRequest(url: string, org: string, version: string, arch: string, requester: string, token: string)

  /**
   * The service definition built for one API spec. Its name is derived
   * from the other three fields, so it is a member rather than a field.
   */
  datatype Service = Service(url: string, org: string, version: string)
  {
    function Name(): string {
      MakeServiceName(url, org, version)
    }
  }

  /** The notice a successful service creation hands back to its caller. */
  datatype PolicyCreatedMessage = PolicyCreatedMessage(policy: string)

  /**
   * How one service creation ended, as the pass-through error handler
   * reports it: created, already registered, needing variables the node
   * owner must configure, or any other failure.
   */
  datatype CreateOutcome =
    | Created(message: PolicyCreatedMessage)
    | DuplicateService
    | MissingVariableConfig(detail: string)
    | OtherFailure(detail: string)

  /** One call the controller makes on a collaborator. */
  datatype Call =
    | FindDevice
    | GetPatterns(patternRequest: PatternRequest)
    | ResolveWorkload(workloadRequest: WorkloadRequest)
    | CreateService(service: Service)
    | SetConfigstate(deviceId: string, newState: string)

  datatype UserInputProblem =
    | UnsupportedStateValue(requested: string)
    | UnsupportedTransition(from: string, to: string)
    | NeedsVariableConfig(spec: APISpec, detail: string)

  datatype SystemProblem =
    | DeviceReadFailed(reason: string)
    | PatternReadFailed(pattern: string, reason: string)
    | PatternCountMismatch(count: nat)
    | PatternKeyMissing(key: string)
    | WorkloadResolveFailed(request: WorkloadRequest, reason: string)
    | ServiceCreateFailed(detail: string)
    | PersistFailed(reason: string)

  /** The three classes of error the API reports, each with what caused it. */
  datatype ApiError =
    | NotFoundError
    | UserInputError(problem: UserInputProblem, input: string)
    | SystemError(cause: SystemProblem)

  datatype Response = Failed(error: ApiError) | Succeeded(config: Configstate, messages: seq<PolicyCreatedMessage>)

  /** A whole update: its response and the collaborator calls it made. */
  datatype Run = Run(response: Response, trace: seq<Call>)

  /** One stage of the update: its result and the collaborator calls it made. */
  datatype Step<T> = Step(result: Result<T, ApiError>, trace: seq<Call>)

  /**
   * What singleton replacement leaves for the merge: the running list, and
   * the resolved list, which the replacement may also change (it works on
   * the caller's list in place).
   */
  datatype Replaced = Replaced(running: seq<APISpec>, incoming: seq<APISpec>)

  /**
   * Everything the controller consults outside itself: the device record
   * as the local store returns it, the functions it calls, and the node's
   * architecture. createService is given the services already attempted in
   * the same pass, since each creation changes the store later creations see.
   */
  datatype Collaborators = Collaborators(
    lookup: DeviceLookup,
    exchangeId: HorizonDevice -> string,
    getPatterns: PatternRequest -> Result<map<string, Pattern>, string>,
    resolveWorkload: WorkloadRequest -> Result<seq<APISpec>, string>,
    replaceHigherSharedSingleton: (seq<APISpec>, seq<APISpec>) -> Replaced,
    mergeWith: (seq<APISpec>, seq<APISpec>) -> seq<APISpec>,
    createService: (seq<Service>, Service) -> CreateOutcome,
    setConfigstate: (string, string) -> Result<HorizonDevice, string>,
    arch: string)

  /** The request field user-input errors name. */
  const StateInput: string := "configstate.state"

  /** The configstate view: the recorded state, or configuring when no device is recorded. */
  function FindConfigstateForOutput(lookup: DeviceLookup): (r: Result<Configstate, string>)
    ensures r.Err? <==> lookup.ReadFailed?
    ensures lookup.NoDevice? ==> r.value.state == Configuring
    ensures lookup.Found? ==> r.value == lookup.device.config
  {
    match lookup
    case ReadFailed(e) => Err(e)
    case NoDevice => Ok(Configstate(Configuring))
    case Found(d) => Ok(d.config)
  }

  /** The key the exchange files a pattern under. */
  function PatternKey(org: string, name: string): string {
    org + "/" + name
  }

  // ---------------------------------------------------------------------
  // Resolving the pattern's workloads to one complete API spec list
  // ---------------------------------------------------------------------

  /** The resolver requests one workload's version choices make, in order. */
  function ChoiceRequests(w: Workload, choices: seq<WorkloadChoice>, arch: string, requester: string, token: string): (reqs: seq<WorkloadRequest>)
    ensures |reqs| == |choices|
    ensures forall i :: 0 <= i < |reqs| ==> reqs[i] == WorkloadRequest(w.url, w.org, choices[i].version, arch, requester, token)
  {
    if choices == [] then []
    else [WorkloadRequest(w.url, w.org, choices[0].version, arch, requester, token)]
         + ChoiceRequests(w, choices[1..], arch, requester, token)
  }

  /**
   * The resolver requests a pattern's workloads make on a node of the given
   * architecture: every version choice of every workload built for it.
   */
  function ResolverRequests(ws: seq<Workload>, arch: string, requester: string, token: string): seq<WorkloadRequest> {
    if ws == [] then []
    else (if ws[0].arch == arch then ChoiceRequests(ws[0], ws[0].versions, arch, requester, token) else [])
         + ResolverRequests(ws[1..], arch, requester, token)
  }

  /** Index of the first request the resolver fails on, or |reqs| when all resolve. */
  function FirstUnresolved(c: Collaborators, reqs: seq<WorkloadRequest>): (k: nat)
    ensures k <= |reqs|
    ensures forall i :: 0 <= i < k ==> c.resolveWorkload(reqs[i]).Ok?
    ensures k < |reqs| ==> c.resolveWorkload(reqs[k]).Err?
  {
    if reqs == [] || c.resolveWorkload(reqs[0]).Err? then 0
    else 1 + FirstUnresolved(c, reqs[1..])
  }

  /**
   * One accumulation step: singleton replacement against the running list,
   * then the merge of the resolved list as the replacement left it.
   */
  function Absorb(c: Collaborators, acc: seq<APISpec>, sub: seq<APISpec>): seq<APISpec> {
    var r := c.replaceHigherSharedSingleton(acc, sub);
    c.mergeWith(r.running, r.incoming)
  }

  /**
   * The running list after absorbing, in order, the lists resolved for
   * reqs; a request that fails contributes nothing (the update never gets
   * that far).
   */
  function FoldResolved(c: Collaborators, acc: seq<APISpec>, reqs: seq<WorkloadRequest>): seq<APISpec>
    decreases |reqs|
  {
    if reqs == [] then acc
    else
      var sub := match c.resolveWorkload(reqs[0]) case Ok(l) => l case Err(_) => [];
      FoldResolved(c, Absorb(c, acc, sub), reqs[1..])
  }

  function ResolveCalls(reqs: seq<WorkloadRequest>): (calls: seq<Call>)
    ensures |calls| == |reqs|
    ensures forall i :: 0 <= i < |calls| ==> calls[i] == ResolveWorkload(reqs[i])
  {
    if reqs == [] then [] else [ResolveWorkload(reqs[0])] + ResolveCalls(reqs[1..])
  }

  /**
   * What resolving reqs, one after the other from the running list acc,
   * must give: when every request resolves, the folded list after one call
   * per request; otherwise the first failure as a system error, after the
   * calls up to and including the failing one.
   */
  ghost predicate ResolvedAs(c: Collaborators, acc: seq<APISpec>, reqs: seq<WorkloadRequest>, s: Step<seq<APISpec>>) {
    var k := FirstUnresolved(c, reqs);
    if k == |reqs| then
      s == Step(Ok(FoldResolved(c, acc, reqs)), ResolveCalls(reqs))
    else
      s == Step(Err(SystemError(WorkloadResolveFailed(reqs[k], c.resolveWorkload(reqs[k]).error))),
                ResolveCalls(reqs[..k + 1]))
  }

  lemma {:induction false} FirstUnresolvedAppend(c: Collaborators, a: seq<WorkloadRequest>, b: seq<WorkloadRequest>)
    ensures FirstUnresolved(c, a + b) ==
            if FirstUnresolved(c, a) < |a| then FirstUnresolved(c, a) else |a| + FirstUnresolved(c, b)
  {
    if a != [] {
      assert (a + b)[0] == a[0];
      assert (a + b)[1..] == a[1..] + b;
      FirstUnresolvedAppend(c, a[1..], b);
    } else {
      assert a + b == b;
    }
  }

  lemma {:induction false} FoldResolvedAppend(c: Collaborators, acc: seq<APISpec>, a: seq<WorkloadRequest>, b: seq<WorkloadRequest>)
    ensures FoldResolved(c, acc, a + b) == FoldResolved(c, FoldResolved(c, acc, a), b)
    decreases |a|
  {
    if a != [] {
      assert (a + b)[0] == a[0];
      assert (a + b)[1..] == a[1..] + b;
      var sub := match c.resolveWorkload(a[0]) case Ok(l) => l case Err(_) => [];
      FoldResolvedAppend(c, Absorb(c, acc, sub), a[1..], b);
    } else {
      assert a + b == b;
    }
  }

  lemma ResolveCallsAppend(a: seq<WorkloadRequest>, b: seq<WorkloadRequest>)
    ensures ResolveCalls(a + b) == ResolveCalls(a) + ResolveCalls(b)
  {
    assert forall i :: 0 <= i < |a| + |b| ==> (a + b)[i] == if i < |a| then a[i] else b[i - |a|];
  }

  /** A failure while resolving a ends the resolution of a + b the same way. */
  lemma ResolvedAsAppendFailed(c: Collaborators, acc: seq<APISpec>, a: seq<WorkloadRequest>, b: seq<WorkloadRequest>,
                               first: Step<seq<APISpec>>)
    requires ResolvedAs(c, acc, a, first)
    requires first.result.Err?
    ensures ResolvedAs(c, acc, a + b, first)
  {
    FirstUnresolvedAppend(c, a, b);
    var ka := FirstUnresolved(c, a);
    assert ka < |a|;
    assert (a + b)[ka] == a[ka];
    assert (a + b)[..ka + 1] == a[..ka + 1];
  }

  /** Resolving a, then b from a's list, is resolving a + b. */
  lemma ResolvedAsAppend(c: Collaborators, acc: seq<APISpec>, a: seq<WorkloadRequest>, b: seq<WorkloadRequest>,
                         first: Step<seq<APISpec>>, second: Step<seq<APISpec>>)
    requires ResolvedAs(c, acc, a, first)
    requires first.result.Ok?
    requires ResolvedAs(c, first.result.value, b, second)
    ensures ResolvedAs(c, acc, a + b, Step(second.result, first.trace + second.trace))
  {
    FirstUnresolvedAppend(c, a, b);
    assert first == Step(Ok(FoldResolved(c, acc, a)), ResolveCalls(a));
    if FirstUnresolved(c, b) < |b| {
      ResolvedAsAppendLaterFailed(c, acc, a, b, second);
    } else {
      FoldResolvedAppend(c, acc, a, b);
      ResolveCallsAppend(a, b);
    }
  }

  lemma ResolvedAsAppendLaterFailed(c: Collaborators, acc: seq<APISpec>, a: seq<WorkloadRequest>, b: seq<WorkloadRequest>,
                                    second: Step<seq<APISpec>>)
    requires FirstUnresolved(c, a) == |a|
    requires FirstUnresolved(c, b) < |b|
    requires ResolvedAs(c, FoldResolved(c, acc, a), b, second)
    ensures ResolvedAs(c, acc, a + b, Step(second.result, ResolveCalls(a) + second.trace))
  {
    FirstUnresolvedAppend(c, a, b);
    var kb := FirstUnresolved(c, b);
    assert (a + b)[|a| + kb] == b[kb];
    assert (a + b)[..|a| + kb + 1] == a + b[..kb + 1];
    ResolveCallsAppend(a, b[..kb + 1]);
  }

  /** Resolving one workload's version choices in order, absorbing each resolved list into acc. */
  function ResolveChoices(c: Collaborators, w: Workload, choices: seq<WorkloadChoice>, requester: string, token: string,
                          acc: seq<APISpec>): Step<seq<APISpec>>
  {
    if choices == [] then Step(Ok(acc), [])
    else
      var req := WorkloadRequest(w.url, w.org, choices[0].version, c.arch, requester, token);
      match c.resolveWorkload(req)
      case Err(e) => Step(Err(SystemError(WorkloadResolveFailed(req, e))), [ResolveWorkload(req)])
      case Ok(sub) =>
        var rest := ResolveChoices(c, w, choices[1..], requester, token, Absorb(c, acc, sub));
        Step(rest.result, [ResolveWorkload(req)] + rest.trace)
  }

  /** The choice loop resolves the choices' requests one after the other. */
  lemma {:induction false} ResolveChoicesResolves(c: Collaborators, w: Workload, choices: seq<WorkloadChoice>,
                                                  requester: string, token: string, acc: seq<APISpec>)
    ensures ResolvedAs(c, acc, ChoiceRequests(w, choices, c.arch, requester, token),
                       ResolveChoices(c, w, choices, requester, token, acc))
  {
    if choices != [] {
      var req := WorkloadRequest(w.url, w.org, choices[0].version, c.arch, requester, token);
      var reqs := ChoiceRequests(w, choices, c.arch, requester, token);
      var later := ChoiceRequests(w, choices[1..], c.arch, requester, token);
      assert reqs == [req] + later;
      match c.resolveWorkload(req)
      case Err(e) =>
        assert reqs[..1] == [req];
      case Ok(sub) =>
        ResolveChoicesResolves(c, w, choices[1..], requester, token, Absorb(c, acc, sub));
        ResolvedAsAppend(c, acc, [req], later, Step(Ok(Absorb(c, acc, sub)), [ResolveWorkload(req)]),
                         ResolveChoices(c, w, choices[1..], requester, token, Absorb(c, acc, sub)));
    }
  }

  /**
   * The resolution loop: workloads built for another architecture are
   * skipped; every version choice of the others is resolved in order.
   */
  function ResolveWorkloads(c: Collaborators, ws: seq<Workload>, requester: string, token: string,
                            acc: seq<APISpec>): Step<seq<APISpec>>
  {
    if ws == [] then Step(Ok(acc), [])
    else if ws[0].arch != c.arch then ResolveWorkloads(c, ws[1..], requester, token, acc)
    else
      var first := ResolveChoices(c, ws[0], ws[0].versions, requester, token, acc);
      match first.result
      case Err(_) => first
      case Ok(acc') =>
        var rest := ResolveWorkloads(c, ws[1..], requester, token, acc');
        Step(rest.result, first.trace + rest.trace)
  }

  /** The nested loops resolve, one after the other, the requests the flat request list names. */
  lemma {:induction false} ResolveWorkloadsResolves(c: Collaborators, ws: seq<Workload>, requester: string, token: string,
                                                    acc: seq<APISpec>)
    ensures ResolvedAs(c, acc, ResolverRequests(ws, c.arch, requester, token), ResolveWorkloads(c, ws, requester, token, acc))
  {
    if ws != [] {
      var later := ResolverRequests(ws[1..], c.arch, requester, token);
      if ws[0].arch != c.arch {
        assert ResolverRequests(ws, c.arch, requester, token) == later;
        ResolveWorkloadsResolves(c, ws[1..], requester, token, acc);
      } else {
        var first := ResolveChoices(c, ws[0], ws[0].versions, requester, token, acc);
        var own := ChoiceRequests(ws[0], ws[0].versions, c.arch, requester, token);
        assert ResolverRequests(ws, c.arch, requester, token) == own + later;
        ResolveChoicesResolves(c, ws[0], ws[0].versions, requester, token, acc);
        match first.result
        case Err(_) =>
          ResolvedAsAppendFailed(c, acc, own, later, first);
        case Ok(acc') =>
          ResolveWorkloadsResolves(c, ws[1..], requester, token, acc');
          ResolvedAsAppend(c, acc, own, later, first, ResolveWorkloads(c, ws[1..], requester, token, acc'));
      }
    }
  }

  // ---------------------------------------------------------------------
  // Creating a service for every API spec of the complete list
  // ---------------------------------------------------------------------

  /** The service the controller creates for an API spec. */
  function ServiceFor(spec: APISpec): Service {
    Service(spec.specRef, spec.org, spec.version)
  }

  function Services(specs: seq<APISpec>): (svcs: seq<Service>)
    ensures |svcs| == |specs|
    ensures forall i :: 0 <= i < |svcs| ==> svcs[i] == ServiceFor(specs[i])
  {
    if specs == [] then [] else [ServiceFor(specs[0])] + Services(specs[1..])
  }

  function CreateCalls(svcs: seq<Service>): (calls: seq<Call>)
    ensures |calls| == |svcs|
    ensures forall i :: 0 <= i < |calls| ==> calls[i] == CreateService(svcs[i])
  {
    if svcs == [] then [] else [CreateService(svcs[0])] + CreateCalls(svcs[1..])
  }

  /** An outcome that ends the creation pass. */
  predicate Blocking(o: CreateOutcome) {
    o.MissingVariableConfig? || o.OtherFailure?
  }

  /**
   * How creating the i-th spec's service ends, after done and the services
   * of the specs before it have been attempted.
   */
  function OutcomeAt(c: Collaborators, done: seq<Service>, specs: seq<APISpec>, i: nat): CreateOutcome
    requires i < |specs|
    decreases i
  {
    if i == 0 then c.createService(done, ServiceFor(specs[0]))
    else OutcomeAt(c, done + [ServiceFor(specs[0])], specs[1..], i - 1)
  }

  /** The history OutcomeAt hands to service creation is done followed by the earlier specs' services. */
  lemma {:induction false} OutcomeAtHistory(c: Collaborators, done: seq<Service>, specs: seq<APISpec>, i: nat)
    requires i < |specs|
    ensures OutcomeAt(c, done, specs, i) == c.createService(done + Services(specs)[..i], ServiceFor(specs[i]))
    decreases i, 1
  {
    if i == 0 {
      assert done + Services(specs)[..0] == done;
    } else {
      OutcomeAtHistoryLater(c, done, specs, i);
    }
  }

  lemma {:induction false} OutcomeAtHistoryLater(c: Collaborators, done: seq<Service>, specs: seq<APISpec>, i: nat)
    requires 0 < i < |specs|
    ensures OutcomeAt(c, done, specs, i) == c.createService(done + Services(specs)[..i], ServiceFor(specs[i]))
    decreases i, 0
  {
    var s0 := ServiceFor(specs[0]);
    var t := Services(specs[1..]);
    assert done + Services(specs)[..i] == (done + [s0]) + t[..i - 1] by {
      assert Services(specs) == [s0] + t;
      assert Services(specs)[..i] == [s0] + t[..i - 1];
    }
    assert specs[1..][i - 1] == specs[i];
    OutcomeAtHistory(c, done + [s0], specs[1..], i - 1);
  }

  /** Index of the first spec whose creation ends the pass, or |specs| when none does. */
  function FirstBlocked(c: Collaborators, done: seq<Service>, specs: seq<APISpec>): (k: nat)
    ensures k <= |specs|
    ensures forall i :: 0 <= i < k ==> !Blocking(OutcomeAt(c, done, specs, i))
    ensures k < |specs| ==> Blocking(OutcomeAt(c, done, specs, k))
    decreases |specs|
  {
    if specs == [] then 0
    else if Blocking(c.createService(done, ServiceFor(specs[0]))) then 0
    else 1 + FirstBlocked(c, done + [ServiceFor(specs[0])], specs[1..])
  }

  /** The notices of the creations that succeed, in list order. */
  function CreatedMessages(c: Collaborators, done: seq<Service>, specs: seq<APISpec>): (ms: seq<PolicyCreatedMessage>)
    ensures |ms| <= |specs|
    decreases |specs|
  {
    if specs == [] then []
    else
      var svc := ServiceFor(specs[0]);
      var o := c.createService(done, svc);
      (if o.Created? then [o.message] else []) + CreatedMessages(c, done + [svc], specs[1..])
  }

  /** The error a blocking outcome is reported as: user input for missing variables, system otherwise. */
  function BlockedError(spec: APISpec, o: CreateOutcome): (e: ApiError)
    requires Blocking(o)
    ensures o.MissingVariableConfig? <==> e.UserInputError?
    ensures o.MissingVariableConfig? ==> e == UserInputError(NeedsVariableConfig(spec, o.detail), StateInput)
    ensures o.OtherFailure? ==> e == SystemError(ServiceCreateFailed(o.detail))
  {
    if o.MissingVariableConfig? then UserInputError(NeedsVariableConfig(spec, o.detail), StateInput)
    else SystemError(ServiceCreateFailed(o.detail))
  }

  /**
   * What the creation pass over specs must give: when no creation blocks,
   * the notices of the created services after one creation per spec;
   * otherwise the first blocking outcome's error, after the creations up
   * to and including that one, none of them undone.
   */
  ghost predicate ProvisionedAs(c: Collaborators, done: seq<Service>, specs: seq<APISpec>, s: Step<seq<PolicyCreatedMessage>>) {
    var k := FirstBlocked(c, done, specs);
    if k == |specs| then
      s == Step(Ok(CreatedMessages(c, done, specs)), CreateCalls(Services(specs)))
    else
      s == Step(Err(BlockedError(specs[k], OutcomeAt(c, done, specs, k))), CreateCalls(Services(specs)[..k + 1]))
  }

  lemma CreateCallsPrepend(svc: Service, t: seq<Service>, n: nat)
    requires n <= |t|
    ensures CreateCalls(([svc] + t)[..n + 1]) == [CreateService(svc)] + CreateCalls(t[..n])
  {
    assert ([svc] + t)[..n + 1] == [svc] + t[..n];
  }

  /** A pass that carries on past a first non-blocking outcome and then ends in an error. */
  lemma ProvisionedAsPrependFailed(c: Collaborators, done: seq<Service>, specs: seq<APISpec>, rest: Step<seq<PolicyCreatedMessage>>)
    requires specs != []
    requires !Blocking(c.createService(done, ServiceFor(specs[0])))
    requires ProvisionedAs(c, done + [ServiceFor(specs[0])], specs[1..], rest)
    requires rest.result.Err?
    ensures ProvisionedAs(c, done, specs, Step(rest.result, [CreateService(ServiceFor(specs[0]))] + rest.trace))
  {
    var svc := ServiceFor(specs[0]);
    var tail := specs[1..];
    var k := FirstBlocked(c, done + [svc], tail);
    assert k < |tail|;
    var err := BlockedError(tail[k], OutcomeAt(c, done + [svc], tail, k));
    assert rest == Step(Err(err), CreateCalls(Services(tail)[..k + 1]));
    assert FirstBlocked(c, done, specs) == 1 + k;
    assert err == BlockedError(specs[k + 1], OutcomeAt(c, done, specs, k + 1)) by {
      assert specs[k + 1] == tail[k];
      assert OutcomeAt(c, done, specs, k + 1) == OutcomeAt(c, done + [svc], tail, k);
    }
    assert CreateCalls(Services(specs)[..k + 2]) == [CreateService(svc)] + rest.trace by {
      assert Services(specs) == [svc] + Services(tail);
      CreateCallsPrepend(svc, Services(tail), k + 1);
    }
  }

  /** A pass that carries on past a first non-blocking outcome and then completes. */
  lemma ProvisionedAsPrependDone(c: Collaborators, done: seq<Service>, specs: seq<APISpec>, rest: Step<seq<PolicyCreatedMessage>>)
    requires specs != []
    requires !Blocking(c.createService(done, ServiceFor(specs[0])))
    requires ProvisionedAs(c, done + [ServiceFor(specs[0])], specs[1..], rest)
    requires rest.result.Ok?
    ensures var o := c.createService(done, ServiceFor(specs[0]));
            var mine := if o.Created? then [o.message] else [];
            ProvisionedAs(c, done, specs, Step(Ok(mine + rest.result.value), [CreateService(ServiceFor(specs[0]))] + rest.trace))
  {
    var svc := ServiceFor(specs[0]);
    var k := FirstBlocked(c, done + [svc], specs[1..]);
    assert k == |specs| - 1;
    assert FirstBlocked(c, done, specs) == |specs|;
    assert Services(specs) == [svc] + Services(specs[1..]);
    assert CreateCalls([svc] + Services(specs[1..])) == [CreateService(svc)] + CreateCalls(Services(specs[1..]));
  }

  /**
   * The creation pass: one creation per spec, in order; a created service
   * adds its notice, an already registered one is passed over, and the
   * first missing-variable or other failure ends the pass.
   */
  function Provision(c: Collaborators, done: seq<Service>, specs: seq<APISpec>): Step<seq<PolicyCreatedMessage>>
    decreases |specs|
  {
    if specs == [] then Step(Ok([]), [])
    else
      var svc := ServiceFor(specs[0]);
      match c.createService(done, svc)
      case MissingVariableConfig(d) =>
        // The source asserts the type of the wrong error variable here; the
        // user-input error below is the one the branch evidently intends.
        Step(Err(UserInputError(NeedsVariableConfig(specs[0], d), StateInput)), [CreateService(svc)])
      case OtherFailure(d) =>
        Step(Err(SystemError(ServiceCreateFailed(d))), [CreateService(svc)])
      case DuplicateService =>
        Continue([], [CreateService(svc)], Provision(c, done + [svc], specs[1..]))
      case Created(m) =>
        Continue([m], [CreateService(svc)], Provision(c, done + [svc], specs[1..]))
  }

  /** The rest of a pass after a non-blocking outcome: its notices, if any, and its call ahead of the rest. */
  function Continue(mine: seq<PolicyCreatedMessage>, call: seq<Call>, rest: Step<seq<PolicyCreatedMessage>>): Step<seq<PolicyCreatedMessage>> {
    match rest.result
    case Ok(ms) => Step(Ok(mine + ms), call + rest.trace)
    case Err(e) => Step(Err(e), call + rest.trace)
  }

  /** The creation loop makes the calls and gives the result the index-based description names. */
  lemma {:induction false} ProvisionProvisions(c: Collaborators, done: seq<Service>, specs: seq<APISpec>)
    ensures ProvisionedAs(c, done, specs, Provision(c, done, specs))
    decreases |specs|
  {
    if specs != [] {
      var svc := ServiceFor(specs[0]);
      var o := c.createService(done, svc);
      if Blocking(o) {
        assert Services(specs)[..1] == [svc];
      } else {
        ProvisionProvisions(c, done + [svc], specs[1..]);
        var rest := Provision(c, done + [svc], specs[1..]);
        if rest.result.Ok? {
          ProvisionedAsPrependDone(c, done, specs, rest);
        } else {
          ProvisionedAsPrependFailed(c, done, specs, rest);
        }
      }
    }
  }

  // ---------------------------------------------------------------------
  // The update
  // ---------------------------------------------------------------------

  /** The pattern request the controller makes for a device. */
  function PatternRequestFor(c: Collaborators, dev: HorizonDevice): PatternRequest {
    PatternRequest(dev.org, dev.pattern, c.exchangeId(dev), dev.token)
  }

  /**
   * Auto-configuration for a device with a pattern: fetch the pattern,
   * resolve its workloads to one complete API spec list, create a service
   * for each entry.
   */
  function AutoConfigure(c: Collaborators, dev: HorizonDevice): (s: Step<seq<PolicyCreatedMessage>>)
    ensures |s.trace| >= 1 && s.trace[0] == GetPatterns(PatternRequestFor(c, dev))
  {
    var req := PatternRequestFor(c, dev);
    var fetch := [GetPatterns(req)];
    match c.getPatterns(req)
    case Err(e) => Step(Err(SystemError(PatternReadFailed(dev.pattern, e))), fetch)
    case Ok(patterns) =>
      if |patterns| != 1 then Step(Err(SystemError(PatternCountMismatch(|patterns|))), fetch)
      else
        var key := PatternKey(dev.org, dev.pattern);
        if key !in patterns then Step(Err(SystemError(PatternKeyMissing(key))), fetch)
        else
          var resolved := ResolveWorkloads(c, patterns[key].workloads, c.exchangeId(dev), dev.token, []);
          match resolved.result
          case Err(e) => Step(Err(e), fetch + resolved.trace)
          case Ok(specs) =>
            var created := Provision(c, [], specs);
            Step(created.result, fetch + resolved.trace + created.trace)
  }

  /**
   * UpdateConfigstate: look the device up; check the requested state is a
   * state value, then whether it is a no-op, then whether it is the
   * supported change; auto-configure when the device has a pattern; and
   * only then write the new state.
   */
  function UpdateConfigstate(c: Collaborators, requested: string): (run: Run)
    ensures |run.trace| >= 1 && run.trace[0] == FindDevice
    ensures c.lookup.ReadFailed? ==> run == Run(Failed(SystemError(DeviceReadFailed(c.lookup.reason))), [FindDevice])
    ensures c.lookup.NoDevice? ==> run == Run(Failed(NotFoundError), [FindDevice])
    ensures run.response.Succeeded? && |run.trace| > 1 ==>
              run.trace[|run.trace| - 1] == SetConfigstate(c.lookup.device.id, requested)
  {
    match c.lookup
    case ReadFailed(e) => Run(Failed(SystemError(DeviceReadFailed(e))), [FindDevice])
    case NoDevice => Run(Failed(NotFoundError), [FindDevice])
    case Found(dev) =>
      if requested != Configuring && requested != Configured then
        Run(Failed(UserInputError(UnsupportedStateValue(requested), StateInput)), [FindDevice])
      else if NoOpStateChange(dev.config.state, requested) then
        Run(Succeeded(dev.config, []), [FindDevice])
      else if !ValidStateChange(dev.config.state, requested) then
        Run(Failed(UserInputError(UnsupportedTransition(dev.config.state, requested), StateInput)), [FindDevice])
      else
        var auto := if dev.pattern != "" then AutoConfigure(c, dev) else Step(Ok([]), []);
        var before := [FindDevice] + auto.trace;
        match auto.result
        case Err(e) => Run(Failed(e), before)
        case Ok(msgs) =>
          var write := SetConfigstate(dev.id, requested);
          match c.setConfigstate(dev.id, requested)
          case Err(e) => Run(Failed(SystemError(PersistFailed(e))), before + [write])
          case Ok(updated) => Run(Succeeded(updated.config, msgs), before + [write])
  }

}
