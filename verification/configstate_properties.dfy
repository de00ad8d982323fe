/**
 * What the configstate update guarantees, stated over its response and
 * its trace of collaborator calls: which calls happen, in which order,
 * what each failure is reported as, and that the new configstate is
 * written (the SetConfigstate call) at most once, last, and only when
 * everything before it succeeded. Service creation also changes the local
 * store; those changes are not counted as configstate writes.
 */
module ConfigstateProperties {

  import opened Results
  import opened States
  import opened SpecLists
  import opened ServiceNames
  import opened Configstates

  /** Number of configstate writes (SetConfigstate calls) in a trace. */
  function ConfigstateWrites(trace: seq<Call>): nat {
    if trace == [] then 0 else (if trace[0].SetConfigstate? then 1 else 0) + ConfigstateWrites(trace[1..])
  }

  lemma {:induction false} ConfigstateWritesAppend(a: seq<Call>, b: seq<Call>)
    ensures ConfigstateWrites(a + b) == ConfigstateWrites(a) + ConfigstateWrites(b)
  {
    if a == [] {
      assert a + b == b;
    } else {
      assert (a + b)[1..] == a[1..] + b;
      ConfigstateWritesAppend(a[1..], b);
    }
  }

  lemma {:induction false} NoConfigstateWrites(t: seq<Call>)
    requires forall i :: 0 <= i < |t| ==> !t[i].SetConfigstate?
    ensures ConfigstateWrites(t) == 0
  {
    if t != [] {
      assert forall i :: 0 <= i < |t[1..]| ==> t[1..][i] == t[i + 1];
      NoConfigstateWrites(t[1..]);
    }
  }

  lemma ResolveAndCreateCallsWriteNoConfigstate(reqs: seq<WorkloadRequest>, svcs: seq<Service>)
    ensures ConfigstateWrites(ResolveCalls(reqs)) == 0
    ensures ConfigstateWrites(CreateCalls(svcs)) == 0
  {
    NoConfigstateWrites(ResolveCalls(reqs));
    NoConfigstateWrites(CreateCalls(svcs));
  }

  // ---------------------------------------------------------------------
  // Named situations
  // ---------------------------------------------------------------------

  /** A recorded device in the configuring state, asked to become configured. */
  predicate Forward(c: Collaborators) {
    c.lookup.Found? && c.lookup.device.config.state == Configuring
  }

  /** A forward request for a device with a pattern, whose fetch returned exactly the device's pattern. */
  predicate PatternFetched(c: Collaborators) {
    && Forward(c)
    && c.lookup.device.pattern != ""
    && var fetched := c.getPatterns(PatternRequestFor(c, c.lookup.device));
    && fetched.Ok?
    && |fetched.value| == 1
    && PatternKey(c.lookup.device.org, c.lookup.device.pattern) in fetched.value
  }

  /** The resolver requests the fetched pattern calls for on this node. */
  function Requests(c: Collaborators): seq<WorkloadRequest>
    requires PatternFetched(c)
  {
    var dev := c.lookup.device;
    var pattern := c.getPatterns(PatternRequestFor(c, dev)).value[PatternKey(dev.org, dev.pattern)];
    ResolverRequests(pattern.workloads, c.arch, c.exchangeId(dev), dev.token)
  }

  /** The complete API spec list of the fetched pattern. */
  function CompleteList(c: Collaborators): seq<APISpec>
    requires PatternFetched(c)
  {
    FoldResolved(c, [], Requests(c))
  }

  /** The calls that precede resolution for a device with a pattern. */
  function Preamble(c: Collaborators): seq<Call>
    requires c.lookup.Found?
  {
    [FindDevice, GetPatterns(PatternRequestFor(c, c.lookup.device))]
  }

  // ---------------------------------------------------------------------
  // The early exits
  // ---------------------------------------------------------------------

  /**
   * With no device recorded the view reports configuring, and the update
   * is a not-found error that calls nothing after the lookup.
   */
  lemma NoDeviceMeansNotFound(c: Collaborators, requested: string)
    requires c.lookup.NoDevice?
    ensures FindConfigstateForOutput(c.lookup) == Ok(Configstate(Configuring))
    ensures UpdateConfigstate(c, requested) == Run(Failed(NotFoundError), [FindDevice])
  {
  }

  /**
   * A device record the store cannot read fails the view with the read's
   * error, and the update with a system error carrying it; nothing is
   * called after the lookup.
   */
  lemma UnreadableDeviceIsSystemError(c: Collaborators, requested: string)
    requires c.lookup.ReadFailed?
    ensures FindConfigstateForOutput(c.lookup) == Err(c.lookup.reason)
    ensures UpdateConfigstate(c, requested) == Run(Failed(SystemError(DeviceReadFailed(c.lookup.reason))), [FindDevice])
  {
  }

  /**
   * A requested value other than the two states is a user-input error,
   * checked before the no-op test: even a device whose recorded state is
   * that same value gets the error.
   */
  lemma StateValueCheckedFirst(c: Collaborators, requested: string)
    requires c.lookup.Found? && !IsStateValue(requested)
    ensures UpdateConfigstate(c, requested)
            == Run(Failed(UserInputError(UnsupportedStateValue(requested), StateInput)), [FindDevice])
  {
  }

  /** A no-op request returns the recorded view, with no notices and no calls after the lookup. */
  lemma NoOpHasNoEffect(c: Collaborators, requested: string)
    requires c.lookup.Found? && IsStateValue(requested)
    requires c.lookup.device.config.state == requested
    ensures UpdateConfigstate(c, requested) == Run(Succeeded(c.lookup.device.config, []), [FindDevice])
    ensures FindConfigstateForOutput(c.lookup) == Ok(UpdateConfigstate(c, requested).response.config)
  {
  }

  /** Going back from configured to configuring is a user-input error naming both states. */
  lemma ReverseTransitionRejected(c: Collaborators)
    requires c.lookup.Found? && c.lookup.device.config.state == Configured
    ensures UpdateConfigstate(c, Configuring)
            == Run(Failed(UserInputError(UnsupportedTransition(Configured, Configuring), StateInput)), [FindDevice])
  {
  }

  /** A device without a pattern goes straight to the configstate write and gets no notices. */
  lemma NoPatternWritesOnly(c: Collaborators)
    requires Forward(c) && c.lookup.device.pattern == ""
    ensures var dev := c.lookup.device;
            var run := UpdateConfigstate(c, Configured);
            && run.trace == [FindDevice, SetConfigstate(dev.id, Configured)]
            && (run.response.Succeeded? ==> run.response.messages == [])
            && run.response == match c.setConfigstate(dev.id, Configured)
                               case Ok(u) => Succeeded(u.config, [])
                               case Err(e) => Failed(SystemError(PersistFailed(e)))
  {
  }

  /**
   * A failed pattern fetch, a fetch that does not return exactly one
   * pattern, or one without the org/name key is a system error; nothing
   * is called after the fetch.
   */
  lemma PatternFetchFailures(c: Collaborators)
    requires Forward(c) && c.lookup.device.pattern != ""
    ensures var dev := c.lookup.device;
            var fetched := c.getPatterns(PatternRequestFor(c, dev));
            var key := PatternKey(dev.org, dev.pattern);
            var run := UpdateConfigstate(c, Configured);
            && (fetched.Err? ==>
                  run == Run(Failed(SystemError(PatternReadFailed(dev.pattern, fetched.error))), Preamble(c)))
            && (fetched.Ok? && |fetched.value| != 1 ==>
                  run == Run(Failed(SystemError(PatternCountMismatch(|fetched.value|))), Preamble(c)))
            && (fetched.Ok? && |fetched.value| == 1 && key !in fetched.value ==>
                  run == Run(Failed(SystemError(PatternKeyMissing(key))), Preamble(c)))
  {
  }

  /** A forward request runs auto-configuration, if the device has a pattern, and then writes. */
  lemma ForwardUpdateShape(c: Collaborators)
    requires Forward(c)
    ensures var dev := c.lookup.device;
            var auto := if dev.pattern != "" then AutoConfigure(c, dev) else Step(Ok([]), []);
            UpdateConfigstate(c, Configured)
            == match auto.result
               case Err(e) => Run(Failed(e), [FindDevice] + auto.trace)
               case Ok(msgs) =>
                 match c.setConfigstate(dev.id, Configured)
                 case Err(e) => Run(Failed(SystemError(PersistFailed(e))), [FindDevice] + auto.trace + [SetConfigstate(dev.id, Configured)])
                 case Ok(u) => Run(Succeeded(u.config, msgs), [FindDevice] + auto.trace + [SetConfigstate(dev.id, Configured)])
  {
  }

  /** A failed auto-configuration is the update's error, after its calls, with nothing written. */
  lemma ForwardAutoFailed(c: Collaborators)
    requires Forward(c) && c.lookup.device.pattern != ""
    requires AutoConfigure(c, c.lookup.device).result.Err?
    ensures var auto := AutoConfigure(c, c.lookup.device);
            UpdateConfigstate(c, Configured) == Run(Failed(auto.result.error), [FindDevice] + auto.trace)
  {
    ForwardUpdateShape(c);
  }

  /** A successful auto-configuration is followed by the configstate write. */
  lemma ForwardAutoDone(c: Collaborators)
    requires Forward(c) && c.lookup.device.pattern != ""
    requires AutoConfigure(c, c.lookup.device).result.Ok?
    ensures var dev := c.lookup.device;
            var auto := AutoConfigure(c, dev);
            var run := UpdateConfigstate(c, Configured);
            && run.trace == [FindDevice] + auto.trace + [SetConfigstate(dev.id, Configured)]
            && run.response == match c.setConfigstate(dev.id, Configured)
                               case Ok(u) => Succeeded(u.config, auto.result.value)
                               case Err(e) => Failed(SystemError(PersistFailed(e)))
  {
    ForwardUpdateShape(c);
  }

  /** With the pattern fetched, auto-configuration is resolution followed, if it succeeds, by the creation pass. */
  lemma FetchedAutoConfigureShape(c: Collaborators)
    requires PatternFetched(c)
    ensures var dev := c.lookup.device;
            var req := PatternRequestFor(c, dev);
            var key := PatternKey(dev.org, dev.pattern);
            var resolved := ResolveWorkloads(c, c.getPatterns(req).value[key].workloads, c.exchangeId(dev), dev.token, []);
            && ResolvedAs(c, [], Requests(c), resolved)
            && (resolved.result.Err? ==>
                  AutoConfigure(c, dev) == Step(Err(resolved.result.error), [GetPatterns(req)] + resolved.trace))
            && (resolved.result.Ok? ==>
                  AutoConfigure(c, dev)
                  == Step(Provision(c, [], resolved.result.value).result,
                          [GetPatterns(req)] + resolved.trace + Provision(c, [], resolved.result.value).trace))
  {
    var dev := c.lookup.device;
    var req := PatternRequestFor(c, dev);
    var key := PatternKey(dev.org, dev.pattern);
    ResolveWorkloadsResolves(c, c.getPatterns(req).value[key].workloads, c.exchangeId(dev), dev.token, []);
  }

  /**
   * The first workload the resolver fails on ends the update with a
   * system error naming that request; no service is created and nothing
   * is written.
   */
  lemma ResolutionFailureStops(c: Collaborators)
    requires PatternFetched(c)
    requires FirstUnresolved(c, Requests(c)) < |Requests(c)|
    ensures var reqs := Requests(c);
            var k := FirstUnresolved(c, reqs);
            UpdateConfigstate(c, Configured)
            == Run(Failed(SystemError(WorkloadResolveFailed(reqs[k], c.resolveWorkload(reqs[k]).error))),
                   Preamble(c) + ResolveCalls(reqs[..k + 1]))
  {
    var reqs := Requests(c);
    var k := FirstUnresolved(c, reqs);
    AutoConfigureUnresolved(c);
    AutoFailedRunAfter(c, SystemError(WorkloadResolveFailed(reqs[k], c.resolveWorkload(reqs[k]).error)),
                       ResolveCalls(reqs[..k + 1]));
  }

  lemma AutoConfigureUnresolved(c: Collaborators)
    requires PatternFetched(c)
    requires FirstUnresolved(c, Requests(c)) < |Requests(c)|
    ensures var reqs := Requests(c);
            var k := FirstUnresolved(c, reqs);
            AutoConfigure(c, c.lookup.device)
            == Step(Err(SystemError(WorkloadResolveFailed(reqs[k], c.resolveWorkload(reqs[k]).error))),
                    [GetPatterns(PatternRequestFor(c, c.lookup.device))] + ResolveCalls(reqs[..k + 1]))
  {
    var dev := c.lookup.device;
    var req := PatternRequestFor(c, dev);
    var key := PatternKey(dev.org, dev.pattern);
    var resolved := ResolveWorkloads(c, c.getPatterns(req).value[key].workloads, c.exchangeId(dev), dev.token, []);
    var reqs := Requests(c);
    var k := FirstUnresolved(c, reqs);
    var err := SystemError(WorkloadResolveFailed(reqs[k], c.resolveWorkload(reqs[k]).error));
    FetchedAutoConfigureShape(c);
    assert resolved == Step(Err(err), ResolveCalls(reqs[..k + 1]));
  }

  /** Once every workload resolves, auto-configuration is the creation pass over the complete list. */
  lemma AutoConfigureAfterResolution(c: Collaborators)
    requires PatternFetched(c)
    requires FirstUnresolved(c, Requests(c)) == |Requests(c)|
    ensures var created := Provision(c, [], CompleteList(c));
            AutoConfigure(c, c.lookup.device)
            == Step(created.result, [GetPatterns(PatternRequestFor(c, c.lookup.device))] + ResolveCalls(Requests(c)) + created.trace)
  {
    var dev := c.lookup.device;
    var req := PatternRequestFor(c, dev);
    var key := PatternKey(dev.org, dev.pattern);
    var resolved := ResolveWorkloads(c, c.getPatterns(req).value[key].workloads, c.exchangeId(dev), dev.token, []);
    FetchedAutoConfigureShape(c);
    assert resolved == Step(Ok(CompleteList(c)), ResolveCalls(Requests(c)));
  }

  /**
   * Once every workload resolves, services are created for the complete
   * list in order; the first blocking outcome ends the update with its
   * error, the creations before it standing, and nothing is written.
   */
  lemma ProvisioningBlocked(c: Collaborators)
    requires PatternFetched(c)
    requires FirstUnresolved(c, Requests(c)) == |Requests(c)|
    requires FirstBlocked(c, [], CompleteList(c)) < |CompleteList(c)|
    ensures var specs := CompleteList(c);
            var k := FirstBlocked(c, [], specs);
            UpdateConfigstate(c, Configured)
            == Run(Failed(BlockedError(specs[k], OutcomeAt(c, [], specs, k))),
                   Preamble(c) + ResolveCalls(Requests(c)) + CreateCalls(Services(specs)[..k + 1]))
  {
    var specs := CompleteList(c);
    var k := FirstBlocked(c, [], specs);
    AutoConfigureBlocked(c);
    AutoFailedRun(c, BlockedError(specs[k], OutcomeAt(c, [], specs, k)),
                  ResolveCalls(Requests(c)), CreateCalls(Services(specs)[..k + 1]));
  }

  lemma AutoConfigureBlocked(c: Collaborators)
    requires PatternFetched(c)
    requires FirstUnresolved(c, Requests(c)) == |Requests(c)|
    requires FirstBlocked(c, [], CompleteList(c)) < |CompleteList(c)|
    ensures var specs := CompleteList(c);
            var k := FirstBlocked(c, [], specs);
            AutoConfigure(c, c.lookup.device)
            == Step(Err(BlockedError(specs[k], OutcomeAt(c, [], specs, k))),
                    [GetPatterns(PatternRequestFor(c, c.lookup.device))] + ResolveCalls(Requests(c))
                    + CreateCalls(Services(specs)[..k + 1]))
  {
    AutoConfigureAfterResolution(c);
    ProvisionProvisions(c, [], CompleteList(c));
  }

  /** An auto-configuration failing after the fetch and the calls t1 then t2 fails the update the same way. */
  lemma AutoFailedRun(c: Collaborators, err: ApiError, t1: seq<Call>, t2: seq<Call>)
    requires Forward(c) && c.lookup.device.pattern != ""
    requires AutoConfigure(c, c.lookup.device) == Step(Err(err), [GetPatterns(PatternRequestFor(c, c.lookup.device))] + t1 + t2)
    ensures UpdateConfigstate(c, Configured) == Run(Failed(err), Preamble(c) + t1 + t2)
  {
    ForwardAutoFailed(c);
    PrefixTwo(FindDevice, GetPatterns(PatternRequestFor(c, c.lookup.device)), t1, t2);
  }

  /** An auto-configuration failing after the fetch and the calls t fails the update the same way. */
  lemma AutoFailedRunAfter(c: Collaborators, err: ApiError, t: seq<Call>)
    requires Forward(c) && c.lookup.device.pattern != ""
    requires AutoConfigure(c, c.lookup.device) == Step(Err(err), [GetPatterns(PatternRequestFor(c, c.lookup.device))] + t)
    ensures UpdateConfigstate(c, Configured) == Run(Failed(err), Preamble(c) + t)
  {
    ForwardAutoFailed(c);
    PrefixOne(FindDevice, GetPatterns(PatternRequestFor(c, c.lookup.device)), t);
  }

  lemma PrefixOne(a: Call, b: Call, t: seq<Call>)
    ensures [a] + ([b] + t) == [a, b] + t
  {
  }

  lemma PrefixTwo(a: Call, b: Call, t1: seq<Call>, t2: seq<Call>)
    ensures [a] + ([b] + t1 + t2) == [a, b] + t1 + t2
  {
  }

  /**
   * When no creation blocks, the state is written last, and a successful
   * write reports the notices of the created services, in list order.
   */
  lemma ProvisioningThenWrite(c: Collaborators)
    requires PatternFetched(c)
    requires FirstUnresolved(c, Requests(c)) == |Requests(c)|
    requires FirstBlocked(c, [], CompleteList(c)) == |CompleteList(c)|
    ensures var dev := c.lookup.device;
            var specs := CompleteList(c);
            var run := UpdateConfigstate(c, Configured);
            && run.trace == Preamble(c) + ResolveCalls(Requests(c)) + CreateCalls(Services(specs))
                            + [SetConfigstate(dev.id, Configured)]
            && run.response == match c.setConfigstate(dev.id, Configured)
                               case Ok(u) => Succeeded(u.config, CreatedMessages(c, [], specs))
                               case Err(e) => Failed(SystemError(PersistFailed(e)))
  {
    AutoConfigureCompletes(c);
    AutoDoneRun(c, CreatedMessages(c, [], CompleteList(c)), ResolveCalls(Requests(c)), CreateCalls(Services(CompleteList(c))));
  }

  lemma AutoConfigureCompletes(c: Collaborators)
    requires PatternFetched(c)
    requires FirstUnresolved(c, Requests(c)) == |Requests(c)|
    requires FirstBlocked(c, [], CompleteList(c)) == |CompleteList(c)|
    ensures var specs := CompleteList(c);
            AutoConfigure(c, c.lookup.device)
            == Step(Ok(CreatedMessages(c, [], specs)),
                    [GetPatterns(PatternRequestFor(c, c.lookup.device))] + ResolveCalls(Requests(c)) + CreateCalls(Services(specs)))
  {
    AutoConfigureAfterResolution(c);
    ProvisionProvisions(c, [], CompleteList(c));
  }

  /** An auto-configuration succeeding after the fetch and the calls t1 then t2 is followed by the write. */
  lemma AutoDoneRun(c: Collaborators, msgs: seq<PolicyCreatedMessage>, t1: seq<Call>, t2: seq<Call>)
    requires Forward(c) && c.lookup.device.pattern != ""
    requires AutoConfigure(c, c.lookup.device) == Step(Ok(msgs), [GetPatterns(PatternRequestFor(c, c.lookup.device))] + t1 + t2)
    ensures var dev := c.lookup.device;
            var run := UpdateConfigstate(c, Configured);
            && run.trace == Preamble(c) + t1 + t2 + [SetConfigstate(dev.id, Configured)]
            && run.response == match c.setConfigstate(dev.id, Configured)
                               case Ok(u) => Succeeded(u.config, msgs)
                               case Err(e) => Failed(SystemError(PersistFailed(e)))
  {
    ForwardAutoDone(c);
    PrefixTwo(FindDevice, GetPatterns(PatternRequestFor(c, c.lookup.device)), t1, t2);
  }

  /**
   * Two dependencies, the first already registered and the second new:
   * the update succeeds with exactly the second one's notice.
   */
  lemma DuplicateThenCreated(c: Collaborators, x: APISpec, y: APISpec, m: PolicyCreatedMessage, u: HorizonDevice)
    requires PatternFetched(c)
    requires FirstUnresolved(c, Requests(c)) == |Requests(c)|
    requires CompleteList(c) == [x, y]
    requires c.createService([], ServiceFor(x)) == DuplicateService
    requires c.createService([ServiceFor(x)], ServiceFor(y)) == Created(m)
    requires c.setConfigstate(c.lookup.device.id, Configured) == Ok(u)
    ensures UpdateConfigstate(c, Configured).response == Succeeded(u.config, [m])
  {
    assert [x, y][1..] == [y];
    assert [] + [ServiceFor(x)] == [ServiceFor(x)];
    assert OutcomeAt(c, [], [x, y], 1) == c.createService([ServiceFor(x)], ServiceFor(y));
    assert FirstBlocked(c, [], [x, y]) == 2;
    assert CreatedMessages(c, [], [x, y]) == [m];
    ProvisioningThenWrite(c);
  }

  /**
   * A dependency that needs variables configured is a user-input error
   * naming it, and the new state is never written.
   */
  lemma MissingVariableLeavesStateUnwritten(c: Collaborators, z: APISpec, d: string)
    requires PatternFetched(c)
    requires FirstUnresolved(c, Requests(c)) == |Requests(c)|
    requires CompleteList(c) == [z]
    requires c.createService([], ServiceFor(z)) == MissingVariableConfig(d)
    ensures UpdateConfigstate(c, Configured).response == Failed(UserInputError(NeedsVariableConfig(z, d), StateInput))
    ensures ConfigstateWrites(UpdateConfigstate(c, Configured).trace) == 0
  {
    assert FirstBlocked(c, [], [z]) == 0;
    ProvisioningBlocked(c);
    ConfigstateWritesAppend(Preamble(c) + ResolveCalls(Requests(c)), CreateCalls(Services([z])[..1]));
    ConfigstateWritesAppend(Preamble(c), ResolveCalls(Requests(c)));
    ResolveAndCreateCallsWriteNoConfigstate(Requests(c), Services([z])[..1]);
  }

  // ---------------------------------------------------------------------
  // The configstate write
  // ---------------------------------------------------------------------

  lemma ResolutionWritesNoConfigstate(c: Collaborators, ws: seq<Workload>, requester: string, token: string, acc: seq<APISpec>)
    ensures ConfigstateWrites(ResolveWorkloads(c, ws, requester, token, acc).trace) == 0
  {
    var reqs := ResolverRequests(ws, c.arch, requester, token);
    ResolveWorkloadsResolves(c, ws, requester, token, acc);
    var k := FirstUnresolved(c, reqs);
    if k < |reqs| {
      ResolveAndCreateCallsWriteNoConfigstate(reqs[..k + 1], []);
    } else {
      ResolveAndCreateCallsWriteNoConfigstate(reqs, []);
    }
  }

  lemma ProvisionWritesNoConfigstate(c: Collaborators, done: seq<Service>, specs: seq<APISpec>)
    ensures ConfigstateWrites(Provision(c, done, specs).trace) == 0
  {
    ProvisionProvisions(c, done, specs);
    var j := FirstBlocked(c, done, specs);
    if j < |specs| {
      ResolveAndCreateCallsWriteNoConfigstate([], Services(specs)[..j + 1]);
    } else {
      ResolveAndCreateCallsWriteNoConfigstate([], Services(specs));
    }
  }

  /** Auto-configuration never writes the configstate. */
  lemma AutoConfigureWritesNoConfigstate(c: Collaborators, dev: HorizonDevice)
    ensures ConfigstateWrites(AutoConfigure(c, dev).trace) == 0
  {
    var req := PatternRequestFor(c, dev);
    var fetch := [GetPatterns(req)];
    assert ConfigstateWrites(fetch) == 0;
    match c.getPatterns(req)
    case Err(_) =>
    case Ok(patterns) =>
      var key := PatternKey(dev.org, dev.pattern);
      if |patterns| == 1 && key in patterns {
        var resolved := ResolveWorkloads(c, patterns[key].workloads, c.exchangeId(dev), dev.token, []);
        ResolutionWritesNoConfigstate(c, patterns[key].workloads, c.exchangeId(dev), dev.token, []);
        ConfigstateWritesAppend(fetch, resolved.trace);
        if resolved.result.Ok? {
          var created := Provision(c, [], resolved.result.value);
          ProvisionWritesNoConfigstate(c, [], resolved.result.value);
          ConfigstateWritesAppend(fetch + resolved.trace, created.trace);
        }
      }
  }

  /**
   * The configstate is written at most once, as the last call, with the
   * device's id and the requested state, and only for the supported
   * transition once auto-configuration succeeded. A success either
   * reports the written record's view or is a no-op with no calls after
   * the lookup.
   */
  lemma ConfigstateWrittenAtMostOnceLast(c: Collaborators, requested: string)
    ensures var run := UpdateConfigstate(c, requested);
            && ConfigstateWrites(run.trace) <= 1
            && (ConfigstateWrites(run.trace) == 1 ==>
                  && c.lookup.Found?
                  && run.trace[|run.trace| - 1] == SetConfigstate(c.lookup.device.id, requested)
                  && ValidStateChange(c.lookup.device.config.state, requested)
                  && (c.lookup.device.pattern != "" ==> AutoConfigure(c, c.lookup.device).result.Ok?))
            && (run.response.Succeeded? ==>
                  || (run.trace == [FindDevice] && c.lookup.Found? && c.lookup.device.config.state == requested)
                  || (&& ConfigstateWrites(run.trace) == 1
                      && c.setConfigstate(c.lookup.device.id, requested).Ok?
                      && run.response.config == c.setConfigstate(c.lookup.device.id, requested).value.config))
  {
    var run := UpdateConfigstate(c, requested);
    assert ConfigstateWrites([FindDevice]) == 0;
    if c.lookup.Found? {
      var dev := c.lookup.device;
      if IsStateValue(requested) && !NoOpStateChange(dev.config.state, requested)
         && ValidStateChange(dev.config.state, requested) {
        var auto := if dev.pattern != "" then AutoConfigure(c, dev) else Step(Ok([]), []);
        if dev.pattern != "" {
          AutoConfigureWritesNoConfigstate(c, dev);
        }
        ConfigstateWritesAppend([FindDevice], auto.trace);
        if auto.result.Ok? {
          var write := SetConfigstate(dev.id, requested);
          ConfigstateWritesAppend([FindDevice] + auto.trace, [write]);
          assert ConfigstateWrites([write]) == 1;
        }
      }
    }
  }

  /**
   * With a configstate write that records the state it is given, every
   * successful update reports the requested state.
   */
  lemma SuccessReportsRequestedState(c: Collaborators, requested: string)
    requires forall id, st :: c.setConfigstate(id, st).Ok? ==> c.setConfigstate(id, st).value.config.state == st
    ensures var run := UpdateConfigstate(c, requested);
            run.response.Succeeded? ==> run.response.config.state == requested
  {
  }

  // ---------------------------------------------------------------------
  // Resolution
  // ---------------------------------------------------------------------

  lemma {:induction false} ResolverRequestsAppend(a: seq<Workload>, b: seq<Workload>, arch: string, requester: string, token: string)
    ensures ResolverRequests(a + b, arch, requester, token)
            == ResolverRequests(a, arch, requester, token) + ResolverRequests(b, arch, requester, token)
  {
    if a == [] {
      assert a + b == b;
    } else {
      assert (a + b)[0] == a[0];
      assert (a + b)[1..] == a[1..] + b;
      ResolverRequestsAppend(a[1..], b, arch, requester, token);
    }
  }

  /**
   * Every resolver request comes from a version choice of a workload built
   * for the node's architecture, and every such choice yields one.
   */
  lemma {:induction false} RequestsAreMatchingChoices(ws: seq<Workload>, arch: string, requester: string, token: string)
    ensures forall q :: q in ResolverRequests(ws, arch, requester, token) ==>
              && q.arch == arch && q.requester == requester && q.token == token
              && exists w :: w in ws && w.arch == arch && w.url == q.url && w.org == q.org
                             && WorkloadChoice(q.version) in w.versions
    ensures forall w, ch :: w in ws && w.arch == arch && ch in w.versions ==>
              WorkloadRequest(w.url, w.org, ch.version, arch, requester, token) in ResolverRequests(ws, arch, requester, token)
  {
    if ws != [] {
      var w0 := ws[0];
      var own := if w0.arch == arch then ChoiceRequests(w0, w0.versions, arch, requester, token) else [];
      var later := ResolverRequests(ws[1..], arch, requester, token);
      RequestsAreMatchingChoices(ws[1..], arch, requester, token);
      assert ResolverRequests(ws, arch, requester, token) == own + later;
      forall q: WorkloadRequest | q in own + later
        ensures && q.arch == arch && q.requester == requester && q.token == token
                && exists w :: w in ws && w.arch == arch && w.url == q.url && w.org == q.org
                               && WorkloadChoice(q.version) in w.versions
      {
        if q in own {
          var i :| 0 <= i < |own| && own[i] == q;
          assert w0.versions[i] == WorkloadChoice(q.version);
          assert w0 in ws;
        } else {
          assert q in later;
          var w :| w in ws[1..] && w.arch == arch && w.url == q.url && w.org == q.org
                   && WorkloadChoice(q.version) in w.versions;
          assert w in ws;
        }
      }
      forall w, ch | w in ws && w.arch == arch && ch in w.versions
        ensures WorkloadRequest(w.url, w.org, ch.version, arch, requester, token) in own + later
      {
        if w == w0 {
          var i :| 0 <= i < |w0.versions| && w0.versions[i] == ch;
          assert own[i] == WorkloadRequest(w.url, w.org, ch.version, arch, requester, token);
        } else {
          assert w in ws[1..];
        }
      }
    }
  }

  /** Dropping a workload built for another architecture changes no resolver request. */
  lemma OtherArchWorkloadIgnored(ws: seq<Workload>, i: nat, arch: string, requester: string, token: string)
    requires i < |ws| && ws[i].arch != arch
    ensures ResolverRequests(ws, arch, requester, token)
            == ResolverRequests(ws[..i] + ws[i + 1..], arch, requester, token)
  {
    var before, after := ws[..i], ws[i + 1..];
    assert ws == before + ([ws[i]] + after);
    ResolverRequestsAppend(before, [ws[i]] + after, arch, requester, token);
    ResolverRequestsAppend([ws[i]], after, arch, requester, token);
    ResolverRequestsAppend(before, after, arch, requester, token);
    OtherArchWorkloadRequestsNothing(ws[i], arch, requester, token);
  }

  lemma OtherArchWorkloadRequestsNothing(w: Workload, arch: string, requester: string, token: string)
    requires w.arch != arch
    ensures ResolverRequests([w], arch, requester, token) == []
  {
    assert [w][1..] == [];
  }

  /**
   * With MergeWith as the merge, a singleton replacement that keeps both
   * lists free of exact duplicates, and resolved lists free of them, the
   * complete list holds no exact duplicates.
   */
  lemma {:induction false} CompleteListHasNoExactDuplicates(c: Collaborators, acc: seq<APISpec>, reqs: seq<WorkloadRequest>)
    requires forall a, b :: c.mergeWith(a, b) == MergeWith(a, b)
    requires forall a, b :: NoExactDuplicates(a) && NoExactDuplicates(b) ==>
               && NoExactDuplicates(c.replaceHigherSharedSingleton(a, b).running)
               && NoExactDuplicates(c.replaceHigherSharedSingleton(a, b).incoming)
    requires forall q :: c.resolveWorkload(q).Ok? ==> NoExactDuplicates(c.resolveWorkload(q).value)
    requires NoExactDuplicates(acc)
    ensures NoExactDuplicates(FoldResolved(c, acc, reqs))
    decreases |reqs|
  {
    if reqs != [] {
      var sub := match c.resolveWorkload(reqs[0]) case Ok(l) => l case Err(_) => [];
      assert NoExactDuplicates(sub);
      assert NoExactDuplicates(Absorb(c, acc, sub));
      CompleteListHasNoExactDuplicates(c, Absorb(c, acc, sub), reqs[1..]);
    }
  }

  /**
   * The i-th creation of a pass is for the service of the i-th spec: its
   * reference, organization and version, and the name makeServiceName
   * derives from them.
   */
  lemma CreatedServicesNamedFromSpecs(specs: seq<APISpec>, i: nat)
    requires i < |specs|
    ensures var call := CreateCalls(Services(specs))[i];
            && call == CreateService(Service(specs[i].specRef, specs[i].org, specs[i].version))
            && call.service.Name() == MakeServiceName(specs[i].specRef, specs[i].org, specs[i].version)
  {
  }

  // ---------------------------------------------------------------------
  // Notices
  // ---------------------------------------------------------------------

  /** Each notice is the Created outcome of some spec. */
  lemma {:induction false} CreatedMessagesAreCreations(c: Collaborators, done: seq<Service>, specs: seq<APISpec>)
    ensures forall m :: m in CreatedMessages(c, done, specs) ==>
              exists i :: 0 <= i < |specs| && OutcomeAt(c, done, specs, i) == Created(m)
    decreases |specs|
  {
    if specs != [] {
      var svc := ServiceFor(specs[0]);
      var o := c.createService(done, svc);
      var mine := if o.Created? then [o.message] else [];
      var rest := CreatedMessages(c, done + [svc], specs[1..]);
      CreatedMessagesAreCreations(c, done + [svc], specs[1..]);
      assert CreatedMessages(c, done, specs) == mine + rest;
      forall m | m in CreatedMessages(c, done, specs)
        ensures exists i :: 0 <= i < |specs| && OutcomeAt(c, done, specs, i) == Created(m)
      {
        assert m in mine + rest;
        if m in mine {
          assert OutcomeAt(c, done, specs, 0) == Created(m);
        } else {
          var i :| 0 <= i < |specs[1..]| && OutcomeAt(c, done + [svc], specs[1..], i) == Created(m);
          assert OutcomeAt(c, done, specs, i + 1) == Created(m);
        }
      }
      assert forall m :: m in CreatedMessages(c, done, specs) ==>
              exists i :: 0 <= i < |specs| && OutcomeAt(c, done, specs, i) == Created(m);
    } else {
      assert CreatedMessages(c, done, specs) == [];
    }
  }

  /** Each Created outcome's notice is among the notices. */
  lemma {:induction false} CreationsGiveMessages(c: Collaborators, done: seq<Service>, specs: seq<APISpec>)
    ensures forall i :: 0 <= i < |specs| && OutcomeAt(c, done, specs, i).Created? ==>
              OutcomeAt(c, done, specs, i).message in CreatedMessages(c, done, specs)
    decreases |specs|
  {
    if specs != [] {
      var svc := ServiceFor(specs[0]);
      var o := c.createService(done, svc);
      var mine := if o.Created? then [o.message] else [];
      var rest := CreatedMessages(c, done + [svc], specs[1..]);
      CreationsGiveMessages(c, done + [svc], specs[1..]);
      assert CreatedMessages(c, done, specs) == mine + rest;
      forall i | 0 <= i < |specs| && OutcomeAt(c, done, specs, i).Created?
        ensures OutcomeAt(c, done, specs, i).message in mine + rest
      {
        if i > 0 {
          assert OutcomeAt(c, done, specs, i) == OutcomeAt(c, done + [svc], specs[1..], i - 1);
        }
      }
    }
  }

}
