/**
 * The service-creation loop of the configstate update exactly as
 * api/path_configstate.go writes it (lines 142-166). The missing-variable
 * branch type-asserts an error variable that is not the one the pass-through
 * handler filled in: it is the pattern fetch's error, which is nil once the
 * loop runs, and a Go type assertion on a nil interface panics. The
 * corrected loop, used everywhere else, is Configstates.Provision.
 */
module ProvisionAsWritten {

  import opened Results
  import opened SpecLists
  import opened Configstates

  /** The dynamic value of a Go error variable, as far as the type switch tells it apart. */
  datatype GoError = NilError | MissingVariableError(detail: string) | OtherError(detail: string)

  /** How the loop as written ends: by panicking after some calls, or with a step of the update. */
  datatype Outcome = Panicked(trace: seq<Call>) | Completed(step: Step<seq<PolicyCreatedMessage>>)

  /**
   * The loop as written: the missing-variable branch takes its detail from
   * asserted (the variable the type assertion names) and panics unless
   * asserted holds a missing-variable error.
   */
  function Loop(c: Collaborators, done: seq<Service>, specs: seq<APISpec>, asserted: GoError): Outcome
    decreases |specs|
  {
    if specs == [] then Completed(Step(Ok([]), []))
    else
      var svc := ServiceFor(specs[0]);
      match c.createService(done, svc)
      case MissingVariableConfig(_) =>
        (match asserted
         case MissingVariableError(detail) =>
           Completed(Step(Err(UserInputError(NeedsVariableConfig(specs[0], detail), StateInput)), [CreateService(svc)]))
         case _ => Panicked([CreateService(svc)]))
      case OtherFailure(d) =>
        Completed(Step(Err(SystemError(ServiceCreateFailed(d))), [CreateService(svc)]))
      case DuplicateService =>
        Then([], svc, Loop(c, done + [svc], specs[1..], asserted))
      case Created(m) =>
        Then([m], svc, Loop(c, done + [svc], specs[1..], asserted))
  }

  /** The rest of the loop after a non-blocking creation of svc. */
  function Then(mine: seq<PolicyCreatedMessage>, svc: Service, rest: Outcome): Outcome {
    match rest
    case Panicked(t) => Panicked([CreateService(svc)] + t)
    case Completed(st) => Completed(Continue(mine, [CreateService(svc)], st))
  }

  /** The first blocking outcome of the pass is a missing-variable one. */
  predicate BlocksOnMissingVariable(c: Collaborators, done: seq<Service>, specs: seq<APISpec>) {
    var k := FirstBlocked(c, done, specs);
    k < |specs| && OutcomeAt(c, done, specs, k).MissingVariableConfig?
  }

  /**
   * With the nil error the source asserts on, the loop as written panics
   * exactly when the pass would end on a missing-variable outcome, after
   * the same creations; otherwise it gives the corrected loop's result.
   */
  lemma {:induction false} AsWrittenPanicsOnMissingVariable(c: Collaborators, done: seq<Service>, specs: seq<APISpec>)
    ensures BlocksOnMissingVariable(c, done, specs) ==>
              Loop(c, done, specs, NilError) == Panicked(CreateCalls(Services(specs)[..FirstBlocked(c, done, specs) + 1]))
    ensures !BlocksOnMissingVariable(c, done, specs) ==>
              Loop(c, done, specs, NilError) == Completed(Provision(c, done, specs))
    decreases |specs|, 1
  {
    if specs != [] {
      var svc := ServiceFor(specs[0]);
      if Blocking(c.createService(done, svc)) {
        assert FirstBlocked(c, done, specs) == 0;
        assert Services(specs)[..1] == [svc];
      } else {
        AsWrittenPanicsLater(c, done, specs);
      }
    }
  }

  /** AsWrittenPanicsOnMissingVariable past a first creation that does not block. */
  lemma {:induction false} AsWrittenPanicsLater(c: Collaborators, done: seq<Service>, specs: seq<APISpec>)
    requires specs != [] && !Blocking(c.createService(done, ServiceFor(specs[0])))
    ensures BlocksOnMissingVariable(c, done, specs) ==>
              Loop(c, done, specs, NilError) == Panicked(CreateCalls(Services(specs)[..FirstBlocked(c, done, specs) + 1]))
    ensures !BlocksOnMissingVariable(c, done, specs) ==>
              Loop(c, done, specs, NilError) == Completed(Provision(c, done, specs))
    decreases |specs|, 0
  {
    var svc := ServiceFor(specs[0]);
    var tail := specs[1..];
    AsWrittenPanicsOnMissingVariable(c, done + [svc], tail);
    var k := FirstBlocked(c, done + [svc], tail);
    assert FirstBlocked(c, done, specs) == k + 1;
    assert BlocksOnMissingVariable(c, done, specs) == BlocksOnMissingVariable(c, done + [svc], tail) by {
      if k < |tail| {
        assert OutcomeAt(c, done, specs, k + 1) == OutcomeAt(c, done + [svc], tail, k);
      }
    }
    if BlocksOnMissingVariable(c, done + [svc], tail) {
      assert Services(specs) == [svc] + Services(tail);
      CreateCallsPrepend(svc, Services(tail), k + 1);
    }
  }

  /**
   * The smallest input that shows it: one spec whose service needs
   * variables configured. The corrected loop reports a user-input error
   * naming the spec; the loop as written panics after the same creation.
   */
  lemma OneMissingVariableSpecPanics(c: Collaborators, s: APISpec, d: string)
    requires c.createService([], ServiceFor(s)) == MissingVariableConfig(d)
    ensures Loop(c, [], [s], NilError) == Panicked([CreateService(ServiceFor(s))])
    ensures Provision(c, [], [s])
            == Step(Err(UserInputError(NeedsVariableConfig(s, d), StateInput)), [CreateService(ServiceFor(s))])
  {
  }

}
