/** Which refusals a request passes over, and what each of its calls has achieved once it goes on. */
module Forgiveness {
  import opened Common
  import opened Addresses
  import opened ScopeModel
  import opened Server
  import opened Reading
  import opened Plans
  import opened Api

  datatype Work = Creating | Updating | Deleting

  function WorkOf(sv: State, req: Request): Work {
    if req.Delete? then Deleting else if req.Post? && req.d.scope !in sv.scopes then Creating else Updating
  }

  /** An option that is already gone, a scope or exclusion that is already there when a scope is
      created, a relationship already joined; and while deleting, exclusions that cannot be removed. */
  predicate Forgiven(work: Work, c: Cmd, why: Refusal) {
    match c
    case EditScope(_, RemoveOption(_)) => why.NotFound?
    case EditScope(_, AddExclusion(_)) => work.Creating? && why.AlreadyExists?
    case EditScope(_, RemoveExclusion(_)) => work.Deleting?
    case AddScope(_, _, _, _, _, _) => why.AlreadyExists?
    case JoinFailover(_, _) => why.AlreadyExists?
    case _ => false
  }

  /** Only while deleting does a request go on after a call that failed for any other reason. */
  predicate GoesOnRegardless(work: Work, c: Cmd) {
    work.Deleting? && c.EditScope? && c.edit.RemoveExclusion?
  }

  /** The step's tolerance is the policy for its cmdlet. */
  predicate Fits(work: Work, step: Step) {
    && (Tolerated(step.tolerance, NotFound) <==> Forgiven(work, step.cmd, NotFound))
    && (Tolerated(step.tolerance, AlreadyExists) <==> Forgiven(work, step.cmd, AlreadyExists))
    && (Tolerated(step.tolerance, Rejected) <==> Forgiven(work, step.cmd, Rejected))
    && (step.tolerance.Anything? <==> GoesOnRegardless(work, step.cmd))
  }

  ghost predicate Lenient(work: Work, steps: seq<Step>) {
    forall i :: 0 <= i < |steps| ==> Fits(work, steps[i])
  }

  lemma LenientConcat(work: Work, a: seq<Step>, b: seq<Step>)
    requires Lenient(work, a) && Lenient(work, b)
    ensures Lenient(work, a + b)
  {
  }

  lemma PhasesAreLenient(s: Ip, c: Payload, d: Payload, ord: Order)
    ensures Lenient(Updating, Lift(s, RangePhase(c, d))) && Lenient(Updating, Lift(s, ParamPhase(c, d)))
    ensures Lenient(Updating, Lift(s, OptionPhase(c, d))) && Lenient(Updating, Lift(s, BootPhase(c, d)))
    ensures Lenient(Updating, Lift(s, Removals(ord.removals, Strict)))
    ensures Lenient(Updating, Lift(s, Additions(ord.additions, Strict)))
  {
  }

  lemma LiftOfSum(s: Ip, a: seq<EditStep>, b: seq<EditStep>)
    ensures Lift(s, a + b) == Lift(s, a) + Lift(s, b)
  {
  }

  lemma RecordPlanIsLenient(s: Ip, c: Payload, d: Payload, ord: Order)
    ensures Lenient(Updating, Lift(s, RecordPlan(c, d, ord)))
  {
    hide RangePhase, ParamPhase, OptionPhase, BootPhase, Removals, Additions, Lenient, Lift;
    PhasesAreLenient(s, c, d, ord);
    var a, b, e, f := RangePhase(c, d), ParamPhase(c, d), OptionPhase(c, d), BootPhase(c, d);
    var g, h := Removals(ord.removals, Strict), Additions(ord.additions, Strict);
    LiftOfSum(s, a, b);
    LenientConcat(Updating, Lift(s, a), Lift(s, b));
    LiftOfSum(s, a + b, e);
    LenientConcat(Updating, Lift(s, a + b), Lift(s, e));
    LiftOfSum(s, a + b + e, f);
    LenientConcat(Updating, Lift(s, a + b + e), Lift(s, f));
    LiftOfSum(s, a + b + e + f, g);
    LenientConcat(Updating, Lift(s, a + b + e + f), Lift(s, g));
    LiftOfSum(s, a + b + e + f + g, h);
    LenientConcat(Updating, Lift(s, a + b + e + f + g), Lift(s, h));
  }

  lemma FailoverStepsAreLenient(work: Work, rels: Relationships, s: Ip, c: Option<Failover>, d: Option<Failover>)
    ensures Lenient(work, FailoverSteps(rels, s, c, d))
    ensures d.Some? ==> Lenient(work, SetupSteps(rels, s, d.value))
    ensures c.Some? ==> Lenient(work, LeaveSteps(rels, s, c.value.name))
  {
  }

  lemma ConvergePlanIsLenient(rels: Relationships, s: Ip, c: Payload, d: Payload, ord: Order)
    ensures Lenient(Updating, ConvergePlan(rels, s, c, d, ord))
  {
    hide RecordPlan, FailoverSteps, Lift;
    RecordPlanIsLenient(s, c, d, ord);
    FailoverStepsAreLenient(Updating, rels, s, c.failover, d.failover);
  }

  lemma CreatePlanIsLenient(rels: Relationships, d: Payload)
    ensures Lenient(Creating, CreatePlan(rels, d))
  {
    FailoverStepsAreLenient(Creating, rels, d.scope, None, d.failover);
    assert Lenient(Creating, Lift(d.scope, CreateEdits(d)));
  }

  lemma DeletePlanIsLenient(rels: Relationships, s: Ip, c: Payload)
    ensures Lenient(Deleting, DeletePlan(rels, s, c))
  {
    FailoverStepsAreLenient(Deleting, rels, s, c.failover, None);
    assert Lenient(Deleting, Lift(s, Removals(c.exclusions, Anything)));
  }

  lemma IntentIsLenient(sv: State, req: Request, ord: Order)
    requires Intent(sv, req, ord).Some?
    ensures Lenient(WorkOf(sv, req), Intent(sv, req, ord).value)
  {
    hide ConvergePlan, CreatePlan, DeletePlan;
    var s := Target(req);
    if req.Delete? {
      if s in sv.scopes {
        DeletePlanIsLenient(sv.rels, s, Read(sv, s).payload);
      }
    } else if req.Post? && s !in sv.scopes {
      CreatePlanIsLenient(sv.rels, req.d);
    } else if !req.Get? {
      ConvergePlanIsLenient(sv.rels, s, Read(sv, s).payload, req.d, ord);
    }
  }

  /** Error policy: a request goes on after a refusal exactly where it is forgiven, for each of its
      calls and for every refusal; any other error of a call ends it, unless it is deleting and the
      call removes an exclusion. */
  lemma RefusalsForgiven(sv: State, req: Request, ord: Order, i: nat, at: State)
    requires Intent(sv, req, ord).Some? && i < |Intent(sv, req, ord).value|
    ensures var step := Intent(sv, req, ord).value[i];
            && (Attempt(at, step, Fine).ok <==>
                  Apply(at, step.cmd).Ok? || Forgiven(WorkOf(sv, req), step.cmd, Apply(at, step.cmd).error))
            && (Attempt(at, step, Lost).ok <==> GoesOnRegardless(WorkOf(sv, req), step.cmd))
            && (Attempt(at, step, Unacked).ok <==> GoesOnRegardless(WorkOf(sv, req), step.cmd))
  {
    hide Intent, Apply;
    IntentIsLenient(sv, req, ord);
    var step := Intent(sv, req, ord).value[i];
    assert Fits(WorkOf(sv, req), step);
    if Apply(at, step.cmd).Err? {
      var why := Apply(at, step.cmd).error;
      assert why.NotFound? || why.AlreadyExists? || why.Rejected?;
    }
  }

  /** What a call is for. */
  ghost predicate Goal(at: State, c: Cmd) {
    match c
    case EditScope(s, e) =>
      (match e
       case SetRange(r) => s in at.scopes && at.scopes[s].range == r
       case SetParams(name, lease, description) =>
         s in at.scopes && at.scopes[s].name == name && at.scopes[s].lease == lease
         && at.scopes[s].description == description
       case SetOptions(dns, domain, router) =>
         s in at.scopes && at.scopes[s].dns == dns && at.scopes[s].domain == Some(domain)
         && (router.Some? ==> at.scopes[s].router == router)
       case SetBootServer(server) => s in at.scopes && at.scopes[s].bootServer == Some(server)
       case SetBootFile(file) => s in at.scopes && at.scopes[s].bootFile == Some(file)
       case RemoveOption(id) => s in at.scopes ==> !OptionPresent(at.scopes[s], id)
       case AddExclusion(hole) => s in at.scopes && hole in at.scopes[s].exclusions
       case RemoveExclusion(hole) => s in at.scopes ==> hole !in at.scopes[s].exclusions)
    case AddScope(s, _, _, _, _, _) => s in at.scopes
    case RemoveScope(s) => s !in at.scopes
    case CreateFailover(s, f) => f.name in at.rels && at.rels[f.name] == NewRelationship(f, s)
    case JoinFailover(s, _) => InSomeRelationship(at.rels, s)
    case LeaveFailover(s, n) => n in at.rels && s !in at.rels[n].members
    case DropFailover(_, n) => n !in at.rels
    case TuneFailover(_, n, leadTime, mode, percent) =>
      n in at.rels && at.rels[n].leadTime == leadTime
      && percent == if mode.HotStandby? then at.rels[n].reserve else at.rels[n].loadBalance
    case Replicate(s) => s in at.scopes && s in at.partner && at.partner[s] == at.scopes[s]
  }

  lemma AppliedReachesGoal(at: State, c: Cmd)
    requires Apply(at, c).Ok?
    ensures Goal(Apply(at, c).value, c)
  {
    if c.JoinFailover? {
      assert c.scope in Apply(at, c).value.rels[c.rel].members;
    }
  }

  lemma ForgivenMeansGoal(work: Work, at: State, c: Cmd)
    requires Apply(at, c).Err? && Forgiven(work, c, Apply(at, c).error) && !GoesOnRegardless(work, c)
    ensures Goal(at, c)
  {
  }

  /** Nothing is passed over that matters: whatever others did to the server since it was read, a
      call after which a request goes on has reached its goal, exclusions of a scope being deleted
      aside. (A scope that was to join a relationship may turn out to be in another.) */
  lemma GoingOnMeansGoal(sv: State, req: Request, ord: Order, i: nat, at: State, w: Weather)
    requires Intent(sv, req, ord).Some? && i < |Intent(sv, req, ord).value|
    requires !GoesOnRegardless(WorkOf(sv, req), Intent(sv, req, ord).value[i].cmd)
    requires Attempt(at, Intent(sv, req, ord).value[i], w).ok
    ensures Goal(Attempt(at, Intent(sv, req, ord).value[i], w).sv, Intent(sv, req, ord).value[i].cmd)
  {
    hide Intent, Apply, Goal, Forgiven;
    RefusalsForgiven(sv, req, ord, i, at);
    var step := Intent(sv, req, ord).value[i];
    if Apply(at, step.cmd).Ok? {
      AppliedReachesGoal(at, step.cmd);
    } else {
      ForgivenMeansGoal(WorkOf(sv, req), at, step.cmd);
    }
  }
}
