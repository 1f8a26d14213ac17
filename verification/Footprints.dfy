/** What a request can see and touch: its own scope and the relationships whose names belong to
    it. Cmdlets of different scopes commute. */
module Footprints {
  import opened Common
  import opened Addresses
  import opened ScopeModel
  import opened Server
  import opened Reading
  import opened Plans
  import opened Api

  /** Which scope each relationship name belongs to, for the names requests may use. */
  type Owners = map<string, Ip>

  predicate Owns(own: Owners, s: Ip, n: string) {
    n in own && own[n] == s
  }

  /** The scopes under request are members of relationships of their own names only; idle scopes
      may be members anywhere. */
  ghost predicate Separate(own: Owners, busy: set<Ip>, sv: State) {
    && OneRelationshipEach(sv.rels)
    && forall n, t :: Member(sv.rels, n, t) && t in busy ==> Owns(own, t, n)
  }

  /** A cmdlet that stays within the footprint of its scope. */
  predicate Local(own: Owners, s: Ip, cmd: Cmd) {
    cmd.scope == s &&
    match cmd
    case CreateFailover(_, f) => Owns(own, s, f.name)
    case JoinFailover(_, n) => Owns(own, s, n)
    case LeaveFailover(_, n) => Owns(own, s, n)
    case DropFailover(_, n) => Owns(own, s, n)
    case TuneFailover(_, n, _, _, _) => Owns(own, s, n)
    case _ => true
  }

  ghost predicate SameOwned(own: Owners, s: Ip, a: Relationships, b: Relationships) {
    forall n :: Owns(own, s, n) ==> (n in a <==> n in b) && (n in a ==> a[n] == b[n])
  }

  /** Two states look the same from s. */
  ghost predicate Agree(own: Owners, s: Ip, a: State, b: State) {
    && (s in a.scopes <==> s in b.scopes) && (s in a.scopes ==> a.scopes[s] == b.scopes[s])
    && (s in a.partner <==> s in b.partner) && (s in a.partner ==> a.partner[s] == b.partner[s])
    && SameOwned(own, s, a.rels, b.rels)
  }

  /** Two states look the same outside s. */
  ghost predicate SameOutside(own: Owners, s: Ip, a: State, b: State) {
    && (forall t :: t != s ==>
          && (t in a.scopes <==> t in b.scopes) && (t in a.scopes ==> a.scopes[t] == b.scopes[t])
          && (t in a.partner <==> t in b.partner) && (t in a.partner ==> a.partner[t] == b.partner[t]))
    && forall n :: !Owns(own, s, n) ==>
         (n in a.rels <==> n in b.rels) && (n in a.rels ==> a.rels[n] == b.rels[n])
  }

  function Effect(sv: State, cmd: Cmd): State {
    match Apply(sv, cmd)
    case Ok(sv') => sv'
    case Err(_) => sv
  }

  lemma LocalEffectStaysInside(own: Owners, s: Ip, sv: State, cmd: Cmd)
    requires Local(own, s, cmd)
    ensures SameOutside(own, s, sv, Effect(sv, cmd))
  {
  }

  lemma MembershipLooksTheSame(own: Owners, busy: set<Ip>, s: Ip, a: State, b: State)
    requires Separate(own, busy, a) && Separate(own, busy, b) && s in busy && Agree(own, s, a, b)
    ensures InSomeRelationship(a.rels, s) <==> InSomeRelationship(b.rels, s)
    ensures RelationshipOf(a.rels, s) == RelationshipOf(b.rels, s)
    ensures RawFailoverOf(a.rels, s) == RawFailoverOf(b.rels, s)
  {
    if InSomeRelationship(a.rels, s) {
      var n :| n in a.rels && s in a.rels[n].members;
      assert Member(a.rels, n, s) && Owns(own, s, n) && Member(b.rels, n, s);
    }
    if InSomeRelationship(b.rels, s) {
      var n :| n in b.rels && s in b.rels[n].members;
      assert Member(b.rels, n, s) && Owns(own, s, n) && Member(a.rels, n, s);
      var m := RelationshipOf(b.rels, s).value;
      assert Member(b.rels, m, s) && m == n;
      var k := RelationshipOf(a.rels, s).value;
      assert Member(a.rels, k, s) && k == n;
    }
  }

  /** A local cmdlet answers and acts the same on states that look the same. */
  lemma LocalEffectIsDetermined(own: Owners, busy: set<Ip>, s: Ip, a: State, b: State, cmd: Cmd)
    requires Separate(own, busy, a) && Separate(own, busy, b) && s in busy
    requires Agree(own, s, a, b) && Local(own, s, cmd)
    ensures Apply(a, cmd).Ok? <==> Apply(b, cmd).Ok?
    ensures Apply(a, cmd).Err? && Apply(b, cmd).Err? ==> Apply(a, cmd).error == Apply(b, cmd).error
    ensures Agree(own, s, Effect(a, cmd), Effect(b, cmd))
  {
    MembershipLooksTheSame(own, busy, s, a, b);
  }

  lemma LocalEffectKeepsSeparate(own: Owners, busy: set<Ip>, s: Ip, sv: State, cmd: Cmd)
    requires Separate(own, busy, sv) && Local(own, s, cmd)
    ensures Separate(own, busy, Effect(sv, cmd))
  {
    var after := Effect(sv, cmd);
    forall m, n, t | m in after.rels && n in after.rels && t in after.rels[m].members && t in after.rels[n].members
      ensures m == n
    {
      if t != s {
        assert Member(sv.rels, m, t) && Member(sv.rels, n, t);
      }
    }
    forall n, t | Member(after.rels, n, t) && t in busy
      ensures Owns(own, t, n)
    {
      assert t != s ==> Member(sv.rels, n, t);
      assert !Owns(own, s, n) ==> Member(sv.rels, n, t);
    }
  }

  lemma OutsideMeansAgree(own: Owners, s: Ip, t: Ip, a: State, b: State)
    requires SameOutside(own, s, a, b) && t != s
    ensures Agree(own, t, a, b)
  {
  }

  lemma OutsideIsSymmetric(own: Owners, s: Ip, a: State, b: State)
    requires SameOutside(own, s, a, b)
    ensures SameOutside(own, s, b, a)
  {
  }

  lemma AgreeIsTransitive(own: Owners, s: Ip, a: State, b: State, c: State)
    requires Agree(own, s, a, b) && Agree(own, s, b, c)
    ensures Agree(own, s, a, c)
  {
  }

  /** What x does to its own footprint is the same before and after a foreign y. */
  lemma EffectPassesEffect(own: Owners, busy: set<Ip>, s: Ip, t: Ip, sv: State, x: Cmd, y: Cmd)
    requires Separate(own, busy, sv) && s in busy && t in busy && s != t
    requires Local(own, s, x) && Local(own, t, y)
    ensures Agree(own, s, Effect(Effect(sv, x), y), Effect(Effect(sv, y), x))
  {
    var ax, ay := Effect(sv, x), Effect(sv, y);
    LocalEffectStaysInside(own, t, sv, y);
    LocalEffectStaysInside(own, t, ax, y);
    LocalEffectKeepsSeparate(own, busy, t, sv, y);
    OutsideMeansAgree(own, t, s, sv, ay);
    LocalEffectIsDetermined(own, busy, s, sv, ay, x);
    OutsideIsSymmetric(own, t, ax, Effect(ax, y));
    OutsideMeansAgree(own, t, s, Effect(ax, y), ax);
    AgreeIsTransitive(own, s, Effect(ax, y), ax, Effect(ay, x));
  }

  /** Two states look the same outside s and t. */
  ghost predicate SameOutsideBoth(own: Owners, s: Ip, t: Ip, a: State, b: State) {
    && (forall u :: u != s && u != t ==>
          && (u in a.scopes <==> u in b.scopes) && (u in a.scopes ==> a.scopes[u] == b.scopes[u])
          && (u in a.partner <==> u in b.partner) && (u in a.partner ==> a.partner[u] == b.partner[u]))
    && forall n :: !Owns(own, s, n) && !Owns(own, t, n) ==>
         (n in a.rels <==> n in b.rels) && (n in a.rels ==> a.rels[n] == b.rels[n])
  }

  lemma TwoStepsOutside(own: Owners, s: Ip, t: Ip, sv: State, mid: State, end: State)
    requires SameOutside(own, s, sv, mid) && SameOutside(own, t, mid, end)
    ensures SameOutsideBoth(own, s, t, sv, end)
  {
  }

  lemma TwoFootprintsAreAll(own: Owners, s: Ip, t: Ip, sv: State, a: State, b: State)
    requires s != t
    requires SameOutsideBoth(own, s, t, sv, a) && SameOutsideBoth(own, t, s, sv, b)
    requires Agree(own, s, a, b) && Agree(own, t, a, b)
    ensures a == b
  {
    assert a.scopes.Keys == b.scopes.Keys;
    assert a.scopes == b.scopes;
    assert a.partner.Keys == b.partner.Keys;
    assert a.partner == b.partner;
    assert a.rels.Keys == b.rels.Keys;
    assert a.rels == b.rels;
  }

  /** Local cmdlets of different scopes commute. */
  lemma LocalEffectsCommute(own: Owners, busy: set<Ip>, s: Ip, t: Ip, sv: State, x: Cmd, y: Cmd)
    requires Separate(own, busy, sv) && s in busy && t in busy && s != t
    requires Local(own, s, x) && Local(own, t, y)
    ensures Effect(Effect(sv, x), y) == Effect(Effect(sv, y), x)
  {
    var ax, ay := Effect(sv, x), Effect(sv, y);
    LocalEffectStaysInside(own, s, sv, x);
    LocalEffectStaysInside(own, t, sv, y);
    LocalEffectStaysInside(own, t, ax, y);
    LocalEffectStaysInside(own, s, ay, x);
    EffectPassesEffect(own, busy, s, t, sv, x, y);
    EffectPassesEffect(own, busy, t, s, sv, y, x);
    TwoStepsOutside(own, s, t, sv, ax, Effect(ax, y));
    TwoStepsOutside(own, t, s, sv, ay, Effect(ay, x));
    TwoFootprintsAreAll(own, s, t, sv, Effect(ax, y), Effect(ay, x));
  }

  /* ---- Attempts ---- */

  /** One issued call: the step and the weather it met. */
  datatype Issued = Issued(step: Step, weather: Weather)

  function Outcome(sv: State, x: Issued): State {
    Attempt(sv, x.step, x.weather).sv
  }

  lemma OutcomeIsEffect(sv: State, x: Issued)
    ensures Outcome(sv, x) == if x.weather.Lost? then sv else Effect(sv, x.step.cmd)
  {
  }

  ghost predicate LocalTrace(own: Owners, s: Ip, xs: seq<Issued>) {
    forall i :: 0 <= i < |xs| ==> Local(own, s, xs[i].step.cmd)
  }

  function Effects(sv: State, xs: seq<Issued>): State
    decreases |xs|
  {
    if xs == [] then sv else Effects(Outcome(sv, xs[0]), xs[1..])
  }

  lemma {:induction false} EffectsConcat(sv: State, xs: seq<Issued>, ys: seq<Issued>)
    ensures Effects(sv, xs + ys) == Effects(Effects(sv, xs), ys)
    decreases |xs|
  {
    if xs == [] {
      assert xs + ys == ys;
    } else {
      assert (xs + ys)[0] == xs[0] && (xs + ys)[1..] == xs[1..] + ys;
      EffectsConcat(Outcome(sv, xs[0]), xs[1..], ys);
    }
  }

  lemma {:induction false} EffectsStayInside(own: Owners, busy: set<Ip>, s: Ip, sv: State, xs: seq<Issued>)
    requires Separate(own, busy, sv) && LocalTrace(own, s, xs)
    ensures Separate(own, busy, Effects(sv, xs)) && SameOutside(own, s, sv, Effects(sv, xs))
    decreases |xs|
  {
    if xs != [] {
      OutcomeIsEffect(sv, xs[0]);
      LocalEffectStaysInside(own, s, sv, xs[0].step.cmd);
      LocalEffectKeepsSeparate(own, busy, s, sv, xs[0].step.cmd);
      EffectsStayInside(own, busy, s, Outcome(sv, xs[0]), xs[1..]);
    }
  }

  lemma OutcomeIsDetermined(own: Owners, busy: set<Ip>, s: Ip, a: State, b: State, x: Issued)
    requires Separate(own, busy, a) && Separate(own, busy, b) && s in busy
    requires Agree(own, s, a, b) && Local(own, s, x.step.cmd)
    ensures Attempt(a, x.step, x.weather).ok == Attempt(b, x.step, x.weather).ok
    ensures Agree(own, s, Outcome(a, x), Outcome(b, x))
    ensures Separate(own, busy, Outcome(a, x)) && Separate(own, busy, Outcome(b, x))
  {
    OutcomeIsEffect(a, x);
    OutcomeIsEffect(b, x);
    LocalEffectIsDetermined(own, busy, s, a, b, x.step.cmd);
    LocalEffectKeepsSeparate(own, busy, s, a, x.step.cmd);
    LocalEffectKeepsSeparate(own, busy, s, b, x.step.cmd);
  }

  lemma {:induction false} EffectsAreDetermined(own: Owners, busy: set<Ip>, s: Ip, a: State, b: State, xs: seq<Issued>)
    requires Separate(own, busy, a) && Separate(own, busy, b) && s in busy
    requires Agree(own, s, a, b) && LocalTrace(own, s, xs)
    ensures Agree(own, s, Effects(a, xs), Effects(b, xs))
    decreases |xs|
  {
    if xs != [] {
      OutcomeIsDetermined(own, busy, s, a, b, xs[0]);
      EffectsAreDetermined(own, busy, s, Outcome(a, xs[0]), Outcome(b, xs[0]), xs[1..]);
    }
  }

  /** One call of s commutes with a whole trace of another scope. */
  lemma {:induction false} CallPassesTrace(own: Owners, busy: set<Ip>, s: Ip, t: Ip, sv: State,
                                           x: Issued, ys: seq<Issued>)
    requires Separate(own, busy, sv) && s in busy && t in busy && s != t
    requires Local(own, s, x.step.cmd) && LocalTrace(own, t, ys)
    ensures Outcome(Effects(sv, ys), x) == Effects(Outcome(sv, x), ys)
    decreases |ys|
  {
    if ys != [] {
      OutcomeIsEffect(sv, ys[0]);
      OutcomeIsEffect(sv, x);
      OutcomeIsEffect(Outcome(sv, x), ys[0]);
      OutcomeIsEffect(Outcome(sv, ys[0]), x);
      LocalEffectsCommute(own, busy, s, t, sv, x.step.cmd, ys[0].step.cmd);
      LocalEffectKeepsSeparate(own, busy, t, sv, ys[0].step.cmd);
      CallPassesTrace(own, busy, s, t, Outcome(sv, ys[0]), x, ys[1..]);
    }
  }

  /* ---- What a run issues and answers ---- */

  datatype Report = Report(trace: seq<Issued>, ok: bool)

  function RunReport(sv: State, steps: seq<Step>, weather: seq<Weather>): Report
    decreases |steps|
  {
    if steps == [] then Report([], true)
    else
      var x := Issued(steps[0], Now(weather));
      if Attempt(sv, steps[0], Now(weather)).ok then
        var r := RunReport(Outcome(sv, x), steps[1..], Later(weather));
        Report([x] + r.trace, r.ok)
      else Report([x], false)
  }

  lemma {:induction false} ReportIsRun(sv: State, steps: seq<Step>, weather: seq<Weather>)
    ensures var r := RunReport(sv, steps, weather);
            Run(sv, steps, weather) == Ending(Effects(sv, r.trace), r.ok)
    decreases |steps|
  {
    if steps != [] {
      var x := Issued(steps[0], Now(weather));
      if Attempt(sv, steps[0], Now(weather)).ok {
        ReportIsRun(Outcome(sv, x), steps[1..], Later(weather));
        var rest := RunReport(Outcome(sv, x), steps[1..], Later(weather)).trace;
        assert ([x] + rest)[1..] == rest;
      } else {
        assert [x][1..] == [];
        assert Effects(Outcome(sv, x), []) == Outcome(sv, x);
      }
    }
  }

  ghost predicate LocalSteps(own: Owners, s: Ip, steps: seq<Step>) {
    forall i :: 0 <= i < |steps| ==> Local(own, s, steps[i].cmd)
  }

  lemma {:induction false} ReportIsDetermined(own: Owners, busy: set<Ip>, s: Ip, a: State, b: State,
                                              steps: seq<Step>, weather: seq<Weather>)
    requires Separate(own, busy, a) && Separate(own, busy, b) && s in busy
    requires Agree(own, s, a, b) && LocalSteps(own, s, steps)
    ensures RunReport(a, steps, weather) == RunReport(b, steps, weather)
    ensures LocalTrace(own, s, RunReport(a, steps, weather).trace)
    decreases |steps|
  {
    if steps != [] {
      var x := Issued(steps[0], Now(weather));
      OutcomeIsDetermined(own, busy, s, a, b, x);
      ReportIsDetermined(own, busy, s, Outcome(a, x), Outcome(b, x), steps[1..], Later(weather));
    }
  }

  /* ---- Requests ---- */

  /** A request whose failover name, if it has one, belongs to its scope. */
  predicate LocalRequest(own: Owners, req: Request) {
    (req.Put? || req.Post?) && req.d.failover.Some? ==> Owns(own, req.d.scope, req.d.failover.value.name)
  }

  lemma FailoverNameIsOwned(own: Owners, busy: set<Ip>, sv: State, s: Ip)
    requires Separate(own, busy, sv) && s in busy && Read(sv, s).Found? && Read(sv, s).payload.failover.Some?
    ensures Owns(own, s, Read(sv, s).payload.failover.value.name)
  {
    var n := RelationshipOf(sv.rels, s).value;
    assert Member(sv.rels, n, s);
  }

  lemma FailoverStepsAreLocal(own: Owners, s: Ip, rels: Relationships, c: Option<Failover>, d: Option<Failover>)
    requires c.Some? ==> Owns(own, s, c.value.name)
    requires d.Some? ==> Owns(own, s, d.value.name)
    ensures LocalSteps(own, s, FailoverSteps(rels, s, c, d))
  {
  }

  lemma ConcatIsLocal(own: Owners, s: Ip, a: seq<Step>, b: seq<Step>)
    requires LocalSteps(own, s, a) && LocalSteps(own, s, b)
    ensures LocalSteps(own, s, a + b)
  {
  }

  lemma LiftIsLocal(own: Owners, s: Ip, edits: seq<EditStep>)
    ensures LocalSteps(own, s, Lift(s, edits))
  {
  }

  lemma ConvergePlanIsLocal(own: Owners, s: Ip, rels: Relationships, c: Payload, d: Payload, ord: Order)
    requires c.failover.Some? ==> Owns(own, s, c.failover.value.name)
    requires d.failover.Some? ==> Owns(own, s, d.failover.value.name)
    ensures LocalSteps(own, s, ConvergePlan(rels, s, c, d, ord))
  {
    LiftIsLocal(own, s, RecordPlan(c, d, ord));
    FailoverStepsAreLocal(own, s, rels, c.failover, d.failover);
    ConcatIsLocal(own, s, Lift(s, RecordPlan(c, d, ord)), FailoverSteps(rels, s, c.failover, d.failover));
  }

  lemma CreatePlanIsLocal(own: Owners, rels: Relationships, d: Payload)
    requires d.failover.Some? ==> Owns(own, d.scope, d.failover.value.name)
    ensures LocalSteps(own, d.scope, CreatePlan(rels, d))
  {
    LiftIsLocal(own, d.scope, CreateEdits(d));
  }

  lemma DeletePlanIsLocal(own: Owners, s: Ip, rels: Relationships, c: Payload)
    requires c.failover.Some? ==> Owns(own, s, c.failover.value.name)
    ensures LocalSteps(own, s, DeletePlan(rels, s, c))
  {
    LiftIsLocal(own, s, Removals(c.exclusions, Anything));
  }

  lemma IntentIsLocal(own: Owners, busy: set<Ip>, sv: State, req: Request, ord: Order)
    requires Separate(own, busy, sv) && Target(req) in busy && LocalRequest(own, req)
    requires Intent(sv, req, ord).Some?
    ensures LocalSteps(own, Target(req), Intent(sv, req, ord).value)
  {
    var s := Target(req);
    if Read(sv, s).Found? {
      var c := Read(sv, s).payload;
      if c.failover.Some? {
        FailoverNameIsOwned(own, busy, sv, s);
      }
      if req.Delete? {
        DeletePlanIsLocal(own, s, sv.rels, c);
      } else if !req.Get? {
        ConvergePlanIsLocal(own, s, sv.rels, c, req.d, ord);
      }
    }
    if req.Post? {
      CreatePlanIsLocal(own, sv.rels, req.d);
    }
  }

  lemma ReadIsDetermined(own: Owners, busy: set<Ip>, s: Ip, a: State, b: State)
    requires Separate(own, busy, a) && Separate(own, busy, b) && s in busy && Agree(own, s, a, b)
    ensures Read(a, s) == Read(b, s)
  {
    MembershipLooksTheSame(own, busy, s, a, b);
  }

  lemma FailoverStepsAreDetermined(own: Owners, s: Ip, a: Relationships, b: Relationships,
                                   c: Option<Failover>, d: Option<Failover>)
    requires SameOwned(own, s, a, b)
    requires c.Some? ==> Owns(own, s, c.value.name)
    requires d.Some? ==> Owns(own, s, d.value.name)
    ensures FailoverSteps(a, s, c, d) == FailoverSteps(b, s, c, d)
  {
  }

  lemma LeaveStepsAreDetermined(own: Owners, s: Ip, a: Relationships, b: Relationships, n: string)
    requires SameOwned(own, s, a, b) && Owns(own, s, n)
    ensures LeaveSteps(a, s, n) == LeaveSteps(b, s, n)
  {
  }

  lemma CreatePlanIsDetermined(own: Owners, a: Relationships, b: Relationships, d: Payload)
    requires SameOwned(own, d.scope, a, b) && (d.failover.Some? ==> Owns(own, d.scope, d.failover.value.name))
    ensures CreatePlan(a, d) == CreatePlan(b, d)
  {
    FailoverStepsAreDetermined(own, d.scope, a, b, None, d.failover);
  }

  lemma ConvergePlanIsDetermined(own: Owners, s: Ip, a: Relationships, b: Relationships,
                                 c: Payload, d: Payload, ord: Order)
    requires SameOwned(own, s, a, b)
    requires c.failover.Some? ==> Owns(own, s, c.failover.value.name)
    requires d.failover.Some? ==> Owns(own, s, d.failover.value.name)
    ensures ConvergePlan(a, s, c, d, ord) == ConvergePlan(b, s, c, d, ord)
  {
    FailoverStepsAreDetermined(own, s, a, b, c.failover, d.failover);
  }

  lemma DeletePlanIsDetermined(own: Owners, s: Ip, a: Relationships, b: Relationships, c: Payload)
    requires SameOwned(own, s, a, b) && (c.failover.Some? ==> Owns(own, s, c.failover.value.name))
    ensures DeletePlan(a, s, c) == DeletePlan(b, s, c)
  {
    if c.failover.Some? {
      LeaveStepsAreDetermined(own, s, a, b, c.failover.value.name);
    }
  }

  /** What a request sets out to do depends on its own footprint only. */
  lemma IntentIsDetermined(own: Owners, busy: set<Ip>, a: State, b: State, req: Request, ord: Order)
    requires Separate(own, busy, a) && Separate(own, busy, b) && Target(req) in busy
    requires Agree(own, Target(req), a, b) && LocalRequest(own, req)
    ensures Intent(a, req, ord) == Intent(b, req, ord)
  {
    var s := Target(req);
    ReadIsDetermined(own, busy, s, a, b);
    if Read(a, s).Found? {
      var c := Read(a, s).payload;
      if c.failover.Some? {
        FailoverNameIsOwned(own, busy, a, s);
      }
      if req.Delete? {
        DeletePlanIsDetermined(own, s, a.rels, b.rels, c);
      } else if !req.Get? {
        ConvergePlanIsDetermined(own, s, a.rels, b.rels, c, req.d, ord);
      }
    }
    if req.Post? {
      CreatePlanIsDetermined(own, a.rels, b.rels, req.d);
    }
  }

  /** The calls a request makes, and its answer after the final read. */
  ghost function Settled(sv: State, req: Request, r: Report): Report {
    Report(r.trace, r.ok && AnswerReads(Effects(sv, r.trace), req))
  }

  ghost function ServeReport(sv: State, e: Event): Report {
    match Intent(sv, e.req, e.ord)
    case None => Report([], false)
    case Some(steps) => Settled(sv, e.req, RunReport(sv, steps, e.weather))
  }

  lemma ServeReportIsServe(sv: State, e: Event)
    ensures var r := ServeReport(sv, e);
            Serve(sv, e.req, e.ord, e.weather) == Ending(Effects(sv, r.trace), r.ok)
  {
    if Intent(sv, e.req, e.ord).Some? {
      ReportIsRun(sv, Intent(sv, e.req, e.ord).value, e.weather);
    }
  }

  /** What a request issues and answers depends on its own footprint only. */
  lemma ServeReportIsDetermined(own: Owners, busy: set<Ip>, a: State, b: State, e: Event)
    requires Separate(own, busy, a) && Separate(own, busy, b) && Target(e.req) in busy
    requires Agree(own, Target(e.req), a, b) && LocalRequest(own, e.req)
    ensures ServeReport(a, e) == ServeReport(b, e)
    ensures LocalTrace(own, Target(e.req), ServeReport(a, e).trace)
  {
    IntentIsDetermined(own, busy, a, b, e.req, e.ord);
    if Intent(a, e.req, e.ord).Some? {
      IntentIsLocal(own, busy, a, e.req, e.ord);
      ReportIsDetermined(own, busy, Target(e.req), a, b, Intent(a, e.req, e.ord).value, e.weather);
      var trace := RunReport(a, Intent(a, e.req, e.ord).value, e.weather).trace;
      EffectsAreDetermined(own, busy, Target(e.req), a, b, trace);
      EffectsStayInside(own, busy, Target(e.req), a, trace);
      EffectsStayInside(own, busy, Target(e.req), b, trace);
      ReadIsDetermined(own, busy, Target(e.req), Effects(a, trace), Effects(b, trace));
    }
  }
}
