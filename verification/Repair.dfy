/** Requests on the whole server: convergence and idempotence, retries after faults, and records
    that no request can read any more. */
module Repair {
  import opened Common
  import opened Addresses
  import opened Exclusions
  import opened ScopeModel
  import opened Server
  import opened Reading
  import opened Plans
  import opened Convergence
  import opened CrashSafety
  import opened PartialScopes
  import opened FailoverConvergence
  import opened Api

  /** The request converges an existing scope that can be read and has the desired mask. */
  ghost predicate Converges(sv: State, d: Payload, ord: Order) {
    && Wf(sv) && Valid(d) && d.scope in sv.scopes
    && Readable(d.scope, sv.scopes[d.scope]) && sv.scopes[d.scope].mask == d.mask
    && OwnParses(sv.rels, d.scope) && OrderFor(ord, Current(sv, d.scope), d)
  }

  /** What a GET of the scope shows. */
  ghost function Current(sv: State, s: Ip): Payload
    requires s in sv.scopes && OwnParses(sv.rels, s)
  {
    Observed(s, sv.scopes[s], FailoverOf(sv.rels, s))
  }

  /** The relationship the scope is to be in is free or parses. */
  predicate EndParses(rels: Relationships, d: Payload) {
    d.failover.Some? ==> NameParses(rels, d.failover.value)
  }

  /* ---- Fault-free convergence ---- */

  lemma ConvergeEnds(sv: State, d: Payload, ord: Order) returns (r': Record)
    requires Converges(sv, d, ord)
    ensures Shows(r', d)
    ensures var c := Current(sv, d.scope);
            Finish(sv, DiffSteps(sv.rels, d.scope, c, d, ord)) ==
              Ending(sv.(scopes := sv.scopes[d.scope := r'],
                         rels := AfterFailover(sv.rels, d.scope, c.failover, d.failover)), true)
    ensures var after := AfterFailover(sv.rels, d.scope, Current(sv, d.scope).failover, d.failover);
            && OneRelationshipEach(after) && (OwnParses(after, d.scope) <==> EndParses(sv.rels, d))
            && (d.failover.Some? <==> InSomeRelationship(after, d.scope))
  {
    var s, c := d.scope, Current(sv, d.scope);
    r' := RecordConverges(s, sv.scopes[s], c, d, ord);
    LiftedRun(sv, s, RecordPlan(c, d, ord));
    var mid := sv.(scopes := sv.scopes[s := r']);
    FailoverStepsEnd(mid, s, d.failover);
    FinishConcat(sv, Lift(s, RecordPlan(c, d, ord)), FailoverSteps(sv.rels, s, c.failover, d.failover));
  }

  lemma ReplicateEnds(sv: State, s: Ip)
    requires s in sv.scopes && InSomeRelationship(sv.rels, s)
    ensures Finish(sv, [Step(Replicate(s), Strict)]) ==
              Ending(sv.(partner := sv.partner[s := sv.scopes[s]]), true)
  {
    FinishOne(sv, Step(Replicate(s), Strict));
  }

  /** Convergence: without faults every cmdlet of a PUT is accepted, the record shows what was asked
      for, and the failover relationships make one pass. GET then shows the result, and the PUT
      succeeds, exactly if the relationship the scope was to be in was free or parses. */
  lemma PutConverges(sv: State, d: Payload, ord: Order)
    requires Converges(sv, d, ord)
    ensures var e := Serve(sv, Put(d), ord, []);
            && Wf(e.sv) && d.scope in e.sv.scopes && Shows(e.sv.scopes[d.scope], d)
            && e.sv.rels == AfterFailover(sv.rels, d.scope, FailoverOf(sv.rels, d.scope), d.failover)
            && (e.ok <==> EndParses(sv.rels, d)) && (OwnParses(e.sv.rels, d.scope) <==> EndParses(sv.rels, d))
            && Read(e.sv, d.scope) ==
                 if EndParses(sv.rels, d) then Found(d.(failover := FailoverOf(e.sv.rels, d.scope))) else Unreadable
    ensures Intent(sv, Put(d), ord).Some? && Run(sv, Intent(sv, Put(d), ord).value, []).ok
  {
    hide RecordPlan, FailoverSteps, AfterFailover, OrderFor, Valid, EndParses;
    var s, c := d.scope, Current(sv, d.scope);
    ReadIsPartial(sv, s);
    var diff := DiffSteps(sv.rels, s, c, d, ord);
    var r' := ConvergeEnds(sv, d, ord);
    var sv' := Finish(sv, diff).sv;
    var tail := if diff != [] && d.failover.Some? then [Step(Replicate(s), Strict)] else [];
    if tail != [] {
      ReplicateEnds(sv', s);
    }
    FinishConcat(sv, diff, tail);
    RequestsArePolite(sv, Put(d), ord, []);
    var e := Serve(sv, Put(d), ord, []);
    assert e == Answered(Put(d), Finish(sv, diff + tail));
    ShownPayloadIsReadable(r', d);
    ReadIsPartial(e.sv, s);
  }

  /** The failover a converge run ends with is the desired one: none, or one that one pass
      reaches. */
  predicate FailoverInReach(rels: Relationships, d: Payload) {
    d.failover.Some? ==> OnePass(rels, d.scope, d.failover.value)
  }

  /** Parity and idempotence: GET then shows exactly the desired payload if and only if its
      failover was one pass away, and in that case the same PUT issues no cmdlet. */
  lemma PutIsIdempotent(sv: State, d: Payload, ord: Order, again: Order)
    requires Converges(sv, d, ord)
    ensures Read(Serve(sv, Put(d), ord, []).sv, d.scope) == Found(d) <==> FailoverInReach(sv.rels, d)
    ensures FailoverInReach(sv.rels, d) && OrderFor(again, d, d) ==>
              Intent(Serve(sv, Put(d), ord, []).sv, Put(d), again) == Some([])
  {
    var s := d.scope;
    PutConverges(sv, d, ord);
    var sv' := Serve(sv, Put(d), ord, []).sv;
    PassReachesDesired(sv, d);
    if Read(sv', s) == Found(d) && OrderFor(again, d, d) {
      ReadShowsNothingToDo(sv', d, again);
    }
  }

  lemma PassReachesDesired(sv: State, d: Payload)
    requires Wf(sv) && Valid(d) && OwnParses(sv.rels, d.scope)
    ensures FailoverOf(sv.rels, d.scope).Some? ==> FailoverOf(sv.rels, d.scope).value.name in sv.rels
    ensures var after := AfterFailover(sv.rels, d.scope, FailoverOf(sv.rels, d.scope), d.failover);
            OwnParses(after, d.scope) && FailoverOf(after, d.scope) == d.failover <==> FailoverInReach(sv.rels, d)
  {
    var c := FailoverOf(sv.rels, d.scope);
    if c.Some? {
      var n := MembershipWitness(sv.rels, d.scope);
    }
    if d.failover.Some? {
      ReachedInOnePass(sv.rels, d.scope, d.failover.value);
    } else {
      if c.Some? {
        LeftSound(sv.rels, d.scope, c.value.name);
      }
      NoMembership(AfterFailover(sv.rels, d.scope, c, None), d.scope);
    }
  }

  lemma ReadShowsNothingToDo(sv: State, d: Payload, ord: Order)
    requires Wf(sv) && Valid(d) && Read(sv, d.scope) == Found(d) && OrderFor(ord, d, d)
    ensures Intent(sv, Put(d), ord) == Some([])
  {
    ReadIsPartial(sv, d.scope);
    NothingToDo(d.scope, sv.scopes[d.scope], d, d, ord);
  }

  /** A different mask is refused with nothing written. */
  lemma MaskIsImmutable(sv: State, d: Payload, ord: Order, weather: seq<Weather>)
    requires d.scope in sv.scopes && sv.scopes[d.scope].mask != d.mask
    ensures Serve(sv, Put(d), ord, weather) == Ending(sv, false)
    ensures Serve(sv, Post(d), ord, weather) == Ending(sv, false)
  {
    var s := d.scope;
    DecodeIsPartial(s, sv.scopes[s], RawFailoverOf(sv.rels, s));
  }

  lemma CreateRecordRun(sv: State, d: Payload)
    requires Valid(d) && d.scope !in sv.scopes
    ensures var add := Step(AddScope(d.scope, d.mask, d.range, d.scopeName, d.lease, d.description), PresentOk);
            Finish(sv, [add] + Lift(d.scope, CreateEdits(d))) ==
              Ending(sv.(scopes := sv.scopes[d.scope := Built(d, |d.exclusions|)]), true)
  {
    var s := d.scope;
    var add := Step(AddScope(s, d.mask, d.range, d.scopeName, d.lease, d.description), PresentOk);
    var sv1 := sv.(scopes := sv.scopes[s := Added(d)]);
    var built := Built(d, |d.exclusions|);
    assert Finish(sv, [add]) == Ending(sv1, true) by {
      FinishOne(sv, add);
    }
    assert EditAll(Added(d), CreateEdits(d)) == Some(built) by {
      CreateConverges(d);
    }
    LiftedRun(sv1, s, CreateEdits(d));
    FinishConcat(sv, [add], Lift(s, CreateEdits(d)));
    assert sv1.scopes[s := built] == sv.scopes[s := built];
  }

  /** POST on an absent scope meets the same postcondition. */
  lemma PostCreates(sv: State, d: Payload, ord: Order)
    requires Wf(sv) && Valid(d) && d.scope !in sv.scopes
    ensures var e := Serve(sv, Post(d), ord, []);
            && Wf(e.sv) && d.scope in e.sv.scopes && Shows(e.sv.scopes[d.scope], d)
            && e.sv.rels == AfterFailover(sv.rels, d.scope, None, d.failover)
            && (e.ok <==> EndParses(sv.rels, d)) && (OwnParses(e.sv.rels, d.scope) <==> EndParses(sv.rels, d))
            && Read(e.sv, d.scope) ==
                 if EndParses(sv.rels, d) then Found(d.(failover := FailoverOf(e.sv.rels, d.scope))) else Unreadable
    ensures Read(Serve(sv, Post(d), ord, []).sv, d.scope) == Found(d) <==> FailoverInReach(sv.rels, d)
  {
    var s := d.scope;
    var add := Step(AddScope(s, d.mask, d.range, d.scopeName, d.lease, d.description), PresentOk);
    var record := [add] + Lift(s, CreateEdits(d));
    var tail := if d.failover.Some? then SetupSteps(sv.rels, s, d.failover.value) + [Step(Replicate(s), Strict)]
                else [];
    CreateRecordRun(sv, d);
    CreateConverges(d);
    var mid := Finish(sv, record).sv;
    assert !InSomeRelationship(sv.rels, s);
    NoMembership(sv.rels, s);
    if d.failover.Some? {
      var setup := SetupSteps(sv.rels, s, d.failover.value);
      SetupEnds(mid, s, d.failover.value);
      var joined := Finish(mid, setup).sv;
      ReplicateEnds(joined, s);
      FinishConcat(mid, setup, [Step(Replicate(s), Strict)]);
      ReachedInOnePass(sv.rels, s, d.failover.value);
    }
    FinishConcat(sv, record, tail);
    assert CreatePlan(sv.rels, d) == record + tail;
    RequestsArePolite(sv, Post(d), ord, []);
    var e := Serve(sv, Post(d), ord, []);
    ShownPayloadIsReadable(e.sv.scopes[s], d);
    ReadIsPartial(e.sv, s);
  }

  /* ---- Faults and retries ---- */

  /** Steps that leave all records alone. */
  ghost predicate RecordsUntouched(steps: seq<Step>) {
    forall i :: 0 <= i < |steps| ==>
      !steps[i].cmd.EditScope? && !steps[i].cmd.AddScope? && !steps[i].cmd.RemoveScope?
  }

  lemma {:induction false} FailoverRunKeepsRecords(sv: State, steps: seq<Step>, weather: seq<Weather>)
    requires RecordsUntouched(steps)
    ensures Run(sv, steps, weather).sv.scopes == sv.scopes
    decreases |steps|
  {
    if steps != [] {
      var e := Attempt(sv, steps[0], Now(weather));
      if e.ok {
        FailoverRunKeepsRecords(e.sv, steps[1..], Later(weather));
      }
    }
  }

  lemma RecordPlanIsResolute(c: Payload, d: Payload, ord: Order)
    ensures forall i :: 0 <= i < |RecordPlan(c, d, ord)| ==> !RecordPlan(c, d, ord)[i].tolerance.Anything?
  {
    var a, b, o, p := RangePhase(c, d), ParamPhase(c, d), OptionPhase(c, d), BootPhase(c, d);
    var minus, plus := Removals(ord.removals, Strict), Additions(ord.additions, Strict);
    assert forall x :: x in a ==> !x.tolerance.Anything?;
    assert forall x :: x in b ==> !x.tolerance.Anything?;
    assert forall x :: x in o ==> !x.tolerance.Anything?;
    assert forall x :: x in p ==> !x.tolerance.Anything?;
    assert forall x :: x in minus ==> !x.tolerance.Anything?;
    assert forall x :: x in plus ==> !x.tolerance.Anything?;
    forall x | x in RecordPlan(c, d, ord)
      ensures !x.tolerance.Anything?
    {
      assert x in a || x in b || x in o || x in p || x in minus || x in plus;
    }
  }

  lemma FailoverStepsShape(rels: Relationships, s: Ip, c: Option<Failover>, d: Option<Failover>)
    ensures RecordsUntouched(FailoverSteps(rels, s, c, d)) && Resolute(FailoverSteps(rels, s, c, d))
  {
  }

  lemma ConvergePlanShape(sv: State, s: Ip, c: Payload, d: Payload, ord: Order) returns (rest: seq<Step>)
    ensures ConvergePlan(sv.rels, s, c, d, ord) == Lift(s, RecordPlan(c, d, ord)) + rest
    ensures RecordsUntouched(rest) && Resolute(rest) && Resolute(Lift(s, RecordPlan(c, d, ord)))
  {
    var diff := DiffSteps(sv.rels, s, c, d, ord);
    var edits, failover := Lift(s, RecordPlan(c, d, ord)), FailoverSteps(sv.rels, s, c.failover, d.failover);
    var last := if diff != [] && d.failover.Some? then [Step(Replicate(s), Strict)] else [];
    rest := failover + last;
    FailoverStepsShape(sv.rels, s, c.failover, d.failover);
    RecordPlanIsResolute(c, d, ord);
    assert (edits + failover) + last == edits + (failover + last);
  }

  /** The record a PUT leaves in any weather is that of a stop of its record plan. */
  lemma PutLeavesAStop(sv: State, d: Payload, ord: Order, weather: seq<Weather>) returns (k: nat)
    requires Converges(sv, d, ord)
    ensures var c := Current(sv, d.scope);
            && k <= |RecordPlan(c, d, ord)|
            && d.scope in Serve(sv, Put(d), ord, weather).sv.scopes
            && StopAt(sv.scopes[d.scope], RecordPlan(c, d, ord), k) ==
                 Some(Serve(sv, Put(d), ord, weather).sv.scopes[d.scope])
  {
    var s, c := d.scope, Current(sv, d.scope);
    ReadIsPartial(sv, s);
    var plan := RecordPlan(c, d, ord);
    var rest := ConvergePlanShape(sv, s, c, d, ord);
    var r' := RecordConverges(s, sv.scopes[s], c, d, ord);
    RunConcat(sv, Lift(s, plan), rest, weather);
    var first := Run(sv, Lift(s, plan), weather);
    k := StopIsPrefix(sv, Lift(s, plan), weather);
    assert Lift(s, plan)[..k] == Lift(s, plan[..k]);
    EditPrefix(sv.scopes[s], plan, k);
    LiftedRun(sv, s, plan[..k]);
    if first.ok {
      FailoverRunKeepsRecords(first.sv, rest, LaterBy(weather, |plan|));
    }
  }

  lemma EditPrefix(r: Record, steps: seq<EditStep>, k: nat)
    requires k <= |steps| && EditAll(r, steps).Some?
    ensures EditAll(r, steps[..k]).Some?
  {
    assert steps == steps[..k] + steps[k..];
    EditConcat(r, steps[..k], steps[k..]);
  }

  /* ---- Which relationships a run can enter ---- */

  /** The steps enter no relationship but the named one. */
  ghost predicate EntersOnly(steps: seq<Step>, name: Option<string>) {
    forall i :: 0 <= i < |steps| ==>
      && (steps[i].cmd.JoinFailover? ==> Some(steps[i].cmd.rel) == name)
      && (steps[i].cmd.CreateFailover? ==> Some(steps[i].cmd.failover.name) == name)
  }

  lemma {:induction false} RunEntersOnly(sv: State, steps: seq<Step>, weather: seq<Weather>,
                                         name: Option<string>, n: string, t: Ip)
    requires EntersOnly(steps, name) && Member(Run(sv, steps, weather).sv.rels, n, t)
    ensures Member(sv.rels, n, t) || Some(n) == name
    decreases |steps|
  {
    if steps != [] {
      var e := Attempt(sv, steps[0], Now(weather));
      if e.ok {
        RunEntersOnly(e.sv, steps[1..], Later(weather), name, n, t);
      }
    }
  }

  function DesiredName(req: Request): Option<string> {
    if (req.Put? || req.Post?) && req.d.failover.Some? then Some(req.d.failover.value.name) else None
  }

  lemma LiftEntersNone(s: Ip, edits: seq<EditStep>, name: Option<string>)
    ensures EntersOnly(Lift(s, edits), name)
  {
  }

  lemma FailoverStepsEnterOnly(rels: Relationships, s: Ip, c: Option<Failover>, d: Option<Failover>)
    ensures EntersOnly(FailoverSteps(rels, s, c, d), if d.Some? then Some(d.value.name) else None)
  {
  }

  lemma ConvergeEntersOnly(sv: State, c: Payload, d: Payload, ord: Order)
    ensures EntersOnly(ConvergePlan(sv.rels, d.scope, c, d, ord), DesiredName(Put(d)))
  {
    hide RecordPlan, FailoverSteps, Lift;
    LiftEntersNone(d.scope, RecordPlan(c, d, ord), DesiredName(Put(d)));
    FailoverStepsEnterOnly(sv.rels, d.scope, c.failover, d.failover);
  }

  lemma CreateEntersOnly(sv: State, d: Payload)
    ensures EntersOnly(CreatePlan(sv.rels, d), DesiredName(Post(d)))
  {
    hide CreateEdits, Lift;
    LiftEntersNone(d.scope, CreateEdits(d), DesiredName(Post(d)));
  }

  lemma DeleteEntersNone(sv: State, s: Ip, c: Payload)
    ensures EntersOnly(DeletePlan(sv.rels, s, c), None)
  {
    hide Removals, Lift;
    LiftEntersNone(s, Removals(c.exclusions, Anything), None);
  }

  lemma IntentEntersOnly(sv: State, req: Request, ord: Order)
    requires Intent(sv, req, ord).Some?
    ensures EntersOnly(Intent(sv, req, ord).value, DesiredName(req))
  {
    var s := Target(req);
    if req.Delete? {
      if s in sv.scopes {
        DeleteEntersNone(sv, s, Read(sv, s).payload);
      }
    } else if req.Post? && s !in sv.scopes {
      CreateEntersOnly(sv, req.d);
    } else if !req.Get? {
      ConvergeEntersOnly(sv, Read(sv, s).payload, req.d, ord);
    }
  }

  /** In any weather a request makes its scope unreadable through a relationship only if that is the
      one asked for and did not parse before. */
  lemma OwnParsesUnlessJoined(sv: State, req: Request, ord: Order, weather: seq<Weather>)
    requires Wf(sv) && ValidRequest(req) && OwnParses(sv.rels, Target(req))
    ensures var after := Serve(sv, req, ord, weather).sv;
            OwnParses(after.rels, Target(req)) ||
            (DesiredName(req).Some? && !NameParses(sv.rels, req.d.failover.value)
             && Member(after.rels, DesiredName(req).value, Target(req)))
  {
    var s := Target(req);
    var after := Serve(sv, req, ord, weather).sv;
    RequestsArePolite(sv, req, ord, weather);
    if !OwnParses(after.rels, s) && Intent(sv, req, ord).Some? {
      var n := RelationshipOf(after.rels, s).value;
      IntentEntersOnly(sv, req, ord);
      RunEntersOnly(sv, Intent(sv, req, ord).value, weather, DesiredName(req), n, s);
      assert !Parsable(n, sv.rels[n]);
      if Member(sv.rels, n, s) {
        MembershipIsUnique(sv.rels, s, n);
      }
    }
  }

  /* ---- Relationships that do not parse ---- */

  /** The step neither drops nor changes relationship n. */
  predicate Spares(n: string, step: Step) {
    !(step.cmd.DropFailover? && step.cmd.rel == n) && !(step.cmd.TuneFailover? && step.cmd.rel == n)
  }

  ghost predicate AllSpare(n: string, steps: seq<Step>) {
    forall i :: 0 <= i < |steps| ==> Spares(n, steps[i])
  }

  /** The same relationship, its members aside. */
  predicate SameTerms(a: Relationship, b: Relationship) {
    a.(members := {}) == b.(members := {})
  }

  lemma {:induction false} SparedRun(sv: State, steps: seq<Step>, weather: seq<Weather>, n: string)
    requires n in sv.rels && AllSpare(n, steps)
    ensures n in Run(sv, steps, weather).sv.rels && SameTerms(sv.rels[n], Run(sv, steps, weather).sv.rels[n])
    decreases |steps|
  {
    if steps != [] {
      var e := Attempt(sv, steps[0], Now(weather));
      SparedAttempt(sv, steps[0], Now(weather), n);
      if e.ok {
        SparedRun(e.sv, steps[1..], Later(weather), n);
      }
    }
  }

  lemma SparedAttempt(sv: State, step: Step, w: Weather, n: string)
    requires n in sv.rels && Spares(n, step)
    ensures n in Attempt(sv, step, w).sv.rels && SameTerms(sv.rels[n], Attempt(sv, step, w).sv.rels[n])
  {
  }

  lemma FailoverStepsSpare(rels: Relationships, s: Ip, c: Option<Failover>, d: Option<Failover>, n: string)
    requires c.Some? ==> c.value.name != n
    ensures AllSpare(n, FailoverSteps(rels, s, c, d))
  {
  }

  lemma LiftSpares(s: Ip, edits: seq<EditStep>, n: string)
    ensures AllSpare(n, Lift(s, edits))
  {
  }

  lemma ConvergeSpares(rels: Relationships, c: Payload, d: Payload, ord: Order, n: string)
    requires c.failover.Some? ==> c.failover.value.name != n
    ensures AllSpare(n, ConvergePlan(rels, d.scope, c, d, ord))
  {
    hide RecordPlan, FailoverSteps, Lift;
    LiftSpares(d.scope, RecordPlan(c, d, ord), n);
    FailoverStepsSpare(rels, d.scope, c.failover, d.failover, n);
  }

  lemma CreateSpares(rels: Relationships, d: Payload, n: string)
    ensures AllSpare(n, CreatePlan(rels, d))
  {
    hide CreateEdits, Lift;
    LiftSpares(d.scope, CreateEdits(d), n);
  }

  lemma DeleteSpares(rels: Relationships, s: Ip, c: Payload, n: string)
    requires c.failover.Some? ==> c.failover.value.name != n
    ensures AllSpare(n, DeletePlan(rels, s, c))
  {
    hide Removals, Lift;
    LiftSpares(s, Removals(c.exclusions, Anything), n);
  }

  /** A request that gets as far as writing has read its scope, so the relationship it leaves, drops
      or tunes is one that parses. */
  lemma IntentSpares(sv: State, req: Request, ord: Order, n: string)
    requires Wf(sv) && Intent(sv, req, ord).Some? && n in sv.rels && !Parsable(n, sv.rels[n])
    ensures AllSpare(n, Intent(sv, req, ord).value)
  {
    var s := Target(req);
    if s in sv.scopes {
      ReadIsPartial(sv, s);
      var c := Read(sv, s).payload;
      if Read(sv, s).Found? && c.failover.Some? {
        var own := MembershipWitness(sv.rels, s);
        MembershipIsUnique(sv.rels, s, own);
      }
      if req.Delete? {
        DeleteSpares(sv.rels, s, c, n);
      } else if !req.Get? {
        ConvergeSpares(sv.rels, c, req.d, ord, n);
      }
    } else if req.Post? {
      CreateSpares(sv.rels, req.d, n);
    }
  }

  /** No request drops or changes a relationship that does not parse. */
  lemma UnparsedStays(sv: State, req: Request, ord: Order, weather: seq<Weather>, n: string)
    requires Wf(sv) && n in sv.rels && !Parsable(n, sv.rels[n])
    ensures var after := Serve(sv, req, ord, weather).sv;
            n in after.rels && SameTerms(sv.rels[n], after.rels[n]) && !Parsable(n, after.rels[n])
  {
    if Intent(sv, req, ord).Some? {
      IntentSpares(sv, req, ord, n);
      SparedRun(sv, Intent(sv, req, ord).value, weather, n);
    }
  }

  /* ---- Retries ---- */

  /** Repeated PUTs or POSTs of one payload, each stopped wherever the weather has it. */
  ghost predicate Retries(sv: State, d: Payload, events: seq<Event>)
    decreases |events|
  {
    events == [] ||
    ((events[0].req == Put(d) || events[0].req == Post(d))
     && (Read(sv, d.scope).Found? ==> OrderFor(events[0].ord, Read(sv, d.scope).payload, d))
     && Retries(Serve(sv, events[0].req, events[0].ord, events[0].weather).sv, d, events[1..]))
  }

  /** A PUT or POST of a scope that exists leaves its record repairable if it was. */
  lemma RetryStaysRepairable(sv: State, d: Payload, req: Request, ord: Order, weather: seq<Weather>)
    requires Wf(sv) && Valid(d) && d.scope in sv.scopes && Repairable(d.scope, sv.scopes[d.scope], d)
    requires req == Put(d) || req == Post(d)
    requires Read(sv, d.scope).Found? ==> OrderFor(ord, Read(sv, d.scope).payload, d)
    ensures var after := Serve(sv, req, ord, weather).sv;
            Wf(after) && d.scope in after.scopes && Repairable(d.scope, after.scopes[d.scope], d)
  {
    var s := d.scope;
    ReadIsPartial(sv, s);
    RequestsArePolite(sv, req, ord, weather);
    assert Serve(sv, req, ord, weather).sv == Serve(sv, Put(d), ord, weather).sv;
    if OwnParses(sv.rels, s) {
      var c := Current(sv, s);
      SafeRecordIsSafeUpdate(s, sv.scopes[s], c.failover, d);
      SafeUpdateHoldsThroughout(s, sv.scopes[s], c, d, ord);
      var k := PutLeavesAStop(sv, d, ord, weather);
      ThroughoutMeansEveryStop(s, sv.scopes[s], RecordPlan(c, d, ord), d, k);
    }
  }

  /** Crash and retry: if the update is safe, then however often and wherever the PUT or POST is
      stopped, the record stays repairable. The scope stays readable unless the relationship asked
      for exists and does not parse. */
  lemma {:induction false} RetriesStayRepairable(sv: State, d: Payload, events: seq<Event>)
    requires Wf(sv) && Valid(d) && d.scope in sv.scopes && Repairable(d.scope, sv.scopes[d.scope], d)
    requires OwnParses(sv.rels, d.scope) || !EndParses(sv.rels, d)
    requires Retries(sv, d, events)
    ensures var end := Replay(sv, events);
            && Wf(end) && d.scope in end.scopes && Repairable(d.scope, end.scopes[d.scope], d)
            && (EndParses(sv.rels, d) <==> EndParses(end.rels, d))
            && (OwnParses(end.rels, d.scope) || !EndParses(end.rels, d))
    decreases |events|
  {
    if events != [] {
      var req, ord, weather := events[0].req, events[0].ord, events[0].weather;
      var next := Serve(sv, req, ord, weather).sv;
      RetryStaysRepairable(sv, d, req, ord, weather);
      RequestsArePolite(sv, req, ord, weather);
      RetryKeepsParsing(sv, d, req, ord, weather);
      RetriesStayRepairable(next, d, events[1..]);
    }
  }

  /** The relationship asked for is free or parses after a retry iff it was or did before. */
  lemma RetryKeepsParsing(sv: State, d: Payload, req: Request, ord: Order, weather: seq<Weather>)
    requires Wf(sv) && Valid(d) && d.scope in sv.scopes && (req == Put(d) || req == Post(d))
    requires OwnParses(sv.rels, d.scope) || !EndParses(sv.rels, d)
    ensures var after := Serve(sv, req, ord, weather).sv;
            && (EndParses(sv.rels, d) <==> EndParses(after.rels, d))
            && (OwnParses(after.rels, d.scope) || !EndParses(after.rels, d))
  {
    var after := Serve(sv, req, ord, weather).sv;
    RequestsArePolite(sv, req, ord, weather);
    ReadIsPartial(sv, d.scope);
    if !EndParses(sv.rels, d) {
      UnparsedStays(sv, req, ord, weather, d.failover.value.name);
    }
    if OwnParses(sv.rels, d.scope) {
      OwnParsesUnlessJoined(sv, req, ord, weather);
    }
  }

  /** ... and the first PUT or POST that meets no fault reaches the desired record, and succeeds
      exactly if the relationship asked for was free or parsed to begin with. */
  lemma CrashAndRetry(sv: State, d: Payload, events: seq<Event>, req: Request, ord: Order)
    requires Updatable(sv, d) && SafeUpdate(Current(sv, d.scope), d)
    requires Retries(sv, d, events) && (req == Put(d) || req == Post(d))
    ensures var end := Replay(sv, events);
            && Wf(end) && d.scope in end.scopes
            && (EndParses(sv.rels, d) ==> Updatable(end, d))
    ensures var end := Replay(sv, events);
            var e := Serve(end, req, ord, []);
            (Read(end, d.scope).Found? ==> OrderFor(ord, Read(end, d.scope).payload, d)) ==>
              (e.ok <==> EndParses(sv.rels, d)) && (e.ok ==> d.scope in e.sv.scopes && Shows(e.sv.scopes[d.scope], d))
  {
    SafeRecordIsSafeUpdate(d.scope, sv.scopes[d.scope], FailoverOf(sv.rels, d.scope), d);
    RetriesStayRepairable(sv, d, events);
    var end := Replay(sv, events);
    ReadIsPartial(end, d.scope);
    if Read(end, d.scope).Found? && OrderFor(ord, Read(end, d.scope).payload, d) {
      PutConverges(end, d, ord);
    }
  }

  /** A scope that a PUT of `d` converges, given some order of its exclusions. */
  ghost predicate Updatable(sv: State, d: Payload) {
    && Wf(sv) && Valid(d) && d.scope in sv.scopes && OwnParses(sv.rels, d.scope)
    && Readable(d.scope, sv.scopes[d.scope]) && sv.scopes[d.scope].mask == d.mask
  }

  /** What a create leaves can be updated, and the same PUT is safe on it. */
  lemma CreatedScopeIsUpdatable(sv: State, d: Payload, ord: Order)
    requires Wf(sv) && Valid(d) && d.scope !in sv.scopes && EndParses(sv.rels, d)
    ensures var after := Serve(sv, Post(d), ord, []).sv;
            Updatable(after, d) && SafeUpdate(Current(after, d.scope), d)
  {
    PostCreates(sv, d, ord);
    var after := Serve(sv, Post(d), ord, []).sv;
    ShownPayloadIsReadable(after.scopes[d.scope], d);
    ShowsFieldwise(after.scopes[d.scope], d);
    SafeRecordIsSafeUpdate(d.scope, after.scopes[d.scope], FailoverOf(after.rels, d.scope), d);
    assert ToSet(d.exclusions) * ToSet(d.exclusions) == ToSet(d.exclusions);
  }

  /* ---- Repeated PUTs without faults ---- */

  /** The record is one a PUT of `d` converges; the scope's relationship need not parse. */
  ghost predicate Editable(sv: State, d: Payload) {
    && Wf(sv) && Valid(d) && d.scope in sv.scopes
    && Readable(d.scope, sv.scopes[d.scope]) && sv.scopes[d.scope].mask == d.mask
  }

  /** One fault-free PUT: the record converges if the scope can be read, and the relationships make
      one pass in either case. */
  lemma OnePut(sv: State, d: Payload, ord: Order) returns (next: State)
    requires Editable(sv, d) && d.failover.Some?
    requires OwnParses(sv.rels, d.scope) ==> OrderFor(ord, Current(sv, d.scope), d)
    ensures next == Serve(sv, Put(d), ord, []).sv && Editable(next, d)
    ensures next.rels == Pass(sv.rels, d.scope, d.failover.value)
    ensures OwnParses(sv.rels, d.scope) || Shows(sv.scopes[d.scope], d) ==> Shows(next.scopes[d.scope], d)
  {
    next := Serve(sv, Put(d), ord, []).sv;
    ReadIsPartial(sv, d.scope);
    if OwnParses(sv.rels, d.scope) {
      PutConverges(sv, d, ord);
      ShownPayloadIsReadable(next.scopes[d.scope], d);
      ShowsFieldwise(next.scopes[d.scope], d);
    }
  }

  /** Fault-free PUTs of one payload, one after another. */
  ghost function PutAll(sv: State, d: Payload, ords: seq<Order>): State
    decreases |ords|
  {
    if ords == [] then sv else PutAll(Serve(sv, Put(d), ords[0], []).sv, d, ords[1..])
  }

  ghost predicate Orderly(sv: State, d: Payload, ords: seq<Order>)
    decreases |ords|
  {
    ords == [] ||
    ((Updatable(sv, d) ==> OrderFor(ords[0], Current(sv, d.scope), d))
     && Orderly(Serve(sv, Put(d), ords[0], []).sv, d, ords[1..]))
  }

  /** They make the relationships run through the passes. */
  lemma {:induction false} PutsMakePasses(sv: State, d: Payload, ords: seq<Order>)
    requires Editable(sv, d) && d.failover.Some? && Orderly(sv, d, ords)
    ensures Editable(PutAll(sv, d, ords), d)
    ensures PutAll(sv, d, ords).rels == Passes(sv.rels, d.scope, d.failover.value, |ords|)
    ensures Shows(sv.scopes[d.scope], d) || (ords != [] && OwnParses(sv.rels, d.scope)) ==>
              Shows(PutAll(sv, d, ords).scopes[d.scope], d)
    decreases |ords|
  {
    hide Serve, Pass, Read, Valid, Readable, OrderFor, Shows, OwnParses;
    if ords != [] {
      var next := OnePut(sv, d, ords[0]);
      PutsMakePasses(next, d, ords[1..]);
    }
  }

  lemma PutsShowIffReached(sv: State, d: Payload, ords: seq<Order>)
    requires Editable(sv, d) && d.failover.Some? && Orderly(sv, d, ords) && ords != [] && OwnParses(sv.rels, d.scope)
    ensures Read(PutAll(sv, d, ords), d.scope) == Found(d) <==>
              Reached(Passes(sv.rels, d.scope, d.failover.value, |ords|), d.scope, d.failover.value)
  {
    PutsMakePasses(sv, d, ords);
    ReadIsPartial(PutAll(sv, d, ords), d.scope);
  }

  /** Failover convergence as seen through the API: two or more fault-free PUTs end in what was
      asked for exactly under TwoPasses, a single one exactly under OnePass. */
  lemma PutsReachFailover(sv: State, d: Payload, ords: seq<Order>)
    requires Updatable(sv, d) && d.failover.Some? && Orderly(sv, d, ords)
    ensures |ords| == 1 ==>
              (Read(PutAll(sv, d, ords), d.scope) == Found(d) <==> OnePass(sv.rels, d.scope, d.failover.value))
    ensures |ords| >= 2 ==>
              (Read(PutAll(sv, d, ords), d.scope) == Found(d) <==> TwoPasses(sv.rels, d.scope, d.failover.value))
  {
    hide Pass, Reached, TwoPasses, OnePass;
    var f := d.failover.value;
    if ords != [] {
      PutsShowIffReached(sv, d, ords);
    }
    if |ords| == 1 {
      ReachedInOnePass(sv.rels, d.scope, f);
      assert Passes(sv.rels, d.scope, f, 1) == Passes(Pass(sv.rels, d.scope, f), d.scope, f, 0);
    } else if |ords| >= 2 {
      PassesNeeded(sv.rels, d.scope, f, |ords|);
    }
  }

  /* ---- Scopes nobody can read ---- */

  /** The scope exists, and its record or the relationship it is in cannot be read. */
  ghost predicate Bricked(sv: State, s: Ip) {
    Read(sv, s).Unreadable?
  }

  /** GET, PUT, POST and DELETE of a scope that cannot be read all fail without a write. */
  lemma BrickedRefusesAll(sv: State, req: Request, ord: Order, weather: seq<Weather>)
    requires Bricked(sv, Target(req))
    ensures Serve(sv, req, ord, weather) == Ending(sv, false)
  {
  }

  /** A request on another scope leaves it as it is. */
  lemma BrickedSurvives(sv: State, s: Ip, req: Request, ord: Order, weather: seq<Weather>)
    requires Wf(sv) && ValidRequest(req) && Bricked(sv, s) && Target(req) != s
    ensures var next := Serve(sv, req, ord, weather).sv;
            Wf(next) && Bricked(next, s) && next.scopes[s] == sv.scopes[s]
  {
    var next := Serve(sv, req, ord, weather).sv;
    RequestsArePolite(sv, req, ord, weather);
    OtherRecordKept(sv, next, Target(req), s);
    ReadIsPartial(sv, s);
    ReadIsPartial(next, s);
    if !OwnParses(sv.rels, s) {
      var n := RelationshipOf(sv.rels, s).value;
      UnparsedStays(sv, req, ord, weather, n);
      assert Member(sv.rels, n, s) && Member(next.rels, n, s);
      MembershipIsUnique(next.rels, s, n);
    }
  }

  /** No history of requests, on any scopes and in any weather, ever makes it readable or changes
      its record. */
  lemma {:induction false} BrickedForever(sv: State, s: Ip, events: seq<Event>)
    requires Wf(sv) && ValidHistory(events) && Bricked(sv, s)
    ensures Bricked(Replay(sv, events), s) && Replay(sv, events).scopes[s] == sv.scopes[s]
    decreases |events|
  {
    if events != [] {
      var req, ord, weather := events[0].req, events[0].ord, events[0].weather;
      if Target(req) == s {
        BrickedRefusesAll(sv, req, ord, weather);
      } else {
        BrickedSurvives(sv, s, req, ord, weather);
      }
      BrickedForever(Serve(sv, req, ord, weather).sv, s, events[1..]);
    }
  }

  /** No fault is needed: a fault-free PUT or POST that asks for a relationship the API cannot parse
      joins it, fails in its final read, and leaves the scope unreadable. */
  lemma JoiningUnparsedBricks(sv: State, d: Payload, ord: Order)
    requires Wf(sv) && Valid(d) && !EndParses(sv.rels, d)
    ensures d.scope !in sv.scopes ==>
              !Serve(sv, Post(d), ord, []).ok && Bricked(Serve(sv, Post(d), ord, []).sv, d.scope)
    ensures Converges(sv, d, ord) ==>
              !Serve(sv, Put(d), ord, []).ok && Bricked(Serve(sv, Put(d), ord, []).sv, d.scope)
  {
    if d.scope !in sv.scopes {
      PostCreates(sv, d, ord);
    } else if Converges(sv, d, ord) {
      PutConverges(sv, d, ord);
    }
  }

  /** k calls go through, the next one is lost. */
  function LostAfter(k: nat): seq<Weather> {
    if k == 0 then [Lost] else [Fine] + LostAfter(k - 1)
  }

  lemma {:induction false} LostStopsThere(sv: State, steps: seq<Step>, k: nat)
    requires k < |steps| && !steps[k].tolerance.Anything? && Finish(sv, steps[..k]).ok
    ensures Run(sv, steps, LostAfter(k)) == Ending(Finish(sv, steps[..k]).sv, false)
    decreases k
  {
    if k > 0 {
      assert steps[..k][0] == steps[0] && steps[..k][1..] == steps[1..][..k - 1];
      assert LostAfter(k)[0] == Fine && LostAfter(k)[1..] == LostAfter(k - 1);
      LostStopsThere(Attempt(sv, steps[0], Fine).sv, steps[1..], k - 1);
    }
  }

  lemma UnsafeStop(s: Ip, r: Record, c: Payload, d: Payload, ord: Order) returns (k: nat)
    requires Comparable(s, r, c, d, ord) && !SafeUpdate(c, d)
    ensures k < |RecordPlan(c, d, ord)| && UnreadableStop(s, r, RecordPlan(c, d, ord), k)
  {
    var plan := RecordPlan(c, d, ord);
    var r' := RecordConverges(s, r, c, d, ord);
    ShownPayloadIsReadable(r', d);
    assert plan[..|plan|] == plan;
    EveryStopReadableIffSafe(s, r, c, d, ord);
    k :| UnreadableStop(s, r, plan, k);
  }

  /** The converse: an update that is not safe has a fault that bricks the scope. */
  lemma UnsafeUpdateCanBrick(sv: State, d: Payload, ord: Order) returns (k: nat)
    requires Converges(sv, d, ord) && !SafeUpdate(Current(sv, d.scope), d)
    ensures Bricked(Serve(sv, Put(d), ord, LostAfter(k)).sv, d.scope)
    ensures !Serve(sv, Put(d), ord, LostAfter(k)).ok
  {
    var s, c := d.scope, Current(sv, d.scope);
    ReadIsPartial(sv, s);
    k := UnsafeStop(s, sv.scopes[s], c, d, ord);
    var rest := ConvergePlanShape(sv, s, c, d, ord);
    LostEdit(sv, s, RecordPlan(c, d, ord), rest, k);
    ReadIsPartial(Serve(sv, Put(d), ord, LostAfter(k)).sv, s);
  }

  /** A plan that starts with edits, stopped by losing its k-th. */
  lemma LostEdit(sv: State, s: Ip, plan: seq<EditStep>, rest: seq<Step>, k: nat)
    requires s in sv.scopes && k < |plan| && StopAt(sv.scopes[s], plan, k).Some?
    requires Resolute(Lift(s, plan))
    ensures Run(sv, Lift(s, plan) + rest, LostAfter(k)) ==
              Ending(sv.(scopes := sv.scopes[s := StopAt(sv.scopes[s], plan, k).value]), false)
  {
    var steps := Lift(s, plan) + rest;
    assert steps[..k] == Lift(s, plan[..k]);
    assert steps[k] == Lift(s, plan)[k];
    LiftedRun(sv, s, plan[..k]);
    LostStopsThere(sv, steps, k);
  }

  /** Exactly these updates survive everything: no weather bricks the scope iff the update is safe
      and the relationship asked for is free or parses. */
  lemma SafeIffNoFaultBricks(sv: State, d: Payload, ord: Order)
    requires Converges(sv, d, ord)
    ensures SafeUpdate(Current(sv, d.scope), d) && EndParses(sv.rels, d) <==>
              forall weather: seq<Weather> :: !Bricked(Serve(sv, Put(d), ord, weather).sv, d.scope)
  {
    var s, c := d.scope, Current(sv, d.scope);
    if !EndParses(sv.rels, d) {
      JoiningUnparsedBricks(sv, d, ord);
    } else if SafeUpdate(c, d) {
      SafeRecordIsSafeUpdate(s, sv.scopes[s], c.failover, d);
      ReadIsPartial(sv, s);
      forall weather: seq<Weather>
        ensures !Bricked(Serve(sv, Put(d), ord, weather).sv, s)
      {
        RetryStaysRepairable(sv, d, Put(d), ord, weather);
        RetryKeepsParsing(sv, d, Put(d), ord, weather);
        ReadIsPartial(Serve(sv, Put(d), ord, weather).sv, s);
      }
    } else {
      var k := UnsafeUpdateCanBrick(sv, d, ord);
    }
  }
}
