/** The verbs of the API as runs of cmdlets on the server, and what every history of them keeps. */
module Api {
  import opened Common
  import opened Addresses
  import opened Exclusions
  import opened ScopeModel
  import opened Server
  import opened Reading
  import opened Plans
  import opened FailoverConvergence

  datatype Request = Get(s: Ip) | Put(d: Payload) | Post(d: Payload) | Delete(s: Ip)

  function Target(req: Request): Ip {
    match req
    case Get(s) => s
    case Put(d) => d.scope
    case Post(d) => d.scope
    case Delete(s) => s
  }

  ghost predicate ValidRequest(req: Request) {
    (req.Put? || req.Post?) ==> Valid(req.d)
  }

  ghost function ConvergeIntent(sv: State, d: Payload, ord: Order): Option<seq<Step>> {
    match Read(sv, d.scope)
    case Found(c) => if c.mask != d.mask then None else Some(ConvergePlan(sv.rels, d.scope, c, d, ord))
    case _ => None
  }

  /** The cmdlets a request sets out to issue; None where it is refused before any write. */
  ghost function Intent(sv: State, req: Request, ord: Order): Option<seq<Step>> {
    match req
    case Get(s) => if Read(sv, s).Found? then Some([]) else None
    case Put(d) => ConvergeIntent(sv, d, ord)
    case Post(d) =>
      if d.scope in sv.scopes then ConvergeIntent(sv, d, ord) else Some(CreatePlan(sv.rels, d))
    case Delete(s) =>
      if s !in sv.scopes then Some([])
      else (match Read(sv, s)
            case Found(c) => Some(DeletePlan(sv.rels, s, c))
            case _ => None)
  }

  /** PUT and POST end by reading the scope they return; where that fails so does the request. */
  ghost predicate AnswerReads(sv: State, req: Request) {
    req.Put? || req.Post? ==> Read(sv, Target(req)).Found?
  }

  ghost function Answered(req: Request, e: Ending): Ending {
    Ending(e.sv, e.ok && AnswerReads(e.sv, req))
  }

  /** One request in some weather: the state it leaves and whether it succeeded. */
  ghost function Serve(sv: State, req: Request, ord: Order, weather: seq<Weather>): Ending {
    match Intent(sv, req, ord)
    case None => Ending(sv, false)
    case Some(steps) => Answered(req, Run(sv, steps, weather))
  }

  /* ---- Politeness: what keeps the server well formed and other scopes untouched ---- */

  /** The conditions under which the cmdlets that could do damage may be issued. */
  ghost predicate Polite(sv: State, s: Ip, step: Step) {
    step.cmd.scope == s &&
    match step.cmd
    case DropFailover(_, n) => n in sv.rels ==> sv.rels[n].members == {}
    case RemoveScope(_) => !InSomeRelationship(sv.rels, s)
    case CreateFailover(_, f) => ValidFailover(f)
    case TuneFailover(_, _, leadTime, _, percent) => 1 <= leadTime <= 1440 && 0 <= percent <= 100
    case _ => true
  }

  /** Every step is polite at the moment it is issued. */
  ghost predicate PoliteRun(sv: State, s: Ip, steps: seq<Step>, weather: seq<Weather>)
    decreases |steps|
  {
    steps == [] ||
    (Polite(sv, s, steps[0]) &&
     var e := Attempt(sv, steps[0], Now(weather));
     e.ok ==> PoliteRun(e.sv, s, steps[1..], Later(weather)))
  }

  predicate Member(rels: Relationships, n: string, t: Ip) {
    n in rels && t in rels[n].members
  }

  /** Apart from scope s: the same records, the same partner copies, the same memberships. */
  ghost predicate OthersKept(before: State, after: State, s: Ip) {
    && before.scopes - {s} == after.scopes - {s}
    && before.partner - {s} == after.partner - {s}
    && forall n, t :: t != s ==> (Member(before.rels, n, t) <==> Member(after.rels, n, t))
  }

  /** No relationship the API cannot parse is new. */
  ghost predicate ParsingKept(before: Relationships, after: Relationships) {
    forall n :: n in after && !Parsable(n, after[n]) ==> n in before && !Parsable(n, before[n])
  }

  lemma PoliteAttempt(sv: State, s: Ip, step: Step, w: Weather)
    requires Wf(sv) && Polite(sv, s, step)
    ensures Wf(Attempt(sv, step, w).sv)
    ensures OthersKept(sv, Attempt(sv, step, w).sv, s)
    ensures ParsingKept(sv.rels, Attempt(sv, step, w).sv.rels)
  {
    if Apply(sv, step.cmd).Ok? {
      PoliteApplyParsing(sv, s, step);
      PoliteApplyOthers(sv, s, step);
      match step.cmd
      case EditScope(_, _) =>
      case AddScope(_, _, _, _, _, _) =>
      case RemoveScope(_) =>
      case Replicate(_) =>
      case _ => PoliteApplyRels(sv, s, step);
    }
  }

  lemma PoliteApplyOthers(sv: State, s: Ip, step: Step)
    requires Wf(sv) && Polite(sv, s, step) && Apply(sv, step.cmd).Ok?
    ensures OthersKept(sv, Apply(sv, step.cmd).value, s)
  {
    var sv' := Apply(sv, step.cmd).value;
    assert sv.scopes - {s} == sv'.scopes - {s};
    assert sv.partner - {s} == sv'.partner - {s};
  }

  lemma PoliteApplyRels(sv: State, s: Ip, step: Step)
    requires Wf(sv) && Polite(sv, s, step) && Apply(sv, step.cmd).Ok?
    requires Apply(sv, step.cmd).value.scopes == sv.scopes
    ensures Wf(Apply(sv, step.cmd).value)
  {
    var rels := Apply(sv, step.cmd).value.rels;
    forall m, n, t | Member(rels, m, t) && Member(rels, n, t)
      ensures m == n
    {
      if t != s {
        assert Member(sv.rels, m, t) && Member(sv.rels, n, t) by {
          PoliteApplyOthers(sv, s, step);
        }
      }
    }
  }

  lemma PoliteApplyParsing(sv: State, s: Ip, step: Step)
    requires Polite(sv, s, step) && Apply(sv, step.cmd).Ok?
    ensures ParsingKept(sv.rels, Apply(sv, step.cmd).value.rels)
  {
  }

  lemma {:induction false} PoliteRunKeeps(sv: State, s: Ip, steps: seq<Step>, weather: seq<Weather>)
    requires Wf(sv) && PoliteRun(sv, s, steps, weather)
    ensures Wf(Run(sv, steps, weather).sv)
    ensures OthersKept(sv, Run(sv, steps, weather).sv, s)
    ensures ParsingKept(sv.rels, Run(sv, steps, weather).sv.rels)
    decreases |steps|
  {
    if steps != [] {
      var e := Attempt(sv, steps[0], Now(weather));
      PoliteAttempt(sv, s, steps[0], Now(weather));
      if e.ok {
        PoliteRunKeeps(e.sv, s, steps[1..], Later(weather));
      }
    }
  }

  lemma {:induction false} PoliteConcat(sv: State, s: Ip, a: seq<Step>, b: seq<Step>, weather: seq<Weather>)
    requires PoliteRun(sv, s, a, weather)
    requires Run(sv, a, weather).ok ==> PoliteRun(Run(sv, a, weather).sv, s, b, LaterBy(weather, |a|))
    ensures PoliteRun(sv, s, a + b, weather)
    decreases |a|
  {
    if a == [] {
      assert a + b == b;
    } else {
      assert (a + b)[0] == a[0] && (a + b)[1..] == a[1..] + b;
      var e := Attempt(sv, a[0], Now(weather));
      if e.ok {
        PoliteConcat(e.sv, s, a[1..], b, Later(weather));
      }
    }
  }

  /** Edits of the scope's own record are polite and leave relationships alone. */
  lemma {:induction false} EditsPolite(sv: State, s: Ip, edits: seq<EditStep>, weather: seq<Weather>)
    ensures PoliteRun(sv, s, Lift(s, edits), weather)
    ensures Run(sv, Lift(s, edits), weather).sv.rels == sv.rels
    ensures Run(sv, Lift(s, edits), weather).sv.partner == sv.partner
    decreases |edits|
  {
    if edits != [] {
      var e := Attempt(sv, Lift(s, edits)[0], Now(weather));
      assert Lift(s, edits)[1..] == Lift(s, edits[1..]);
      EditsPolite(e.sv, s, edits[1..], Later(weather));
    }
  }

  lemma SucceededRunIsFine(sv: State, steps: seq<Step>, weather: seq<Weather>)
    requires Resolute(steps) && Run(sv, steps, weather).ok
    ensures Finish(sv, steps) == Run(sv, steps, weather)
  {
    var k := StopIsPrefix(sv, steps, weather);
    assert steps[..|steps|] == steps;
  }

  /** A relationship is dropped only once it has no members. */
  lemma LeavePolite(sv: State, s: Ip, n: string, weather: seq<Weather>)
    requires OneRelationshipEach(sv.rels) && Member(sv.rels, n, s)
    ensures PoliteRun(sv, s, LeaveSteps(sv.rels, s, n), weather)
    ensures Run(sv, LeaveSteps(sv.rels, s, n), weather).ok ==>
              Run(sv, LeaveSteps(sv.rels, s, n), weather).sv == sv.(rels := LeftRels(sv.rels, s, n))
  {
    var steps := LeaveSteps(sv.rels, s, n);
    var e := Attempt(sv, steps[0], Now(weather));
    if |steps| == 2 {
      assert steps[1..] == [steps[1]];
      if e.ok {
        assert e.sv.rels[n].members == sv.rels[n].members - {s} == {};
        assert Polite(e.sv, s, steps[1]);
        assert [steps[1]][1..] == [];
      }
    } else {
      assert steps[1..] == [];
    }
    if Run(sv, steps, weather).ok {
      SucceededRunIsFine(sv, steps, weather);
      LeaveEnds(sv, s, n);
    }
  }

  lemma OneStepPolite(sv: State, s: Ip, steps: seq<Step>, weather: seq<Weather>)
    requires |steps| == 1 && Polite(sv, s, steps[0])
    ensures PoliteRun(sv, s, steps, weather)
  {
    assert steps[1..] == [];
  }

  lemma FailoverStepsPolite(sv: State, s: Ip, d: Option<Failover>, weather: seq<Weather>)
    requires Sound(sv.rels, s) && (d.Some? ==> ValidFailover(d.value))
    ensures PoliteRun(sv, s, FailoverSteps(sv.rels, s, FailoverOf(sv.rels, s), d), weather)
  {
    var c := FailoverOf(sv.rels, s);
    var steps := FailoverSteps(sv.rels, s, c, d);
    if c.Some? {
      var n := MembershipWitness(sv.rels, s);
      if d.None? {
        LeavePolite(sv, s, n, weather);
      } else if !SameIdentity(c.value, d.value) {
        LeavePolite(sv, s, n, weather);
        var leave := LeaveSteps(sv.rels, s, n);
        var setup := SetupSteps(LeftRels(sv.rels, s, n), s, d.value);
        OneStepPolite(Run(sv, leave, weather).sv, s, setup, LaterBy(weather, |leave|));
        PoliteConcat(sv, s, leave, setup, weather);
      }
    }
    if |steps| == 1 && !steps[0].cmd.LeaveFailover? {
      OneStepPolite(sv, s, steps, weather);
    }
  }

  lemma ConvergePolite(sv: State, s: Ip, c: Payload, d: Payload, ord: Order, weather: seq<Weather>)
    requires Wf(sv) && Valid(d) && OwnParses(sv.rels, s) && c.failover == FailoverOf(sv.rels, s)
    ensures PoliteRun(sv, s, ConvergePlan(sv.rels, s, c, d, ord), weather)
  {
    var edits := Lift(s, RecordPlan(c, d, ord));
    var diff := DiffSteps(sv.rels, s, c, d, ord);
    EditsPolite(sv, s, RecordPlan(c, d, ord), weather);
    var mid := Run(sv, edits, weather).sv;
    FailoverStepsPolite(mid, s, d.failover, LaterBy(weather, |edits|));
    PoliteConcat(sv, s, edits, FailoverSteps(sv.rels, s, c.failover, d.failover), weather);
    if diff != [] && d.failover.Some? {
      var last := [Step(Replicate(s), Strict)];
      OneStepPolite(Run(sv, diff, weather).sv, s, last, LaterBy(weather, |diff|));
      PoliteConcat(sv, s, diff, last, weather);
    } else {
      assert diff + [] == diff;
    }
  }

  lemma CreatePolite(sv: State, d: Payload, weather: seq<Weather>)
    requires Valid(d)
    ensures PoliteRun(sv, d.scope, CreatePlan(sv.rels, d), weather)
  {
    var s := d.scope;
    var add := [Step(AddScope(s, d.mask, d.range, d.scopeName, d.lease, d.description), PresentOk)];
    var edits := Lift(s, CreateEdits(d));
    OneStepPolite(sv, s, add, weather);
    EditsPolite(Run(sv, add, weather).sv, s, CreateEdits(d), LaterBy(weather, |add|));
    PoliteConcat(sv, s, add, edits, weather);
    var tail := if d.failover.Some? then SetupSteps(sv.rels, s, d.failover.value) + [Step(Replicate(s), Strict)]
                else [];
    var sv', w' := Run(sv, add + edits, weather).sv, LaterBy(weather, |add + edits|);
    if d.failover.Some? {
      var setup := SetupSteps(sv.rels, s, d.failover.value);
      OneStepPolite(sv', s, setup, w');
      OneStepPolite(Run(sv', setup, w').sv, s, [Step(Replicate(s), Strict)], LaterBy(w', |setup|));
      PoliteConcat(sv', s, setup, [Step(Replicate(s), Strict)], w');
    }
    PoliteConcat(sv, s, add + edits, tail, weather);
    assert CreatePlan(sv.rels, d) == add + edits + tail;
  }

  /** A scope record is removed only once the scope is in no relationship. */
  lemma DeletePolite(sv: State, s: Ip, c: Payload, weather: seq<Weather>)
    requires Wf(sv) && OwnParses(sv.rels, s) && c.failover == FailoverOf(sv.rels, s)
    ensures PoliteRun(sv, s, DeletePlan(sv.rels, s, c), weather)
  {
    var leave := if c.failover.Some? then LeaveSteps(sv.rels, s, c.failover.value.name) else [];
    var edits := Lift(s, Removals(c.exclusions, Anything));
    var last := [Step(RemoveScope(s), Strict)];
    if c.failover.Some? {
      var n := MembershipWitness(sv.rels, s);
      LeavePolite(sv, s, n, weather);
      LeftSound(sv.rels, s, n);
    }
    var left := Run(sv, leave, weather);
    assert left.ok ==> !InSomeRelationship(left.sv.rels, s);
    EditsPolite(left.sv, s, Removals(c.exclusions, Anything), LaterBy(weather, |leave|));
    PoliteConcat(sv, s, leave, edits, weather);
    RunConcat(sv, leave, edits, weather);
    var cleared := Run(sv, leave + edits, weather);
    if cleared.ok {
      OneStepPolite(cleared.sv, s, last, LaterBy(weather, |leave + edits|));
    }
    PoliteConcat(sv, s, leave + edits, last, weather);
  }

  /** Failover conservation, one request: whatever the weather, each scope stays in at most one
      relationship, members stay existing scopes, relationships are dropped only when empty,
      records are removed only outside every relationship, no other scope is affected, and no
      relationship the API cannot parse comes into being. */
  lemma RequestsArePolite(sv: State, req: Request, ord: Order, weather: seq<Weather>)
    requires Wf(sv) && ValidRequest(req)
    ensures Intent(sv, req, ord).Some? ==> PoliteRun(sv, Target(req), Intent(sv, req, ord).value, weather)
    ensures Wf(Serve(sv, req, ord, weather).sv)
    ensures OthersKept(sv, Serve(sv, req, ord, weather).sv, Target(req))
    ensures ParsingKept(sv.rels, Serve(sv, req, ord, weather).sv.rels)
  {
    var s := Target(req);
    if Intent(sv, req, ord).Some? {
      IntentPolite(sv, req, ord, weather);
      PoliteRunKeeps(sv, s, Intent(sv, req, ord).value, weather);
    }
  }

  lemma IntentPolite(sv: State, req: Request, ord: Order, weather: seq<Weather>)
    requires Wf(sv) && ValidRequest(req) && Intent(sv, req, ord).Some?
    ensures PoliteRun(sv, Target(req), Intent(sv, req, ord).value, weather)
  {
    var s := Target(req);
    if s !in sv.scopes {
      if req.Post? {
        CreatePolite(sv, req.d, weather);
      }
    } else {
      ReadIsPartial(sv, s);
      var c := Read(sv, s).payload;
      if req.Delete? {
        DeletePolite(sv, s, c, weather);
      } else if !req.Get? {
        ConvergePolite(sv, s, c, req.d, ord, weather);
      }
    }
  }

  /* ---- Histories ---- */

  datatype Event = Event(req: Request, ord: Order, weather: seq<Weather>)

  ghost predicate ValidHistory(events: seq<Event>) {
    forall i :: 0 <= i < |events| ==> ValidRequest(events[i].req)
  }

  ghost function Replay(sv: State, events: seq<Event>): State
    decreases |events|
  {
    if events == [] then sv
    else Replay(Serve(sv, events[0].req, events[0].ord, events[0].weather).sv, events[1..])
  }

  /** Conservation over every history of requests and faults. */
  lemma {:induction false} HistoryConserves(sv: State, events: seq<Event>, t: Ip)
    requires Wf(sv) && ValidHistory(events)
    ensures Wf(Replay(sv, events)) && ParsingKept(sv.rels, Replay(sv, events).rels)
    ensures (forall i :: 0 <= i < |events| ==> Target(events[i].req) != t) ==>
              && (t in Replay(sv, events).scopes <==> t in sv.scopes)
              && (t in sv.scopes ==> Replay(sv, events).scopes[t] == sv.scopes[t])
              && forall n :: Member(sv.rels, n, t) <==> Member(Replay(sv, events).rels, n, t)
    decreases |events|
  {
    if events != [] {
      var next := Serve(sv, events[0].req, events[0].ord, events[0].weather).sv;
      RequestsArePolite(sv, events[0].req, events[0].ord, events[0].weather);
      HistoryConserves(next, events[1..], t);
      if Target(events[0].req) != t {
        OtherRecordKept(sv, next, Target(events[0].req), t);
      }
    }
  }

  lemma OtherRecordKept(before: State, after: State, s: Ip, t: Ip)
    requires OthersKept(before, after, s) && t != s
    ensures t in before.scopes <==> t in after.scopes
    ensures t in before.scopes ==> before.scopes[t] == after.scopes[t]
    ensures t in before.partner <==> t in after.partner
    ensures t in before.partner ==> before.partner[t] == after.partner[t]
  {
    assert t in before.scopes <==> t in before.scopes - {s};
    assert t in after.scopes <==> t in after.scopes - {s};
    assert t in before.partner <==> t in before.partner - {s};
    assert t in after.partner <==> t in after.partner - {s};
    if t in before.scopes {
      assert (before.scopes - {s})[t] == (after.scopes - {s})[t];
    }
    if t in before.partner {
      assert (before.partner - {s})[t] == (after.partner - {s})[t];
    }
  }
}
