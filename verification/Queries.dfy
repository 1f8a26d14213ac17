/** Requests as the code runs them: calls, and between them the queries whose answers decide what is
    called next. Run alone, such a program issues exactly the plan made beforehand. */
module Queries {
  import opened Common
  import opened Addresses
  import opened ScopeModel
  import opened Server
  import opened Reading
  import opened Plans
  import opened FailoverConvergence
  import opened Api
  import opened Footprints

  /** What follows once the calls at hand are made: a query of the relationship left (drop it if
      nobody is in it), a query of the one desired (join it or create it), or more calls. */
  datatype Query = DropIfEmpty(name: string) | SetUp(failover: Failover) | Then(steps: seq<Step>)

  /** Calls to make, and what follows. */
  datatype Program = Program(calls: seq<Step>, later: seq<Query>)

  function Answer(rels: Relationships, s: Ip, q: Query): seq<Step> {
    match q
    case DropIfEmpty(n) =>
      if n in rels && rels[n].members == {} then [Step(DropFailover(s, n), Strict)] else []
    case SetUp(f) => SetupSteps(rels, s, f)
    case Then(steps) => steps
  }

  /* ---- The programs ---- */

  /** `_handle_failover_diff` */
  function FailoverProgram(s: Ip, c: Option<Failover>, d: Option<Failover>): Program {
    match (c, d)
    case (None, None) => Program([], [])
    case (None, Some(f)) => Program([], [SetUp(f)])
    case (Some(g), None) => Program([Step(LeaveFailover(s, g.name), Strict)], [DropIfEmpty(g.name)])
    case (Some(g), Some(f)) =>
      if !SameIdentity(g, f) then
        Program([Step(LeaveFailover(s, g.name), Strict)], [DropIfEmpty(g.name), SetUp(f)])
      else if Share(g) != Share(f) || g.leadTime != f.leadTime then
        Program([Step(TuneFailover(s, g.name, f.leadTime, f.mode, Share(f)), Strict)], [])
      else Program([], [])
  }

  /** `_converge_scope`: replication follows if anything changed. */
  function ConvergeProgram(s: Ip, c: Payload, d: Payload, ord: Order): Program {
    var edits, failover := Lift(s, RecordPlan(c, d, ord)), FailoverProgram(s, c.failover, d.failover);
    var changed := edits != [] || failover != Program([], []);
    Program(edits + failover.calls,
            failover.later + (if changed && d.failover.Some? then [Then([Step(Replicate(s), Strict)])] else []))
  }

  function CreateProgram(d: Payload): Program {
    Program([Step(AddScope(d.scope, d.mask, d.range, d.scopeName, d.lease, d.description), PresentOk)]
            + Lift(d.scope, CreateEdits(d)),
            if d.failover.Some? then [SetUp(d.failover.value), Then([Step(Replicate(d.scope), Strict)])] else [])
  }

  function ClearSteps(s: Ip, c: Payload): seq<Step> {
    Lift(s, Removals(c.exclusions, Anything)) + [Step(RemoveScope(s), Strict)]
  }

  function DeleteProgram(s: Ip, c: Payload): Program {
    if c.failover.Some? then
      Program([Step(LeaveFailover(s, c.failover.value.name), Strict)],
              [DropIfEmpty(c.failover.value.name), Then(ClearSteps(s, c))])
    else Program(ClearSteps(s, c), [])
  }

  ghost function ConvergeProgramOf(sv: State, d: Payload, ord: Order): Option<Program> {
    match Read(sv, d.scope)
    case Found(c) => if c.mask != d.mask then None else Some(ConvergeProgram(d.scope, c, d, ord))
    case _ => None
  }

  /** The program a request runs once it has read its scope; None where it is refused. */
  ghost function ProgramOf(sv: State, req: Request, ord: Order): Option<Program> {
    match req
    case Get(s) => if Read(sv, s).Found? then Some(Program([], [])) else None
    case Put(d) => ConvergeProgramOf(sv, d, ord)
    case Post(d) =>
      if d.scope in sv.scopes then ConvergeProgramOf(sv, d, ord) else Some(CreateProgram(d))
    case Delete(s) =>
      if s !in sv.scopes then Some(Program([], []))
      else (match Read(sv, s)
            case Found(c) => Some(DeleteProgram(s, c))
            case _ => None)
  }

  /** What a program issues and answers on a server nobody else changes. */
  function ProgramReport(sv: State, s: Ip, calls: seq<Step>, later: seq<Query>, weather: seq<Weather>): Report
    decreases |later|, |calls|
  {
    if calls != [] then
      var x := Issued(calls[0], Now(weather));
      if Attempt(sv, calls[0], Now(weather)).ok then
        var r := ProgramReport(Outcome(sv, x), s, calls[1..], later, Later(weather));
        Report([x] + r.trace, r.ok)
      else Report([x], false)
    else if later == [] then Report([], true)
    else ProgramReport(sv, s, Answer(sv.rels, s, later[0]), later[1..], weather)
  }

  /* ---- Programs and plans ---- */

  function Extend(r: Report, more: Report): Report {
    if r.ok then Report(r.trace + more.trace, more.ok) else r
  }

  lemma {:induction false} ReportConcat(sv: State, a: seq<Step>, b: seq<Step>, weather: seq<Weather>)
    ensures RunReport(sv, a + b, weather) ==
              var r := RunReport(sv, a, weather);
              Extend(r, RunReport(Effects(sv, r.trace), b, LaterBy(weather, |a|)))
    decreases |a|
  {
    if a == [] {
      assert a + b == b;
      assert Effects(sv, []) == sv;
    } else {
      assert (a + b)[0] == a[0] && (a + b)[1..] == a[1..] + b;
      var x := Issued(a[0], Now(weather));
      if Attempt(sv, a[0], Now(weather)).ok {
        ReportConcat(Outcome(sv, x), a[1..], b, Later(weather));
        var rest := RunReport(Outcome(sv, x), a[1..], Later(weather)).trace;
        assert ([x] + rest)[1..] == rest;
      }
    }
  }

  lemma {:induction false} CallsFirst(sv: State, s: Ip, calls: seq<Step>, later: seq<Query>, weather: seq<Weather>)
    ensures ProgramReport(sv, s, calls, later, weather) ==
              var r := RunReport(sv, calls, weather);
              Extend(r, ProgramReport(Effects(sv, r.trace), s, [], later, LaterBy(weather, |calls|)))
    decreases |calls|
  {
    hide Attempt, Outcome;
    if calls == [] {
      assert Effects(sv, []) == sv;
    } else {
      var x := Issued(calls[0], Now(weather));
      if Attempt(sv, calls[0], Now(weather)).ok {
        CallsFirst(Outcome(sv, x), s, calls[1..], later, Later(weather));
        var rest := RunReport(Outcome(sv, x), calls[1..], Later(weather)).trace;
        assert ([x] + rest)[1..] == rest;
      }
    }
  }

  /** From sv on, what follows issues exactly these steps. */
  ghost predicate Amounts(sv: State, s: Ip, later: seq<Query>, steps: seq<Step>, weather: seq<Weather>) {
    ProgramReport(sv, s, [], later, weather) == RunReport(sv, steps, weather)
  }

  /** Calls and then what amounts to `rest` is the plan of calls and rest. */
  lemma CallsThenRest(sv: State, s: Ip, calls: seq<Step>, later: seq<Query>, rest: seq<Step>, weather: seq<Weather>)
    requires var e := Run(sv, calls, weather);
             e.ok ==> Amounts(e.sv, s, later, rest, LaterBy(weather, |calls|))
    ensures ProgramReport(sv, s, calls, later, weather) == RunReport(sv, calls + rest, weather)
  {
    ReportIsRun(sv, calls, weather);
    CallsFirst(sv, s, calls, later, weather);
    ReportConcat(sv, calls, rest, weather);
  }

  lemma NothingFollows(sv: State, s: Ip, weather: seq<Weather>)
    ensures Amounts(sv, s, [], [], weather)
  {
  }

  lemma ThenSteps(sv: State, s: Ip, steps: seq<Step>, weather: seq<Weather>)
    ensures Amounts(sv, s, [Then(steps)], steps, weather)
  {
    var e := Run(sv, steps, weather);
    NothingFollows(e.sv, s, LaterBy(weather, |steps|));
    CallsThenRest(sv, s, steps, [], [], weather);
    assert steps + [] == steps;
    assert [Then(steps)][1..] == [];
  }

  /** A query, then what amounts to `rest`. */
  lemma QueryThenRest(sv: State, s: Ip, q: Query, later: seq<Query>, rest: seq<Step>, weather: seq<Weather>)
    requires var calls := Answer(sv.rels, s, q);
             var e := Run(sv, calls, weather);
             e.ok ==> Amounts(e.sv, s, later, rest, LaterBy(weather, |calls|))
    ensures Amounts(sv, s, [q] + later, Answer(sv.rels, s, q) + rest, weather)
  {
    CallsThenRest(sv, s, Answer(sv.rels, s, q), later, rest, weather);
    assert ([q] + later)[0] == q && ([q] + later)[1..] == later;
  }

  /** What comes at the very end: replication, the clearing of a delete, or nothing. */
  function Closing(last: seq<Step>): seq<Query> {
    if last == [] then [] else [Then(last)]
  }

  lemma ClosingAmounts(sv: State, s: Ip, last: seq<Step>, weather: seq<Weather>)
    ensures Amounts(sv, s, Closing(last), last, weather)
  {
    if last == [] {
      NothingFollows(sv, s, weather);
    } else {
      ThenSteps(sv, s, last, weather);
    }
  }

  lemma SetUpAmounts(sv: State, s: Ip, f: Failover, last: seq<Step>, weather: seq<Weather>)
    ensures Amounts(sv, s, [SetUp(f)] + Closing(last), SetupSteps(sv.rels, s, f) + last, weather)
  {
    var calls := SetupSteps(sv.rels, s, f);
    ClosingAmounts(Run(sv, calls, weather).sv, s, last, LaterBy(weather, |calls|));
    QueryThenRest(sv, s, SetUp(f), Closing(last), last, weather);
  }

  /** The relationships between leaving n and dropping it. */
  predicate HasLeft(before: Relationships, after: Relationships, s: Ip, n: string) {
    n in before && s in before[n].members
    && after == before[n := before[n].(members := before[n].members - {s})]
  }

  lemma DropAnswer(before: Relationships, after: Relationships, s: Ip, n: string)
    requires HasLeft(before, after, s, n)
    ensures LeaveSteps(before, s, n) == [Step(LeaveFailover(s, n), Strict)] + Answer(after, s, DropIfEmpty(n))
  {
    assert before[n].members - {s} == {} <==> before[n].members <= {s};
  }

  /** The query after leaving sees what the plan foresaw, and so does the one before setting up. */
  lemma DropAmounts(sv: State, s: Ip, n: string, before: Relationships, later: seq<Query>, rest: seq<Step>,
                    weather: seq<Weather>)
    requires HasLeft(before, sv.rels, s, n)
    requires forall w, at: State :: at.rels == LeftRels(before, s, n) ==> Amounts(at, s, later, rest, w)
    ensures Amounts(sv, s, [DropIfEmpty(n)] + later, Answer(sv.rels, s, DropIfEmpty(n)) + rest, weather)
  {
    var calls := Answer(sv.rels, s, DropIfEmpty(n));
    var e := Run(sv, calls, weather);
    if e.ok {
      DropLeavesRels(sv, s, n, before, weather);
      assert Amounts(e.sv, s, later, rest, LaterBy(weather, |calls|));
    }
    QueryThenRest(sv, s, DropIfEmpty(n), later, rest, weather);
  }

  lemma DropLeavesRels(sv: State, s: Ip, n: string, before: Relationships, weather: seq<Weather>)
    requires HasLeft(before, sv.rels, s, n)
    requires Run(sv, Answer(sv.rels, s, DropIfEmpty(n)), weather).ok
    ensures Run(sv, Answer(sv.rels, s, DropIfEmpty(n)), weather).sv.rels == LeftRels(before, s, n)
  {
    DropAnswer(before, sv.rels, s, n);
    var calls := Answer(sv.rels, s, DropIfEmpty(n));
    if calls != [] {
      assert calls[1..] == [];
      assert sv.rels - {n} == before - {n};
    }
  }

  /** Leaving, the query, dropping, and then what amounts to `rest`. */
  lemma LeaveAmounts(sv: State, s: Ip, n: string, first: seq<Step>, later: seq<Query>, rest: seq<Step>,
                     weather: seq<Weather>)
    requires Member(sv.rels, n, s)
    requires var e := Run(sv, first, weather); e.sv.rels == sv.rels
    requires forall w, at: State :: at.rels == LeftRels(sv.rels, s, n) ==> Amounts(at, s, later, rest, w)
    ensures ProgramReport(sv, s, first + [Step(LeaveFailover(s, n), Strict)], [DropIfEmpty(n)] + later, weather) ==
              RunReport(sv, first + (LeaveSteps(sv.rels, s, n) + rest), weather)
  {
    var leave := Step(LeaveFailover(s, n), Strict);
    var calls := first + [leave];
    var e := Run(sv, calls, weather);
    RunConcat(sv, first, [leave], weather);
    var mid := Run(sv, first, weather);
    if e.ok {
      LeaveLeavesRels(mid.sv, s, n, LaterBy(weather, |first|));
      DropAmounts(e.sv, s, n, sv.rels, later, rest, LaterBy(weather, |calls|));
      DropAnswer(sv.rels, e.sv.rels, s, n);
      CallsThenRest(sv, s, calls, [DropIfEmpty(n)] + later, Answer(e.sv.rels, s, DropIfEmpty(n)) + rest, weather);
      assert first + (LeaveSteps(sv.rels, s, n) + rest) == calls + (Answer(e.sv.rels, s, DropIfEmpty(n)) + rest);
    } else {
      StoppedEarly(sv, s, calls, [DropIfEmpty(n)] + later, LeaveSteps(sv.rels, s, n)[1..] + rest, weather);
      assert first + (LeaveSteps(sv.rels, s, n) + rest) == calls + (LeaveSteps(sv.rels, s, n)[1..] + rest);
    }
  }

  lemma StoppedEarly(sv: State, s: Ip, calls: seq<Step>, later: seq<Query>, rest: seq<Step>, weather: seq<Weather>)
    requires !Run(sv, calls, weather).ok
    ensures ProgramReport(sv, s, calls, later, weather) == RunReport(sv, calls + rest, weather)
  {
    CallsThenRest(sv, s, calls, later, rest, weather);
  }

  lemma LeaveLeavesRels(sv: State, s: Ip, n: string, weather: seq<Weather>)
    requires Member(sv.rels, n, s) && Run(sv, [Step(LeaveFailover(s, n), Strict)], weather).ok
    ensures HasLeft(sv.rels, Run(sv, [Step(LeaveFailover(s, n), Strict)], weather).sv.rels, s, n)
  {
    var steps := [Step(LeaveFailover(s, n), Strict)];
    assert steps[1..] == [];
  }

  lemma SetUpAfterLeaving(s: Ip, left: Relationships, f: Failover, last: seq<Step>)
    ensures forall w, at: State :: at.rels == left ==>
              Amounts(at, s, [SetUp(f)] + Closing(last), SetupSteps(left, s, f) + last, w)
  {
    forall w, at: State | at.rels == left
      ensures Amounts(at, s, [SetUp(f)] + Closing(last), SetupSteps(left, s, f) + last, w)
    {
      SetUpAmounts(at, s, f, last, w);
    }
  }

  lemma CloseAfterLeaving(s: Ip, left: Relationships, last: seq<Step>)
    ensures forall w, at: State :: at.rels == left ==> Amounts(at, s, Closing(last), last, w)
  {
    forall w, at: State | at.rels == left
      ensures Amounts(at, s, Closing(last), last, w)
    {
      ClosingAmounts(at, s, last, w);
    }
  }

  /** The failover part of a converge run, after edits and before the closing steps. */
  lemma FailoverProgramIsPlan(sv: State, s: Ip, first: seq<Step>, c: Option<Failover>, d: Option<Failover>,
                              last: seq<Step>, weather: seq<Weather>)
    requires c.Some? ==> Member(sv.rels, c.value.name, s)
    requires Run(sv, first, weather).sv.rels == sv.rels
    ensures var p := FailoverProgram(s, c, d);
            ProgramReport(sv, s, first + p.calls, p.later + Closing(last), weather) ==
              RunReport(sv, (first + FailoverSteps(sv.rels, s, c, d)) + last, weather)
  {
    var p := FailoverProgram(s, c, d);
    var steps := FailoverSteps(sv.rels, s, c, d);
    var e, w := Run(sv, first + p.calls, weather), LaterBy(weather, |first + p.calls|);
    if c.Some? && (d.None? || !SameIdentity(c.value, d.value)) {
      var n := c.value.name;
      var left := LeftRels(sv.rels, s, n);
      if d.None? {
        CloseAfterLeaving(s, left, last);
        LeaveAmounts(sv, s, n, first, Closing(last), last, weather);
        assert (first + steps) + last == first + (LeaveSteps(sv.rels, s, n) + last);
      } else {
        var f := d.value;
        SetUpAfterLeaving(s, left, f, last);
        LeaveAmounts(sv, s, n, first, [SetUp(f)] + Closing(last), SetupSteps(left, s, f) + last, weather);
        assert (first + steps) + last == first + (LeaveSteps(sv.rels, s, n) + (SetupSteps(left, s, f) + last));
        assert p.later + Closing(last) == [DropIfEmpty(n)] + ([SetUp(f)] + Closing(last));
      }
    } else if c.None? && d.Some? {
      assert first + p.calls == first;
      SetUpAmounts(e.sv, s, d.value, last, w);
      CallsThenRest(sv, s, first, [SetUp(d.value)] + Closing(last), steps + last, weather);
      assert (first + steps) + last == first + (steps + last);
    } else {
      ClosingAmounts(e.sv, s, last, w);
      CallsThenRest(sv, s, first + p.calls, Closing(last), last, weather);
      assert p.calls == steps && p.later + Closing(last) == Closing(last);
    }
  }

  lemma ConvergeProgramIsPlan(sv: State, s: Ip, c: Payload, d: Payload, ord: Order, weather: seq<Weather>)
    requires c.failover.Some? ==> Member(sv.rels, c.failover.value.name, s)
    ensures var p := ConvergeProgram(s, c, d, ord);
            ProgramReport(sv, s, p.calls, p.later, weather) ==
              RunReport(sv, ConvergePlan(sv.rels, s, c, d, ord), weather)
  {
    hide RecordPlan, ProgramReport, RunReport;
    var edits := Lift(s, RecordPlan(c, d, ord));
    var diff := DiffSteps(sv.rels, s, c, d, ord);
    var last := if diff != [] && d.failover.Some? then [Step(Replicate(s), Strict)] else [];
    EditsPolite(sv, s, RecordPlan(c, d, ord), weather);
    ChangedIffSteps(sv.rels, s, c.failover, d.failover);
    FailoverProgramIsPlan(sv, s, edits, c.failover, d.failover, last, weather);
  }

  lemma ChangedIffSteps(rels: Relationships, s: Ip, c: Option<Failover>, d: Option<Failover>)
    ensures FailoverProgram(s, c, d) == Program([], []) <==> FailoverSteps(rels, s, c, d) == []
  {
  }

  lemma CreateProgramIsPlan(sv: State, d: Payload, weather: seq<Weather>)
    ensures var p := CreateProgram(d);
            ProgramReport(sv, d.scope, p.calls, p.later, weather) == RunReport(sv, CreatePlan(sv.rels, d), weather)
  {
    hide CreateEdits, ProgramReport, RunReport;
    var s, p := d.scope, CreateProgram(d);
    var add := Step(AddScope(s, d.mask, d.range, d.scopeName, d.lease, d.description), PresentOk);
    var last := if d.failover.Some? then [Step(Replicate(s), Strict)] else [];
    RunConcat(sv, [add], Lift(s, CreateEdits(d)), weather);
    var added := Run(sv, [add], weather);
    AddKeepsRels(sv, add, weather);
    EditsPolite(added.sv, s, CreateEdits(d), LaterBy(weather, 1));
    FailoverProgramIsPlan(sv, s, p.calls, None, d.failover, last, weather);
    assert p.calls + [] == p.calls;
    if d.failover.Some? {
      assert [SetUp(d.failover.value)] + Closing(last) == p.later;
      assert CreatePlan(sv.rels, d) == (p.calls + SetupSteps(sv.rels, s, d.failover.value)) + last;
    } else {
      assert [] + Closing(last) == p.later;
      assert (p.calls + []) + [] == CreatePlan(sv.rels, d);
    }
  }

  lemma AddKeepsRels(sv: State, add: Step, weather: seq<Weather>)
    requires add.cmd.AddScope?
    ensures Run(sv, [add], weather).sv.rels == sv.rels
  {
    assert [add][1..] == [];
  }

  lemma DeleteProgramIsPlan(sv: State, s: Ip, c: Payload, weather: seq<Weather>)
    requires c.failover.Some? ==> Member(sv.rels, c.failover.value.name, s)
    ensures var p := DeleteProgram(s, c);
            ProgramReport(sv, s, p.calls, p.later, weather) == RunReport(sv, DeletePlan(sv.rels, s, c), weather)
  {
    hide ProgramReport, RunReport;
    var last := ClearSteps(s, c);
    if c.failover.Some? {
      var n := c.failover.value.name;
      var leave := Step(LeaveFailover(s, n), Strict);
      CloseAfterLeaving(s, LeftRels(sv.rels, s, n), last);
      LeaveAmounts(sv, s, n, [], Closing(last), last, weather);
      assert [] + [leave] == [leave] && [DropIfEmpty(n)] + Closing(last) == [DropIfEmpty(n), Then(last)];
      assert [] + (LeaveSteps(sv.rels, s, n) + last) == DeletePlan(sv.rels, s, c);
    } else {
      NothingFollows(Run(sv, last, weather).sv, s, LaterBy(weather, |last|));
      CallsThenRest(sv, s, last, [], [], weather);
      assert last + [] == last == DeletePlan(sv.rels, s, c);
    }
  }

  /** Run alone, in any weather, a request's program issues and answers exactly what its plan does,
      queries between the writes included. */
  lemma ProgramIsIntent(sv: State, req: Request, ord: Order, weather: seq<Weather>)
    requires OneRelationshipEach(sv.rels)
    ensures ProgramOf(sv, req, ord).Some? <==> Intent(sv, req, ord).Some?
    ensures ProgramOf(sv, req, ord).Some? ==>
              var p := ProgramOf(sv, req, ord).value;
              ProgramReport(sv, Target(req), p.calls, p.later, weather) ==
                RunReport(sv, Intent(sv, req, ord).value, weather)
  {
    hide ConvergeProgram, ConvergePlan, CreateProgram, CreatePlan, DeleteProgram, DeletePlan;
    hide ProgramReport, RunReport, Readable, Observed;
    NothingFollows(sv, Target(req), weather);
    var s := Target(req);
    if s in sv.scopes {
      ReadIsPartial(sv, s);
      if Read(sv, s).Found? {
        var c := Read(sv, s).payload;
        if c.failover.Some? {
          var n := MembershipWitness(sv.rels, s);
        }
        if req.Delete? {
          DeleteProgramIsPlan(sv, s, c, weather);
        } else if !req.Get? {
          ConvergeProgramIsPlan(sv, s, c, req.d, ord, weather);
        }
      }
    } else if req.Post? {
      CreateProgramIsPlan(sv, req.d, weather);
    }
  }

  /* ---- Footprints of programs ---- */

  ghost predicate LocalQuery(own: Owners, s: Ip, q: Query) {
    match q
    case DropIfEmpty(n) => Owns(own, s, n)
    case SetUp(f) => Owns(own, s, f.name)
    case Then(steps) => LocalSteps(own, s, steps)
  }

  ghost predicate LocalProgram(own: Owners, s: Ip, calls: seq<Step>, later: seq<Query>) {
    LocalSteps(own, s, calls) && forall i :: 0 <= i < |later| ==> LocalQuery(own, s, later[i])
  }

  /** A query sees the same on states that look the same from its scope. */
  lemma AnswerIsDetermined(own: Owners, s: Ip, a: State, b: State, q: Query)
    requires Agree(own, s, a, b) && LocalQuery(own, s, q)
    ensures Answer(a.rels, s, q) == Answer(b.rels, s, q) && LocalSteps(own, s, Answer(a.rels, s, q))
  {
  }

  lemma ConvergeProgramIsLocal(own: Owners, s: Ip, c: Payload, d: Payload, ord: Order)
    requires c.failover.Some? ==> Owns(own, s, c.failover.value.name)
    requires d.failover.Some? ==> Owns(own, s, d.failover.value.name)
    ensures var p := ConvergeProgram(s, c, d, ord);
            LocalProgram(own, s, p.calls, p.later)
  {
    LiftIsLocal(own, s, RecordPlan(c, d, ord));
    ConcatIsLocal(own, s, Lift(s, RecordPlan(c, d, ord)), FailoverProgram(s, c.failover, d.failover).calls);
  }

  lemma CreateProgramIsLocal(own: Owners, d: Payload)
    requires d.failover.Some? ==> Owns(own, d.scope, d.failover.value.name)
    ensures LocalProgram(own, d.scope, CreateProgram(d).calls, CreateProgram(d).later)
  {
    LiftIsLocal(own, d.scope, CreateEdits(d));
  }

  lemma DeleteProgramIsLocal(own: Owners, s: Ip, c: Payload)
    requires c.failover.Some? ==> Owns(own, s, c.failover.value.name)
    ensures LocalProgram(own, s, DeleteProgram(s, c).calls, DeleteProgram(s, c).later)
  {
    LiftIsLocal(own, s, Removals(c.exclusions, Anything));
  }

  lemma ProgramIsLocal(own: Owners, busy: set<Ip>, sv: State, req: Request, ord: Order)
    requires Separate(own, busy, sv) && Target(req) in busy && LocalRequest(own, req)
    requires ProgramOf(sv, req, ord).Some?
    ensures var p := ProgramOf(sv, req, ord).value;
            LocalProgram(own, Target(req), p.calls, p.later)
  {
    hide ConvergeProgram, CreateProgram, DeleteProgram;
    var s := Target(req);
    if Read(sv, s).Found? {
      var c := Read(sv, s).payload;
      if c.failover.Some? {
        FailoverNameIsOwned(own, busy, sv, s);
      }
      if req.Delete? {
        DeleteProgramIsLocal(own, s, c);
      } else if !req.Get? {
        ConvergeProgramIsLocal(own, s, c, req.d, ord);
      }
    }
    if req.Post? {
      CreateProgramIsLocal(own, req.d);
    }
  }
}
