/** The API's verbs as programs on the server object, proved to do what `Serve` says: the same
    cmdlets in the same order, whatever the weather. */
module Reconciler {
  import opened Common
  import opened Addresses
  import opened Exclusions
  import opened ScopeModel
  import opened RangeTransition
  import opened Server
  import opened Reading
  import opened Plans
  import opened Convergence
  import opened FailoverConvergence
  import opened Api
  import opened Repair
  import opened Leftovers
  import opened PartnerSync
  import opened WindowsServer

  datatype ApiError = ScopeNotFound | Conflict | ImmutableField | CommandFailed

  /* ---- Composing runs ---- */

  /** Running `steps` from `before` leaves `after`, and on success the later weather. */
  ghost predicate Ran(before: State, weather: seq<Weather>, steps: seq<Step>,
                      after: State, later: seq<Weather>, ok: bool) {
    Run(before, steps, weather) == Ending(after, ok) && (ok ==> later == LaterBy(weather, |steps|))
  }

  lemma {:induction false} LaterBySum(weather: seq<Weather>, m: nat, n: nat)
    ensures LaterBy(LaterBy(weather, m), n) == LaterBy(weather, m + n)
    decreases m
  {
    if m > 0 {
      LaterBySum(Later(weather), m - 1, n);
    }
  }

  lemma RanThen(s0: State, w0: seq<Weather>, a: seq<Step>, s1: State, w1: seq<Weather>,
                b: seq<Step>, s2: State, w2: seq<Weather>, ok: bool)
    requires Ran(s0, w0, a, s1, w1, true) && Ran(s1, w1, b, s2, w2, ok)
    ensures Ran(s0, w0, a + b, s2, w2, ok)
  {
    RunConcat(s0, a, b, w0);
    LaterBySum(w0, |a|, |b|);
  }

  lemma RanShort(s0: State, w0: seq<Weather>, a: seq<Step>, s1: State, w1: seq<Weather>, rest: seq<Step>)
    requires Ran(s0, w0, a, s1, w1, false)
    ensures Ran(s0, w0, a + rest, s1, w1, false)
  {
    RunConcat(s0, a, rest, w0);
  }

  lemma LiftConcat(s: Ip, a: seq<EditStep>, b: seq<EditStep>)
    ensures Lift(s, a + b) == Lift(s, a) + Lift(s, b)
  {
  }

  /** One call. */
  method Call(server: DhcpServer, step: Step) returns (ok: bool)
    modifies server
    ensures Ran(old(server.Contents()), old(server.weather), [step], server.Contents(), server.weather, ok)
  {
    RunOne(server.Contents(), step, server.weather);
    assert LaterBy(server.weather, 1) == LaterBy(Later(server.weather), 0);
    ok := server.RunPs(step);
  }

  /** `for cmd in commands: await run_ps(cmd)`. */
  method CallEach(server: DhcpServer, s: Ip, steps: seq<EditStep>) returns (ok: bool)
    modifies server
    ensures Ran(old(server.Contents()), old(server.weather), Lift(s, steps), server.Contents(), server.weather, ok)
  {
    ghost var s0, w0 := server.Contents(), server.weather;
    for i := 0 to |steps|
      invariant Ran(s0, w0, Lift(s, steps[..i]), server.Contents(), server.weather, true)
    {
      ghost var s1, w1 := server.Contents(), server.weather;
      ok := Call(server, Step(EditScope(s, steps[i].edit), steps[i].tolerance));
      assert Lift(s, steps[..i + 1]) == Lift(s, steps[..i]) + [Lift(s, steps)[i]];
      RanThen(s0, w0, Lift(s, steps[..i]), s1, w1, [Lift(s, steps)[i]], server.Contents(), server.weather, ok);
      if !ok {
        RanShort(s0, w0, Lift(s, steps[..i + 1]), server.Contents(), server.weather, Lift(s, steps)[i + 1..]);
        assert Lift(s, steps) == Lift(s, steps[..i + 1]) + Lift(s, steps)[i + 1..];
        return;
      }
    }
    assert steps[..|steps|] == steps;
    ok := true;
  }

  /* ---- The record part of converging ---- */

  method WriteRange(server: DhcpServer, s: Ip, c: Payload, d: Payload) returns (ok: bool, changed: bool)
    modifies server
    ensures Ran(old(server.Contents()), old(server.weather), Lift(s, RangePhase(c, d)),
                server.Contents(), server.weather, ok)
    ensures changed == (RangePhase(c, d) != [])
  {
    var ranges := RangeSteps(c.range, d.range);
    changed := |ranges| > 0;
    var steps: seq<EditStep> := [];
    for i := 0 to |ranges|
      invariant steps == RangePhase(c, d)[..i]
    {
      steps := steps + [EditStep(SetRange(ranges[i]), Strict)];
    }
    assert steps == RangePhase(c, d);
    ok := CallEach(server, s, steps);
  }

  method WriteParams(server: DhcpServer, s: Ip, c: Payload, d: Payload) returns (ok: bool, changed: bool)
    modifies server
    ensures Ran(old(server.Contents()), old(server.weather), Lift(s, ParamPhase(c, d)),
                server.Contents(), server.weather, ok)
    ensures changed == (ParamPhase(c, d) != [])
  {
    changed := c.scopeName != d.scopeName || c.lease != d.lease || c.description != d.description;
    ok := true;
    if changed {
      ok := CallEach(server, s, [EditStep(SetParams(d.scopeName, d.lease, d.description), Strict)]);
    }
  }

  method WriteOptions(server: DhcpServer, s: Ip, c: Payload, d: Payload) returns (ok: bool, changed: bool)
    modifies server
    ensures Ran(old(server.Contents()), old(server.weather), Lift(s, OptionPhase(c, d)),
                server.Contents(), server.weather, ok)
    ensures changed == (OptionPhase(c, d) != [])
  {
    changed := c.dns != d.dns || c.domain != d.domain || c.gateway != d.gateway;
    ok := true;
    if changed {
      var steps := [EditStep(SetOptions(d.dns, d.domain, d.gateway), Strict)];
      if c.gateway != d.gateway && d.gateway.None? {
        steps := steps + [EditStep(RemoveOption(Router), AbsentOk)];
      }
      assert steps == OptionPhase(c, d);
      ok := CallEach(server, s, steps);
    }
  }

  method WriteBootOptions(server: DhcpServer, s: Ip, c: Payload, d: Payload) returns (ok: bool, changed: bool)
    modifies server
    ensures Ran(old(server.Contents()), old(server.weather), Lift(s, BootPhase(c, d)),
                server.Contents(), server.weather, ok)
    ensures changed == (BootPhase(c, d) != [])
  {
    changed := c.nextServer != d.nextServer || c.bootFile != d.bootFile;
    ok := true;
    if changed {
      if d.nextServer != "" {
        ok := CallEach(server, s, SetBootSteps(d));
      } else {
        ok := CallEach(server, s, [EditStep(RemoveOption(BootServer), AbsentOk),
                                   EditStep(RemoveOption(BootFile), AbsentOk)]);
      }
    }
  }

  /** Iterating over a Python set: some order, each element once. */
  method InSomeOrder(holes: set<Range>) returns (listed: seq<Range>)
    ensures Enumerates(listed, holes)
  {
    var todo := holes;
    listed := [];
    while todo != {}
      invariant todo <= holes && ToSet(listed) == holes - todo
      invariant forall i, j :: 0 <= i < j < |listed| ==> listed[i] != listed[j]
      decreases |todo|
    {
      var e :| e in todo;
      assert e !in ToSet(listed);
      assert ToSet(listed + [e]) == ToSet(listed) + {e};
      listed := listed + [e];
      todo := todo - {e};
    }
  }

  method ReconcileExclusions(server: DhcpServer, s: Ip, c: Payload, d: Payload)
    returns (ok: bool, changed: bool, ord: Order)
    modifies server
    ensures OrderFor(ord, c, d)
    ensures Ran(old(server.Contents()), old(server.weather),
                Lift(s, Removals(ord.removals, Strict) + Additions(ord.additions, Strict)),
                server.Contents(), server.weather, ok)
    ensures changed == (Removals(ord.removals, Strict) + Additions(ord.additions, Strict) != [])
  {
    var current, desired := ToSet(c.exclusions), ToSet(d.exclusions);
    var removals := InSomeOrder(current - desired);
    var additions := InSomeOrder(desired - current);
    ord := Order(removals, additions);
    changed := |removals| > 0 || |additions| > 0;
    ghost var s0, w0 := server.Contents(), server.weather;
    ghost var minus, plus := Removals(removals, Strict), Additions(additions, Strict);
    LiftConcat(s, minus, plus);
    ok := CallEach(server, s, Removals(removals, Strict));
    if !ok {
      RanShort(s0, w0, Lift(s, minus), server.Contents(), server.weather, Lift(s, plus));
      return;
    }
    ghost var s1, w1 := server.Contents(), server.weather;
    ok := CallEach(server, s, Additions(additions, Strict));
    RanThen(s0, w0, Lift(s, minus), s1, w1, Lift(s, plus), server.Contents(), server.weather, ok);
  }

  method WriteEarlyPhases(server: DhcpServer, s: Ip, c: Payload, d: Payload) returns (ok: bool, changed: bool)
    modifies server
    ensures Ran(old(server.Contents()), old(server.weather), Lift(s, EarlyPhases(c, d)),
                server.Contents(), server.weather, ok)
    ensures ok ==> changed == (EarlyPhases(c, d) != [])
  {
    ghost var s0, w0 := server.Contents(), server.weather;
    ghost var a, b, o, p := RangePhase(c, d), ParamPhase(c, d), OptionPhase(c, d), BootPhase(c, d);
    LiftConcat(s, a, b);
    LiftConcat(s, a + b, o);
    LiftConcat(s, a + b + o, p);
    var rangeChanged, paramsChanged, optionsChanged, bootChanged: bool;
    ok, rangeChanged := WriteRange(server, s, c, d);
    changed := rangeChanged;
    if !ok {
      RanShort(s0, w0, Lift(s, a), server.Contents(), server.weather, Lift(s, b) + Lift(s, o) + Lift(s, p));
      assert Lift(s, a) + (Lift(s, b) + Lift(s, o) + Lift(s, p)) == Lift(s, EarlyPhases(c, d));
      return;
    }
    ghost var s1, w1 := server.Contents(), server.weather;
    ok, paramsChanged := WriteParams(server, s, c, d);
    RanThen(s0, w0, Lift(s, a), s1, w1, Lift(s, b), server.Contents(), server.weather, ok);
    if !ok {
      RanShort(s0, w0, Lift(s, a + b), server.Contents(), server.weather, Lift(s, o) + Lift(s, p));
      assert Lift(s, a + b) + (Lift(s, o) + Lift(s, p)) == Lift(s, EarlyPhases(c, d));
      return;
    }
    ghost var s2, w2 := server.Contents(), server.weather;
    ok, optionsChanged := WriteOptions(server, s, c, d);
    RanThen(s0, w0, Lift(s, a + b), s2, w2, Lift(s, o), server.Contents(), server.weather, ok);
    if !ok {
      RanShort(s0, w0, Lift(s, a + b + o), server.Contents(), server.weather, Lift(s, p));
      return;
    }
    ghost var s3, w3 := server.Contents(), server.weather;
    ok, bootChanged := WriteBootOptions(server, s, c, d);
    RanThen(s0, w0, Lift(s, a + b + o), s3, w3, Lift(s, p), server.Contents(), server.weather, ok);
    changed := changed || paramsChanged || optionsChanged || bootChanged;
  }

  method ConvergeRecord(server: DhcpServer, s: Ip, c: Payload, d: Payload)
    returns (ok: bool, changed: bool, ghost ord: Order)
    modifies server
    ensures OrderFor(ord, c, d)
    ensures Ran(old(server.Contents()), old(server.weather), Lift(s, RecordPlan(c, d, ord)),
                server.Contents(), server.weather, ok)
    ensures ok ==> changed == (RecordPlan(c, d, ord) != [])
  {
    ghost var s0, w0 := server.Contents(), server.weather;
    ghost var early := EarlyPhases(c, d);
    ok, changed := WriteEarlyPhases(server, s, c, d);
    if !ok {
      var removals := InSomeOrder(ToSet(c.exclusions) - ToSet(d.exclusions));
      var additions := InSomeOrder(ToSet(d.exclusions) - ToSet(c.exclusions));
      ord := Order(removals, additions);
      ghost var late := Removals(removals, Strict) + Additions(additions, Strict);
      RecordPlanSplit(c, d, ord);
      LiftConcat(s, early, late);
      RanShort(s0, w0, Lift(s, early), server.Contents(), server.weather, Lift(s, late));
      return;
    }
    ghost var s1, w1 := server.Contents(), server.weather;
    var exclusionsChanged, order;
    ok, exclusionsChanged, order := ReconcileExclusions(server, s, c, d);
    ord := order;
    ghost var late := Removals(ord.removals, Strict) + Additions(ord.additions, Strict);
    RecordPlanSplit(c, d, ord);
    LiftConcat(s, early, late);
    RanThen(s0, w0, Lift(s, early), s1, w1, Lift(s, late), server.Contents(), server.weather, ok);
    changed := changed || exclusionsChanged;
  }

  /* ---- Failover ---- */

  method RemoveScopeFromFailover(server: DhcpServer, s: Ip, n: string) returns (ok: bool)
    modifies server
    ensures Ran(old(server.Contents()), old(server.weather), LeaveSteps(old(server.rels), s, n),
                server.Contents(), server.weather, ok)
    ensures ok ==> server.rels == LeftRels(old(server.rels), s, n)
  {
    ghost var s0, w0 := server.Contents(), server.weather;
    ghost var steps := LeaveSteps(s0.rels, s, n);
    var leave := Step(LeaveFailover(s, n), Strict);
    ok := Call(server, leave);
    assert steps == [leave] + steps[1..];
    RunOne(s0, leave, w0);
    if !ok {
      RanShort(s0, w0, [leave], server.Contents(), server.weather, steps[1..]);
      return;
    }
    ghost var s1, w1 := server.Contents(), server.weather;
    var rel := server.FailoverByName(n);
    if rel.Some? && rel.value.members == {} {
      assert s1.rels[n].members == s0.rels[n].members - {s};
      ok := Call(server, Step(DropFailover(s, n), Strict));
      RunOne(s1, Step(DropFailover(s, n), Strict), w1);
      RanThen(s0, w0, [leave], s1, w1, steps[1..], server.Contents(), server.weather, ok);
      assert s1.rels - {n} == s0.rels - {n};
    } else {
      assert steps == [leave];
    }
  }

  method SetupFailover(server: DhcpServer, s: Ip, f: Failover) returns (ok: bool)
    modifies server
    ensures Ran(old(server.Contents()), old(server.weather), SetupSteps(old(server.rels), s, f),
                server.Contents(), server.weather, ok)
  {
    var existing := server.FailoverByName(f.name);
    if existing.Some? {
      ok := Call(server, Step(JoinFailover(s, f.name), PresentOk));
    } else {
      ok := Call(server, Step(CreateFailover(s, f), Strict));
    }
  }

  method RecreateFailover(server: DhcpServer, s: Ip, g: Failover, f: Failover) returns (ok: bool)
    modifies server
    ensures Ran(old(server.Contents()), old(server.weather),
                LeaveSteps(old(server.rels), s, g.name) + SetupSteps(LeftRels(old(server.rels), s, g.name), s, f),
                server.Contents(), server.weather, ok)
  {
    ghost var s0, w0 := server.Contents(), server.weather;
    ghost var leave, setup := LeaveSteps(s0.rels, s, g.name), SetupSteps(LeftRels(s0.rels, s, g.name), s, f);
    ok := RemoveScopeFromFailover(server, s, g.name);
    if !ok {
      RanShort(s0, w0, leave, server.Contents(), server.weather, setup);
      return;
    }
    ghost var s1, w1 := server.Contents(), server.weather;
    ok := SetupFailover(server, s, f);
    RanThen(s0, w0, leave, s1, w1, setup, server.Contents(), server.weather, ok);
  }

  method HandleFailoverDiff(server: DhcpServer, s: Ip, c: Option<Failover>, d: Option<Failover>)
    returns (ok: bool, changed: bool)
    modifies server
    ensures Ran(old(server.Contents()), old(server.weather), FailoverSteps(old(server.rels), s, c, d),
                server.Contents(), server.weather, ok)
    ensures changed == (FailoverSteps(old(server.rels), s, c, d) != [])
  {
    if c.None? && d.None? {
      return true, false;
    }
    if c.None? {
      ok := SetupFailover(server, s, d.value);
      return ok, true;
    }
    if d.None? {
      ok := RemoveScopeFromFailover(server, s, c.value.name);
      return ok, true;
    }
    var g, f := c.value, d.value;
    if g.mode != f.mode {
      ok := RecreateFailover(server, s, g, f);
      return ok, true;
    }
    var identityChanged := g.name != f.name || g.partner != f.partner || (g.mode.HotStandby? && g.role != f.role);
    if identityChanged {
      ok := RecreateFailover(server, s, g, f);
      return ok, true;
    }
    var mutableChanged :=
      if g.mode.HotStandby? then g.reserve != f.reserve || g.leadTime != f.leadTime
      else g.loadBalance != f.loadBalance || g.leadTime != f.leadTime;
    if mutableChanged {
      var percent := if f.mode.HotStandby? then f.reserve else f.loadBalance;
      ok := Call(server, Step(TuneFailover(s, g.name, f.leadTime, f.mode, percent), Strict));
      return ok, true;
    }
    return true, false;
  }

  /* ---- The verbs ---- */

  method GetScope(server: DhcpServer, s: Ip) returns (r: Result<Payload, ApiError>)
    requires OneRelationshipEach(server.rels)
    ensures r == match Read(server.Contents(), s) {
                   case Missing => Err(ScopeNotFound)
                   case Unreadable => Err(Conflict)
                   case Found(p) => Ok(p)
                 }
  {
    var state := server.ScopeState(s);
    match state {
      case Missing => r := Err(ScopeNotFound);
      case Unreadable => r := Err(Conflict);
      case Found(p) => r := Ok(p);
    }
  }

  /** The writes of a converge run: record, failover, and replication if anything changed. */
  method ApplyDiff(server: DhcpServer, c: Payload, d: Payload) returns (ok: bool, ghost ord: Order)
    modifies server
    ensures OrderFor(ord, c, d)
    ensures Run(old(server.Contents()), ConvergePlan(old(server.rels), d.scope, c, d, ord), old(server.weather)) ==
              Ending(server.Contents(), ok)
  {
    var s := d.scope;
    ghost var s0, w0 := server.Contents(), server.weather;
    var changed;
    ok, changed, ord := ConvergeRecord(server, s, c, d);
    ghost var edits := Lift(s, RecordPlan(c, d, ord));
    ghost var failover := FailoverSteps(s0.rels, s, c.failover, d.failover);
    ghost var diff := edits + failover;
    ghost var last := if diff != [] && d.failover.Some? then [Step(Replicate(s), Strict)] else [];
    assert ConvergePlan(s0.rels, s, c, d, ord) == diff + last;
    EditsPolite(s0, s, RecordPlan(c, d, ord), w0);
    if !ok {
      RanShort(s0, w0, edits, server.Contents(), server.weather, failover);
      RanShort(s0, w0, diff, server.Contents(), server.weather, last);
      return;
    }
    ghost var s1, w1 := server.Contents(), server.weather;
    var failoverChanged;
    ok, failoverChanged := HandleFailoverDiff(server, s, c.failover, d.failover);
    RanThen(s0, w0, edits, s1, w1, failover, server.Contents(), server.weather, ok);
    if !ok {
      RanShort(s0, w0, diff, server.Contents(), server.weather, last);
      return;
    }
    changed := changed || failoverChanged;
    assert changed == (diff != []);
    if changed && d.failover.Some? {
      ghost var s2, w2 := server.Contents(), server.weather;
      ok := Call(server, Step(Replicate(s), Strict));
      RanThen(s0, w0, diff, s2, w2, last, server.Contents(), server.weather, ok);
    } else {
      assert diff + last == diff;
    }
  }

  /** PUT: the server ends as Serve says, success is reported exactly when the run went through and
      the final read succeeds, and what is returned is what the scope then shows. */
  method UpdateScope(server: DhcpServer, d: Payload) returns (r: Result<Payload, ApiError>, ghost ord: Order)
    requires Wf(server.Contents()) && Valid(d)
    modifies server
    ensures Serve(old(server.Contents()), Put(d), ord, old(server.weather)) == Ending(server.Contents(), r.Ok?)
    ensures r.Ok? ==> Read(server.Contents(), d.scope) == Found(r.value)
    ensures r == Err(ScopeNotFound) <==> d.scope !in old(server.scopes)
    ensures r == Err(Conflict) <==>
              || Read(old(server.Contents()), d.scope).Unreadable?
              || (WentThrough(old(server.Contents()), Put(d), ord, old(server.weather))
                  && Read(server.Contents(), d.scope).Unreadable?)
    ensures r == Err(ImmutableField) <==>
              Read(old(server.Contents()), d.scope).Found? && old(server.scopes[d.scope]).mask != d.mask
  {
    ghost var s0, w0 := server.Contents(), server.weather;
    ord := Order([], []);
    if d.scope in server.scopes {
      ReadIsPartial(s0, d.scope);
    }
    var read := GetScope(server, d.scope);
    if read.Err? {
      return Err(read.error), ord;
    }
    var c := read.value;
    if c.mask != d.mask {
      return Err(ImmutableField), ord;
    }
    var ok;
    ok, ord := ApplyDiff(server, c, d);
    if !ok {
      return Err(CommandFailed), ord;
    }
    assert Converges(s0, d, ord);
    var k := PutLeavesAStop(s0, d, ord, w0);
    RequestsArePolite(s0, Put(d), ord, w0);
    r := GetScope(server, d.scope);
  }

  /** The calls `create_scope` makes on an absent scope. */
  method ApplyCreate(server: DhcpServer, d: Payload) returns (ok: bool)
    modifies server
    ensures Run(old(server.Contents()), CreatePlan(old(server.rels), d), old(server.weather)) ==
              Ending(server.Contents(), ok)
  {
    var s := d.scope;
    ghost var s0, w0 := server.Contents(), server.weather;
    CreatePlanShape(s0.rels, d);
    ghost var edits, tail := Lift(s, CreateEdits(d)), CreateTail(s0.rels, d);
    ok := Call(server, AddStep(d));
    RunOne(s0, AddStep(d), w0);
    if !ok {
      RanShort(s0, w0, [AddStep(d)], server.Contents(), server.weather, edits + tail);
      return;
    }
    ghost var s1, w1 := server.Contents(), server.weather;
    EditsPolite(s1, s, CreateEdits(d), w1);
    ok := CallEach(server, s, CreateEdits(d));
    RanThen(s0, w0, [AddStep(d)], s1, w1, edits, server.Contents(), server.weather, ok);
    ghost var done := [AddStep(d)] + edits;
    assert [AddStep(d)] + (edits + tail) == done + tail;
    if !ok {
      RanShort(s0, w0, done, server.Contents(), server.weather, tail);
      return;
    }
    if d.failover.Some? {
      ghost var setup := SetupSteps(s0.rels, s, d.failover.value);
      ghost var s2, w2 := server.Contents(), server.weather;
      ok := SetupFailover(server, s, d.failover.value);
      RanThen(s0, w0, done, s2, w2, setup, server.Contents(), server.weather, ok);
      assert done + tail == done + setup + [Step(Replicate(s), Strict)];
      if !ok {
        RanShort(s0, w0, done + setup, server.Contents(), server.weather, [Step(Replicate(s), Strict)]);
        return;
      }
      ghost var s3, w3 := server.Contents(), server.weather;
      ok := Call(server, Step(Replicate(s), Strict));
      RanThen(s0, w0, done + setup, s3, w3, [Step(Replicate(s), Strict)], server.Contents(), server.weather, ok);
    } else {
      assert done + tail == done;
    }
  }

  /** POST: create an absent scope, converge an existing one. */
  method CreateScope(server: DhcpServer, d: Payload) returns (r: Result<Payload, ApiError>, ghost ord: Order)
    requires Wf(server.Contents()) && Valid(d)
    modifies server
    ensures Serve(old(server.Contents()), Post(d), ord, old(server.weather)) == Ending(server.Contents(), r.Ok?)
    ensures r.Ok? ==> Read(server.Contents(), d.scope) == Found(r.value)
    ensures r != Err(ScopeNotFound)
    ensures r == Err(Conflict) <==>
              || Read(old(server.Contents()), d.scope).Unreadable?
              || (WentThrough(old(server.Contents()), Post(d), ord, old(server.weather))
                  && Read(server.Contents(), d.scope).Unreadable?)
    ensures r == Err(ImmutableField) <==>
              Read(old(server.Contents()), d.scope).Found? && old(server.scopes[d.scope]).mask != d.mask
  {
    ghost var s0, w0 := server.Contents(), server.weather;
    var present := server.ScopeExists(d.scope);
    if present {
      r, ord := UpdateScope(server, d);
      return;
    }
    ord := Order([], []);
    var ok := ApplyCreate(server, d);
    if !ok {
      return Err(CommandFailed), ord;
    }
    RequestsArePolite(s0, Post(d), ord, w0);
    var _ := PostLeavesAStop(s0, d, ord, w0);
    r := GetScope(server, d.scope);
  }

  /** DELETE: true exactly when the scope is gone (or was never there). */
  method DeleteScope(server: DhcpServer, s: Ip) returns (r: Result<bool, ApiError>)
    requires Wf(server.Contents())
    modifies server
    ensures Serve(old(server.Contents()), Delete(s), Order([], []), old(server.weather)) ==
              Ending(server.Contents(), r.Ok?)
    ensures r.Ok? ==> s !in server.scopes
    ensures r.Err? ==> r.error == if Read(old(server.Contents()), s).Unreadable? then Conflict else CommandFailed
  {
    ghost var s0, w0 := server.Contents(), server.weather;
    var present := server.ScopeExists(s);
    if !present {
      return Ok(true);
    }
    ReadIsPartial(s0, s);
    var read := GetScope(server, s);
    if read.Err? {
      return Err(read.error);
    }
    var c := read.value;
    DeleteLeaves(s0, s, Order([], []), w0);
    DeletePlanShape(s0.rels, s, c);
    ghost var leave, clear := LeavingSteps(s0.rels, s, c), Lift(s, Removals(c.exclusions, Anything));
    ghost var last := [Step(RemoveScope(s), Strict)];
    var ok := true;
    if c.failover.Some? {
      ok := RemoveScopeFromFailover(server, s, c.failover.value.name);
      if !ok {
        RanShort(s0, w0, leave, server.Contents(), server.weather, clear + last);
        assert leave + (clear + last) == (leave + clear) + last;
        return Err(CommandFailed);
      }
    }
    ghost var s1, w1 := server.Contents(), server.weather;
    assert Ran(s0, w0, leave, s1, w1, true);
    ok := CallEach(server, s, Removals(c.exclusions, Anything));
    RanThen(s0, w0, leave, s1, w1, clear, server.Contents(), server.weather, ok);
    if !ok {
      RanShort(s0, w0, leave + clear, server.Contents(), server.weather, last);
      return Err(CommandFailed);
    }
    ghost var s2, w2 := server.Contents(), server.weather;
    ok := Call(server, Step(RemoveScope(s), Strict));
    RanThen(s0, w0, leave + clear, s2, w2, last, server.Contents(), server.weather, ok);
    return if ok then Ok(true) else Err(CommandFailed);
  }
}
