/** What a faulty create or delete can leave behind on the server, and whether it can be repaired. */
module Leftovers {
  import opened Common
  import opened Addresses
  import opened Exclusions
  import opened ScopeModel
  import opened Server
  import opened Reading
  import opened Plans
  import opened Convergence
  import opened CrashSafety
  import opened PartialScopes
  import opened FailoverConvergence
  import opened Api
  import opened Repair

  /* ---- Create ---- */

  lemma CreateEditsAreResolute(d: Payload)
    ensures Resolute(Lift(d.scope, CreateEdits(d)))
  {
    var options, adds := OptionSteps(d), Additions(d.exclusions, PresentOk);
    assert forall x :: x in options ==> !x.tolerance.Anything?;
    assert forall x :: x in adds ==> !x.tolerance.Anything?;
    forall i | 0 <= i < |CreateEdits(d)|
      ensures !CreateEdits(d)[i].tolerance.Anything?
    {
      assert CreateEdits(d)[i] in options || CreateEdits(d)[i] in adds;
    }
  }

  function AddStep(d: Payload): Step {
    Step(AddScope(d.scope, d.mask, d.range, d.scopeName, d.lease, d.description), PresentOk)
  }

  function CreateTail(rels: Relationships, d: Payload): seq<Step> {
    if d.failover.Some? then SetupSteps(rels, d.scope, d.failover.value) + [Step(Replicate(d.scope), Strict)] else []
  }

  lemma CreatePlanShape(rels: Relationships, d: Payload)
    ensures CreatePlan(rels, d) == [AddStep(d)] + (Lift(d.scope, CreateEdits(d)) + CreateTail(rels, d))
    ensures RecordsUntouched(CreateTail(rels, d))
  {
  }

  /** In any weather a POST on an absent scope leaves it absent, or as one of the stops of its
      edits: readable exactly under CreateStopReadable. */
  lemma PostLeavesAStop(sv: State, d: Payload, ord: Order, weather: seq<Weather>) returns (k: nat)
    requires Valid(d) && d.scope !in sv.scopes
    ensures k <= |CreateEdits(d)|
    ensures var after := Serve(sv, Post(d), ord, weather).sv;
            d.scope in after.scopes ==>
              StopAt(Added(d), CreateEdits(d), k) == Some(after.scopes[d.scope]) &&
              (Readable(d.scope, after.scopes[d.scope]) <==> CreateStopReadable(d, k))
    ensures Run(sv, CreatePlan(sv.rels, d), weather).ok ==> d.scope in Serve(sv, Post(d), ord, weather).sv.scopes
  {
    var s := d.scope;
    CreatePlanShape(sv.rels, d);
    var edits, tail := Lift(s, CreateEdits(d)), CreateTail(sv.rels, d);
    RunConcat(sv, [AddStep(d)], edits + tail, weather);
    var sv1, w1 := sv.(scopes := sv.scopes[s := Added(d)]), LaterBy(weather, 1);
    assert LaterBy(Later(weather), 0) == w1;
    RunOne(sv, AddStep(d), weather);
    k := 0;
    assert CreateEdits(d)[..0] == [];
    if Run(sv, [AddStep(d)], weather).ok {
      RunConcat(sv1, edits, tail, w1);
      CreateEditsAreResolute(d);
      k := StopIsPrefix(sv1, edits, w1);
      assert edits[..k] == Lift(s, CreateEdits(d)[..k]);
      CreateStops(d, k);
      LiftedRun(sv1, s, CreateEdits(d)[..k]);
      FailoverRunKeepsRecords(Run(sv1, edits, w1).sv, tail, LaterBy(w1, |edits|));
    }
    CreateStops(d, k);
  }

  lemma RunOne(sv: State, step: Step, weather: seq<Weather>)
    ensures Run(sv, [step], weather) == Attempt(sv, step, Now(weather))
  {
    var e := Attempt(sv, step, Now(weather));
    assert [step][1..] == [];
    assert e.ok ==> Run(e.sv, [], Later(weather)) == e;
  }

  /** Every create has a fault that bricks its scope: losing the call that sets the DNS servers,
      right after the scope was added. */
  lemma CreateFaultBricks(sv: State, d: Payload, ord: Order)
    requires Valid(d) && d.scope !in sv.scopes
    ensures Bricked(Serve(sv, Post(d), ord, LostAfter(1)).sv, d.scope)
  {
    CreatePlanShape(sv.rels, d);
    var plan := CreatePlan(sv.rels, d);
    assert plan[..1] == [AddStep(d)];
    FinishOne(sv, AddStep(d));
    assert plan[1] == Lift(d.scope, CreateEdits(d))[0];
    LostStopsThere(sv, plan, 1);
    ReadIsPartial(Serve(sv, Post(d), ord, LostAfter(1)).sv, d.scope);
  }

  /** What a stopped create leaves in the relationships is as before, or set up as asked for. */
  lemma CreateKeepsParsing(sv: State, d: Payload, ord: Order, weather: seq<Weather>)
    requires Wf(sv) && Valid(d) && d.scope !in sv.scopes
    ensures var after := Serve(sv, Post(d), ord, weather).sv;
            && (EndParses(sv.rels, d) <==> EndParses(after.rels, d))
            && (OwnParses(after.rels, d.scope) || !EndParses(after.rels, d))
  {
    assert !InSomeRelationship(sv.rels, d.scope);
    NoMembership(sv.rels, d.scope);
    RequestsArePolite(sv, Post(d), ord, weather);
    OwnParsesUnlessJoined(sv, Post(d), ord, weather);
    if !EndParses(sv.rels, d) {
      UnparsedStays(sv, Post(d), ord, weather, d.failover.value.name);
    }
  }

  /** The mask of a record is set when the scope is added and never again. */
  lemma {:induction false} EditsKeepMask(r: Record, steps: seq<EditStep>)
    requires EditAll(r, steps).Some?
    ensures EditAll(r, steps).value.mask == r.mask
    decreases |steps|
  {
    if steps != [] {
      EditsKeepMask(EditOnce(r, steps[0]).value, steps[1..]);
    }
  }

  /** Retry after a partial create. Whatever stopped a POST on an absent scope, the same POST without
      faults then succeeds, and shows what was asked for, exactly if the relationship asked for is
      free or parses and the first left no scope or one that can be read: its DNS servers are set,
      not just half of its PXE pair, and its gateway is clear or covered. */
  lemma RetryAfterPartialCreate(sv: State, d: Payload, ord: Order, weather: seq<Weather>, again: Order) returns (k: nat)
    requires Wf(sv) && Valid(d) && d.scope !in sv.scopes
    requires var mid := Serve(sv, Post(d), ord, weather).sv;
             Read(mid, d.scope).Found? ==> OrderFor(again, Read(mid, d.scope).payload, d)
    ensures k <= |CreateEdits(d)|
    ensures var mid := Serve(sv, Post(d), ord, weather).sv;
            var e := Serve(mid, Post(d), again, []);
            && (e.ok <==> EndParses(sv.rels, d) && (d.scope in mid.scopes ==> CreateStopReadable(d, k)))
            && (e.ok ==> d.scope in e.sv.scopes && Shows(e.sv.scopes[d.scope], d))
            && (d.scope in mid.scopes ==> StopAt(Added(d), CreateEdits(d), k) == Some(mid.scopes[d.scope]))
  {
    var s, mid := d.scope, Serve(sv, Post(d), ord, weather).sv;
    k := PostLeavesAStop(sv, d, ord, weather);
    CreateKeepsParsing(sv, d, ord, weather);
    RequestsArePolite(sv, Post(d), ord, weather);
    if s !in mid.scopes {
      PostCreates(mid, d, again);
    } else {
      ReadIsPartial(mid, s);
      EditsKeepMask(Added(d), CreateEdits(d)[..k]);
      if Read(mid, s).Found? {
        PutConverges(mid, d, again);
      }
    }
  }

  /** The stops of a create from which further faulty retries stay repairable: those that can be
      read and have no boot option still to be added. */
  lemma CreateStopRepairable(d: Payload, k: nat)
    requires Valid(d) && k <= |CreateEdits(d)|
    ensures StopAt(Added(d), CreateEdits(d), k).Some?
    ensures Repairable(d.scope, StopAt(Added(d), CreateEdits(d), k).value, d) <==>
              CreateStopReadable(d, k) && (d.nextServer == "" || k >= 3)
  {
    CreateStops(d, k);
    EditsKeepMask(Added(d), CreateEdits(d)[..k]);
    if k > 0 {
      CreateStopFields(d, k);
      var j := ExclusionsAfter(d, k);
      assert ToSet(d.exclusions[..j]) <= ToSet(d.exclusions);
      assert ToSet(d.exclusions[..j]) * ToSet(d.exclusions) == ToSet(d.exclusions[..j]);
    }
  }

  lemma CreateStopFields(d: Payload, k: nat)
    requires Valid(d) && 0 < k <= |CreateEdits(d)|
    ensures StopAt(Added(d), CreateEdits(d), k).Some?
    ensures var r := StopAt(Added(d), CreateEdits(d), k).value;
            && r.range == d.range && r.router == d.gateway
            && r.exclusions == ToSet(d.exclusions[..ExclusionsAfter(d, k)])
            && (Text(r.bootServer) == "" <==> d.nextServer == "" || k == 1)
  {
    var options, adds := OptionSteps(d), Additions(d.exclusions, PresentOk);
    var j := ExclusionsAfter(d, k);
    OptionStepsEnd(d);
    assert ToSet(d.exclusions[..0]) == {};
    if k <= |options| {
      assert CreateEdits(d)[..k] == options[..k];
      assert options[..|options|] == options;
    } else {
      assert CreateEdits(d)[..k] == options + adds[..j];
      EditConcat(Added(d), options, adds[..j]);
      ExclusionStepsEnd(d, j);
    }
  }

  /** From such a stop any number of faulty POSTs and PUTs leave the record repairable, and the first
      without a fault reaches what was asked for, exactly if the relationship was free or parsed. */
  lemma RetriesAfterPartialCreate(sv: State, d: Payload, ord: Order, weather: seq<Weather>, k: nat,
                                  events: seq<Event>, req: Request, again: Order)
    requires Wf(sv) && Valid(d) && d.scope !in sv.scopes && k <= |CreateEdits(d)|
    requires var mid := Serve(sv, Post(d), ord, weather).sv;
             && d.scope in mid.scopes && StopAt(Added(d), CreateEdits(d), k) == Some(mid.scopes[d.scope])
             && CreateStopReadable(d, k) && (d.nextServer == "" || k >= 3)
             && Retries(mid, d, events)
    requires req == Put(d) || req == Post(d)
    ensures var end := Replay(Serve(sv, Post(d), ord, weather).sv, events);
            && Wf(end) && d.scope in end.scopes && Repairable(d.scope, end.scopes[d.scope], d)
            && ((Read(end, d.scope).Found? ==> OrderFor(again, Read(end, d.scope).payload, d)) ==>
                  var e := Serve(end, req, again, []);
                  && (e.ok <==> EndParses(sv.rels, d))
                  && (e.ok ==> d.scope in e.sv.scopes && Shows(e.sv.scopes[d.scope], d)))
  {
    var mid := Serve(sv, Post(d), ord, weather).sv;
    CreateStopRepairable(d, k);
    CreateKeepsParsing(sv, d, ord, weather);
    RequestsArePolite(sv, Post(d), ord, weather);
    RetriesStayRepairable(mid, d, events);
    var end := Replay(mid, events);
    ReadIsPartial(end, d.scope);
    if Read(end, d.scope).Found? && OrderFor(again, Read(end, d.scope).payload, d) {
      PutConverges(end, d, again);
    }
  }

  /* ---- Delete ---- */

  /** Best-effort removal of exclusions: never fails, and removes some of them. */
  lemma {:induction false} ClearingRun(sv: State, s: Ip, xs: seq<Range>, weather: seq<Weather>)
    requires s in sv.scopes
    ensures var e := Run(sv, Lift(s, Removals(xs, Anything)), weather);
            && e.ok && s in e.sv.scopes && e.sv.scopes[s].exclusions <= sv.scopes[s].exclusions
            && e.sv.scopes[s] == sv.scopes[s].(exclusions := e.sv.scopes[s].exclusions)
    decreases |xs|
  {
    var edits := Removals(xs, Anything);
    if xs != [] {
      var e := Attempt(sv, Lift(s, edits)[0], Now(weather));
      assert Lift(s, edits)[1..] == Lift(s, Removals(xs[1..], Anything));
      ClearingRun(e.sv, s, xs[1..], Later(weather));
    }
  }

  function LeavingSteps(rels: Relationships, s: Ip, c: Payload): seq<Step> {
    if c.failover.Some? then LeaveSteps(rels, s, c.failover.value.name) else []
  }

  lemma DeleteIntent(sv: State, s: Ip, ord: Order)
    requires OwnParses(sv.rels, s) && s in sv.scopes && Readable(s, sv.scopes[s])
    ensures Intent(sv, Delete(s), ord) == Some(DeletePlan(sv.rels, s, Current(sv, s)))
  {
    ReadIsPartial(sv, s);
  }

  lemma DeletePlanShape(rels: Relationships, s: Ip, c: Payload)
    ensures DeletePlan(rels, s, c) ==
              (LeavingSteps(rels, s, c) + Lift(s, Removals(c.exclusions, Anything))) + [Step(RemoveScope(s), Strict)]
    ensures RecordsUntouched(LeavingSteps(rels, s, c))
  {
  }

  /** The record of s lost nothing but exclusions. */
  ghost predicate OnlyLostExclusions(before: State, after: State, s: Ip)
    requires s in before.scopes
  {
    s in after.scopes ==>
      after.scopes[s].exclusions <= before.scopes[s].exclusions &&
      after.scopes[s] == before.scopes[s].(exclusions := after.scopes[s].exclusions)
  }

  lemma ClearedRun(sv: State, s: Ip, c: Payload, weather: seq<Weather>)
    requires s in sv.scopes
    ensures var steps := LeavingSteps(sv.rels, s, c) + Lift(s, Removals(c.exclusions, Anything));
            s in Run(sv, steps, weather).sv.scopes && OnlyLostExclusions(sv, Run(sv, steps, weather).sv, s)
  {
    var leave := LeavingSteps(sv.rels, s, c);
    DeletePlanShape(sv.rels, s, c);
    RunConcat(sv, leave, Lift(s, Removals(c.exclusions, Anything)), weather);
    FailoverRunKeepsRecords(sv, leave, weather);
    var left := Run(sv, leave, weather);
    if left.ok {
      ClearingRun(left.sv, s, c.exclusions, LaterBy(weather, |leave|));
    }
  }

  /** In any weather DELETE either removes the scope or leaves its record with some of its
      exclusions; it reports success only in the first case. */
  lemma DeleteLeaves(sv: State, s: Ip, ord: Order, weather: seq<Weather>)
    requires OwnParses(sv.rels, s) && s in sv.scopes && Readable(s, sv.scopes[s])
    ensures Serve(sv, Delete(s), ord, weather).ok ==> s !in Serve(sv, Delete(s), ord, weather).sv.scopes
    ensures OnlyLostExclusions(sv, Serve(sv, Delete(s), ord, weather).sv, s)
  {
    DeleteIntent(sv, s, ord);
    var c := Current(sv, s);
    var steps := LeavingSteps(sv.rels, s, c) + Lift(s, Removals(c.exclusions, Anything));
    var last := Step(RemoveScope(s), Strict);
    DeletePlanShape(sv.rels, s, c);
    RunConcat(sv, steps, [last], weather);
    ClearedRun(sv, s, c, weather);
    RunOne(Run(sv, steps, weather).sv, last, LaterBy(weather, |steps|));
  }

  /** DELETE without faults succeeds exactly on a scope that is absent or can be read. The scope is
      then gone from the server and from its relationship, which goes too if nobody else was in it,
      and nothing else has changed. */
  lemma DeleteRemoves(sv: State, s: Ip, ord: Order)
    requires Wf(sv)
    ensures Serve(sv, Delete(s), ord, []).ok <==>
              s !in sv.scopes || (OwnParses(sv.rels, s) && Readable(s, sv.scopes[s]))
    ensures Serve(sv, Delete(s), ord, []).ok ==>
              Serve(sv, Delete(s), ord, []).sv ==
              sv.(scopes := sv.scopes - {s},
                  rels := match RelationshipOf(sv.rels, s) case None => sv.rels case Some(n) => LeftRels(sv.rels, s, n))
  {
    if s !in sv.scopes {
      AbsentIsDeleted(sv, s, ord, []);
      assert RelationshipOf(sv.rels, s).None?;
      assert sv.scopes - {s} == sv.scopes;
    } else {
      ReadIsPartial(sv, s);
      if OwnParses(sv.rels, s) && Readable(s, sv.scopes[s]) {
        DeleteIntent(sv, s, ord);
        DeleteFinishes(sv, s, Current(sv, s));
      }
    }
  }

  /** Deleting a scope that is not there succeeds at once, whatever the weather. */
  lemma AbsentIsDeleted(sv: State, s: Ip, ord: Order, weather: seq<Weather>)
    requires s !in sv.scopes
    ensures Serve(sv, Delete(s), ord, weather) == Ending(sv, true)
  {
  }

  lemma DeleteFinishes(sv: State, s: Ip, c: Payload)
    requires Wf(sv) && OwnParses(sv.rels, s) && s in sv.scopes
    requires Readable(s, sv.scopes[s]) && c == Current(sv, s)
    ensures Finish(sv, DeletePlan(sv.rels, s, c)) ==
              Ending(sv.(scopes := sv.scopes - {s},
                         rels := match RelationshipOf(sv.rels, s)
                                 case None => sv.rels
                                 case Some(n) => LeftRels(sv.rels, s, n)), true)
  {
    var plan := DeletePlan(sv.rels, s, c);
    var front := plan[..|plan| - 1];
    var last := Step(RemoveScope(s), Strict);
    DeleteUpToTheScope(sv, s, c);
    DeletePlanShape(sv.rels, s, c);
    assert plan == front + [last];
    FinishConcat(sv, front, [last]);
    var mid := Finish(sv, front).sv;
    FinishOne(mid, last);
    assert mid.scopes - {s} == sv.scopes - {s};
  }

  /** A gateway inside the range lives under an exclusion that a delete takes away first. */
  predicate GatewayInRange(r: Record) {
    r.router.Some? && r.range.Contains(r.router.value)
  }

  /** Exactly the scopes without a gateway in their range survive every faulty delete readable. */
  lemma DeleteFaultBricksIffGatewayInRange(sv: State, s: Ip, ord: Order)
    requires Wf(sv) && OwnParses(sv.rels, s) && s in sv.scopes && Readable(s, sv.scopes[s])
    ensures GatewayInRange(sv.scopes[s]) <==>
              exists weather: seq<Weather> :: Bricked(Serve(sv, Delete(s), ord, weather).sv, s)
  {
    if GatewayInRange(sv.scopes[s]) {
      var weather := LostLastCall(sv, s, ord);
      assert Bricked(Serve(sv, Delete(s), ord, weather).sv, s);
    } else {
      forall weather: seq<Weather>
        ensures !Bricked(Serve(sv, Delete(s), ord, weather).sv, s)
      {
        DeleteLeaves(sv, s, ord, weather);
        OwnParsesUnlessJoined(sv, Delete(s), ord, weather);
        ReadUnlessGone(Serve(sv, Delete(s), ord, weather).sv, s);
      }
    }
  }

  lemma ReadUnlessGone(sv: State, s: Ip)
    requires OwnParses(sv.rels, s) && (s in sv.scopes ==> Readable(s, sv.scopes[s]))
    ensures !Bricked(sv, s)
  {
    if s in sv.scopes {
      ReadIsPartial(sv, s);
    }
  }

  lemma BareGatewayBricks(sv: State, s: Ip, r: Record)
    requires s in sv.scopes && sv.scopes[s] == r.(exclusions := {}) && GatewayInRange(r)
    ensures Bricked(sv, s)
  {
    ReadIsPartial(sv, s);
  }

  lemma LostLastCall(sv: State, s: Ip, ord: Order) returns (weather: seq<Weather>)
    requires Wf(sv) && OwnParses(sv.rels, s) && s in sv.scopes
    requires Readable(s, sv.scopes[s]) && GatewayInRange(sv.scopes[s])
    ensures Bricked(Serve(sv, Delete(s), ord, weather).sv, s)
  {
    hide DeletePlan, Current, Readable, Read, Bricked, LostAfter;
    DeleteIntent(sv, s, ord);
    var plan := DeletePlan(sv.rels, s, Current(sv, s));
    DeleteUpToTheScope(sv, s, Current(sv, s));
    DeletePlanShape(sv.rels, s, Current(sv, s));
    LostStopsThere(sv, plan, |plan| - 1);
    weather := LostAfter(|plan| - 1);
    BareGatewayBricks(Serve(sv, Delete(s), ord, weather).sv, s, sv.scopes[s]);
  }

  /** All steps but the last of a fault-free delete leave the bare record. */
  lemma DeleteUpToTheScope(sv: State, s: Ip, c: Payload)
    requires Wf(sv) && OwnParses(sv.rels, s) && s in sv.scopes
    requires Readable(s, sv.scopes[s]) && c == Current(sv, s)
    ensures var plan := DeletePlan(sv.rels, s, c);
            var e := Finish(sv, plan[..|plan| - 1]);
            && e.ok && s in e.sv.scopes
            && e.sv == sv.(scopes := sv.scopes[s := sv.scopes[s].(exclusions := {})],
                           rels := match RelationshipOf(sv.rels, s)
                                   case None => sv.rels
                                   case Some(n) => LeftRels(sv.rels, s, n))
  {
    var leave := LeavingSteps(sv.rels, s, c);
    var edits := Removals(c.exclusions, Anything);
    var plan := DeletePlan(sv.rels, s, c);
    assert plan[..|plan| - 1] == leave + Lift(s, edits);
    if c.failover.Some? {
      var n := MembershipWitness(sv.rels, s);
      LeaveEnds(sv, s, n);
    }
    FailoverRunKeepsRecords(sv, leave, []);
    var mid := Finish(sv, leave).sv;
    ObservedExclusions(sv.scopes[s], s, c.failover);
    EnumerationIsCanonical(sv.scopes[s].exclusions);
    DistinctCanonicalEntries(c.exclusions);
    RemovalsEnd(sv.scopes[s], c.exclusions, Anything);
    assert sv.scopes[s].exclusions - ToSet(c.exclusions) == {};
    LiftedRun(mid, s, edits);
    FinishConcat(sv, leave, Lift(s, edits));
  }

  lemma DistinctCanonicalEntries(xs: seq<Range>)
    requires AllWellFormed(xs) && Ascending(xs)
    ensures forall i, j :: 0 <= i < j < |xs| ==> xs[i] != xs[j]
  {
    forall i, j | 0 <= i < j < |xs|
      ensures xs[i] != xs[j]
    {
      assert xs[i].WellFormed();
    }
  }
}
