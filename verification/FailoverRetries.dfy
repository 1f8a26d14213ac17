/** Failover under faults: stopping converge runs anywhere, any number of times, changes nothing
    about whether the desired failover can be reached. */
module FailoverRetries {
  import opened Common
  import opened Addresses
  import opened ScopeModel
  import opened Server
  import opened Reading
  import opened Plans
  import opened CrashSafety
  import opened FailoverConvergence
  import opened Api
  import opened Repair
  import opened Leftovers

  /** The relationships between leaving n and dropping it. */
  function Departed(rels: Relationships, s: Ip, n: string): Relationships
    requires n in rels
  {
    rels[n := rels[n].(members := rels[n].members - {s})]
  }

  /* ---- Each step keeps TwoPasses, in both directions ---- */

  lemma LeavingKeepsTwo(rels: Relationships, s: Ip, n: string, f: Failover)
    requires n in rels && s in rels[n].members && Parsable(n, rels[n])
    ensures TwoPasses(Departed(rels, s, n), s, f) <==> TwoPasses(rels, s, f)
    ensures TwoPasses(LeftRels(rels, s, n), s, f) <==> TwoPasses(rels, s, f)
  {
  }

  lemma SetupKeepsTwo(rels: Relationships, s: Ip, f: Failover)
    requires ValidFailover(f)
    ensures TwoPasses(SetupRels(rels, s, f), s, f) <==> TwoPasses(rels, s, f)
  {
  }

  lemma TuningKeepsTwo(rels: Relationships, s: Ip, f: Failover)
    requires ValidFailover(f) && f.name in rels && IdentityMatches(rels, f)
    ensures TwoPasses(TunedRels(rels, f.name, f), s, f) && TwoPasses(rels, s, f)
  {
  }

  /* ---- Runs ---- */

  lemma LeaveRunEnds(sv: State, s: Ip, n: string, weather: seq<Weather>)
    requires OneRelationshipEach(sv.rels) && Member(sv.rels, n, s)
    ensures var after := Run(sv, LeaveSteps(sv.rels, s, n), weather).sv.rels;
            after == sv.rels || after == Departed(sv.rels, s, n) || after == LeftRels(sv.rels, s, n)
  {
    var steps := LeaveSteps(sv.rels, s, n);
    var e := Attempt(sv, steps[0], Now(weather));
    assert steps == [steps[0]] + steps[1..];
    RunConcat(sv, [steps[0]], steps[1..], weather);
    RunOne(sv, steps[0], weather);
    if |steps| == 2 {
      assert steps[1..] == [steps[1]];
      RunOne(e.sv, steps[1], LaterBy(weather, 1));
      assert Departed(sv.rels, s, n) - {n} == sv.rels - {n};
    }
  }

  lemma SetupRunEnds(sv: State, s: Ip, f: Failover, weather: seq<Weather>)
    ensures var after := Run(sv, SetupSteps(sv.rels, s, f), weather).sv.rels;
            after == sv.rels || after == SetupRels(sv.rels, s, f)
  {
    RunOne(sv, SetupSteps(sv.rels, s, f)[0], weather);
  }

  lemma FailoverRunKeepsTwo(sv: State, s: Ip, f: Failover, weather: seq<Weather>)
    requires Sound(sv.rels, s) && ValidFailover(f)
    ensures var after := Run(sv, FailoverSteps(sv.rels, s, FailoverOf(sv.rels, s), Some(f)), weather).sv.rels;
            TwoPasses(after, s, f) <==> TwoPasses(sv.rels, s, f)
  {
    hide TwoPasses;
    var c := FailoverOf(sv.rels, s);
    if c.None? {
      SetupRunEnds(sv, s, f, weather);
      SetupKeepsTwo(sv.rels, s, f);
    } else {
      var n := MembershipWitness(sv.rels, s);
      MembershipIsUnique(sv.rels, s, n);
      if !SameIdentity(c.value, f) {
        RecreateKeepsTwo(sv, s, n, f, weather);
      } else if Share(c.value) != Share(f) || c.value.leadTime != f.leadTime {
        var tune := Step(TuneFailover(s, n, f.leadTime, f.mode, Share(f)), Strict);
        RunOne(sv, tune, weather);
        TuningKeepsTwo(sv.rels, s, f);
      }
    }
  }

  lemma RecreateKeepsTwo(sv: State, s: Ip, n: string, f: Failover, weather: seq<Weather>)
    requires OneRelationshipEach(sv.rels) && Member(sv.rels, n, s) && Parsable(n, sv.rels[n]) && ValidFailover(f)
    ensures var steps := LeaveSteps(sv.rels, s, n) + SetupSteps(LeftRels(sv.rels, s, n), s, f);
            TwoPasses(Run(sv, steps, weather).sv.rels, s, f) <==> TwoPasses(sv.rels, s, f)
  {
    hide TwoPasses, SetupSteps, SetupRels;
    var leave, setup := LeaveSteps(sv.rels, s, n), SetupSteps(LeftRels(sv.rels, s, n), s, f);
    RunConcat(sv, leave, setup, weather);
    LeaveRunEnds(sv, s, n, weather);
    LeavePolite(sv, s, n, weather);
    LeavingKeepsTwo(sv.rels, s, n, f);
    var left := Run(sv, leave, weather);
    if left.ok {
      SetupRunEnds(left.sv, s, f, LaterBy(weather, |leave|));
      SetupKeepsTwo(left.sv.rels, s, f);
    }
  }

  /** Steps that leave the relationships alone. */
  lemma ReplicateKeepsRels(sv: State, s: Ip, weather: seq<Weather>)
    ensures Run(sv, [Step(Replicate(s), Strict)], weather).sv.rels == sv.rels
  {
    RunOne(sv, Step(Replicate(s), Strict), weather);
  }

  lemma ConvergeKeepsTwo(sv: State, d: Payload, ord: Order, weather: seq<Weather>)
    requires Wf(sv) && Valid(d) && d.failover.Some? && Intent(sv, Put(d), ord).Some?
    ensures var f := d.failover.value;
            TwoPasses(Serve(sv, Put(d), ord, weather).sv.rels, d.scope, f) <==> TwoPasses(sv.rels, d.scope, f)
  {
    hide TwoPasses, RecordPlan, FailoverSteps, OwnParses, Valid;
    var s, f := d.scope, d.failover.value;
    ReadIsPartial(sv, s);
    var c := Read(sv, s).payload;
    var edits, failover := Lift(s, RecordPlan(c, d, ord)), FailoverSteps(sv.rels, s, c.failover, d.failover);
    var diff := edits + failover;
    var last := if diff != [] then [Step(Replicate(s), Strict)] else [];
    EditsPolite(sv, s, RecordPlan(c, d, ord), weather);
    RunConcat(sv, edits, failover, weather);
    RunConcat(sv, diff, last, weather);
    var mid := Run(sv, edits, weather);
    FailoverRunKeepsTwoFor(mid.sv, s, c.failover, d, LaterBy(weather, |edits|));
    if Run(sv, diff, weather).ok && diff != [] {
      ReplicateKeepsRels(Run(sv, diff, weather).sv, s, LaterBy(weather, |diff|));
    }
  }

  lemma FailoverRunKeepsTwoFor(sv: State, s: Ip, c: Option<Failover>, d: Payload, weather: seq<Weather>)
    requires Sound(sv.rels, s) && c == FailoverOf(sv.rels, s) && Valid(d) && d.failover.Some?
    ensures var after := Run(sv, FailoverSteps(sv.rels, s, c, d.failover), weather).sv.rels;
            TwoPasses(after, s, d.failover.value) <==> TwoPasses(sv.rels, s, d.failover.value)
  {
    FailoverRunKeepsTwo(sv, s, d.failover.value, weather);
  }

  lemma CreateKeepsTwo(sv: State, d: Payload, ord: Order, weather: seq<Weather>)
    requires Valid(d) && d.failover.Some? && d.scope !in sv.scopes
    ensures var f := d.failover.value;
            TwoPasses(Serve(sv, Post(d), ord, weather).sv.rels, d.scope, f) <==> TwoPasses(sv.rels, d.scope, f)
  {
    hide TwoPasses, SetupSteps, SetupRels, CreateEdits, Valid;
    var s, f := d.scope, d.failover.value;
    var record, setup := [AddStep(d)] + Lift(s, CreateEdits(d)), SetupSteps(sv.rels, s, f);
    assert CreatePlan(sv.rels, d) == record + (setup + [Step(Replicate(s), Strict)]);
    RunConcat(sv, record, setup + [Step(Replicate(s), Strict)], weather);
    RecordStepsKeepRels(sv, d, weather);
    var mid, w := Run(sv, record, weather), LaterBy(weather, |record|);
    if mid.ok {
      RunConcat(mid.sv, setup, [Step(Replicate(s), Strict)], w);
      SetupRunEnds(mid.sv, s, f, w);
      ValidMeansValidFailover(d);
      SetupKeepsTwo(sv.rels, s, f);
      if Run(mid.sv, setup, w).ok {
        ReplicateKeepsRels(Run(mid.sv, setup, w).sv, s, LaterBy(w, |setup|));
      }
    }
  }

  lemma ValidMeansValidFailover(d: Payload)
    requires Valid(d) && d.failover.Some?
    ensures ValidFailover(d.failover.value)
  {
  }

  lemma RecordStepsKeepRels(sv: State, d: Payload, weather: seq<Weather>)
    ensures Run(sv, [AddStep(d)] + Lift(d.scope, CreateEdits(d)), weather).sv.rels == sv.rels
  {
    RunConcat(sv, [AddStep(d)], Lift(d.scope, CreateEdits(d)), weather);
    RunOne(sv, AddStep(d), weather);
    EditsPolite(Run(sv, [AddStep(d)], weather).sv, d.scope, CreateEdits(d), LaterBy(weather, 1));
  }

  /* ---- Retries ---- */

  /** A PUT or POST in any weather keeps the condition, in both directions. */
  lemma RetryKeepsTwo(sv: State, d: Payload, req: Request, ord: Order, weather: seq<Weather>)
    requires Wf(sv) && Valid(d) && d.failover.Some? && (req == Put(d) || req == Post(d))
    ensures var f := d.failover.value;
            TwoPasses(Serve(sv, req, ord, weather).sv.rels, d.scope, f) <==> TwoPasses(sv.rels, d.scope, f)
  {
    if Intent(sv, req, ord).Some? {
      if req == Post(d) && d.scope !in sv.scopes {
        CreateKeepsTwo(sv, d, ord, weather);
      } else {
        ConvergeKeepsTwo(sv, d, ord, weather);
      }
    }
  }

  lemma {:induction false} RetriesKeepTwo(sv: State, d: Payload, events: seq<Event>)
    requires Wf(sv) && Valid(d) && d.failover.Some? && Retries(sv, d, events)
    ensures var f := d.failover.value;
            TwoPasses(Replay(sv, events).rels, d.scope, f) <==> TwoPasses(sv.rels, d.scope, f)
    decreases |events|
  {
    hide TwoPasses, Intent;
    if events != [] {
      var e := events[0];
      RetryKeepsTwo(sv, d, e.req, e.ord, e.weather);
      RequestsArePolite(sv, e.req, e.ord, e.weather);
      RetriesKeepTwo(Serve(sv, e.req, e.ord, e.weather).sv, d, events[1..]);
    }
  }

  /** Crash and retry, failover included. After any number of PUTs and POSTs stopped anywhere, two or
      more PUTs without faults show exactly what was asked for iff TwoPasses held at the start. */
  lemma FaultyRetriesThenPuts(sv: State, d: Payload, events: seq<Event>, ords: seq<Order>)
    requires Updatable(sv, d) && SafeUpdate(Current(sv, d.scope), d) && d.failover.Some?
    requires Retries(sv, d, events) && |ords| >= 2 && Orderly(Replay(sv, events), d, ords)
    ensures Read(PutAll(Replay(sv, events), d, ords), d.scope) == Found(d) <==>
              TwoPasses(sv.rels, d.scope, d.failover.value)
  {
    hide TwoPasses, Pass, Reached, Readable, Valid, SafeUpdate, SafeRecord;
    var s, f, end := d.scope, d.failover.value, Replay(sv, events);
    SafeRecordIsSafeUpdate(s, sv.scopes[s], FailoverOf(sv.rels, s), d);
    RetriesStayRepairable(sv, d, events);
    RetriesKeepTwo(sv, d, events);
    if OwnParses(end.rels, s) {
      PutsShowIffReached(end, d, ords);
      ValidMeansValidFailover(d);
      PassesNeeded(end.rels, s, f, |ords|);
    } else {
      RefusedForGood(end, d, ords);
    }
  }

  /** A scope in a relationship that does not parse is refused every time. */
  lemma RefusedForGood(sv: State, d: Payload, ords: seq<Order>)
    requires Editable(sv, d) && d.failover.Some? && Orderly(sv, d, ords)
    requires !OwnParses(sv.rels, d.scope) && !EndParses(sv.rels, d)
    ensures Read(PutAll(sv, d, ords), d.scope).Unreadable? && !TwoPasses(sv.rels, d.scope, d.failover.value)
  {
    PutsMakePasses(sv, d, ords);
    FixedPoint(sv.rels, d.scope, d.failover.value, |ords|);
    ReadIsPartial(PutAll(sv, d, ords), d.scope);
  }

  /** OnePass is another matter: a run stopped between leaving and dropping leaves an empty
      relationship, and the next run joins its old terms. */
  lemma StopCostsAPass(rels: Relationships, s: Ip, f: Failover)
    requires f.name in rels && rels[f.name].members == {s} && Parsable(f.name, rels[f.name])
    requires !IdentityMatches(rels, f)
    ensures OnePass(rels, s, f)
    ensures !OnePass(Departed(rels, s, f.name), s, f) && TwoPasses(Departed(rels, s, f.name), s, f)
  {
  }

  ghost predicate SameMembers(a: Relationships, b: Relationships) {
    a.Keys == b.Keys && forall n :: n in a ==> b[n].members == a[n].members
  }

  /** The scope is a member of the desired relationship, which parses and has the desired mode,
      partner and role. */
  predicate OnDesiredTerms(rels: Relationships, s: Ip, f: Failover) {
    && f.name in rels && s in rels[f.name].members && Parsable(f.name, rels[f.name])
    && rels[f.name].mode == f.mode && rels[f.name].partner == f.partner
    && (f.mode.HotStandby? ==> rels[f.name].role == Some(f.role))
  }

  lemma ReplicatingKeepsMembers(sv: State, s: Ip, weather: seq<Weather>)
    ensures Run(sv, [Step(Replicate(s), Strict)], weather).sv.rels == sv.rels
  {
    RunOne(sv, Step(Replicate(s), Strict), weather);
  }

  lemma TuningRunKeepsMembers(sv: State, s: Ip, f: Failover, edits: seq<EditStep>, last: seq<Step>,
                              weather: seq<Weather>)
    requires OneRelationshipEach(sv.rels) && ValidFailover(f) && OnDesiredTerms(sv.rels, s, f)
    requires last == [] || last == [Step(Replicate(s), Strict)]
    ensures OwnParses(sv.rels, s)
    ensures var steps := Lift(s, edits) + FailoverSteps(sv.rels, s, FailoverOf(sv.rels, s), Some(f)) + last;
            SameMembers(sv.rels, Run(sv, steps, weather).sv.rels)
  {
    hide Lift, FailoverSteps, Parsable, Run;
    TunedInPlace(sv, s, f, weather);
    var first, tune := Lift(s, edits), FailoverSteps(sv.rels, s, FailoverOf(sv.rels, s), Some(f));
    EditsPolite(sv, s, edits, weather);
    var mid := Run(sv, first, weather).sv;
    TunedInPlace(mid, s, f, LaterBy(weather, |first|));
    RunConcat(sv, first, tune, weather);
    var done := Run(sv, first + tune, weather).sv;
    assert SameMembers(sv.rels, done.rels);
    RunConcat(sv, first + tune, last, weather);
    if last == [] {
      assert first + tune + last == first + tune;
    } else {
      ReplicatingKeepsMembers(done, s, LaterBy(weather, |first + tune|));
    }
  }

  /** A scope on the desired terms never leaves its relationship: a PUT of the payload, wherever it is
      stopped, changes nobody's membership, whatever lead time or percentage it asks for; and without
      faults the relationship is then exactly as desired. */
  lemma PutKeepsMembers(sv: State, d: Payload, ord: Order, weather: seq<Weather>)
    requires Wf(sv) && Valid(d) && d.failover.Some? && OnDesiredTerms(sv.rels, d.scope, d.failover.value)
    ensures SameMembers(sv.rels, Serve(sv, Put(d), ord, weather).sv.rels)
    ensures Converges(sv, d, ord) ==> Reached(Serve(sv, Put(d), ord, []).sv.rels, d.scope, d.failover.value)
  {
    hide Valid, Readable, RecordPlan, Lift, FailoverSteps, Converges, SameMembers, Reached, Parsable, Run;
    ValidMeansValidFailover(d);
    var s, f := d.scope, d.failover.value;
    TunedInPlace(sv, s, f, weather);
    if s in sv.scopes {
      ReadIsPartial(sv, s);
    }
    var intent := Intent(sv, Put(d), ord);
    if intent.Some? {
      var c := Read(sv, s).payload;
      var last := if DiffSteps(sv.rels, s, c, d, ord) != [] then [Step(Replicate(s), Strict)] else [];
      TuningRunKeepsMembers(sv, s, f, RecordPlan(c, d, ord), last, weather);
      assert intent.value == Lift(s, RecordPlan(c, d, ord)) + FailoverSteps(sv.rels, s, c.failover, Some(f)) + last;
    } else {
      SameMembersAsItself(sv.rels);
    }
    if Converges(sv, d, ord) {
      PutMakesPass(sv, d, ord);
    }
  }

  lemma SameMembersAsItself(rels: Relationships)
    ensures SameMembers(rels, rels)
  {
  }

  lemma PutMakesPass(sv: State, d: Payload, ord: Order)
    requires Converges(sv, d, ord) && d.failover.Some?
    ensures Serve(sv, Put(d), ord, []).sv.rels == Pass(sv.rels, d.scope, d.failover.value)
  {
    PutConverges(sv, d, ord);
  }
}
