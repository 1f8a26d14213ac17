/** The failover partner's copies of scope records: when a successful request leaves them equal to
    the primary's, and how they fall behind for good. */
module PartnerSync {
  import opened Common
  import opened Addresses
  import opened Exclusions
  import opened ScopeModel
  import opened Server
  import opened Reading
  import opened Plans
  import opened Convergence
  import opened FailoverConvergence
  import opened Api
  import opened Repair
  import opened Leftovers

  ghost predicate InSync(sv: State, s: Ip) {
    s in sv.scopes && s in sv.partner && sv.partner[s] == sv.scopes[s]
  }

  /** Every scope in a relationship has an up-to-date copy on the partner. */
  ghost predicate Synced(sv: State) {
    forall n, t :: Member(sv.rels, n, t) ==> InSync(sv, t)
  }

  lemma SyncedMember(sv: State, s: Ip)
    requires Synced(sv) && InSomeRelationship(sv.rels, s)
    ensures InSync(sv, s)
  {
    var n :| n in sv.rels && s in sv.rels[n].members;
    assert Member(sv.rels, n, s);
  }

  lemma LastStepRan(sv: State, steps: seq<Step>, last: Step, weather: seq<Weather>)
    requires last.tolerance.Strict? && Run(sv, steps + [last], weather).ok
    ensures Run(sv, steps, weather).ok
    ensures Apply(Run(sv, steps, weather).sv, last.cmd) == Ok(Run(sv, steps + [last], weather).sv)
  {
    RunConcat(sv, steps, [last], weather);
    RunOne(Run(sv, steps, weather).sv, last, LaterBy(weather, |steps|));
  }

  /** A successful run that ends in replication leaves the copy equal. */
  lemma ReplicatedLast(sv: State, steps: seq<Step>, s: Ip, weather: seq<Weather>)
    requires Run(sv, steps + [Step(Replicate(s), Strict)], weather).ok
    ensures InSync(Run(sv, steps + [Step(Replicate(s), Strict)], weather).sv, s)
  {
    LastStepRan(sv, steps, Step(Replicate(s), Strict), weather);
  }

  /** The run was not stopped. (A request whose run went through can still fail in its final read.) */
  ghost predicate WentThrough(sv: State, req: Request, ord: Order, weather: seq<Weather>) {
    Intent(sv, req, ord).Some? && Run(sv, Intent(sv, req, ord).value, weather).ok
  }

  /** A PUT with failover that went through leaves the copy equal exactly if it was equal before or
      the PUT had something to write. */
  lemma PutSyncsIffItWrites(sv: State, d: Payload, ord: Order, weather: seq<Weather>)
    requires d.failover.Some? && WentThrough(sv, Put(d), ord, weather)
    ensures InSync(Serve(sv, Put(d), ord, weather).sv, d.scope) <==>
              InSync(sv, d.scope) || Intent(sv, Put(d), ord) != Some([])
  {
    var c := Read(sv, d.scope).payload;
    var diff := DiffSteps(sv.rels, d.scope, c, d, ord);
    if diff != [] {
      ReplicatedLast(sv, diff, d.scope, weather);
    } else {
      assert ConvergePlan(sv.rels, d.scope, c, d, ord) == [];
    }
  }

  lemma ConvergeLeavesNoMember(sv: State, d: Payload, ord: Order, weather: seq<Weather>)
    requires Wf(sv) && Valid(d) && d.failover.None? && WentThrough(sv, Put(d), ord, weather)
    ensures !InSomeRelationship(Serve(sv, Put(d), ord, weather).sv.rels, d.scope)
  {
    var s := d.scope;
    ReadIsPartial(sv, s);
    var c := Current(sv, s);
    var edits := Lift(s, RecordPlan(c, d, ord));
    var failover := FailoverSteps(sv.rels, s, c.failover, None);
    assert ConvergePlan(sv.rels, s, c, d, ord) == edits + failover;
    RunConcat(sv, edits, failover, weather);
    EditsPolite(sv, s, RecordPlan(c, d, ord), weather);
    var mid := Run(sv, edits, weather).sv;
    FailoverStepsShape(sv.rels, s, c.failover, None);
    SucceededRunIsFine(mid, failover, LaterBy(weather, |edits|));
    EditsKeepScopes(sv, s, RecordPlan(c, d, ord), weather);
    FailoverStepsEnd(mid, s, None);
  }

  lemma {:induction false} EditsKeepScopes(sv: State, s: Ip, edits: seq<EditStep>, weather: seq<Weather>)
    requires s in sv.scopes
    ensures s in Run(sv, Lift(s, edits), weather).sv.scopes
    decreases |edits|
  {
    if edits != [] {
      var e := Attempt(sv, Lift(s, edits)[0], Now(weather));
      assert Lift(s, edits)[1..] == Lift(s, edits[1..]);
      EditsKeepScopes(e.sv, s, edits[1..], Later(weather));
    }
  }

  /** The target of a request that went through is in sync afterwards, or in no relationship. */
  lemma SuccessSyncsTarget(sv: State, req: Request, ord: Order, weather: seq<Weather>)
    requires Wf(sv) && ValidRequest(req) && Synced(sv) && WentThrough(sv, req, ord, weather)
    ensures var after := Serve(sv, req, ord, weather).sv;
            InSomeRelationship(after.rels, Target(req)) ==> InSync(after, Target(req))
  {
    var s := Target(req);
    var after := Serve(sv, req, ord, weather).sv;
    RequestsArePolite(sv, req, ord, weather);
    match req
    case Get(_) =>
      if InSomeRelationship(sv.rels, s) {
        SyncedMember(sv, s);
      }
    case Delete(_) =>
      if InSomeRelationship(after.rels, s) {
        var n :| n in after.rels && s in after.rels[n].members;
      }
      if s in sv.scopes {
        ReadIsPartial(sv, s);
        DeleteLeaves(sv, s, ord, weather);
      }
    case Put(d) => ConvergeSyncsTarget(sv, d, ord, weather);
    case Post(d) =>
      if s in sv.scopes {
        ConvergeSyncsTarget(sv, d, ord, weather);
      } else {
        CreateSyncsTarget(sv, d, ord, weather);
      }
  }

  lemma ConvergeSyncsTarget(sv: State, d: Payload, ord: Order, weather: seq<Weather>)
    requires Wf(sv) && Valid(d) && Synced(sv) && WentThrough(sv, Put(d), ord, weather)
    ensures var after := Serve(sv, Put(d), ord, weather).sv;
            InSomeRelationship(after.rels, d.scope) ==> InSync(after, d.scope)
  {
    if d.failover.None? {
      ConvergeLeavesNoMember(sv, d, ord, weather);
    } else {
      PutSyncsIffItWrites(sv, d, ord, weather);
      if Intent(sv, Put(d), ord) == Some([]) {
        assert Serve(sv, Put(d), ord, weather).sv == sv;
        if InSomeRelationship(sv.rels, d.scope) {
          SyncedMember(sv, d.scope);
        }
      }
    }
  }

  lemma CreateSyncsTarget(sv: State, d: Payload, ord: Order, weather: seq<Weather>)
    requires Wf(sv) && Valid(d) && d.scope !in sv.scopes && WentThrough(sv, Post(d), ord, weather)
    ensures var after := Serve(sv, Post(d), ord, weather).sv;
            InSomeRelationship(after.rels, d.scope) ==> InSync(after, d.scope)
  {
    var s := d.scope;
    CreatePlanShape(sv.rels, d);
    var record := [AddStep(d)] + Lift(s, CreateEdits(d));
    if d.failover.Some? {
      var steps := record + SetupSteps(sv.rels, s, d.failover.value);
      assert CreatePlan(sv.rels, d) == steps + [Step(Replicate(s), Strict)];
      ReplicatedLast(sv, steps, s, weather);
    } else {
      assert CreatePlan(sv.rels, d) == record;
      RunConcat(sv, [AddStep(d)], Lift(s, CreateEdits(d)), weather);
      RunOne(sv, AddStep(d), weather);
      EditsPolite(Run(sv, [AddStep(d)], weather).sv, s, CreateEdits(d), LaterBy(weather, 1));
      assert !InSomeRelationship(sv.rels, s);
    }
  }

  /** Every request that goes through keeps all partner copies up to date. */
  lemma SuccessKeepsSynced(sv: State, req: Request, ord: Order, weather: seq<Weather>)
    requires Wf(sv) && ValidRequest(req) && Synced(sv) && WentThrough(sv, req, ord, weather)
    ensures Synced(Serve(sv, req, ord, weather).sv)
  {
    var s := Target(req);
    var after := Serve(sv, req, ord, weather).sv;
    SuccessSyncsTarget(sv, req, ord, weather);
    RequestsArePolite(sv, req, ord, weather);
    forall n, t | Member(after.rels, n, t)
      ensures InSync(after, t)
    {
      if t != s {
        assert Member(sv.rels, n, t);
        OtherRecordKept(sv, after, s, t);
      }
    }
  }

  /** Requests that go through, or are refused before any write. */
  ghost predicate NoneStopped(sv: State, events: seq<Event>)
    decreases |events|
  {
    events == [] ||
    (var e := events[0];
     && (WentThrough(sv, e.req, e.ord, e.weather) || Intent(sv, e.req, e.ord).None?)
     && NoneStopped(Serve(sv, e.req, e.ord, e.weather).sv, events[1..]))
  }

  /** Requests that all report success. */
  ghost predicate AllSucceed(sv: State, events: seq<Event>)
    decreases |events|
  {
    events == [] ||
    (var e := Serve(sv, events[0].req, events[0].ord, events[0].weather);
     e.ok && AllSucceed(e.sv, events[1..]))
  }

  /** Partner synchronisation over every history in which no run is stopped part way. */
  lemma {:induction false} HistoryKeepsSynced(sv: State, events: seq<Event>)
    requires Wf(sv) && Synced(sv) && ValidHistory(events) && NoneStopped(sv, events)
    ensures Synced(Replay(sv, events))
    decreases |events|
  {
    if events != [] {
      var e := Serve(sv, events[0].req, events[0].ord, events[0].weather);
      RequestsArePolite(sv, events[0].req, events[0].ord, events[0].weather);
      if WentThrough(sv, events[0].req, events[0].ord, events[0].weather) {
        SuccessKeepsSynced(sv, events[0].req, events[0].ord, events[0].weather);
      }
      HistoryKeepsSynced(e.sv, events[1..]);
    }
  }

  /* ---- Falling behind ---- */

  /** The writes of a PUT took effect but its replication did not. */
  ghost function Unreplicated(sv: State, d: Payload, ord: Order): State
    requires d.scope in sv.scopes && OwnParses(sv.rels, d.scope)
  {
    Finish(sv, DiffSteps(sv.rels, d.scope, Current(sv, d.scope), d, ord)).sv
  }

  /** Losing the replication call alone gets there. */
  lemma LostReplication(sv: State, d: Payload, ord: Order)
    requires Converges(sv, d, ord) && d.failover.Some? && FailoverInReach(sv.rels, d)
    requires Intent(sv, Put(d), ord) != Some([])
    ensures Serve(sv, Put(d), ord, LostAfter(|DiffSteps(sv.rels, d.scope, Current(sv, d.scope), d, ord)|)) ==
              Ending(Unreplicated(sv, d, ord), false)
    ensures Read(Unreplicated(sv, d, ord), d.scope) == Found(d)
    ensures Unreplicated(sv, d, ord).partner == sv.partner && Wf(Unreplicated(sv, d, ord))
  {
    var s, c := d.scope, Current(sv, d.scope);
    ReadIsPartial(sv, s);
    var diff := DiffSteps(sv.rels, s, c, d, ord);
    var plan := diff + [Step(Replicate(s), Strict)];
    assert diff == [] ==> ConvergePlan(sv.rels, s, c, d, ord) == [];
    var r' := ConvergeEnds(sv, d, ord);
    assert plan[..|diff|] == diff;
    LostStopsThere(sv, plan, |diff|);
    RequestsArePolite(sv, Put(d), ord, LostAfter(|diff|));
    var sv' := Unreplicated(sv, d, ord);
    ShownPayloadIsReadable(r', d);
    ReadIsPartial(sv', s);
    PassReachesDesired(sv, d);
  }

  /** From then on the same PUT finds no difference: in every weather it reports success, writes
      nothing and so never replicates, however often it is sent. */
  lemma {:induction false} NoDiffNeverReplicates(sv: State, d: Payload, events: seq<Event>)
    requires Wf(sv) && Valid(d) && Read(sv, d.scope) == Found(d)
    requires forall i :: 0 <= i < |events| ==> events[i].req == Put(d) && OrderFor(events[i].ord, d, d)
    ensures Replay(sv, events) == sv && NoneStopped(sv, events) && AllSucceed(sv, events)
    decreases |events|
  {
    if events != [] {
      ReadShowsNothingToDo(sv, d, events[0].ord);
      assert Serve(sv, events[0].req, events[0].ord, events[0].weather) == Ending(sv, true);
      NoDiffNeverReplicates(sv, d, events[1..]);
    }
  }

  /** What the lost replication leaves behind: the new record, the old copy, and a member. */
  lemma UnreplicatedIsStale(sv: State, d: Payload, ord: Order)
    requires Converges(sv, d, ord) && d.failover.Some?
    ensures var after := Unreplicated(sv, d, ord);
            && d.scope in after.scopes && Shows(after.scopes[d.scope], d) && InSomeRelationship(after.rels, d.scope)
            && (Shows(sv.scopes[d.scope], d) ==> after.scopes[d.scope] == sv.scopes[d.scope])
  {
    var s, c := d.scope, Current(sv, d.scope);
    ReadIsPartial(sv, s);
    var r' := ConvergeEnds(sv, d, ord);
    var edits := RecordPlan(c, d, ord);
    if Shows(sv.scopes[s], d) {
      NothingToDo(s, sv.scopes[s], c, d, ord);
      var failover := FailoverSteps(sv.rels, s, c.failover, d.failover);
      assert Lift(s, edits) == [] && [] + failover == failover;
      FailoverStepsShape(sv.rels, s, c.failover, d.failover);
      FailoverRunKeepsRecords(sv, failover, []);
    }
  }

  /** One lost replication, then any number of PUTs of the same payload in any weather: they all
      succeed, GET shows what was asked for, and a copy that was up to date before is up to date
      now exactly if the record itself did not change. */
  lemma StaleUntilARealChange(sv: State, d: Payload, ord: Order, events: seq<Event>)
    requires Converges(sv, d, ord) && d.failover.Some? && FailoverInReach(sv.rels, d)
    requires Intent(sv, Put(d), ord) != Some([]) && InSync(sv, d.scope)
    requires forall i :: 0 <= i < |events| ==> events[i].req == Put(d) && OrderFor(events[i].ord, d, d)
    ensures var lost := LostAfter(|DiffSteps(sv.rels, d.scope, Current(sv, d.scope), d, ord)|);
            var after := Serve(sv, Put(d), ord, lost).sv;
            var end := Replay(after, events);
            && NoneStopped(after, events) && AllSucceed(after, events) && Read(end, d.scope) == Found(d)
            && (InSync(end, d.scope) <==> Shows(sv.scopes[d.scope], d))
  {
    LostReplication(sv, d, ord);
    UnreplicatedIsStale(sv, d, ord);
    NoDiffNeverReplicates(Unreplicated(sv, d, ord), d, events);
  }

  /** So a server whose copies are all up to date stops being one, for as long as nothing real
      changes: exactly when the PUT whose replication was lost changed the record of a member. */
  lemma SyncIsLost(sv: State, d: Payload, ord: Order, events: seq<Event>)
    requires Converges(sv, d, ord) && d.failover.Some? && FailoverInReach(sv.rels, d)
    requires Intent(sv, Put(d), ord) != Some([]) && Synced(sv) && InSomeRelationship(sv.rels, d.scope)
    requires forall i :: 0 <= i < |events| ==> events[i].req == Put(d) && OrderFor(events[i].ord, d, d)
    ensures var lost := LostAfter(|DiffSteps(sv.rels, d.scope, Current(sv, d.scope), d, ord)|);
            var after := Serve(sv, Put(d), ord, lost).sv;
            NoneStopped(after, events) && (Synced(Replay(after, events)) <==> Shows(sv.scopes[d.scope], d))
  {
    var s := d.scope;
    var lost := LostAfter(|DiffSteps(sv.rels, s, Current(sv, s), d, ord)|);
    var after := Serve(sv, Put(d), ord, lost).sv;
    var end := Replay(after, events);
    SyncedMember(sv, s);
    StaleUntilARealChange(sv, d, ord, events);
    LostReplication(sv, d, ord);
    UnreplicatedIsStale(sv, d, ord);
    NoDiffNeverReplicates(after, d, events);
    if Synced(end) {
      SyncedMember(end, s);
    }
    if InSync(end, s) {
      OthersStaySynced(sv, d, ord, lost);
    }
  }

  /** A run, stopped or not, leaves the copies of all other members up to date. */
  lemma OthersStaySynced(sv: State, d: Payload, ord: Order, weather: seq<Weather>)
    requires Wf(sv) && Valid(d) && Synced(sv) && InSync(Serve(sv, Put(d), ord, weather).sv, d.scope)
    ensures Synced(Serve(sv, Put(d), ord, weather).sv)
  {
    var after := Serve(sv, Put(d), ord, weather).sv;
    RequestsArePolite(sv, Put(d), ord, weather);
    forall n, t | Member(after.rels, n, t)
      ensures InSync(after, t)
    {
      if t != d.scope {
        assert Member(sv.rels, n, t);
        OtherRecordKept(sv, after, d.scope, t);
      }
    }
  }

  /** Replication need not fail for this: a last write that takes effect but is reported as failed
      stops the run before replication is tried, and leaves the same state. */
  lemma UnackedWriteSkipsReplication(sv: State, d: Payload, ord: Order) returns (weather: seq<Weather>)
    requires Converges(sv, d, ord) && d.failover.Some?
    requires Intent(sv, Put(d), ord) != Some([])
    ensures Serve(sv, Put(d), ord, weather) == Ending(Unreplicated(sv, d, ord), false)
    ensures Lost !in weather
  {
    hide RecordPlan, FailoverSteps, UnackedAfter, OrderFor, AfterFailover;
    var s, c := d.scope, Current(sv, d.scope);
    ReadIsPartial(sv, s);
    var diff := DiffSteps(sv.rels, s, c, d, ord);
    assert diff == [] ==> ConvergePlan(sv.rels, s, c, d, ord) == [];
    assert Finish(sv, diff).ok by {
      var r' := ConvergeEnds(sv, d, ord);
    }
    DiffIsResolute(sv.rels, s, c, d, ord);
    var n := |diff| - 1;
    UnackedLast(sv, diff, [Step(Replicate(s), Strict)]);
    UnackedIsNotLost(n);
    weather := UnackedAfter(n);
  }

  lemma DiffIsResolute(rels: Relationships, s: Ip, c: Payload, d: Payload, ord: Order)
    ensures Resolute(DiffSteps(rels, s, c, d, ord))
  {
    FailoverStepsShape(rels, s, c.failover, d.failover);
    RecordPlanIsResolute(c, d, ord);
  }

  lemma UnackedLast(sv: State, steps: seq<Step>, rest: seq<Step>)
    requires steps != [] && Resolute(steps) && Finish(sv, steps).ok
    ensures Run(sv, steps + rest, UnackedAfter(|steps| - 1)) == Ending(Finish(sv, steps).sv, false)
  {
    var n := |steps| - 1;
    assert steps == steps[..n] + [steps[n]];
    FinishConcat(sv, steps[..n], [steps[n]]);
    FinishOne(Finish(sv, steps[..n]).sv, steps[n]);
    assert (steps + rest)[..n] == steps[..n] && (steps + rest)[n] == steps[n];
    UnackedStopsThere(sv, steps + rest, n);
  }

  function UnackedAfter(k: nat): seq<Weather> {
    if k == 0 then [Unacked] else [Fine] + UnackedAfter(k - 1)
  }

  lemma {:induction false} UnackedIsNotLost(k: nat)
    ensures Lost !in UnackedAfter(k)
  {
    if k > 0 {
      UnackedIsNotLost(k - 1);
    }
  }

  lemma {:induction false} UnackedStopsThere(sv: State, steps: seq<Step>, k: nat)
    requires k < |steps| && !steps[k].tolerance.Anything? && Finish(sv, steps[..k]).ok
    ensures var e := Finish(sv, steps[..k]);
            Run(sv, steps, UnackedAfter(k)) == Ending(Attempt(e.sv, steps[k], Fine).sv, false)
    decreases k
  {
    if k > 0 {
      assert steps[..k][0] == steps[0] && steps[..k][1..] == steps[1..][..k - 1];
      assert UnackedAfter(k)[0] == Fine && UnackedAfter(k)[1..] == UnackedAfter(k - 1);
      UnackedStopsThere(Attempt(sv, steps[0], Fine).sv, steps[1..], k - 1);
    }
  }
}
