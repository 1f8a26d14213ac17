/** Runs that stop part way: exactly when every stop leaves a record the next request can read,
    and what a rerun then makes of it. */
module CrashSafety {
  import opened Common
  import opened Addresses
  import opened Exclusions
  import opened ScopeModel
  import opened RangeTransition
  import opened Server
  import opened Reading
  import opened Plans
  import opened Convergence

  /** A caller can check this before the update: the PXE pair is neither added nor removed, the
      current gateway stays unexposed while the range passes through the hull of both ranges, and
      the desired one while only the exclusions common to both sides are in place. */
  ghost predicate SafeUpdate(c: Payload, d: Payload) {
    && (c.nextServer == "" <==> d.nextServer == "")
    && !GatewayExposed(c.gateway, Hull(c.range, d.range), ToSet(c.exclusions))
    && !GatewayExposed(d.gateway, d.range, ToSet(c.exclusions) * ToSet(d.exclusions))
  }

  /** The same condition on the record `c` was read from. */
  ghost predicate SafeRecord(r: Record, d: Payload) {
    && (Text(r.bootServer) == "" <==> d.nextServer == "")
    && !GatewayExposed(r.router, Hull(r.range, d.range), r.exclusions)
    && !GatewayExposed(d.gateway, d.range, r.exclusions * ToSet(d.exclusions))
  }

  lemma SafeRecordIsSafeUpdate(s: Ip, r: Record, failover: Option<Failover>, d: Payload)
    ensures SafeRecord(r, d) <==> SafeUpdate(Observed(s, r, failover), d)
  {
    ObservedExclusions(r, s, failover);
  }

  /** A record a later converge to `d` can read, and can again be stopped on anywhere. */
  ghost predicate Repairable(s: Ip, r: Record, d: Payload) {
    Readable(s, r) && r.mask == d.mask && SafeRecord(r, d)
  }

  /** Every stop of the steps is repairable (and every step is accepted). */
  ghost predicate Throughout(s: Ip, r: Record, steps: seq<EditStep>, d: Payload)
    decreases |steps|
  {
    Repairable(s, r, d) &&
    (steps == [] || (EditOnce(r, steps[0]).Ok? && Throughout(s, EditOnce(r, steps[0]).value, steps[1..], d)))
  }

  lemma {:induction false} ThroughoutConcat(s: Ip, r: Record, a: seq<EditStep>, b: seq<EditStep>, d: Payload)
    requires Throughout(s, r, a, d) && EditAll(r, a).Some?
    requires Throughout(s, EditAll(r, a).value, b, d)
    ensures Throughout(s, r, a + b, d)
    decreases |a|
  {
    if a == [] {
      assert a + b == b;
    } else {
      assert (a + b)[0] == a[0] && (a + b)[1..] == a[1..] + b;
      ThroughoutConcat(s, EditOnce(r, a[0]).value, a[1..], b, d);
    }
  }

  lemma {:induction false} ThroughoutMeansEveryStop(s: Ip, r: Record, steps: seq<EditStep>, d: Payload, k: nat)
    requires Throughout(s, r, steps, d) && k <= |steps|
    ensures EditAll(r, steps[..k]).Some? && Repairable(s, EditAll(r, steps[..k]).value, d)
    decreases k
  {
    if k > 0 {
      assert steps[..k][0] == steps[0] && steps[..k][1..] == steps[1..][..k - 1];
      ThroughoutMeansEveryStop(s, EditOnce(r, steps[0]).value, steps[1..], d, k - 1);
    }
  }

  lemma EndIsRepairable(s: Ip, r: Record, steps: seq<EditStep>, d: Payload)
    requires Throughout(s, r, steps, d)
    ensures EditAll(r, steps).Some? && Repairable(s, EditAll(r, steps).value, d)
  {
    ThroughoutMeansEveryStop(s, r, steps, d, |steps|);
    assert steps[..|steps|] == steps;
  }

  lemma ThroughoutShort(s: Ip, r: Record, steps: seq<EditStep>, d: Payload)
    requires Repairable(s, r, d) && |steps| <= 2
    requires |steps| >= 1 ==> EditOnce(r, steps[0]).Ok? && Repairable(s, EditOnce(r, steps[0]).value, d)
    requires |steps| == 2 ==>
               var r' := EditOnce(r, steps[0]).value;
               EditOnce(r', steps[1]).Ok? && Repairable(s, EditOnce(r', steps[1]).value, d)
    ensures Throughout(s, r, steps, d)
  {
    if |steps| == 1 {
      assert steps[1..] == [];
    } else if |steps| == 2 {
      assert steps[1..][0] == steps[1] && steps[1..][1..] == [];
    }
  }

  /* ---- Each phase ---- */

  lemma RangePhaseSafe(s: Ip, r: Record, c: Payload, d: Payload)
    requires Repairable(s, r, d) && c.range == r.range && Valid(d) && d.scope == s
    ensures Throughout(s, r, RangePhase(c, d), d)
  {
    var hull := Hull(r.range, d.range);
    assert Hull(hull, d.range) == hull && Hull(d.range, d.range) == d.range;
    ThroughoutShort(s, r, RangePhase(c, d), d);
  }

  lemma ParamPhaseSafe(s: Ip, r: Record, c: Payload, d: Payload)
    requires Repairable(s, r, d) && Valid(d)
    ensures Throughout(s, r, ParamPhase(c, d), d)
  {
    ThroughoutShort(s, r, ParamPhase(c, d), d);
  }

  lemma CoverageGrows(gateway: Option<Ip>, range: Range, some: set<Range>, more: set<Range>)
    requires some <= more && !GatewayExposed(gateway, range, some)
    ensures !GatewayExposed(gateway, range, more)
  {
  }

  lemma OptionPhaseSafe(s: Ip, r: Record, c: Payload, d: Payload)
    requires Repairable(s, r, d) && Valid(d) && d.scope == s && r.range == d.range && c.gateway == r.router
    ensures Throughout(s, r, OptionPhase(c, d), d)
  {
    assert Hull(d.range, d.range) == d.range;
    CoverageGrows(d.gateway, d.range, r.exclusions * ToSet(d.exclusions), r.exclusions);
    ThroughoutShort(s, r, OptionPhase(c, d), d);
  }

  lemma BootPhaseSafe(s: Ip, r: Record, c: Payload, d: Payload)
    requires Repairable(s, r, d) && Valid(d)
    requires c.nextServer == Text(r.bootServer) && c.bootFile == Text(r.bootFile)
    ensures Throughout(s, r, BootPhase(c, d), d)
  {
    ThroughoutShort(s, r, BootPhase(c, d), d);
  }

  /** Range and gateway already as desired. */
  ghost predicate Routed(r: Record, d: Payload) {
    r.range == d.range && r.router == d.gateway
  }

  /** With range and gateway in place, any exclusions between the common and the joint set do. */
  lemma ExclusionsBetween(s: Ip, r: Record, holes: set<Range>, d: Payload)
    requires Repairable(s, r, d) && Valid(d) && d.scope == s && Routed(r, d)
    requires r.exclusions * ToSet(d.exclusions) <= holes <= r.exclusions || r.exclusions <= holes <= ToSet(d.exclusions)
    ensures Repairable(s, r.(exclusions := holes), d)
  {
    AscendingIsDisjoint(d.exclusions);
    assert Hull(d.range, d.range) == d.range;
    CoverageGrows(d.gateway, d.range, r.exclusions * ToSet(d.exclusions), holes * ToSet(d.exclusions));
    CoverageGrows(d.gateway, d.range, r.exclusions * ToSet(d.exclusions), holes);
  }

  lemma {:induction false} RemovalsSafe(s: Ip, r: Record, xs: seq<Range>, d: Payload)
    requires Repairable(s, r, d) && Valid(d) && d.scope == s && Routed(r, d)
    requires forall i, j :: 0 <= i < j < |xs| ==> xs[i] != xs[j]
    requires ToSet(xs) <= r.exclusions && ToSet(xs) !! ToSet(d.exclusions)
    ensures Throughout(s, r, Removals(xs, Strict), d)
    decreases |xs|
  {
    if xs != [] {
      HeadOfDistinct(xs);
      ExclusionsBetween(s, r, r.exclusions - {xs[0]}, d);
      assert Removals(xs, Strict)[1..] == Removals(xs[1..], Strict);
      RemovalsSafe(s, r.(exclusions := r.exclusions - {xs[0]}), xs[1..], d);
    }
  }

  lemma {:induction false} AdditionsSafe(s: Ip, r: Record, xs: seq<Range>, d: Payload)
    requires Repairable(s, r, d) && Valid(d) && d.scope == s && Routed(r, d)
    requires forall i, j :: 0 <= i < j < |xs| ==> xs[i] != xs[j]
    requires r.exclusions + ToSet(xs) <= ToSet(d.exclusions) && ToSet(xs) !! r.exclusions
    ensures Throughout(s, r, Additions(xs, Strict), d)
    decreases |xs|
  {
    if xs != [] {
      HeadOfDistinct(xs);
      AscendingIsDisjoint(d.exclusions);
      ExclusionsBetween(s, r, r.exclusions + {xs[0]}, d);
      assert EditRecord(r, AddExclusion(xs[0])) == Ok(r.(exclusions := r.exclusions + {xs[0]}));
      assert Additions(xs, Strict)[1..] == Additions(xs[1..], Strict);
      AdditionsSafe(s, r.(exclusions := r.exclusions + {xs[0]}), xs[1..], d);
    }
  }

  lemma RangeAndParamsSafe(s: Ip, r: Record, c: Payload, d: Payload) returns (r': Record)
    requires Repairable(s, r, d) && Valid(d) && d.scope == s && c == Observed(s, r, c.failover)
    ensures Throughout(s, r, RangePhase(c, d) + ParamPhase(c, d), d)
    ensures EditAll(r, RangePhase(c, d) + ParamPhase(c, d)) == Some(r')
    ensures r' == r.(range := d.range, name := d.scopeName, lease := d.lease, description := d.description)
  {
    RangePhaseSafe(s, r, c, d);
    RangePhaseEnds(r, c, d);
    EndIsRepairable(s, r, RangePhase(c, d), d);
    var r1 := r.(range := d.range);
    ParamPhaseSafe(s, r1, c, d);
    ParamPhaseEnds(r1, c, d);
    ThroughoutConcat(s, r, RangePhase(c, d), ParamPhase(c, d), d);
    EditConcat(r, RangePhase(c, d), ParamPhase(c, d));
    r' := r1.(name := d.scopeName, lease := d.lease, description := d.description);
  }

  lemma EarlyPhasesSafe(s: Ip, r: Record, c: Payload, d: Payload, ord: Order)
    requires Comparable(s, r, c, d, ord) && Repairable(s, r, d)
    ensures Throughout(s, r, EarlyPhases(c, d), d)
  {
    var a := RangePhase(c, d) + ParamPhase(c, d);
    var r2 := RangeAndParamsSafe(s, r, c, d);
    EndIsRepairable(s, r, a, d);
    OptionPhaseSafe(s, r2, c, d);
    ThroughoutConcat(s, r, a, OptionPhase(c, d), d);
    EndIsRepairable(s, r, a + OptionPhase(c, d), d);
    var r3 := PhasesBeforeBoot(s, r, c, d);
    BootPhaseSafe(s, r3, c, d);
    ThroughoutConcat(s, r, a + OptionPhase(c, d), BootPhase(c, d), d);
  }

  lemma LatePhasesSafe(s: Ip, r: Record, c: Payload, d: Payload, ord: Order)
    requires Repairable(s, r, d) && Valid(d) && d.scope == s && Routed(r, d)
    requires ToSet(c.exclusions) == r.exclusions && OrderFor(ord, c, d)
    ensures Throughout(s, r, Removals(ord.removals, Strict) + Additions(ord.additions, Strict), d)
  {
    var minus, plus := Removals(ord.removals, Strict), Additions(ord.additions, Strict);
    RemovalsSafe(s, r, ord.removals, d);
    RemovalsEnd(r, ord.removals, Strict);
    var r' := r.(exclusions := r.exclusions - ToSet(ord.removals));
    EndIsRepairable(s, r, minus, d);
    AdditionsSafe(s, r', ord.additions, d);
    ThroughoutConcat(s, r, minus, plus, d);
  }

  lemma SafeUpdateHoldsThroughout(s: Ip, r: Record, c: Payload, d: Payload, ord: Order)
    requires Comparable(s, r, c, d, ord) && SafeUpdate(c, d)
    ensures Throughout(s, r, RecordPlan(c, d, ord), d)
  {
    ObservedExclusions(r, s, c.failover);
    var early := EarlyPhases(c, d);
    var late := Removals(ord.removals, Strict) + Additions(ord.additions, Strict);
    EarlyPhasesSafe(s, r, c, d, ord);
    var r' := EarlyPhasesEnd(s, r, c, d, ord);
    EndIsRepairable(s, r, early, d);
    LatePhasesSafe(s, r', c, d, ord);
    ThroughoutConcat(s, r, early, late, d);
    RecordPlanSplit(c, d, ord);
  }

  /* ---- The stops that brick the record ---- */

  /** The record after the first k steps of a plan. */
  function StopAt(r: Record, steps: seq<EditStep>, k: nat): Option<Record>
    requires k <= |steps|
  {
    EditAll(r, steps[..k])
  }

  ghost predicate UnreadableStop(s: Ip, r: Record, steps: seq<EditStep>, k: nat) {
    k <= |steps| && StopAt(r, steps, k).Some? && !Readable(s, StopAt(r, steps, k).value)
  }

  /** An unreadable stop inside the second of three parts of a plan. */
  lemma UnreadableInside(s: Ip, r: Record, plan: seq<EditStep>, a: seq<EditStep>, b: seq<EditStep>,
                         rest: seq<EditStep>, mid: Record, k: nat)
    requires plan == a + b + rest && k <= |b| && EditAll(r, a) == Some(mid)
    requires EditAll(mid, b[..k]).Some? && !Readable(s, EditAll(mid, b[..k]).value)
    ensures UnreadableStop(s, r, plan, |a| + k)
  {
    assert plan[..|a| + k] == a + b[..k];
    EditConcat(r, a, b[..k]);
  }

  /** Passing through the hull exposes the current gateway. */
  lemma HullStop(s: Ip, r: Record, c: Payload, d: Payload, ord: Order) returns (k: nat)
    requires Comparable(s, r, c, d, ord)
    requires GatewayExposed(c.gateway, Hull(c.range, d.range), ToSet(c.exclusions))
    ensures UnreadableStop(s, r, RecordPlan(c, d, ord), k)
  {
    ObservedExclusions(r, s, c.failover);
    k := 1;
    var plan := RecordPlan(c, d, ord);
    assert RangePhase(c, d)[0].edit == SetRange(Hull(c.range, d.range));
    assert plan[0] == RangePhase(c, d)[0];
    EditTwo(r, plan[..1]);
  }

  /** Between the two option writes half a PXE pair is set. */
  lemma HalfPairStop(s: Ip, r: Record, c: Payload, d: Payload, ord: Order) returns (k: nat)
    requires Comparable(s, r, c, d, ord)
    requires (c.nextServer == "") != (d.nextServer == "")
    ensures UnreadableStop(s, r, RecordPlan(c, d, ord), k)
  {
    var a := RangePhase(c, d) + ParamPhase(c, d) + OptionPhase(c, d);
    var rest := Removals(ord.removals, Strict) + Additions(ord.additions, Strict);
    var mid := PhasesBeforeBoot(s, r, c, d);
    HalfPair(s, mid, c, d);
    PlanAroundBoot(c, d, ord);
    UnreadableInside(s, r, RecordPlan(c, d, ord), a, BootPhase(c, d), rest, mid, 1);
    k := |a| + 1;
  }

  lemma PlanAroundBoot(c: Payload, d: Payload, ord: Order)
    ensures RecordPlan(c, d, ord) ==
              (RangePhase(c, d) + ParamPhase(c, d) + OptionPhase(c, d)) + BootPhase(c, d)
              + (Removals(ord.removals, Strict) + Additions(ord.additions, Strict))
  {
  }

  lemma HalfPair(s: Ip, r: Record, c: Payload, d: Payload)
    requires c.nextServer == Text(r.bootServer) && c.bootFile == Text(r.bootFile)
    requires PxePaired(c.nextServer, c.bootFile) && PxePaired(d.nextServer, d.bootFile)
    requires (c.nextServer == "") != (d.nextServer == "")
    ensures |BootPhase(c, d)| == 2
    ensures EditAll(r, BootPhase(c, d)[..1]).Some? && !Readable(s, EditAll(r, BootPhase(c, d)[..1]).value)
  {
    EditTwo(r, BootPhase(c, d)[..1]);
  }

  /** After the removals only the common exclusions protect the desired gateway. */
  lemma BareGatewayStop(s: Ip, r: Record, c: Payload, d: Payload, ord: Order) returns (k: nat)
    requires Comparable(s, r, c, d, ord)
    requires GatewayExposed(d.gateway, d.range, ToSet(c.exclusions) * ToSet(d.exclusions))
    ensures UnreadableStop(s, r, RecordPlan(c, d, ord), k)
  {
    ObservedExclusions(r, s, c.failover);
    var a := EarlyPhases(c, d);
    var b := Removals(ord.removals, Strict);
    var rest := Additions(ord.additions, Strict);
    var r4 := EarlyPhasesEnd(s, r, c, d, ord);
    RemovalsEnd(r4, ord.removals, Strict);
    assert r4.exclusions - ToSet(ord.removals) == ToSet(c.exclusions) * ToSet(d.exclusions);
    assert b[..|b|] == b;
    assert a + b + rest == RecordPlan(c, d, ord);
    UnreadableInside(s, r, RecordPlan(c, d, ord), a, b, rest, r4, |b|);
    k := |a| + |b|;
  }

  /** Every stop of a converge run leaves a readable record exactly when the update is safe. */
  lemma EveryStopReadableIffSafe(s: Ip, r: Record, c: Payload, d: Payload, ord: Order)
    requires Comparable(s, r, c, d, ord)
    ensures SafeUpdate(c, d) <==> !exists k :: UnreadableStop(s, r, RecordPlan(c, d, ord), k)
  {
    if SafeUpdate(c, d) {
      SafeUpdateHoldsThroughout(s, r, c, d, ord);
      forall k: nat | k <= |RecordPlan(c, d, ord)|
        ensures !UnreadableStop(s, r, RecordPlan(c, d, ord), k)
      {
        ThroughoutMeansEveryStop(s, r, RecordPlan(c, d, ord), d, k);
      }
    } else if (c.nextServer == "") != (d.nextServer == "") {
      var k := HalfPairStop(s, r, c, d, ord);
    } else if GatewayExposed(c.gateway, Hull(c.range, d.range), ToSet(c.exclusions)) {
      var k := HullStop(s, r, c, d, ord);
    } else {
      var k := BareGatewayStop(s, r, c, d, ord);
    }
  }
}
