/** The record part of a converge run: where it ends, and which of its stops can be read back. */
module Convergence {
  import opened Common
  import opened Addresses
  import opened Exclusions
  import opened ScopeModel
  import opened RangeTransition
  import opened Server
  import opened Reading
  import opened Plans

  /* ---- Where each phase ends ---- */

  lemma EditTwo(r: Record, steps: seq<EditStep>)
    ensures |steps| == 1 ==>
              EditAll(r, steps) == (match EditOnce(r, steps[0]) { case Ok(r') => Some(r') case Err(_) => None })
    ensures |steps| == 2 ==>
              EditAll(r, steps) == (match EditOnce(r, steps[0]) {
                                      case Ok(r') => EditAll(r', [steps[1]])
                                      case Err(_) => None
                                    })
  {
    if |steps| == 1 {
      assert steps[1..] == [];
    } else if |steps| == 2 {
      assert steps[1..] == [steps[1]];
    }
  }

  lemma RangePhaseEnds(r: Record, c: Payload, d: Payload)
    requires c.range == r.range
    ensures EditAll(r, RangePhase(c, d)) == Some(r.(range := d.range))
  {
    EditTwo(r, RangePhase(c, d));
    if |RangePhase(c, d)| == 2 {
      EditTwo(r.(range := Hull(c.range, d.range)), [RangePhase(c, d)[1]]);
    }
  }

  lemma ParamPhaseEnds(r: Record, c: Payload, d: Payload)
    requires c.scopeName == r.name && c.lease == r.lease && c.description == r.description
    ensures EditAll(r, ParamPhase(c, d)) ==
              Some(r.(name := d.scopeName, lease := d.lease, description := d.description))
  {
    EditTwo(r, ParamPhase(c, d));
  }

  lemma OptionPhaseEnds(r: Record, c: Payload, d: Payload) returns (r': Record)
    requires c.dns == r.dns && c.domain == Text(r.domain) && c.gateway == r.router
    ensures EditAll(r, OptionPhase(c, d)) == Some(r')
    ensures r' == r.(dns := d.dns, domain := r'.domain, router := d.gateway)
    ensures Text(r'.domain) == d.domain
  {
    var steps := OptionPhase(c, d);
    EditTwo(r, steps);
    if |steps| == 2 {
      EditTwo(EditOnce(r, steps[0]).value, [steps[1]]);
    }
    r' := EditAll(r, steps).value;
  }

  lemma BootPhaseEnds(r: Record, c: Payload, d: Payload) returns (r': Record)
    requires c.nextServer == Text(r.bootServer) && c.bootFile == Text(r.bootFile)
    requires PxePaired(d.nextServer, d.bootFile)
    ensures EditAll(r, BootPhase(c, d)) == Some(r')
    ensures r' == r.(bootServer := r'.bootServer, bootFile := r'.bootFile)
    ensures Text(r'.bootServer) == d.nextServer && Text(r'.bootFile) == d.bootFile
  {
    var steps := BootPhase(c, d);
    EditTwo(r, steps);
    if |steps| == 2 {
      EditTwo(EditOnce(r, steps[0]).value, [steps[1]]);
    }
    r' := EditAll(r, steps).value;
  }

  lemma {:induction false} RemovalsEnd(r: Record, xs: seq<Range>, t: Tolerance)
    requires forall i, j :: 0 <= i < j < |xs| ==> xs[i] != xs[j]
    requires ToSet(xs) <= r.exclusions
    ensures EditAll(r, Removals(xs, t)) == Some(r.(exclusions := r.exclusions - ToSet(xs)))
    decreases |xs|
  {
    if xs == [] {
      assert r.exclusions - ToSet(xs) == r.exclusions;
    } else {
      HeadOfDistinct(xs);
      var r' := r.(exclusions := r.exclusions - {xs[0]});
      assert Removals(xs, t)[1..] == Removals(xs[1..], t);
      RemovalsEnd(r', xs[1..], t);
      assert r'.exclusions - ToSet(xs[1..]) == r.exclusions - ToSet(xs);
    }
  }

  lemma HeadOfDistinct(xs: seq<Range>)
    requires xs != [] && forall i, j :: 0 <= i < j < |xs| ==> xs[i] != xs[j]
    ensures xs[0] in ToSet(xs) && xs[0] !in ToSet(xs[1..])
    ensures ToSet(xs) == {xs[0]} + ToSet(xs[1..])
  {
    assert xs == [xs[0]] + xs[1..];
  }

  lemma {:induction false} AdditionsEnd(r: Record, xs: seq<Range>, t: Tolerance)
    requires forall i, j :: 0 <= i < j < |xs| ==> xs[i] != xs[j]
    requires ToSet(xs) !! r.exclusions && PairwiseDisjoint(r.exclusions + ToSet(xs))
    ensures EditAll(r, Additions(xs, t)) == Some(r.(exclusions := r.exclusions + ToSet(xs)))
    decreases |xs|
  {
    if xs == [] {
      assert r.exclusions + ToSet(xs) == r.exclusions;
    } else {
      HeadOfDistinct(xs);
      var r' := r.(exclusions := r.exclusions + {xs[0]});
      assert EditRecord(r, AddExclusion(xs[0])) == Ok(r');
      assert Additions(xs, t)[1..] == Additions(xs[1..], t);
      assert r'.exclusions + ToSet(xs[1..]) == r.exclusions + ToSet(xs);
      AdditionsEnd(r', xs[1..], t);
    }
  }

  /** The edit is among the steps. */
  predicate Issues(steps: seq<EditStep>, e: Edit) {
    exists i :: 0 <= i < |steps| && steps[i].edit == e
  }

  /** An option is removed exactly if it was read and is not desired. */
  lemma OptionsRemovedIffDropped(c: Payload, d: Payload, ord: Order)
    requires Valid(c) && Valid(d)
    ensures Issues(RecordPlan(c, d, ord), RemoveOption(Router)) <==> c.gateway.Some? && d.gateway.None?
    ensures Issues(RecordPlan(c, d, ord), RemoveOption(BootServer)) <==> c.nextServer != "" && d.nextServer == ""
    ensures Issues(RecordPlan(c, d, ord), RemoveOption(BootFile)) <==> c.bootFile != "" && d.bootFile == ""
  {
    hide Valid, FitsSubnet;
    PxeOfValid(c);
    PxeOfValid(d);
    var a, b, e, f := RangePhase(c, d), ParamPhase(c, d), OptionPhase(c, d), BootPhase(c, d);
    var g, h := Removals(ord.removals, Strict), Additions(ord.additions, Strict);
    forall id: OptionId
      ensures Issues(RecordPlan(c, d, ord), RemoveOption(id)) <==>
                Issues(e, RemoveOption(id)) || Issues(f, RemoveOption(id))
    {
      IssuesOfSum(a + b + e + f + g, h, RemoveOption(id));
      IssuesOfSum(a + b + e + f, g, RemoveOption(id));
      IssuesOfSum(a + b + e, f, RemoveOption(id));
      IssuesOfSum(a + b, e, RemoveOption(id));
      IssuesOfSum(a, b, RemoveOption(id));
    }
    OptionRemovals(c, d);
  }

  lemma PxeOfValid(p: Payload)
    requires Valid(p)
    ensures p.nextServer == "" <==> p.bootFile == ""
  {
  }

  lemma IssuesOfSum(a: seq<EditStep>, b: seq<EditStep>, e: Edit)
    ensures Issues(a + b, e) <==> Issues(a, e) || Issues(b, e)
  {
    if i :| 0 <= i < |a| && a[i].edit == e {
      assert (a + b)[i].edit == e;
    }
    if i :| 0 <= i < |b| && b[i].edit == e {
      assert (a + b)[|a| + i].edit == e;
    }
  }

  lemma OptionRemovals(c: Payload, d: Payload)
    requires (c.nextServer == "" <==> c.bootFile == "") && (d.nextServer == "" <==> d.bootFile == "")
    ensures Issues(OptionPhase(c, d), RemoveOption(Router)) <==> c.gateway.Some? && d.gateway.None?
    ensures forall id: OptionId :: !id.Router? ==> !Issues(OptionPhase(c, d), RemoveOption(id))
    ensures !Issues(BootPhase(c, d), RemoveOption(Router))
    ensures forall id: OptionId :: !id.Router? ==>
              (Issues(BootPhase(c, d), RemoveOption(id)) <==> c.nextServer != "" && d.nextServer == "")
  {
    if c.gateway.Some? && d.gateway.None? {
      assert OptionPhase(c, d)[1].edit == RemoveOption(Router);
    }
    if c.nextServer != "" && d.nextServer == "" {
      assert BootPhase(c, d)[0].edit == RemoveOption(BootServer) && BootPhase(c, d)[1].edit == RemoveOption(BootFile);
    }
  }

  /** A gateway is dropped last: the plan has a stop with the new resolvers and the old router. */
  lemma RouterStop(s: Ip, r: Record, c: Payload, d: Payload, ord: Order) returns (k: nat)
    requires Comparable(s, r, c, d, ord) && c.gateway.Some? && d.gateway.None?
    ensures k < |RecordPlan(c, d, ord)| && RecordPlan(c, d, ord)[k].edit == RemoveOption(Router)
    ensures EditAll(r, RecordPlan(c, d, ord)[..k]) ==
              Some(r.(range := d.range, name := d.scopeName, lease := d.lease, description := d.description,
                      dns := d.dns, domain := Some(d.domain)))
  {
    hide RangePhase, ParamPhase, OptionPhase, BootPhase, EditAll;
    var a, b, e := RangePhase(c, d), ParamPhase(c, d), OptionPhase(c, d);
    RangePhaseEnds(r, c, d);
    ParamPhaseEnds(r.(range := d.range), c, d);
    EditConcat(r, a, b);
    DroppingPhase(EditAll(r, a + b).value, c, d);
    EditConcat(r, a + b, [e[0]]);
    k := |a + b| + 1;
    var plan := RecordPlan(c, d, ord);
    var rest := BootPhase(c, d) + Removals(ord.removals, Strict) + Additions(ord.additions, Strict);
    assert plan == (a + b) + (e + rest);
    assert plan[..k] == (a + b) + [e[0]];
    assert plan[k] == e[1];
  }

  lemma DroppingPhase(r: Record, c: Payload, d: Payload)
    requires c.gateway.Some? && d.gateway.None?
    ensures |OptionPhase(c, d)| == 2 && OptionPhase(c, d)[1].edit == RemoveOption(Router)
    ensures EditAll(r, [OptionPhase(c, d)[0]]) == Some(r.(dns := d.dns, domain := Some(d.domain)))
  {
    EditTwo(r, [OptionPhase(c, d)[0]]);
  }

  /** What the source's comparison of current and desired amounts to for a readable record. */
  ghost predicate Comparable(s: Ip, r: Record, c: Payload, d: Payload, ord: Order) {
    && d.scope == s && r.mask == d.mask
    && c == Observed(s, r, c.failover)
    && Readable(s, r) && Valid(d)
    && OrderFor(ord, c, d)
  }

  lemma ObservedExclusions(r: Record, s: Ip, failover: Option<Failover>)
    ensures ToSet(Observed(s, r, failover).exclusions) == r.exclusions
  {
    EnumerateKeepsElements(r.exclusions);
  }

  /** The record phases up to and including the boot options. */
  function EarlyPhases(c: Payload, d: Payload): seq<EditStep> {
    RangePhase(c, d) + ParamPhase(c, d) + OptionPhase(c, d) + BootPhase(c, d)
  }

  lemma PhasesBeforeBoot(s: Ip, r: Record, c: Payload, d: Payload) returns (r': Record)
    requires c == Observed(s, r, c.failover)
    ensures EditAll(r, RangePhase(c, d) + ParamPhase(c, d) + OptionPhase(c, d)) == Some(r')
    ensures r' == r.(range := d.range, name := d.scopeName, lease := d.lease, description := d.description,
                     dns := d.dns, domain := r'.domain, router := d.gateway)
    ensures Text(r'.domain) == d.domain
  {
    RangePhaseEnds(r, c, d);
    var r1 := r.(range := d.range);
    ParamPhaseEnds(r1, c, d);
    var r2 := r1.(name := d.scopeName, lease := d.lease, description := d.description);
    EditConcat(r, RangePhase(c, d), ParamPhase(c, d));
    r' := OptionPhaseEnds(r2, c, d);
    EditConcat(r, RangePhase(c, d) + ParamPhase(c, d), OptionPhase(c, d));
  }

  lemma EarlyPhasesEnd(s: Ip, r: Record, c: Payload, d: Payload, ord: Order) returns (r': Record)
    requires Comparable(s, r, c, d, ord)
    ensures EditAll(r, EarlyPhases(c, d)) == Some(r')
    ensures Shows(r'.(exclusions := ToSet(d.exclusions)), d) && r'.exclusions == r.exclusions
    ensures r'.range == d.range && r'.router == d.gateway
  {
    var r3 := PhasesBeforeBoot(s, r, c, d);
    r' := BootPhaseEnds(r3, c, d);
    EditConcat(r, RangePhase(c, d) + ParamPhase(c, d) + OptionPhase(c, d), BootPhase(c, d));
    ShowsFieldwise(r'.(exclusions := ToSet(d.exclusions)), d);
  }

  /** For every enumeration of the two differences the server accepts each exclusion cmdlet, and
      the exclusions end as desired. */
  lemma ExclusionsReconcile(s: Ip, r: Record, c: Payload, d: Payload, ord: Order)
    requires PairwiseDisjoint(r.exclusions) && ToSet(c.exclusions) == r.exclusions
    requires AllWellFormed(d.exclusions) && Ascending(d.exclusions) && OrderFor(ord, c, d)
    ensures EditAll(r, Removals(ord.removals, Strict) + Additions(ord.additions, Strict)) ==
              Some(r.(exclusions := ToSet(d.exclusions)))
  {
    AscendingIsDisjoint(d.exclusions);
    var want := ToSet(d.exclusions);
    RemovalsEnd(r, ord.removals, Strict);
    var r' := r.(exclusions := r.exclusions - ToSet(ord.removals));
    assert r'.exclusions == r.exclusions * want;
    assert r'.exclusions + ToSet(ord.additions) == want;
    AdditionsEnd(r', ord.additions, Strict);
    EditConcat(r, Removals(ord.removals, Strict), Additions(ord.additions, Strict));
  }

  lemma {:induction false} EditsKeepDisjoint(r: Record, steps: seq<EditStep>)
    requires PairwiseDisjoint(r.exclusions) && EditAll(r, steps).Some?
    ensures PairwiseDisjoint(EditAll(r, steps).value.exclusions)
    decreases |steps|
  {
    if steps != [] {
      EditsKeepDisjoint(EditOnce(r, steps[0]).value, steps[1..]);
    }
  }

  /** After any number of the exclusion cmdlets, in any enumeration, the record's exclusions lie
      between the common ones and all of both, and are pairwise disjoint. */
  lemma ExclusionStops(r: Record, c: Payload, d: Payload, ord: Order, k: nat)
    requires PairwiseDisjoint(r.exclusions) && ToSet(c.exclusions) == r.exclusions
    requires AllWellFormed(d.exclusions) && Ascending(d.exclusions) && OrderFor(ord, c, d)
    requires k <= |ord.removals| + |ord.additions|
    ensures var stop := EditAll(r, (Removals(ord.removals, Strict) + Additions(ord.additions, Strict))[..k]);
            stop.Some? && PairwiseDisjoint(stop.value.exclusions)
            && (k <= |ord.removals| ==> stop.value.exclusions == r.exclusions - ToSet(ord.removals[..k]))
            && (k >= |ord.removals| ==>
                  stop.value.exclusions ==
                    r.exclusions * ToSet(d.exclusions) + ToSet(ord.additions[..k - |ord.removals|]))
  {
    var minus, plus := Removals(ord.removals, Strict), Additions(ord.additions, Strict);
    var want := ToSet(d.exclusions);
    AscendingIsDisjoint(d.exclusions);
    if k <= |ord.removals| {
      var xs := ord.removals[..k];
      assert (minus + plus)[..k] == Removals(xs, Strict);
      assert ToSet(xs) <= ToSet(ord.removals);
      RemovalsEnd(r, xs, Strict);
    }
    if k >= |ord.removals| {
      var xs := ord.additions[..k - |ord.removals|];
      assert (minus + plus)[..k] == minus + Additions(xs, Strict);
      assert ToSet(xs) <= ToSet(ord.additions);
      RemovalsEnd(r, ord.removals, Strict);
      var r' := r.(exclusions := r.exclusions - ToSet(ord.removals));
      assert r'.exclusions == r.exclusions * want;
      assert r'.exclusions + ToSet(xs) <= want;
      AdditionsEnd(r', xs, Strict);
      EditConcat(r, minus, Additions(xs, Strict));
    }
    EditsKeepDisjoint(r, (minus + plus)[..k]);
  }

  lemma RecordPlanSplit(c: Payload, d: Payload, ord: Order)
    ensures RecordPlan(c, d, ord) ==
              EarlyPhases(c, d) + (Removals(ord.removals, Strict) + Additions(ord.additions, Strict))
  {
  }

  /** Convergence of the record: every cmdlet is accepted and the record ends showing `d`. */
  lemma RecordConverges(s: Ip, r: Record, c: Payload, d: Payload, ord: Order) returns (r': Record)
    requires Comparable(s, r, c, d, ord)
    ensures EditAll(r, RecordPlan(c, d, ord)) == Some(r')
    ensures Shows(r', d)
  {
    ObservedExclusions(r, s, c.failover);
    var early := EarlyPhasesEnd(s, r, c, d, ord);
    ExclusionsReconcile(s, early, c, d, ord);
    r' := early.(exclusions := ToSet(d.exclusions));
    RecordPlanSplit(c, d, ord);
    EditConcat(r, EarlyPhases(c, d), Removals(ord.removals, Strict) + Additions(ord.additions, Strict));
  }

  lemma NoElementsNoList(xs: seq<Range>)
    ensures ToSet(xs) == {} <==> xs == []
  {
    if xs != [] {
      assert xs[0] in ToSet(xs);
    }
  }

  /** A record that already shows `d` needs no cmdlet, and only such a record needs none. */
  lemma NothingToDo(s: Ip, r: Record, c: Payload, d: Payload, ord: Order)
    requires Comparable(s, r, c, d, ord)
    ensures RecordPlan(c, d, ord) == [] <==> Shows(r, d)
  {
    ObservedExclusions(r, s, c.failover);
    ShowsFieldwise(r, d);
    NoElementsNoList(ord.removals);
    NoElementsNoList(ord.additions);
    if RecordPlan(c, d, ord) == [] {
      var r' := RecordConverges(s, r, c, d, ord);
    }
  }
}
