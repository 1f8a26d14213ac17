/** The validator chain as the model runs it: a draft whose fields the after-validators overwrite
    one by one, proved to accept exactly the bodies of `Accepts` and to end in `Resolve`. */
module ScopeValidators {
  import opened Common
  import opened Addresses
  import opened Exclusions
  import opened ScopeModel

  datatype Flaw =
    | FieldOutOfBounds
    | DuplicateExclusion
    | OverlappingExclusions
    | ReversedRange
    | HalfPxePair
    | GatewayRequired
    | HalfRange
    | RangeRequired
    | SubnetMismatch
    | GatewayInRange

  /** An exclusion is listed twice. */
  ghost predicate Repeats(xs: seq<Range>) {
    exists i, j :: 0 <= i < j < |xs| && xs[i] == xs[j]
  }

  /** Each field is in its bounds. */
  ghost predicate FieldsOk(b: Body) {
    && ValidLease(b.lease) && b.dns != [] && AllWellFormed(b.exclusions)
    && (b.failover.Some? ==> FailoverFieldsOk(b.failover.value) && HasModeField(b.failover.value))
  }

  class ScopeDraft {
    const scope: Ip
    const body: Body
    var exclusions: seq<Range>
    var gateway: Option<Ip>
    var startRange: Option<Ip>
    var endRange: Option<Ip>

    constructor (scope: Ip, body: Body)
      ensures this.scope == scope && this.body == body
      ensures exclusions == body.exclusions
      ensures gateway == if body.gateway.Address? then Some(body.gateway.ip) else None
      ensures startRange == body.startRange && endRange == body.endRange
    {
      this.scope, this.body := scope, body;
      exclusions := body.exclusions;
      gateway := if body.gateway.Address? then Some(body.gateway.ip) else None;
      startRange, endRange := body.startRange, body.endRange;
    }

    method SortExclusions()
      modifies `exclusions
      ensures exclusions == Sort(old(exclusions))
    {
      if |exclusions| > 1 {
        exclusions := Sort(exclusions);
      } else if |exclusions| == 1 {
        assert exclusions == [exclusions[0]];
      }
    }

    method NoDuplicateExclusions() returns (ok: bool)
      ensures ok <==> !Repeats(exclusions)
    {
      var seen: set<Range> := {};
      for i := 0 to |exclusions|
        invariant seen == set k | 0 <= k < i :: exclusions[k]
        invariant forall j, k :: 0 <= j < k < i ==> exclusions[j] != exclusions[k]
      {
        if exclusions[i] in seen {
          return false;
        }
        seen := seen + {exclusions[i]};
      }
      return true;
    }

    method NoOverlappingExclusions() returns (ok: bool)
      ensures ok <==> NeighboursApart(Sort(exclusions))
    {
      if |exclusions| < 2 {
        SortIsSortedPermutation(exclusions);
        assert |Sort(exclusions)| == |multiset(exclusions)|;
        return true;
      }
      var sorted := Sort(exclusions);
      var i := 0;
      while i < |sorted| - 1
        invariant 0 <= i
        invariant forall k :: 0 <= k < i && k < |sorted| - 1 ==> sorted[k].end < sorted[k + 1].start
      {
        if sorted[i].end >= sorted[i + 1].start {
          return false;
        }
        i := i + 1;
      }
      return true;
    }

    method ResolveDefaultGateway() returns (ok: bool)
      requires gateway == if body.gateway.Address? then Some(body.gateway.ip) else None
      modifies `gateway
      ensures ok <==> (body.gateway.Omitted? ==> MaskOf(body) == DEFAULT_MASK)
      ensures ok ==> gateway == GatewayOf(scope, body.gateway)
    {
      if !body.gateway.Omitted? {
        return true;
      }
      if MaskOf(body) != DEFAULT_MASK {
        return false;
      }
      gateway := Some(HostInSlash24(scope, GATEWAY_OCTET));
      return true;
    }

    method ResolveDefaultRange() returns (flaw: Option<Flaw>)
      requires startRange == body.startRange && endRange == body.endRange
      modifies `startRange, `endRange
      ensures flaw.None? <==> (body.startRange.Some? <==> body.endRange.Some?)
                              && (body.startRange.None? ==> MaskOf(body) == DEFAULT_MASK)
      ensures flaw.None? && Resolvable(body) ==>
                startRange == Some(RangeOf(scope, body).start) && endRange == Some(RangeOf(scope, body).end)
      ensures flaw.None? ==> startRange.Some? && endRange.Some?
    ensures flaw.Some? ==>
              flaw.value == if body.startRange.Some? || body.endRange.Some? then HalfRange else RangeRequired
    {
      if startRange.Some? && endRange.Some? {
        return None;
      }
      if startRange.Some? || endRange.Some? {
        return Some(HalfRange);
      }
      if MaskOf(body) != DEFAULT_MASK {
        return Some(RangeRequired);
      }
      startRange := Some(HostInSlash24(scope, RANGE_FIRST_OCTET));
      endRange := Some(HostInSlash24(scope, RANGE_LAST_OCTET));
      return None;
    }

    method SubnetConsistent() returns (ok: bool)
      requires startRange.Some? && endRange.Some?
      ensures ok <==> FitsSubnet(scope, MaskOf(body), Range(startRange.value, endRange.value),
                                 gateway, ToSet(exclusions))
    {
      var subnet := SubnetOf(scope, MaskOf(body));
      if subnet.None? {
        return false;
      }
      var net := subnet.value;
      if !net.Contains(startRange.value) || !net.Contains(endRange.value) {
        return false;
      }
      if gateway.Some? && !net.Contains(gateway.value) {
        return false;
      }
      for i := 0 to |exclusions|
        invariant forall k :: 0 <= k < i ==> net.Contains(exclusions[k].start) && net.Contains(exclusions[k].end)
      {
        if !net.Contains(exclusions[i].start) || !net.Contains(exclusions[i].end) {
          assert exclusions[i] in ToSet(exclusions);
          return false;
        }
      }
      if startRange.value == net.start || startRange.value == net.end
         || endRange.value == net.start || endRange.value == net.end {
        return false;
      }
      if gateway.Some? && (gateway.value == net.start || gateway.value == net.end) {
        return false;
      }
      return true;
    }

    method GatewayNotInRange() returns (ok: bool)
      requires startRange.Some? && endRange.Some?
      ensures ok <==> !GatewayExposed(gateway, Range(startRange.value, endRange.value), ToSet(exclusions))
    {
      if gateway.None? {
        return true;
      }
      var gw := gateway.value;
      if !(startRange.value <= gw <= endRange.value) {
        return true;
      }
      for i := 0 to |exclusions|
        invariant forall k :: 0 <= k < i ==> !exclusions[k].Contains(gw)
      {
        if exclusions[i].start <= gw <= exclusions[i].end {
          assert exclusions[i] in ToSet(exclusions) && exclusions[i].Contains(gw);
          return true;
        }
      }
      return false;
    }
  }

  method FieldsInBounds(b: Body) returns (ok: bool)
    ensures ok <==> FieldsOk(b)
  {
    if !(1 <= b.lease <= 3650) || |b.dns| < 1 {
      return false;
    }
    for i := 0 to |b.exclusions|
      invariant forall k :: 0 <= k < i ==> b.exclusions[k].WellFormed()
    {
      if b.exclusions[i].end < b.exclusions[i].start {
        return false;
      }
    }
    return b.failover.None? || (FailoverFieldsOk(b.failover.value) && HasModeField(b.failover.value));
  }

  lemma SortedTwice(xs: seq<Range>)
    ensures Sort(Sort(xs)) == Sort(xs)
  {
    SortIsSortedPermutation(xs);
    SortOfSorted(Sort(xs));
  }

  /** The duplicate check never decides: a repeated well-formed entry overlaps itself. */
  lemma OverlapCheckSubsumesDuplicateCheck(xs: seq<Range>)
    requires AllWellFormed(xs) && NeighboursApart(Sort(xs))
    ensures !Repeats(xs)
  {
    SortIsSortedPermutation(xs);
    DisjointnessOfSort(xs);
  }

  lemma DisjointnessOfSort(xs: seq<Range>)
    requires AllWellFormed(xs)
    ensures NeighboursApart(Sort(xs)) <==> DisjointEntries(xs)
    ensures NeighboursApart(Sort(xs)) <==> Ascending(Sort(xs))
    ensures AllWellFormed(Sort(xs))
  {
    SortIsSortedPermutation(xs);
    forall i | 0 <= i < |Sort(xs)|
      ensures Sort(xs)[i].WellFormed()
    {
      assert Sort(xs)[i] in multiset(xs);
    }
    NeighboursDecideDisjointness(Sort(xs));
    AcceptedExclusions(xs);
  }

  lemma RepeatIsCounted(xs: seq<Range>, i: nat, j: nat)
    requires i < j < |xs| && xs[i] == xs[j]
    ensures multiset(xs)[xs[i]] > 1
  {
    var a, b := xs[..j], xs[j..];
    assert xs == a + b && a[i] in a && b[0] in b;
  }

  lemma CountedRepeats(xs: seq<Range>, e: Range)
    requires multiset(xs)[e] > 1
    ensures Repeats(xs)
  {
    var i :| 0 <= i < |xs| && xs[i] == e;
    var a, b := xs[..i], xs[i + 1..];
    assert xs == a + [e] + b;
    if e in a {
      var k :| 0 <= k < |a| && a[k] == e;
      assert xs[k] == xs[i];
    } else {
      assert e in multiset(b);
      var k :| 0 <= k < |b| && b[k] == e;
      assert xs[i] == xs[i + 1 + k];
    }
  }

  lemma RepeatsAreCounted(xs: seq<Range>)
    ensures Repeats(xs) <==> exists e :: multiset(xs)[e] > 1
  {
    if i, j :| 0 <= i < j < |xs| && xs[i] == xs[j] {
      RepeatIsCounted(xs, i, j);
    }
    if e :| multiset(xs)[e] > 1 {
      CountedRepeats(xs, e);
    }
  }

  lemma SortKeepsRepeats(xs: seq<Range>)
    ensures Repeats(Sort(xs)) <==> Repeats(xs)
  {
    SortIsSortedPermutation(xs);
    RepeatsAreCounted(xs);
    RepeatsAreCounted(Sort(xs));
  }

  /* ---- What is wrong with a body ---- */

  /** A body has the flaw, whatever else may be wrong with it. The last two can only be told once
      gateway and range are known. */
  ghost predicate HasFlaw(scope: Ip, b: Body, f: Flaw) {
    match f
    case FieldOutOfBounds => !FieldsOk(b)
    case DuplicateExclusion => Repeats(b.exclusions)
    case OverlappingExclusions => !DisjointEntries(b.exclusions)
    case ReversedRange => RangeReversed(b)
    case HalfPxePair => !PxePaired(b.nextServer, b.bootFile)
    case GatewayRequired => b.gateway.Omitted? && !Slash24(b)
    case HalfRange => b.startRange.Some? != b.endRange.Some?
    case RangeRequired => b.startRange.None? && b.endRange.None? && !Slash24(b)
    case SubnetMismatch =>
      Resolvable(b) &&
      !FitsSubnet(scope, MaskOf(b), RangeOf(scope, b), GatewayOf(scope, b.gateway), ToSet(b.exclusions))
    case GatewayInRange =>
      Resolvable(b) && GatewayExposed(GatewayOf(scope, b.gateway), RangeOf(scope, b), ToSet(b.exclusions))
  }

  /** The order in which the validators look for flaws. */
  function Place(f: Flaw): nat {
    match f
    case FieldOutOfBounds => 0
    case DuplicateExclusion => 1
    case OverlappingExclusions => 2
    case ReversedRange => 3
    case HalfPxePair => 4
    case GatewayRequired => 5
    case HalfRange => 6
    case RangeRequired => 7
    case SubnetMismatch => 8
    case GatewayInRange => 9
  }

  ghost predicate FirstFlaw(scope: Ip, b: Body, f: Flaw, place: Flaw -> nat) {
    HasFlaw(scope, b, f) && forall g: Flaw :: place(g) < place(f) ==> !HasFlaw(scope, b, g)
  }

  /** The accepted bodies are the flawless ones. */
  lemma AcceptsIffFlawless(scope: Ip, b: Body)
    ensures Accepts(scope, b) <==> forall f: Flaw :: !HasFlaw(scope, b, f)
  {
    hide FitsSubnet, GatewayExposed, RangeOf, GatewayOf, Resolve;
    AcceptsInTwoStages(scope, b);
    SoundExclusions(b.exclusions);
    if forall f: Flaw :: !HasFlaw(scope, b, f) {
      assert !HasFlaw(scope, b, FieldOutOfBounds) && !HasFlaw(scope, b, OverlappingExclusions);
      assert !HasFlaw(scope, b, ReversedRange) && !HasFlaw(scope, b, HalfPxePair);
      assert !HasFlaw(scope, b, GatewayRequired) && !HasFlaw(scope, b, HalfRange) && !HasFlaw(scope, b, RangeRequired);
      assert !HasFlaw(scope, b, SubnetMismatch) && !HasFlaw(scope, b, GatewayInRange);
    }
    if Accepts(scope, b) {
      DisjointDoNotRepeat(b.exclusions);
    }
  }

  lemma DisjointDoNotRepeat(xs: seq<Range>)
    requires AllWellFormed(xs) && DisjointEntries(xs)
    ensures !Repeats(xs)
  {
    DisjointnessOfSort(xs);
    OverlapCheckSubsumesDuplicateCheck(xs);
  }

  /** What the validators inherited from DhcpScopeBody establish. */
  ghost predicate BodySound(b: Body) {
    && FieldsOk(b) && DisjointEntries(b.exclusions)
    && (b.startRange.Some? && b.endRange.Some? ==> b.startRange.value <= b.endRange.value)
    && PxePaired(b.nextServer, b.bootFile)
  }

  /* ---- The first flaw, at each place ---- */

  lemma FieldFlaw(scope: Ip, b: Body)
    requires !FieldsOk(b)
    ensures FirstFlaw(scope, b, FieldOutOfBounds, Place)
  {
  }

  lemma DuplicateFlaw(scope: Ip, b: Body)
    requires FieldsOk(b) && Repeats(b.exclusions)
    ensures FirstFlaw(scope, b, DuplicateExclusion, Place)
  {
  }

  lemma OverlapFlaw(scope: Ip, b: Body)
    requires FieldsOk(b) && !Repeats(b.exclusions) && !DisjointEntries(b.exclusions)
    ensures FirstFlaw(scope, b, OverlappingExclusions, Place)
  {
  }

  predicate RangeReversed(b: Body) {
    b.startRange.Some? && b.endRange.Some? && b.endRange.value < b.startRange.value
  }

  lemma PairFlaws(scope: Ip, b: Body)
    requires FieldsOk(b) && !Repeats(b.exclusions) && DisjointEntries(b.exclusions)
    ensures RangeReversed(b) ==> FirstFlaw(scope, b, ReversedRange, Place)
    ensures !RangeReversed(b) && !PxePaired(b.nextServer, b.bootFile) ==> FirstFlaw(scope, b, HalfPxePair, Place)
  {
  }

  /** The first flaw of a body whose inherited parts are sound. */
  lemma PayloadFlaws(scope: Ip, b: Body)
    requires BodySound(b)
    ensures b.gateway.Omitted? && !Slash24(b) ==> FirstFlaw(scope, b, GatewayRequired, Place)
    ensures !(b.gateway.Omitted? && !Slash24(b)) ==>
              && (b.startRange.Some? != b.endRange.Some? ==> FirstFlaw(scope, b, HalfRange, Place))
              && (b.startRange.None? && b.endRange.None? && !Slash24(b) ==> FirstFlaw(scope, b, RangeRequired, Place))
    ensures Resolvable(b) ==>
              var range, gateway, holes := RangeOf(scope, b), GatewayOf(scope, b.gateway), ToSet(b.exclusions);
              && (!FitsSubnet(scope, MaskOf(b), range, gateway, holes) ==> FirstFlaw(scope, b, SubnetMismatch, Place))
              && (FitsSubnet(scope, MaskOf(b), range, gateway, holes) && GatewayExposed(gateway, range, holes) ==>
                    FirstFlaw(scope, b, GatewayInRange, Place))
  {
    hide FitsSubnet, GatewayExposed, FieldsOk, DisjointEntries, RangeOf, GatewayOf;
    FieldsInDetail(b);
    DisjointDoNotRepeat(b.exclusions);
  }

  lemma FieldsInDetail(b: Body)
    requires FieldsOk(b)
    ensures AllWellFormed(b.exclusions) && (b.failover.Some? ==> HasModeField(b.failover.value))
  {
  }

  method CheckBody(draft: ScopeDraft) returns (flaw: Option<Flaw>)
    requires draft.exclusions == draft.body.exclusions
    modifies draft`exclusions
    ensures flaw.None? <==> BodySound(draft.body)
    ensures flaw.Some? ==> FirstFlaw(draft.scope, draft.body, flaw.value, Place)
    ensures flaw.None? ==> draft.exclusions == Sort(draft.body.exclusions)
  {
    hide FirstFlaw, Repeats, DisjointEntries;
    var body := draft.body;
    var fields := FieldsInBounds(body);
    if !fields {
      FieldFlaw(draft.scope, body);
      return Some(FieldOutOfBounds);
    }
    DisjointnessOfSort(body.exclusions);
    draft.SortExclusions();
    SortedTwice(body.exclusions);
    SortKeepsRepeats(body.exclusions);
    var distinct := draft.NoDuplicateExclusions();
    if !distinct {
      if NeighboursApart(Sort(draft.exclusions)) {
        OverlapCheckSubsumesDuplicateCheck(draft.exclusions);
      }
      DuplicateFlaw(draft.scope, body);
      return Some(DuplicateExclusion);
    }
    var apart := draft.NoOverlappingExclusions();
    if !apart {
      OverlapFlaw(draft.scope, body);
      return Some(OverlappingExclusions);
    }
    PairFlaws(draft.scope, body);
    if body.startRange.Some? && body.endRange.Some? && body.endRange.value < body.startRange.value {
      return Some(ReversedRange);
    }
    if (body.nextServer == "") != (body.bootFile == "") {
      return Some(HalfPxePair);
    }
    return None;
  }

  lemma AcceptsInTwoStages(scope: Ip, b: Body)
    ensures Accepts(scope, b) <==>
              && BodySound(b) && Resolvable(b)
              && FitsSubnet(scope, MaskOf(b), RangeOf(scope, b), GatewayOf(scope, b.gateway), ToSet(Sort(b.exclusions)))
              && !GatewayExposed(GatewayOf(scope, b.gateway), RangeOf(scope, b), ToSet(Sort(b.exclusions)))
  {
    AcceptedExclusions(b.exclusions);
    DerivedRangeIsOrdered(scope);
    if Resolvable(b) && b.failover.Some? {
      CanonicalIsFixed(Canonical(b.failover.value));
    }
  }

  /** Building a DhcpScopePayload: field validation, then the after-validators in order. */
  method Validate(scope: Ip, body: Body) returns (r: Result<Payload, Flaw>)
    ensures r.Ok? <==> Accepts(scope, body)
    ensures r.Ok? ==> r.value == Resolve(scope, body)
    ensures r.Err? ==> FirstFlaw(scope, body, r.error, Place)
  {
    hide FirstFlaw, FitsSubnet, GatewayExposed, FieldsOk, DisjointEntries;
    AcceptsInTwoStages(scope, body);
    var draft := new ScopeDraft(scope, body);
    var flaw := CheckBody(draft);
    if flaw.Some? {
      return Err(flaw.value);
    }
    PayloadFlaws(scope, body);
    FieldsInDetail(body);
    SoundExclusions(body.exclusions);
    var derivable := draft.ResolveDefaultGateway();
    if !derivable {
      return Err(GatewayRequired);
    }
    flaw := draft.ResolveDefaultRange();
    if flaw.Some? {
      return Err(flaw.value);
    }
    var consistent := draft.SubnetConsistent();
    if !consistent {
      return Err(SubnetMismatch);
    }
    var safe := draft.GatewayNotInRange();
    if !safe {
      return Err(GatewayInRange);
    }
    var failover := None;
    if body.failover.Some? {
      var f := new FailoverDraft(body.failover.value);
      var _ := f.EnforceModeFields();
      failover := Some(Canonical(f.value));
    }
    return Ok(Payload(scope, body.scopeName, MaskOf(body),
                      Range(draft.startRange.value, draft.endRange.value), body.lease,
                      body.description, draft.gateway, body.dns, body.domain, body.nextServer,
                      body.bootFile, draft.exclusions, failover));
  }

  lemma DerivedRangeIsOrdered(scope: Ip)
    ensures HostInSlash24(scope, RANGE_FIRST_OCTET) < HostInSlash24(scope, RANGE_LAST_OCTET)
  {
    HostInSlash24IsSum(scope, RANGE_FIRST_OCTET);
    HostInSlash24IsSum(scope, RANGE_LAST_OCTET);
  }
}
