/** The CI script's own reading of a hosted cluster's DHCP values, and its agreement with the API. */
module CiTwin {
  import opened Common
  import opened Addresses
  import opened Exclusions
  import opened ScopeModel
  import opened ScopeValidators

  /** A YAML key: not written, null, "" or a value. */
  datatype Key<T> = Absent | Null | Blank | Given(value: T)

  datatype CiFailover = CiFailover(partner: string, name: string, mode: Mode, role: Option<Role>,
                                   reserve: int, loadBalance: Option<int>, leadTime: int)

  /** `dhcp_values` after the merge. Keys for which absent, null and "" mean the same are "".
      `wellTyped` says that every value written has the YAML type its field takes. */
  datatype DhcpValues = DhcpValues(wellTyped: bool, scopeName: string, network: Option<Ip>, mask: Key<Ip>,
                                   startRange: Key<Ip>, endRange: Key<Ip>, lease: Option<int>,
                                   description: string, gateway: Key<Ip>,
                                   servers: Option<seq<Ip>>, extraServers: seq<Ip>, domain: string,
                                   pxeServer: string, pxeBootfile: string,
                                   exclusions: seq<Range>, failover: Option<CiFailover>)

  /** What the merge makes of the key: a mapping, or null or another value. */
  datatype Merged = NoMapping | Mapping(values: DhcpValues)

  /** A cluster file: its stem upper-cased, whether it defines `dhcp_values` itself, and the values
      merged along its chain. The file is the last of its chain, so the key it defines is there. */
  datatype Cluster = Cluster(upperStem: string, optsIn: bool, merged: Merged)

  datatype CiError =
    | MissingNetwork
    | MissingLease
    | MissingServers
    | NotAMapping
    | BadScope(flaw: Flaw)
    | NotAscending

  /* ---- What the script derives ---- */

  function ScopeName(c: Cluster, dv: DhcpValues): string {
    if dv.scopeName != "" then dv.scopeName else c.upperStem
  }

  function Relationship(scopeName: string, f: CiFailover): RawFailover {
    RawFailover(f.partner, if f.name == "" && scopeName != "" then scopeName + "-failover" else f.name,
                f.mode, f.role, f.reserve, f.loadBalance, f.leadTime)
  }

  function ValueOf(k: Key<Ip>): Option<Ip> {
    if k.Given? then Some(k.value) else None
  }

  function GatewayKey(k: Key<Ip>): GatewayField {
    match k
    case Absent => Omitted
    case Null => GatewayField.Null
    case Blank => GatewayField.Null
    case Given(ip) => Address(ip)
  }

  /** The field values the script builds its payload from. */
  function FieldValues(c: Cluster, dv: DhcpValues, lease: int): Body {
    var name := ScopeName(c, dv);
    Body(name, ValueOf(dv.mask), ValueOf(dv.startRange), ValueOf(dv.endRange), lease, dv.description,
         GatewayKey(dv.gateway), (if dv.servers.Some? then dv.servers.value else []) + dv.extraServers,
         dv.domain, dv.pxeServer, dv.pxeBootfile, dv.exclusions,
         if dv.failover.Some? then Some(Relationship(name, dv.failover.value)) else None)
  }

  /* ---- The script's payload model ---- */

  /** What the script's validators let through. They look at the exclusions in file order. */
  ghost predicate CiAccepts(network: Ip, b: Body) {
    && BodySound(b) && Resolvable(b)
    && FitsSubnet(network, MaskOf(b), RangeOf(network, b), GatewayOf(network, b.gateway), ToSet(b.exclusions))
    && !GatewayExposed(GatewayOf(network, b.gateway), RangeOf(network, b), ToSet(b.exclusions))
  }

  /** The payload as the script resolves it, exclusions in file order. */
  function CiResolve(network: Ip, b: Body): Payload
    requires Resolvable(b)
  {
    Payload(network, b.scopeName, MaskOf(b), RangeOf(network, b), b.lease, b.description,
            GatewayOf(network, b.gateway), b.dns, b.domain, b.nextServer, b.bootFile, b.exclusions,
            if b.failover.Some? then Some(Canonical(b.failover.value)) else None)
  }

  /** The script looks for half a PXE pair before it looks at the exclusions. */
  function CiPlace(f: Flaw): nat {
    match f
    case FieldOutOfBounds => 0
    case HalfPxePair => 1
    case DuplicateExclusion => 2
    case OverlappingExclusions => 3
    case ReversedRange => 4
    case GatewayRequired => 5
    case HalfRange => 6
    case RangeRequired => 7
    case SubnetMismatch => 8
    case GatewayInRange => 9
  }

  lemma CiBodyFlaws(network: Ip, b: Body)
    ensures !FieldsOk(b) ==> FirstFlaw(network, b, FieldOutOfBounds, CiPlace)
    ensures FieldsOk(b) && !PxePaired(b.nextServer, b.bootFile) ==> FirstFlaw(network, b, HalfPxePair, CiPlace)
    ensures FieldsOk(b) && PxePaired(b.nextServer, b.bootFile) ==>
              && (Repeats(b.exclusions) ==> FirstFlaw(network, b, DuplicateExclusion, CiPlace))
              && (!Repeats(b.exclusions) && !DisjointEntries(b.exclusions) ==>
                    FirstFlaw(network, b, OverlappingExclusions, CiPlace))
              && (!Repeats(b.exclusions) && DisjointEntries(b.exclusions) && RangeReversed(b) ==>
                    FirstFlaw(network, b, ReversedRange, CiPlace))
  {
    hide FieldsOk, PxePaired, Repeats, DisjointEntries, RangeReversed;
  }

  /** Past the inherited checks the two orders agree. */
  lemma LateFlawsAgree(network: Ip, b: Body, f: Flaw)
    requires BodySound(b) && FirstFlaw(network, b, f, Place)
    ensures FirstFlaw(network, b, f, CiPlace)
  {
    DisjointDoNotRepeat(b.exclusions);
  }

  /** `_CiScopePayload`: its own order of validators, and no sorting of the exclusions. Where a
      validator is word for word the API's, one method models both. */
  method BuildCiPayload(network: Ip, b: Body) returns (r: Result<Payload, Flaw>)
    ensures r.Ok? <==> CiAccepts(network, b)
    ensures r.Ok? ==> r.value == CiResolve(network, b)
    ensures r.Err? ==> FirstFlaw(network, b, r.error, CiPlace)
  {
    hide FirstFlaw, FitsSubnet, GatewayExposed, FieldsOk, DisjointEntries;
    CiBodyFlaws(network, b);
    var fields := FieldsInBounds(b);
    if !fields {
      return Err(FieldOutOfBounds);
    }
    FieldsInDetail(b);
    DisjointnessOfSort(b.exclusions);
    var draft := new ScopeDraft(network, b);
    if (b.nextServer != "") != (b.bootFile != "") {
      return Err(HalfPxePair);
    }
    var distinct := draft.NoDuplicateExclusions();
    if !distinct {
      if NeighboursApart(Sort(b.exclusions)) {
        OverlapCheckSubsumesDuplicateCheck(b.exclusions);
      }
      return Err(DuplicateExclusion);
    }
    var apart := draft.NoOverlappingExclusions();
    if !apart {
      return Err(OverlappingExclusions);
    }
    if b.startRange.Some? && b.endRange.Some? && b.endRange.value < b.startRange.value {
      return Err(ReversedRange);
    }
    PayloadFlaws(network, b);
    forall f | FirstFlaw(network, b, f, Place)
      ensures FirstFlaw(network, b, f, CiPlace)
    {
      LateFlawsAgree(network, b, f);
    }
    var derivable := draft.ResolveDefaultGateway();
    if !derivable {
      return Err(GatewayRequired);
    }
    var flaw := draft.ResolveDefaultRange();
    if flaw.Some? {
      return Err(flaw.value);
    }
    var consistent := draft.SubnetConsistent();
    if !consistent {
      return Err(SubnetMismatch);
    }
    var safe := draft.GatewayNotInRange();
    if !safe {
      return Err(GatewayInRange);
    }
    var failover := None;
    if b.failover.Some? {
      var f := new FailoverDraft(b.failover.value);
      var _ := f.EnforceModeFields();
      failover := Some(Canonical(f.value));
    }
    return Ok(Payload(network, b.scopeName, MaskOf(b), Range(draft.startRange.value, draft.endRange.value),
                      b.lease, b.description, draft.gateway, b.dns, b.domain, b.nextServer, b.bootFile,
                      draft.exclusions, failover));
  }

  /* ---- The content check ---- */

  ghost predicate StartsAscending(xs: seq<Range>) {
    forall i, j :: 0 <= i < j < |xs| ==> xs[i].start <= xs[j].start
  }

  method ListAscends(xs: seq<Range>) returns (ok: bool)
    ensures ok <==> StartsAscending(xs)
  {
    var i := 1;
    while i < |xs|
      invariant 1 <= i && (i <= |xs| || xs == [])
      invariant forall j, k :: 0 <= j < k < i && k < |xs| ==> xs[j].start <= xs[k].start
    {
      if xs[i].start < xs[i - 1].start {
        return false;
      }
      i := i + 1;
    }
    return true;
  }

  predicate HasRequired(dv: DhcpValues) {
    dv.network.Some? && dv.lease.Some? && dv.servers.Some?
  }

  /** What passes: a cluster that manages no scope, or one with its required keys, values the
      script's model lets through, and exclusions whose starts ascend. */
  ghost predicate Passes(c: Cluster) {
    !c.optsIn ||
    (c.merged.Mapping? &&
     var dv := c.merged.values;
     && HasRequired(dv) && dv.wellTyped
     && CiAccepts(dv.network.value, FieldValues(c, dv, dv.lease.value))
     && StartsAscending(dv.exclusions))
  }

  /** What the script has to say about a cluster that opts in. Of the flaws of the payload it names the
      first. */
  ghost predicate Complains(c: Cluster, e: CiError) {
    match c.merged
    case NoMapping => !e.BadScope? && !e.NotAscending?
    case Mapping(dv) =>
      match e
      case MissingNetwork => dv.network.None?
      case MissingLease => dv.lease.None?
      case MissingServers => dv.servers.None?
      case NotAMapping => false
      case BadScope(f) =>
        if dv.network.None? || dv.lease.None? || !dv.wellTyped then f == FieldOutOfBounds
        else FirstFlaw(dv.network.value, FieldValues(c, dv, dv.lease.value), f, CiPlace)
      case NotAscending => !StartsAscending(dv.exclusions)
  }

  /** There is a first flaw, and only one, unless the values are let through. */
  lemma OneFirstFlaw(network: Ip, b: Body)
    ensures CiAccepts(network, b) ==> forall f: Flaw :: !FirstFlaw(network, b, f, CiPlace)
    ensures forall f: Flaw, g: Flaw ::
              FirstFlaw(network, b, f, CiPlace) && FirstFlaw(network, b, g, CiPlace) ==> f == g
  {
    CiAcceptsWhatTheApiAccepts(network, b);
    AcceptsIffFlawless(network, b);
    forall f: Flaw, g: Flaw | FirstFlaw(network, b, f, CiPlace) && FirstFlaw(network, b, g, CiPlace)
      ensures f == g
    {
      assert CiPlace(f) == CiPlace(g);
    }
  }

  /** The part of the check that builds the payload. */
  method PayloadErrors(c: Cluster, dv: DhcpValues) returns (errors: seq<CiError>)
    requires c.merged == Mapping(dv)
    ensures forall e :: e in errors <==> e.BadScope? && Complains(c, e)
    ensures errors == [] <==> dv.network.Some? && dv.lease.Some? && dv.wellTyped
                              && CiAccepts(dv.network.value, FieldValues(c, dv, dv.lease.value))
  {
    hide FirstFlaw, CiAccepts, FieldValues, StartsAscending;
    if dv.network.None? || dv.lease.None? || !dv.wellTyped {
      return [BadScope(FieldOutOfBounds)];
    }
    var values := FieldValues(c, dv, dv.lease.value);
    var payload := BuildCiPayload(dv.network.value, values);
    OneFirstFlaw(dv.network.value, values);
    return if payload.Err? then [BadScope(payload.error)] else [];
  }

  method ValidateDhcpContent(c: Cluster) returns (errors: seq<CiError>)
    ensures errors == [] <==> Passes(c)
    ensures forall e :: e in errors <==> c.optsIn && Complains(c, e)
  {
    hide FirstFlaw, CiAccepts, FieldValues, StartsAscending;
    errors := [];
    if !c.optsIn {
      return;
    }
    if c.merged.NoMapping? {
      return [MissingNetwork, MissingLease, MissingServers, NotAMapping];
    }
    var dv := c.merged.values;
    if dv.network.None? {
      errors := errors + [MissingNetwork];
    }
    if dv.lease.None? {
      errors := errors + [MissingLease];
    }
    if dv.servers.None? {
      errors := errors + [MissingServers];
    }
    assert forall e :: e in errors <==>
                         (e.MissingNetwork? || e.MissingLease? || e.MissingServers?) && Complains(c, e);
    var payloadErrors := PayloadErrors(c, dv);
    errors := errors + payloadErrors;
    var ascends := true;
    if |dv.exclusions| >= 2 {
      ascends := ListAscends(dv.exclusions);
    }
    ShortListsAscend(dv.exclusions);
    if !ascends {
      errors := errors + [NotAscending];
    }
  }

  lemma ShortListsAscend(xs: seq<Range>)
    ensures |xs| < 2 ==> StartsAscending(xs)
  {
  }

  /* ---- Agreement with the API ---- */

  /** The two models let the same values through, though the API sorts the exclusions first. */
  lemma CiAcceptsWhatTheApiAccepts(network: Ip, b: Body)
    ensures CiAccepts(network, b) <==> Accepts(network, b)
  {
    AcceptsInTwoStages(network, b);
    SortIsSortedPermutation(b.exclusions);
    SameElementsSameSet(Sort(b.exclusions), b.exclusions);
  }

  /** On disjoint well-formed lists ascending starts leave nothing to sort. */
  lemma {:induction false} AscendingStartsFixTheOrder(xs: seq<Range>)
    requires AllWellFormed(xs) && DisjointEntries(xs)
    ensures StartsAscending(xs) <==> Sort(xs) == xs
  {
    if StartsAscending(xs) {
      forall i, j | 0 <= i < j < |xs|
        ensures xs[i].end < xs[j].start
      {
        assert xs[i].WellFormed() && xs[j].WellFormed() && !Overlap(xs[i], xs[j]);
      }
      AscendingIsDisjoint(xs);
    }
    if Sort(xs) == xs {
      SortIsSortedPermutation(xs);
      forall i, j | 0 <= i < j < |xs|
        ensures xs[i].start <= xs[j].start
      {
        assert Before(xs[i], xs[j]);
      }
    }
  }

  /** CI refines the API. A cluster passes exactly if it does not opt in, or its values are a mapping
      of the right types with address, lease and servers given, such that the API accepts the same
      field values for the same address and resolves them to the very payload CI resolved, its
      exclusions left in file order. */
  lemma CiRefinesApi(c: Cluster)
    ensures Passes(c) <==>
              !c.optsIn ||
              (c.merged.Mapping? &&
               var dv := c.merged.values;
               && dv.wellTyped && dv.network.Some? && dv.lease.Some? && dv.servers.Some?
               && var values := FieldValues(c, dv, dv.lease.value);
                  Accepts(dv.network.value, values)
                  && Resolve(dv.network.value, values) == CiResolve(dv.network.value, values))
  {
    if c.merged.NoMapping? || !HasRequired(c.merged.values) {
      return;
    }
    var dv := c.merged.values;
    var values := FieldValues(c, dv, dv.lease.value);
    CiAcceptsWhatTheApiAccepts(dv.network.value, values);
    if CiAccepts(dv.network.value, values) {
      AscendingStartsFixTheOrder(values.exclusions);
      assert Resolve(dv.network.value, values).exclusions == Sort(values.exclusions);
    }
  }

  /** What a passing cluster is sure of: its scope is served as written, its own resolvers after the
      inherited ones, under the names and addresses derived where the file gives none. Only a gateway
      key that is not written is derived; null and "" mean no gateway. */
  lemma PassingClusterIsSafe(c: Cluster)
    requires c.optsIn && Passes(c)
    ensures var dv := c.merged.values;
            var p := CiResolve(dv.network.value, FieldValues(c, dv, dv.lease.value));
            && Valid(p) && p.scope == dv.network.value && p.lease == dv.lease.value
            && p.description == dv.description && p.domain == dv.domain
            && p.nextServer == dv.pxeServer && p.bootFile == dv.pxeBootfile
            && p.dns == dv.servers.value + dv.extraServers && p.exclusions == dv.exclusions
            && (p.scopeName == if dv.scopeName == "" then c.upperStem else dv.scopeName)
            && (p.mask == if dv.mask.Given? then dv.mask.value else 0xFFFF_FF00)
            && (if dv.startRange.Given?
                then dv.endRange.Given? && p.range == Range(dv.startRange.value, dv.endRange.value)
                else !dv.endRange.Given? && p.mask == 0xFFFF_FF00 && p.range == Range(p.scope + 1, p.scope + 253))
            && (match dv.gateway
                case Absent => p.mask == 0xFFFF_FF00 && p.gateway == Some(p.scope + 254)
                case Null => p.gateway == None
                case Blank => p.gateway == None
                case Given(ip) => p.gateway == Some(ip))
    ensures var dv := c.merged.values;
            var p := CiResolve(dv.network.value, FieldValues(c, dv, dv.lease.value));
            && (p.failover.Some? <==> dv.failover.Some?)
            && (dv.failover.Some? ==>
                  var f, g := dv.failover.value, p.failover.value;
                  && g.partner == f.partner && g.mode == f.mode && g.leadTime == f.leadTime
                  && g.name == (if f.name == "" && p.scopeName != "" then p.scopeName + "-failover" else f.name)
                  && (f.mode.HotStandby? ==> f.role == Some(g.role) && g.reserve == f.reserve)
                  && (f.mode.LoadBalance? ==> f.loadBalance == Some(g.loadBalance)))
  {
    CiRefinesApi(c);
    var dv := c.merged.values;
    var values := FieldValues(c, dv, dv.lease.value);
    NothingElseIsDerived(dv.network.value, values);
    if Slash24(values) {
      DerivedDefaults(dv.network.value, values);
    }
  }

  /** The values file that writes a payload out in full. */
  function WrittenOut(p: Payload): DhcpValues {
    DhcpValues(true, p.scopeName, Some(p.scope), Given(p.mask), Given(p.range.start), Given(p.range.end), Some(p.lease),
               p.description, if p.gateway.Some? then Given(p.gateway.value) else Blank, Some(p.dns), [], p.domain,
               p.nextServer, p.bootFile, p.exclusions,
               if p.failover.Some? then
                 var f := p.failover.value;
                 Some(CiFailover(f.partner, f.name, f.mode, Some(f.role), f.reserve, Some(f.loadBalance), f.leadTime))
               else None)
  }

  /** Every payload the API can hold can be asked for in a file that passes, and means itself. */
  lemma WrittenOutPasses(p: Payload, upperStem: string)
    requires Valid(p) && p.scopeName != "" && (p.failover.Some? ==> p.failover.value.name != "")
    ensures var c := Cluster(upperStem, true, Mapping(WrittenOut(p)));
            Passes(c) && CiResolve(p.scope, FieldValues(c, WrittenOut(p), p.lease)) == p
  {
    var c := Cluster(upperStem, true, Mapping(WrittenOut(p)));
    assert p.dns + [] == p.dns;
    assert FieldValues(c, WrittenOut(p), p.lease) == ToBody(p);
    Resubmission(p);
    CiRefinesApi(c);
    AscendingIsDisjoint(p.exclusions);
  }
}
