/** The payload model: what a request body may say, the canonical payload it resolves to, and the
    chain of validators that decides and resolves. */
module ScopeModel {
  import opened Common
  import opened Addresses
  import opened Exclusions

  const DEFAULT_MASK: Ip := 0xFFFF_FF00
  const GATEWAY_OCTET: nat := 254
  const RANGE_FIRST_OCTET: nat := 1
  const RANGE_LAST_OCTET: nat := 253

  /* ---- Failover ---- */

  datatype Mode = HotStandby | LoadBalance

  datatype Role = Active | Standby

  datatype Failover = Failover(partner: string, name: string, mode: Mode, role: Role,
                               reserve: int, loadBalance: int, leadTime: int)

  /** A failover object before its mode-specific fields are enforced. */
  datatype RawFailover = RawFailover(partner: string, name: string, mode: Mode, role: Option<Role>,
                                     reserve: int, loadBalance: Option<int>, leadTime: int)

  predicate FailoverFieldsOk(f: RawFailover) {
    && 0 <= f.reserve <= 100
    && (f.loadBalance.Some? ==> 0 <= f.loadBalance.value <= 100)
    && 1 <= f.leadTime <= 1440
  }

  /** The field the mode requires is present. */
  predicate HasModeField(f: RawFailover) {
    match f.mode
    case HotStandby => f.role.Some?
    case LoadBalance => f.loadBalance.Some?
  }

  /** The canonical failover: what the other mode would use is set to a fixed value. */
  function Canonical(f: RawFailover): Failover
    requires HasModeField(f)
  {
    match f.mode
    case HotStandby => Failover(f.partner, f.name, HotStandby, f.role.value, f.reserve, 0, f.leadTime)
    case LoadBalance => Failover(f.partner, f.name, LoadBalance, Active, 0, f.loadBalance.value, f.leadTime)
  }

  predicate ValidFailover(f: Failover) {
    && 0 <= f.reserve <= 100
    && 0 <= f.loadBalance <= 100
    && 1 <= f.leadTime <= 1440
    && (f.mode.HotStandby? ==> f.loadBalance == 0)
    && (f.mode.LoadBalance? ==> f.role == Active && f.reserve == 0)
  }

  function Uncanonical(f: Failover): RawFailover {
    RawFailover(f.partner, f.name, f.mode, Some(f.role), f.reserve, Some(f.loadBalance), f.leadTime)
  }

  /** Re-reading a canonical failover changes nothing, and canonical ones are exactly the results. */
  lemma CanonicalIsFixed(f: Failover)
    ensures ValidFailover(f) <==>
              FailoverFieldsOk(Uncanonical(f)) && Canonical(Uncanonical(f)) == f
  {
  }

  /** Fields the mode does not use cannot make two failovers differ. */
  lemma UnusedModeFieldsAreIgnored(f: RawFailover, role: Option<Role>, reserve: int, loadBalance: Option<int>)
    requires HasModeField(f)
    ensures f.mode.HotStandby? ==>
              HasModeField(f.(loadBalance := loadBalance)) &&
              Canonical(f.(loadBalance := loadBalance)) == Canonical(f)
    ensures f.mode.LoadBalance? ==>
              HasModeField(f.(role := role, reserve := reserve)) &&
              Canonical(f.(role := role, reserve := reserve)) == Canonical(f)
  {
  }

  class FailoverDraft {
    var value: RawFailover

    constructor (f: RawFailover)
      ensures value == f
    {
      value := f;
    }

    /** The after-validator `enforce_mode_fields`. */
    method EnforceModeFields() returns (ok: bool)
      modifies this
      ensures ok == HasModeField(old(value))
      ensures ok ==> HasModeField(value) && value == Uncanonical(Canonical(old(value)))
      ensures !ok ==> value == old(value)
    {
      if value.mode.HotStandby? {
        if value.role.None? {
          return false;
        }
        value := value.(loadBalance := Some(0));
      } else {
        if value.loadBalance.None? {
          return false;
        }
        value := value.(role := Some(Active));
        value := value.(reserve := 0);
      }
      return true;
    }
  }

  /* ---- Request bodies and payloads ---- */

  /** Omitting the gateway and sending null are different requests. */
  datatype GatewayField = Omitted | Null | Address(ip: Ip)

  datatype Body = Body(scopeName: string, mask: Option<Ip>, startRange: Option<Ip>, endRange: Option<Ip>,
                       lease: int, description: string, gateway: GatewayField, dns: seq<Ip>,
                       domain: string, nextServer: string, bootFile: string,
                       exclusions: seq<Range>, failover: Option<RawFailover>)

  datatype Payload = Payload(scope: Ip, scopeName: string, mask: Ip, range: Range, lease: int,
                             description: string, gateway: Option<Ip>, dns: seq<Ip>, domain: string,
                             nextServer: string, bootFile: string, exclusions: seq<Range>,
                             failover: Option<Failover>)

  predicate ValidLease(days: int) {
    1 <= days <= 3650
  }

  /** Option 66 and option 67 come together or not at all. */
  predicate PxePaired(nextServer: string, bootFile: string) {
    (nextServer == "") == (bootFile == "")
  }

  /** A gateway the server could lease out: in the range and under no exclusion. */
  predicate GatewayExposed(gateway: Option<Ip>, range: Range, holes: set<Range>) {
    gateway.Some? && range.Contains(gateway.value) && !Covered(gateway.value, holes)
  }

  /** Strictly between network and broadcast address. */
  predicate Usable(a: int, net: Range) {
    net.start < a < net.end
  }

  /** The addresses of a scope fit its subnet. */
  predicate FitsSubnet(scope: Ip, mask: Ip, range: Range, gateway: Option<Ip>, holes: set<Range>) {
    match SubnetOf(scope, mask)
    case None => false
    case Some(net) =>
      && Usable(range.start, net) && Usable(range.end, net)
      && (gateway.Some? ==> Usable(gateway.value, net))
      && forall e :: e in holes ==> net.Contains(e.start) && net.Contains(e.end)
  }

  /** What every stored payload satisfies. */
  ghost predicate Valid(p: Payload) {
    && ValidLease(p.lease)
    && p.dns != []
    && PxePaired(p.nextServer, p.bootFile)
    && p.range.WellFormed()
    && AllWellFormed(p.exclusions) && Ascending(p.exclusions)
    && FitsSubnet(p.scope, p.mask, p.range, p.gateway, ToSet(p.exclusions))
    && !GatewayExposed(p.gateway, p.range, ToSet(p.exclusions))
    && (p.failover.Some? ==> ValidFailover(p.failover.value))
  }

  function MaskOf(b: Body): Ip {
    if b.mask.Some? then b.mask.value else DEFAULT_MASK
  }

  /** (scope & ~0xFF) | octet */
  function HostInSlash24(scope: Ip, octet: nat): Ip
    requires octet < 256
  {
    HostInSlash24IsSum(scope, octet);
    BitOr(AndNot(scope, 0xFF), octet)
  }

  lemma HostInSlash24IsSum(scope: Ip, octet: nat)
    requires octet < 256
    ensures BitOr(AndNot(scope, 0xFF), octet) == scope - scope % 256 + octet < ADDRESS_SPACE
  {
    var base := scope - scope % 256;
    assert base % 256 == 0 && base + 255 < ADDRESS_SPACE;
    assert AndNot(scope, 0xFF) == base by {
      Pow2Values();
      AndNotIsFloor(scope, 8);
    }
    assert BitOr(base, octet) == base + octet by {
      Pow2Values();
      OrIsSum(base, octet, 8);
    }
  }

  /** Defaults exist only under the /24 mask, and a range is given whole or not at all. */
  predicate Resolvable(b: Body) {
    && (b.gateway.Omitted? ==> MaskOf(b) == DEFAULT_MASK)
    && (b.startRange.Some? <==> b.endRange.Some?)
    && (b.startRange.None? ==> MaskOf(b) == DEFAULT_MASK)
    && (b.failover.Some? ==> HasModeField(b.failover.value))
  }

  function GatewayOf(scope: Ip, g: GatewayField): Option<Ip> {
    match g
    case Omitted => Some(HostInSlash24(scope, GATEWAY_OCTET))
    case Null => None
    case Address(ip) => Some(ip)
  }

  function RangeOf(scope: Ip, b: Body): Range
    requires Resolvable(b)
  {
    if b.startRange.Some? then Range(b.startRange.value, b.endRange.value)
    else Range(HostInSlash24(scope, RANGE_FIRST_OCTET), HostInSlash24(scope, RANGE_LAST_OCTET))
  }

  /** The canonical payload of a body. */
  function Resolve(scope: Ip, b: Body): Payload
    requires Resolvable(b)
  {
    Payload(scope, b.scopeName, MaskOf(b), RangeOf(scope, b), b.lease, b.description,
            GatewayOf(scope, b.gateway), b.dns, b.domain, b.nextServer, b.bootFile,
            Sort(b.exclusions),
            if b.failover.Some? then Some(Canonical(b.failover.value)) else None)
  }

  /** The bodies the model accepts for a scope address. */
  ghost predicate Accepts(scope: Ip, b: Body) {
    && Resolvable(b)
    && (b.failover.Some? ==> FailoverFieldsOk(b.failover.value))
    && Valid(Resolve(scope, b))
  }

  /* ---- Canonical payloads ---- */

  /** An accepted list is one whose entries are well formed and pairwise disjoint. */
  lemma AcceptedExclusions(xs: seq<Range>)
    ensures AllWellFormed(Sort(xs)) && Ascending(Sort(xs)) <==> AllWellFormed(xs) && DisjointEntries(xs)
  {
    SortIsSortedPermutation(xs);
    if AllWellFormed(xs) && DisjointEntries(xs) {
      SortIsCanonical(xs);
    }
    if AllWellFormed(Sort(xs)) && Ascending(Sort(xs)) {
      AscendingIsDisjoint(Sort(xs));
      DisjointnessIgnoresOrder(Sort(xs), xs);
    }
  }

  /** Neither acceptance nor the result depends on the order the exclusions are sent in. */
  lemma ExclusionOrderIsIrrelevant(scope: Ip, b: Body, xs: seq<Range>)
    requires multiset(xs) == multiset(b.exclusions)
    ensures Accepts(scope, b) <==> Accepts(scope, b.(exclusions := xs))
    ensures Resolvable(b) ==> Resolve(scope, b) == Resolve(scope, b.(exclusions := xs))
  {
    SortIgnoresOrder(xs, b.exclusions);
  }

  /** The wire shape of a payload; a gateway of None is sent as null. */
  function ToBody(p: Payload): Body {
    Body(p.scopeName, Some(p.mask), Some(p.range.start), Some(p.range.end), p.lease, p.description,
         if p.gateway.Some? then Address(p.gateway.value) else Null, p.dns, p.domain,
         p.nextServer, p.bootFile, p.exclusions,
         if p.failover.Some? then Some(Uncanonical(p.failover.value)) else None)
  }

  /** GET/PUT parity: sending back what was returned is accepted and means the same payload. */
  lemma Resubmission(p: Payload)
    requires Valid(p)
    ensures Accepts(p.scope, ToBody(p)) && Resolve(p.scope, ToBody(p)) == p
  {
    AscendingIsDisjoint(p.exclusions);
    if p.failover.Some? {
      CanonicalIsFixed(p.failover.value);
    }
  }

  /* ---- Address safety ---- */

  /** Every accepted payload leases only host addresses of a subnet of length at most 30, never
      its own gateway, and the scope address is the network address of the range. */
  lemma AcceptedPayloadIsSafe(scope: Ip, b: Body)
    requires Accepts(scope, b)
    ensures var p := Resolve(scope, b);
            PrefixOf(p.mask).Some? && PrefixOf(p.mask).value <= 30
    ensures var p := Resolve(scope, b);
            var size := BlockSize(PrefixOf(p.mask).value);
            && scope % size == 0
            && p.range.start - p.range.start % size == scope
            && scope < p.range.start <= p.range.end < scope + size - 1
            && forall a :: p.range.Contains(a) && !Covered(a, ToSet(p.exclusions)) ==>
                 p.gateway != Some(a) && a != scope && a != scope + size - 1
  {
    var p := Resolve(scope, b);
    var n := PrefixOf(p.mask).value;
    assert Pow2(0) == 1 && Pow2(1) == 2;
    var size := BlockSize(n);
    SameBlock(scope, p.range.start, size);
  }

  /** An address inside an aligned block rounds down to the start of the block. */
  lemma SameBlock(start: nat, a: nat, size: nat)
    requires size > 0 && start % size == 0 && start <= a < start + size
    ensures a - a % size == start
  {
    var q := start / size;
    assert start == size * q;
    ModuloUnique(a, size, q, a - start);
  }

  /** What a body must meet whatever its mask and addresses. */
  ghost predicate SoundBody(b: Body) {
    && 1 <= b.lease <= 3650 && b.dns != [] && (b.nextServer == "" <==> b.bootFile == "")
    && (forall e :: e in b.exclusions ==> e.start <= e.end) && DisjointEntries(b.exclusions)
    && match b.failover
       case None => true
       case Some(f) =>
         && 0 <= f.reserve <= 100 && 1 <= f.leadTime <= 1440
         && (f.mode.HotStandby? ==> f.role.Some?) && (f.mode.LoadBalance? ==> f.loadBalance.Some?)
         && (f.loadBalance.Some? ==> 0 <= f.loadBalance.value <= 100)
  }

  /** The mask is left out or sent as 255.255.255.0. */
  predicate Slash24(b: Body) {
    b.mask.None? || b.mask == Some(0xFFFF_FF00)
  }

  /** The gateway under a /24: derived exactly when its key was left out. */
  function Slash24Gateway(scope: Ip, b: Body): Option<int> {
    match b.gateway
    case Omitted => Some(scope - scope % 256 + 254)
    case Null => None
    case Address(ip) => Some(ip as int)
  }

  /** The bounds of the range under a /24: derived exactly when both were left out. */
  function Slash24Range(scope: Ip, b: Body): (int, int) {
    if b.startRange.Some? && b.endRange.Some? then (b.startRange.value, b.endRange.value)
    else (scope - scope % 256 + 1, scope - scope % 256 + 253)
  }

  lemma Slash24Subnet(scope: Ip)
    ensures SubnetOf(scope, DEFAULT_MASK) ==
              if scope % 256 == 0 && scope + 255 < ADDRESS_SPACE then Some(Range(scope, scope + 255)) else None
    ensures scope % 256 == 0 ==> scope + 255 < ADDRESS_SPACE
  {
    DefaultMaskIsSlash24();
    Pow2Values();
  }

  lemma DerivedAddresses(scope: Ip, b: Body)
    requires Slash24(b) && Resolvable(b)
    ensures Resolve(scope, b).gateway == Slash24Gateway(scope, b)
    ensures var r := Resolve(scope, b).range; (r.start, r.end) == Slash24Range(scope, b)
  {
    HostInSlash24IsSum(scope, GATEWAY_OCTET);
    HostInSlash24IsSum(scope, RANGE_FIRST_OCTET);
    HostInSlash24IsSum(scope, RANGE_LAST_OCTET);
  }

  /** The exclusions of a sound body, sorted, are the same set and in order. */
  lemma SoundExclusions(xs: seq<Range>)
    ensures AllWellFormed(Sort(xs)) && Ascending(Sort(xs)) <==> AllWellFormed(xs) && DisjointEntries(xs)
    ensures ToSet(Sort(xs)) == ToSet(xs)
  {
    AcceptedExclusions(xs);
    SortIsSortedPermutation(xs);
    forall e
      ensures e in Sort(xs) <==> e in xs
    {
      assert e in multiset(Sort(xs)) <==> e in multiset(xs);
    }
  }

  /** Under 255.255.255.0, sent or implied alike: a body is accepted exactly when it is sound, its
      address ends in .0, its range is given whole or not at all, and all addresses fit the /24 with
      the gateway not leasable. A missing gateway is .254 and a missing range .1 to .253, each
      whether or not the other is missing. */
  lemma DerivedDefaults(scope: Ip, b: Body)
    requires Slash24(b)
    ensures var (first, last) := Slash24Range(scope, b);
            var gateway := Slash24Gateway(scope, b);
            Accepts(scope, b) <==>
              && SoundBody(b) && scope % 256 == 0 && (b.startRange.Some? <==> b.endRange.Some?)
              && scope < first <= last < scope + 255
              && (gateway.Some? ==> scope < gateway.value < scope + 255)
              && (forall e :: e in b.exclusions ==> scope <= e.start && e.end <= scope + 255)
              && (gateway.Some? && first <= gateway.value <= last ==>
                    exists e :: e in b.exclusions && e.start <= gateway.value <= e.end)
    ensures Accepts(scope, b) ==>
              var p := Resolve(scope, b);
              && p.mask == 0xFFFF_FF00
              && p.gateway == Slash24Gateway(scope, b)
              && (p.range.start, p.range.end) == Slash24Range(scope, b)
  {
    Slash24Subnet(scope);
    SoundExclusions(b.exclusions);
    if Resolvable(b) {
      DerivedAddresses(scope, b);
      FitsSlash24(scope, b);
      var p := Resolve(scope, b);
      assert GatewayExposed(p.gateway, p.range, ToSet(p.exclusions)) <==>
               && p.gateway.Some? && p.range.Contains(p.gateway.value)
               && !exists e :: e in b.exclusions && e.start <= p.gateway.value <= e.end;
      assert AllWellFormed(b.exclusions) ==> forall e :: e in b.exclusions ==> e.WellFormed();
    }
  }

  lemma FitsSlash24(scope: Ip, b: Body)
    requires Slash24(b) && Resolvable(b)
    ensures var p := Resolve(scope, b);
            FitsSubnet(scope, p.mask, p.range, p.gateway, ToSet(p.exclusions)) <==>
              && scope % 256 == 0
              && scope < p.range.start < scope + 255 && scope < p.range.end < scope + 255
              && (p.gateway.Some? ==> scope < p.gateway.value < scope + 255)
              && forall e :: e in b.exclusions ==> scope <= e.start <= scope + 255 && scope <= e.end <= scope + 255
  {
    Slash24Subnet(scope);
    SoundExclusions(b.exclusions);
  }

  /** Under any other mask nothing is derived: gateway and range must be sent. Half a range is
      refused under every mask. */
  lemma NothingElseIsDerived(scope: Ip, b: Body)
    ensures Accepts(scope, b) ==> (b.startRange.Some? <==> b.endRange.Some?)
    ensures Accepts(scope, b) && (b.gateway.Omitted? || b.startRange.None? || b.endRange.None?) ==> Slash24(b)
  {
  }
}
