/** What the API reads back: the decoder turns a server record into a payload by running the
    payload validators on it, so reading is partial. */
module Reading {
  import opened Common
  import opened Addresses
  import opened Exclusions
  import opened ScopeModel
  import opened Server

  /** An absent option reads as the empty string. */
  function Text(option: Option<string>): string {
    if option.Some? then option.value else ""
  }

  ghost function DecodedBody(r: Record, failover: Option<RawFailover>): Body {
    Body(r.name, Some(r.mask), Some(r.range.start), Some(r.range.end), r.lease, r.description,
         if r.router.Some? then Address(r.router.value) else Null,
         r.dns, Text(r.domain), Text(r.bootServer), Text(r.bootFile), Enumerate(r.exclusions), failover)
  }

  /** `build_payload_from_scope_state`: None where it raises. */
  ghost function Decode(s: Ip, r: Record, failover: Option<RawFailover>): Option<Payload> {
    if r.dns == [] then None
    else if Accepts(s, DecodedBody(r, failover)) then Some(Resolve(s, DecodedBody(r, failover)))
    else None
  }

  /** The payload a record shows. */
  ghost function Observed(s: Ip, r: Record, failover: Option<Failover>): Payload {
    Payload(s, r.name, r.mask, r.range, r.lease, r.description, r.router, r.dns, Text(r.domain),
            Text(r.bootServer), Text(r.bootFile), Enumerate(r.exclusions), failover)
  }

  /** The records the decoder can read. */
  ghost predicate Readable(s: Ip, r: Record) {
    && ValidLease(r.lease)
    && r.dns != []
    && PxePaired(Text(r.bootServer), Text(r.bootFile))
    && r.range.WellFormed()
    && (forall e :: e in r.exclusions ==> e.WellFormed()) && PairwiseDisjoint(r.exclusions)
    && FitsSubnet(s, r.mask, r.range, r.router, r.exclusions)
    && !GatewayExposed(r.router, r.range, r.exclusions)
  }

  lemma ObservedIsValid(s: Ip, r: Record, failover: Option<Failover>)
    ensures Valid(Observed(s, r, failover)) <==>
              Readable(s, r) && (failover.Some? ==> ValidFailover(failover.value))
  {
    var xs := Enumerate(r.exclusions);
    EnumerateKeepsElements(r.exclusions);
    if AllWellFormed(xs) && Ascending(xs) {
      AscendingIsDisjoint(xs);
    }
    if PairwiseDisjoint(r.exclusions) && forall e :: e in r.exclusions ==> e.WellFormed() {
      EnumerationIsCanonical(r.exclusions);
    }
  }

  lemma DecodedBodyResolves(s: Ip, r: Record, failover: Option<RawFailover>)
    requires failover.Some? ==> HasModeField(failover.value)
    ensures Resolvable(DecodedBody(r, failover))
    ensures Resolve(s, DecodedBody(r, failover)) ==
              Observed(s, r, if failover.Some? then Some(Canonical(failover.value)) else None)
  {
    SortOfSorted(Enumerate(r.exclusions));
  }

  /** Decoding succeeds exactly on readable records with a parsable failover, and then shows the
      record's own values. */
  lemma DecodeIsPartial(s: Ip, r: Record, failover: Option<RawFailover>)
    ensures Decode(s, r, failover).Some? <==>
              Readable(s, r) && (failover.Some? ==> HasModeField(failover.value) && FailoverFieldsOk(failover.value))
    ensures Decode(s, r, failover).Some? ==>
              Decode(s, r, failover).value ==
              Observed(s, r, if failover.Some? then Some(Canonical(failover.value)) else None)
  {
    if failover.Some? ==> HasModeField(failover.value) {
      DecodedBodyResolves(s, r, failover);
      ObservedIsValid(s, r, if failover.Some? then Some(Canonical(failover.value)) else None);
    }
  }

  ghost function RawFailoverOf(rels: Relationships, s: Ip): Option<RawFailover> {
    match RelationshipOf(rels, s)
    case None => None
    case Some(n) => Some(RawOf(n, rels[n]))
  }

  /** The relationship a scope belongs to, if there is one, is one the API can parse. */
  ghost predicate OwnParses(rels: Relationships, s: Ip) {
    match RelationshipOf(rels, s)
    case None => true
    case Some(n) => Parsable(n, rels[n])
  }

  ghost function FailoverOf(rels: Relationships, s: Ip): Option<Failover>
    requires OwnParses(rels, s)
  {
    match RelationshipOf(rels, s)
    case None => None
    case Some(n) => Some(Canonical(RawOf(n, rels[n])))
  }

  datatype ReadResult = Missing | Unreadable | Found(payload: Payload)

  /** `assemble_scope_state`. */
  ghost function Read(sv: State, s: Ip): ReadResult {
    if s !in sv.scopes then Missing
    else match Decode(s, sv.scopes[s], RawFailoverOf(sv.rels, s))
         case None => Unreadable
         case Some(p) => Found(p)
  }

  /** A scope can be read exactly if its record can and its own relationship parses. */
  lemma ReadIsPartial(sv: State, s: Ip)
    requires s in sv.scopes
    ensures Read(sv, s) ==
              if OwnParses(sv.rels, s) && Readable(s, sv.scopes[s])
              then Found(Observed(s, sv.scopes[s], FailoverOf(sv.rels, s)))
              else Unreadable
  {
    DecodeIsPartial(s, sv.scopes[s], RawFailoverOf(sv.rels, s));
  }

  /** The record shows the desired payload, its failover aside. */
  ghost predicate Shows(r: Record, d: Payload) {
    Observed(d.scope, r, d.failover) == d
  }

  lemma ShowsFieldwise(r: Record, d: Payload)
    requires AllWellFormed(d.exclusions) && Ascending(d.exclusions)
    ensures Shows(r, d) <==>
              && r.name == d.scopeName && r.mask == d.mask && r.range == d.range && r.lease == d.lease
              && r.description == d.description && r.router == d.gateway && r.dns == d.dns
              && Text(r.domain) == d.domain && Text(r.bootServer) == d.nextServer
              && Text(r.bootFile) == d.bootFile && r.exclusions == ToSet(d.exclusions)
  {
    CanonicalListIsEnumeration(d.exclusions);
    EnumerateKeepsElements(r.exclusions);
  }

  /** A record showing a valid payload is readable. */
  lemma ShownPayloadIsReadable(r: Record, d: Payload)
    requires Valid(d) && Shows(r, d)
    ensures Readable(d.scope, r)
  {
    ShowsFieldwise(r, d);
    AscendingIsDisjoint(d.exclusions);
  }
}
