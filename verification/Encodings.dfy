/** The JSON PowerShell sends back, the decoder that reads it, and the encodings of one record. */
module Encodings {
  import opened Common
  import opened Addresses
  import opened Exclusions
  import opened ScopeModel
  import opened Server
  import opened Reading
  import opened PowerShellText
  import opened TimeSpans
  import opened AddressText

  datatype Json = JNull | Str(text: string) | Num(value: int) | Obj(fields: map<string, Json>) | List(items: seq<Json>)

  /* ---- The decoder ---- */

  /** `normalize_list` */
  function NormalizeList(j: Json): seq<Json> {
    match j
    case JNull => []
    case List(items) => items
    case _ => [j]
  }

  function Get(j: Json, key: string): Json {
    if j.Obj? && key in j.fields then j.fields[key] else JNull
  }

  /** `_extract_ip_str`. Where the code makes text of a number, null or list this fails: such text is
      no address, and no encoding of a record has one under a text option. */
  function TextOf(j: Json): Option<string> {
    match j
    case Str(text) => Some(text)
    case Obj(_) =>
      var inner := Get(j, "IPAddressToString");
      if inner.Str? && inner.text != "" then Some(inner.text) else None
    case _ => None
  }

  function TextsOf(js: seq<Json>): Option<seq<string>> {
    if js == [] then Some([])
    else match (TextOf(js[0]), TextsOf(js[1..]))
         case (Some(x), Some(xs)) => Some([x] + xs)
         case _ => None
  }

  function AddressAt(j: Json): Option<Ip> {
    match TextOf(j) case None => None case Some(text) => AddressOf(text)
  }

  /** `extract_option`: the first value of the first matching option that has one, else "". */
  function ExtractOption(options: seq<Json>, id: int): Option<string> {
    if options == [] then Some("")
    else
      var values := NormalizeList(Get(options[0], "Value"));
      if Get(options[0], "OptionId") == Num(id) && values != [] then TextOf(values[0])
      else ExtractOption(options[1..], id)
  }

  /** `extract_option_list`: all values of the first matching option. */
  function ExtractOptionList(options: seq<Json>, id: int): Option<seq<string>> {
    if options == [] then Some([])
    else if Get(options[0], "OptionId") == Num(id) then TextsOf(NormalizeList(Get(options[0], "Value")))
    else ExtractOptionList(options[1..], id)
  }

  function OrZero(j: Json): int {
    if j.Num? then j.value else 0
  }

  /** `_parse_timespan_as_minutes` */
  function MinutesAt(j: Json): Option<int> {
    match j
    case JNull => Some(60)
    case Num(n) => Some(n)
    case Str(text) => (match ParseMinutes(text) case Some(m) => Some(m) case None => None)
    case Obj(_) =>
      if Get(j, "TotalMinutes").Num? then Some(Get(j, "TotalMinutes").value)
      else Some(OrZero(Get(j, "Days")) * 24 * 60 + OrZero(Get(j, "Hours")) * 60 + OrZero(Get(j, "Minutes")))
    case List(_) => None
  }

  /** `_parse_timespan_as_days`: an object whose Days is 0 falls back to the default of 8. */
  function DaysAt(j: Json): Option<int> {
    match j
    case JNull => Some(8)
    case Num(n) => Some(n)
    case Str(text) => (match ParseDays(text) case Some(d) => Some(d) case None => None)
    case Obj(_) => Some(if OrZero(Get(j, "Days")) != 0 then OrZero(Get(j, "Days")) else 8)
    case List(_) => None
  }

  function StringAt(j: Json, key: string): string {
    if Get(j, key).Str? then Get(j, key).text else ""
  }

  function ModeAt(j: Json): Option<Mode> {
    match Get(j, "Mode")
    case Str(text) =>
      if text == "HotStandby" then Some(HotStandby) else if text == "LoadBalance" then Some(LoadBalance) else None
    case JNull => if j.Obj? && "Mode" !in j.fields then Some(HotStandby) else None
    case _ => None
  }

  /** None where the role is given but is neither name. */
  function RoleAt(j: Json): Option<Option<Role>> {
    var text := StringAt(j, "ServerRole");
    if text == "" then Some(None)
    else if text == "Active" then Some(Some(Active))
    else if text == "Standby" then Some(Some(Standby))
    else None
  }

  /** `parse_failover`, before the model's own validation. */
  function FailoverAt(j: Json): Option<RawFailover> {
    match (ModeAt(j), RoleAt(j), MinutesAt(Get(j, "MaxClientLeadTime")))
    case (Some(mode), Some(role), Some(lead)) =>
      Some(RawFailover(StringAt(j, "PartnerServer"), StringAt(j, "Name"), mode, role,
                       OrZero(Get(j, "ReservePercent")), Some(OrZero(Get(j, "LoadBalancePercent"))), lead))
    case _ => None
  }

  /** The exclusion list, entries that are no objects skipped. */
  function ExclusionsAt(entries: seq<Json>): Option<seq<Range>> {
    if entries == [] then Some([])
    else if !entries[0].Obj? then ExclusionsAt(entries[1..])
    else match (AddressAt(Get(entries[0], "StartRange")), AddressAt(Get(entries[0], "EndRange")),
                ExclusionsAt(entries[1..]))
         case (Some(a), Some(b), Some(rest)) => Some([Range(a, b)] + rest)
         case _ => None
  }

  /** An absent router is no gateway; anything else must be an address. */
  function GatewayAt(options: seq<Json>): Option<GatewayField> {
    match ExtractOption(options, 3)
    case None => None
    case Some(text) =>
      if text == "" then Some(GatewayField.Null)
      else (match AddressOf(text) case None => None case Some(ip) => Some(Address(ip)))
  }

  /** The relationship of the state: null or empty means none. */
  function FailoverOfState(raw: Json): Option<Option<RawFailover>> {
    var entries := NormalizeList(Get(raw, "failover"));
    if entries == [] || Get(raw, "failover") == Obj(map[]) then Some(None)
    else match FailoverAt(entries[0])
         case None => None
         case Some(f) => Some(Some(f))
  }

  datatype ScopeFields = ScopeFields(mask: Ip, range: Range, lease: int)

  function ScopeFieldsAt(scope: Json): Option<ScopeFields> {
    match (AddressAt(Get(scope, "SubnetMask")), AddressAt(Get(scope, "StartRange")),
           AddressAt(Get(scope, "EndRange")), DaysAt(Get(scope, "LeaseDuration")))
    case (Some(mask), Some(a), Some(b), Some(lease)) => Some(ScopeFields(mask, Range(a, b), lease))
    case _ => None
  }

  datatype OptionFields = OptionFields(gateway: GatewayField, dns: seq<Ip>, domain: string,
                                       server: string, file: string)

  function OptionFieldsAt(options: seq<Json>): Option<OptionFields> {
    match (GatewayAt(options), ExtractOptionList(options, 6), ExtractOption(options, 15),
           ExtractOption(options, 66), ExtractOption(options, 67))
    case (Some(gateway), Some(dns), Some(domain), Some(server), Some(file)) =>
      (match AddressesOf(dns)
       case None => None
       case Some(ips) => Some(OptionFields(gateway, ips, domain, server, file)))
    case _ => None
  }

  /** `normalize_get_scope_state` and `build_payload_from_scope_state`. */
  function BodyAt(raw: Json): Option<Body> {
    var scope := Get(raw, "scope");
    match (ScopeFieldsAt(scope), OptionFieldsAt(NormalizeList(Get(raw, "options"))),
           ExclusionsAt(NormalizeList(Get(raw, "exclusions"))), FailoverOfState(raw))
    case (Some(sf), Some(of), Some(holes), Some(failover)) =>
      Some(Body(StringAt(scope, "Name"), Some(sf.mask), Some(sf.range.start), Some(sf.range.end), sf.lease,
                StringAt(scope, "Description"), of.gateway, of.dns, of.domain, of.server, of.file, holes, failover))
    case _ => None
  }

  ghost function DecodeJson(s: Ip, raw: Json): Option<Payload> {
    match BodyAt(raw)
    case None => None
    case Some(b) => if b.dns != [] && Accepts(s, b) then Some(Resolve(s, b)) else None
  }

  /* ---- The encodings of a record ---- */

  /** A string, or an address object that prints as it. */
  predicate EncodesText(j: Json, text: string) {
    j == Str(text) || (j.Obj? && text != "" && Get(j, "IPAddressToString") == Str(text))
  }

  /** A list of encodings, in order; one element may stand for itself, none may be null. */
  predicate Lists(j: Json, items: seq<Json>) {
    j == List(items) || (|items| == 1 && j == items[0] && !j.List? && !j.JNull?) || (items == [] && j == JNull)
  }

  ghost predicate EncodesTexts(j: Json, texts: seq<string>) {
    exists items :: Lists(j, items) && |items| == |texts|
                    && forall k :: 0 <= k < |items| ==> EncodesText(items[k], texts[k])
  }

  /** A lease that is not given is 8 days long. */
  predicate EncodesDays(j: Json, days: int) {
    days >= 1 &&
    (j == Num(days) || j == Str(PrintSpan(1440 * days)) || (j.Obj? && Get(j, "Days") == Num(days))
     || (j == JNull && days == 8))
  }

  /** A lead time that is not given is an hour. */
  predicate EncodesMinutes(j: Json, minutes: int) {
    minutes >= 0 &&
    (j == Num(minutes) || j == Str(PrintSpan(minutes)) || (j == JNull && minutes == 60)
     || (j.Obj? && Get(j, "TotalMinutes") == Num(minutes))
     || (j.Obj? && Get(j, "TotalMinutes") == JNull && Get(j, "Days") == Num(minutes / 1440)
         && Get(j, "Hours") == Num(minutes % 1440 / 60) && Get(j, "Minutes") == Num(minutes % 60)))
  }

  function TextOption(o: Option<string>): seq<string> {
    if o.Some? then [o.value] else []
  }

  function Quads(ips: seq<Ip>): seq<string> {
    seq(|ips|, i requires 0 <= i < |ips| => DottedQuad(ips[i]))
  }

  /** The values a record holds for an option. */
  function OptionValues(r: Record, id: int): seq<string> {
    if id == 3 then (if r.router.Some? then [DottedQuad(r.router.value)] else [])
    else if id == 6 then Quads(r.dns)
    else if id == 15 then TextOption(r.domain)
    else if id == 66 then TextOption(r.bootServer)
    else if id == 67 then TextOption(r.bootFile)
    else []
  }

  const READ_OPTIONS: set<int> := {3, 6, 15, 66, 67}

  /** One entry per option, in any order, other options among them; an option of the record that
      has values has an entry. */
  ghost predicate EncodesOptions(options: seq<Json>, r: Record) {
    && (forall i, k :: 0 <= i < k < |options| && Get(options[i], "OptionId") == Get(options[k], "OptionId") ==>
          Get(options[i], "OptionId") == JNull)
    && (forall i, id :: 0 <= i < |options| && id in READ_OPTIONS && Get(options[i], "OptionId") == Num(id) ==>
          EncodesTexts(Get(options[i], "Value"), OptionValues(r, id)))
    && forall id :: id in READ_OPTIONS && OptionValues(r, id) != [] ==>
         exists i :: 0 <= i < |options| && Get(options[i], "OptionId") == Num(id)
  }

  predicate EncodesAddress(j: Json, ip: Ip) {
    EncodesText(j, DottedQuad(ip))
  }

  /** The exclusions in any order; what is no object among them does not count. */
  ghost predicate EncodesExclusions(entries: seq<Json>, holes: seq<Range>) {
    if entries == [] then holes == []
    else if !entries[0].Obj? then EncodesExclusions(entries[1..], holes)
    else holes != []
         && EncodesAddress(Get(entries[0], "StartRange"), holes[0].start)
         && EncodesAddress(Get(entries[0], "EndRange"), holes[0].end)
         && EncodesExclusions(entries[1..], holes[1..])
  }

  function ModeName(m: Mode): string { if m.HotStandby? then "HotStandby" else "LoadBalance" }

  /** Null stands for the empty string. */
  predicate EncodesString(j: Json, text: string) {
    j == Str(text) || (j == JNull && text == "")
  }

  /** The mode in words; a relationship without one is a hot standby. */
  predicate EncodesMode(j: Json, mode: Mode) {
    Get(j, "Mode") == Str(ModeName(mode)) || (j.Obj? && "Mode" !in j.fields && mode.HotStandby?)
  }

  predicate EncodesRole(j: Json, role: Option<Role>) {
    match role
    case None => j == JNull || j == Str("")
    case Some(r) => j == Str(if r.Active? then "Active" else "Standby")
  }

  /** A percentage of 0 may come as null. */
  predicate EncodesPercent(j: Json, n: int) {
    j == Num(n) || (n == 0 && j == JNull)
  }

  predicate EncodesFailover(j: Json, f: RawFailover) {
    && j.Obj? && j.fields != map[] && f.loadBalance.Some?
    && EncodesString(Get(j, "PartnerServer"), f.partner) && EncodesString(Get(j, "Name"), f.name)
    && EncodesMode(j, f.mode) && EncodesRole(Get(j, "ServerRole"), f.role)
    && EncodesPercent(Get(j, "ReservePercent"), f.reserve)
    && EncodesPercent(Get(j, "LoadBalancePercent"), f.loadBalance.value)
    && EncodesMinutes(Get(j, "MaxClientLeadTime"), f.leadTime)
  }

  predicate EncodesScope(j: Json, r: Record) {
    && j.Obj? && EncodesString(Get(j, "Name"), r.name) && EncodesString(Get(j, "Description"), r.description)
    && EncodesAddress(Get(j, "SubnetMask"), r.mask)
    && EncodesAddress(Get(j, "StartRange"), r.range.start) && EncodesAddress(Get(j, "EndRange"), r.range.end)
    && EncodesDays(Get(j, "LeaseDuration"), r.lease)
  }

  /** `raw` is one of the ways PowerShell may serialise the record and its relationship. */
  ghost predicate Encodes(raw: Json, r: Record, failover: Option<RawFailover>) {
    && EncodesScope(Get(raw, "scope"), r)
    && (exists options :: Lists(Get(raw, "options"), options) && EncodesOptions(options, r))
    && (exists entries, holes :: Lists(Get(raw, "exclusions"), entries) && EncodesExclusions(entries, holes)
                                 && multiset(holes) == multiset(r.exclusions))
    && (exists entries :: Lists(Get(raw, "failover"), entries)
                          && if failover.None? then entries == []
                             else entries != [] && EncodesFailover(entries[0], failover.value))
  }

  /* ---- Every encoding decodes alike ---- */

  /** A value reads as a text exactly if it encodes it, and as an address exactly if it encodes that. */
  lemma TextIffEncoded(j: Json, text: string)
    ensures TextOf(j) == Some(text) <==> EncodesText(j, text)
  {
  }

  lemma AddressIffEncoded(j: Json, ip: Ip)
    ensures AddressAt(j) == Some(ip) <==> EncodesAddress(j, ip)
  {
    hide AddressOf, DottedQuad, EncodesText, TextOf;
    TextIffEncoded(j, DottedQuad(ip));
    QuadIsAddress(ip);
    if TextOf(j).Some? {
      AddressIffQuad(TextOf(j).value, ip);
    }
  }

  /** Of a relationship's words only the known ones are read; no role at all is a case of its own. */
  lemma KnownWordsOnly(j: Json)
    requires FailoverAt(j).Some?
    ensures Get(j, "Mode").Str? ==>
              Get(j, "Mode").text == if FailoverAt(j).value.mode.HotStandby? then "HotStandby" else "LoadBalance"
    ensures Get(j, "ServerRole").Str? ==>
              Get(j, "ServerRole").text == (match FailoverAt(j).value.role
                                            case None => ""
                                            case Some(r) => if r.Active? then "Active" else "Standby")
  {
  }

  lemma EncodedTextReads(j: Json, text: string)
    requires EncodesText(j, text)
    ensures TextOf(j) == Some(text)
  {
  }

  lemma EncodedAddressReads(j: Json, ip: Ip)
    requires EncodesAddress(j, ip)
    ensures AddressAt(j) == Some(ip)
  {
    QuadIsAddress(ip);
  }

  lemma ListedNormalizes(j: Json, items: seq<Json>)
    requires Lists(j, items)
    ensures NormalizeList(j) == items
  {
    if |items| == 1 && j == items[0] {
      assert items == [items[0]];
    }
  }

  lemma {:induction false} EncodedTextsRead(items: seq<Json>, texts: seq<string>)
    requires |items| == |texts| && forall k :: 0 <= k < |items| ==> EncodesText(items[k], texts[k])
    ensures TextsOf(items) == Some(texts)
  {
    if items == [] {
      assert texts == [];
    } else {
      EncodedTextReads(items[0], texts[0]);
      EncodedTextsRead(items[1..], texts[1..]);
      assert [texts[0]] + texts[1..] == texts;
    }
  }

  lemma EncodedListReads(j: Json, texts: seq<string>)
    requires EncodesTexts(j, texts)
    ensures TextsOf(NormalizeList(j)) == Some(texts) && |NormalizeList(j)| == |texts|
    ensures texts != [] ==> TextOf(NormalizeList(j)[0]) == Some(texts[0])
  {
    var items :| Lists(j, items) && |items| == |texts|
                 && forall k :: 0 <= k < |items| ==> EncodesText(items[k], texts[k]);
    ListedNormalizes(j, items);
    EncodedTextsRead(items, texts);
    if texts != [] {
      EncodedTextReads(items[0], texts[0]);
    }
  }

  lemma {:induction false} NoEntryNoValue(options: seq<Json>, id: int)
    requires forall k :: 0 <= k < |options| ==> Get(options[k], "OptionId") != Num(id)
    ensures ExtractOption(options, id) == Some("") && ExtractOptionList(options, id) == Some([])
  {
    if options != [] {
      NoEntryNoValue(options[1..], id);
    }
  }

  lemma {:induction false} OneEntryGivesValues(options: seq<Json>, id: int, i: nat)
    requires i < |options| && Get(options[i], "OptionId") == Num(id)
    requires forall k :: 0 <= k < |options| && k != i ==> Get(options[k], "OptionId") != Num(id)
    ensures var values := NormalizeList(Get(options[i], "Value"));
            && ExtractOptionList(options, id) == TextsOf(values)
            && ExtractOption(options, id) == if values == [] then Some("") else TextOf(values[0])
  {
    if i == 0 {
      NoEntryNoValue(options[1..], id);
    } else {
      OneEntryGivesValues(options[1..], id, i - 1);
    }
  }

  lemma EncodedOptionReads(options: seq<Json>, r: Record, id: int)
    requires EncodesOptions(options, r) && id in READ_OPTIONS
    ensures var values := OptionValues(r, id);
            && ExtractOptionList(options, id) == Some(values)
            && ExtractOption(options, id) == Some(if values == [] then "" else values[0])
  {
    var values := OptionValues(r, id);
    if i :| 0 <= i < |options| && Get(options[i], "OptionId") == Num(id) {
      OneEntryGivesValues(options, id, i);
      EncodedListReads(Get(options[i], "Value"), values);
      assert |values| == 0 ==> values == [];
    } else {
      NoEntryNoValue(options, id);
      assert values == [];
    }
  }

  lemma EncodedOptionsRead(options: seq<Json>, r: Record)
    requires EncodesOptions(options, r)
    ensures OptionFieldsAt(options) ==
              Some(OptionFields(if r.router.Some? then Address(r.router.value) else GatewayField.Null,
                                r.dns, Text(r.domain), Text(r.bootServer), Text(r.bootFile)))
  {
    hide EncodesOptions, ExtractOption, ExtractOptionList, AddressOf, DottedQuad;
    EncodedOptionReads(options, r, 3);
    EncodedOptionReads(options, r, 6);
    EncodedOptionReads(options, r, 15);
    EncodedOptionReads(options, r, 66);
    EncodedOptionReads(options, r, 67);
    QuadsAreAddresses(Quads(r.dns), r.dns);
    if r.router.Some? {
      QuadIsAddress(r.router.value);
    }
  }

  lemma EncodedDaysRead(j: Json, days: int)
    requires EncodesDays(j, days)
    ensures DaysAt(j) == Some(days)
  {
    hide ParseDays, PrintSpan;
    SpanRoundTrip(1440 * days);
  }

  lemma EncodedMinutesRead(j: Json, minutes: int)
    requires EncodesMinutes(j, minutes)
    ensures MinutesAt(j) == Some(minutes)
  {
    hide ParseMinutes, PrintSpan;
    SpanRoundTrip(minutes);
    MinutesAddUp(minutes);
  }

  lemma EncodedScopeReads(j: Json, r: Record)
    requires EncodesScope(j, r)
    ensures ScopeFieldsAt(j) == Some(ScopeFields(r.mask, r.range, r.lease))
  {
    EncodedAddressReads(Get(j, "SubnetMask"), r.mask);
    EncodedAddressReads(Get(j, "StartRange"), r.range.start);
    EncodedAddressReads(Get(j, "EndRange"), r.range.end);
    EncodedDaysRead(Get(j, "LeaseDuration"), r.lease);
  }

  lemma {:induction false} EncodedExclusionsRead(entries: seq<Json>, holes: seq<Range>)
    requires EncodesExclusions(entries, holes)
    ensures ExclusionsAt(entries) == Some(holes)
  {
    hide Get, AddressAt, EncodesAddress;
    if entries == [] {
      assert holes == [];
    } else if !entries[0].Obj? {
      EncodedExclusionsRead(entries[1..], holes);
    } else {
      EncodedAddressReads(Get(entries[0], "StartRange"), holes[0].start);
      EncodedAddressReads(Get(entries[0], "EndRange"), holes[0].end);
      EncodedExclusionsRead(entries[1..], holes[1..]);
      assert [holes[0]] + holes[1..] == holes;
    }
  }

  lemma EncodedFailoverReads(j: Json, f: RawFailover)
    requires EncodesFailover(j, f)
    ensures FailoverAt(j) == Some(f)
  {
    hide MinutesAt, EncodesMinutes;
    EncodedMinutesRead(Get(j, "MaxClientLeadTime"), f.leadTime);
  }

  lemma EncodedStateFailoverReads(raw: Json, failover: Option<RawFailover>, entries: seq<Json>)
    requires Lists(Get(raw, "failover"), entries)
    requires if failover.None? then entries == [] else entries != [] && EncodesFailover(entries[0], failover.value)
    ensures FailoverOfState(raw) == Some(failover)
  {
    ListedNormalizes(Get(raw, "failover"), entries);
    if failover.Some? {
      EncodedFailoverReads(entries[0], failover.value);
    }
  }

  /** All encodings of a record read as the same body, up to the order of the exclusions. */
  lemma EncodedRecordReads(raw: Json, r: Record, failover: Option<RawFailover>) returns (holes: seq<Range>)
    requires Encodes(raw, r, failover)
    ensures multiset(holes) == multiset(r.exclusions)
    ensures BodyAt(raw) == Some(DecodedBody(r, failover).(exclusions := holes))
  {
    hide ScopeFieldsAt, OptionFieldsAt, ExclusionsAt, FailoverOfState;
    hide EncodesOptions, EncodesExclusions, EncodesFailover, Lists;
    var options :| Lists(Get(raw, "options"), options) && EncodesOptions(options, r);
    var entries: seq<Json>, list: seq<Range> :|
      Lists(Get(raw, "exclusions"), entries) && EncodesExclusions(entries, list)
      && multiset(list) == multiset(r.exclusions);
    var rels :| Lists(Get(raw, "failover"), rels) && if failover.None? then rels == []
                                                     else rels != [] && EncodesFailover(rels[0], failover.value);
    EncodedScopeReads(Get(raw, "scope"), r);
    ListedNormalizes(Get(raw, "options"), options);
    EncodedOptionsRead(options, r);
    ListedNormalizes(Get(raw, "exclusions"), entries);
    EncodedExclusionsRead(entries, list);
    EncodedStateFailoverReads(raw, failover, rels);
    holes := list;
  }

  /** Decoding ignores representation: however PowerShell serialises a record (single elements
      collapsed or listed, addresses as strings or objects, spans as text, number or object,
      options and exclusions in any order), it decodes to the one payload it stands for. */
  lemma DecodingIgnoresRepresentation(s: Ip, raw: Json, r: Record, failover: Option<RawFailover>)
    requires Encodes(raw, r, failover)
    ensures DecodeJson(s, raw) == Decode(s, r, failover)
  {
    var holes := EncodedRecordReads(raw, r, failover);
    ExclusionOrderIsIrrelevant(s, DecodedBody(r, failover), holes);
  }

  /** A lease of less than a day is the exception: its text reads as 0 days, its object as 8. */
  lemma ShortLeaseDependsOnEncoding(minutes: nat, j: Json)
    requires j.Obj? && Get(j, "Days") == Num(minutes / 1440)
    ensures DaysAt(Str(PrintSpan(minutes))) == DaysAt(j) <==> minutes >= 1440
    ensures minutes < 1440 ==> DaysAt(Str(PrintSpan(minutes))) == Some(0) && DaysAt(j) == Some(8)
  {
    hide ParseDays, PrintSpan;
    SpanRoundTrip(minutes);
  }

  /* ---- Every record has an encoding ---- */

  /** The options among `ids` that the record has values for. */
  function Present(ids: seq<int>, r: Record): seq<int> {
    if ids == [] then []
    else (if OptionValues(r, ids[0]) == [] then [] else [ids[0]]) + Present(ids[1..], r)
  }

  function Strs(texts: seq<string>): seq<Json> {
    seq(|texts|, k requires 0 <= k < |texts| => Str(texts[k]))
  }

  function OptionJson(id: int, values: seq<string>): Json {
    Obj(map["OptionId" := Num(id), "Value" := List(Strs(values))])
  }

  const OPTION_ORDER: seq<int> := [3, 6, 15, 66, 67]

  function OptionsJson(r: Record): seq<Json> {
    var ids := Present(OPTION_ORDER, r);
    seq(|ids|, k requires 0 <= k < |ids| => OptionJson(ids[k], OptionValues(r, ids[k])))
  }

  function RangeJson(e: Range): Json {
    Obj(map["StartRange" := Str(DottedQuad(e.start)), "EndRange" := Str(DottedQuad(e.end))])
  }

  function RangesJson(holes: seq<Range>): seq<Json> {
    seq(|holes|, k requires 0 <= k < |holes| => RangeJson(holes[k]))
  }

  function FailoverJson(f: RawFailover): Json
    requires f.loadBalance.Some?
  {
    Obj(map["PartnerServer" := Str(f.partner), "Name" := Str(f.name), "Mode" := Str(ModeName(f.mode)),
            "ServerRole" := (match f.role
                             case None => JNull
                             case Some(r) => Str(if r.Active? then "Active" else "Standby")),
            "ReservePercent" := Num(f.reserve), "LoadBalancePercent" := Num(f.loadBalance.value),
            "MaxClientLeadTime" := Num(f.leadTime)])
  }

  function ScopeJson(r: Record): Json {
    Obj(map["Name" := Str(r.name), "Description" := Str(r.description), "SubnetMask" := Str(DottedQuad(r.mask)),
            "StartRange" := Str(DottedQuad(r.range.start)), "EndRange" := Str(DottedQuad(r.range.end)),
            "LeaseDuration" := Num(r.lease)])
  }

  /** The plainest encoding: lists, strings and numbers throughout. */
  ghost function Serialised(r: Record, failover: Option<RawFailover>): Json
    requires failover.Some? ==> failover.value.loadBalance.Some?
  {
    Obj(map["scope" := ScopeJson(r), "options" := List(OptionsJson(r)),
            "exclusions" := List(RangesJson(Enumerate(r.exclusions))),
            "failover" := if failover.Some? then FailoverJson(failover.value) else JNull])
  }

  lemma {:induction false} PresentIds(ids: seq<int>, r: Record)
    requires forall i, k :: 0 <= i < k < |ids| ==> ids[i] < ids[k]
    ensures var out := Present(ids, r);
            && (forall id :: id in out <==> id in ids && OptionValues(r, id) != [])
            && forall i, k :: 0 <= i < k < |out| ==> out[i] < out[k]
  {
    if ids != [] {
      PresentIds(ids[1..], r);
      assert ids == [ids[0]] + ids[1..];
      var rest := Present(ids[1..], r);
      forall k | 0 <= k < |rest|
        ensures ids[0] < rest[k]
      {
        assert rest[k] in ids[1..];
      }
    }
  }

  lemma StrsEncode(texts: seq<string>)
    ensures EncodesTexts(List(Strs(texts)), texts)
  {
    assert Lists(List(Strs(texts)), Strs(texts));
  }

  lemma PresentOptions(r: Record)
    ensures var ids := Present(OPTION_ORDER, r);
            && (forall id :: id in ids <==> id in READ_OPTIONS && OptionValues(r, id) != [])
            && forall i, k :: 0 <= i < k < |ids| ==> ids[i] < ids[k]
  {
    hide Present, OptionValues;
    PresentIds(OPTION_ORDER, r);
    assert forall id :: id in OPTION_ORDER <==> id in READ_OPTIONS;
  }

  lemma OptionJsonFields(r: Record, i: nat)
    requires i < |OptionsJson(r)|
    ensures var id := Present(OPTION_ORDER, r)[i];
            && Get(OptionsJson(r)[i], "OptionId") == Num(id)
            && EncodesTexts(Get(OptionsJson(r)[i], "Value"), OptionValues(r, id))
  {
    hide Present, OptionValues, EncodesTexts;
    StrsEncode(OptionValues(r, Present(OPTION_ORDER, r)[i]));
  }

  lemma OptionsJsonEncodes(r: Record)
    ensures EncodesOptions(OptionsJson(r), r)
  {
    hide Present, OptionValues, EncodesTexts, OptionJson, Get;
    var ids, options := Present(OPTION_ORDER, r), OptionsJson(r);
    PresentOptions(r);
    forall i | 0 <= i < |options|
      ensures Get(options[i], "OptionId") == Num(ids[i])
      ensures EncodesTexts(Get(options[i], "Value"), OptionValues(r, ids[i]))
    {
      OptionJsonFields(r, i);
    }
    forall id | id in READ_OPTIONS && OptionValues(r, id) != []
      ensures exists i :: 0 <= i < |options| && Get(options[i], "OptionId") == Num(id)
    {
      var i :| 0 <= i < |ids| && ids[i] == id;
      assert Get(options[i], "OptionId") == Num(id);
    }
  }

  lemma ScopeJsonEncodes(r: Record)
    requires r.lease >= 1
    ensures EncodesScope(ScopeJson(r), r)
  {
    hide DottedQuad;
  }

  lemma {:induction false} RangesJsonEncode(holes: seq<Range>)
    ensures EncodesExclusions(RangesJson(holes), holes)
  {
    hide DottedQuad;
    if holes != [] {
      assert RangesJson(holes)[1..] == RangesJson(holes[1..]);
      RangesJsonEncode(holes[1..]);
    }
  }

  lemma FailoverJsonEncodes(f: RawFailover)
    requires f.loadBalance.Some? && f.leadTime >= 0
    ensures EncodesFailover(FailoverJson(f), f)
  {
    assert "Name" in FailoverJson(f).fields;
  }

  /** Every record whose lease is at least a day has an encoding. */
  lemma SerialisedEncodes(r: Record, failover: Option<RawFailover>)
    requires r.lease >= 1 && (failover.Some? ==> failover.value.loadBalance.Some? && failover.value.leadTime >= 0)
    ensures Encodes(Serialised(r, failover), r, failover)
  {
    hide EncodesOptions, EncodesFailover, EncodesScope, EncodesExclusions;
    hide OptionsJson, ScopeJson, RangesJson, FailoverJson;
    var raw, holes := Serialised(r, failover), Enumerate(r.exclusions);
    ScopeJsonEncodes(r);
    OptionsJsonEncodes(r);
    RangesJsonEncode(holes);
    assert Lists(Get(raw, "options"), OptionsJson(r));
    assert Lists(Get(raw, "exclusions"), RangesJson(holes));
    if failover.Some? {
      FailoverJsonEncodes(failover.value);
      FailoverJsonIsObject(failover.value);
      assert Lists(Get(raw, "failover"), [FailoverJson(failover.value)]);
    } else {
      assert Lists(Get(raw, "failover"), []);
    }
  }

  lemma FailoverJsonIsObject(f: RawFailover)
    requires f.loadBalance.Some?
    ensures FailoverJson(f).Obj?
  {
  }

  /** Round trip: what a readable record serialises to decodes to what the record shows. */
  lemma SerialisedReadsBack(s: Ip, r: Record, failover: Option<RawFailover>)
    requires Readable(s, r)
    requires failover.Some? ==>
               HasModeField(failover.value) && FailoverFieldsOk(failover.value) && failover.value.loadBalance.Some?
    ensures DecodeJson(s, Serialised(r, failover)) ==
              Some(Observed(s, r, if failover.Some? then Some(Canonical(failover.value)) else None))
  {
    SerialisedEncodes(r, failover);
    DecodingIgnoresRepresentation(s, Serialised(r, failover), r, failover);
    DecodeIsPartial(s, r, failover);
  }
}
