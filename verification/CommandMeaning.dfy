/** How the DHCP server reads a parsed cmdlet call, from names, parameters and values as Windows
    documents them, and that every call the reconciler sends means the step it was written for. */
module CommandMeaning {
  import opened Common
  import opened Addresses
  import opened ScopeModel
  import opened Server
  import opened PowerShellText
  import opened TimeSpans
  import opened AddressText
  import opened CommandText

  /* ---- Vocabulary ---- */

  function ReadVerb(text: string): Option<Verb> {
    if text == "Set" then Some(Set)
    else if text == "Add" then Some(Add)
    else if text == "Remove" then Some(Remove)
    else if text == "Invoke" then Some(Invoke)
    else None
  }

  function ReadNoun(text: string): Option<Noun> {
    if text == "Scope" then Some(Scope)
    else if text == "OptionValue" then Some(OptionValue)
    else if text == "ExclusionRange" then Some(ExclusionRange)
    else if text == "Failover" then Some(Failover_)
    else if text == "FailoverScope" then Some(FailoverScope)
    else if text == "FailoverReplication" then Some(FailoverReplication)
    else None
  }

  /** Verb, hyphen, noun; the nouns of the module share a prefix. */
  function ReadCmdlet(name: string): Option<Cmdlet> {
    match SplitOnce(name, '-')
    case None => None
    case Some((verb, noun)) =>
      if |noun| < 12 || noun[..12] != "DhcpServerv4" then None
      else match (ReadVerb(verb), ReadNoun(noun[12..]))
           case (Some(v), Some(n)) => Some(Cmdlet(v, n))
           case _ => None
  }

  function ReadScopeFlag(text: string): Option<Flag> {
    if text == "-ScopeId" then Some(ScopeId)
    else if text == "-StartRange" then Some(StartRange)
    else if text == "-EndRange" then Some(EndRange)
    else if text == "-SubnetMask" then Some(SubnetMask)
    else if text == "-State" then Some(StateFlag)
    else if text == "-Name" then Some(NameFlag)
    else if text == "-LeaseDuration" then Some(LeaseDuration)
    else if text == "-Description" then Some(Description)
    else None
  }

  function ReadOptionFlag(text: string): Option<Flag> {
    if text == "-DnsServer" then Some(DnsServer)
    else if text == "-DnsDomain" then Some(DnsDomain)
    else if text == "-Router" then Some(RouterFlag)
    else if text == "-OptionId" then Some(OptionIdFlag)
    else if text == "-Value" then Some(Value)
    else if text == "-Force" then Some(Force)
    else if text == "-ErrorAction" then Some(ErrorAction)
    else None
  }

  function ReadFailoverFlag(text: string): Option<Flag> {
    if text == "-PartnerServer" then Some(PartnerServer)
    else if text == "-MaxClientLeadTime" then Some(MaxClientLeadTime)
    else if text == "-ServerRole" then Some(ServerRole)
    else if text == "-ReservePercent" then Some(ReservePercent)
    else if text == "-LoadBalancePercent" then Some(LoadBalancePercent)
    else None
  }

  function ReadFlag(text: string): Option<Flag> {
    if ReadScopeFlag(text).Some? then ReadScopeFlag(text)
    else if ReadOptionFlag(text).Some? then ReadOptionFlag(text)
    else ReadFailoverFlag(text)
  }

  /* ---- Values ---- */

  function ReadText(a: Arg): Option<string> {
    if a.Strings? && |a.values| == 1 then Some(a.values[0]) else None
  }

  function ReadAddress(a: Arg): Option<Ip> {
    match ReadText(a) case None => None case Some(text) => AddressOf(text)
  }

  function ReadAddresses(a: Arg): Option<seq<Ip>> {
    if a.Strings? then AddressesOf(a.values) else None
  }

  function ReadNumber(a: Arg): Option<nat> {
    if a.Word? then ToInt(a.word) else None
  }

  /** The minutes of a `New-TimeSpan`. */
  function ReadMinutes(a: Arg): Option<nat> {
    if !a.Span? || ToInt(a.amount).None? then None
    else if a.spanFlag == "-Days" then Some(24 * 60 * ToInt(a.amount).value)
    else if a.spanFlag == "-Minutes" then Some(ToInt(a.amount).value)
    else None
  }

  function ReadRole(a: Arg): Option<Role> {
    if a == Word("Active") then Some(Active) else if a == Word("Standby") then Some(Standby) else None
  }

  function ReadOptionId(a: Arg): Option<OptionId> {
    match ReadNumber(a)
    case None => None
    case Some(n) =>
      if n == 3 then Some(Router)
      else if n == 66 then Some(BootServer)
      else if n == 67 then Some(BootFile)
      else None
  }

  /* ---- Parameters ---- */

  /** Every parameter is one the cmdlets know and given once. */
  predicate KnownOnce(params: seq<Param>) {
    && (forall i :: 0 <= i < |params| ==> ReadFlag(params[i].flag).Some?)
    && forall i, k :: 0 <= i < k < |params| ==> ReadFlag(params[i].flag) != ReadFlag(params[k].flag)
  }

  /** The parameters given, by what they are. */
  function Given(params: seq<Param>): map<Flag, Arg>
    requires KnownOnce(params)
  {
    map i | 0 <= i < |params| :: ReadFlag(params[i].flag).value := params[i].arg
  }

  /* ---- Calls ---- */

  /** The range a call gives. */
  function ReadRange(g: map<Flag, Arg>): Option<Range>
    requires StartRange in g && EndRange in g
  {
    match (ReadAddress(g[StartRange]), ReadAddress(g[EndRange]))
    case (Some(a), Some(b)) => Some(Range(a, b))
    case _ => None
  }

  datatype Basics = Basics(name: string, lease: nat, description: string)

  /** Name, lease in days and description. */
  function ReadBasics(g: map<Flag, Arg>): Option<Basics>
    requires NameFlag in g && LeaseDuration in g && Description in g
  {
    match (ReadText(g[NameFlag]), ReadMinutes(g[LeaseDuration]), ReadText(g[Description]))
    case (Some(name), Some(minutes), Some(description)) =>
      if minutes % 1440 == 0 then Some(Basics(name, minutes / 1440, description)) else None
    case _ => None
  }

  function OnScope(g: map<Flag, Arg>, e: Option<Edit>): Option<Cmd>
    requires ScopeId in g
  {
    match (ReadAddress(g[ScopeId]), e)
    case (Some(s), Some(edit)) => Some(EditScope(s, edit))
    case _ => None
  }

  function ReadSetScope(g: map<Flag, Arg>): Option<Cmd> {
    if g.Keys == {ScopeId, StartRange, EndRange, ErrorAction} then
      OnScope(g, match ReadRange(g) case None => None case Some(r) => Some(SetRange(r)))
    else if g.Keys == {ScopeId, NameFlag, LeaseDuration, Description, ErrorAction} then
      OnScope(g, match ReadBasics(g)
                 case None => None
                 case Some(b) => Some(SetParams(b.name, b.lease, b.description)))
    else None
  }

  /** Without -Force the server would check the resolvers first and may refuse them. */
  function ReadSetOption(g: map<Flag, Arg>): Option<Cmd> {
    if g.Keys == {ScopeId, DnsServer, DnsDomain, Force, ErrorAction} then
      OnScope(g, match (ReadAddresses(g[DnsServer]), ReadText(g[DnsDomain]))
                 case (Some(dns), Some(domain)) => Some(SetOptions(dns, domain, None))
                 case _ => None)
    else if g.Keys == {ScopeId, DnsServer, DnsDomain, RouterFlag, Force, ErrorAction} then
      OnScope(g, match (ReadAddresses(g[DnsServer]), ReadText(g[DnsDomain]), ReadAddress(g[RouterFlag]))
                 case (Some(dns), Some(domain), Some(ip)) => Some(SetOptions(dns, domain, Some(ip)))
                 case _ => None)
    else if g.Keys == {ScopeId, OptionIdFlag, Value, Force, ErrorAction} then
      OnScope(g, match (ReadOptionId(g[OptionIdFlag]), ReadText(g[Value]))
                 case (Some(BootServer), Some(text)) => Some(SetBootServer(text))
                 case (Some(BootFile), Some(text)) => Some(SetBootFile(text))
                 case _ => None)
    else None
  }

  function ReadRemoveOption(g: map<Flag, Arg>): Option<Cmd> {
    if g.Keys == {ScopeId, OptionIdFlag, ErrorAction} then
      OnScope(g, match ReadOptionId(g[OptionIdFlag]) case None => None case Some(id) => Some(RemoveOption(id)))
    else None
  }

  function ReadExclusion(g: map<Flag, Arg>, added: bool): Option<Cmd> {
    if g.Keys == {ScopeId, StartRange, EndRange, ErrorAction} then
      OnScope(g, match ReadRange(g)
                 case None => None
                 case Some(hole) => Some(if added then AddExclusion(hole) else RemoveExclusion(hole)))
    else None
  }

  /** The network an address lies in. */
  function NetworkOf(a: Ip, mask: Ip): Option<Ip> {
    match PrefixOf(mask)
    case None => None
    case Some(n) =>
      if n <= 32 then
        RoundsDown(a, BlockSize(n));
        Some(a - a % BlockSize(n))
      else None
  }

  lemma RoundsDown(a: nat, size: nat)
    requires size > 0
    ensures a % size <= a
  {
    assert a == size * (a / size) + a % size;
  }

  /** The new scope's address is the network of its range under its mask. */
  function ReadAddScope(g: map<Flag, Arg>): Option<Cmd> {
    if g.Keys == {NameFlag, StartRange, EndRange, SubnetMask, StateFlag, LeaseDuration, Description, ErrorAction}
       && g[StateFlag] == Word("Active")
    then
      match (ReadBasics(g), ReadRange(g), ReadAddress(g[SubnetMask]))
      case (Some(b), Some(r), Some(mask)) =>
        (match NetworkOf(r.start, mask)
         case None => None
         case Some(s) => Some(AddScope(s, mask, r, b.name, b.lease, b.description)))
      case _ => None
    else None
  }

  /** The percentage given tells the mode. */
  function ReadAddFailover(g: map<Flag, Arg>): Option<Cmd> {
    if g.Keys == {NameFlag, PartnerServer, ScopeId, MaxClientLeadTime, Force, ServerRole, ReservePercent, ErrorAction}
    then
      match (ReadText(g[NameFlag]), ReadText(g[PartnerServer]), ReadAddress(g[ScopeId]),
             ReadMinutes(g[MaxClientLeadTime]), ReadRole(g[ServerRole]), ReadNumber(g[ReservePercent]))
      case (Some(n), Some(partner), Some(s), Some(lead), Some(role), Some(reserve)) =>
        Some(CreateFailover(s, Failover(partner, n, HotStandby, role, reserve, 0, lead)))
      case _ => None
    else if g.Keys == {NameFlag, PartnerServer, ScopeId, MaxClientLeadTime, Force, LoadBalancePercent, ErrorAction}
    then
      match (ReadText(g[NameFlag]), ReadText(g[PartnerServer]), ReadAddress(g[ScopeId]),
             ReadMinutes(g[MaxClientLeadTime]), ReadNumber(g[LoadBalancePercent]))
      case (Some(n), Some(partner), Some(s), Some(lead), Some(share)) =>
        Some(CreateFailover(s, Failover(partner, n, LoadBalance, Active, 0, share, lead)))
      case _ => None
    else None
  }

  /** Which scope a relationship is changed for is not said and does not matter. */
  function ReadSetFailover(g: map<Flag, Arg>): Option<Cmd> {
    if g.Keys == {NameFlag, MaxClientLeadTime, ReservePercent, ErrorAction} then
      match (ReadText(g[NameFlag]), ReadMinutes(g[MaxClientLeadTime]), ReadNumber(g[ReservePercent]))
      case (Some(n), Some(lead), Some(reserve)) => Some(TuneFailover(0, n, lead, HotStandby, reserve))
      case _ => None
    else if g.Keys == {NameFlag, MaxClientLeadTime, LoadBalancePercent, ErrorAction} then
      match (ReadText(g[NameFlag]), ReadMinutes(g[MaxClientLeadTime]), ReadNumber(g[LoadBalancePercent]))
      case (Some(n), Some(lead), Some(share)) => Some(TuneFailover(0, n, lead, LoadBalance, share))
      case _ => None
    else None
  }

  function ReadScopeOnly(g: map<Flag, Arg>): Option<Ip> {
    if g.Keys == {ScopeId, Force, ErrorAction} then ReadAddress(g[ScopeId]) else None
  }

  function ReadAddFailoverScope(g: map<Flag, Arg>): Option<Cmd> {
    if g.Keys == {NameFlag, ScopeId, ErrorAction} then
      match (ReadText(g[NameFlag]), ReadAddress(g[ScopeId]))
      case (Some(n), Some(s)) => Some(JoinFailover(s, n))
      case _ => None
    else None
  }

  function ReadRemoveFailoverScope(g: map<Flag, Arg>): Option<Cmd> {
    if g.Keys == {NameFlag, ScopeId, Force, ErrorAction} then
      match (ReadText(g[NameFlag]), ReadAddress(g[ScopeId]))
      case (Some(n), Some(s)) => Some(LeaveFailover(s, n))
      case _ => None
    else None
  }

  function ReadRemoveFailover(g: map<Flag, Arg>): Option<Cmd> {
    if g.Keys == {NameFlag, Force, ErrorAction} then
      match ReadText(g[NameFlag]) case None => None case Some(n) => Some(DropFailover(0, n))
    else None
  }

  function ReadCall(c: Cmdlet, g: map<Flag, Arg>): Option<Cmd> {
    match c.noun
    case Scope =>
      (match c.verb
       case Set => ReadSetScope(g)
       case Add => ReadAddScope(g)
       case Remove => (match ReadScopeOnly(g) case None => None case Some(s) => Some(RemoveScope(s)))
       case Invoke => None)
    case OptionValue =>
      if c.verb.Set? then ReadSetOption(g) else if c.verb.Remove? then ReadRemoveOption(g) else None
    case ExclusionRange =>
      if c.verb.Add? || c.verb.Remove? then ReadExclusion(g, c.verb.Add?) else None
    case Failover_ =>
      (match c.verb
       case Set => ReadSetFailover(g)
       case Add => ReadAddFailover(g)
       case Remove => ReadRemoveFailover(g)
       case Invoke => None)
    case FailoverScope =>
      if c.verb.Add? then ReadAddFailoverScope(g)
      else if c.verb.Remove? then ReadRemoveFailoverScope(g)
      else None
    case FailoverReplication =>
      if c.verb.Invoke? then (match ReadScopeOnly(g) case None => None case Some(s) => Some(Replicate(s))) else None
  }

  /** What a call asks of the server; None if it is not one of the calls described here, or if its
      errors would not stop the script. */
  function Meaning(command: Command): Option<Cmd> {
    match ReadCmdlet(command.name)
    case None => None
    case Some(c) =>
      if KnownOnce(command.params) && ErrorAction in Given(command.params)
         && Given(command.params)[ErrorAction] == Word("Stop")
      then ReadCall(c, Given(command.params))
      else None
  }

  /** What the server does with a line of text. */
  function Obey(sv: Server.State, text: string): Option<Result<Server.State, Refusal>> {
    match Parse(Lex(text))
    case None => None
    case Some(command) =>
      (match Meaning(command)
       case None => None
       case Some(c) => Some(Apply(sv, c)))
  }

  /* ---- The vocabulary is the server's ---- */

  lemma ReadsVerb(v: Verb)
    ensures ReadVerb(VerbText(v)) == Some(v) && '-' !in VerbText(v)
  {
  }

  lemma ReadsNoun(n: Noun)
    ensures ReadNoun(NounText(n)) == Some(n)
  {
  }

  lemma ReadsName(c: Cmdlet)
    ensures ReadCmdlet(Name(c)) == Some(c)
  {
    hide ReadVerb, ReadNoun, VerbText, NounText;
    ReadsVerb(c.verb);
    ReadsNoun(c.noun);
    var noun := "DhcpServerv4" + NounText(c.noun);
    assert "-DhcpServerv4" + NounText(c.noun) == ['-'] + noun;
    assert noun[..12] == "DhcpServerv4" && noun[12..] == NounText(c.noun);
    SplitsAtFirst(VerbText(c.verb), '-', noun);
  }

  lemma ReadsFlag(f: Flag)
    requires !f.Days? && !f.Minutes?
    ensures ReadFlag(FlagText(f)) == Some(f)
  {
  }

  lemma ReadsAddress(ip: Ip)
    ensures ReadAddress(CommandText.Address(ip)) == Some(ip)
  {
    QuadIsAddress(ip);
  }

  lemma ReadsAddresses(ips: seq<Ip>)
    ensures ReadAddresses(AddressList(ips)) == Some(ips)
  {
    QuadsAreAddresses(AddressList(ips).values, ips);
  }

  lemma ReadsNumber(n: int)
    requires n >= 0
    ensures ReadNumber(Word(Number(n))) == Some(n)
    ensures ReadMinutes(Span(FlagText(Days), Number(n))) == Some(1440 * n)
    ensures ReadMinutes(Span(FlagText(Minutes), Number(n))) == Some(n)
  {
    DecimalValue(n);
  }

  lemma ReadsRole(r: Role)
    ensures ReadRole(Word(RoleName(r))) == Some(r)
  {
  }

  lemma TwoDigitNumber(a: char, b: char)
    requires '0' <= a <= '9' && '0' <= b <= '9'
    ensures ToInt([a]) == Some(a as int - '0' as int)
    ensures ToInt([a, b]) == Some(10 * (a as int - '0' as int) + (b as int - '0' as int))
  {
    assert [a][..0] == "" && [a, b][..1] == [a];
    assert DigitsValue([a]) == a as int - '0' as int;
  }

  lemma ReadsOptionId(id: OptionId)
    ensures ReadOptionId(Word(OptionNumber(id))) == Some(id)
  {
    hide ToInt;
    TwoDigitNumber('3', '3');
    TwoDigitNumber('6', '6');
    TwoDigitNumber('6', '7');
  }

  predicate Readable(f: Flag) { !f.Days? && !f.Minutes? }

  predicate Distinct(flags: seq<Flag>) {
    forall i, k :: 0 <= i < k < |flags| ==> flags[i] != flags[k]
  }

  function Spoken(flags: seq<Flag>, args: seq<Arg>): seq<Param>
    requires |flags| == |args|
  {
    seq(|flags|, i requires 0 <= i < |flags| => P(flags[i], args[i]))
  }

  /** Distinct parameters are given as what they were printed as. */
  lemma GivenAsSpoken(flags: seq<Flag>, args: seq<Arg>)
    requires |flags| == |args| && Distinct(flags) && forall f :: f in flags ==> Readable(f)
    ensures KnownOnce(Spoken(flags, args))
    ensures var g := Given(Spoken(flags, args));
            g.Keys == (set f | f in flags) && forall i :: 0 <= i < |flags| ==> g[flags[i]] == args[i]
  {
    hide FlagText, ReadFlag;
    var params := Spoken(flags, args);
    forall i | 0 <= i < |flags|
      ensures ReadFlag(params[i].flag) == Some(flags[i]) && params[i].arg == args[i]
    {
      assert flags[i] in flags;
      ReadsFlag(flags[i]);
    }
  }

  lemma OneMore(flags: seq<Flag>, args: seq<Arg>, f: Flag, a: Arg)
    requires |flags| == |args|
    ensures Spoken(flags, args) + [P(f, a)] == Spoken(flags + [f], args + [a])
  {
  }

  /** Just these parameters are given, and -ErrorAction. */
  ghost predicate Says(g: map<Flag, Arg>, flags: seq<Flag>, args: seq<Arg>) {
    && |flags| == |args|
    && (forall f :: f in g <==> f in flags || f.ErrorAction?)
    && forall i :: 0 <= i < |flags| ==> g[flags[i]] == args[i]
  }

  /** What a printed call gives the server to read. */
  lemma Hear(c: Cmd, flags: seq<Flag>, args: seq<Arg>) returns (g: map<Flag, Arg>)
    requires |flags| == |args| && Params(c) == Spoken(flags, args)
    requires Distinct(flags) && forall f :: f in flags ==> Readable(f) && !f.ErrorAction?
    ensures Meaning(CommandOf(c)) == ReadCall(CmdletOf(c), g)
    ensures Says(g, flags, args)
  {
    hide Params, CmdletOf, Name, ReadCmdlet, ReadCall, P, KnownOnce, Given, FlagText, Spoken;
    var allFlags, allArgs := flags + [ErrorAction], args + [Word("Stop")];
    OneMore(flags, args, ErrorAction, Word("Stop"));
    ReadsName(CmdletOf(c));
    GivenAsSpoken(allFlags, allArgs);
    g := Given(CommandOf(c).params);
    assert allFlags[|flags|] == ErrorAction && allArgs[|flags|] == Word("Stop");
    forall i | 0 <= i < |flags|
      ensures g[flags[i]] == args[i]
    {
      assert allFlags[i] == flags[i] && allArgs[i] == args[i];
    }
  }

  lemma RangeSpoken(s: Ip, e: Edit, r: Range)
    requires e == SetRange(r) || e == AddExclusion(r) || e == RemoveExclusion(r)
    ensures Params(EditScope(s, e)) ==
              Spoken([ScopeId, StartRange, EndRange],
                     [CommandText.Address(s), CommandText.Address(r.start), CommandText.Address(r.end)])
  {
    hide CommandText.Address, FlagText;
  }

  lemma RangeGiven(g: map<Flag, Arg>, s: Ip, r: Range)
    requires Says(g, [ScopeId, StartRange, EndRange],
                  [CommandText.Address(s), CommandText.Address(r.start), CommandText.Address(r.end)])
    ensures g.Keys == {ScopeId, StartRange, EndRange, ErrorAction}
    ensures g[ScopeId] == CommandText.Address(s)
    ensures ReadRange(g) == Some(r)
  {
    hide CommandText.Address, FlagText, ReadAddress;
    var flags := [ScopeId, StartRange, EndRange];
    var args := [CommandText.Address(s), CommandText.Address(r.start), CommandText.Address(r.end)];
    assert g[flags[0]] == args[0] && g[flags[1]] == args[1] && g[flags[2]] == args[2];
    assert g.Keys == {ScopeId, StartRange, EndRange, ErrorAction};
    ReadsAddress(r.start);
    ReadsAddress(r.end);
  }

  lemma RangeEditMeans(s: Ip, e: Edit)
    requires e.SetRange? || e.AddExclusion? || e.RemoveExclusion?
    ensures Meaning(CommandOf(EditScope(s, e))) == Some(EditScope(s, e))
  {
    hide ReadScopeOnly, ReadAddFailoverScope, ReadRemoveFailoverScope, ReadRemoveFailover, Says, ReadRange, Params;
    hide EditParams, Meaning, CommandOf, CommandText.Address, ReadAddress, FlagText;
    hide ReadSetOption, ReadRemoveOption, ReadAddScope, ReadAddFailover, ReadSetFailover, ReadBasics;
    var r := if e.SetRange? then e.range else e.hole;
    RangeSpoken(s, e, r);
    var g := Hear(EditScope(s, e), [ScopeId, StartRange, EndRange],
                  [CommandText.Address(s), CommandText.Address(r.start), CommandText.Address(r.end)]);
    RangeGiven(g, s, r);
    ReadsAddress(s);
  }

  lemma ReadsText(x: string)
    ensures ReadText(Text(x)) == Some(x)
  {
  }

  lemma ParamsSpoken(s: Ip, e: Edit)
    requires e.SetParams?
    ensures Params(EditScope(s, e)) ==
              Spoken([ScopeId, NameFlag, LeaseDuration, Description],
                     [CommandText.Address(s), Text(e.name), Span(FlagText(Days), Number(e.lease)), Text(e.description)])
  {
    hide CommandText.Address, Text, AddressList, Number, OptionNumber, FlagText;
  }

  lemma ParamEditMeans(s: Ip, e: Edit)
    requires e.SetParams? && e.lease >= 0
    ensures Meaning(CommandOf(EditScope(s, e))) == Some(EditScope(s, e))
  {
    hide ReadExclusion, ReadScopeOnly, ReadAddFailoverScope, ReadRemoveFailoverScope, ReadRemoveFailover;
    hide Params, EditParams, Meaning, CommandOf, CommandText.Address, Text, AddressList, Number, OptionNumber, FlagText;
    hide ReadAddress, ReadAddresses, ReadText, ReadMinutes, ReadNumber, ReadRole, ReadOptionId;
    hide ReadSetOption, ReadRemoveOption, ReadAddScope, ReadAddFailover, ReadSetFailover, ReadRange;
    var flags := [ScopeId, NameFlag, LeaseDuration, Description];
    var args := [CommandText.Address(s), Text(e.name), Span(FlagText(Days), Number(e.lease)), Text(e.description)];
    ParamsSpoken(s, e);
    var g := Hear(EditScope(s, e), flags, args);
    assert g[flags[0]] == args[0] && g[flags[1]] == args[1] && g[flags[2]] == args[2] && g[flags[3]] == args[3];
    assert g.Keys == {ScopeId, NameFlag, LeaseDuration, Description, ErrorAction};
    assert StartRange !in g;
    ReadsAddress(s);
    ReadsText(e.name);
    ReadsNumber(e.lease);
    ReadsText(e.description);
  }

  /** The server-side half for the options of every payload. */
  lemma ReadsOptions(g: map<Flag, Arg>, s: Ip, dns: seq<Ip>, domain: string, router: Option<Ip>)
    requires g.Keys == {ScopeId, DnsServer, DnsDomain, Force, ErrorAction} + if router.Some? then {RouterFlag} else {}
    requires g[ScopeId] == CommandText.Address(s) && g[DnsServer] == AddressList(dns) && g[DnsDomain] == Text(domain)
    requires router.Some? ==> g[RouterFlag] == CommandText.Address(router.value)
    ensures ReadSetOption(g) == Some(EditScope(s, SetOptions(dns, domain, router)))
  {
    hide CommandText.Address, Text, AddressList, Number, OptionNumber, FlagText;
    hide ReadAddress, ReadAddresses, ReadText, ReadMinutes, ReadNumber, ReadRole, ReadOptionId;
    ReadsAddress(s);
    ReadsAddresses(dns);
    ReadsText(domain);
    if router.Some? {
      ReadsAddress(router.value);
      assert RouterFlag in g;
    }
  }

  function OptionFlags(router: Option<Ip>): seq<Flag> {
    [ScopeId, DnsServer, DnsDomain] + (if router.Some? then [RouterFlag] else []) + [Force]
  }

  function OptionArgs(s: Ip, dns: seq<Ip>, domain: string, router: Option<Ip>): seq<Arg> {
    [CommandText.Address(s), AddressList(dns), Text(domain)]
    + (if router.Some? then [CommandText.Address(router.value)] else []) + [Switch]
  }

  lemma OptionsSpoken(s: Ip, dns: seq<Ip>, domain: string, router: Option<Ip>)
    ensures |OptionFlags(router)| == |OptionArgs(s, dns, domain, router)|
    ensures Params(EditScope(s, SetOptions(dns, domain, router))) ==
              Spoken(OptionFlags(router), OptionArgs(s, dns, domain, router))
  {
    hide CommandText.Address, Text, AddressList, FlagText;
    if router.Some? {
      assert OptionFlags(router) == [ScopeId, DnsServer, DnsDomain, RouterFlag, Force];
    } else {
      assert OptionFlags(router) == [ScopeId, DnsServer, DnsDomain, Force];
    }
  }

  lemma OptionFlagsAreDistinct(router: Option<Ip>)
    ensures Distinct(OptionFlags(router)) && forall f :: f in OptionFlags(router) ==> Readable(f) && !f.ErrorAction?
  {
  }

  lemma OptionsGiven(g: map<Flag, Arg>, s: Ip, dns: seq<Ip>, domain: string, router: Option<Ip>)
    requires Says(g, OptionFlags(router), OptionArgs(s, dns, domain, router))
    ensures g.Keys == {ScopeId, DnsServer, DnsDomain, Force, ErrorAction} + if router.Some? then {RouterFlag} else {}
    ensures g[ScopeId] == CommandText.Address(s) && g[DnsServer] == AddressList(dns) && g[DnsDomain] == Text(domain)
    ensures router.Some? ==> g[RouterFlag] == CommandText.Address(router.value)
  {
    hide CommandText.Address, Text, AddressList, FlagText;
    var flags, args := OptionFlags(router), OptionArgs(s, dns, domain, router);
    assert g[flags[0]] == args[0] && g[flags[1]] == args[1] && g[flags[2]] == args[2] && g[flags[3]] == args[3];
    assert g.Keys == {ScopeId, DnsServer, DnsDomain, Force, ErrorAction} + if router.Some? then {RouterFlag} else {};
  }

  lemma OptionEditMeans(s: Ip, e: Edit)
    requires e.SetOptions?
    ensures Meaning(CommandOf(EditScope(s, e))) == Some(EditScope(s, e))
  {
    hide ReadExclusion, ReadScopeOnly, ReadAddFailoverScope, ReadRemoveFailoverScope, ReadRemoveFailover;
    hide Meaning, CommandOf, Params, EditParams, Says, OptionFlags, OptionArgs, Distinct, Readable;
    hide ReadAddress, ReadAddresses, ReadText, ReadMinutes, ReadNumber, ReadRole, ReadOptionId;
    hide ReadSetScope, ReadSetOption, ReadRemoveOption, ReadAddScope, ReadAddFailover, ReadSetFailover;
    OptionsSpoken(s, e.dns, e.domain, e.router);
    OptionFlagsAreDistinct(e.router);
    var g := Hear(EditScope(s, e), OptionFlags(e.router), OptionArgs(s, e.dns, e.domain, e.router));
    OptionsGiven(g, s, e.dns, e.domain, e.router);
    ReadsOptions(g, s, e.dns, e.domain, e.router);
  }

  lemma ReadsBootOption(g: map<Flag, Arg>, s: Ip, id: OptionId, text: string)
    requires g.Keys == {ScopeId, OptionIdFlag, Value, Force, ErrorAction} && !id.Router?
    requires g[ScopeId] == CommandText.Address(s) && g[OptionIdFlag] == Word(OptionNumber(id)) && g[Value] == Text(text)
    ensures ReadSetOption(g) == Some(EditScope(s, if id.BootServer? then SetBootServer(text) else SetBootFile(text)))
  {
    hide CommandText.Address, Text, AddressList, Number, OptionNumber, FlagText;
    hide ReadAddress, ReadAddresses, ReadText, ReadMinutes, ReadNumber, ReadRole, ReadOptionId;
    assert DnsServer !in g && OptionIdFlag in g;
    ReadsAddress(s);
    ReadsOptionId(id);
    ReadsText(text);
  }

  lemma BootSpoken(s: Ip, e: Edit, id: OptionId, text: string)
    requires id == (if e.SetBootServer? then BootServer else BootFile) && !id.Router?
    requires e == if id.BootServer? then SetBootServer(text) else SetBootFile(text)
    ensures Params(EditScope(s, e)) ==
              Spoken([ScopeId, OptionIdFlag, Value, Force],
                     [CommandText.Address(s), Word(OptionNumber(id)), Text(text), Switch])
  {
    hide CommandText.Address, Text, OptionNumber, FlagText;
  }

  lemma BootGiven(g: map<Flag, Arg>, s: Ip, id: OptionId, text: string)
    requires Says(g, [ScopeId, OptionIdFlag, Value, Force],
                  [CommandText.Address(s), Word(OptionNumber(id)), Text(text), Switch])
    ensures g.Keys == {ScopeId, OptionIdFlag, Value, Force, ErrorAction}
    ensures g[ScopeId] == CommandText.Address(s) && g[OptionIdFlag] == Word(OptionNumber(id)) && g[Value] == Text(text)
  {
    hide CommandText.Address, Text, OptionNumber, FlagText;
    var flags := [ScopeId, OptionIdFlag, Value, Force];
    var args := [CommandText.Address(s), Word(OptionNumber(id)), Text(text), Switch];
    assert g[flags[0]] == args[0] && g[flags[1]] == args[1] && g[flags[2]] == args[2];
    assert g.Keys == {ScopeId, OptionIdFlag, Value, Force, ErrorAction};
  }

  lemma BootEditMeans(s: Ip, e: Edit)
    requires e.SetBootServer? || e.SetBootFile?
    ensures Meaning(CommandOf(EditScope(s, e))) == Some(EditScope(s, e))
  {
    hide ReadExclusion, ReadScopeOnly, ReadAddFailoverScope, ReadRemoveFailoverScope, ReadRemoveFailover;
    hide Says, Params, EditParams, Meaning, CommandOf, CommandText.Address, Text, AddressList, Number;
    hide OptionNumber, FlagText;
    hide ReadAddress, ReadAddresses, ReadText, ReadMinutes, ReadNumber, ReadRole, ReadOptionId;
    hide ReadSetScope, ReadSetOption, ReadRemoveOption, ReadAddScope, ReadAddFailover, ReadSetFailover;
    var id := if e.SetBootServer? then BootServer else BootFile;
    var text := if e.SetBootServer? then e.server else e.file;
    var flags := [ScopeId, OptionIdFlag, Value, Force];
    var args := [CommandText.Address(s), Word(OptionNumber(id)), Text(text), Switch];
    BootSpoken(s, e, id, text);
    var g := Hear(EditScope(s, e), flags, args);
    BootGiven(g, s, id, text);
    ReadsBootOption(g, s, id, text);
  }

  lemma RemoveOptionMeans(s: Ip, id: OptionId)
    ensures Meaning(CommandOf(EditScope(s, RemoveOption(id)))) == Some(EditScope(s, RemoveOption(id)))
  {
    hide ReadExclusion, ReadScopeOnly, ReadAddFailoverScope, ReadRemoveFailoverScope, ReadRemoveFailover;
    hide Meaning, CommandOf, CommandText.Address, Text, AddressList, Number, OptionNumber, FlagText;
    hide ReadAddress, ReadAddresses, ReadText, ReadMinutes, ReadNumber, ReadRole, ReadOptionId;
    hide ReadSetScope, ReadSetOption, ReadAddScope, ReadAddFailover, ReadSetFailover, ReadRange;
    var c := EditScope(s, RemoveOption(id));
    var flags := [ScopeId, OptionIdFlag];
    var args := [CommandText.Address(s), Word(OptionNumber(id))];
    assert Params(c) == Spoken(flags, args);
    var g := Hear(c, flags, args);
    assert g[flags[0]] == args[0] && g[flags[1]] == args[1];
    assert g.Keys == {ScopeId, OptionIdFlag, ErrorAction};
    ReadsAddress(s);
    ReadsOptionId(id);
  }

  lemma ReadsAddedScope(g: map<Flag, Arg>, c: Cmd)
    requires c.AddScope? && c.lease >= 0 && ScopeOfRange(c)
    requires g.Keys == {NameFlag, StartRange, EndRange, SubnetMask, StateFlag, LeaseDuration, Description, ErrorAction}
    requires g[NameFlag] == Text(c.name) && g[Description] == Text(c.description) && g[StateFlag] == Word("Active")
    requires g[StartRange] == CommandText.Address(c.range.start) && g[EndRange] == CommandText.Address(c.range.end)
    requires g[SubnetMask] == CommandText.Address(c.mask)
    requires g[LeaseDuration] == Span(FlagText(Days), Number(c.lease))
    ensures ReadAddScope(g) == Some(c)
  {
    hide CommandText.Address, Text, AddressList, Number, OptionNumber, FlagText;
    hide ReadAddress, ReadAddresses, ReadText, ReadMinutes, ReadNumber, ReadRole, ReadOptionId;
    hide BlockSize, PrefixOf;
    ReadsText(c.name);
    ReadsAddress(c.range.start);
    ReadsAddress(c.range.end);
    ReadsAddress(c.mask);
    ReadsNumber(c.lease);
    ReadsText(c.description);
    PrefixOfMask(c.mask);
  }

  lemma AdditionSpoken(c: Cmd)
    requires c.AddScope?
    ensures Params(c) ==
              Spoken([NameFlag, StartRange, EndRange, SubnetMask, StateFlag, LeaseDuration, Description],
                     [Text(c.name), CommandText.Address(c.range.start), CommandText.Address(c.range.end),
                      CommandText.Address(c.mask), Word("Active"), Span(FlagText(Days), Number(c.lease)),
                      Text(c.description)])
  {
    hide CommandText.Address, Text, AddressList, Number, OptionNumber, FlagText;
  }

  lemma AdditionGiven(g: map<Flag, Arg>, c: Cmd)
    requires c.AddScope?
    requires Says(g, [NameFlag, StartRange, EndRange, SubnetMask, StateFlag, LeaseDuration, Description],
                  [Text(c.name), CommandText.Address(c.range.start), CommandText.Address(c.range.end),
                   CommandText.Address(c.mask), Word("Active"), Span(FlagText(Days), Number(c.lease)),
                   Text(c.description)])
    ensures g.Keys == {NameFlag, StartRange, EndRange, SubnetMask, StateFlag, LeaseDuration, Description, ErrorAction}
    ensures g[NameFlag] == Text(c.name) && g[Description] == Text(c.description) && g[StateFlag] == Word("Active")
    ensures g[StartRange] == CommandText.Address(c.range.start) && g[EndRange] == CommandText.Address(c.range.end)
    ensures g[SubnetMask] == CommandText.Address(c.mask)
    ensures g[LeaseDuration] == Span(FlagText(Days), Number(c.lease))
  {
    hide CommandText.Address, Text, AddressList, Number, OptionNumber, FlagText, RoleName;
    var flags := [NameFlag, StartRange, EndRange, SubnetMask, StateFlag, LeaseDuration, Description];
    var args := [Text(c.name), CommandText.Address(c.range.start), CommandText.Address(c.range.end),
                 CommandText.Address(c.mask), Word("Active"), Span(FlagText(Days), Number(c.lease)),
                 Text(c.description)];
    assert g[flags[0]] == args[0] && g[flags[1]] == args[1] && g[flags[2]] == args[2] && g[flags[3]] == args[3];
    assert g[flags[4]] == args[4] && g[flags[5]] == args[5] && g[flags[6]] == args[6];
    assert g.Keys == {NameFlag, StartRange, EndRange, SubnetMask, StateFlag, LeaseDuration, Description, ErrorAction};
  }

  lemma AddScopeMeans(c: Cmd)
    requires c.AddScope? && c.lease >= 0 && ScopeOfRange(c)
    ensures Meaning(CommandOf(c)) == Some(c)
  {
    hide ReadExclusion, ReadScopeOnly, ReadAddFailoverScope, ReadRemoveFailoverScope, ReadRemoveFailover;
    hide Says, Params, EditParams, Meaning, CommandOf, CommandText.Address, Text, AddressList, Number;
    hide OptionNumber, FlagText;
    hide ReadAddress, ReadAddresses, ReadText, ReadMinutes, ReadNumber, ReadRole, ReadOptionId;
    hide ReadSetScope, ReadSetOption, ReadRemoveOption, ReadAddScope, ReadAddFailover, ReadSetFailover, ScopeOfRange;
    var flags := [NameFlag, StartRange, EndRange, SubnetMask, StateFlag, LeaseDuration, Description];
    var args := [Text(c.name), CommandText.Address(c.range.start), CommandText.Address(c.range.end),
                 CommandText.Address(c.mask), Word("Active"), Span(FlagText(Days), Number(c.lease)),
                 Text(c.description)];
    AdditionSpoken(c);
    var g := Hear(c, flags, args);
    AdditionGiven(g, c);
    ReadsAddedScope(g, c);
  }

  predicate SaysPartners(g: map<Flag, Arg>, s: Ip, f: Failover) {
    && NameFlag in g && g[NameFlag] == Text(f.name) && PartnerServer in g && g[PartnerServer] == Text(f.partner)
    && ScopeId in g && g[ScopeId] == CommandText.Address(s)
    && MaxClientLeadTime in g && g[MaxClientLeadTime] == Span(FlagText(Minutes), Number(f.leadTime))
  }

  lemma ReadsHotStandby(g: map<Flag, Arg>, s: Ip, f: Failover)
    requires f.mode.HotStandby? && f.leadTime >= 0 && f.reserve >= 0 && SaysPartners(g, s, f)
    requires g.Keys == {NameFlag, PartnerServer, ScopeId, MaxClientLeadTime, Force, ServerRole, ReservePercent,
                        ErrorAction}
    requires g[ServerRole] == Word(RoleName(f.role)) && g[ReservePercent] == Word(Number(f.reserve))
    ensures ReadAddFailover(g) == Some(CreateFailover(s, f.(loadBalance := 0)))
  {
    hide CommandText.Address, Text, AddressList, Number, OptionNumber, FlagText;
    hide ReadAddress, ReadAddresses, ReadText, ReadMinutes, ReadNumber, ReadRole, ReadOptionId;
    hide RoleName;
    ReadsText(f.name);
    ReadsText(f.partner);
    ReadsAddress(s);
    ReadsNumber(f.leadTime);
    ReadsNumber(f.reserve);
    ReadsRole(f.role);
  }

  lemma ReadsLoadBalance(g: map<Flag, Arg>, s: Ip, f: Failover)
    requires f.mode.LoadBalance? && f.leadTime >= 0 && f.loadBalance >= 0 && SaysPartners(g, s, f)
    requires g.Keys == {NameFlag, PartnerServer, ScopeId, MaxClientLeadTime, Force, LoadBalancePercent, ErrorAction}
    requires g[LoadBalancePercent] == Word(Number(f.loadBalance))
    ensures ReadAddFailover(g) == Some(CreateFailover(s, f.(role := Active, reserve := 0)))
  {
    hide CommandText.Address, Text, AddressList, Number, OptionNumber, FlagText;
    hide ReadAddress, ReadAddresses, ReadText, ReadMinutes, ReadNumber, ReadRole, ReadOptionId;
    assert ServerRole !in g;
    ReadsText(f.name);
    ReadsText(f.partner);
    ReadsAddress(s);
    ReadsNumber(f.leadTime);
    ReadsNumber(f.loadBalance);
  }

  lemma AddedFailoverRead(s: Ip, f: Failover, g: map<Flag, Arg>)
    ensures ReadCall(CmdletOf(CreateFailover(s, f)), g) == ReadAddFailover(g)
  {
  }

  lemma HotStandbySpoken(s: Ip, f: Failover)
    requires f.mode.HotStandby?
    ensures Params(CreateFailover(s, f)) ==
              Spoken([NameFlag, PartnerServer, ScopeId, MaxClientLeadTime, Force, ServerRole, ReservePercent],
                     [Text(f.name), Text(f.partner), CommandText.Address(s),
                      Span(FlagText(Minutes), Number(f.leadTime)), Switch,
                      Word(RoleName(f.role)), Word(Number(f.reserve))])
  {
    hide CommandText.Address, Text, Number, FlagText, RoleName;
  }

  lemma HotStandbyGiven(g: map<Flag, Arg>, s: Ip, f: Failover)
    requires Says(g, [NameFlag, PartnerServer, ScopeId, MaxClientLeadTime, Force, ServerRole, ReservePercent],
                  [Text(f.name), Text(f.partner), CommandText.Address(s), Span(FlagText(Minutes), Number(f.leadTime)),
                   Switch, Word(RoleName(f.role)), Word(Number(f.reserve))])
    ensures SaysPartners(g, s, f)
    ensures g.Keys == {NameFlag, PartnerServer, ScopeId, MaxClientLeadTime, Force, ServerRole, ReservePercent,
                        ErrorAction}
    ensures g[ServerRole] == Word(RoleName(f.role)) && g[ReservePercent] == Word(Number(f.reserve))
  {
    hide CommandText.Address, Text, AddressList, Number, OptionNumber, FlagText, RoleName;
    var flags := [NameFlag, PartnerServer, ScopeId, MaxClientLeadTime, Force, ServerRole, ReservePercent];
    var args := [Text(f.name), Text(f.partner), CommandText.Address(s), Span(FlagText(Minutes), Number(f.leadTime)),
                 Switch, Word(RoleName(f.role)), Word(Number(f.reserve))];
    assert g[flags[0]] == args[0] && g[flags[1]] == args[1] && g[flags[2]] == args[2] && g[flags[3]] == args[3];
    assert g[flags[5]] == args[5] && g[flags[6]] == args[6];
    assert g.Keys == {NameFlag, PartnerServer, ScopeId, MaxClientLeadTime, Force, ServerRole, ReservePercent,
                      ErrorAction};
  }

  lemma HotStandbyMeans(s: Ip, f: Failover)
    requires f.mode.HotStandby? && f.leadTime >= 0 && f.reserve >= 0
    ensures Meaning(CommandOf(CreateFailover(s, f))) == Some(CreateFailover(s, f.(loadBalance := 0)))
  {
    hide CmdletOf, ReadCall, ReadExclusion, ReadScopeOnly, ReadAddFailoverScope, ReadRemoveFailoverScope;
    hide ReadRemoveFailover;
    hide Says, Params, Meaning, CommandOf, CommandText.Address, Text, AddressList, Number, OptionNumber, FlagText;
    hide ReadAddress, ReadAddresses, ReadText, ReadMinutes, ReadNumber, ReadRole, ReadOptionId;
    hide ReadSetScope, ReadSetOption, ReadRemoveOption, ReadAddScope, ReadSetFailover, ReadAddFailover, RoleName;
    var flags := [NameFlag, PartnerServer, ScopeId, MaxClientLeadTime, Force, ServerRole, ReservePercent];
    var args := [Text(f.name), Text(f.partner), CommandText.Address(s), Span(FlagText(Minutes), Number(f.leadTime)),
                 Switch, Word(RoleName(f.role)), Word(Number(f.reserve))];
    HotStandbySpoken(s, f);
    var g := Hear(CreateFailover(s, f), flags, args);
    AddedFailoverRead(s, f, g);
    HotStandbyGiven(g, s, f);
    ReadsHotStandby(g, s, f);
  }

  lemma LoadBalanceSpoken(s: Ip, f: Failover)
    requires f.mode.LoadBalance?
    ensures Params(CreateFailover(s, f)) ==
              Spoken([NameFlag, PartnerServer, ScopeId, MaxClientLeadTime, Force, LoadBalancePercent],
                     [Text(f.name), Text(f.partner), CommandText.Address(s),
                      Span(FlagText(Minutes), Number(f.leadTime)), Switch, Word(Number(f.loadBalance))])
  {
    hide CommandText.Address, Text, Number, FlagText;
  }

  lemma LoadBalanceGiven(g: map<Flag, Arg>, s: Ip, f: Failover)
    requires Says(g, [NameFlag, PartnerServer, ScopeId, MaxClientLeadTime, Force, LoadBalancePercent],
                  [Text(f.name), Text(f.partner), CommandText.Address(s), Span(FlagText(Minutes), Number(f.leadTime)),
                   Switch, Word(Number(f.loadBalance))])
    ensures SaysPartners(g, s, f)
    ensures g.Keys == {NameFlag, PartnerServer, ScopeId, MaxClientLeadTime, Force, LoadBalancePercent, ErrorAction}
    ensures g[LoadBalancePercent] == Word(Number(f.loadBalance))
  {
    hide CommandText.Address, Text, AddressList, Number, OptionNumber, FlagText, RoleName;
    var flags := [NameFlag, PartnerServer, ScopeId, MaxClientLeadTime, Force, LoadBalancePercent];
    var args := [Text(f.name), Text(f.partner), CommandText.Address(s), Span(FlagText(Minutes), Number(f.leadTime)),
                 Switch, Word(Number(f.loadBalance))];
    assert g[flags[0]] == args[0] && g[flags[1]] == args[1] && g[flags[2]] == args[2] && g[flags[3]] == args[3];
    assert g[flags[5]] == args[5];
    assert g.Keys == {NameFlag, PartnerServer, ScopeId, MaxClientLeadTime, Force, LoadBalancePercent, ErrorAction};
  }

  lemma LoadBalanceMeans(s: Ip, f: Failover)
    requires f.mode.LoadBalance? && f.leadTime >= 0 && f.loadBalance >= 0
    ensures Meaning(CommandOf(CreateFailover(s, f))) == Some(CreateFailover(s, f.(role := Active, reserve := 0)))
  {
    hide CmdletOf, ReadCall, ReadExclusion, ReadScopeOnly, ReadAddFailoverScope, ReadRemoveFailoverScope;
    hide ReadRemoveFailover;
    hide Says, Params, Meaning, CommandOf, CommandText.Address, Text, AddressList, Number, OptionNumber, FlagText;
    hide ReadAddress, ReadAddresses, ReadText, ReadMinutes, ReadNumber, ReadRole, ReadOptionId;
    hide ReadSetScope, ReadSetOption, ReadRemoveOption, ReadAddScope, ReadSetFailover, ReadAddFailover, RoleName;
    var flags := [NameFlag, PartnerServer, ScopeId, MaxClientLeadTime, Force, LoadBalancePercent];
    var args := [Text(f.name), Text(f.partner), CommandText.Address(s), Span(FlagText(Minutes), Number(f.leadTime)),
                 Switch, Word(Number(f.loadBalance))];
    LoadBalanceSpoken(s, f);
    var g := Hear(CreateFailover(s, f), flags, args);
    AddedFailoverRead(s, f, g);
    LoadBalanceGiven(g, s, f);
    ReadsLoadBalance(g, s, f);
  }

  /** A relationship is created with what its mode uses; the other fields are not said. */
  lemma CreateMeans(s: Ip, f: Failover)
    requires Printable(CreateFailover(s, f))
    ensures Meaning(CommandOf(CreateFailover(s, f))) ==
              Some(CreateFailover(s, if f.mode.HotStandby? then f.(loadBalance := 0)
                                     else f.(role := Active, reserve := 0)))
  {
    hide Meaning, CommandOf;
    if f.mode.HotStandby? {
      HotStandbyMeans(s, f);
    } else {
      LoadBalanceMeans(s, f);
    }
  }

  lemma TuneSpoken(c: Cmd, percent: Flag)
    requires c.TuneFailover? && percent == if c.mode.HotStandby? then ReservePercent else LoadBalancePercent
    ensures Params(c) == Spoken([NameFlag, MaxClientLeadTime, percent],
                                [Text(c.rel), Span(FlagText(Minutes), Number(c.leadTime)), Word(Number(c.percent))])
  {
    hide Text, Number, FlagText;
  }

  lemma TuneMeans(c: Cmd)
    requires c.TuneFailover? && Printable(c)
    ensures Meaning(CommandOf(c)) == Some(c.(scope := 0))
  {
    hide ReadExclusion, ReadScopeOnly, ReadAddFailoverScope, ReadRemoveFailoverScope, ReadRemoveFailover;
    hide Params, EditParams, Meaning, CommandOf, CommandText.Address, Text, AddressList, Number, OptionNumber, FlagText;
    hide ReadAddress, ReadAddresses, ReadText, ReadMinutes, ReadNumber, ReadRole, ReadOptionId;
    hide ReadSetScope, ReadSetOption, ReadRemoveOption, ReadAddScope, ReadAddFailover;
    ReadsText(c.rel);
    ReadsNumber(c.leadTime);
    ReadsNumber(c.percent);
    var percent := if c.mode.HotStandby? then ReservePercent else LoadBalancePercent;
    var flags := [NameFlag, MaxClientLeadTime, percent];
    var args := [Text(c.rel), Span(FlagText(Minutes), Number(c.leadTime)), Word(Number(c.percent))];
    TuneSpoken(c, percent);
    var g := Hear(c, flags, args);
    assert g[flags[0]] == args[0] && g[flags[1]] == args[1] && g[flags[2]] == args[2];
    assert g.Keys == {NameFlag, MaxClientLeadTime, percent, ErrorAction};
    assert percent in g;
  }

  lemma JoinMeans(c: Cmd)
    requires c.JoinFailover?
    ensures Meaning(CommandOf(c)) == Some(c)
  {
    hide ReadExclusion, ReadScopeOnly, ReadRemoveFailoverScope, ReadRemoveFailover;
    hide Meaning, CommandOf, CommandText.Address, Text, AddressList, Number, OptionNumber, FlagText;
    hide ReadAddress, ReadAddresses, ReadText, ReadMinutes, ReadNumber, ReadRole, ReadOptionId;
    hide ReadSetScope, ReadSetOption, ReadRemoveOption, ReadAddScope, ReadAddFailover, ReadSetFailover;
    ReadsText(c.rel);
    ReadsAddress(c.scope);
    var flags, args := [NameFlag, ScopeId], [Text(c.rel), CommandText.Address(c.scope)];
    assert Params(c) == Spoken(flags, args);
    var g := Hear(c, flags, args);
    assert g[flags[0]] == args[0] && g[flags[1]] == args[1];
    assert g.Keys == {NameFlag, ScopeId, ErrorAction};
  }

  lemma LeaveMeans(c: Cmd)
    requires c.LeaveFailover?
    ensures Meaning(CommandOf(c)) == Some(c)
  {
    hide ReadExclusion, ReadScopeOnly, ReadAddFailoverScope, ReadRemoveFailover;
    hide Meaning, CommandOf, CommandText.Address, Text, AddressList, Number, OptionNumber, FlagText;
    hide ReadAddress, ReadAddresses, ReadText, ReadMinutes, ReadNumber, ReadRole, ReadOptionId;
    hide ReadSetScope, ReadSetOption, ReadRemoveOption, ReadAddScope, ReadAddFailover, ReadSetFailover;
    ReadsText(c.rel);
    ReadsAddress(c.scope);
    var flags, args := [NameFlag, ScopeId, Force], [Text(c.rel), CommandText.Address(c.scope), Switch];
    assert Params(c) == Spoken(flags, args);
    var g := Hear(c, flags, args);
    assert g[flags[0]] == args[0] && g[flags[1]] == args[1];
    assert g.Keys == {NameFlag, ScopeId, Force, ErrorAction};
  }

  lemma ForcedMeans(c: Cmd)
    requires c.RemoveScope? || c.Replicate?
    ensures Meaning(CommandOf(c)) == Some(c)
  {
    hide ReadExclusion, ReadAddFailoverScope, ReadRemoveFailoverScope, ReadRemoveFailover;
    hide Meaning, CommandOf, CommandText.Address, Text, AddressList, Number, OptionNumber, FlagText;
    hide ReadAddress, ReadAddresses, ReadText, ReadMinutes, ReadNumber, ReadRole, ReadOptionId;
    hide ReadSetScope, ReadSetOption, ReadRemoveOption, ReadAddScope, ReadAddFailover, ReadSetFailover;
    ReadsAddress(c.scope);
    var flags, args := [ScopeId, Force], [CommandText.Address(c.scope), Switch];
    assert Params(c) == Spoken(flags, args);
    var g := Hear(c, flags, args);
    assert g[flags[0]] == args[0];
    assert g.Keys == {ScopeId, Force, ErrorAction};
  }

  lemma DropMeans(c: Cmd)
    requires c.DropFailover?
    ensures Meaning(CommandOf(c)) == Some(DropFailover(0, c.rel))
  {
    hide ReadExclusion, ReadScopeOnly, ReadAddFailoverScope, ReadRemoveFailoverScope;
    hide Meaning, CommandOf, CommandText.Address, Text, AddressList, Number, OptionNumber, FlagText;
    hide ReadAddress, ReadAddresses, ReadText, ReadMinutes, ReadNumber, ReadRole, ReadOptionId;
    hide ReadSetScope, ReadSetOption, ReadRemoveOption, ReadAddScope, ReadAddFailover, ReadSetFailover;
    ReadsText(c.rel);
    var flags, args := [NameFlag, Force], [Text(c.rel), Switch];
    assert Params(c) == Spoken(flags, args);
    var g := Hear(c, flags, args);
    assert g[flags[0]] == args[0];
    assert g.Keys == {NameFlag, Force, ErrorAction};
  }

  lemma EditMeans(s: Ip, e: Edit)
    requires Printable(EditScope(s, e))
    ensures Meaning(CommandOf(EditScope(s, e))) == Some(EditScope(s, e))
  {
    hide Meaning, CommandOf;
    match e
    case SetParams(_, _, _) => ParamEditMeans(s, e);
    case SetOptions(_, _, _) => OptionEditMeans(s, e);
    case SetBootServer(_) => BootEditMeans(s, e);
    case SetBootFile(_) => BootEditMeans(s, e);
    case RemoveOption(id) => RemoveOptionMeans(s, id);
    case _ => RangeEditMeans(s, e);
  }

  /** Any call the reconciler can send, read by the server's own vocabulary, asks for what its step
      stands for: on every server the effect is the step's. */
  lemma CallsMeanTheirSteps(c: Cmd)
    requires Printable(c) && ScopeOfRange(c)
    ensures Meaning(CommandOf(c)).Some? && forall sv :: Apply(sv, Meaning(CommandOf(c)).value) == Apply(sv, c)
  {
    hide Meaning, CommandOf, EditRecord;
    match c
    case EditScope(s, e) => EditMeans(s, e);
    case AddScope(_, _, _, _, _, _) => AddScopeMeans(c);
    case CreateFailover(s, f) => CreateMeans(s, f);
    case TuneFailover(_, _, _, _, _) => TuneMeans(c);
    case JoinFailover(_, _) => JoinMeans(c);
    case LeaveFailover(_, _) => LeaveMeans(c);
    case DropFailover(_, _) => DropMeans(c);
    case _ => ForcedMeans(c);
  }

  /** The same of the line of text, whatever strings the payload carries. */
  lemma TextMeansItsStep(c: Cmd, sv: Server.State)
    requires Printable(c) && ScopeOfRange(c)
    ensures Obey(sv, Print(CommandOf(c))) == Some(Apply(sv, c))
  {
    hide Meaning, CommandOf, Apply, Parse, Lex, Print;
    TextReadsBack(c);
    CallsMeanTheirSteps(c);
  }
}
