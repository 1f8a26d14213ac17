/** The text of every cmdlet the reconciler issues, and what the text determines. */
module CommandText {
  import opened Common
  import opened Addresses
  import opened ScopeModel
  import opened Server
  import opened PowerShellText

  /* ---- Vocabulary ---- */

  datatype Verb = Set | Add | Remove | Invoke

  datatype Noun = Scope | OptionValue | ExclusionRange | Failover_ | FailoverScope | FailoverReplication

  datatype Cmdlet = Cmdlet(verb: Verb, noun: Noun)

  function VerbText(v: Verb): string {
    match v
    case Set => "Set"
    case Add => "Add"
    case Remove => "Remove"
    case Invoke => "Invoke"
  }

  function NounText(n: Noun): string {
    match n
    case Scope => "Scope"
    case OptionValue => "OptionValue"
    case ExclusionRange => "ExclusionRange"
    case Failover_ => "Failover"
    case FailoverScope => "FailoverScope"
    case FailoverReplication => "FailoverReplication"
  }

  /** As in `Set-DhcpServerv4Scope`. */
  function Name(c: Cmdlet): string {
    VerbText(c.verb) + ("-DhcpServerv4" + NounText(c.noun))
  }

  datatype Flag =
    | ScopeId | StartRange | EndRange | SubnetMask | StateFlag | NameFlag | LeaseDuration | Description | Force
    | DnsServer | DnsDomain | RouterFlag | OptionIdFlag | Value | ErrorAction | Days | Minutes
    | PartnerServer | MaxClientLeadTime | ServerRole | ReservePercent | LoadBalancePercent

  function FlagText(f: Flag): string {
    match f
    case ScopeId => "-ScopeId"
    case StartRange => "-StartRange"
    case EndRange => "-EndRange"
    case SubnetMask => "-SubnetMask"
    case StateFlag => "-State"
    case NameFlag => "-Name"
    case LeaseDuration => "-LeaseDuration"
    case Description => "-Description"
    case Force => "-Force"
    case DnsServer => "-DnsServer"
    case DnsDomain => "-DnsDomain"
    case RouterFlag => "-Router"
    case OptionIdFlag => "-OptionId"
    case Value => "-Value"
    case ErrorAction => "-ErrorAction"
    case Days => "-Days"
    case Minutes => "-Minutes"
    case PartnerServer => "-PartnerServer"
    case MaxClientLeadTime => "-MaxClientLeadTime"
    case ServerRole => "-ServerRole"
    case ReservePercent => "-ReservePercent"
    case LoadBalancePercent => "-LoadBalancePercent"
  }

  function P(f: Flag, a: Arg): Param {
    Param(FlagText(f), a)
  }

  /* ---- The command builders ---- */

  /** `ps_ipv4` */
  function Address(ip: Ip): Arg { Strings([DottedQuad(ip)]) }

  function Text(value: string): Arg { Strings([value]) }

  function AddressList(ips: seq<Ip>): Arg {
    Strings(seq(|ips|, i requires 0 <= i < |ips| => DottedQuad(ips[i])))
  }

  function Number(n: int): string { if n < 0 then "-" + Decimal(-n) else Decimal(n) }

  function OptionNumber(id: OptionId): string {
    match id
    case Router => "3"
    case BootServer => "66"
    case BootFile => "67"
  }

  function CmdletOf(c: Cmd): Cmdlet {
    match c
    case EditScope(_, e) =>
      (match e
       case SetRange(_) => Cmdlet(Set, Scope)
       case SetParams(_, _, _) => Cmdlet(Set, Scope)
       case SetOptions(_, _, _) => Cmdlet(Set, OptionValue)
       case SetBootServer(_) => Cmdlet(Set, OptionValue)
       case SetBootFile(_) => Cmdlet(Set, OptionValue)
       case RemoveOption(_) => Cmdlet(Remove, OptionValue)
       case AddExclusion(_) => Cmdlet(Add, ExclusionRange)
       case RemoveExclusion(_) => Cmdlet(Remove, ExclusionRange))
    case AddScope(_, _, _, _, _, _) => Cmdlet(Add, Scope)
    case RemoveScope(_) => Cmdlet(Remove, Scope)
    case CreateFailover(_, _) => Cmdlet(Add, Failover_)
    case JoinFailover(_, _) => Cmdlet(Add, FailoverScope)
    case LeaveFailover(_, _) => Cmdlet(Remove, FailoverScope)
    case DropFailover(_, _) => Cmdlet(Remove, Failover_)
    case TuneFailover(_, _, _, _, _) => Cmdlet(Set, Failover_)
    case Replicate(_) => Cmdlet(Invoke, FailoverReplication)
  }

  function EditParams(s: Ip, e: Edit): seq<Param> {
    [P(ScopeId, Address(s))] +
    match e
    case SetRange(r) => [P(StartRange, Address(r.start)), P(EndRange, Address(r.end))]
    case SetParams(name, lease, description) =>
      [P(NameFlag, Text(name)), P(LeaseDuration, Span(FlagText(Days), Number(lease))),
       P(Description, Text(description))]
    case SetOptions(dns, domain, router) =>
      [P(DnsServer, AddressList(dns)), P(DnsDomain, Text(domain))]
      + (if router.Some? then [P(RouterFlag, Address(router.value))] else [])
      + [P(Force, Switch)]
    case SetBootServer(server) =>
      [P(OptionIdFlag, Word(OptionNumber(BootServer))), P(Value, Text(server)), P(Force, Switch)]
    case SetBootFile(file) =>
      [P(OptionIdFlag, Word(OptionNumber(BootFile))), P(Value, Text(file)), P(Force, Switch)]
    case RemoveOption(id) => [P(OptionIdFlag, Word(OptionNumber(id)))]
    case AddExclusion(h) => [P(StartRange, Address(h.start)), P(EndRange, Address(h.end))]
    case RemoveExclusion(h) => [P(StartRange, Address(h.start)), P(EndRange, Address(h.end))]
  }

  function RoleName(r: Role): string { if r.Active? then "Active" else "Standby" }

  /** The mode of a relationship shows in which of the percentages is given. */
  function ModeParams(mode: Mode, role: Role, percent: int, withRole: bool): seq<Param> {
    match mode
    case HotStandby =>
      (if withRole then [P(ServerRole, Word(RoleName(role)))] else [])
      + [P(ReservePercent, Word(Number(percent)))]
    case LoadBalance => [P(LoadBalancePercent, Word(Number(percent)))]
  }

  function Params(c: Cmd): seq<Param> {
    match c
    case EditScope(s, e) => EditParams(s, e)
    case AddScope(_, mask, r, name, lease, description) =>
      [P(NameFlag, Text(name)), P(StartRange, Address(r.start)), P(EndRange, Address(r.end)),
       P(SubnetMask, Address(mask)), P(StateFlag, Word("Active")),
       P(LeaseDuration, Span(FlagText(Days), Number(lease))), P(Description, Text(description))]
    case RemoveScope(s) => [P(ScopeId, Address(s)), P(Force, Switch)]
    case CreateFailover(s, f) =>
      [P(NameFlag, Text(f.name)), P(PartnerServer, Text(f.partner)), P(ScopeId, Address(s)),
       P(MaxClientLeadTime, Span(FlagText(Minutes), Number(f.leadTime))), P(Force, Switch)]
      + ModeParams(f.mode, f.role, if f.mode.HotStandby? then f.reserve else f.loadBalance, true)
    case JoinFailover(s, n) => [P(NameFlag, Text(n)), P(ScopeId, Address(s))]
    case LeaveFailover(s, n) => [P(NameFlag, Text(n)), P(ScopeId, Address(s)), P(Force, Switch)]
    case DropFailover(_, n) => [P(NameFlag, Text(n)), P(Force, Switch)]
    case TuneFailover(_, n, leadTime, mode, percent) =>
      [P(NameFlag, Text(n)), P(MaxClientLeadTime, Span(FlagText(Minutes), Number(leadTime)))]
      + ModeParams(mode, Active, percent, false)
    case Replicate(s) => [P(ScopeId, Address(s)), P(Force, Switch)]
  }

  /** The call as `run_ps` sends it. */
  function CommandOf(c: Cmd): Command {
    Command(Name(CmdletOf(c)), Params(c) + [P(ErrorAction, Word("Stop"))])
  }

  /** The number fields are natural numbers and there is a DNS server, as in every valid payload. */
  predicate Printable(c: Cmd) {
    match c
    case EditScope(_, e) =>
      (match e
       case SetParams(_, lease, _) => lease >= 0
       case SetOptions(dns, _, _) => dns != []
       case _ => true)
    case AddScope(_, _, _, _, lease, _) => lease >= 0
    case CreateFailover(_, f) => f.leadTime >= 0 && f.reserve >= 0 && f.loadBalance >= 0
    case TuneFailover(_, _, leadTime, _, percent) => leadTime >= 0 && percent >= 0
    case _ => true
  }

  lemma NumberIsWord(n: int)
    requires n >= 0
    ensures IsWord(Number(n)) && Number(n)[0] != '-'
  {
    DecimalIsWord(n);
  }

  lemma WordsJoin(a: string, b: string)
    requires IsWord(a) && IsWord(b)
    ensures IsWord(a + b)
  {
  }

  lemma VerbIsWord(v: Verb)
    ensures IsWord(VerbText(v)) && IsWord("-DhcpServerv4")
  {
  }

  lemma NounIsWord(n: Noun)
    ensures IsWord(NounText(n))
  {
  }

  lemma NamesAreWords(c: Cmdlet)
    ensures IsWord(Name(c))
  {
    hide IsWord;
    VerbIsWord(c.verb);
    NounIsWord(c.noun);
    WordsJoin("-DhcpServerv4", NounText(c.noun));
    WordsJoin(VerbText(c.verb), "-DhcpServerv4" + NounText(c.noun));
  }

  predicate GoodFlag(flag: string) {
    IsWord(flag) && flag[0] == '-'
  }

  predicate ForFailover(f: Flag) {
    f.PartnerServer? || f.MaxClientLeadTime? || f.ServerRole? || f.ReservePercent? || f.LoadBalancePercent?
    || f.ScopeId? || f.NameFlag? || f.Minutes?
  }

  lemma FailoverFlagIsGood(f: Flag)
    requires ForFailover(f)
    ensures GoodFlag(FlagText(f))
  {
  }

  lemma OtherFlagIsGood(f: Flag)
    requires !ForFailover(f)
    ensures GoodFlag(FlagText(f))
  {
  }

  lemma FlagIsGood(f: Flag)
    ensures GoodFlag(FlagText(f))
  {
    hide FlagText, GoodFlag;
    if ForFailover(f) {
      FailoverFlagIsGood(f);
    } else {
      OtherFlagIsGood(f);
    }
  }

  lemma FixedWordsAreGood()
    ensures GoodArg(Word("66")) && GoodArg(Word("67")) && GoodArg(Word("3"))
    ensures GoodArg(Word("Active")) && GoodArg(Word("Standby")) && GoodArg(Word("Stop"))
  {
  }

  ghost predicate GoodParams(params: seq<Param>) {
    forall i :: 0 <= i < |params| ==> GoodParam(params[i])
  }

  lemma PIsGood(f: Flag, a: Arg)
    requires GoodArg(a)
    ensures GoodParam(P(f, a))
  {
    FlagIsGood(f);
  }

  lemma SpanIsGood(f: Flag, n: int)
    requires n >= 0
    ensures GoodArg(Span(FlagText(f), Number(n))) && GoodArg(Word(Number(n)))
  {
    FlagIsGood(f);
    NumberIsWord(n);
  }

  lemma AllFlagsAreGood()
    ensures forall f: Flag, a: Arg {:trigger P(f, a)} :: GoodArg(a) ==> GoodParam(P(f, a))
  {
    forall f: Flag, a: Arg | GoodArg(a)
      ensures GoodParam(P(f, a))
    {
      PIsGood(f, a);
    }
  }

  lemma EditParamsAreGood(s: Ip, e: Edit)
    requires Printable(EditScope(s, e))
    ensures GoodParams(EditParams(s, e))
  {
    hide P, FlagText, IsWord, GoodParam, Number, DottedQuad, EditRecord;
    AllFlagsAreGood();
    FixedWordsAreGood();
    if e.SetParams? {
      SpanIsGood(Days, e.lease);
    }
  }

  lemma ModeParamsAreGood(mode: Mode, role: Role, percent: int, withRole: bool)
    requires percent >= 0
    ensures GoodParams(ModeParams(mode, role, percent, withRole))
  {
    hide P, FlagText, IsWord, GoodParam;
    AllFlagsAreGood();
    FixedWordsAreGood();
    SpanIsGood(Days, percent);
  }

  lemma FailoverParamsAreGood(c: Cmd)
    requires Printable(c) && (c.CreateFailover? || c.TuneFailover?)
    ensures GoodParams(Params(c))
  {
    hide P, FlagText, IsWord, GoodParam, ModeParams, Number, EditParams;
    AllFlagsAreGood();
    if c.CreateFailover? {
      var f := c.failover;
      SpanIsGood(Minutes, f.leadTime);
      ModeParamsAreGood(f.mode, f.role, if f.mode.HotStandby? then f.reserve else f.loadBalance, true);
    } else {
      SpanIsGood(Minutes, c.leadTime);
      ModeParamsAreGood(c.mode, Active, c.percent, false);
    }
  }

  lemma ParamsAreGood(c: Cmd)
    requires Printable(c)
    ensures GoodParams(Params(c))
  {
    hide P, FlagText, IsWord, GoodParam, EditParams, ModeParams, Number;
    AllFlagsAreGood();
    FixedWordsAreGood();
    match c
    case EditScope(s, e) => EditParamsAreGood(s, e);
    case AddScope(_, _, _, _, lease, _) => SpanIsGood(Days, lease);
    case CreateFailover(_, _) => FailoverParamsAreGood(c);
    case TuneFailover(_, _, _, _, _) => FailoverParamsAreGood(c);
    case _ =>
  }

  /** Command text round trip: lexing and parsing the text of any cmdlet yields exactly its name
      and arguments, whatever strings the payload carries. */
  lemma TextReadsBack(c: Cmd)
    requires Printable(c)
    ensures Parse(Lex(Print(CommandOf(c)))) == Some(CommandOf(c))
  {
    hide P, FlagText, IsWord, GoodParam, Params, Name, Parse, Lex, Print;
    NamesAreWords(CmdletOf(c));
    ParamsAreGood(c);
    AllFlagsAreGood();
    FixedWordsAreGood();
    PrintedCommandsReadBack(CommandOf(c));
  }

  /* ---- What the text determines ---- */

  lemma NameDeterminesCmdlet(a: Cmdlet, b: Cmdlet)
    requires Name(a) == Name(b)
    ensures a == b
  {
    VerbFromName(a);
    VerbFromName(b);
    assert |VerbText(a.verb)| == |VerbText(b.verb)|;
    assert |NounText(a.noun)| == |NounText(b.noun)|;
  }

  lemma VerbFromName(c: Cmdlet)
    ensures Name(c)[0] == match c.verb { case Set => 'S' case Add => 'A' case Remove => 'R' case Invoke => 'I' }
    ensures |NounText(c.noun)| == match c.noun {
      case Scope => 5 case OptionValue => 11 case ExclusionRange => 14
      case Failover_ => 8 case FailoverScope => 13 case FailoverReplication => 19 }
  {
  }

  lemma SameAddress(a: Ip, b: Ip)
    requires Address(a) == Address(b)
    ensures a == b
  {
    assert Address(a).values[0] == Address(b).values[0];
    DottedQuadIsInjective(a, b);
  }

  lemma SameText(a: string, b: string)
    requires Text(a) == Text(b)
    ensures a == b
  {
    assert Text(a).values[0] == Text(b).values[0];
  }

  lemma SameAddresses(a: seq<Ip>, b: seq<Ip>)
    requires AddressList(a) == AddressList(b)
    ensures a == b
  {
    assert |AddressList(a).values| == |AddressList(b).values|;
    forall i | 0 <= i < |a|
      ensures a[i] == b[i]
    {
      assert AddressList(a).values[i] == AddressList(b).values[i];
      DottedQuadIsInjective(a[i], b[i]);
    }
  }

  lemma SameNumber(m: int, n: int)
    requires m >= 0 && n >= 0 && Number(m) == Number(n)
    ensures m == n
  {
    DecimalIsInjective(m, n);
  }

  /** A new scope's own address is not in its text; Windows takes the network of its range. */
  predicate ScopeOfRange(c: Cmd) {
    c.AddScope? ==>
      PrefixOf(c.mask).Some? &&
      c.scope == c.range.start - c.range.start % BlockSize(PrefixOf(c.mask).value)
  }

  lemma OptionFlagsDiffer()
    ensures FlagText(DnsServer) != FlagText(OptionIdFlag)
  {
    assert |FlagText(DnsServer)| == 10 && |FlagText(OptionIdFlag)| == 9;
  }

  lemma SameOption(i: OptionId, j: OptionId)
    requires OptionNumber(i) == OptionNumber(j)
    ensures i == j
  {
    assert OptionNumber(Router)[0] == '3' && OptionNumber(BootServer)[0] == OptionNumber(BootFile)[0] == '6';
    assert OptionNumber(BootServer)[1] == '6' && OptionNumber(BootFile)[1] == '7';
  }

  lemma SameEditArgs(s: Ip, d: Edit, e: Edit)
    requires Printable(EditScope(s, d)) && Printable(EditScope(s, e))
    requires CmdletOf(EditScope(s, d)) == CmdletOf(EditScope(s, e)) && EditParams(s, d) == EditParams(s, e)
    ensures d == e
  {
    hide FlagText, Number, OptionNumber, Address, Text, AddressList;
    var p, q := EditParams(s, d), EditParams(s, e);
    assert |p| == |q| && p[1] == q[1] && (|p| > 2 ==> p[2] == q[2]) && (|p| > 3 ==> p[3] == q[3]);
    OptionFlagsDiffer();
    match (d, e)
    case (SetRange(x), SetRange(y)) =>
      SameAddress(x.start, y.start);
      SameAddress(x.end, y.end);
    case (AddExclusion(x), AddExclusion(y)) =>
      SameAddress(x.start, y.start);
      SameAddress(x.end, y.end);
    case (RemoveExclusion(x), RemoveExclusion(y)) =>
      SameAddress(x.start, y.start);
      SameAddress(x.end, y.end);
    case (SetParams(n, l, x), SetParams(m, k, y)) =>
      SameText(n, m);
      SameNumber(l, k);
      SameText(x, y);
    case (SetOptions(dns, x, g), SetOptions(dns', y, h)) =>
      SameAddresses(dns, dns');
      SameText(x, y);
      if g.Some? && h.Some? {
        SameAddress(g.value, h.value);
      }
    case (SetBootServer(x), SetBootServer(y)) => SameText(x, y);
    case (SetBootFile(x), SetBootFile(y)) => SameText(x, y);
    case (RemoveOption(i), RemoveOption(j)) => SameOption(i, j);
    case (SetBootServer(_), SetBootFile(_)) => BootOptionsDiffer();
    case (SetBootFile(_), SetBootServer(_)) => BootOptionsDiffer();
    case _ =>
  }

  lemma BootOptionsDiffer()
    ensures OptionNumber(BootServer) != OptionNumber(BootFile)
  {
    if OptionNumber(BootServer) == OptionNumber(BootFile) {
      SameOption(BootServer, BootFile);
    }
  }

  lemma SameEditText(s: Ip, t: Ip, d: Edit, e: Edit)
    requires Printable(EditScope(s, d)) && Printable(EditScope(t, e))
    requires CmdletOf(EditScope(s, d)) == CmdletOf(EditScope(t, e)) && EditParams(s, d) == EditParams(t, e)
    ensures s == t && d == e
  {
    assert EditParams(s, d)[0] == EditParams(t, e)[0];
    SameAddress(s, t);
    SameEditArgs(s, d, e);
  }

  lemma SameMode(m: Mode, n: Mode, r: Role, q: Role, x: int, y: int, withRole: bool)
    requires x >= 0 && y >= 0 && ModeParams(m, r, x, withRole) == ModeParams(n, q, y, withRole)
    ensures m == n && x == y && (withRole && m.HotStandby? ==> r == q)
  {
    var a, b := ModeParams(m, r, x, withRole), ModeParams(n, q, y, withRole);
    assert |a| == |b| && a[0] == b[0] && a[|a| - 1] == b[|b| - 1];
    assert |FlagText(ReservePercent)| == 15 && |FlagText(LoadBalancePercent)| == 19;
    assert |RoleName(Active)| == 6 && |RoleName(Standby)| == 7;
    SameNumber(x, y);
  }

  lemma SameCreation(s: Ip, t: Ip, f: Failover, g: Failover)
    requires Printable(CreateFailover(s, f)) && Printable(CreateFailover(t, g))
    requires Params(CreateFailover(s, f)) == Params(CreateFailover(t, g))
    ensures s == t && f.name == g.name && NewRelationship(f, s) == NewRelationship(g, t)
  {
    hide FlagText, Number, Address, Text, ModeParams;
    var p, q := Params(CreateFailover(s, f)), Params(CreateFailover(t, g));
    assert p[0] == q[0] && p[1] == q[1] && p[2] == q[2] && p[3] == q[3];
    var x := if f.mode.HotStandby? then f.reserve else f.loadBalance;
    var y := if g.mode.HotStandby? then g.reserve else g.loadBalance;
    assert p[5..] == ModeParams(f.mode, f.role, x, true) && q[5..] == ModeParams(g.mode, g.role, y, true);
    SameText(f.name, g.name);
    SameText(f.partner, g.partner);
    SameAddress(s, t);
    SameNumber(f.leadTime, g.leadTime);
    SameMode(f.mode, g.mode, f.role, g.role, x, y, true);
  }

  lemma SameAddition(a: Cmd, b: Cmd)
    requires a.AddScope? && b.AddScope? && Printable(a) && Printable(b) && ScopeOfRange(a) && ScopeOfRange(b)
    requires Params(a) == Params(b)
    ensures a == b
  {
    hide FlagText, Number, Address, Text;
    var p, q := Params(a), Params(b);
    assert p[0] == q[0] && p[1] == q[1] && p[2] == q[2] && p[3] == q[3] && p[5] == q[5] && p[6] == q[6];
    SameText(a.name, b.name);
    SameAddress(a.range.start, b.range.start);
    SameAddress(a.range.end, b.range.end);
    SameAddress(a.mask, b.mask);
    SameNumber(a.lease, b.lease);
    SameText(a.description, b.description);
  }

  lemma SameTuning(a: Cmd, b: Cmd)
    requires a.TuneFailover? && b.TuneFailover? && Printable(a) && Printable(b) && Params(a) == Params(b)
    ensures a.rel == b.rel && a.leadTime == b.leadTime && a.mode == b.mode && a.percent == b.percent
  {
    hide FlagText, Number, Address, Text, ModeParams;
    var p, q := Params(a), Params(b);
    assert p[0] == q[0] && p[1] == q[1];
    assert p[2..] == ModeParams(a.mode, Active, a.percent, false);
    assert q[2..] == ModeParams(b.mode, Active, b.percent, false);
    SameText(a.rel, b.rel);
    SameNumber(a.leadTime, b.leadTime);
    SameMode(a.mode, b.mode, Active, Active, a.percent, b.percent, false);
  }

  /** Cmdlets with equal cmdlet and parameters do the same to every server. */
  lemma SameParams(sv: Server.State, a: Cmd, b: Cmd)
    requires Printable(a) && Printable(b) && ScopeOfRange(a) && ScopeOfRange(b)
    requires CmdletOf(a) == CmdletOf(b) && Params(a) == Params(b)
    ensures Apply(sv, a) == Apply(sv, b)
  {
    hide FlagText, Number, Address, Text, ModeParams, EditParams, NewRelationship;
    var p, q := Params(a), Params(b);
    match (a, b)
    case (EditScope(s, d), EditScope(t, e)) => SameEditText(s, t, d, e);
    case (AddScope(_, _, _, _, _, _), AddScope(_, _, _, _, _, _)) => SameAddition(a, b);
    case (CreateFailover(s, f), CreateFailover(t, g)) => SameCreation(s, t, f, g);
    case (TuneFailover(_, _, _, _, _), TuneFailover(_, _, _, _, _)) => SameTuning(a, b);
    case (DropFailover(_, m), DropFailover(_, n)) =>
      assert p[0] == q[0];
      SameText(m, n);
    case (RemoveScope(s), RemoveScope(t)) =>
      assert p[0] == q[0];
      SameAddress(s, t);
    case (Replicate(s), Replicate(t)) =>
      assert p[0] == q[0];
      SameAddress(s, t);
    case (JoinFailover(s, m), JoinFailover(t, n)) =>
      assert p[0] == q[0] && p[1] == q[1];
      SameText(m, n);
      SameAddress(s, t);
    case (LeaveFailover(s, m), LeaveFailover(t, n)) =>
      assert p[0] == q[0] && p[1] == q[1];
      SameText(m, n);
      SameAddress(s, t);
    case _ =>
  }

  /** Different steps never render to the same text: equal text means equal effect, on every
      server. (Fields a mode does not use, and the scope a relationship is dropped for, have no
      effect and no text.) */
  lemma TextDeterminesEffect(sv: Server.State, a: Cmd, b: Cmd)
    requires Printable(a) && Printable(b) && ScopeOfRange(a) && ScopeOfRange(b)
    requires Print(CommandOf(a)) == Print(CommandOf(b))
    ensures Apply(sv, a) == Apply(sv, b)
  {
    hide Params, Print, Lex, Parse, Name, Apply;
    TextReadsBack(a);
    TextReadsBack(b);
    NameDeterminesCmdlet(CmdletOf(a), CmdletOf(b));
    assert CommandOf(a).params[..|CommandOf(a).params| - 1] == Params(a);
    assert CommandOf(b).params[..|CommandOf(b).params| - 1] == Params(b);
    SameParams(sv, a, b);
  }
}
