/** The Windows DHCP server the API drives: scope records, failover relationships and the partner's
    copies, the cmdlets that change them, and runs of cmdlets under faults. */
module Server {
  import opened Common
  import opened Addresses
  import opened ScopeModel

  /** A scope record. An option the server holds no value for is None (for option 6: empty). */
  datatype Record = Record(mask: Ip, range: Range, name: string, lease: int, description: string,
                           router: Option<Ip>, dns: seq<Ip>, domain: Option<string>,
                           bootServer: Option<string>, bootFile: Option<string>,
                           exclusions: set<Range>)

  datatype Relationship = Relationship(partner: string, mode: Mode, role: Option<Role>, reserve: int,
                                       loadBalance: int, leadTime: int, members: set<Ip>)

  type Relationships = map<string, Relationship>

  datatype State = State(scopes: map<Ip, Record>, rels: Relationships, partner: map<Ip, Record>)

  /* ---- Cmdlets ---- */

  datatype OptionId = Router | BootServer | BootFile

  /** A cmdlet on one existing scope record. */
  datatype Edit =
    | SetRange(range: Range)
    | SetParams(name: string, lease: int, description: string)
    | SetOptions(dns: seq<Ip>, domain: string, router: Option<Ip>)
    | SetBootServer(server: string)
    | SetBootFile(file: string)
    | RemoveOption(id: OptionId)
    | AddExclusion(hole: Range)
    | RemoveExclusion(hole: Range)

  /** Every cmdlet names the scope it is issued for. */
  datatype Cmd =
    | EditScope(scope: Ip, edit: Edit)
    | AddScope(scope: Ip, mask: Ip, range: Range, name: string, lease: int, description: string)
    | RemoveScope(scope: Ip)
    | CreateFailover(scope: Ip, failover: Failover)
    | JoinFailover(scope: Ip, rel: string)
    | LeaveFailover(scope: Ip, rel: string)
    | DropFailover(scope: Ip, rel: string)
    | TuneFailover(scope: Ip, rel: string, leadTime: int, mode: Mode, percent: int)
    | Replicate(scope: Ip)

  datatype Refusal = NotFound | AlreadyExists | Rejected

  function OptionPresent(r: Record, id: OptionId): bool {
    match id
    case Router => r.router.Some?
    case BootServer => r.bootServer.Some?
    case BootFile => r.bootFile.Some?
  }

  /** Set-, Add- and Remove- cmdlets on a record. A range must be a superset or subset of the one
      held; an exclusion must not overlap one held; options stay until removed. */
  function EditRecord(r: Record, e: Edit): Result<Record, Refusal> {
    match e
    case SetRange(range) =>
      if r.range.Within(range) || range.Within(r.range) then Ok(r.(range := range)) else Err(Rejected)
    case SetParams(name, lease, description) =>
      Ok(r.(name := name, lease := lease, description := description))
    case SetOptions(dns, domain, router) =>
      Ok(r.(dns := dns, domain := Some(domain), router := if router.Some? then router else r.router))
    case SetBootServer(server) => Ok(r.(bootServer := Some(server)))
    case SetBootFile(file) => Ok(r.(bootFile := Some(file)))
    case RemoveOption(id) =>
      if !OptionPresent(r, id) then Err(NotFound)
      else (match id
            case Router => Ok(r.(router := None))
            case BootServer => Ok(r.(bootServer := None))
            case BootFile => Ok(r.(bootFile := None)))
    case AddExclusion(hole) =>
      if hole in r.exclusions then Err(AlreadyExists)
      else if exists e :: e in r.exclusions && Overlap(e, hole) then Err(Rejected)
      else Ok(r.(exclusions := r.exclusions + {hole}))
    case RemoveExclusion(hole) =>
      if hole in r.exclusions then Ok(r.(exclusions := r.exclusions - {hole})) else Err(NotFound)
  }

  /** A fresh record: no options, no exclusions. */
  function NewRecord(mask: Ip, range: Range, name: string, lease: int, description: string): Record {
    Record(mask, range, name, lease, description, None, [], None, None, None, {})
  }

  /** The relationship New-style parameters give: mode follows from the parameter set. */
  function NewRelationship(f: Failover, scope: Ip): Relationship {
    match f.mode
    case HotStandby => Relationship(f.partner, HotStandby, Some(f.role), f.reserve, 0, f.leadTime, {scope})
    case LoadBalance => Relationship(f.partner, LoadBalance, None, 0, f.loadBalance, f.leadTime, {scope})
  }

  predicate InSomeRelationship(rels: Relationships, scope: Ip) {
    exists n :: n in rels && scope in rels[n].members
  }

  /** Failover cmdlets. Joining changes no parameter; a scope in a relationship cannot join one. */
  function Apply(sv: State, c: Cmd): Result<State, Refusal> {
    match c
    case EditScope(s, e) =>
      if s !in sv.scopes then Err(NotFound)
      else (match EditRecord(sv.scopes[s], e)
            case Ok(r) => Ok(sv.(scopes := sv.scopes[s := r]))
            case Err(why) => Err(why))
    case AddScope(s, mask, range, name, lease, description) =>
      if s in sv.scopes then Err(AlreadyExists)
      else Ok(sv.(scopes := sv.scopes[s := NewRecord(mask, range, name, lease, description)]))
    case RemoveScope(s) =>
      if s in sv.scopes then Ok(sv.(scopes := sv.scopes - {s})) else Err(NotFound)
    case CreateFailover(s, f) =>
      if s !in sv.scopes then Err(NotFound)
      else if f.name in sv.rels || InSomeRelationship(sv.rels, s) then Err(AlreadyExists)
      else Ok(sv.(rels := sv.rels[f.name := NewRelationship(f, s)]))
    case JoinFailover(s, n) =>
      if s !in sv.scopes || n !in sv.rels then Err(NotFound)
      else if InSomeRelationship(sv.rels, s) then Err(AlreadyExists)
      else Ok(sv.(rels := sv.rels[n := sv.rels[n].(members := sv.rels[n].members + {s})]))
    case LeaveFailover(s, n) =>
      if n !in sv.rels || s !in sv.rels[n].members then Err(NotFound)
      else Ok(sv.(rels := sv.rels[n := sv.rels[n].(members := sv.rels[n].members - {s})]))
    case DropFailover(_, n) =>
      if n in sv.rels then Ok(sv.(rels := sv.rels - {n})) else Err(NotFound)
    case TuneFailover(_, n, leadTime, mode, percent) =>
      if n !in sv.rels then Err(NotFound)
      else
        var r := sv.rels[n].(leadTime := leadTime);
        Ok(sv.(rels := sv.rels[n := if mode.HotStandby? then r.(reserve := percent)
                                    else r.(loadBalance := percent)]))
    case Replicate(s) =>
      if s !in sv.scopes || !InSomeRelationship(sv.rels, s) then Err(NotFound)
      else Ok(sv.(partner := sv.partner[s := sv.scopes[s]]))
  }

  /* ---- Runs ---- */

  /** Which refusals (or, for Anything, which failures) the caller of a cmdlet ignores. */
  datatype Tolerance = Strict | AbsentOk | PresentOk | Anything

  datatype Step = Step(cmd: Cmd, tolerance: Tolerance)

  predicate Tolerated(t: Tolerance, why: Refusal) {
    t.Anything? || (t.AbsentOk? && why.NotFound?) || (t.PresentOk? && why.AlreadyExists?)
  }

  /** What happens to a call: processed, lost before it takes effect, or applied with its answer
      lost. The last two reach the caller as an error. */
  datatype Weather = Fine | Lost | Unacked

  datatype Ending = Ending(sv: State, ok: bool)

  function Attempt(sv: State, step: Step, w: Weather): Ending {
    match w
    case Fine =>
      (match Apply(sv, step.cmd)
       case Ok(sv') => Ending(sv', true)
       case Err(why) => Ending(sv, Tolerated(step.tolerance, why)))
    case Lost => Ending(sv, step.tolerance.Anything?)
    case Unacked =>
      (match Apply(sv, step.cmd)
       case Ok(sv') => Ending(sv', step.tolerance.Anything?)
       case Err(_) => Ending(sv, step.tolerance.Anything?))
  }

  function Now(weather: seq<Weather>): Weather {
    if weather == [] then Fine else weather[0]
  }

  function Later(weather: seq<Weather>): seq<Weather> {
    if weather == [] then [] else weather[1..]
  }

  function LaterBy(weather: seq<Weather>, n: nat): seq<Weather> {
    if n == 0 then weather else LaterBy(Later(weather), n - 1)
  }

  /** Issue the steps in order and give up at the first failure. Weather that runs out is fine. */
  function Run(sv: State, steps: seq<Step>, weather: seq<Weather>): Ending
    decreases |steps|
  {
    if steps == [] then Ending(sv, true)
    else
      var e := Attempt(sv, steps[0], Now(weather));
      if e.ok then Run(e.sv, steps[1..], Later(weather)) else e
  }

  /** The run without faults. */
  function Finish(sv: State, steps: seq<Step>): Ending {
    Run(sv, steps, [])
  }

  lemma {:induction false} RunConcat(sv: State, a: seq<Step>, b: seq<Step>, weather: seq<Weather>)
    ensures Run(sv, a + b, weather) ==
              var e := Run(sv, a, weather);
              if e.ok then Run(e.sv, b, LaterBy(weather, |a|)) else e
    decreases |a|
  {
    if a == [] {
      assert a + b == b;
    } else {
      assert (a + b)[0] == a[0] && (a + b)[1..] == a[1..] + b;
      var e := Attempt(sv, a[0], Now(weather));
      if e.ok {
        RunConcat(e.sv, a[1..], b, Later(weather));
      }
    }
  }

  lemma {:induction false} FineStaysFine(n: nat)
    ensures LaterBy([], n) == []
  {
    if n > 0 {
      FineStaysFine(n - 1);
    }
  }

  lemma FinishConcat(sv: State, a: seq<Step>, b: seq<Step>)
    ensures Finish(sv, a + b) ==
              var e := Finish(sv, a);
              if e.ok then Finish(e.sv, b) else e
  {
    RunConcat(sv, a, b, []);
    FineStaysFine(|a|);
  }

  lemma FinishOne(sv: State, step: Step)
    ensures Finish(sv, [step]) == Attempt(sv, step, Fine)
  {
    var e := Attempt(sv, step, Fine);
    assert [step][1..] == [];
    assert e.ok ==> Finish(e.sv, []) == e;
  }

  ghost predicate Resolute(steps: seq<Step>) {
    forall i :: 0 <= i < |steps| ==> !steps[i].tolerance.Anything?
  }

  /** A run that gives up on failures, whatever the weather, leaves the state of some prefix of its
      steps; if it reports success, of all of them. */
  lemma {:induction false} StopIsPrefix(sv: State, steps: seq<Step>, weather: seq<Weather>) returns (k: nat)
    requires Resolute(steps)
    ensures k <= |steps|
    ensures Finish(sv, steps[..k]) == Ending(Run(sv, steps, weather).sv, true)
    ensures Run(sv, steps, weather).ok ==> k == |steps|
    decreases |steps|
  {
    if steps == [] {
      k := 0;
    } else {
      var e := Attempt(sv, steps[0], Now(weather));
      var fine := Attempt(sv, steps[0], Fine);
      if e.ok {
        assert e == fine;
        k := StopIsPrefix(e.sv, steps[1..], Later(weather));
        assert steps[..k + 1][1..] == steps[1..][..k];
        k := k + 1;
      } else if e.sv == sv {
        k := 0;
      } else {
        k := 1;
        assert fine == Ending(e.sv, true);
        assert steps[..1][0] == steps[0] && steps[..1][1..] == [];
        assert Finish(sv, steps[..1]) == Finish(e.sv, []);
      }
    }
  }

  /* ---- What holds of the server in every run ---- */

  ghost predicate OneRelationshipEach(rels: Relationships) {
    forall m, n, s :: m in rels && n in rels && s in rels[m].members && s in rels[n].members ==> m == n
  }

  function RawOf(n: string, r: Relationship): RawFailover {
    RawFailover(r.partner, n, r.mode, r.role, r.reserve, Some(r.loadBalance), r.leadTime)
  }

  /** Get-DhcpServerv4Failover output that the API can parse. */
  predicate Parsable(n: string, r: Relationship) {
    HasModeField(RawOf(n, r)) && FailoverFieldsOk(RawOf(n, r))
  }

  ghost predicate MembersExist(sv: State) {
    forall n, s :: n in sv.rels && s in sv.rels[n].members ==> s in sv.scopes
  }

  /** Relationships that administrators made need not be ones the API can parse. */
  ghost predicate Wf(sv: State) {
    OneRelationshipEach(sv.rels) && MembersExist(sv)
  }

  /** The name of the relationship a scope belongs to. */
  ghost function RelationshipOf(rels: Relationships, s: Ip): Option<string> {
    if InSomeRelationship(rels, s) then
      var n :| n in rels && s in rels[n].members;
      Some(n)
    else None
  }
}
