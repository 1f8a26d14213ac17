/** The server as the object the API acts on: each cmdlet a method that changes it in place, the
    queries the API makes, and `_run_ps`, which issues a cmdlet under a tolerance. */
module WindowsServer {
  import opened Common
  import opened Addresses
  import opened Exclusions
  import opened ScopeModel
  import opened ScopeValidators
  import opened Server
  import opened Reading
  import opened FailoverConvergence

  /** A cmdlet's answer and effect: None and the new state, or the refusal and no change. */
  ghost predicate Answers(before: State, cmd: Cmd, why: Option<Refusal>, after: State) {
    match Apply(before, cmd)
    case Ok(sv) => why == None && after == sv
    case Err(refusal) => why == Some(refusal) && after == before
  }

  class DhcpServer {
    var scopes: map<Ip, Record>
    var rels: Relationships
    var partner: map<Ip, Record>
    /** What will happen to the calls to come. */
    var weather: seq<Weather>

    function Contents(): State
      reads this
    {
      State(scopes, rels, partner)
    }

    constructor (sv: State, weather: seq<Weather>)
      ensures Contents() == sv && this.weather == weather
    {
      scopes, rels, partner := sv.scopes, sv.rels, sv.partner;
      this.weather := weather;
    }

    /* ---- Cmdlets on one record ---- */

    method SetScopeRange(s: Ip, range: Range) returns (why: Option<Refusal>)
      modifies `scopes
      ensures Answers(old(Contents()), EditScope(s, SetRange(range)), why, Contents())
    {
      if s !in scopes {
        return Some(NotFound);
      }
      var held := scopes[s].range;
      if !held.Within(range) && !range.Within(held) {
        return Some(Rejected);
      }
      scopes := scopes[s := scopes[s].(range := range)];
      return None;
    }

    method SetScopeParams(s: Ip, name: string, lease: int, description: string) returns (why: Option<Refusal>)
      modifies `scopes
      ensures Answers(old(Contents()), EditScope(s, SetParams(name, lease, description)), why, Contents())
    {
      if s !in scopes {
        return Some(NotFound);
      }
      scopes := scopes[s := scopes[s].(name := name, lease := lease, description := description)];
      return None;
    }

    method SetOptionValues(s: Ip, dns: seq<Ip>, domain: string, router: Option<Ip>) returns (why: Option<Refusal>)
      modifies `scopes
      ensures Answers(old(Contents()), EditScope(s, SetOptions(dns, domain, router)), why, Contents())
    {
      if s !in scopes {
        return Some(NotFound);
      }
      var r := scopes[s].(dns := dns, domain := Some(domain));
      if router.Some? {
        r := r.(router := router);
      }
      scopes := scopes[s := r];
      return None;
    }

    method SetBootOption(s: Ip, edit: Edit) returns (why: Option<Refusal>)
      requires edit.SetBootServer? || edit.SetBootFile?
      modifies `scopes
      ensures Answers(old(Contents()), EditScope(s, edit), why, Contents())
    {
      if s !in scopes {
        return Some(NotFound);
      }
      if edit.SetBootServer? {
        scopes := scopes[s := scopes[s].(bootServer := Some(edit.server))];
      } else {
        scopes := scopes[s := scopes[s].(bootFile := Some(edit.file))];
      }
      return None;
    }

    method RemoveOptionValue(s: Ip, id: OptionId) returns (why: Option<Refusal>)
      modifies `scopes
      ensures Answers(old(Contents()), EditScope(s, RemoveOption(id)), why, Contents())
    {
      if s !in scopes || !OptionPresent(scopes[s], id) {
        return Some(NotFound);
      }
      match id {
        case Router => scopes := scopes[s := scopes[s].(router := None)];
        case BootServer => scopes := scopes[s := scopes[s].(bootServer := None)];
        case BootFile => scopes := scopes[s := scopes[s].(bootFile := None)];
      }
      return None;
    }

    method AddExclusionRange(s: Ip, hole: Range) returns (why: Option<Refusal>)
      modifies `scopes
      ensures Answers(old(Contents()), EditScope(s, AddExclusion(hole)), why, Contents())
    {
      if s !in scopes {
        return Some(NotFound);
      }
      var held := scopes[s].exclusions;
      if hole in held {
        return Some(AlreadyExists);
      }
      if exists e :: e in held && Overlap(e, hole) {
        return Some(Rejected);
      }
      scopes := scopes[s := scopes[s].(exclusions := held + {hole})];
      return None;
    }

    method RemoveExclusionRange(s: Ip, hole: Range) returns (why: Option<Refusal>)
      modifies `scopes
      ensures Answers(old(Contents()), EditScope(s, RemoveExclusion(hole)), why, Contents())
    {
      if s !in scopes || hole !in scopes[s].exclusions {
        return Some(NotFound);
      }
      scopes := scopes[s := scopes[s].(exclusions := scopes[s].exclusions - {hole})];
      return None;
    }

    /** Dispatch of the record cmdlets. */
    method Edit(s: Ip, edit: Edit) returns (why: Option<Refusal>)
      modifies `scopes
      ensures Answers(old(Contents()), EditScope(s, edit), why, Contents())
    {
      match edit {
        case SetRange(range) => why := SetScopeRange(s, range);
        case SetParams(name, lease, description) => why := SetScopeParams(s, name, lease, description);
        case SetOptions(dns, domain, router) => why := SetOptionValues(s, dns, domain, router);
        case SetBootServer(_) => why := SetBootOption(s, edit);
        case SetBootFile(_) => why := SetBootOption(s, edit);
        case RemoveOption(id) => why := RemoveOptionValue(s, id);
        case AddExclusion(hole) => why := AddExclusionRange(s, hole);
        case RemoveExclusion(hole) => why := RemoveExclusionRange(s, hole);
      }
    }

    /* ---- Cmdlets on scopes and relationships ---- */

    method CreateScope(s: Ip, mask: Ip, range: Range, name: string, lease: int, description: string)
      returns (why: Option<Refusal>)
      modifies `scopes
      ensures Answers(old(Contents()), AddScope(s, mask, range, name, lease, description), why, Contents())
    {
      if s in scopes {
        return Some(AlreadyExists);
      }
      scopes := scopes[s := NewRecord(mask, range, name, lease, description)];
      return None;
    }

    method DeleteScope(s: Ip) returns (why: Option<Refusal>)
      modifies `scopes
      ensures Answers(old(Contents()), RemoveScope(s), why, Contents())
    {
      if s !in scopes {
        return Some(NotFound);
      }
      scopes := scopes - {s};
      return None;
    }

    method AddFailover(s: Ip, f: Failover) returns (why: Option<Refusal>)
      modifies `rels
      ensures Answers(old(Contents()), CreateFailover(s, f), why, Contents())
    {
      if s !in scopes {
        return Some(NotFound);
      }
      if f.name in rels || exists n :: n in rels && s in rels[n].members {
        return Some(AlreadyExists);
      }
      rels := rels[f.name := NewRelationship(f, s)];
      return None;
    }

    method AddFailoverScope(s: Ip, n: string) returns (why: Option<Refusal>)
      modifies `rels
      ensures Answers(old(Contents()), JoinFailover(s, n), why, Contents())
    {
      if s !in scopes || n !in rels {
        return Some(NotFound);
      }
      if exists m :: m in rels && s in rels[m].members {
        return Some(AlreadyExists);
      }
      rels := rels[n := rels[n].(members := rels[n].members + {s})];
      return None;
    }

    method RemoveFailoverScope(s: Ip, n: string) returns (why: Option<Refusal>)
      modifies `rels
      ensures Answers(old(Contents()), LeaveFailover(s, n), why, Contents())
    {
      if n !in rels || s !in rels[n].members {
        return Some(NotFound);
      }
      rels := rels[n := rels[n].(members := rels[n].members - {s})];
      return None;
    }

    method RemoveFailover(s: Ip, n: string) returns (why: Option<Refusal>)
      modifies `rels
      ensures Answers(old(Contents()), DropFailover(s, n), why, Contents())
    {
      if n !in rels {
        return Some(NotFound);
      }
      rels := rels - {n};
      return None;
    }

    method SetFailover(s: Ip, n: string, leadTime: int, mode: Mode, percent: int) returns (why: Option<Refusal>)
      modifies `rels
      ensures Answers(old(Contents()), TuneFailover(s, n, leadTime, mode, percent), why, Contents())
    {
      if n !in rels {
        return Some(NotFound);
      }
      var r := rels[n].(leadTime := leadTime);
      if mode.HotStandby? {
        r := r.(reserve := percent);
      } else {
        r := r.(loadBalance := percent);
      }
      rels := rels[n := r];
      return None;
    }

    method ReplicateFailover(s: Ip) returns (why: Option<Refusal>)
      modifies `partner
      ensures Answers(old(Contents()), Replicate(s), why, Contents())
    {
      if s !in scopes || !exists n :: n in rels && s in rels[n].members {
        return Some(NotFound);
      }
      partner := partner[s := scopes[s]];
      return None;
    }

    method Perform(cmd: Cmd) returns (why: Option<Refusal>)
      modifies `scopes, `rels, `partner
      ensures Answers(old(Contents()), cmd, why, Contents())
    {
      match cmd {
        case EditScope(s, edit) => why := Edit(s, edit);
        case AddScope(s, mask, range, name, lease, description) =>
          why := CreateScope(s, mask, range, name, lease, description);
        case RemoveScope(s) => why := DeleteScope(s);
        case CreateFailover(s, f) => why := AddFailover(s, f);
        case JoinFailover(s, n) => why := AddFailoverScope(s, n);
        case LeaveFailover(s, n) => why := RemoveFailoverScope(s, n);
        case DropFailover(s, n) => why := RemoveFailover(s, n);
        case TuneFailover(s, n, leadTime, mode, percent) => why := SetFailover(s, n, leadTime, mode, percent);
        case Replicate(s) => why := ReplicateFailover(s);
      }
    }

    /** `_run_ps`: one call in the weather of the moment, with its error-handling policy. */
    method RunPs(step: Step) returns (ok: bool)
      modifies this
      ensures Ending(Contents(), ok) == Attempt(old(Contents()), step, Now(old(weather)))
      ensures weather == Later(old(weather))
    {
      var today := if weather == [] then Fine else weather[0];
      weather := if weather == [] then [] else weather[1..];
      if today.Lost? {
        return step.tolerance.Anything?;
      }
      var why := Perform(step.cmd);
      if today.Unacked? {
        return step.tolerance.Anything?;
      }
      match why {
        case None => return true;
        case Some(refusal) =>
          if step.tolerance.Anything? {
            return true;
          }
          if step.tolerance.AbsentOk? && refusal.NotFound? {
            return true;
          }
          return step.tolerance.PresentOk? && refusal.AlreadyExists?;
      }
    }

    /* ---- Queries ---- */

    method ScopeExists(s: Ip) returns (found: bool)
      ensures found <==> s in scopes
    {
      return s in scopes;
    }

    method FailoverByName(n: string) returns (rel: Option<Relationship>)
      ensures rel == if n in rels then Some(rels[n]) else None
    {
      return if n in rels then Some(rels[n]) else None;
    }

    /** The first relationship listed that holds the scope. */
    method FailoverOfScope(s: Ip) returns (raw: Option<RawFailover>)
      requires OneRelationshipEach(rels)
      ensures raw == RawFailoverOf(rels, s)
    {
      var todo := rels.Keys;
      while todo != {}
        invariant todo <= rels.Keys
        invariant forall n :: n in rels && n !in todo ==> s !in rels[n].members
        decreases |todo|
      {
        var n :| n in todo;
        if s in rels[n].members {
          return Some(RawOf(n, rels[n]));
        }
        todo := todo - {n};
      }
      NoMembership(rels, s);
      return None;
    }

    /** The exclusions in the order the server happens to list them. */
    method ListExclusions(s: Ip) returns (listed: seq<Range>)
      requires s in scopes
      ensures multiset(listed) == multiset(Enumerate(scopes[s].exclusions))
    {
      var todo := scopes[s].exclusions;
      listed := [];
      while todo != {}
        invariant todo <= scopes[s].exclusions
        invariant multiset(listed) + multiset(todo) == multiset(scopes[s].exclusions)
        decreases |todo|
      {
        var e :| e in todo;
        listed := listed + [e];
        assert multiset(todo) == multiset(todo - {e}) + multiset{e};
        todo := todo - {e};
      }
    }

    /** `assemble_scope_state`: one query, decoded by the payload validators. */
    method ScopeState(s: Ip) returns (r: ReadResult)
      requires OneRelationshipEach(rels)
      ensures r == Read(Contents(), s)
    {
      if s !in scopes {
        return Missing;
      }
      var record := scopes[s];
      var failover := FailoverOfScope(s);
      if record.dns == [] {
        return Unreadable;
      }
      var listed := ListExclusions(s);
      var body := Body(record.name, Some(record.mask), Some(record.range.start), Some(record.range.end),
                       record.lease, record.description,
                       if record.router.Some? then Address(record.router.value) else Null,
                       record.dns, Text(record.domain), Text(record.bootServer), Text(record.bootFile),
                       listed, failover);
      ExclusionOrderIsIrrelevant(s, DecodedBody(record, failover), listed);
      assert body == DecodedBody(record, failover).(exclusions := listed);
      var payload := Validate(s, body);
      match payload {
        case Ok(p) => return Found(p);
        case Err(_) => return Unreadable;
      }
    }
  }
}
