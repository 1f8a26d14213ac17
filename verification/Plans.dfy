/** The cmdlets each request issues, as a function of what it read. A fault-free run issues the
    whole plan; any other run stops somewhere in it. */
module Plans {
  import opened Common
  import opened Addresses
  import opened Exclusions
  import opened ScopeModel
  import opened RangeTransition
  import opened Server

  /* ---- Steps on the scope's own record ---- */

  datatype EditStep = EditStep(edit: Edit, tolerance: Tolerance)

  function EditOnce(r: Record, step: EditStep): Result<Record, Refusal> {
    match EditRecord(r, step.edit)
    case Ok(r') => Ok(r')
    case Err(why) => if Tolerated(step.tolerance, why) then Ok(r) else Err(why)
  }

  function EditAll(r: Record, steps: seq<EditStep>): Option<Record>
    decreases |steps|
  {
    if steps == [] then Some(r)
    else match EditOnce(r, steps[0])
         case Ok(r') => EditAll(r', steps[1..])
         case Err(_) => None
  }

  lemma {:induction false} EditConcat(r: Record, a: seq<EditStep>, b: seq<EditStep>)
    ensures EditAll(r, a + b) ==
              match EditAll(r, a) { case Some(r') => EditAll(r', b) case None => None }
    decreases |a|
  {
    if a == [] {
      assert a + b == b;
    } else {
      assert (a + b)[0] == a[0] && (a + b)[1..] == a[1..] + b;
      match EditOnce(r, a[0])
      case Ok(r') => EditConcat(r', a[1..], b);
      case Err(_) =>
    }
  }

  function Lift(s: Ip, steps: seq<EditStep>): (lifted: seq<Step>)
    ensures |lifted| == |steps|
  {
    seq(|steps|, i requires 0 <= i < |steps| => Step(EditScope(s, steps[i].edit), steps[i].tolerance))
  }

  /** Steps on a record leave the rest of the server alone. */
  lemma {:induction false} LiftedRun(sv: State, s: Ip, steps: seq<EditStep>)
    requires s in sv.scopes && EditAll(sv.scopes[s], steps).Some?
    ensures Finish(sv, Lift(s, steps)) ==
              Ending(sv.(scopes := sv.scopes[s := EditAll(sv.scopes[s], steps).value]), true)
    decreases |steps|
  {
    if steps == [] {
      assert sv.scopes[s := sv.scopes[s]] == sv.scopes;
    } else {
      var r' := EditOnce(sv.scopes[s], steps[0]).value;
      var sv' := sv.(scopes := sv.scopes[s := r']);
      assert Attempt(sv, Lift(s, steps)[0], Fine) == Ending(sv', true) by {
        assert r' == sv.scopes[s] ==> sv.scopes[s := r'] == sv.scopes;
      }
      assert Lift(s, steps)[1..] == Lift(s, steps[1..]);
      LiftedRun(sv', s, steps[1..]);
      assert sv'.scopes[s := EditAll(r', steps[1..]).value] == sv.scopes[s := EditAll(r', steps[1..]).value];
    }
  }

  /** The order in which a run enumerates the two differences of exclusion sets. */
  datatype Order = Order(removals: seq<Range>, additions: seq<Range>)

  ghost predicate Enumerates(xs: seq<Range>, s: set<Range>) {
    ToSet(xs) == s && forall i, j :: 0 <= i < j < |xs| ==> xs[i] != xs[j]
  }

  ghost predicate OrderFor(ord: Order, c: Payload, d: Payload) {
    && Enumerates(ord.removals, ToSet(c.exclusions) - ToSet(d.exclusions))
    && Enumerates(ord.additions, ToSet(d.exclusions) - ToSet(c.exclusions))
  }

  function RangePhase(c: Payload, d: Payload): seq<EditStep> {
    var ranges := RangeSteps(c.range, d.range);
    seq(|ranges|, i requires 0 <= i < |ranges| => EditStep(SetRange(ranges[i]), Strict))
  }

  function ParamPhase(c: Payload, d: Payload): seq<EditStep> {
    if c.scopeName != d.scopeName || c.lease != d.lease || c.description != d.description then
      [EditStep(SetParams(d.scopeName, d.lease, d.description), Strict)]
    else []
  }

  function OptionPhase(c: Payload, d: Payload): seq<EditStep> {
    if c.dns != d.dns || c.domain != d.domain || c.gateway != d.gateway then
      [EditStep(SetOptions(d.dns, d.domain, d.gateway), Strict)] +
      (if c.gateway != d.gateway && d.gateway.None? then [EditStep(RemoveOption(Router), AbsentOk)] else [])
    else []
  }

  function SetBootSteps(d: Payload): seq<EditStep> {
    if d.nextServer == "" then []
    else [EditStep(SetBootServer(d.nextServer), Strict), EditStep(SetBootFile(d.bootFile), Strict)]
  }

  function BootPhase(c: Payload, d: Payload): seq<EditStep> {
    if c.nextServer != d.nextServer || c.bootFile != d.bootFile then
      if d.nextServer != "" then SetBootSteps(d)
      else [EditStep(RemoveOption(BootServer), AbsentOk), EditStep(RemoveOption(BootFile), AbsentOk)]
    else []
  }

  function Removals(xs: seq<Range>, t: Tolerance): seq<EditStep> {
    seq(|xs|, i requires 0 <= i < |xs| => EditStep(RemoveExclusion(xs[i]), t))
  }

  function Additions(xs: seq<Range>, t: Tolerance): seq<EditStep> {
    seq(|xs|, i requires 0 <= i < |xs| => EditStep(AddExclusion(xs[i]), t))
  }

  /** The record part of a converge run from what was read, `c`, to what is desired, `d`. */
  function RecordPlan(c: Payload, d: Payload, ord: Order): seq<EditStep> {
    RangePhase(c, d) + ParamPhase(c, d) + OptionPhase(c, d) + BootPhase(c, d)
    + Removals(ord.removals, Strict) + Additions(ord.additions, Strict)
  }

  /* ---- Failover steps ---- */

  /** `_remove_scope_from_failover`: leave, then drop the relationship if that emptied it. */
  function LeaveSteps(rels: Relationships, s: Ip, n: string): seq<Step> {
    [Step(LeaveFailover(s, n), Strict)] +
    (if n in rels && rels[n].members <= {s} then [Step(DropFailover(s, n), Strict)] else [])
  }

  function LeftRels(rels: Relationships, s: Ip, n: string): Relationships {
    if n !in rels || s !in rels[n].members then rels
    else if rels[n].members <= {s} then rels - {n}
    else rels[n := rels[n].(members := rels[n].members - {s})]
  }

  /** `_setup_failover`: join the named relationship if there is one, else create it. */
  function SetupSteps(rels: Relationships, s: Ip, f: Failover): seq<Step> {
    if f.name in rels then [Step(JoinFailover(s, f.name), PresentOk)]
    else [Step(CreateFailover(s, f), Strict)]
  }

  /** Same mode, and same name, partner and (for HotStandby) role. */
  predicate SameIdentity(c: Failover, d: Failover) {
    && c.mode == d.mode && c.name == d.name && c.partner == d.partner
    && (c.mode.HotStandby? ==> c.role == d.role)
  }

  function Share(f: Failover): int {
    if f.mode.HotStandby? then f.reserve else f.loadBalance
  }

  /** `_handle_failover_diff`. */
  function FailoverSteps(rels: Relationships, s: Ip, c: Option<Failover>, d: Option<Failover>): seq<Step> {
    match (c, d)
    case (None, None) => []
    case (None, Some(f)) => SetupSteps(rels, s, f)
    case (Some(g), None) => LeaveSteps(rels, s, g.name)
    case (Some(g), Some(f)) =>
      if !SameIdentity(g, f) then LeaveSteps(rels, s, g.name) + SetupSteps(LeftRels(rels, s, g.name), s, f)
      else if Share(g) != Share(f) || g.leadTime != f.leadTime then
        [Step(TuneFailover(s, g.name, f.leadTime, f.mode, Share(f)), Strict)]
      else []
  }

  /* ---- Whole plans ---- */

  /** The writes of a converge run before replication: none if nothing differs. */
  function DiffSteps(rels: Relationships, s: Ip, c: Payload, d: Payload, ord: Order): seq<Step> {
    Lift(s, RecordPlan(c, d, ord)) + FailoverSteps(rels, s, c.failover, d.failover)
  }

  /** `_converge_scope`, after its mask check. */
  function ConvergePlan(rels: Relationships, s: Ip, c: Payload, d: Payload, ord: Order): seq<Step> {
    var diff := DiffSteps(rels, s, c, d, ord);
    diff + (if diff != [] && d.failover.Some? then [Step(Replicate(s), Strict)] else [])
  }

  /** The record part of `create_scope` once the scope exists. */
  function CreateEdits(d: Payload): seq<EditStep> {
    [EditStep(SetOptions(d.dns, d.domain, d.gateway), Strict)] + SetBootSteps(d) + Additions(d.exclusions, PresentOk)
  }

  /** `create_scope` on an absent scope. */
  function CreatePlan(rels: Relationships, d: Payload): seq<Step> {
    [Step(AddScope(d.scope, d.mask, d.range, d.scopeName, d.lease, d.description), PresentOk)]
    + Lift(d.scope, CreateEdits(d))
    + (if d.failover.Some? then SetupSteps(rels, d.scope, d.failover.value) + [Step(Replicate(d.scope), Strict)]
       else [])
  }

  /** `delete_scope` on a scope that was read as `c`. */
  function DeletePlan(rels: Relationships, s: Ip, c: Payload): seq<Step> {
    (if c.failover.Some? then LeaveSteps(rels, s, c.failover.value.name) else [])
    + Lift(s, Removals(c.exclusions, Anything))
    + [Step(RemoveScope(s), Strict)]
  }
}
