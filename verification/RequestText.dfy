/** Every cmdlet of every request is one whose text can be read back. */
module RequestText {
  import opened Common
  import opened Addresses
  import opened ScopeModel
  import opened Server
  import opened Reading
  import opened Plans
  import opened Api
  import opened PowerShellText
  import opened CommandText
  import opened CommandMeaning

  ghost predicate Legible(steps: seq<Step>) {
    forall i :: 0 <= i < |steps| ==> Printable(steps[i].cmd) && ScopeOfRange(steps[i].cmd)
  }

  ghost predicate AllPrintable(s: Ip, edits: seq<EditStep>) {
    forall i :: 0 <= i < |edits| ==> Printable(EditScope(s, edits[i].edit))
  }

  lemma PhasesArePrintable(s: Ip, c: Payload, d: Payload, ord: Order)
    requires Valid(d)
    ensures AllPrintable(s, RangePhase(c, d)) && AllPrintable(s, ParamPhase(c, d)) && AllPrintable(s, OptionPhase(c, d))
    ensures AllPrintable(s, BootPhase(c, d))
    ensures AllPrintable(s, Removals(ord.removals, Strict)) && AllPrintable(s, Additions(ord.additions, Strict))
  {
  }

  lemma RecordPlanIsPrintable(s: Ip, c: Payload, d: Payload, ord: Order)
    requires Valid(d)
    ensures AllPrintable(s, RecordPlan(c, d, ord))
  {
    hide RangePhase, ParamPhase, OptionPhase, BootPhase, Printable, Valid;
    PhasesArePrintable(s, c, d, ord);
  }

  lemma LiftIsLegible(s: Ip, edits: seq<EditStep>)
    requires AllPrintable(s, edits)
    ensures Legible(Lift(s, edits))
  {
  }

  lemma FailoverStepsAreLegible(rels: Relationships, s: Ip, c: Option<Failover>, d: Option<Failover>)
    requires d.Some? ==> ValidFailover(d.value)
    ensures Legible(FailoverSteps(rels, s, c, d))
  {
  }

  lemma CreatedScopeHasItsAddress(d: Payload)
    requires Valid(d)
    ensures ScopeOfRange(AddScope(d.scope, d.mask, d.range, d.scopeName, d.lease, d.description))
  {
    Resubmission(d);
    AcceptedPayloadIsSafe(d.scope, ToBody(d));
  }

  lemma ConvergePlanIsLegible(rels: Relationships, s: Ip, c: Payload, d: Payload, ord: Order)
    requires Valid(d)
    ensures Legible(ConvergePlan(rels, s, c, d, ord))
  {
    hide FailoverSteps, RecordPlan, Lift;
    RecordPlanIsPrintable(s, c, d, ord);
    LiftIsLegible(s, RecordPlan(c, d, ord));
    FailoverStepsAreLegible(rels, s, c.failover, d.failover);
  }

  lemma CreatePlanIsLegible(rels: Relationships, d: Payload)
    requires Valid(d)
    ensures Legible(CreatePlan(rels, d))
  {
    CreatedScopeHasItsAddress(d);
    LiftIsLegible(d.scope, CreateEdits(d));
    FailoverStepsAreLegible(rels, d.scope, None, d.failover);
  }

  lemma DeletePlanIsLegible(rels: Relationships, s: Ip, c: Payload)
    ensures Legible(DeletePlan(rels, s, c))
  {
    LiftIsLegible(s, Removals(c.exclusions, Anything));
  }

  lemma IntentIsLegible(sv: Server.State, req: Request, ord: Order)
    requires ValidRequest(req) && Intent(sv, req, ord).Some?
    ensures Legible(Intent(sv, req, ord).value)
  {
    var s := Target(req);
    if req.Delete? {
      if s in sv.scopes {
        DeletePlanIsLegible(sv.rels, s, Read(sv, s).payload);
      }
    } else if req.Post? && s !in sv.scopes {
      CreatePlanIsLegible(sv.rels, req.d);
    } else if !req.Get? {
      ConvergePlanIsLegible(sv.rels, s, Read(sv, s).payload, req.d, ord);
    }
  }

  /** The server, reading each line a valid request sends in its own vocabulary, does what the step
      stands for. */
  lemma RequestMeansItsSteps(sv: Server.State, req: Request, ord: Order, i: nat, at: Server.State)
    requires ValidRequest(req) && Intent(sv, req, ord).Some? && i < |Intent(sv, req, ord).value|
    ensures var c := Intent(sv, req, ord).value[i].cmd;
            Obey(at, Print(CommandOf(c))) == Some(Apply(at, c))
  {
    hide Obey, Apply, CommandOf, Print, Intent;
    IntentIsLegible(sv, req, ord);
    TextMeansItsStep(Intent(sv, req, ord).value[i].cmd, at);
  }

  /** The commands a valid request sends are read back exactly, and two of them with the same text,
      from whatever requests, do the same to every server. */
  lemma RequestTextIsFaithful(sv: Server.State, reqA: Request, ordA: Order, i: nat, reqB: Request, ordB: Order, k: nat)
    requires ValidRequest(reqA) && Intent(sv, reqA, ordA).Some? && i < |Intent(sv, reqA, ordA).value|
    requires ValidRequest(reqB) && Intent(sv, reqB, ordB).Some? && k < |Intent(sv, reqB, ordB).value|
    ensures var a := Intent(sv, reqA, ordA).value[i].cmd;
            Parse(Lex(Print(CommandOf(a)))) == Some(CommandOf(a))
    ensures var a, b := Intent(sv, reqA, ordA).value[i].cmd, Intent(sv, reqB, ordB).value[k].cmd;
            Print(CommandOf(a)) == Print(CommandOf(b)) ==> forall at :: Apply(at, a) == Apply(at, b)
  {
    IntentIsLegible(sv, reqA, ordA);
    IntentIsLegible(sv, reqB, ordB);
    var a, b := Intent(sv, reqA, ordA).value[i].cmd, Intent(sv, reqB, ordB).value[k].cmd;
    TextReadsBack(a);
    if Print(CommandOf(a)) == Print(CommandOf(b)) {
      forall at
        ensures Apply(at, a) == Apply(at, b)
      {
        TextDeterminesEffect(at, a, b);
      }
    }
  }
}
