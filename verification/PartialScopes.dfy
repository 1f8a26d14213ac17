/** Scopes that a stopped create or delete leaves behind, and which of them can still be read. */
module PartialScopes {
  import opened Common
  import opened Addresses
  import opened Exclusions
  import opened ScopeModel
  import opened Server
  import opened Reading
  import opened Plans
  import opened Convergence
  import opened CrashSafety

  function Added(d: Payload): Record {
    NewRecord(d.mask, d.range, d.scopeName, d.lease, d.description)
  }

  /** The record after the option steps and the first j exclusions. */
  function Built(d: Payload, j: nat): Record
    requires j <= |d.exclusions|
  {
    var r := Added(d).(dns := d.dns, domain := Some(d.domain), router := d.gateway,
                       exclusions := ToSet(d.exclusions[..j]));
    if d.nextServer == "" then r else r.(bootServer := Some(d.nextServer), bootFile := Some(d.bootFile))
  }

  function OptionSteps(d: Payload): seq<EditStep> {
    [EditStep(SetOptions(d.dns, d.domain, d.gateway), Strict)] + SetBootSteps(d)
  }

  lemma OptionStepsEnd(d: Payload)
    ensures EditAll(Added(d), OptionSteps(d)) == Some(Built(d, 0))
    ensures d.nextServer != "" ==>
              EditAll(Added(d), OptionSteps(d)[..2]) == Some(Built(d, 0).(bootFile := None))
    ensures EditAll(Added(d), OptionSteps(d)[..1]) ==
              Some(Built(d, 0).(bootServer := None, bootFile := None))
  {
    var steps := OptionSteps(d);
    var r1 := EditOnce(Added(d), steps[0]).value;
    assert ToSet(d.exclusions[..0]) == {};
    EditTwo(Added(d), steps[..1]);
    if d.nextServer == "" {
      assert steps[..1] == steps;
    } else {
      EditTwo(Added(d), steps[..2]);
      EditTwo(r1, [steps[1]]);
      var r2 := EditOnce(r1, steps[1]).value;
      EditTwo(r2, [steps[2]]);
      assert steps == steps[..2] + [steps[2]];
      EditConcat(Added(d), steps[..2], [steps[2]]);
    }
  }

  lemma ExclusionStepsEnd(d: Payload, j: nat)
    requires Valid(d) && j <= |d.exclusions|
    ensures EditAll(Built(d, 0), Additions(d.exclusions, PresentOk)[..j]) == Some(Built(d, j))
  {
    AscendingIsDisjoint(d.exclusions);
    var xs := d.exclusions[..j];
    assert Additions(d.exclusions, PresentOk)[..j] == Additions(xs, PresentOk);
    assert ToSet(d.exclusions[..0]) == {};
    assert ToSet(xs) <= ToSet(d.exclusions);
    forall i, k | 0 <= i < k < |xs|
      ensures xs[i] != xs[k]
    {
      assert d.exclusions[i].WellFormed();
    }
    assert {} + ToSet(xs) == ToSet(xs);
    AdditionsEnd(Built(d, 0), xs, PresentOk);
  }

  /** A create that is not stopped ends showing what was asked for. */
  lemma CreateConverges(d: Payload)
    requires Valid(d)
    ensures EditAll(Added(d), CreateEdits(d)) == Some(Built(d, |d.exclusions|))
    ensures Shows(Built(d, |d.exclusions|), d)
  {
    OptionStepsEnd(d);
    ExclusionStepsEnd(d, |d.exclusions|);
    var adds := Additions(d.exclusions, PresentOk);
    assert adds[..|d.exclusions|] == adds && d.exclusions[..|d.exclusions|] == d.exclusions;
    EditConcat(Added(d), OptionSteps(d), adds);
    ShowsFieldwise(Built(d, |d.exclusions|), d);
  }

  /** How many exclusions a create has added after k of its edits. */
  function ExclusionsAfter(d: Payload, k: nat): nat {
    var options := |OptionSteps(d)|;
    if k <= options then 0 else k - options
  }

  /** After k edits a new scope can be read: its DNS servers are set, not just half of its PXE
      pair, and its gateway is clear of the range or under an exclusion already added. */
  ghost predicate CreateStopReadable(d: Payload, k: nat)
    requires k <= |CreateEdits(d)|
  {
    && k >= 1
    && (d.nextServer != "" ==> k != 2)
    && !GatewayExposed(d.gateway, d.range, ToSet(d.exclusions[..ExclusionsAfter(d, k)]))
  }

  lemma BuiltIsReadable(d: Payload, j: nat)
    requires Valid(d) && j <= |d.exclusions|
    ensures Readable(d.scope, Built(d, j)) <==> !GatewayExposed(d.gateway, d.range, ToSet(d.exclusions[..j]))
    ensures d.nextServer != "" ==> !Readable(d.scope, Built(d, j).(bootFile := None))
    ensures Readable(d.scope, Built(d, j).(bootServer := None, bootFile := None)) <==> Readable(d.scope, Built(d, j))
  {
    AscendingIsDisjoint(d.exclusions);
    assert ToSet(d.exclusions[..j]) <= ToSet(d.exclusions);
  }

  /** Stopped after the scope was added and k of its edits were made, a create leaves a scope that
      later requests can read exactly under CreateStopReadable. */
  lemma CreateStops(d: Payload, k: nat)
    requires Valid(d) && k <= |CreateEdits(d)|
    ensures StopAt(Added(d), CreateEdits(d), k).Some?
    ensures Readable(d.scope, StopAt(Added(d), CreateEdits(d), k).value) <==> CreateStopReadable(d, k)
  {
    var options, adds := OptionSteps(d), Additions(d.exclusions, PresentOk);
    var j := ExclusionsAfter(d, k);
    OptionStepsEnd(d);
    BuiltIsReadable(d, j);
    if k == 0 {
      assert CreateEdits(d)[..0] == [];
    } else if k <= |options| {
      assert CreateEdits(d)[..k] == options[..k];
      assert options[..|options|] == options;
    } else {
      assert CreateEdits(d)[..k] == options + adds[..j];
      EditConcat(Added(d), options, adds[..j]);
      ExclusionStepsEnd(d, j);
    }
  }
}
