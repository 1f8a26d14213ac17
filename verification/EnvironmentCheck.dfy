/** The cached environment check: success is kept for good, failure for a while. */
module EnvironmentCheck {
  import opened Common

  datatype Cache = Unset | Passed | Failed(until: int)

  /** What a caller that holds the cache lock does next. */
  datatype Verdict = Pass | Refuse | Probe

  /** How a probe ends: the target is usable, it is known not to be, or the probe itself broke. */
  datatype ProbeEnd = Usable | Unusable | Broke

  function Consult(c: Cache, now: int): Verdict {
    match c
    case Unset => Probe
    case Passed => Pass
    case Failed(until) => if now < until then Refuse else Probe
  }

  /** The cache while a probe runs: an expired failure has been cleared. */
  function AfterConsult(c: Cache, now: int): Cache {
    if Consult(c, now).Probe? then Unset else c
  }

  /** A probe that broke leaves nothing in the cache. */
  function AfterProbe(end: ProbeEnd, now: int, ttl: int): Cache {
    match end
    case Usable => Passed
    case Unusable => Failed(now + ttl)
    case Broke => Unset
  }

  class EnvironmentCache {
    var ok: Option<bool>
    var failed: bool
    var negativeUntil: int

    ghost predicate Valid()
      reads this
    {
      failed <==> ok == Some(false)
    }

    ghost function View(): Cache
      reads this
    {
      if ok == Some(true) then Passed else if failed then Failed(negativeUntil) else Unset
    }

    constructor ()
      ensures Valid() && View() == Unset
    {
      ok := None;
      failed := false;
      negativeUntil := 0;
    }

    method Enter(now: int) returns (v: Verdict)
      requires Valid()
      modifies this
      ensures Valid() && v == Consult(old(View()), now) && View() == AfterConsult(old(View()), now)
      ensures v.Pass? <==> old(ok) == Some(true)
      ensures v.Refuse? <==> old(failed) && now < old(negativeUntil)
      ensures if v.Probe? then ok == None && !failed
              else ok == old(ok) && failed == old(failed) && negativeUntil == old(negativeUntil)
    {
      assert ok.Some? ==> ok == if ok.value then Some(true) else Some(false);
      if ok == Some(true) {
        return Pass;
      }
      if failed {
        if now < negativeUntil {
          return Refuse;
        }
        failed := false;
        ok := None;
      }
      return Probe;
    }

    method Settle(end: ProbeEnd, now: int, ttl: int)
      requires Valid() && View() == Unset
      modifies this
      ensures Valid() && View() == AfterProbe(end, now, ttl)
      ensures ok == Some(true) <==> end.Usable?
      ensures failed <==> end.Unusable?
      ensures failed ==> negativeUntil == now + ttl
    {
      match end
      case Broke =>
      case Unusable =>
        ok := Some(false);
        failed := true;
        negativeUntil := now + ttl;
      case Usable =>
        ok := Some(true);
        failed := false;
    }
  }
}
