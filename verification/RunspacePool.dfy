/** The idle queue of PSRP sessions: parking, checking out, discarding and closing. */
module RunspacePool {
  import opened Common

  /** A session parked at a time. The queue is last in, first out: its end is its top. */
  datatype Parked = Parked(time: int, session: nat)

  ghost predicate Chronological(idle: seq<Parked>) {
    forall i, j :: 0 <= i < j < |idle| ==> idle[i].time <= idle[j].time
  }

  /** The sessions in a queue, with multiplicity. */
  function Bag(idle: seq<Parked>): multiset<nat>
    decreases |idle|
  {
    if idle == [] then multiset{} else Bag(idle[..|idle| - 1]) + multiset{idle[|idle| - 1].session}
  }

  predicate Expired(p: Parked, now: int, maxIdle: int) {
    now - p.time >= maxIdle
  }

  /** What a checkout takes, what it leaves parked, and what it hands to close. */
  datatype Checked = Checked(found: Option<Parked>, idle: seq<Parked>, dropped: multiset<nat>)

  /** Pop until something is fresh enough. */
  function Checkout(idle: seq<Parked>, now: int, maxIdle: int): Checked
    decreases |idle|
  {
    if idle == [] then Checked(None, [], multiset{})
    else
      var top, rest := idle[|idle| - 1], idle[..|idle| - 1];
      if !Expired(top, now, maxIdle) then Checked(Some(top), rest, multiset{})
      else
        var c := Checkout(rest, now, maxIdle);
        c.(dropped := c.dropped + multiset{top.session})
  }

  /** On a chronological queue a checkout takes the newest session or, if that has expired, empties
      the queue; it never closes a session that has not expired. */
  lemma {:induction false} CheckoutTakesNewestOrEmpties(idle: seq<Parked>, now: int, maxIdle: int)
    requires Chronological(idle)
    ensures var c := Checkout(idle, now, maxIdle);
            if idle != [] && !Expired(idle[|idle| - 1], now, maxIdle)
            then c == Checked(Some(idle[|idle| - 1]), idle[..|idle| - 1], multiset{})
            else c == Checked(None, [], Bag(idle)) && forall p :: p in idle ==> Expired(p, now, maxIdle)
    decreases |idle|
  {
    if idle != [] {
      var n := |idle| - 1;
      var top, rest := idle[n], idle[..n];
      if Expired(top, now, maxIdle) {
        CheckoutTakesNewestOrEmpties(rest, now, maxIdle);
        forall p | p in idle
          ensures Expired(p, now, maxIdle)
        {
          var i :| 0 <= i < |idle| && idle[i] == p;
        }
      }
    }
  }

  /** `PsrpTransport` without its event-loop bookkeeping. `closing` counts how often each session
      was handed to close, in the background or not. */
  class PsrpTransport {
    var idle: seq<Parked>
    var closing: multiset<nat>

    constructor ()
      ensures idle == [] && closing == multiset{}
    {
      idle := [];
      closing := multiset{};
    }

    /** Parking a session keeps the queue chronological, as the clock is monotonic. */
    method Checkin(now: int, session: nat)
      requires Chronological(idle) && forall p :: p in idle ==> p.time <= now
      modifies this`idle
      ensures idle == old(idle) + [Parked(now, session)]
      ensures Chronological(idle) && forall p :: p in idle ==> p.time <= now
    {
      idle := idle + [Parked(now, session)];
    }

    method Take() returns (top: Parked)
      requires idle != []
      modifies this`idle
      ensures old(idle) == idle + [top]
    {
      top := idle[|idle| - 1];
      idle := idle[..|idle| - 1];
    }

    method CheckoutIdle(now: int, maxIdle: int) returns (found: Option<Parked>)
      modifies this
      ensures var c := Checkout(old(idle), now, maxIdle);
              found == c.found && idle == c.idle && closing == old(closing) + c.dropped
    {
      ghost var dropped: multiset<nat> := multiset{};
      while true
        invariant closing == old(closing) + dropped
        invariant var c, d := Checkout(old(idle), now, maxIdle), Checkout(idle, now, maxIdle);
                  c == d.(dropped := d.dropped + dropped)
        decreases |idle|
      {
        if idle == [] {
          return None;
        }
        var parked := Take();
        assert (idle + [parked])[..|idle|] == idle;
        var idleFor := now - parked.time;
        if idleFor < maxIdle {
          return Some(parked);
        }
        closing := closing + multiset{parked.session};
        dropped := dropped + multiset{parked.session};
      }
    }

    /** Drain the queue, closing everything in it. */
    method DiscardIdle()
      modifies this
      ensures idle == [] && closing == old(closing) + Bag(old(idle))
    {
      while true
        invariant closing + Bag(idle) == old(closing) + Bag(old(idle))
        decreases |idle|
      {
        if idle == [] {
          return;
        }
        var stale := Take();
        assert (idle + [stale])[..|idle|] == idle;
        closing := closing + multiset{stale.session};
      }
    }
  }
}
