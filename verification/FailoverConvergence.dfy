/** The failover part of a converge run, and how many passes it takes to reach what is desired:
    joining an existing relationship ignores the parameters asked for. */
module FailoverConvergence {
  import opened Common
  import opened Addresses
  import opened ScopeModel
  import opened Server
  import opened Reading
  import opened Plans

  /** What a converge run of scope s meets: no scope is in two relationships, and the one s is in,
      if any, parses. Other relationships may be beyond the API. */
  ghost predicate Sound(rels: Relationships, s: Ip) {
    OneRelationshipEach(rels) && OwnParses(rels, s)
  }

  /** The relationship of the desired name, if there is one, parses. */
  predicate NameParses(rels: Relationships, f: Failover) {
    f.name in rels ==> Parsable(f.name, rels[f.name])
  }

  function SetupRels(rels: Relationships, s: Ip, f: Failover): Relationships {
    if f.name in rels then rels[f.name := rels[f.name].(members := rels[f.name].members + {s})]
    else rels[f.name := NewRelationship(f, s)]
  }

  function TunedRels(rels: Relationships, n: string, f: Failover): Relationships
    requires n in rels
  {
    var r := rels[n].(leadTime := f.leadTime);
    rels[n := if f.mode.HotStandby? then r.(reserve := Share(f)) else r.(loadBalance := Share(f))]
  }

  /** The relationships after the failover steps of one fault-free run. */
  function AfterFailover(rels: Relationships, s: Ip, c: Option<Failover>, d: Option<Failover>): Relationships
    requires c.Some? ==> c.value.name in rels
  {
    match (c, d)
    case (None, None) => rels
    case (None, Some(f)) => SetupRels(rels, s, f)
    case (Some(g), None) => LeftRels(rels, s, g.name)
    case (Some(g), Some(f)) =>
      if !SameIdentity(g, f) then SetupRels(LeftRels(rels, s, g.name), s, f)
      else if Share(g) != Share(f) || g.leadTime != f.leadTime then TunedRels(rels, g.name, f)
      else rels
  }

  /** Who belongs where, and hence what is shown, has one answer. */
  lemma MembershipIsUnique(rels: Relationships, s: Ip, n: string)
    requires OneRelationshipEach(rels) && n in rels && s in rels[n].members
    ensures RelationshipOf(rels, s) == Some(n)
    ensures OwnParses(rels, s) <==> Parsable(n, rels[n])
    ensures Parsable(n, rels[n]) ==> FailoverOf(rels, s) == Some(Canonical(RawOf(n, rels[n])))
  {
  }

  lemma NoMembership(rels: Relationships, s: Ip)
    requires !InSomeRelationship(rels, s)
    ensures RelationshipOf(rels, s) == None && OwnParses(rels, s) && FailoverOf(rels, s) == None
  {
  }

  lemma MembershipWitness(rels: Relationships, s: Ip) returns (n: string)
    requires Sound(rels, s) && FailoverOf(rels, s).Some?
    ensures n in rels && s in rels[n].members && n == FailoverOf(rels, s).value.name
    ensures RelationshipOf(rels, s) == Some(n)
  {
    n := RelationshipOf(rels, s).value;
  }

  /* ---- The steps do what AfterFailover says ---- */

  lemma LeaveEnds(sv: State, s: Ip, n: string)
    requires OneRelationshipEach(sv.rels) && n in sv.rels && s in sv.rels[n].members
    ensures Finish(sv, LeaveSteps(sv.rels, s, n)) == Ending(sv.(rels := LeftRels(sv.rels, s, n)), true)
    ensures OneRelationshipEach(LeftRels(sv.rels, s, n)) && !InSomeRelationship(LeftRels(sv.rels, s, n), s)
  {
    var steps := LeaveSteps(sv.rels, s, n);
    var left := sv.rels[n := sv.rels[n].(members := sv.rels[n].members - {s})];
    var sv' := sv.(rels := left);
    assert Attempt(sv, steps[0], Fine) == Ending(sv', true);
    FinishOne(sv, steps[0]);
    if |steps| == 1 {
      assert steps == [steps[0]];
    } else {
      FinishConcat(sv, [steps[0]], [steps[1]]);
      FinishOne(sv', steps[1]);
      assert left - {n} == sv.rels - {n};
      assert sv.rels[n].members - {s} == {};
    }
  }

  /** A scope set up from outside can be read afterwards iff what it joined parses. */
  lemma SetupEnds(sv: State, s: Ip, f: Failover)
    requires OneRelationshipEach(sv.rels) && s in sv.scopes && !InSomeRelationship(sv.rels, s) && ValidFailover(f)
    ensures Finish(sv, SetupSteps(sv.rels, s, f)) == Ending(sv.(rels := SetupRels(sv.rels, s, f)), true)
    ensures var after := SetupRels(sv.rels, s, f);
            && OneRelationshipEach(after) && f.name in after && s in after[f.name].members
            && (OwnParses(after, s) <==> NameParses(sv.rels, f))
  {
    FinishOne(sv, SetupSteps(sv.rels, s, f)[0]);
    MembershipIsUnique(SetupRels(sv.rels, s, f), s, f.name);
  }

  lemma TuneEnds(sv: State, s: Ip, n: string, f: Failover)
    requires OneRelationshipEach(sv.rels) && n in sv.rels && Parsable(n, sv.rels[n])
    requires ValidFailover(f) && f.mode == sv.rels[n].mode
    ensures Finish(sv, [Step(TuneFailover(s, n, f.leadTime, f.mode, Share(f)), Strict)]) ==
              Ending(sv.(rels := TunedRels(sv.rels, n, f)), true)
    ensures OneRelationshipEach(TunedRels(sv.rels, n, f)) && Parsable(n, TunedRels(sv.rels, n, f)[n])
  {
    FinishOne(sv, Step(TuneFailover(s, n, f.leadTime, f.mode, Share(f)), Strict));
  }

  /** Without faults every failover cmdlet is accepted, and the relationships end as stated. The
      scope can then be read iff the relationship it was to be in was free or parses. */
  lemma FailoverStepsEnd(sv: State, s: Ip, d: Option<Failover>)
    requires Sound(sv.rels, s) && s in sv.scopes && (d.Some? ==> ValidFailover(d.value))
    ensures FailoverOf(sv.rels, s).Some? ==> FailoverOf(sv.rels, s).value.name in sv.rels
    ensures var c := FailoverOf(sv.rels, s);
            var after := AfterFailover(sv.rels, s, c, d);
            && Finish(sv, FailoverSteps(sv.rels, s, c, d)) == Ending(sv.(rels := after), true)
            && OneRelationshipEach(after)
            && (OwnParses(after, s) <==> (d.Some? ==> NameParses(sv.rels, d.value)))
            && (InSomeRelationship(after, s) <==> d.Some?)
  {
    var c := FailoverOf(sv.rels, s);
    if c.None? {
      assert !InSomeRelationship(sv.rels, s);
      if d.Some? {
        SetupEnds(sv, s, d.value);
      }
    } else {
      var n := MembershipWitness(sv.rels, s);
      if d.None? {
        LeaveEnds(sv, s, n);
        NoMembership(LeftRels(sv.rels, s, n), s);
      } else if !SameIdentity(c.value, d.value) {
        LeaveEnds(sv, s, n);
        var mid := sv.(rels := LeftRels(sv.rels, s, n));
        SetupEnds(mid, s, d.value);
        FinishConcat(sv, LeaveSteps(sv.rels, s, n), SetupSteps(mid.rels, s, d.value));
      } else {
        MembershipIsUnique(AfterFailover(sv.rels, s, c, d), s, n);
        if Share(c.value) != Share(d.value) || c.value.leadTime != d.value.leadTime {
          TuneEnds(sv, s, n, d.value);
        }
      }
    }
  }

  /* ---- How many passes ---- */

  /** The relationships after one fault-free converge run; one that cannot read its scope is
      refused. */
  ghost function Pass(rels: Relationships, s: Ip, f: Failover): Relationships
    requires OneRelationshipEach(rels)
  {
    if OwnParses(rels, s) then AfterFailover(rels, s, FailoverOf(rels, s), Some(f)) else rels
  }

  ghost predicate Reached(rels: Relationships, s: Ip, f: Failover) {
    OwnParses(rels, s) && FailoverOf(rels, s) == Some(f)
  }

  /** What cannot be changed on an existing relationship agrees with what is desired: its mode, its
      partner and, for HotStandby, the role. Lead time and percentages may differ. */
  predicate TermsFixed(r: Relationship, f: Failover) {
    r.mode == f.mode && r.partner == f.partner && (f.mode.HotStandby? ==> r.role == Some(f.role))
  }

  predicate IdentityMatches(rels: Relationships, f: Failover)
    requires f.name in rels
  {
    Parsable(f.name, rels[f.name]) && TermsFixed(rels[f.name], f)
  }

  /** The identity the diff compares is exactly the name and these fields. */
  lemma IdentityIsTermsFixed(n: string, r: Relationship, f: Failover)
    requires Parsable(n, r)
    ensures SameIdentity(Canonical(RawOf(n, r)), f) <==> n == f.name && TermsFixed(r, f)
  {
  }

  /** One pass is enough: the desired name is free, or its relationship parses and is this scope's
      alone, or this scope's with the desired identity, or exactly what is desired. */
  predicate OnePass(rels: Relationships, s: Ip, f: Failover) {
    f.name in rels ==>
      && Parsable(f.name, rels[f.name])
      && if s in rels[f.name].members then rels[f.name].members == {s} || IdentityMatches(rels, f)
         else Canonical(RawOf(f.name, rels[f.name])) == f
  }

  /** Two passes are enough: the desired name is free, or its relationship parses and either has no
      other members or the desired identity. */
  predicate TwoPasses(rels: Relationships, s: Ip, f: Failover) {
    f.name in rels ==>
      Parsable(f.name, rels[f.name]) && (rels[f.name].members <= {s} || IdentityMatches(rels, f))
  }

  lemma PassSound(rels: Relationships, s: Ip, f: Failover)
    requires OneRelationshipEach(rels) && ValidFailover(f)
    ensures OneRelationshipEach(Pass(rels, s, f))
    ensures OwnParses(rels, s) ==>
              InSomeRelationship(Pass(rels, s, f), s) && (OwnParses(Pass(rels, s, f), s) <==> NameParses(rels, f))
  {
    var any := NewRecord(0, Range(0, 0), "", 1, "");
    if OwnParses(rels, s) {
      FailoverStepsEnd(State(map[s := any], rels, map[]), s, Some(f));
    }
  }

  /** Setting up from outside: a created relationship shows what was asked for, a joined one what
      it already was. */
  lemma SetupShows(rels: Relationships, s: Ip, f: Failover)
    requires OneRelationshipEach(rels) && !InSomeRelationship(rels, s) && ValidFailover(f) && NameParses(rels, f)
    ensures Sound(SetupRels(rels, s, f), s)
    ensures FailoverOf(SetupRels(rels, s, f), s) ==
              Some(if f.name in rels then Canonical(RawOf(f.name, rels[f.name])) else f)
  {
    var after := SetupRels(rels, s, f);
    var any := NewRecord(0, Range(0, 0), "", 1, "");
    SetupEnds(State(map[s := any], rels, map[]), s, f);
    MembershipIsUnique(after, s, f.name);
  }

  lemma LeftSound(rels: Relationships, s: Ip, n: string)
    requires OneRelationshipEach(rels) && n in rels && s in rels[n].members
    ensures OneRelationshipEach(LeftRels(rels, s, n)) && !InSomeRelationship(LeftRels(rels, s, n), s)
    ensures Sound(LeftRels(rels, s, n), s)
  {
    LeaveEnds(State(map[], rels, map[]), s, n);
    NoMembership(LeftRels(rels, s, n), s);
  }

  lemma TuneShows(rels: Relationships, s: Ip, n: string, f: Failover)
    requires OneRelationshipEach(rels) && n in rels && s in rels[n].members && Parsable(n, rels[n])
    requires ValidFailover(f) && n == f.name && TermsFixed(rels[n], f)
    ensures Sound(TunedRels(rels, n, f), s) && FailoverOf(TunedRels(rels, n, f), s) == Some(f)
  {
    TuneEnds(State(map[], rels, map[]), s, n, f);
    MembershipIsUnique(TunedRels(rels, n, f), s, n);
  }

  /** What one pass shows: what was asked for, unless the scope joined a relationship that other
      scopes keep alive. */
  lemma OnePassShows(rels: Relationships, s: Ip, f: Failover)
    requires Sound(rels, s) && ValidFailover(f) && NameParses(rels, f)
    ensures Sound(Pass(rels, s, f), s)
    ensures FailoverOf(Pass(rels, s, f), s) ==
              Some(if f.name in rels && (if s in rels[f.name].members then
                                           rels[f.name].members != {s} && !IdentityMatches(rels, f)
                                         else true)
                   then Canonical(RawOf(f.name, rels[f.name])) else f)
  {
    PassSound(rels, s, f);
    var c := FailoverOf(rels, s);
    if c.None? {
      SetupShows(rels, s, f);
    } else {
      var n := MembershipWitness(rels, s);
      MembershipIsUnique(rels, s, n);
      IdentityIsTermsFixed(n, rels[n], f);
      if !SameIdentity(c.value, f) {
        LeftSound(rels, s, n);
        SetupShows(LeftRels(rels, s, n), s, f);
      } else if Share(c.value) != Share(f) || c.value.leadTime != f.leadTime {
        TuneShows(rels, s, n, f);
      }
    }
  }

  /** A member of the desired relationship whose fixed terms match is tuned in place: the failover
      part of the run reaches what is desired whoever else is a member, consists of at most one call,
      which tunes, and in no weather changes who is a member of what. */
  lemma TunedInPlace(sv: State, s: Ip, f: Failover, weather: seq<Weather>)
    requires OneRelationshipEach(sv.rels) && ValidFailover(f)
    requires f.name in sv.rels && s in sv.rels[f.name].members && Parsable(f.name, sv.rels[f.name])
    requires sv.rels[f.name].mode == f.mode && sv.rels[f.name].partner == f.partner
    requires f.mode.HotStandby? ==> sv.rels[f.name].role == Some(f.role)
    ensures OwnParses(sv.rels, s) && Reached(Pass(sv.rels, s, f), s, f)
    ensures var steps := FailoverSteps(sv.rels, s, FailoverOf(sv.rels, s), Some(f));
            && |steps| <= 1 && (forall i :: 0 <= i < |steps| ==> steps[i].cmd.TuneFailover?)
            && var after := Run(sv, steps, weather).sv.rels;
               after.Keys == sv.rels.Keys && forall n :: n in sv.rels ==> after[n].members == sv.rels[n].members
  {
    MembershipIsUnique(sv.rels, s, f.name);
    IdentityIsTermsFixed(f.name, sv.rels[f.name], f);
    OnePassShows(sv.rels, s, f);
    var steps := FailoverSteps(sv.rels, s, FailoverOf(sv.rels, s), Some(f));
    if steps != [] {
      assert steps[1..] == [];
      assert sv.rels.Keys + {f.name} == sv.rels.Keys;
    }
  }

  /** One pass reaches the desired failover exactly under OnePass. */
  lemma ReachedInOnePass(rels: Relationships, s: Ip, f: Failover)
    requires Sound(rels, s) && ValidFailover(f)
    ensures OneRelationshipEach(Pass(rels, s, f))
    ensures Reached(Pass(rels, s, f), s, f) <==> OnePass(rels, s, f)
  {
    PassSound(rels, s, f);
    if NameParses(rels, f) {
      OnePassShows(rels, s, f);
    }
  }

  /** After a pass the scope is in the relationship of the desired name; its other members, and
      whether the name is taken by a different identity, are as before. */
  lemma PassKeepsCompany(rels: Relationships, s: Ip, f: Failover)
    requires Sound(rels, s) && ValidFailover(f) && NameParses(rels, f)
    ensures Sound(Pass(rels, s, f), s)
    ensures f.name in Pass(rels, s, f) && s in Pass(rels, s, f)[f.name].members
    ensures Pass(rels, s, f)[f.name].members == {s} <==> f.name !in rels || rels[f.name].members <= {s}
    ensures f.name in rels && !(rels[f.name].members <= {s}) ==>
              (IdentityMatches(Pass(rels, s, f), f) <==> IdentityMatches(rels, f))
  {
    PassSound(rels, s, f);
    OnePassShows(rels, s, f);
    var n := MembershipWitness(Pass(rels, s, f), s);
    assert n == f.name;
  }

  /** Two passes reach it exactly under TwoPasses. */
  lemma ReachedInTwoPasses(rels: Relationships, s: Ip, f: Failover)
    requires Sound(rels, s) && ValidFailover(f)
    ensures OneRelationshipEach(Pass(rels, s, f)) && OneRelationshipEach(Pass(Pass(rels, s, f), s, f))
    ensures Reached(Pass(Pass(rels, s, f), s, f), s, f) <==> TwoPasses(rels, s, f)
  {
    var once := Pass(rels, s, f);
    PassSound(rels, s, f);
    PassSound(once, s, f);
    if NameParses(rels, f) {
      PassKeepsCompany(rels, s, f);
      ReachedInOnePass(once, s, f);
    }
  }

  /** From the second pass on nothing changes: a reached failover stays, an unreachable one never
      moves again. */
  lemma PassesSettle(rels: Relationships, s: Ip, f: Failover)
    requires OneRelationshipEach(rels) && ValidFailover(f)
    ensures OneRelationshipEach(Pass(rels, s, f)) && OneRelationshipEach(Pass(Pass(rels, s, f), s, f))
    ensures Reached(rels, s, f) ==> Pass(rels, s, f) == rels
    ensures !TwoPasses(rels, s, f) ==> Pass(Pass(rels, s, f), s, f) == Pass(rels, s, f)
  {
    var once := Pass(rels, s, f);
    PassSound(rels, s, f);
    PassSound(once, s, f);
    if !TwoPasses(rels, s, f) && OwnParses(rels, s) && NameParses(rels, f) {
      UnreachedStays(rels, s, f);
    }
  }

  lemma UnreachedStays(rels: Relationships, s: Ip, f: Failover)
    requires Sound(rels, s) && ValidFailover(f) && NameParses(rels, f) && !TwoPasses(rels, s, f)
    ensures OneRelationshipEach(Pass(rels, s, f)) && Pass(Pass(rels, s, f), s, f) == Pass(rels, s, f)
  {
    PassKeepsCompany(rels, s, f);
    var once := Pass(rels, s, f);
    MembershipIsUnique(once, s, f.name);
    var left := LeftRels(once, s, f.name);
    assert !(once[f.name].members <= {s});
    assert (once[f.name].members - {s}) + {s} == once[f.name].members;
    assert SetupRels(left, s, f) == once;
  }

  ghost function Passes(rels: Relationships, s: Ip, f: Failover, n: nat): Relationships
    requires OneRelationshipEach(rels) && ValidFailover(f)
    decreases n
  {
    if n == 0 then rels
    else
      PassSound(rels, s, f);
      Passes(Pass(rels, s, f), s, f, n - 1)
  }

  lemma {:induction false} FixedPoint(rels: Relationships, s: Ip, f: Failover, n: nat)
    requires OneRelationshipEach(rels) && ValidFailover(f) && Pass(rels, s, f) == rels
    ensures Passes(rels, s, f, n) == rels
    decreases n
  {
    if n > 0 {
      FixedPoint(rels, s, f, n - 1);
    }
  }

  /** The exact count: any number of passes from the second on reaches the desired failover iff
      two do, and they all end in the same relationships. */
  lemma PassesNeeded(rels: Relationships, s: Ip, f: Failover, n: nat)
    requires Sound(rels, s) && ValidFailover(f) && n >= 2
    ensures Passes(rels, s, f, n) == Passes(rels, s, f, 2)
    ensures Reached(Passes(rels, s, f, n), s, f) <==> TwoPasses(rels, s, f)
  {
    hide Pass, Reached, TwoPasses, OwnParses;
    ReachedInTwoPasses(rels, s, f);
    PassesSettle(rels, s, f);
    var once := Pass(rels, s, f);
    var twice := Pass(once, s, f);
    assert Passes(rels, s, f, 2) == Passes(once, s, f, 1) == Passes(twice, s, f, 0) == twice;
    PassesSettle(twice, s, f);
    FixedPoint(twice, s, f, n - 2);
    assert Passes(rels, s, f, n) == Passes(once, s, f, n - 1) == Passes(twice, s, f, n - 2);
  }
}
