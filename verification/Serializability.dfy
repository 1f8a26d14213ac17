/** Requests running concurrently under the per-scope locks: every interleaving of their calls
    amounts to serving them one after another, in the order in which they took their locks. */
module Serializability {
  import opened Common
  import opened Addresses
  import opened ScopeModel
  import opened Server
  import opened Plans
  import opened Api
  import opened Footprints
  import opened Queries

  /** Where a request is: waiting for its lock, holding it, part way through its program (the calls
      at hand, what follows, and whether all went well so far), or done with its answer. */
  datatype Phase =
    | Waiting
    | Holding
    | Running(rest: seq<Step>, later: seq<Query>, weather: seq<Weather>, ok: bool)
    | Finished(ok: bool)

  /** `seen` is the server as the request read it, `issued` the calls it made since. */
  datatype Job = Job(event: Event, phase: Phase, seen: State, issued: seq<Issued>) {
    function Scope(): Ip { Target(event.req) }

    predicate Active() { phase.Holding? || phase.Running? }
  }

  /** `order` lists the jobs in the order in which they took their locks. */
  datatype World = World(sv: State, jobs: seq<Job>, locks: map<Ip, nat>, order: seq<nat>)

  /** Read reads the scope, Ask makes the next query, and Release ends the request: PUT and POST
      read once more for their answer before they let go of the lock. */
  datatype Move = Acquire(i: nat) | Read(i: nat) | Call(i: nat) | Ask(i: nat) | Release(i: nat)

  predicate Enabled(w: World, m: Move) {
    m.i < |w.jobs| &&
    var t := w.jobs[m.i];
    match m
    case Acquire(_) => t.phase.Waiting? && t.Scope() !in w.locks
    case Read(_) => t.phase.Holding?
    case Call(_) => t.phase.Running? && t.phase.rest != []
    case Ask(_) => t.phase.Running? && t.phase.rest == [] && t.phase.later != []
    case Release(_) => t.phase.Running? && t.phase.rest == [] && t.phase.later == []
  }

  ghost function AfterRead(t: Job, sv: State): Job {
    match ProgramOf(sv, t.event.req, t.event.ord)
    case None => t.(seen := sv, phase := Running([], [], t.event.weather, false))
    case Some(p) => t.(seen := sv, phase := Running(p.calls, p.later, t.event.weather, true))
  }

  function NextCall(t: Job): Issued
    requires t.phase.Running? && t.phase.rest != []
  {
    Issued(t.phase.rest[0], Now(t.phase.weather))
  }

  /** A failed call ends the request's calls. */
  function AfterCall(t: Job, sv: State): Job
    requires t.phase.Running? && t.phase.rest != []
  {
    var x := NextCall(t);
    var ok := Attempt(sv, x.step, x.weather).ok;
    t.(issued := t.issued + [x],
       phase := Running(if ok then t.phase.rest[1..] else [], if ok then t.phase.later else [],
                        Later(t.phase.weather), ok))
  }

  /** The answer of a query decides the calls that follow. */
  function AfterAsk(t: Job, sv: State): Job
    requires t.phase.Running? && t.phase.rest == [] && t.phase.later != []
  {
    t.(phase := t.phase.(rest := Answer(sv.rels, t.Scope(), t.phase.later[0]), later := t.phase.later[1..]))
  }

  ghost function AfterRelease(t: Job, sv: State): Job
    requires t.phase.Running?
  {
    t.(phase := Finished(t.phase.ok && AnswerReads(sv, t.event.req)))
  }

  ghost function Next(w: World, m: Move): World
    requires Enabled(w, m)
  {
    var t := w.jobs[m.i];
    match m
    case Acquire(i) =>
      w.(jobs := w.jobs[i := t.(phase := Holding)], locks := w.locks[t.Scope() := i], order := w.order + [i])
    case Read(i) => w.(jobs := w.jobs[i := AfterRead(t, w.sv)])
    case Call(i) => w.(jobs := w.jobs[i := AfterCall(t, w.sv)], sv := Outcome(w.sv, NextCall(t)))
    case Ask(i) => w.(jobs := w.jobs[i := AfterAsk(t, w.sv)])
    case Release(i) => w.(jobs := w.jobs[i := AfterRelease(t, w.sv)], locks := w.locks - {t.Scope()})
  }

  /* ---- The serial order a world stands for ---- */

  ghost predicate Listed(w: World) {
    && (forall p :: 0 <= p < |w.order| ==> w.order[p] < |w.jobs|)
    && (forall p, q :: 0 <= p < q < |w.order| ==> w.order[p] != w.order[q])
    && forall i :: 0 <= i < |w.jobs| ==> (i in w.order <==> !w.jobs[i].phase.Waiting?)
  }

  ghost predicate Indices(jobs: seq<Job>, order: seq<nat>, n: nat) {
    n <= |order| && forall p :: 0 <= p < n ==> order[p] < |jobs|
  }

  /** The calls of the first n jobs in lock order, sorted by job instead of by time. */
  ghost function Sorted(sv0: State, jobs: seq<Job>, order: seq<nat>, n: nat): State
    requires Indices(jobs, order, n)
  {
    if n == 0 then sv0 else Effects(Sorted(sv0, jobs, order, n - 1), jobs[order[n - 1]].issued)
  }

  ghost predicate LocalJobs(own: Owners, busy: set<Ip>, jobs: seq<Job>) {
    forall i :: 0 <= i < |jobs| ==>
      && jobs[i].Scope() in busy
      && LocalRequest(own, jobs[i].event.req)
      && LocalTrace(own, jobs[i].Scope(), jobs[i].issued)
  }

  lemma {:induction false} SortedIsSeparate(own: Owners, busy: set<Ip>, sv0: State,
                                            jobs: seq<Job>, order: seq<nat>, n: nat)
    requires Indices(jobs, order, n) && Separate(own, busy, sv0) && LocalJobs(own, busy, jobs)
    ensures Separate(own, busy, Sorted(sv0, jobs, order, n))
  {
    if n > 0 {
      SortedIsSeparate(own, busy, sv0, jobs, order, n - 1);
      var t := jobs[order[n - 1]];
      EffectsStayInside(own, busy, t.Scope(), Sorted(sv0, jobs, order, n - 1), t.issued);
    }
  }

  /** Jobs on other scopes do not change what scope s looks like. */
  lemma {:induction false} ViewIsKept(own: Owners, busy: set<Ip>, sv0: State, jobs: seq<Job>, order: seq<nat>,
                                      s: Ip, k: nat, n: nat)
    requires Indices(jobs, order, n) && k <= n && Separate(own, busy, sv0) && LocalJobs(own, busy, jobs)
    requires forall p :: k <= p < n ==> jobs[order[p]].Scope() != s
    ensures Agree(own, s, Sorted(sv0, jobs, order, k), Sorted(sv0, jobs, order, n))
  {
    if k < n {
      ViewIsKept(own, busy, sv0, jobs, order, s, k, n - 1);
      var t := jobs[order[n - 1]];
      var before := Sorted(sv0, jobs, order, n - 1);
      SortedIsSeparate(own, busy, sv0, jobs, order, n - 1);
      EffectsStayInside(own, busy, t.Scope(), before, t.issued);
      OutsideMeansAgree(own, t.Scope(), s, before, Sorted(sv0, jobs, order, n));
      AgreeIsTransitive(own, s, Sorted(sv0, jobs, order, k), before, Sorted(sv0, jobs, order, n));
    }
  }

  lemma {:induction false} SortedDependsOnIssued(sv0: State, jobs: seq<Job>, order: seq<nat>,
                                                 jobs': seq<Job>, order': seq<nat>, n: nat)
    requires Indices(jobs, order, n) && Indices(jobs', order', n)
    requires forall p :: 0 <= p < n ==> order[p] == order'[p] && jobs[order[p]].issued == jobs'[order[p]].issued
    ensures Sorted(sv0, jobs, order, n) == Sorted(sv0, jobs', order', n)
  {
    if n > 0 {
      SortedDependsOnIssued(sv0, jobs, order, jobs', order', n - 1);
    }
  }

  /** A call of the job at p, made after everything issued so far, can be moved back to its job. */
  lemma {:induction false} CallSortsIn(own: Owners, busy: set<Ip>, sv0: State, jobs: seq<Job>, jobs': seq<Job>,
                                       order: seq<nat>, p: nat, x: Issued, n: nat)
    requires p < n && Indices(jobs, order, n) && Separate(own, busy, sv0) && LocalJobs(own, busy, jobs)
    requires forall q, r :: 0 <= q < r < n ==> order[q] != order[r]
    requires |jobs'| == |jobs| && jobs' == jobs[order[p] := jobs'[order[p]]]
    requires jobs'[order[p]].issued == jobs[order[p]].issued + [x]
    requires Local(own, jobs[order[p]].Scope(), x.step.cmd)
    requires forall q :: p < q < n ==> jobs[order[q]].Scope() != jobs[order[p]].Scope()
    ensures Sorted(sv0, jobs', order, n) == Outcome(Sorted(sv0, jobs, order, n), x)
  {
    var before := Sorted(sv0, jobs, order, n - 1);
    if p == n - 1 {
      SortedDependsOnIssued(sv0, jobs, order, jobs', order, n - 1);
      EffectsConcat(before, jobs[order[p]].issued, [x]);
      assert [x][1..] == [];
    } else {
      CallSortsIn(own, busy, sv0, jobs, jobs', order, p, x, n - 1);
      SortedIsSeparate(own, busy, sv0, jobs, order, n - 1);
      var t := jobs[order[n - 1]];
      CallPassesTrace(own, busy, jobs[order[p]].Scope(), t.Scope(), before, x, t.issued);
    }
  }

  /* ---- The invariant ---- */

  /** A scope's lock is held by the one job in its critical section. */
  ghost predicate Locked(w: World) {
    && (forall i :: 0 <= i < |w.jobs| && w.jobs[i].Active() ==>
          w.jobs[i].Scope() in w.locks && w.locks[w.jobs[i].Scope()] == i)
    && forall s :: s in w.locks ==>
         w.locks[s] < |w.jobs| && w.jobs[w.locks[s]].Active() && w.jobs[w.locks[s]].Scope() == s
  }

  /** Jobs that took their locks after an active one work on other scopes. */
  ghost predicate Apart(w: World)
    requires Listed(w)
  {
    forall p, q :: 0 <= p < q < |w.order| && w.jobs[w.order[p]].Active() ==>
      w.jobs[w.order[p]].Scope() != w.jobs[w.order[q]].Scope()
  }

  /** What a running job has ahead of it, going by what it read. */
  ghost function Ahead(t: Job): Report
    requires t.phase.Running?
  {
    if t.phase.ok
    then ProgramReport(Effects(t.seen, t.issued), t.Scope(), t.phase.rest, t.phase.later, t.phase.weather)
    else Report([], false)
  }

  /** What a job has issued, and has ahead, is what it would issue and answer on the state it read. */
  ghost predicate OnCourse(own: Owners, t: Job) {
    match t.phase
    case Waiting => t.issued == []
    case Holding => t.issued == []
    case Running(rest, later, _, ok) =>
      && LocalProgram(own, t.Scope(), rest, later)
      && (!ok ==> rest == [] && later == [])
      && ServeReport(t.seen, t.event) ==
           Settled(t.seen, t.event.req, Report(t.issued + Ahead(t).trace, Ahead(t).ok))
    case Finished(ok) => ServeReport(t.seen, t.event) == Report(t.issued, ok)
  }

  /** The job at p read, of its own footprint, what the jobs before it in lock order leave. */
  ghost predicate ReadInOrder(own: Owners, busy: set<Ip>, sv0: State, w: World, p: nat)
    requires Indices(w.jobs, w.order, |w.order|) && p < |w.order|
  {
    var t := w.jobs[w.order[p]];
    t.phase.Running? || t.phase.Finished? ==>
      Separate(own, busy, t.seen) && Agree(own, t.Scope(), t.seen, Sorted(sv0, w.jobs, w.order, p))
  }

  ghost predicate Ordered(w: World) {
    Listed(w) && Locked(w) && Apart(w)
  }

  ghost predicate Inv(own: Owners, busy: set<Ip>, sv0: State, w: World) {
    && Ordered(w)
    && Separate(own, busy, sv0) && LocalJobs(own, busy, w.jobs)
    && w.sv == Sorted(sv0, w.jobs, w.order, |w.order|)
    && (forall i :: 0 <= i < |w.jobs| ==> OnCourse(own, w.jobs[i]))
    && forall p :: 0 <= p < |w.order| ==> ReadInOrder(own, busy, sv0, w, p)
  }

  lemma MoveKeepsListed(w: World, m: Move)
    requires Listed(w) && Enabled(w, m)
    ensures Listed(Next(w, m))
  {
    if m.Acquire? {
      assert Next(w, m).order[|w.order|] == m.i;
      assert forall i :: i in Next(w, m).order <==> i in w.order || i == m.i;
    }
  }

  lemma MoveKeepsLocked(w: World, m: Move)
    requires Locked(w) && Enabled(w, m)
    ensures Locked(Next(w, m))
  {
    var w' := Next(w, m);
    assert forall k :: 0 <= k < |w.jobs| && k != m.i ==> w'.jobs[k] == w.jobs[k];
    assert w'.jobs[m.i].Scope() == w.jobs[m.i].Scope();
  }

  /** What a move leaves alone, whichever it is. */
  lemma MoveShape(w: World, m: Move)
    requires Enabled(w, m)
    ensures var w' := Next(w, m);
            && |w'.jobs| == |w.jobs| && m.i < |w.jobs|
            && (forall k :: 0 <= k < |w.jobs| && k != m.i ==> w'.jobs[k] == w.jobs[k])
            && (forall k :: 0 <= k < |w.jobs| ==> w'.jobs[k].Scope() == w.jobs[k].Scope())
            && (if m.Acquire?
                then w'.order == w.order + [m.i] && w.jobs[m.i].phase.Waiting? && w.jobs[m.i].Scope() !in w.locks
                else w'.order == w.order && w.jobs[m.i].Active())
  {
  }

  lemma MoveKeepsApart(w: World, m: Move)
    requires Ordered(w) && Enabled(w, m)
    ensures Listed(Next(w, m)) && Apart(Next(w, m))
  {
    hide Next, Enabled;
    MoveKeepsListed(w, m);
    MoveShape(w, m);
    var w' := Next(w, m);
    forall p, q | 0 <= p < q < |w'.order| && w'.jobs[w'.order[p]].Active()
      ensures w'.jobs[w'.order[p]].Scope() != w'.jobs[w'.order[q]].Scope()
    {
      assert w'.order[p] == w.order[p];
      assert w.order[p] in w.order;
    }
  }

  /** A move that issues nothing. */
  ghost predicate Quiet(w: World, w': World, i: nat) {
    && Listed(w) && Listed(w')
    && i < |w.jobs| == |w'.jobs|
    && w.order <= w'.order && w'.sv == w.sv
    && w'.jobs[i].issued == w.jobs[i].issued && w'.jobs[i].event == w.jobs[i].event
    && forall k :: 0 <= k < |w.jobs| && k != i ==> w'.jobs[k] == w.jobs[k]
  }

  lemma QuietMoveKeeps(own: Owners, busy: set<Ip>, sv0: State, w: World, w': World, i: nat)
    requires Inv(own, busy, sv0, w) && Quiet(w, w', i)
    ensures LocalJobs(own, busy, w'.jobs)
    ensures forall p :: 0 <= p <= |w.order| ==>
              Sorted(sv0, w'.jobs, w'.order, p) == Sorted(sv0, w.jobs, w.order, p)
    ensures forall p :: 0 <= p < |w.order| && w.order[p] != i ==> ReadInOrder(own, busy, sv0, w', p)
  {
    hide OnCourse, Locked, Apart, Agree, Separate;
    forall p | 0 <= p <= |w.order|
      ensures Sorted(sv0, w'.jobs, w'.order, p) == Sorted(sv0, w.jobs, w.order, p)
    {
      SortedDependsOnIssued(sv0, w.jobs, w.order, w'.jobs, w'.order, p);
    }
    forall p | 0 <= p < |w.order| && w.order[p] != i
      ensures ReadInOrder(own, busy, sv0, w', p)
    {
      assert ReadInOrder(own, busy, sv0, w, p);
    }
  }

  lemma PositionOf(w: World, i: nat) returns (at: nat)
    requires Ordered(w) && i < |w.jobs| && w.jobs[i].Active()
    ensures at < |w.order| && w.order[at] == i
    ensures Indices(w.jobs, w.order, |w.order|)
    ensures forall q :: at < q < |w.order| ==> w.jobs[w.order[q]].Scope() != w.jobs[i].Scope()
  {
    at :| 0 <= at < |w.order| && w.order[at] == i;
  }

  lemma OneJobChanges(own: Owners, jobs: seq<Job>, jobs': seq<Job>, i: nat)
    requires i < |jobs| == |jobs'| && jobs' == jobs[i := jobs'[i]]
    requires forall k :: 0 <= k < |jobs| ==> OnCourse(own, jobs[k])
    requires OnCourse(own, jobs'[i])
    ensures forall k :: 0 <= k < |jobs'| ==> OnCourse(own, jobs'[k])
  {
    forall k | 0 <= k < |jobs'|
      ensures OnCourse(own, jobs'[k])
    {
      if k != i {
        assert jobs'[k] == jobs[k];
      }
    }
  }

  lemma AcquireKeeps(own: Owners, busy: set<Ip>, sv0: State, w: World, i: nat)
    requires Inv(own, busy, sv0, w) && Enabled(w, Acquire(i)) && Ordered(Next(w, Acquire(i)))
    ensures Inv(own, busy, sv0, Next(w, Acquire(i)))
  {
    hide Locked, Apart, Separate, LocalJobs, ServeReport, Ahead;
    var w' := Next(w, Acquire(i));
    var n := |w.order|;
    QuietMoveKeeps(own, busy, sv0, w, w', i);
    assert w'.order[n] == i && i !in w.order;
    assert Effects(w.sv, []) == w.sv;
    assert OnCourse(own, w.jobs[i]);
    OneJobChanges(own, w.jobs, w'.jobs, i);
    assert ReadInOrder(own, busy, sv0, w', n);
  }

  /** A job reads what the jobs before it in lock order leave in its footprint. */
  lemma ReadSeesInOrder(own: Owners, busy: set<Ip>, sv0: State, w: World, at: nat)
    requires Inv(own, busy, sv0, w) && at < |w.order| && w.jobs[w.order[at]].phase.Holding?
    ensures Separate(own, busy, w.sv)
    ensures Agree(own, w.jobs[w.order[at]].Scope(), w.sv, Sorted(sv0, w.jobs, w.order, at))
  {
    var t, n := w.jobs[w.order[at]], |w.order|;
    assert OnCourse(own, t);
    SortedIsSeparate(own, busy, sv0, w.jobs, w.order, n);
    ViewIsKept(own, busy, sv0, w.jobs, w.order, t.Scope(), at + 1, n);
    assert Effects(Sorted(sv0, w.jobs, w.order, at), []) == Sorted(sv0, w.jobs, w.order, at);
  }

  lemma ReadStartsCourse(own: Owners, busy: set<Ip>, t: Job, sv: State)
    requires t.phase.Holding? && OnCourse(own, t) && Separate(own, busy, sv)
    requires t.Scope() in busy && LocalRequest(own, t.event.req)
    ensures OnCourse(own, AfterRead(t, sv))
  {
    hide ProgramOf, Intent, ProgramReport, RunReport, AnswerReads;
    ProgramIsIntent(sv, t.event.req, t.event.ord, t.event.weather);
    if ProgramOf(sv, t.event.req, t.event.ord).Some? {
      ProgramIsLocal(own, busy, sv, t.event.req, t.event.ord);
    }
    var t' := AfterRead(t, sv);
    assert Effects(sv, []) == sv;
    assert t'.issued + Ahead(t').trace == Ahead(t').trace;
  }

  lemma ReadKeeps(own: Owners, busy: set<Ip>, sv0: State, w: World, i: nat)
    requires Inv(own, busy, sv0, w) && Enabled(w, Read(i)) && Ordered(Next(w, Read(i)))
    ensures Inv(own, busy, sv0, Next(w, Read(i)))
  {
    hide OnCourse, Locked, Apart;
    var w' := Next(w, Read(i));
    var at := PositionOf(w, i);
    ReadSeesInOrder(own, busy, sv0, w, at);
    ReadStartsCourse(own, busy, w.jobs[i], w.sv);
    OneJobChanges(own, w.jobs, w'.jobs, i);
    QuietMoveKeeps(own, busy, sv0, w, w', i);
    assert ReadInOrder(own, busy, sv0, w', at);
  }

  /** The job making a call sees, of its own footprint, what its own calls made of what it read. */
  lemma RunnerSeesItsOwn(own: Owners, busy: set<Ip>, sv0: State, w: World, at: nat)
    requires Inv(own, busy, sv0, w) && at < |w.order| && w.jobs[w.order[at]].phase.Running?
    ensures var t := w.jobs[w.order[at]];
            var mine := Effects(t.seen, t.issued);
            Separate(own, busy, w.sv) && Separate(own, busy, mine) && Agree(own, t.Scope(), mine, w.sv)
  {
    hide OnCourse, Locked;
    var t, n := w.jobs[w.order[at]], |w.order|;
    assert ReadInOrder(own, busy, sv0, w, at);
    var before := Sorted(sv0, w.jobs, w.order, at);
    SortedIsSeparate(own, busy, sv0, w.jobs, w.order, at);
    SortedIsSeparate(own, busy, sv0, w.jobs, w.order, n);
    EffectsStayInside(own, busy, t.Scope(), t.seen, t.issued);
    EffectsAreDetermined(own, busy, t.Scope(), t.seen, before, t.issued);
    ViewIsKept(own, busy, sv0, w.jobs, w.order, t.Scope(), at + 1, n);
    AgreeIsTransitive(own, t.Scope(), Effects(t.seen, t.issued), Effects(before, t.issued), w.sv);
  }

  lemma AskStaysOnCourse(own: Owners, t: Job, sv: State)
    requires t.phase.Running? && t.phase.rest == [] && t.phase.later != [] && OnCourse(own, t)
    requires Agree(own, t.Scope(), Effects(t.seen, t.issued), sv)
    ensures OnCourse(own, AfterAsk(t, sv))
  {
    hide ServeReport, Effects, Agree, Answer, LocalQuery;
    AnswerIsDetermined(own, t.Scope(), Effects(t.seen, t.issued), sv, t.phase.later[0]);
    assert Ahead(AfterAsk(t, sv)) == Ahead(t);
  }

  /** A query in the middle of a request sees what its request alone would have made. */
  lemma AskKeeps(own: Owners, busy: set<Ip>, sv0: State, w: World, i: nat)
    requires Inv(own, busy, sv0, w) && Enabled(w, Ask(i)) && Ordered(Next(w, Ask(i)))
    ensures Inv(own, busy, sv0, Next(w, Ask(i)))
  {
    hide OnCourse, Locked, Apart, Agree, Separate, Answer;
    var w' := Next(w, Ask(i));
    var at := PositionOf(w, i);
    QuietMoveKeeps(own, busy, sv0, w, w', i);
    RunnerSeesItsOwn(own, busy, sv0, w, at);
    AskStaysOnCourse(own, w.jobs[i], w.sv);
    OneJobChanges(own, w.jobs, w'.jobs, i);
    assert ReadInOrder(own, busy, sv0, w, at);
    assert ReadInOrder(own, busy, sv0, w', at);
  }

  lemma ReleaseEndsCourse(own: Owners, busy: set<Ip>, t: Job, sv: State)
    requires t.phase.Running? && t.phase.rest == [] && t.phase.later == [] && OnCourse(own, t)
    requires Separate(own, busy, sv) && Separate(own, busy, Effects(t.seen, t.issued)) && t.Scope() in busy
    requires Agree(own, t.Scope(), Effects(t.seen, t.issued), sv)
    ensures OnCourse(own, AfterRelease(t, sv))
  {
    hide ServeReport, Effects, Agree, Separate;
    ReadIsDetermined(own, busy, t.Scope(), Effects(t.seen, t.issued), sv);
    assert t.issued + [] == t.issued;
  }

  lemma ReleaseKeeps(own: Owners, busy: set<Ip>, sv0: State, w: World, i: nat)
    requires Inv(own, busy, sv0, w) && Enabled(w, Release(i)) && Ordered(Next(w, Release(i)))
    ensures Inv(own, busy, sv0, Next(w, Release(i)))
  {
    hide OnCourse, Locked, Apart, Agree, Separate, AnswerReads;
    var w' := Next(w, Release(i));
    var at := PositionOf(w, i);
    QuietMoveKeeps(own, busy, sv0, w, w', i);
    RunnerSeesItsOwn(own, busy, sv0, w, at);
    ReleaseEndsCourse(own, busy, w.jobs[i], w.sv);
    OneJobChanges(own, w.jobs, w'.jobs, i);
    assert ReadInOrder(own, busy, sv0, w, at);
    assert ReadInOrder(own, busy, sv0, w', at);
  }

  lemma AheadAdvances(t: Job, sv: State)
    requires t.phase.Running? && t.phase.rest != [] && t.phase.ok
    requires var x := NextCall(t);
             Attempt(sv, x.step, x.weather).ok == Attempt(Effects(t.seen, t.issued), x.step, x.weather).ok
    ensures Ahead(t) == Report([NextCall(t)] + Ahead(AfterCall(t, sv)).trace, Ahead(AfterCall(t, sv)).ok)
  {
    var x, t' := NextCall(t), AfterCall(t, sv);
    EffectsConcat(t.seen, t.issued, [x]);
    assert [x][1..] == [];
    assert Effects(t'.seen, t'.issued) == Outcome(Effects(t.seen, t.issued), x);
  }

  lemma CallStaysOnCourse(own: Owners, t: Job, sv: State)
    requires t.phase.Running? && t.phase.rest != [] && OnCourse(own, t)
    requires var x := NextCall(t);
             Attempt(sv, x.step, x.weather).ok == Attempt(Effects(t.seen, t.issued), x.step, x.weather).ok
    ensures OnCourse(own, AfterCall(t, sv))
  {
    hide ServeReport, Settled, Ahead, Effects, Attempt;
    var x, t' := NextCall(t), AfterCall(t, sv);
    AheadAdvances(t, sv);
    assert t.issued + ([x] + Ahead(t').trace) == t'.issued + Ahead(t').trace;
  }

  lemma StillLocal(own: Owners, busy: set<Ip>, jobs: seq<Job>, jobs': seq<Job>, i: nat)
    requires LocalJobs(own, busy, jobs)
    requires i < |jobs| == |jobs'| && jobs' == jobs[i := jobs'[i]] && jobs'[i].event == jobs[i].event
    requires LocalTrace(own, jobs[i].Scope(), jobs'[i].issued)
    ensures LocalJobs(own, busy, jobs')
  {
  }

  lemma RunnerStaysOnCourse(own: Owners, busy: set<Ip>, sv0: State, w: World, at: nat)
    requires Inv(own, busy, sv0, w) && at < |w.order| && Enabled(w, Call(w.order[at]))
    ensures OnCourse(own, AfterCall(w.jobs[w.order[at]], w.sv))
    ensures Local(own, w.jobs[w.order[at]].Scope(), NextCall(w.jobs[w.order[at]]).step.cmd)
    ensures LocalTrace(own, w.jobs[w.order[at]].Scope(), AfterCall(w.jobs[w.order[at]], w.sv).issued)
  {
    var t := w.jobs[w.order[at]];
    assert OnCourse(own, t);
    RunnerSeesItsOwn(own, busy, sv0, w, at);
    OutcomeIsDetermined(own, busy, t.Scope(), Effects(t.seen, t.issued), w.sv, NextCall(t));
    CallStaysOnCourse(own, t, w.sv);
  }

  lemma CallLeavesLaterViews(own: Owners, busy: set<Ip>, sv0: State, w: World, jobs': seq<Job>,
                             at: nat, p: nat, x: Issued)
    requires Inv(own, busy, sv0, w) && at < p < |w.order| && w.jobs[w.order[at]].Active()
    requires |jobs'| == |w.jobs| && jobs' == w.jobs[w.order[at] := jobs'[w.order[at]]]
    requires jobs'[w.order[at]].issued == w.jobs[w.order[at]].issued + [x]
    requires Local(own, w.jobs[w.order[at]].Scope(), x.step.cmd)
    ensures var s := w.jobs[w.order[p]].Scope();
            Agree(own, s, Sorted(sv0, w.jobs, w.order, p), Sorted(sv0, jobs', w.order, p))
  {
    var s, r := w.jobs[w.order[p]].Scope(), w.jobs[w.order[at]].Scope();
    var before := Sorted(sv0, w.jobs, w.order, p);
    CallSortsIn(own, busy, sv0, w.jobs, jobs', w.order, at, x, p);
    OutcomeIsEffect(before, x);
    LocalEffectStaysInside(own, r, before, x.step.cmd);
    OutsideMeansAgree(own, r, s, before, Outcome(before, x));
  }

  lemma CallKeepsReads(own: Owners, busy: set<Ip>, sv0: State, w: World, at: nat, p: nat)
    requires Inv(own, busy, sv0, w) && at < |w.order| && p < |w.order|
    requires Enabled(w, Call(w.order[at])) && Listed(Next(w, Call(w.order[at])))
    requires Local(own, w.jobs[w.order[at]].Scope(), NextCall(w.jobs[w.order[at]]).step.cmd)
    ensures ReadInOrder(own, busy, sv0, Next(w, Call(w.order[at])), p)
  {
    hide OnCourse, Locked, Attempt, Local;
    var w' := Next(w, Call(w.order[at]));
    var t := w.jobs[w.order[p]];
    assert ReadInOrder(own, busy, sv0, w, p);
    assert w'.jobs[w.order[p]].seen == t.seen && w'.jobs[w.order[p]].event == t.event;
    if p <= at {
      SortedDependsOnIssued(sv0, w.jobs, w.order, w'.jobs, w'.order, p);
    } else {
      CallLeavesLaterViews(own, busy, sv0, w, w'.jobs, at, p, NextCall(w.jobs[w.order[at]]));
      if t.phase.Running? || t.phase.Finished? {
        AgreeIsTransitive(own, t.Scope(), t.seen, Sorted(sv0, w.jobs, w.order, p), Sorted(sv0, w'.jobs, w.order, p));
      }
    }
  }

  lemma CallKeeps(own: Owners, busy: set<Ip>, sv0: State, w: World, i: nat)
    requires Inv(own, busy, sv0, w) && Enabled(w, Call(i)) && Ordered(Next(w, Call(i)))
    ensures Inv(own, busy, sv0, Next(w, Call(i)))
  {
    hide OnCourse, ReadInOrder, Locked, Apart, LocalJobs, LocalTrace, Local, Attempt;
    var w', t := Next(w, Call(i)), w.jobs[i];
    var n := |w.order|;
    var at := PositionOf(w, i);
    RunnerStaysOnCourse(own, busy, sv0, w, at);
    OneJobChanges(own, w.jobs, w'.jobs, i);
    CallSortsIn(own, busy, sv0, w.jobs, w'.jobs, w.order, at, NextCall(t), n);
    StillLocal(own, busy, w.jobs, w'.jobs, i);
    forall p | 0 <= p < n
      ensures ReadInOrder(own, busy, sv0, w', p)
    {
      CallKeepsReads(own, busy, sv0, w, at, p);
    }
  }

  lemma MoveKeeps(own: Owners, busy: set<Ip>, sv0: State, w: World, m: Move)
    requires Inv(own, busy, sv0, w) && Enabled(w, m)
    ensures Inv(own, busy, sv0, Next(w, m))
  {
    MoveKeepsListed(w, m);
    MoveKeepsLocked(w, m);
    MoveKeepsApart(w, m);
    match m
    case Acquire(i) => AcquireKeeps(own, busy, sv0, w, i);
    case Read(i) => ReadKeeps(own, busy, sv0, w, i);
    case Call(i) => CallKeeps(own, busy, sv0, w, i);
    case Ask(i) => AskKeeps(own, busy, sv0, w, i);
    case Release(i) => ReleaseKeeps(own, busy, sv0, w, i);
  }

  /* ---- Schedules ---- */

  ghost predicate Legal(w: World, moves: seq<Move>)
    decreases |moves|
  {
    moves == [] || (Enabled(w, moves[0]) && Legal(Next(w, moves[0]), moves[1..]))
  }

  ghost function Perform(w: World, moves: seq<Move>): World
    requires Legal(w, moves)
    decreases |moves|
  {
    if moves == [] then w else Perform(Next(w, moves[0]), moves[1..])
  }

  /** A set of requests about to start on a server. */
  ghost function Start(sv: State, events: seq<Event>): World {
    World(sv, seq(|events|, i requires 0 <= i < |events| => Job(events[i], Waiting, sv, [])), map[], [])
  }

  ghost function Scopes(events: seq<Event>): set<Ip> {
    set i | 0 <= i < |events| :: Target(events[i].req)
  }

  /** POST, PUT and DELETE take the lock; GET does not, and may see a scope half written. Requests
      on one scope may name its relationships; requests on different scopes share none. */
  ghost predicate NoSharedNames(own: Owners, sv: State, events: seq<Event>) {
    && Separate(own, Scopes(events), sv)
    && forall i :: 0 <= i < |events| ==> !events[i].req.Get? && LocalRequest(own, events[i].req)
  }

  lemma StartInv(own: Owners, sv: State, events: seq<Event>)
    requires NoSharedNames(own, sv, events)
    ensures Inv(own, Scopes(events), sv, Start(sv, events))
  {
  }

  lemma {:induction false} PerformKeeps(own: Owners, busy: set<Ip>, sv0: State, w: World, moves: seq<Move>)
    requires Inv(own, busy, sv0, w) && Legal(w, moves)
    ensures Inv(own, busy, sv0, Perform(w, moves))
    ensures |Perform(w, moves).jobs| == |w.jobs|
    ensures forall i :: 0 <= i < |w.jobs| ==> Perform(w, moves).jobs[i].event == w.jobs[i].event
    decreases |moves|
  {
    hide Inv;
    if moves != [] {
      MoveKeeps(own, busy, sv0, w, moves[0]);
      PerformKeeps(own, busy, sv0, Next(w, moves[0]), moves[1..]);
    }
  }

  /** The events of a world's jobs in lock order. */
  ghost function InLockOrder(w: World, n: nat): seq<Event>
    requires Indices(w.jobs, w.order, n)
  {
    seq(n, p requires 0 <= p < n => w.jobs[w.order[p]].event)
  }

  lemma {:induction false} ReplayConcat(sv: State, a: seq<Event>, b: seq<Event>)
    ensures Replay(sv, a + b) == Replay(Replay(sv, a), b)
    decreases |a|
  {
    if a == [] {
      assert a + b == b;
    } else {
      assert (a + b)[0] == a[0] && (a + b)[1..] == a[1..] + b;
      ReplayConcat(Serve(sv, a[0].req, a[0].ord, a[0].weather).sv, a[1..], b);
    }
  }

  /** The job at p answers what its request answers when served alone after those before it. */
  ghost predicate AnswersAsServed(sv0: State, w: World, p: nat)
    requires Indices(w.jobs, w.order, |w.order|) && p < |w.order| && w.jobs[w.order[p]].phase.Finished?
  {
    var e := w.jobs[w.order[p]].event;
    w.jobs[w.order[p]].phase.ok == Serve(Replay(sv0, InLockOrder(w, p)), e.req, e.ord, e.weather).ok
  }

  lemma FinishedIsServed(own: Owners, busy: set<Ip>, sv0: State, w: World, p: nat)
    requires Inv(own, busy, sv0, w) && p < |w.order| && w.jobs[w.order[p]].phase.Finished?
    ensures var t, before := w.jobs[w.order[p]], Sorted(sv0, w.jobs, w.order, p);
            Serve(before, t.event.req, t.event.ord, t.event.weather) == Ending(Effects(before, t.issued), t.phase.ok)
  {
    var t, before := w.jobs[w.order[p]], Sorted(sv0, w.jobs, w.order, p);
    assert ReadInOrder(own, busy, sv0, w, p) && OnCourse(own, t);
    SortedIsSeparate(own, busy, sv0, w.jobs, w.order, p);
    ServeReportIsDetermined(own, busy, t.seen, before, t.event);
    ServeReportIsServe(before, t.event);
  }

  lemma ReplayOneMore(sv0: State, w: World, n: nat)
    requires Indices(w.jobs, w.order, |w.order|) && n < |w.order|
    ensures var e, before := w.jobs[w.order[n]].event, Replay(sv0, InLockOrder(w, n));
            Replay(sv0, InLockOrder(w, n + 1)) == Serve(before, e.req, e.ord, e.weather).sv
  {
    var e := w.jobs[w.order[n]].event;
    assert InLockOrder(w, n + 1) == InLockOrder(w, n) + [e];
    ReplayConcat(sv0, InLockOrder(w, n), [e]);
    assert [e][1..] == [];
  }

  /** The first n jobs in lock order, if finished, left what serving them one by one leaves. */
  lemma {:induction false} SortedIsSerial(own: Owners, busy: set<Ip>, sv0: State, w: World, n: nat)
    requires Inv(own, busy, sv0, w) && n <= |w.order|
    requires forall p :: 0 <= p < n ==> w.jobs[w.order[p]].phase.Finished?
    ensures Sorted(sv0, w.jobs, w.order, n) == Replay(sv0, InLockOrder(w, n))
    ensures forall p :: 0 <= p < n ==> AnswersAsServed(sv0, w, p)
  {
    hide OnCourse, ReadInOrder, Serve, Effects, Locked, Apart, Separate, LocalJobs;
    if n > 0 {
      SortedIsSerial(own, busy, sv0, w, n - 1);
      FinishedIsServed(own, busy, sv0, w, n - 1);
      ReplayOneMore(sv0, w, n - 1);
      assert AnswersAsServed(sv0, w, n - 1);
    }
  }

  /* ---- Results ---- */

  ghost predicate AllFinished(w: World) {
    forall i :: 0 <= i < |w.jobs| ==> w.jobs[i].phase.Finished?
  }

  /** Serializability. Whatever the interleaving and the faults, once every request that took its
      lock has finished, the server is in the state that serving them one after another in lock
      order leaves, and each request got the answer it gets there. */
  lemma Serializable(own: Owners, sv: State, events: seq<Event>, moves: seq<Move>)
    requires NoSharedNames(own, sv, events) && Legal(Start(sv, events), moves)
    requires var w := Perform(Start(sv, events), moves);
             forall i :: 0 <= i < |w.jobs| ==> !w.jobs[i].Active()
    ensures var w := Perform(Start(sv, events), moves);
            && Listed(w)
            && w.sv == Replay(sv, InLockOrder(w, |w.order|))
            && forall p :: 0 <= p < |w.order| ==> w.jobs[w.order[p]].phase.Finished? && AnswersAsServed(sv, w, p)
  {
    var w := Perform(Start(sv, events), moves);
    StartInv(own, sv, events);
    PerformKeeps(own, Scopes(events), sv, Start(sv, events), moves);
    forall p | 0 <= p < |w.order|
      ensures w.jobs[w.order[p]].phase.Finished?
    {
      assert w.order[p] in w.order;
    }
    SortedIsSerial(own, Scopes(events), sv, w, |w.order|);
  }

  /** No two requests are in the critical section of one scope. */
  lemma MutualExclusion(own: Owners, sv: State, events: seq<Event>, moves: seq<Move>, i: nat, j: nat)
    requires NoSharedNames(own, sv, events) && Legal(Start(sv, events), moves)
    requires i < |Perform(Start(sv, events), moves).jobs| && j < |Perform(Start(sv, events), moves).jobs|
    requires var w := Perform(Start(sv, events), moves);
             w.jobs[i].Active() && w.jobs[j].Active() && w.jobs[i].Scope() == w.jobs[j].Scope()
    ensures i == j
  {
    StartInv(own, sv, events);
    PerformKeeps(own, Scopes(events), sv, Start(sv, events), moves);
  }

  /** No deadlock: some job can move unless all have finished. */
  lemma SomeMoveIsEnabled(w: World) returns (m: Move)
    requires Locked(w) && !AllFinished(w)
    ensures Enabled(w, m)
  {
    var i :| 0 <= i < |w.jobs| && !w.jobs[i].phase.Finished?;
    var k := if w.jobs[i].phase.Waiting? && w.jobs[i].Scope() in w.locks then w.locks[w.jobs[i].Scope()] else i;
    m := if w.jobs[k].phase.Waiting? then Acquire(k)
         else if w.jobs[k].phase.Holding? then Read(k)
         else if w.jobs[k].phase.rest != [] then Call(k)
         else if w.jobs[k].phase.later != [] then Ask(k)
         else Release(k);
  }

  function Rank(t: Job): nat {
    match t.phase
    case Waiting => 3
    case Holding => 2
    case Running(_, _, _, _) => 1
    case Finished(_) => 0
  }

  function Questions(t: Job): nat {
    if t.phase.Running? then |t.phase.later| else 0
  }

  function Left(t: Job): nat {
    if t.phase.Running? then |t.phase.rest| else 0
  }

  ghost function Sum(jobs: seq<Job>, f: Job -> nat): nat {
    if jobs == [] then 0 else f(jobs[0]) + Sum(jobs[1..], f)
  }

  lemma {:induction false} SumUpdate(jobs: seq<Job>, i: nat, t: Job, f: Job -> nat)
    requires i < |jobs|
    ensures Sum(jobs[i := t], f) == Sum(jobs, f) - f(jobs[i]) + f(t)
  {
    if i == 0 {
      assert jobs[i := t][1..] == jobs[1..];
    } else {
      assert jobs[i := t][1..] == jobs[1..][i - 1 := t];
      SumUpdate(jobs[1..], i - 1, t, f);
    }
  }

  /** No schedule goes on for ever: every move lowers this triple. */
  lemma MoveDescends(w: World, m: Move)
    requires Enabled(w, m)
    ensures var w' := Next(w, m);
            || Sum(w'.jobs, Rank) < Sum(w.jobs, Rank)
            || (Sum(w'.jobs, Rank) == Sum(w.jobs, Rank) && Sum(w'.jobs, Questions) < Sum(w.jobs, Questions))
            || (Sum(w'.jobs, Rank) == Sum(w.jobs, Rank) && Sum(w'.jobs, Questions) == Sum(w.jobs, Questions)
                && Sum(w'.jobs, Left) < Sum(w.jobs, Left))
  {
    SumUpdate(w.jobs, m.i, Next(w, m).jobs[m.i], Rank);
    SumUpdate(w.jobs, m.i, Next(w, m).jobs[m.i], Questions);
    SumUpdate(w.jobs, m.i, Next(w, m).jobs[m.i], Left);
  }

  /** Every legal schedule extends to one that finishes every request. */
  lemma {:induction false} EveryRequestFinishes(own: Owners, busy: set<Ip>, sv0: State, w: World)
    returns (moves: seq<Move>)
    requires Inv(own, busy, sv0, w)
    ensures Legal(w, moves) && AllFinished(Perform(w, moves))
    decreases Sum(w.jobs, Rank), Sum(w.jobs, Questions), Sum(w.jobs, Left)
  {
    if AllFinished(w) {
      moves := [];
    } else {
      var m := SomeMoveIsEnabled(w);
      MoveKeeps(own, busy, sv0, w, m);
      MoveDescends(w, m);
      var rest := EveryRequestFinishes(own, busy, sv0, Next(w, m));
      moves := [m] + rest;
      assert moves[1..] == rest;
    }
  }

  /** No schedule can get stuck: whatever has happened, every request can still run to its end. */
  lemma NoDeadlock(own: Owners, sv: State, events: seq<Event>, moves: seq<Move>) returns (rest: seq<Move>)
    requires NoSharedNames(own, sv, events) && Legal(Start(sv, events), moves)
    ensures Legal(Perform(Start(sv, events), moves), rest)
    ensures AllFinished(Perform(Perform(Start(sv, events), moves), rest))
  {
    StartInv(own, sv, events);
    PerformKeeps(own, Scopes(events), sv, Start(sv, events), moves);
    rest := EveryRequestFinishes(own, Scopes(events), sv, Perform(Start(sv, events), moves));
  }
}
