/** Commands and environment probes interleaving on the session pool. One move is a stretch of code
    between two awaits. */
module PoolConcurrency {
  import opened Common
  import opened RunspacePool
  import opened EnvironmentCheck

  datatype Config = Config(maxConcurrency: nat, maxIdle: int, negativeTtl: int)

  predicate ValidConfig(cfg: Config) {
    cfg.maxConcurrency >= 1
  }

  /** Where one `execute` is: its script runs on a session from the pool (parked at `usedAt`,
      checked out at `takenAt`) or on a fresh one, that session has raised and is being closed, or
      it waits for a session to open. */
  datatype Exec =
    | OnPooled(session: nat, usedAt: int, takenAt: int)
    | OnFresh(session: nat)
    | FailingPooled(session: nat, usedAt: int, takenAt: int)
    | FailingFresh(session: nat)
    | Opening

  datatype Outcome = Pending | Answered | TimedOut | Raised

  /** One time the script was sent to a session. */
  datatype Attempt = Attempt(session: nat, pooled: bool, outcome: Outcome)

  datatype Reply = Result | EnvironmentError | Timeout | TransportError

  /** A call of `run_ps`: it checks the environment (perhaps probing it), waits for a permit, and
      executes. */
  datatype Stage =
    | Checking
    | Probing(exec: Exec)
    | Ready
    | Running(exec: Exec)
    | Done(reply: Reply)

  datatype Call = Call(stage: Stage, tries: seq<Attempt>)

  /** `closed` are the sessions handed to close; those ever opened are the numbers below `count`. */
  datatype Pool = Pool(idle: seq<Parked>, closed: multiset<nat>, count: nat)

  datatype World = World(now: int, pool: Pool, cache: Cache, calls: seq<Call>)

  /* ---- One execute ---- */

  datatype End = Answer(success: bool) | TimeUp | Broken | NoSession

  datatype Progress = More(exec: Exec) | Over(end: End)

  datatype Happening = Returns(success: bool) | TimesOut | Raises | Closed | Opens | FailsToOpen

  datatype Stretch = Stretch(pool: Pool, tries: seq<Attempt>, progress: Progress)

  predicate InUse(e: Exec) { e.OnPooled? || e.OnFresh? }

  predicate Possible(e: Exec, h: Happening) {
    match h
    case Returns(_) => InUse(e)
    case TimesOut => InUse(e)
    case Raises => InUse(e)
    case Closed => e.FailingPooled? || e.FailingFresh?
    case Opens => e.Opening?
    case FailsToOpen => e.Opening?
  }

  /** The first stretch of `execute`: up to the first await. */
  function Begin(p: Pool, now: int, maxIdle: int): Stretch {
    var c := Checkout(p.idle, now, maxIdle);
    var p' := p.(idle := c.idle, closed := p.closed + c.dropped);
    match c.found
    case Some(top) =>
      Stretch(p', [Attempt(top.session, true, Pending)], More(OnPooled(top.session, top.time, now)))
    case None => Stretch(p', [], More(Opening))
  }

  function Mark(tries: seq<Attempt>, o: Outcome): seq<Attempt> {
    if tries == [] then [] else tries[|tries| - 1 := tries[|tries| - 1].(outcome := o)]
  }

  /** What `execute` does when something it awaits happens. */
  function Continue(p: Pool, tries: seq<Attempt>, e: Exec, h: Happening, now: int): Stretch
    requires Possible(e, h)
  {
    match h
    case Returns(success) =>
      Stretch(p.(idle := p.idle + [Parked(now, e.session)]), Mark(tries, Answered), Over(Answer(success)))
    case TimesOut => Stretch(p.(closed := p.closed + multiset{e.session}), Mark(tries, TimedOut), Over(TimeUp))
    case Raises =>
      Stretch(p, Mark(tries, Raised),
              More(if e.OnPooled? then FailingPooled(e.session, e.usedAt, e.takenAt) else FailingFresh(e.session)))
    case Closed =>
      if e.FailingPooled? then
        Stretch(p.(idle := [], closed := p.closed + multiset{e.session} + Bag(p.idle)), tries, More(Opening))
      else Stretch(p.(closed := p.closed + multiset{e.session}), tries, Over(Broken))
    case Opens =>
      Stretch(p.(count := p.count + 1), tries + [Attempt(p.count, false, Pending)], More(OnFresh(p.count)))
    case FailsToOpen => Stretch(p, tries, Over(NoSession))
  }

  /* ---- Calls ---- */

  function ReplyOf(end: End): Reply {
    match end
    case Answer(_) => Result
    case TimeUp => Timeout
    case Broken => TransportError
    case NoSession => EnvironmentError
  }

  function ProbeEndOf(end: End): ProbeEnd {
    match end
    case Answer(success) => if success then Usable else Unusable
    case TimeUp => Unusable
    case NoSession => Unusable
    case Broken => ProbeEnd.Broke
  }

  predicate Executing(s: Stage) { s.Probing? || s.Running? }

  function Count(calls: seq<Call>, f: Stage -> bool): nat {
    if calls == [] then 0 else (if f(calls[0].stage) then 1 else 0) + Count(calls[1..], f)
  }

  predicate IsRunning(s: Stage) { s.Running? }

  datatype Move = Tick | Arrive | Check(i: nat) | Admit(i: nat) | Happen(i: nat, h: Happening)

  /** A probe holds the cache lock; a running command holds one of the semaphore's permits. */
  predicate Enabled(cfg: Config, w: World, m: Move) {
    match m
    case Tick => true
    case Arrive => true
    case Check(i) =>
      i < |w.calls| && w.calls[i].stage.Checking? && forall k :: 0 <= k < |w.calls| ==> !w.calls[k].stage.Probing?
    case Admit(i) =>
      i < |w.calls| && w.calls[i].stage.Ready? && Count(w.calls, IsRunning) < cfg.maxConcurrency
    case Happen(i, h) =>
      i < |w.calls| && Executing(w.calls[i].stage) && Possible(w.calls[i].stage.exec, h)
  }

  function AfterCheck(cfg: Config, w: World, i: nat): World
    requires i < |w.calls|
  {
    var c := w.calls[i];
    match Consult(w.cache, w.now)
    case Pass => w.(calls := w.calls[i := c.(stage := Ready)])
    case Refuse => w.(calls := w.calls[i := c.(stage := Done(EnvironmentError))])
    case Probe =>
      var st := Begin(w.pool, w.now, cfg.maxIdle);
      w.(cache := AfterConsult(w.cache, w.now), pool := st.pool,
         calls := w.calls[i := Call(Probing(st.progress.exec), st.tries)])
  }

  function AfterProbing(cfg: Config, w: World, i: nat, st: Stretch): World
    requires i < |w.calls|
  {
    match st.progress
    case More(e) => w.(pool := st.pool, calls := w.calls[i := Call(Probing(e), st.tries)])
    case Over(end) =>
      var verdict := ProbeEndOf(end);
      var stage := match verdict
                   case Usable => Ready
                   case Unusable => Done(EnvironmentError)
                   case Broke => Done(TransportError);
      w.(pool := st.pool, cache := AfterProbe(verdict, w.now, cfg.negativeTtl),
         calls := w.calls[i := Call(stage, st.tries)])
  }

  function AfterRunning(w: World, i: nat, st: Stretch): World
    requires i < |w.calls|
  {
    var stage := match st.progress case More(e) => Running(e) case Over(end) => Done(ReplyOf(end));
    w.(pool := st.pool, calls := w.calls[i := Call(stage, st.tries)])
  }

  function Next(cfg: Config, w: World, m: Move): World
    requires Enabled(cfg, w, m)
  {
    match m
    case Tick => w.(now := w.now + 1)
    case Arrive => w.(calls := w.calls + [Call(Checking, [])])
    case Check(i) => AfterCheck(cfg, w, i)
    case Admit(i) => AfterRunning(w, i, Begin(w.pool, w.now, cfg.maxIdle))
    case Happen(i, h) =>
      var c := w.calls[i];
      var st := Continue(w.pool, c.tries, c.stage.exec, h, w.now);
      if c.stage.Probing? then AfterProbing(cfg, w, i, st) else AfterRunning(w, i, st)
  }

  function Start(): World {
    World(0, Pool([], multiset{}, 0), Unset, [])
  }

  lemma {:induction false} CountUpdate(calls: seq<Call>, i: nat, c: Call, f: Stage -> bool)
    requires i < |calls|
    ensures Count(calls[i := c], f) + (if f(calls[i].stage) then 1 else 0) ==
              Count(calls, f) + (if f(c.stage) then 1 else 0)
  {
    if i == 0 {
      assert calls[i := c][1..] == calls[1..];
    } else {
      assert calls[i := c][1..] == calls[1..][i - 1 := c];
      CountUpdate(calls[1..], i - 1, c, f);
    }
  }

  lemma {:induction false} CountNew(calls: seq<Call>, f: Stage -> bool)
    requires !f(Checking)
    ensures Count(calls + [Call(Checking, [])], f) == Count(calls, f)
  {
    if calls == [] {
      assert [Call(Checking, [])][1..] == [];
    } else {
      assert (calls + [Call(Checking, [])])[1..] == calls[1..] + [Call(Checking, [])];
      CountNew(calls[1..], f);
    }
  }

  lemma {:induction false} CountSame(calls: seq<Call>, f: Stage -> bool, g: Stage -> bool)
    requires forall i :: 0 <= i < |calls| ==> f(calls[i].stage) == g(calls[i].stage)
    ensures Count(calls, f) == Count(calls, g)
  {
    if calls != [] {
      assert f(calls[0].stage) == g(calls[0].stage);
      CountSame(calls[1..], f, g);
    }
  }

  lemma {:induction false} CountNone(calls: seq<Call>, f: Stage -> bool)
    requires forall i :: 0 <= i < |calls| ==> !f(calls[i].stage)
    ensures Count(calls, f) == 0
  {
    if calls != [] {
      assert !f(calls[0].stage);
      CountNone(calls[1..], f);
    }
  }

  /* ---- Ownership ---- */

  predicate Holds(s: Stage, x: nat) { Executing(s) && !s.exec.Opening? && s.exec.session == x }

  /** How many calls hold session x. */
  function Holders(calls: seq<Call>, x: nat): nat {
    Count(calls, s => Holds(s, x))
  }

  function One(b: bool): nat { if b then 1 else 0 }

  /** A session that was ever opened is accounted for once: idle, held, or handed to close. */
  ghost predicate OwnedOnce(w: World, x: nat) {
    Bag(w.pool.idle)[x] + w.pool.closed[x] + Holders(w.calls, x) == One(x < w.pool.count)
  }

  ghost predicate Owned(w: World) {
    forall x: nat :: OwnedOnce(w, x)
  }

  predicate HeldAfter(p: Progress, x: nat) {
    p.More? && !p.exec.Opening? && p.exec.session == x
  }

  lemma {:induction false} CheckoutConserves(idle: seq<Parked>, now: int, maxIdle: int, x: nat)
    ensures var c := Checkout(idle, now, maxIdle);
            Bag(c.idle)[x] + c.dropped[x] + One(c.found.Some? && c.found.value.session == x) == Bag(idle)[x]
    decreases |idle|
  {
    if idle != [] && Expired(idle[|idle| - 1], now, maxIdle) {
      CheckoutConserves(idle[..|idle| - 1], now, maxIdle, x);
    }
  }

  lemma BeginConserves(p: Pool, now: int, maxIdle: int, x: nat)
    ensures var st := Begin(p, now, maxIdle);
            && st.pool.count == p.count && st.progress.More?
            && Bag(st.pool.idle)[x] + st.pool.closed[x] + One(HeldAfter(st.progress, x)) == Bag(p.idle)[x] + p.closed[x]
  {
    CheckoutConserves(p.idle, now, maxIdle, x);
  }

  lemma BagOfParked(idle: seq<Parked>, p: Parked, x: nat)
    ensures Bag(idle + [p])[x] == Bag(idle)[x] + One(p.session == x)
  {
    assert (idle + [p])[..|idle|] == idle;
  }

  lemma ContinueConserves(p: Pool, tries: seq<Attempt>, e: Exec, h: Happening, now: int, x: nat)
    requires Possible(e, h)
    ensures var st := Continue(p, tries, e, h, now);
            Bag(st.pool.idle)[x] + st.pool.closed[x] + One(HeldAfter(st.progress, x)) + One(x < p.count) ==
              Bag(p.idle)[x] + p.closed[x] + One(HeldAfter(More(e), x)) + One(x < st.pool.count)
  {
    match h
    case Returns(_) => BagOfParked(p.idle, Parked(now, e.session), x);
    case Closed =>
      if e.FailingPooled? {
        assert (p.closed + multiset{e.session} + Bag(p.idle))[x] == p.closed[x] + One(e.session == x) + Bag(p.idle)[x];
      }
    case _ =>
  }

  /** A call that changes hands with the pool keeps the account of x straight. */
  lemma CallKeepsOwned(w: World, w': World, i: nat, x: nat)
    requires i < |w.calls| == |w'.calls| && w'.calls == w.calls[i := w'.calls[i]] && OwnedOnce(w, x)
    requires Bag(w'.pool.idle)[x] + w'.pool.closed[x] + One(Holds(w'.calls[i].stage, x)) + One(x < w.pool.count) ==
               Bag(w.pool.idle)[x] + w.pool.closed[x] + One(Holds(w.calls[i].stage, x)) + One(x < w'.pool.count)
    ensures OwnedOnce(w', x)
  {
    CountUpdate(w.calls, i, w'.calls[i], s => Holds(s, x));
  }

  lemma MoveKeepsOwnedOnce(cfg: Config, w: World, m: Move, x: nat)
    requires OwnedOnce(w, x) && Enabled(cfg, w, m)
    ensures OwnedOnce(Next(cfg, w, m), x)
  {
    hide Begin, Continue, Bag;
    match m
    case Tick =>
    case Arrive => CountNew(w.calls, s => Holds(s, x));
    case Check(i) =>
      BeginConserves(w.pool, w.now, cfg.maxIdle, x);
      CallKeepsOwned(w, Next(cfg, w, m), i, x);
    case Admit(i) =>
      BeginConserves(w.pool, w.now, cfg.maxIdle, x);
      CallKeepsOwned(w, Next(cfg, w, m), i, x);
    case Happen(i, h) =>
      ContinueConserves(w.pool, w.calls[i].tries, w.calls[i].stage.exec, h, w.now, x);
      CallKeepsOwned(w, Next(cfg, w, m), i, x);
  }

  lemma MoveKeepsOwned(cfg: Config, w: World, m: Move)
    requires Owned(w) && Enabled(cfg, w, m)
    ensures Owned(Next(cfg, w, m))
  {
    forall x: nat
      ensures OwnedOnce(Next(cfg, w, m), x)
    {
      assert OwnedOnce(w, x);
      MoveKeepsOwnedOnce(cfg, w, m, x);
    }
  }

  /* ---- Time ---- */

  /** A pooled session was fresh when it was taken, and what is parked now was parked either no
      later than it, or after it was taken. */
  predicate TakenInOrder(cfg: Config, now: int, idle: seq<Parked>, e: Exec) {
    e.OnPooled? || e.FailingPooled? ==>
      && e.usedAt <= e.takenAt <= now && e.takenAt - e.usedAt < cfg.maxIdle
      && forall k :: 0 <= k < |idle| ==> idle[k].time <= e.usedAt || e.takenAt <= idle[k].time
  }

  ghost predicate Timely(cfg: Config, w: World) {
    && Chronological(w.pool.idle)
    && (forall k :: 0 <= k < |w.pool.idle| ==> w.pool.idle[k].time <= w.now)
    && forall i :: 0 <= i < |w.calls| && Executing(w.calls[i].stage) ==>
         TakenInOrder(cfg, w.now, w.pool.idle, w.calls[i].stage.exec)
  }

  /** Prefixes of the queue, and the queue with something parked now on top, keep the order. */
  predicate Shrinks(now: int, idle: seq<Parked>, idle': seq<Parked>) {
    idle' <= idle || (|idle'| == |idle| + 1 && idle <= idle' && idle'[|idle|].time == now)
  }

  lemma CallKeepsTimely(cfg: Config, w: World, w': World, i: nat)
    requires Timely(cfg, w) && w'.now == w.now && Shrinks(w.now, w.pool.idle, w'.pool.idle)
    requires i < |w.calls| == |w'.calls| && w'.calls == w.calls[i := w'.calls[i]]
    requires Executing(w'.calls[i].stage) ==> TakenInOrder(cfg, w.now, w'.pool.idle, w'.calls[i].stage.exec)
    ensures Timely(cfg, w')
  {
    forall k | 0 <= k < |w'.calls| && Executing(w'.calls[k].stage)
      ensures TakenInOrder(cfg, w.now, w'.pool.idle, w'.calls[k].stage.exec)
    {
      if k != i {
        assert TakenInOrder(cfg, w.now, w.pool.idle, w.calls[k].stage.exec);
      }
    }
  }

  lemma BeginIsTimely(cfg: Config, p: Pool, now: int)
    requires Chronological(p.idle) && forall k :: 0 <= k < |p.idle| ==> p.idle[k].time <= now
    ensures var st := Begin(p, now, cfg.maxIdle);
            st.progress.More? && Shrinks(now, p.idle, st.pool.idle) &&
            TakenInOrder(cfg, now, st.pool.idle, st.progress.exec)
  {
    CheckoutTakesNewestOrEmpties(p.idle, now, cfg.maxIdle);
  }

  lemma ContinueIsTimely(cfg: Config, p: Pool, tries: seq<Attempt>, e: Exec, h: Happening, now: int)
    requires Possible(e, h) && TakenInOrder(cfg, now, p.idle, e)
    ensures var st := Continue(p, tries, e, h, now);
            Shrinks(now, p.idle, st.pool.idle) &&
            (st.progress.More? ==> TakenInOrder(cfg, now, st.pool.idle, st.progress.exec))
  {
  }

  lemma MoveKeepsTimely(cfg: Config, w: World, m: Move)
    requires Timely(cfg, w) && Enabled(cfg, w, m)
    ensures Timely(cfg, Next(cfg, w, m))
  {
    hide Begin, Continue, Shrinks;
    match m
    case Tick =>
    case Arrive =>
    case Check(i) =>
      BeginIsTimely(cfg, w.pool, w.now);
      UntouchedShrinks(w);
      CallKeepsTimely(cfg, w, Next(cfg, w, m), i);
    case Admit(i) =>
      BeginIsTimely(cfg, w.pool, w.now);
      CallKeepsTimely(cfg, w, Next(cfg, w, m), i);
    case Happen(i, h) =>
      ContinueIsTimely(cfg, w.pool, w.calls[i].tries, w.calls[i].stage.exec, h, w.now);
      CallKeepsTimely(cfg, w, Next(cfg, w, m), i);
  }

  lemma UntouchedShrinks(w: World)
    ensures Shrinks(w.now, w.pool.idle, w.pool.idle)
  {
  }

  /* ---- The environment check excludes commands ---- */

  ghost predicate Gated(w: World) {
    forall i :: 0 <= i < |w.calls| ==>
      && (w.calls[i].stage.Ready? || w.calls[i].stage.Running? ==> w.cache.Passed?)
      && (w.calls[i].stage.Probing? ==>
            w.cache.Unset? && forall k :: 0 <= k < |w.calls| && w.calls[k].stage.Probing? ==> k == i)
  }

  lemma MoveKeepsGated(cfg: Config, w: World, m: Move)
    requires Gated(w) && Enabled(cfg, w, m)
    ensures Gated(Next(cfg, w, m))
  {
  }

  /* ---- The bound ---- */

  /** Sessions alive or being opened: at most one until the check has passed, then at most as many
      as there are permits. */
  ghost predicate Bounded(cfg: Config, w: World) {
    |w.pool.idle| + Count(w.calls, Executing) <= if w.cache.Passed? then cfg.maxConcurrency else 1
  }

  lemma BeginFits(p: Pool, now: int, maxIdle: int)
    requires Chronological(p.idle)
    ensures var st := Begin(p, now, maxIdle);
            st.pool.idle == [] || |st.pool.idle| + 1 == |p.idle|
  {
    CheckoutTakesNewestOrEmpties(p.idle, now, maxIdle);
  }

  lemma CheckKeepsBounded(cfg: Config, w: World, i: nat)
    requires ValidConfig(cfg) && Timely(cfg, w) && Gated(w) && Bounded(cfg, w) && Enabled(cfg, w, Check(i))
    ensures Bounded(cfg, Next(cfg, w, Check(i)))
  {
    var w' := Next(cfg, w, Check(i));
    CountUpdate(w.calls, i, w'.calls[i], Executing);
    if Consult(w.cache, w.now).Probe? {
      BeginFits(w.pool, w.now, cfg.maxIdle);
      CountNone(w.calls, Executing);
    }
  }

  lemma AdmitKeepsBounded(cfg: Config, w: World, i: nat)
    requires ValidConfig(cfg) && Timely(cfg, w) && Gated(w) && Bounded(cfg, w) && Enabled(cfg, w, Admit(i))
    ensures Bounded(cfg, Next(cfg, w, Admit(i)))
  {
    var w' := Next(cfg, w, Admit(i));
    CountUpdate(w.calls, i, w'.calls[i], Executing);
    BeginFits(w.pool, w.now, cfg.maxIdle);
    CountSame(w.calls, Executing, IsRunning);
  }

  lemma HappenKeepsBounded(cfg: Config, w: World, i: nat, h: Happening)
    requires ValidConfig(cfg) && Gated(w) && Bounded(cfg, w) && Enabled(cfg, w, Happen(i, h))
    ensures Bounded(cfg, Next(cfg, w, Happen(i, h)))
  {
    CountUpdate(w.calls, i, Next(cfg, w, Happen(i, h)).calls[i], Executing);
  }

  lemma MoveKeepsBounded(cfg: Config, w: World, m: Move)
    requires ValidConfig(cfg) && Timely(cfg, w) && Gated(w) && Bounded(cfg, w) && Enabled(cfg, w, m)
    ensures Bounded(cfg, Next(cfg, w, m))
  {
    match m
    case Tick =>
    case Arrive => CountNew(w.calls, Executing);
    case Check(i) => CheckKeepsBounded(cfg, w, i);
    case Admit(i) => AdmitKeepsBounded(cfg, w, i);
    case Happen(i, h) => HappenKeepsBounded(cfg, w, i, h);
  }

  /* ---- At most one retry ---- */

  /** Nothing tried, or one pooled session that raised. */
  predicate RetryAllowed(tries: seq<Attempt>) {
    tries == [] || (|tries| == 1 && tries[0].pooled && tries[0].outcome == Raised)
  }

  /** A script is sent at most twice, and the second time only to a fresh session after a pooled one
      raised something other than a timeout. */
  predicate Narrow(tries: seq<Attempt>) {
    RetryAllowed(tries)
    || (|tries| == 1 && tries[0].pooled)
    || (|tries| > 0 && RetryAllowed(tries[..|tries| - 1]) && !tries[|tries| - 1].pooled)
  }

  predicate TracksExec(tries: seq<Attempt>, e: Exec) {
    match e
    case OnPooled(x, _, _) => tries == [Attempt(x, true, Pending)]
    case OnFresh(x) =>
      tries != [] && RetryAllowed(tries[..|tries| - 1]) && tries[|tries| - 1] == Attempt(x, false, Pending)
    case FailingPooled(x, _, _) => tries == [Attempt(x, true, Raised)]
    case FailingFresh(x) =>
      tries != [] && RetryAllowed(tries[..|tries| - 1]) && tries[|tries| - 1] == Attempt(x, false, Raised)
    case Opening => RetryAllowed(tries)
  }

  predicate Tracked(c: Call) {
    if Executing(c.stage) then TracksExec(c.tries, c.stage.exec) else Narrow(c.tries)
  }

  lemma TrackedIsNarrow(c: Call)
    requires Tracked(c)
    ensures Narrow(c.tries) && |c.tries| <= 2
    ensures |c.tries| == 2 ==>
              c.tries[0].pooled && c.tries[0].outcome == Raised && !c.tries[1].pooled
    ensures forall k :: 0 <= k < |c.tries| && c.tries[k].outcome == TimedOut ==>
              k == |c.tries| - 1 && !Executing(c.stage)
  {
  }

  lemma ContinueTracks(p: Pool, tries: seq<Attempt>, e: Exec, h: Happening, now: int)
    requires Possible(e, h) && TracksExec(tries, e)
    ensures var st := Continue(p, tries, e, h, now);
            if st.progress.More? then TracksExec(st.tries, st.progress.exec) else Narrow(st.tries)
  {
    var st := Continue(p, tries, e, h, now);
    if h.Opens? {
      assert st.tries[..|st.tries| - 1] == tries;
    } else if tries != [] {
      assert Mark(tries, Answered)[..|tries| - 1] == tries[..|tries| - 1];
      assert Mark(tries, TimedOut)[..|tries| - 1] == tries[..|tries| - 1];
      assert Mark(tries, Raised)[..|tries| - 1] == tries[..|tries| - 1];
    }
  }

  lemma MoveKeepsTracked(cfg: Config, w: World, m: Move)
    requires (forall i :: 0 <= i < |w.calls| ==> Tracked(w.calls[i])) && Enabled(cfg, w, m)
    ensures forall i :: 0 <= i < |Next(cfg, w, m).calls| ==> Tracked(Next(cfg, w, m).calls[i])
  {
    if m.Happen? {
      ContinueTracks(w.pool, w.calls[m.i].tries, w.calls[m.i].stage.exec, m.h, w.now);
    }
  }

  /* ---- Every reachable state ---- */

  ghost predicate Inv(cfg: Config, w: World) {
    && Owned(w) && Timely(cfg, w) && Gated(w) && Bounded(cfg, w)
    && forall i :: 0 <= i < |w.calls| ==> Tracked(w.calls[i])
  }

  ghost predicate Legal(cfg: Config, w: World, moves: seq<Move>)
    decreases |moves|
  {
    moves == [] || (Enabled(cfg, w, moves[0]) && Legal(cfg, Next(cfg, w, moves[0]), moves[1..]))
  }

  ghost function Perform(cfg: Config, w: World, moves: seq<Move>): World
    requires Legal(cfg, w, moves)
    decreases |moves|
  {
    if moves == [] then w else Perform(cfg, Next(cfg, w, moves[0]), moves[1..])
  }

  ghost predicate Reachable(cfg: Config, w: World) {
    exists moves :: Legal(cfg, Start(), moves) && Perform(cfg, Start(), moves) == w
  }

  lemma {:induction false} PerformOneMore(cfg: Config, w: World, moves: seq<Move>, m: Move)
    requires Legal(cfg, w, moves) && Enabled(cfg, Perform(cfg, w, moves), m)
    ensures Legal(cfg, w, moves + [m])
    ensures Perform(cfg, w, moves + [m]) == Next(cfg, Perform(cfg, w, moves), m)
    decreases |moves|
  {
    if moves == [] {
      assert [m][1..] == [];
      assert moves + [m] == [m];
    } else {
      assert (moves + [m])[0] == moves[0] && (moves + [m])[1..] == moves[1..] + [m];
      PerformOneMore(cfg, Next(cfg, w, moves[0]), moves[1..], m);
    }
  }

  lemma Reach(cfg: Config, w: World, m: Move)
    requires Reachable(cfg, w) && Enabled(cfg, w, m)
    ensures Reachable(cfg, Next(cfg, w, m))
  {
    var moves :| Legal(cfg, Start(), moves) && Perform(cfg, Start(), moves) == w;
    PerformOneMore(cfg, Start(), moves, m);
  }

  lemma ReachStart(cfg: Config)
    ensures Reachable(cfg, Start())
  {
    assert Legal(cfg, Start(), []) && Perform(cfg, Start(), []) == Start();
  }

  lemma {:induction false} PerformKeeps(cfg: Config, w: World, moves: seq<Move>)
    requires ValidConfig(cfg) && Inv(cfg, w) && Legal(cfg, w, moves)
    ensures Inv(cfg, Perform(cfg, w, moves))
    decreases |moves|
  {
    if moves != [] {
      MoveKeepsOwned(cfg, w, moves[0]);
      MoveKeepsTimely(cfg, w, moves[0]);
      MoveKeepsGated(cfg, w, moves[0]);
      MoveKeepsBounded(cfg, w, moves[0]);
      MoveKeepsTracked(cfg, w, moves[0]);
      PerformKeeps(cfg, Next(cfg, w, moves[0]), moves[1..]);
    }
  }

  lemma ReachableInv(cfg: Config, w: World)
    requires ValidConfig(cfg) && Reachable(cfg, w)
    ensures Inv(cfg, w)
  {
    var moves :| Legal(cfg, Start(), moves) && Perform(cfg, Start(), moves) == w;
    assert Inv(cfg, Start());
    PerformKeeps(cfg, Start(), moves);
  }

  /** Ownership: in every reachable state a session that was opened is exactly one of queued once,
      held by one call, or handed to close once; a number not yet used is none of these. */
  lemma SessionsAreOwnedOnce(cfg: Config, w: World, x: nat)
    requires ValidConfig(cfg) && Reachable(cfg, w)
    ensures Bag(w.pool.idle)[x] + w.pool.closed[x] + Holders(w.calls, x) == if x < w.pool.count then 1 else 0
  {
    ReachableInv(cfg, w);
    assert OwnedOnce(w, x);
  }

  /** The bound: sessions idle, in use or being opened never exceed the permits, the probe that
      bypasses the semaphore included, since a probe never coexists with a command. */
  lemma PoolIsBounded(cfg: Config, w: World)
    requires ValidConfig(cfg) && Reachable(cfg, w)
    ensures |w.pool.idle| + Count(w.calls, Executing) <= cfg.maxConcurrency
    ensures forall i, k :: 0 <= i < |w.calls| && 0 <= k < |w.calls| && w.calls[i].stage.Probing? ==>
              !w.calls[k].stage.Running? && (w.calls[k].stage.Probing? ==> k == i)
  {
    ReachableInv(cfg, w);
  }

  /** At most one retry, and only of a pooled session that raised; a script that timed out was its
      call's last. */
  lemma RetryIsNarrow(cfg: Config, w: World, i: nat)
    requires ValidConfig(cfg) && Reachable(cfg, w) && i < |w.calls|
    ensures var tries := w.calls[i].tries;
            && |tries| <= 2
            && (|tries| == 2 ==> tries[0].pooled && tries[0].outcome == Raised && !tries[1].pooled)
            && forall k :: 0 <= k < |tries| && tries[k].outcome == TimedOut ==>
                 k == |tries| - 1 && !Executing(w.calls[i].stage)
  {
    ReachableInv(cfg, w);
    TrackedIsNarrow(w.calls[i]);
  }

  /** Expiry: an execute starting in a reachable state runs on the newest idle session or leaves the
      queue empty, and closes only sessions that have expired. */
  lemma CheckoutIsSound(cfg: Config, w: World)
    requires ValidConfig(cfg) && Reachable(cfg, w)
    ensures var st := Begin(w.pool, w.now, cfg.maxIdle);
            var n := |w.pool.idle|;
            if n > 0 && w.now - w.pool.idle[n - 1].time < cfg.maxIdle
            then st.pool.closed == w.pool.closed && st.pool.idle == w.pool.idle[..n - 1]
                 && st.progress == More(OnPooled(w.pool.idle[n - 1].session, w.pool.idle[n - 1].time, w.now))
                 && st.tries == [Attempt(w.pool.idle[n - 1].session, true, Pending)]
            else st.pool.idle == [] && st.progress == More(Opening) && st.tries == []
                 && st.pool.closed == w.pool.closed + Bag(w.pool.idle)
                 && forall p :: p in w.pool.idle ==> w.now - p.time >= cfg.maxIdle
  {
    ReachableInv(cfg, w);
    CheckoutTakesNewestOrEmpties(w.pool.idle, w.now, cfg.maxIdle);
  }

  /** What the discard after a failure throws away: everything queued was last used no later than the
      failed session, exactly when nothing was parked since that session was taken, unless with the
      very time stamp it had. DiscardCanHitNewer is an instance of the failing case. */
  lemma DiscardedWereOlder(cfg: Config, w: World, i: nat)
    requires ValidConfig(cfg) && Reachable(cfg, w) && i < |w.calls|
    requires Executing(w.calls[i].stage) && w.calls[i].stage.exec.FailingPooled?
    ensures var e := w.calls[i].stage.exec;
            (forall p :: p in w.pool.idle ==> p.time <= e.usedAt) <==>
            (forall p :: p in w.pool.idle ==> p.time < e.takenAt || p.time == e.usedAt)
  {
    ReachableInv(cfg, w);
    var e := w.calls[i].stage.exec;
    forall p | p in w.pool.idle
      ensures p.time <= e.usedAt || e.takenAt <= p.time
    {
      var k :| 0 <= k < |w.pool.idle| && w.pool.idle[k] == p;
    }
  }

  /** Under concurrency the discard can throw away a session used after the failed one, with two
      permits and any expiry: the first call takes a session, the second parks another, and then
      the first fails. */
  lemma DiscardCanHitNewer(cfg: Config) returns (w: World)
    requires cfg.maxConcurrency >= 2 && cfg.maxIdle >= 1
    ensures Reachable(cfg, w) && |w.calls| == 2
    ensures w.calls[0].stage.Running? && w.calls[0].stage.exec.FailingPooled?
    ensures Enabled(cfg, w, Happen(0, Closed))
    ensures exists p :: p in w.pool.idle && p.time > w.calls[0].stage.exec.usedAt
                        && Next(cfg, w, Happen(0, Closed)).pool.closed[p.session] == 1
  {
    w := OneParkedOneOut(cfg);
    w := Go(cfg, w, Happen(0, Raises));
    assert Parked(1, 1) in w.pool.idle;
    assert w.pool.idle[..0] == [];
    assert Bag(w.pool.idle) == multiset{1};
  }

  lemma Go(cfg: Config, w: World, m: Move) returns (w': World)
    requires Reachable(cfg, w) && Enabled(cfg, w, m)
    ensures w' == Next(cfg, w, m) && Reachable(cfg, w')
  {
    Reach(cfg, w, m);
    w' := Next(cfg, w, m);
  }

  lemma OneParkedOneOut(cfg: Config) returns (w: World)
    requires cfg.maxConcurrency >= 2 && cfg.maxIdle >= 1
    ensures Reachable(cfg, w)
    ensures w.pool == Pool([Parked(1, 1)], multiset{}, 2) && |w.calls| == 2
    ensures w.calls[0].stage == Running(OnPooled(0, 0, 0))
  {
    w := FirstCommandRuns(cfg);
    w := Go(cfg, w, Arrive);
    w := Go(cfg, w, Check(1));
    assert w.calls[1..] == [w.calls[1]] && w.calls[1..][1..] == [];
    assert Count(w.calls[1..], IsRunning) == 0;
    w := Go(cfg, w, Admit(1));
    w := Go(cfg, w, Happen(1, Opens));
    w := Go(cfg, w, Tick);
    w := Go(cfg, w, Happen(1, Returns(true)));
  }

  lemma FirstCommandRuns(cfg: Config) returns (w: World)
    requires cfg.maxConcurrency >= 2 && cfg.maxIdle >= 1
    ensures Reachable(cfg, w)
    ensures w == World(0, Pool([], multiset{}, 1), Passed,
                       [Call(Running(OnPooled(0, 0, 0)), [Attempt(0, true, Pending)])])
  {
    ReachStart(cfg);
    w := Go(cfg, Start(), Arrive);
    w := Go(cfg, w, Check(0));
    w := Go(cfg, w, Happen(0, Opens));
    w := Go(cfg, w, Happen(0, Returns(true)));
    assert w.calls[1..] == [];
    w := Go(cfg, w, Admit(0));
  }
}
