/** What becomes of the sessions a script was sent to and of the callers that sent it, in every
    reachable state of the pool. */
module PoolOutcomes {
  import opened Common
  import opened RunspacePool
  import opened EnvironmentCheck
  import opened PoolConcurrency

  /* ---- Where an attempt leaves its session ---- */

  predicate Using(c: Call, x: nat) {
    Executing(c.stage) && InUse(c.stage.exec) && c.stage.exec.session == x
  }

  /** The call is closing x before it goes on or gives up. */
  predicate Failing(c: Call, x: nat) {
    Executing(c.stage) && (c.stage.exec.FailingPooled? || c.stage.exec.FailingFresh?) && c.stage.exec.session == x
  }

  predicate Accounted(p: Pool, c: Call, t: Attempt) {
    match t.outcome
    case Pending => Using(c, t.session)
    case Answered => true
    case TimedOut => p.closed[t.session] > 0
    case Raised => Failing(c, t.session) || p.closed[t.session] > 0
  }

  predicate CallAccounted(p: Pool, c: Call) {
    forall t :: t in c.tries ==> Accounted(p, c, t)
  }

  ghost predicate AllAccounted(w: World) {
    forall i :: 0 <= i < |w.calls| ==> CallAccounted(w.pool, w.calls[i])
  }

  ghost predicate MoreClosed(p: Pool, p': Pool) {
    forall x: nat :: p.closed[x] <= p'.closed[x]
  }

  lemma BeginAccounts(p: Pool, now: int, maxIdle: int)
    ensures var st := Begin(p, now, maxIdle);
            && MoreClosed(p, st.pool) && st.progress.More?
            && CallAccounted(st.pool, Call(Probing(st.progress.exec), st.tries))
            && CallAccounted(st.pool, Call(Running(st.progress.exec), st.tries))
  {
  }

  lemma ContinueAccounts(p: Pool, c: Call, h: Happening, now: int, stage: Stage)
    requires Executing(c.stage) && Possible(c.stage.exec, h) && Tracked(c) && CallAccounted(p, c)
    requires var st := Continue(p, c.tries, c.stage.exec, h, now);
             if st.progress.More? then Executing(stage) && stage.exec == st.progress.exec else !Executing(stage)
    ensures var st := Continue(p, c.tries, c.stage.exec, h, now);
            MoreClosed(p, st.pool) && CallAccounted(st.pool, Call(stage, st.tries))
  {
    var st := Continue(p, c.tries, c.stage.exec, h, now);
    forall t | t in st.tries
      ensures Accounted(st.pool, Call(stage, st.tries), t)
    {
      var k :| 0 <= k < |st.tries| && st.tries[k] == t;
      if k < |c.tries| {
        assert c.tries[k] in c.tries;
      }
    }
  }

  lemma MoveKeepsAccounted(cfg: Config, w: World, m: Move)
    requires AllAccounted(w) && Enabled(cfg, w, m)
    requires forall i :: 0 <= i < |w.calls| ==> Tracked(w.calls[i])
    ensures AllAccounted(Next(cfg, w, m)) && MoreClosed(w.pool, Next(cfg, w, m).pool)
  {
    hide Begin, Continue, Tracked;
    match m
    case Tick =>
    case Arrive =>
    case Check(i) => BeginAccounts(w.pool, w.now, cfg.maxIdle);
    case Admit(i) => BeginAccounts(w.pool, w.now, cfg.maxIdle);
    case Happen(i, h) =>
      ContinueAccounts(w.pool, w.calls[i], h, w.now, Next(cfg, w, m).calls[i].stage);
  }

  /* ---- What a reply says ---- */

  predicate LastIs(tries: seq<Attempt>, o: Outcome) {
    tries != [] && tries[|tries| - 1].outcome == o
  }

  /** The outcome of the last attempt behind each reply. Only a probe's answer or timeout makes an
      environment error; the other cause is that no session opened. */
  predicate Explained(c: Call) {
    match c.stage
    case Checking => c.tries == []
    case Ready => c.tries == [] || LastIs(c.tries, Answered)
    case Done(Result) => LastIs(c.tries, Answered)
    case Done(Timeout) => LastIs(c.tries, TimedOut)
    case Done(TransportError) => LastIs(c.tries, Raised) && !c.tries[|c.tries| - 1].pooled
    case Done(EnvironmentError) => RetryAllowed(c.tries) || LastIs(c.tries, Answered) || LastIs(c.tries, TimedOut)
    case _ => true
  }

  lemma MoveKeepsExplained(cfg: Config, w: World, m: Move)
    requires (forall i :: 0 <= i < |w.calls| ==> Tracked(w.calls[i]) && Explained(w.calls[i])) && Enabled(cfg, w, m)
    ensures forall i :: 0 <= i < |Next(cfg, w, m).calls| ==> Explained(Next(cfg, w, m).calls[i])
  {
  }

  /* ---- Every reachable state ---- */

  lemma {:induction false} PerformAccounts(cfg: Config, w: World, moves: seq<Move>)
    requires ValidConfig(cfg) && Inv(cfg, w) && AllAccounted(w) && Legal(cfg, w, moves)
    requires forall i :: 0 <= i < |w.calls| ==> Explained(w.calls[i])
    ensures var w' := Perform(cfg, w, moves);
            AllAccounted(w') && forall i :: 0 <= i < |w'.calls| ==> Explained(w'.calls[i])
    decreases |moves|
  {
    if moves != [] {
      PerformKeeps(cfg, w, moves[..1]);
      assert moves[..1] == [moves[0]] && moves[..1][1..] == [];
      assert Perform(cfg, w, moves[..1]) == Next(cfg, w, moves[0]);
      MoveKeepsAccounted(cfg, w, moves[0]);
      MoveKeepsExplained(cfg, w, moves[0]);
      PerformAccounts(cfg, Next(cfg, w, moves[0]), moves[1..]);
    }
  }

  lemma ReachableAccounts(cfg: Config, w: World)
    requires ValidConfig(cfg) && Reachable(cfg, w)
    ensures Inv(cfg, w) && AllAccounted(w)
    ensures forall i :: 0 <= i < |w.calls| ==> Explained(w.calls[i])
  {
    var moves :| Legal(cfg, Start(), moves) && Perform(cfg, Start(), moves) == w;
    PerformAccounts(cfg, Start(), moves);
    ReachableInv(cfg, w);
  }

  lemma {:induction false} BagHas(idle: seq<Parked>, p: Parked)
    requires p in idle
    ensures Bag(idle)[p.session] > 0
    decreases |idle|
  {
    var n := |idle| - 1;
    if p != idle[n] {
      assert p in idle[..n];
      BagHas(idle[..n], p);
    }
  }

  lemma {:induction false} CountHas(calls: seq<Call>, i: nat, f: Stage -> bool)
    requires i < |calls| && f(calls[i].stage)
    ensures Count(calls, f) > 0
  {
    if i > 0 {
      CountHas(calls[1..], i - 1, f);
    }
  }

  /** A session on which a script timed out, or raised and was closed, has been handed to close once
      and is never queued or held again. */
  lemma SpoiledSessionsAreClosed(cfg: Config, w: World, i: nat, t: Attempt)
    requires ValidConfig(cfg) && Reachable(cfg, w) && i < |w.calls| && t in w.calls[i].tries
    requires t.outcome == TimedOut || (t.outcome == Raised && !Failing(w.calls[i], t.session))
    ensures w.pool.closed[t.session] == 1
    ensures forall p :: p in w.pool.idle ==> p.session != t.session
    ensures forall k :: 0 <= k < |w.calls| ==> !Holds(w.calls[k].stage, t.session)
  {
    ReachableAccounts(cfg, w);
    assert CallAccounted(w.pool, w.calls[i]);
    assert OwnedOnce(w, t.session);
    forall p | p in w.pool.idle
      ensures p.session != t.session
    {
      BagHas(w.pool.idle, p);
    }
    forall k | 0 <= k < |w.calls|
      ensures !Holds(w.calls[k].stage, t.session)
    {
      if Holds(w.calls[k].stage, t.session) {
        CountHas(w.calls, k, s => Holds(s, t.session));
      }
    }
  }

  /** Nothing but answered scripts ran on a queued session, in whichever calls. */
  lemma QueuedSessionsAnswered(cfg: Config, w: World, p: Parked, i: nat, t: Attempt)
    requires ValidConfig(cfg) && Reachable(cfg, w) && p in w.pool.idle
    requires i < |w.calls| && t in w.calls[i].tries && t.session == p.session
    ensures t.outcome == Answered
  {
    ReachableAccounts(cfg, w);
    assert CallAccounted(w.pool, w.calls[i]);
    assert OwnedOnce(w, p.session);
    BagHas(w.pool.idle, p);
    if Holds(w.calls[i].stage, p.session) {
      CountHas(w.calls, i, s => Holds(s, p.session));
    }
  }

  /** The move parks p: a script has just returned on its session. */
  predicate Parks(cfg: Config, w: World, m: Move, p: Parked)
    requires Enabled(cfg, w, m)
  {
    m.Happen? && m.h.Returns? && Using(w.calls[m.i], p.session) && w.now == p.time
  }

  /** One of the moves parks p. */
  ghost predicate ParkedOnTheWay(cfg: Config, w: World, moves: seq<Move>, p: Parked)
    requires Legal(cfg, w, moves)
    decreases |moves|
  {
    moves != [] && (Parks(cfg, w, moves[0], p) || ParkedOnTheWay(cfg, Next(cfg, w, moves[0]), moves[1..], p))
  }

  lemma {:induction false} CheckoutTakesFromQueue(idle: seq<Parked>, now: int, maxIdle: int)
    ensures Checkout(idle, now, maxIdle).idle <= idle
    decreases |idle|
  {
    if idle != [] && Expired(idle[|idle| - 1], now, maxIdle) {
      CheckoutTakesFromQueue(idle[..|idle| - 1], now, maxIdle);
    }
  }

  /** A return puts its session on top of the queue, marked as answered; nothing else ever queues a
      session. */
  lemma ReturnParks(cfg: Config, w: World, m: Move)
    requires Enabled(cfg, w, m)
    requires forall i :: 0 <= i < |w.calls| ==> Tracked(w.calls[i])
    ensures var w' := Next(cfg, w, m);
            if m.Happen? && m.h.Returns?
            then && w'.pool.idle == w.pool.idle + [Parked(w.now, w.calls[m.i].stage.exec.session)]
                 && w'.calls[m.i].tries != []
                 && var t := w'.calls[m.i].tries[|w'.calls[m.i].tries| - 1];
                    t.session == w.calls[m.i].stage.exec.session && t.outcome == Answered
            else w'.pool.idle <= w.pool.idle
  {
    CheckoutTakesFromQueue(w.pool.idle, w.now, cfg.maxIdle);
  }

  /** Whatever is queued in the end was parked, at the time it is stamped with, by a script that
      returned on it. */
  lemma {:induction false} QueuedWasParked(cfg: Config, w: World, moves: seq<Move>, p: Parked)
    requires ValidConfig(cfg) && Inv(cfg, w) && Legal(cfg, w, moves)
    requires p in Perform(cfg, w, moves).pool.idle && p !in w.pool.idle
    ensures ParkedOnTheWay(cfg, w, moves, p)
    decreases |moves|
  {
    var w' := Next(cfg, w, moves[0]);
    ReturnParks(cfg, w, moves[0]);
    if p !in w'.pool.idle {
      PerformKeeps(cfg, w, moves[..1]);
      assert moves[..1] == [moves[0]] && moves[..1][1..] == [];
      assert Perform(cfg, w, moves[..1]) == w';
      QueuedWasParked(cfg, w', moves[1..], p);
    }
  }

  /** A pooled session that raised costs the caller no reply: the session and everything queued are
      closed once, and the script is sent once more, to a session no call has had. */
  lemma PooledFailureRetries(cfg: Config, w: World, i: nat)
    requires ValidConfig(cfg) && Reachable(cfg, w) && i < |w.calls|
    requires Executing(w.calls[i].stage) && w.calls[i].stage.exec.FailingPooled?
    ensures Enabled(cfg, w, Happen(i, Closed))
    ensures var w1 := Next(cfg, w, Happen(i, Closed));
            && w1.pool.idle == [] && w1.pool.closed[w.calls[i].stage.exec.session] == 1
            && (forall p :: p in w.pool.idle ==> w1.pool.closed[p.session] == 1)
            && Enabled(cfg, w1, Happen(i, Opens))
            && var w2 := Next(cfg, w1, Happen(i, Opens));
               && w2.calls[i].tries == w.calls[i].tries + [Attempt(w.pool.count, false, Pending)]
               && Using(w2.calls[i], w.pool.count)
               && (w2.calls[i].stage.Probing? <==> w.calls[i].stage.Probing?)
               && forall k :: 0 <= k < |w.calls| ==> !Holds(w.calls[k].stage, w.pool.count)
  {
    var w1 := Next(cfg, w, Happen(i, Closed));
    ReachableAccounts(cfg, w);
    MoveKeepsOwned(cfg, w, Happen(i, Closed));
    assert OwnedOnce(w, w.pool.count);
    assert OwnedOnce(w1, w.calls[i].stage.exec.session);
    forall p | p in w.pool.idle
      ensures w1.pool.closed[p.session] == 1
    {
      BagHas(w.pool.idle, p);
      assert OwnedOnce(w1, p.session);
    }
    forall k | 0 <= k < |w.calls|
      ensures !Holds(w.calls[k].stage, w.pool.count)
    {
      if Holds(w.calls[k].stage, w.pool.count) {
        CountHas(w.calls, k, s => Holds(s, w.pool.count));
      }
    }
  }

  /** The reply of an admitted command, by what it was waiting for: exactly a return gives a result,
      a timeout gives a timeout, a fresh session that raised a transport error, and a session that
      does not open an environment error. Otherwise the command goes on. */
  lemma CommandReplies(cfg: Config, w: World, i: nat, h: Happening)
    requires ValidConfig(cfg) && Reachable(cfg, w) && Enabled(cfg, w, Happen(i, h)) && w.calls[i].stage.Running?
    ensures var w' := Next(cfg, w, Happen(i, h));
            var c := w'.calls[i];
            && (c.stage == Done(Result) <==> h.Returns?)
            && (c.stage == Done(Timeout) <==> h.TimesOut?)
            && (c.stage == Done(TransportError) <==>
                  h.Closed? && LastIs(c.tries, Raised) && !c.tries[|c.tries| - 1].pooled)
            && (c.stage == Done(EnvironmentError) <==> h.FailsToOpen?)
            && (c.stage.Done? || c.stage.Running?) && w'.cache == w.cache
  {
    ReachableAccounts(cfg, w);
    assert Tracked(w.calls[i]);
  }

  /** Each reply a caller has had, in every reachable state, told it what became of its last attempt. */
  lemma RepliesAreExplained(cfg: Config, w: World, i: nat)
    requires ValidConfig(cfg) && Reachable(cfg, w) && i < |w.calls|
    ensures Explained(w.calls[i])
  {
    ReachableAccounts(cfg, w);
  }

  /* ---- The cached verdict ---- */

  predicate ProbeFails(h: Happening) {
    h == Returns(false) || h.TimesOut? || h.FailsToOpen?
  }

  /** A probe passes exactly on a successful answer; an unsuccessful one, a timeout and a session
      that does not open are remembered for the configured time; a fresh session that raised is not. */
  lemma ProbeSettles(cfg: Config, w: World, i: nat, h: Happening)
    requires ValidConfig(cfg) && Reachable(cfg, w) && Enabled(cfg, w, Happen(i, h)) && w.calls[i].stage.Probing?
    ensures var w' := Next(cfg, w, Happen(i, h));
            var c := w'.calls[i];
            && (h == Returns(true) <==> w'.cache.Passed?) && (h == Returns(true) <==> c.stage.Ready?)
            && (ProbeFails(h) <==> w'.cache.Failed?) && (ProbeFails(h) <==> c.stage == Done(EnvironmentError))
            && (ProbeFails(h) ==> w'.cache.until == w.now + cfg.negativeTtl)
            && (c.stage == Done(TransportError) <==>
                  h.Closed? && LastIs(c.tries, Raised) && !c.tries[|c.tries| - 1].pooled)
            && (c.stage.Ready? || c.stage.Done? || c.stage.Probing?)
  {
    ReachableAccounts(cfg, w);
    assert Tracked(w.calls[i]);
  }

  /** The next check of call j refuses it: no session is touched. */
  ghost predicate RefusesNext(cfg: Config, w: World, j: nat) {
    && Enabled(cfg, w, Check(j))
    && Next(cfg, w, Check(j)) == w.(calls := w.calls[j := w.calls[j].(stage := Done(EnvironmentError))])
  }

  ghost predicate AdmitsNext(cfg: Config, w: World, j: nat) {
    && Enabled(cfg, w, Check(j))
    && Next(cfg, w, Check(j)) == w.(calls := w.calls[j := w.calls[j].(stage := Ready)])
  }

  lemma {:induction false} FailureLasts(cfg: Config, w: World, moves: seq<Move>)
    requires Gated(w) && w.cache.Failed? && Legal(cfg, w, moves)
    requires Perform(cfg, w, moves).now < w.cache.until
    ensures var w' := Perform(cfg, w, moves);
            w.now <= w'.now && Gated(w') && w'.cache == w.cache && w'.pool == w.pool
    decreases |moves|
  {
    if moves != [] {
      TimeGoesOn(cfg, w, moves);
      MoveKeepsGated(cfg, w, moves[0]);
      FailureLasts(cfg, Next(cfg, w, moves[0]), moves[1..]);
    }
  }

  lemma {:induction false} TimeGoesOn(cfg: Config, w: World, moves: seq<Move>)
    requires Legal(cfg, w, moves)
    ensures w.now <= Perform(cfg, w, moves).now
    decreases |moves|
  {
    if moves != [] {
      TimeGoesOn(cfg, Next(cfg, w, moves[0]), moves[1..]);
    }
  }

  /** After a probe that found the target unusable, whatever happens until the failure expires: no
      session is opened, closed or used, and every call that checks is refused. */
  lemma FailedProbeRefuses(cfg: Config, w: World, i: nat, h: Happening, moves: seq<Move>)
    requires ValidConfig(cfg) && Reachable(cfg, w) && Enabled(cfg, w, Happen(i, h)) && w.calls[i].stage.Probing?
    requires ProbeFails(h) && Legal(cfg, Next(cfg, w, Happen(i, h)), moves)
    requires Perform(cfg, Next(cfg, w, Happen(i, h)), moves).now < w.now + cfg.negativeTtl
    ensures var w1 := Next(cfg, w, Happen(i, h));
            var w2 := Perform(cfg, w1, moves);
            && w2.pool == w1.pool && w2.cache == w1.cache
            && forall j: nat :: j < |w2.calls| && w2.calls[j].stage.Checking? ==> RefusesNext(cfg, w2, j)
  {
    var w1 := Next(cfg, w, Happen(i, h));
    ProbeSettles(cfg, w, i, h);
    Reach(cfg, w, Happen(i, h));
    ReachableInv(cfg, w1);
    FailureLasts(cfg, w1, moves);
    var w2 := Perform(cfg, w1, moves);
    forall j: nat | j < |w2.calls| && w2.calls[j].stage.Checking?
      ensures RefusesNext(cfg, w2, j)
    {
    }
  }

  /** Once a probe has passed, whatever happens: every call that checks goes on at once. */
  lemma {:induction false} SuccessIsForGood(cfg: Config, w: World, moves: seq<Move>)
    requires Gated(w) && w.cache.Passed? && Legal(cfg, w, moves)
    ensures var w' := Perform(cfg, w, moves);
            && w'.cache.Passed?
            && forall j: nat :: j < |w'.calls| && w'.calls[j].stage.Checking? ==> AdmitsNext(cfg, w', j)
    decreases |moves|
  {
    if moves != [] {
      MoveKeepsGated(cfg, w, moves[0]);
      SuccessIsForGood(cfg, Next(cfg, w, moves[0]), moves[1..]);
    }
  }

  lemma {:induction false} Waiting(cfg: Config, w: World, n: nat)
    ensures Legal(cfg, w, seq(n, _ => Tick)) && Perform(cfg, w, seq(n, _ => Tick)) == w.(now := w.now + n)
    decreases n
  {
    if n > 0 {
      assert seq(n, _ => Tick)[1..] == seq(n - 1, _ => Tick);
      Waiting(cfg, w.(now := w.now + 1), n - 1);
    }
  }

  /** The failure is not for good: while nobody probes and no probe has passed, a call that checks
      after waiting for n starts a probe exactly when the remembered failure, if any, has expired. */
  lemma FailureExpires(cfg: Config, w: World, i: nat, n: nat)
    requires ValidConfig(cfg) && Reachable(cfg, w) && !w.cache.Passed?
    requires i < |w.calls| && w.calls[i].stage.Checking?
    requires forall k :: 0 <= k < |w.calls| ==> !w.calls[k].stage.Probing?
    ensures Legal(cfg, w, seq(n, _ => Tick))
    ensures var w' := Perform(cfg, w, seq(n, _ => Tick));
            && Enabled(cfg, w', Check(i))
            && (Next(cfg, w', Check(i)).calls[i].stage.Probing? <==> w.cache.Failed? ==> w.now + n >= w.cache.until)
  {
    Waiting(cfg, w, n);
  }

  /* ---- Everyone is answered ---- */

  function ExecRank(e: Exec): nat {
    match e
    case FailingFresh(_) => 1
    case OnFresh(_) => 2
    case Opening => 3
    case FailingPooled(_, _, _) => 4
    case OnPooled(_, _, _) => 5
  }

  /** How many more moves a call can make. */
  function Rank(s: Stage): nat {
    match s
    case Done(_) => 0
    case Running(e) => ExecRank(e)
    case Ready => 6
    case Probing(e) => 6 + ExecRank(e)
    case Checking => 12
  }

  function Left(calls: seq<Call>): nat {
    if calls == [] then 0 else Rank(calls[0].stage) + Left(calls[1..])
  }

  lemma {:induction false} LeftUpdate(calls: seq<Call>, i: nat, c: Call)
    requires i < |calls|
    ensures Left(calls[i := c]) + Rank(calls[i].stage) == Left(calls) + Rank(c.stage)
  {
    if i == 0 {
      assert calls[i := c][1..] == calls[1..];
    } else {
      assert calls[i := c][1..] == calls[1..][i - 1 := c];
      LeftUpdate(calls[1..], i - 1, c);
    }
  }

  /** Every move of a call brings the end nearer. */
  lemma MovesRunOut(cfg: Config, w: World, m: Move)
    requires Enabled(cfg, w, m) && !m.Tick? && !m.Arrive?
    ensures Left(Next(cfg, w, m).calls) < Left(w.calls)
  {
    LeftUpdate(w.calls, m.i, Next(cfg, w, m).calls[m.i]);
  }

  predicate AllDone(w: World) {
    forall i :: 0 <= i < |w.calls| ==> w.calls[i].stage.Done?
  }

  /** A move some call can make, unless all are done. */
  lemma SomeoneMoves(cfg: Config, w: World) returns (m: Move)
    requires ValidConfig(cfg) && !AllDone(w)
    ensures Enabled(cfg, w, m) && !m.Tick? && !m.Arrive?
  {
    if i :| 0 <= i < |w.calls| && Executing(w.calls[i].stage) {
      var e := w.calls[i].stage.exec;
      m := Happen(i, if InUse(e) then Returns(true) else if e.Opening? then Opens else Closed);
    } else if i :| 0 <= i < |w.calls| && w.calls[i].stage.Checking? {
      m := Check(i);
    } else {
      var i :| 0 <= i < |w.calls| && w.calls[i].stage.Ready?;
      CountNone(w.calls, IsRunning);
      m := Admit(i);
    }
  }

  /** No deadlock between cache lock, permits and queue: from every state some moves answer all
      calls, and no more moves than Left can go by without a new call. */
  lemma {:induction false} AllAreAnswered(cfg: Config, w: World) returns (moves: seq<Move>)
    requires ValidConfig(cfg)
    ensures Legal(cfg, w, moves) && AllDone(Perform(cfg, w, moves))
    ensures |moves| <= Left(w.calls)
    decreases Left(w.calls)
  {
    if AllDone(w) {
      return [];
    }
    var m := SomeoneMoves(cfg, w);
    MovesRunOut(cfg, w, m);
    var rest := AllAreAnswered(cfg, Next(cfg, w, m));
    moves := [m] + rest;
    assert moves[1..] == rest;
  }
}
