/**
Safety of the UDP machine in every reachable interleaving: close channels, connections, removals
and the sweep.
*/
module UdpSafety {
  import opened Wrappers
  import opened UdpSessions
  import opened UdpInvariant

  // ---------------------------------------------------------------- what one step can change

  lemma ReaderEffect(s: State, a: ReaderAction, t: State, j: nat)
    requires Inv(s) && ReaderStep(s, a) == Some(t) && j < |s.all|
    ensures j < |t.all| && t.all[j] == s.all[j].(lastActive := t.all[j].lastActive, sent := t.all[j].sent)
    ensures InMap(t, j) == InMap(s, j)
  {
  }

  lemma SweeperEffect(cfg: Config, s: State, a: SweeperAction, t: State, j: nat)
    requires Inv(s) && SweeperStep(cfg, s, a) == Some(t) && j < |s.all|
    ensures |t.all| == |s.all| && t.all[j] == s.all[j].(chanCloses := t.all[j].chanCloses)
    ensures t.all[j].chanCloses == s.all[j].chanCloses + (if s.sweeper.SweepClose? && s.sweeper.id == j then 1 else 0)
    ensures InMap(t, j) <==> InMap(s, j) && !(s.sweeper.SweepDelete? && s.sweeper.id == j)
  {
  }

  lemma HandlerEffect(s: State, i: nat, a: HandlerAction, t: State)
    requires Inv(s) && HandlerStep(s, i, a) == Some(t)
    ensures i < |s.all| && t.all == s.all[i := t.all[i]] && t.all[i].src == s.all[i].src
    ensures t.all[i].chanCloses == s.all[i].chanCloses + (if s.all[i].pc == ExitClose then 1 else 0)
    ensures t.all[i].connCloses == s.all[i].connCloses + (if s.all[i].pc == CloseConn then 1 else 0)
    ensures InMap(t, i) <==> InMap(s, i) && s.all[i].pc != ExitDelete
    ensures Exiting(s.all[i].pc) ==> a == Proceed
    ensures s.lock == Some(HandlerOwner(i)) <==> HandlerHolds(s.all[i].pc)
  {
    assert ChanOk(s, i) && HandlerOk(s, i);
  }

  /**
  A handler never touches another session: not its channel, its connection or its map entry,
  even when that session was created later for the same source.
  */
  lemma HandlerTouchesOnlyItsSession(s: State, i: nat, a: HandlerAction, t: State, j: nat)
    requires Inv(s) && HandlerStep(s, i, a) == Some(t) && j < |s.all| && j != i
    ensures j < |t.all| && t.all[j] == s.all[j]
    ensures InMap(t, j) == InMap(s, j)
  {
    assert HandlerOk(s, i);
    HandlerEffect(s, i, a, t);
  }

  /** Which fields of a session an event can change, and what it can do to the map entry. */
  lemma StepEffect(cfg: Config, s: State, e: Event, t: State, j: nat)
    requires Inv(s) && Step(cfg, s, e) == Some(t) && j < |s.all|
    ensures j < |t.all| && t.all[j].src == s.all[j].src
    ensures t.all[j].chanCloses != s.all[j].chanCloses ==>
      || (e == HandlerDoes(j, Proceed) && s.all[j].pc == ExitClose)
      || (e == SweeperDoes(Go) && s.sweeper.SweepClose? && s.sweeper.id == j)
    ensures t.all[j].chanCloses >= s.all[j].chanCloses
    ensures t.all[j].connCloses != s.all[j].connCloses ==> e == HandlerDoes(j, Proceed) && s.all[j].pc == CloseConn
    ensures InMap(s, j) && !InMap(t, j) ==>
      || (e == HandlerDoes(j, Proceed) && s.all[j].pc == ExitDelete)
      || (e == SweeperDoes(Go) && s.sweeper.SweepDelete? && s.sweeper.id == j)
    ensures !InMap(s, j) ==> !InMap(t, j)
    ensures e.Tick? || (e.HandlerDoes? && e.id != j) ==> t.all[j] == s.all[j]
  {
    match e
    case Tick(now) =>
    case ReaderDoes(a) => ReaderEffect(s, a, t, j);
    case SweeperDoes(a) => SweeperEffect(cfg, s, a, t, j);
    case HandlerDoes(i, a) =>
      if i == j { HandlerEffect(s, i, a, t); } else { HandlerTouchesOnlyItsSession(s, i, a, t, j); }
  }

  // ---------------------------------------------------------------- close channels and connections

  /** With the lock free, a session's channel is open exactly when the map holds that session. */
  lemma OpenExactlyWhenMapped(cfg: Config, s: State, i: nat)
    requires Reachable(cfg, s) && i < |s.all|
    ensures s.all[i].chanCloses <= 1 && s.all[i].connCloses <= 1
    ensures s.lock == None ==> (!s.all[i].Closed() <==> InMap(s, i))
  {
    ReachableInv(cfg, s);
    assert ChanOk(s, i) && HandlerOk(s, i);
  }

  /** `close` only ever runs on an open channel, under the lock, by the sweeper or the session's own handler. */
  lemma CloseRunsOnOpenChannel(cfg: Config, s: State, e: Event, t: State, i: nat)
    requires Reachable(cfg, s) && Step(cfg, s, e) == Some(t) && i < |s.all| <= |t.all|
    requires t.all[i].chanCloses != s.all[i].chanCloses
    ensures !s.all[i].Closed() && t.all[i].chanCloses == 1 && InMap(s, i)
    ensures || (e == HandlerDoes(i, Proceed) && s.lock == Some(HandlerOwner(i)))
            || (e == SweeperDoes(Go) && s.lock == Some(SweeperOwner))
  {
    ReachableInv(cfg, s);
    StepEffect(cfg, s, e, t, i);
    assert ChanOk(s, i) && HandlerOk(s, i);
    StepInv(cfg, s, e);
    assert ChanOk(t, i);
  }

  /** A connection is closed only by its own handler, once, and after the session left the map for good. */
  lemma ConnClosedByOwnHandlerAfterRemoval(cfg: Config, s: State, e: Event, t: State, i: nat)
    requires Reachable(cfg, s) && Step(cfg, s, e) == Some(t) && i < |s.all| <= |t.all|
    requires t.all[i].connCloses != s.all[i].connCloses
    ensures e == HandlerDoes(i, Proceed) && s.all[i].connCloses == 0 && t.all[i].connCloses == 1
    ensures !InMap(s, i) && s.all[i].Closed()
  {
    ReachableInv(cfg, s);
    StepEffect(cfg, s, e, t, i);
    HandlerEffect(s, i, Proceed, t);
    assert ChanOk(s, i) && HandlerOk(s, i);
  }

  /** Over any run, a session that left the map stays out and a closed channel stays closed. */
  lemma {:induction false} GoneStaysGone(cfg: Config, s: State, es: seq<Event>, t: State, i: nat)
    requires Inv(s) && Run(cfg, s, es) == Some(t) && i < |s.all|
    ensures i < |t.all| && t.all[i].src == s.all[i].src
    ensures s.all[i].chanCloses <= t.all[i].chanCloses
    ensures !InMap(s, i) ==> !InMap(t, i)
  {
    if es != [] {
      var init := es[..|es| - 1];
      var mid := Run(cfg, s, init).value;
      GoneStaysGone(cfg, s, init, mid, i);
      RunInv(cfg, s, init);
      StepEffect(cfg, mid, es[|es| - 1], t, i);
    }
  }

  // ---------------------------------------------------------------- the sweep

  /** Every mapped session outside `todo` and other than `skip` was found fresh, and still is. */
  ghost predicate FreshExcept(cfg: Config, s: State, now: Time, todo: set<Addr>, skip: set<Addr>) {
    forall k :: k in s.sessions && k !in todo && k !in skip ==>
      s.sessions[k] < |s.all| && !Expired(cfg, now, s.all[s.sessions[k]].lastActive)
  }

  ghost predicate SweepInv(cfg: Config, s: State) {
    var w := s.sweeper;
    && (forall i :: 0 <= i < |s.all| ==> s.all[i].lastActive <= s.clock)
    && (w.Off? <==> cfg.inactivityTimeout <= 0)
    && (!w.Off? && !w.Waiting? ==> w.now <= s.clock)
    && (w.Iterate? ==> FreshExcept(cfg, s, w.now, w.todo, {}))
    && (w.SweepSelect? || w.SweepClose? || w.SweepDelete? ==>
          && FreshExcept(cfg, s, w.now, w.todo, {w.key})
          && Expired(cfg, w.now, w.seen)
          && w.id < |s.all| && w.seen <= s.all[w.id].lastActive)
    && (w.SweepUnlock? ==> FreshExcept(cfg, s, w.now, {}, {}))
  }

  /** Other goroutines only move stamps forward while the sweeper holds the lock. */
  lemma SweepInvFrame(cfg: Config, s: State, t: State)
    requires Inv(s) && SweepInv(cfg, s) && t.sweeper == s.sweeper && s.clock <= t.clock
    requires SweeperHolds(s.sweeper) ==> t.sessions == s.sessions
    requires |s.all| <= |t.all|
    requires forall i :: 0 <= i < |s.all| ==> s.all[i].lastActive <= t.all[i].lastActive
    requires forall i :: 0 <= i < |t.all| ==> t.all[i].lastActive <= t.clock
    ensures SweepInv(cfg, t)
  {
  }

  lemma HandlerSweepInv(cfg: Config, s: State, i: nat, a: HandlerAction)
    requires Inv(s) && SweepInv(cfg, s) && HandlerStep(s, i, a).Some?
    ensures SweepInv(cfg, HandlerStep(s, i, a).value)
  {
    SweepInvFrame(cfg, s, HandlerStep(s, i, a).value);
  }

  lemma ReaderSweepInv(cfg: Config, s: State, a: ReaderAction)
    requires Inv(s) && SweepInv(cfg, s) && ReaderStep(s, a).Some?
    ensures SweepInv(cfg, ReaderStep(s, a).value)
  {
    SweepInvFrame(cfg, s, ReaderStep(s, a).value);
  }

  lemma SweeperSweepInv(cfg: Config, s: State, a: SweeperAction)
    requires Inv(s) && SweepInv(cfg, s) && SweeperStep(cfg, s, a).Some?
    ensures SweepInv(cfg, SweeperStep(cfg, s, a).value)
  {
  }

  lemma {:induction false} RunSweepInv(cfg: Config, start: Time, es: seq<Event>)
    requires Run(cfg, Init(cfg, start), es).Some?
    ensures SweepInv(cfg, Run(cfg, Init(cfg, start), es).value)
  {
    if es != [] {
      var init := es[..|es| - 1];
      RunSweepInv(cfg, start, init);
      InitInv(cfg, start);
      RunInv(cfg, Init(cfg, start), init);
      var s := Run(cfg, Init(cfg, start), init).value;
      match es[|es| - 1]
      case Tick(now) => SweepInvFrame(cfg, s, s.(clock := now));
      case ReaderDoes(a) => ReaderSweepInv(cfg, s, a);
      case SweeperDoes(a) => SweeperSweepInv(cfg, s, a);
      case HandlerDoes(i, a) => HandlerSweepInv(cfg, s, i, a);
    }
  }

  lemma ReachableSweepInv(cfg: Config, s: State)
    requires Reachable(cfg, s)
    ensures Inv(s) && SweepInv(cfg, s)
  {
    ReachableInv(cfg, s);
    var start, es :| Run(cfg, Init(cfg, start), es) == Some(s);
    RunSweepInv(cfg, start, es);
  }

  /**
  When a sweep taken at `now` ends, every session the map still holds was active within the
  timeout before `now`; a session idle for the timeout is out of the map, its channel is closed,
  and it never comes back.
  */
  lemma SweepRemovesExactlyIdle(cfg: Config, s: State, i: nat, es: seq<Event>, t: State)
    requires Reachable(cfg, s) && s.sweeper.SweepUnlock? && i < |s.all| && Run(cfg, s, es) == Some(t)
    ensures InMap(s, i) ==> s.sweeper.now - s.all[i].lastActive < cfg.inactivityTimeout * 1_000_000_000
    ensures s.sweeper.now >= s.all[i].lastActive + cfg.inactivityTimeout * 1_000_000_000 ==>
      s.all[i].Closed() && !InMap(s, i) && i < |t.all| && t.all[i].Closed() && !InMap(t, i)
  {
    ReachableSweepInv(cfg, s);
    assert ChanOk(s, i);
    GoneStaysGone(cfg, s, es, t, i);
  }

  predicate Condemning(w: SweeperPc) {
    w.SweepSelect? || w.SweepClose? || w.SweepDelete?
  }

  /** Event `n` of the run is the visit of `w.key` that read the stamp `w.seen` of session `w.id`. */
  predicate LookedAt(cfg: Config, start: Time, es: seq<Event>, n: nat, w: SweeperPc)
    requires Condemning(w)
  {
    && n < |es| && es[n] == SweeperDoes(Visit(w.key))
    && var u := Run(cfg, Init(cfg, start), es[..n]);
    && u.Some? && w.key in u.value.sessions && u.value.sessions[w.key] == w.id && w.id < |u.value.all|
    && u.value.all[w.id].lastActive == w.seen && u.value.sweeper.Iterate? && u.value.sweeper.now == w.now
  }

  /** The stamp for which a sweep closes and deletes a session was read earlier in the same sweep. */
  lemma {:induction false} CondemnedAfterALook(cfg: Config, start: Time, es: seq<Event>, t: State)
    requires Run(cfg, Init(cfg, start), es) == Some(t) && Condemning(t.sweeper)
    ensures exists n: nat :: LookedAt(cfg, start, es, n, t.sweeper)
  {
    assert es != [];
    var e, init := es[|es| - 1], es[..|es| - 1];
    var mid := Run(cfg, Init(cfg, start), init).value;
    if e.SweeperDoes? && e.w.Visit? {
      assert LookedAt(cfg, start, es, |es| - 1, t.sweeper);
    } else {
      assert SameVisit(mid.sweeper, t.sweeper) by { StepKeepsVisit(cfg, mid, e, t); }
      CondemnedAfterALook(cfg, start, init, mid);
      var n: nat :| LookedAt(cfg, start, init, n, mid.sweeper);
      assert es[..n] == init[..n];
      assert LookedAt(cfg, start, es, n, t.sweeper);
    }
  }

  predicate SameVisit(v: SweeperPc, w: SweeperPc) {
    Condemning(v) && Condemning(w) && v.now == w.now && v.key == w.key && v.id == w.id && v.seen == w.seen
  }

  lemma StepKeepsVisit(cfg: Config, s: State, e: Event, t: State)
    requires Step(cfg, s, e) == Some(t) && Condemning(t.sweeper) && !(e.SweeperDoes? && e.w.Visit?)
    ensures SameVisit(s.sweeper, t.sweeper)
  {
  }

  /**
  A session leaves the map only through its own handler's exit, or through a sweep that found it
  idle for the timeout when it looked; without a timeout, only through its own handler.
  */
  lemma RemovalHasACause(cfg: Config, s: State, e: Event, t: State, i: nat)
    requires Reachable(cfg, s) && Step(cfg, s, e) == Some(t) && i < |s.all| <= |t.all|
    requires InMap(s, i) && !InMap(t, i)
    ensures s.all[i].Closed()
    ensures e != HandlerDoes(i, Proceed) ==>
      && e == SweeperDoes(Go) && cfg.inactivityTimeout > 0
      && s.sweeper.SweepDelete? && s.sweeper.id == i
      && s.sweeper.now - s.sweeper.seen >= cfg.inactivityTimeout * 1_000_000_000
      && s.sweeper.seen <= s.all[i].lastActive
  {
    ReachableSweepInv(cfg, s);
    StepEffect(cfg, s, e, t, i);
    assert HandlerOk(s, i);
  }
}
