/** When a datagram can meet a closed connection: between the unlock of getOrCreateSession and the write. */
module UdpDelivery {
  import opened Wrappers
  import opened UdpSessions
  import opened UdpInvariant
  import opened UdpSafety
  import opened UdpEnding

  /** As long as the reader holds the lock, the session it found or created is in the map. */
  predicate EntryHeld(s: State) {
    s.reader.UnlockSend? ==> s.reader.id < |s.all| && InMap(s, s.reader.id)
  }

  lemma StepEntryHeld(cfg: Config, s: State, e: Event, t: State)
    requires Inv(s) && EntryHeld(s) && Step(cfg, s, e) == Some(t)
    ensures EntryHeld(t)
  {
    if !e.ReaderDoes? && s.reader.UnlockSend? {
      StepEffect(cfg, s, e, t, s.reader.id);
    }
  }

  lemma {:induction false} RunEntryHeld(cfg: Config, start: Time, es: seq<Event>, t: State)
    requires Run(cfg, Init(cfg, start), es) == Some(t)
    ensures EntryHeld(t)
  {
    if es != [] {
      var init := es[..|es| - 1];
      var mid := Run(cfg, Init(cfg, start), init).value;
      RunEntryHeld(cfg, start, init, mid);
      InitInv(cfg, start);
      RunInv(cfg, Init(cfg, start), init);
      StepEntryHeld(cfg, mid, es[|es| - 1], t);
    }
  }

  /** Session `id` was active at `stamp` or later, and so was it when a sweep condemned it. */
  predicate ActiveSince(s: State, id: nat, stamp: Time) {
    && id < |s.all| && stamp <= s.all[id].lastActive
    && (Condemning(s.sweeper) && s.sweeper.id == id ==> stamp <= s.sweeper.seen)
  }

  lemma StampsGrow(cfg: Config, s: State, e: Event, t: State, id: nat)
    requires Inv(s) && id < |s.all| && s.all[id].lastActive <= s.clock && Step(cfg, s, e) == Some(t)
    ensures id < |t.all| && s.all[id].lastActive <= t.all[id].lastActive
  {
    match e
    case Tick(_) =>
    case ReaderDoes(a) =>
    case SweeperDoes(a) => SweeperEffect(cfg, s, a, t, id);
    case HandlerDoes(i, a) =>
      if i != id { HandlerTouchesOnlyItsSession(s, i, a, t, id); }
  }

  lemma StepKeepsSessions(cfg: Config, s: State, e: Event, t: State)
    requires Step(cfg, s, e) == Some(t)
    ensures |s.all| <= |t.all|
  {
  }

  lemma StepActiveSince(cfg: Config, s: State, e: Event, t: State, id: nat, stamp: Time)
    requires Inv(s) && ActiveSince(s, id, stamp) && s.all[id].lastActive <= s.clock && Step(cfg, s, e) == Some(t)
    ensures ActiveSince(t, id, stamp)
  {
    StampsGrow(cfg, s, e, t, id);
  }

  /** The step takes session `id` out of the map: its own handler's exit, or a sweep taken a timeout after `stamp`. */
  predicate Removes(cfg: Config, s: State, e: Event, t: State, id: nat, stamp: Time) {
    && id < |s.all| && id < |t.all| && InMap(s, id) && !InMap(t, id)
    && (|| e == HandlerDoes(id, Proceed)
        || (e == SweeperDoes(Go) && cfg.inactivityTimeout > 0 && s.sweeper.SweepDelete?
            && s.sweeper.now - stamp >= cfg.inactivityTimeout * 1_000_000_000))
  }

  lemma StepRemoves(cfg: Config, s: State, e: Event, t: State, id: nat, stamp: Time)
    requires Reachable(cfg, s) && ActiveSince(s, id, stamp) && Step(cfg, s, e) == Some(t)
    requires InMap(s, id) && id < |t.all| && !InMap(t, id) && |s.all| <= |t.all|
    ensures Removes(cfg, s, e, t, id, stamp)
  {
    RemovalHasACause(cfg, s, e, t, id);
  }

  /** Event `n` of the run removes session `id`. */
  predicate RemovedAt(cfg: Config, s: State, es: seq<Event>, n: nat, id: nat, stamp: Time) {
    && n < |es| && Run(cfg, s, es[..n]).Some? && Run(cfg, s, es[..n + 1]).Some?
    && Removes(cfg, Run(cfg, s, es[..n]).value, es[n], Run(cfg, s, es[..n + 1]).value, id, stamp)
  }

  lemma LastRemoves(cfg: Config, s: State, es: seq<Event>, mid: State, t: State, id: nat, stamp: Time)
    requires es != [] && Run(cfg, s, es[..|es| - 1]) == Some(mid) && Run(cfg, s, es) == Some(t)
    requires Removes(cfg, mid, es[|es| - 1], t, id, stamp)
    ensures RemovedAt(cfg, s, es, |es| - 1, id, stamp)
  {
    assert es[..|es|] == es;
  }

  lemma {:induction false} GoneHasACause(cfg: Config, s: State, es: seq<Event>, t: State, id: nat, stamp: Time)
    requires Reachable(cfg, s) && ActiveSince(s, id, stamp) && InMap(s, id) && Run(cfg, s, es) == Some(t)
    ensures Reachable(cfg, t) && ActiveSince(t, id, stamp)
    ensures !InMap(t, id) ==> exists n: nat :: RemovedAt(cfg, s, es, n, id, stamp)
  {
    if es != [] {
      var init, e := es[..|es| - 1], es[|es| - 1];
      var mid := Run(cfg, s, init).value;
      GoneHasACause(cfg, s, init, mid, id, stamp);
      ReachableSweepInv(cfg, mid);
      ReachableStep(cfg, mid, e, t);
      StepActiveSince(cfg, mid, e, t, id, stamp);
      if !InMap(t, id) {
        if InMap(mid, id) {
          StepKeepsSessions(cfg, mid, e, t);
          StepRemoves(cfg, mid, e, t, id, stamp);
          LastRemoves(cfg, s, es, mid, t, id, stamp);
        } else {
          var n: nat :| RemovedAt(cfg, s, init, n, id, stamp);
          assert es[..n] == init[..n] && es[..n + 1] == init[..n + 1];
          assert RemovedAt(cfg, s, es, n, id, stamp);
        }
      }
    }
  }

  /**
  The reader is about to unlock with a session for its datagram, stamped under the lock. If later, at
  the write or at any other time, that session's connection is found closed, then in between the
  session's own handler took it out of the map, or a sweep did whose time is at least the timeout
  after that stamp.
  */
  lemma WriteAfterCloseHasACause(cfg: Config, s: State, es: seq<Event>, t: State)
    requires Reachable(cfg, s) && s.reader.UnlockSend? && Run(cfg, s, es) == Some(t)
    requires s.reader.id < |t.all| && t.all[s.reader.id].connCloses == 1
    ensures s.reader.id < |s.all| && s.all[s.reader.id].connCloses == 0
    ensures exists n: nat :: RemovedAt(cfg, s, es, n, s.reader.id, s.all[s.reader.id].lastActive)
  {
    var id := s.reader.id;
    var start, es0 :| Run(cfg, Init(cfg, start), es0) == Some(s);
    RunEntryHeld(cfg, start, es0, s);
    ReachableInv(cfg, s);
    assert HandlerOk(s, id);
    GoneHasACause(cfg, s, es, t, id, s.all[id].lastActive);
    ReachableInv(cfg, t);
    assert HandlerOk(t, id);
  }
}
