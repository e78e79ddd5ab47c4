/**
When a session counts as active, and why a handler ends: what the stamps of a run mean in terms of
its events, so that a session that a sweep finds idle has been silent in both directions.
*/
module UdpActivity {
  import opened Wrappers
  import opened UdpSessions
  import opened UdpInvariant
  import opened UdpSafety
  import opened UdpLiveness
  import opened UdpDelivery

  // ---------------------------------------------------------------- why a handler leaves its loop

  /**
  A handler leaves its loop through a failing read, resolution or write, or because its channel is
  closed; a read that merely times out on an open channel goes on.
  */
  lemma HandlerLeavesForACause(cfg: Config, s: State, e: Event, t: State, i: nat)
    requires Inv(s) && Step(cfg, s, e) == Some(t) && i < |s.all| && i < |t.all|
    requires !Exiting(s.all[i].pc) && Exiting(t.all[i].pc)
    ensures t.all[i].pc == ExitLock
    ensures s.all[i].Closed() || e == HandlerDoes(i, ReadError) || e == HandlerDoes(i, Fail)
  {
    if !(e.HandlerDoes? && e.id == i) { OtherStep(cfg, s, e, t, i); }
  }

  /** Conversely, on an open channel a timeout leads back to the top of the loop, and a delivered payload too. */
  lemma OpenHandlerGoesOn(s: State, i: nat, a: HandlerAction, t: State)
    requires HandlerStep(s, i, a) == Some(t) && i < |s.all| && !s.all[i].Closed() && a != ReadError && a != Fail
    requires !Exiting(s.all[i].pc)
    ensures i < |t.all| && !Exiting(t.all[i].pc)
    ensures s.all[i].pc.Poll? ==> t.all[i].pc.Arm?
    ensures s.all[i].pc.TimedOut? || s.all[i].pc.Forward? ==> t.all[i].pc.Poll?
  {
  }

  /** And a failing read, resolution or write always ends the loop. */
  lemma FailureEndsTheLoop(s: State, i: nat, a: HandlerAction, t: State)
    requires HandlerStep(s, i, a) == Some(t) && (a == ReadError || a == Fail)
    ensures i < |t.all| && t.all[i].pc == ExitLock
  {
  }

  // ---------------------------------------------------------------- the stamp

  /** The step at which session `i` is stamped: found or created under the lock, before a write, after a read. */
  predicate Stamps(s: State, e: Event, i: nat) {
    || (e == ReaderDoes(Next) && s.reader.Touch? && s.reader.id == i)
    || (e == ReaderDoes(Next) && s.reader.StampSend? && s.reader.id == i)
    || (e == HandlerDoes(i, Proceed) && i < |s.all| && s.all[i].pc.Stamp?)
  }

  lemma ReaderStamps(s: State, a: ReaderAction, t: State, i: nat)
    requires Inv(s) && ReaderStep(s, a) == Some(t) && i < |t.all|
    ensures i < |s.all| ==> t.all[i].lastActive == if Stamps(s, ReaderDoes(a), i) then s.clock else s.all[i].lastActive
    ensures i >= |s.all| ==> t.all[i].lastActive == s.clock
  {
  }

  lemma HandlerStamps(s: State, j: nat, a: HandlerAction, t: State, i: nat)
    requires Inv(s) && HandlerStep(s, j, a) == Some(t) && i < |t.all|
    ensures |t.all| == |s.all|
    ensures t.all[i].lastActive == if Stamps(s, HandlerDoes(j, a), i) then s.clock else s.all[i].lastActive
  {
    if j != i && i < |s.all| { HandlerTouchesOnlyItsSession(s, j, a, t, i); }
  }

  /** Those steps set the stamp to the time of the step, and no other step changes it; a new session starts with it. */
  lemma StampedExactly(cfg: Config, s: State, e: Event, t: State, i: nat)
    requires Inv(s) && Step(cfg, s, e) == Some(t) && i < |t.all|
    ensures i < |s.all| ==> t.all[i].lastActive == if Stamps(s, e, i) then s.clock else s.all[i].lastActive
    ensures i >= |s.all| ==> t.all[i].lastActive == s.clock
  {
    match e
    case Tick(_) =>
    case ReaderDoes(a) => ReaderStamps(s, a, t, i);
    case SweeperDoes(a) => if i < |s.all| { SweeperEffect(cfg, s, a, t, i); }
    case HandlerDoes(j, a) => HandlerStamps(s, j, a, t, i);
  }

  // ---------------------------------------------------------------- runs and their prefixes

  /** The state of a run before its event `n`. */
  function At(cfg: Config, start: Time, es: seq<Event>, n: nat): State
    requires Run(cfg, Init(cfg, start), es).Some? && n <= |es|
  {
    PrefixRuns(cfg, start, es, n);
    Run(cfg, Init(cfg, start), es[..n]).value
  }

  lemma {:induction false} PrefixRuns(cfg: Config, start: Time, es: seq<Event>, n: nat)
    requires Run(cfg, Init(cfg, start), es).Some? && n <= |es|
    ensures Run(cfg, Init(cfg, start), es[..n]).Some?
  {
    if n == |es| {
      assert es[..n] == es;
    } else {
      assert es[..|es| - 1][..n] == es[..n];
      PrefixRuns(cfg, start, es[..|es| - 1], n);
    }
  }

  lemma AtStep(cfg: Config, start: Time, es: seq<Event>, n: nat)
    requires Run(cfg, Init(cfg, start), es).Some? && n < |es|
    ensures Step(cfg, At(cfg, start, es, n), es[n]) == Some(At(cfg, start, es, n + 1))
    ensures Inv(At(cfg, start, es, n)) && SweepInv(cfg, At(cfg, start, es, n))
  {
    PrefixRuns(cfg, start, es, n);
    PrefixRuns(cfg, start, es, n + 1);
    assert es[..n + 1][..n] == es[..n];
    InitInv(cfg, start);
    RunInv(cfg, Init(cfg, start), es[..n]);
    RunSweepInv(cfg, start, es[..n]);
  }

  // ---------------------------------------------------------------- waiting times

  /** Event `k` set the deadline of the read that the handler of `i` waits in before event `m`. */
  predicate ReadSince(cfg: Config, start: Time, es: seq<Event>, i: nat, k: nat, m: nat)
    requires Run(cfg, Init(cfg, start), es).Some? && m <= |es|
  {
    && k < m && es[k] == HandlerDoes(i, Proceed)
    && i < |At(cfg, start, es, k).all| && At(cfg, start, es, k).all[i].pc.Arm?
    && i < |At(cfg, start, es, m).all| && At(cfg, start, es, m).all[i].pc == Reading(At(cfg, start, es, k).clock + 5_000_000_000)
  }

  lemma ReadingStep(cfg: Config, s: State, e: Event, t: State, i: nat)
    requires Inv(s) && Step(cfg, s, e) == Some(t) && i < |t.all| && t.all[i].pc.Reading?
    ensures i < |s.all|
    ensures if e.HandlerDoes? && e.id == i
            then e.h == Proceed && s.all[i].pc.Arm? && t.all[i].pc == Reading(s.clock + 5_000_000_000)
            else s.all[i].pc == t.all[i].pc
  {
    if i < |s.all| && !(e.HandlerDoes? && e.id == i) { OtherStep(cfg, s, e, t, i); }
  }

  lemma {:induction false} ReadingHasABegin(cfg: Config, start: Time, es: seq<Event>, i: nat, m: nat)
    requires Run(cfg, Init(cfg, start), es).Some? && m <= |es|
    requires i < |At(cfg, start, es, m).all| && At(cfg, start, es, m).all[i].pc.Reading?
    ensures exists k: nat :: ReadSince(cfg, start, es, i, k, m)
    decreases m
  {
    assert es[..0] == [];
    assert m > 0;
    AtStep(cfg, start, es, m - 1);
    ReadingStep(cfg, At(cfg, start, es, m - 1), es[m - 1], At(cfg, start, es, m), i);
    if es[m - 1].HandlerDoes? && es[m - 1].id == i {
      assert ReadSince(cfg, start, es, i, m - 1, m);
    } else {
      ReadingHasABegin(cfg, start, es, i, m - 1);
      var k: nat :| ReadSince(cfg, start, es, i, k, m - 1);
      assert ReadSince(cfg, start, es, i, k, m);
    }
  }

  /** A read times out only five seconds after it began. */
  lemma TimeoutTakesFiveSeconds(cfg: Config, start: Time, es: seq<Event>, i: nat, m: nat)
    requires Run(cfg, Init(cfg, start), es).Some? && m < |es| && es[m] == HandlerDoes(i, Timeout)
    ensures exists k: nat :: ReadSince(cfg, start, es, i, k, m) && At(cfg, start, es, m).clock - At(cfg, start, es, k).clock >= 5_000_000_000
  {
    AtStep(cfg, start, es, m);
    ReadingHasABegin(cfg, start, es, i, m);
    var k: nat :| ReadSince(cfg, start, es, i, k, m);
    assert At(cfg, start, es, m).clock - At(cfg, start, es, k).clock >= 5_000_000_000;
  }

  predicate Sweeping(w: SweeperPc) {
    !w.Off? && !w.Waiting?
  }

  lemma SweepTimeStep(cfg: Config, s: State, e: Event, t: State)
    requires Step(cfg, s, e) == Some(t) && Sweeping(t.sweeper)
    ensures if s.sweeper == Waiting then e == SweeperDoes(Go) && t.sweeper.now == s.clock
            else Sweeping(s.sweeper) && t.sweeper.now == s.sweeper.now
  {
  }

  /** Event `k` is the tick that began the sweep under way before event `m`, and took its time. */
  predicate SweepSince(cfg: Config, start: Time, es: seq<Event>, k: nat, m: nat)
    requires Run(cfg, Init(cfg, start), es).Some? && m <= |es|
  {
    && k < m && es[k] == SweeperDoes(Go) && At(cfg, start, es, k).sweeper == Waiting
    && Sweeping(At(cfg, start, es, m).sweeper)
    && At(cfg, start, es, m).sweeper.now == At(cfg, start, es, k).clock
  }

  /** The time of a sweep is the time at which its tick came, before it took the lock. */
  lemma {:induction false} SweepHasATime(cfg: Config, start: Time, es: seq<Event>, m: nat)
    requires Run(cfg, Init(cfg, start), es).Some? && m <= |es|
    requires Sweeping(At(cfg, start, es, m).sweeper)
    ensures exists k: nat :: SweepSince(cfg, start, es, k, m)
    decreases m
  {
    assert es[..0] == [];
    assert m > 0;
    var u := At(cfg, start, es, m - 1);
    AtStep(cfg, start, es, m - 1);
    SweepTimeStep(cfg, u, es[m - 1], At(cfg, start, es, m));
    if u.sweeper == Waiting {
      assert SweepSince(cfg, start, es, m - 1, m);
    } else {
      SweepHasATime(cfg, start, es, m - 1);
      var k: nat :| SweepSince(cfg, start, es, k, m - 1);
      assert SweepSince(cfg, start, es, k, m);
    }
  }

  // ---------------------------------------------------------------- payloads of the remote side

  /** `n` is a read of a payload by the handler of `i`, and that handler moved again before event `m`. */
  predicate Heard(es: seq<Event>, i: nat, n: nat, m: nat) {
    && n < m <= |es| && es[n].HandlerDoes? && es[n].id == i && es[n].h.Data?
    && exists k :: n < k < m && es[k].HandlerDoes? && es[k].id == i
  }

  /** Since the read at time `at`: the payload waits for its stamp, or the session is stamped. */
  predicate HeardAt(s: State, i: nat, at: Time) {
    && i < |s.all| && at <= s.clock && (s.all[i].pc.Stamp? || at <= s.all[i].lastActive)
  }

  lemma HeardStep(cfg: Config, s: State, e: Event, t: State, i: nat, at: Time)
    requires Inv(s) && SweepInv(cfg, s) && Step(cfg, s, e) == Some(t) && HeardAt(s, i, at)
    ensures HeardAt(t, i, at)
    ensures e.HandlerDoes? && e.id == i ==> at <= t.all[i].lastActive
    ensures at <= s.all[i].lastActive ==> at <= t.all[i].lastActive
  {
    StampsGrow(cfg, s, e, t, i);
    if !(e.HandlerDoes? && e.id == i) { OtherStep(cfg, s, e, t, i); }
  }

  lemma ReadBegins(cfg: Config, s: State, i: nat, p: Payload, t: State)
    requires HandlerStep(s, i, Data(p)) == Some(t)
    ensures HeardAt(t, i, s.clock)
  {
  }

  lemma HeardBefore(es: seq<Event>, i: nat, n: nat, m: nat)
    requires n + 1 < m && Heard(es, i, n, m) && !(es[m - 1].HandlerDoes? && es[m - 1].id == i)
    ensures Heard(es, i, n, m - 1)
  {
    var k :| n < k < m && es[k].HandlerDoes? && es[k].id == i;
    assert k < m - 1;
  }

  lemma {:induction false} PayloadStamped(cfg: Config, start: Time, es: seq<Event>, i: nat, n: nat, m: nat)
    requires Run(cfg, Init(cfg, start), es).Some? && n < m <= |es|
    requires es[n].HandlerDoes? && es[n].id == i && es[n].h.Data?
    ensures HeardAt(At(cfg, start, es, m), i, At(cfg, start, es, n).clock)
    ensures Heard(es, i, n, m) ==> At(cfg, start, es, n).clock <= At(cfg, start, es, m).all[i].lastActive
    decreases m
  {
    var at, v, t := At(cfg, start, es, n).clock, At(cfg, start, es, m - 1), At(cfg, start, es, m);
    AtStep(cfg, start, es, m - 1);
    if m == n + 1 {
      ReadBegins(cfg, v, i, es[n].h.payload, t);
    } else {
      PayloadStamped(cfg, start, es, i, n, m - 1);
      HeardStep(cfg, v, es[m - 1], t, i, at);
      if Heard(es, i, n, m) && !(es[m - 1].HandlerDoes? && es[m - 1].id == i) {
        HeardBefore(es, i, n, m);
      }
    }
  }

  // ---------------------------------------------------------------- datagrams of the client

  /** The reader holds the datagram it received last, and has not yet looked its session up or stamped it. */
  predicate BeforeStamp(r: ReaderPc, src: Addr) {
    (r.WantLock? || r.Lookup? || r.Touch?) && r.src == src
  }

  /** `n` is the receipt of a datagram of `src`, and before event `m` the reader has got past its stamp or its dial. */
  predicate Arrived(cfg: Config, start: Time, es: seq<Event>, src: Addr, n: nat, m: nat)
    requires Run(cfg, Init(cfg, start), es).Some?
  {
    && n < m <= |es| && es[n].ReaderDoes? && es[n].r.Recv? && es[n].r.src == src
    && (BeforeStamp(At(cfg, start, es, m).reader, src) ==>
          |At(cfg, start, es, m).inbox| > |At(cfg, start, es, n).inbox| + 1)
  }

  /** Since the receipt at time `at`, of the datagram with number `k`: it waits for its stamp, or whatever session its source has is stamped. */
  predicate ArrivedAt(s: State, src: Addr, at: Time, k: nat) {
    && at <= s.clock && k < |s.inbox|
    && ((BeforeStamp(s.reader, src) && |s.inbox| == k + 1)
        || (src in s.sessions ==> s.sessions[src] < |s.all| && at <= s.all[s.sessions[src]].lastActive))
  }

  lemma ArrivedStepElsewhere(cfg: Config, s: State, e: Event, t: State, src: Addr, at: Time, k: nat)
    requires Inv(s) && SweepInv(cfg, s) && Step(cfg, s, e) == Some(t) && ArrivedAt(s, src, at, k) && !e.ReaderDoes?
    ensures ArrivedAt(t, src, at, k)
  {
    if src in s.sessions {
      var id := s.sessions[src];
      StampsGrow(cfg, s, e, t, id);
    }
  }

  lemma ArrivedStepReader(cfg: Config, s: State, a: ReaderAction, t: State, src: Addr, at: Time, k: nat)
    requires Inv(s) && SweepInv(cfg, s) && ReaderStep(s, a) == Some(t) && ArrivedAt(s, src, at, k)
    ensures ArrivedAt(t, src, at, k)
  {
    if src in s.sessions {
      StampsGrow(cfg, s, ReaderDoes(a), t, s.sessions[src]);
    }
  }

  lemma ReceiptBegins(s: State, src: Addr, p: Payload, t: State)
    requires ReaderStep(s, Recv(src, p)) == Some(t)
    ensures ArrivedAt(t, src, s.clock, |s.inbox|)
  {
  }

  lemma ArrivedStep(cfg: Config, s: State, e: Event, t: State, src: Addr, at: Time, k: nat)
    requires Inv(s) && SweepInv(cfg, s) && Step(cfg, s, e) == Some(t) && ArrivedAt(s, src, at, k)
    ensures ArrivedAt(t, src, at, k)
  {
    if e.ReaderDoes? {
      ArrivedStepReader(cfg, s, e.r, t, src, at, k);
    } else {
      ArrivedStepElsewhere(cfg, s, e, t, src, at, k);
    }
  }

  lemma {:induction false} DatagramStamped(cfg: Config, start: Time, es: seq<Event>, src: Addr, n: nat, m: nat)
    requires Run(cfg, Init(cfg, start), es).Some? && n < m <= |es|
    requires es[n].ReaderDoes? && es[n].r.Recv? && es[n].r.src == src
    ensures ArrivedAt(At(cfg, start, es, m), src, At(cfg, start, es, n).clock, |At(cfg, start, es, n).inbox|)
    decreases m
  {
    var u, v, t := At(cfg, start, es, n), At(cfg, start, es, m - 1), At(cfg, start, es, m);
    AtStep(cfg, start, es, m - 1);
    if m == n + 1 {
      ReceiptBegins(v, src, es[n].r.payload, t);
    } else {
      DatagramStamped(cfg, start, es, src, n, m - 1);
      ArrivedStep(cfg, v, es[m - 1], t, src, u.clock, |u.inbox|);
    }
  }

  // ---------------------------------------------------------------- idle means silent

  /**
  In every run and at every point of it, the stamp of the session that the map holds for a client is
  at least the time of every datagram of that client that the reader is done with, and of every
  payload from the remote side that its handler has picked up.
  */
  lemma StampCoversActivity(cfg: Config, start: Time, es: seq<Event>, src: Addr, n: nat, m: nat)
    requires Run(cfg, Init(cfg, start), es).Some? && n < m <= |es| && src in At(cfg, start, es, m).sessions
    ensures At(cfg, start, es, m).sessions[src] < |At(cfg, start, es, m).all|
    ensures Arrived(cfg, start, es, src, n, m) || Heard(es, At(cfg, start, es, m).sessions[src], n, m) ==>
      At(cfg, start, es, n).clock <= At(cfg, start, es, m).all[At(cfg, start, es, m).sessions[src]].lastActive
  {
    PrefixRuns(cfg, start, es, m);
    InitInv(cfg, start);
    RunInv(cfg, Init(cfg, start), es[..m]);
    var id := At(cfg, start, es, m).sessions[src];
    if Arrived(cfg, start, es, src, n, m) { DatagramStamped(cfg, start, es, src, n, m); }
    if Heard(es, id, n, m) { PayloadStamped(cfg, start, es, id, n, m); }
  }

  /** Event `m` is the look for which the sweep condemns a session, and until then the session was silent for the timeout. */
  ghost predicate SilentAtLook(cfg: Config, start: Time, es: seq<Event>, m: nat, w: SweeperPc)
    requires Run(cfg, Init(cfg, start), es).Some? && Condemning(w)
  {
    && LookedAt(cfg, start, es, m, w) && m <= |es|
    && forall n :: 0 <= n < m && (Arrived(cfg, start, es, w.key, n, m) || Heard(es, w.id, n, m)) ==>
         w.now - At(cfg, start, es, n).clock >= cfg.inactivityTimeout * 1_000_000_000
  }

  /**
  A session that a sweep closes and deletes had, when the sweep looked at it, neither a datagram of
  its client nor a payload of the remote side within the timeout before the sweep's time.
  */
  lemma SweptSessionWasSilent(cfg: Config, start: Time, es: seq<Event>, t: State)
    requires Run(cfg, Init(cfg, start), es) == Some(t) && Condemning(t.sweeper)
    ensures exists m: nat :: SilentAtLook(cfg, start, es, m, t.sweeper)
  {
    CondemnedAfterALook(cfg, start, es, t);
    var w := t.sweeper;
    var m: nat :| LookedAt(cfg, start, es, m, w);
    RunSweepInv(cfg, start, es);
    var u := At(cfg, start, es, m);
    forall n | 0 <= n < m && (Arrived(cfg, start, es, w.key, n, m) || Heard(es, w.id, n, m))
      ensures w.now - At(cfg, start, es, n).clock >= cfg.inactivityTimeout * 1_000_000_000
    {
      StampCoversActivity(cfg, start, es, w.key, n, m);
    }
    assert SilentAtLook(cfg, start, es, m, w);
  }
}
