/**
What every step of the UDP machine keeps: who holds the lock, which sessions the map holds, and
when a close channel or a connection is closed.
*/
module UdpInvariant {
  import opened Wrappers
  import opened UdpSessions

  predicate InMap(s: State, i: nat)
    requires i < |s.all|
  {
    s.all[i].src in s.sessions && s.sessions[s.all[i].src] == i
  }

  predicate HandlerHolds(pc: HandlerPc) {
    pc in {ExitCheck, ExitSelect, ExitClose, ExitDelete, ExitUnlock}
  }

  predicate ReaderHolds(pc: ReaderPc) {
    pc.Lookup? || pc.Touch? || pc.Dial? || pc.Create? || pc.UnlockDrop? || pc.UnlockSend?
  }

  predicate SweeperHolds(pc: SweeperPc) {
    pc.Iterate? || pc.SweepSelect? || pc.SweepClose? || pc.SweepDelete? || pc.SweepUnlock?
  }

  /** The mutex is held by exactly the goroutine that stands in a critical section. */
  ghost predicate LockOk(s: State) {
    && (s.lock == Some(ReaderOwner) <==> ReaderHolds(s.reader))
    && (s.lock == Some(SweeperOwner) <==> SweeperHolds(s.sweeper))
    && (forall i :: 0 <= i < |s.all| ==> (s.lock == Some(HandlerOwner(i)) <==> HandlerHolds(s.all[i].pc)))
    && (s.lock.Some? && s.lock.value.HandlerOwner? ==> s.lock.value.id < |s.all|)
  }

  ghost predicate MapOk(s: State) {
    forall k :: k in s.sessions ==> s.sessions[k] < |s.all| && s.all[s.sessions[k]].src == k
  }

  /** Some goroutine has closed the channel of session `i` and is about to delete it from the map. */
  predicate Deleting(s: State, i: nat)
    requires i < |s.all|
  {
    s.all[i].pc == ExitDelete || (s.sweeper.SweepDelete? && s.sweeper.id == i)
  }

  /** The close channel of session `i` against its presence in the map. */
  predicate ChanOk(s: State, i: nat)
    requires i < |s.all|
  {
    && s.all[i].chanCloses <= 1
    && (!s.all[i].Closed() ==> InMap(s, i))
    && (s.all[i].Closed() && InMap(s, i) ==> Deleting(s, i))
  }

  predicate HandlerOk(s: State, i: nat)
    requires i < |s.all|
  {
    var pc := s.all[i].pc;
    && (pc in {ExitSelect, ExitClose, ExitDelete} ==> InMap(s, i))
    && (pc == ExitClose ==> !s.all[i].Closed())
    && (pc == ExitDelete ==> s.all[i].Closed())
    && (pc in {ExitUnlock, CloseConn, Done} ==> !InMap(s, i))
    && s.all[i].connCloses == (if pc == Done then 1 else 0)
  }

  /** Session `i` is the newest one created for `src`. */
  ghost predicate Newest(s: State, src: Addr, i: nat) {
    && i < |s.all|
    && s.all[i].src == src
    && forall j :: i < j < |s.all| ==> s.all[j].src != src
  }

  ghost predicate ReaderOk(s: State) {
    var r := s.reader;
    && (r.Touch? ==> r.src in s.sessions && s.sessions[r.src] == r.id)
    && (r.Dial? || r.Create? ==> r.src !in s.sessions)
    && (r.Touch? || r.UnlockSend? || r.StampSend? || r.Send? ==> Newest(s, r.src, r.id))
    && (forall k :: k in s.sessions ==> Newest(s, k, s.sessions[k]))
  }

  predicate SweeperOk(s: State) {
    var w := s.sweeper;
    && (w.SweepSelect? || w.SweepClose? || w.SweepDelete? ==>
          w.key in s.sessions && s.sessions[w.key] == w.id && w.id < |s.all| && w.key !in w.todo)
    && (w.SweepClose? ==> !s.all[w.id].Closed())
    && (w.SweepDelete? ==> s.all[w.id].Closed())
    && (w.Iterate? || w.SweepSelect? || w.SweepClose? || w.SweepDelete? ==> w.todo <= s.sessions.Keys)
  }

  ghost predicate Inv(s: State) {
    && LockOk(s)
    && MapOk(s)
    && ReaderOk(s)
    && SweeperOk(s)
    && (forall i :: 0 <= i < |s.all| ==> ChanOk(s, i) && HandlerOk(s, i))
  }

  // ---------------------------------------------------------------- preservation

  lemma InitInv(cfg: Config, start: Time)
    ensures Inv(Init(cfg, start))
  {
  }

  lemma TickInv(s: State, now: Time)
    requires Inv(s)
    ensures Inv(s.(clock := now))
  {
    var t := s.(clock := now);
    forall j | 0 <= j < |t.all| ensures ChanOk(t, j) && HandlerOk(t, j) {
      if j < |s.all| { assert ChanOk(s, j); }
    }
  }

  /** The handler stands outside the removal, so it owns neither the lock nor the map entry. */
  predicate InLoop(pc: HandlerPc) {
    !Exiting(pc) || pc == ExitLock
  }

  /** A change to a session that touches neither its channel nor its connection. */
  predicate Quiet(h: Session, h': Session) {
    && h'.src == h.src
    && h'.chanCloses == h.chanCloses
    && h'.connCloses == h.connCloses
    && (h'.pc == h.pc || (InLoop(h.pc) && InLoop(h'.pc)))
  }

  ghost predicate SameSources(s: State, t: State) {
    |t.all| == |s.all| && forall j :: 0 <= j < |s.all| ==> t.all[j].src == s.all[j].src
  }

  /** The reader's facts depend on the sources of the sessions, the map and its own counter only. */
  lemma ReaderOkFrame(s: State, t: State)
    requires ReaderOk(s) && SameSources(s, t) && t.reader == s.reader && t.sessions == s.sessions
    ensures ReaderOk(t)
  {
    assert forall k, n :: Newest(s, k, n) ==> Newest(t, k, n);
  }

  lemma QuietInv(s: State, i: nat, h: Session)
    requires Inv(s) && i < |s.all| && Quiet(s.all[i], h)
    ensures Inv(s.(all := s.all[i := h]))
  {
    var t := s.(all := s.all[i := h]);
    ReaderOkFrame(s, t);
    forall j | 0 <= j < |t.all| ensures ChanOk(t, j) && HandlerOk(t, j) {
      assert ChanOk(s, j);
    }
  }

  lemma LoopStepInv(s: State, i: nat, a: HandlerAction)
    requires Inv(s) && i < |s.all| && !Exiting(s.all[i].pc) && LoopStep(s, i, a).Some?
    ensures Inv(LoopStep(s, i, a).value)
  {
    var t := LoopStep(s, i, a).value;
    assert t == s.(all := s.all[i := t.all[i]]);
    QuietInv(s, i, t.all[i]);
  }

  // The deferred exit of a handler, access by access.

  lemma ExitLockInv(s: State, i: nat)
    requires Inv(s) && i < |s.all| && s.all[i].pc in {ExitLock, ExitUnlock} && ExitStep(s, i, Proceed).Some?
    ensures Inv(ExitStep(s, i, Proceed).value)
  {
    var t := ExitStep(s, i, Proceed).value;
    ReaderOkFrame(s, t);
    forall j | 0 <= j < |t.all| ensures ChanOk(t, j) && HandlerOk(t, j) {
      assert ChanOk(s, j);
    }
  }

  lemma ExitMoveInv(s: State, i: nat)
    requires Inv(s) && i < |s.all| && s.all[i].pc in {ExitCheck, ExitSelect, CloseConn}
    ensures Inv(ExitStep(s, i, Proceed).value)
  {
    var t := ExitStep(s, i, Proceed).value;
    assert ChanOk(s, i) && HandlerOk(s, i);
    ReaderOkFrame(s, t);
    forall j | 0 <= j < |t.all| ensures ChanOk(t, j) && HandlerOk(t, j) {
      assert ChanOk(s, j);
    }
  }

  lemma ExitCloseInv(s: State, i: nat)
    requires Inv(s) && i < |s.all| && s.all[i].pc == ExitClose
    ensures Inv(ExitStep(s, i, Proceed).value)
  {
    var t := ExitStep(s, i, Proceed).value;
    assert ChanOk(s, i) && HandlerOk(s, i);
    ReaderOkFrame(s, t);
    forall j | 0 <= j < |t.all| ensures ChanOk(t, j) && HandlerOk(t, j) {
      assert ChanOk(s, j);
    }
  }

  lemma ExitDeleteInv(s: State, i: nat)
    requires Inv(s) && i < |s.all| && s.all[i].pc == ExitDelete
    ensures Inv(ExitStep(s, i, Proceed).value)
  {
    var t := ExitStep(s, i, Proceed).value;
    assert ChanOk(s, i) && HandlerOk(s, i);
    assert forall k, n :: Newest(s, k, n) ==> Newest(t, k, n);
    forall j | 0 <= j < |t.all| ensures ChanOk(t, j) && HandlerOk(t, j) {
      assert ChanOk(s, j);
    }
  }

  lemma ExitStepInv(s: State, i: nat, a: HandlerAction)
    requires Inv(s) && i < |s.all| && Exiting(s.all[i].pc) && ExitStep(s, i, a).Some?
    ensures Inv(ExitStep(s, i, a).value)
  {
    match s.all[i].pc
    case ExitClose => ExitCloseInv(s, i);
    case ExitDelete => ExitDeleteInv(s, i);
    case ExitLock => ExitLockInv(s, i);
    case ExitUnlock => ExitLockInv(s, i);
    case _ => ExitMoveInv(s, i);
  }

  // The reader.

  lemma ReaderMoveInv(s: State, t: State)
    requires Inv(s) && t.all == s.all && t.sessions == s.sessions && t.sweeper == s.sweeper
    requires LockOk(t) && ReaderOk(t)
    ensures Inv(t)
  {
    forall j | 0 <= j < |t.all| ensures ChanOk(t, j) && HandlerOk(t, j) {
      assert ChanOk(s, j);
    }
  }

  lemma ReaderCreateInv(s: State)
    requires Inv(s) && s.reader.Create?
    ensures Inv(ReaderStep(s, Next).value)
  {
    var t := ReaderStep(s, Next).value;
    forall k | k in t.sessions ensures Newest(t, k, t.sessions[k]) {
      assert k != s.reader.src ==> Newest(s, k, s.sessions[k]);
    }
    forall j | 0 <= j < |t.all| ensures ChanOk(t, j) && HandlerOk(t, j) {
      if j < |s.all| { assert ChanOk(s, j); }
    }
  }

  lemma ReaderStampInv(s: State)
    requires Inv(s) && (s.reader.Touch? || s.reader.StampSend? || s.reader.Send?)
    ensures Inv(ReaderStep(s, Next).value)
  {
    var t := ReaderStep(s, Next).value;
    QuietInv(s, s.reader.id, t.all[s.reader.id]);
    ReaderMoveInv(s.(all := t.all), t);
  }

  lemma ReaderStepInv(s: State, a: ReaderAction)
    requires Inv(s) && ReaderStep(s, a).Some?
    ensures Inv(ReaderStep(s, a).value)
  {
    var t := ReaderStep(s, a).value;
    if s.reader.Create? {
      ReaderCreateInv(s);
    } else if s.reader.Touch? || s.reader.StampSend? || s.reader.Send? {
      ReaderStampInv(s);
    } else {
      ReaderMoveInv(s, t);
    }
  }

  // The sweeper.

  lemma SweeperMoveInv(s: State, t: State)
    requires Inv(s) && t.all == s.all && t.sessions == s.sessions && t.reader == s.reader
    requires LockOk(t) && SweeperOk(t) && !s.sweeper.SweepDelete?
    ensures Inv(t)
  {
    forall j | 0 <= j < |t.all| ensures ChanOk(t, j) && HandlerOk(t, j) {
      assert ChanOk(s, j);
    }
  }

  lemma SweeperCloseInv(cfg: Config, s: State)
    requires Inv(s) && s.sweeper.SweepClose?
    ensures Inv(SweeperStep(cfg, s, Go).value)
  {
    var t := SweeperStep(cfg, s, Go).value;
    ReaderOkFrame(s, t);
    forall j | 0 <= j < |t.all| ensures ChanOk(t, j) && HandlerOk(t, j) {
      assert ChanOk(s, j);
    }
  }

  lemma SweeperDeleteInv(cfg: Config, s: State)
    requires Inv(s) && s.sweeper.SweepDelete?
    ensures Inv(SweeperStep(cfg, s, Go).value)
  {
    var t := SweeperStep(cfg, s, Go).value;
    assert forall k, n :: Newest(s, k, n) ==> Newest(t, k, n);
    forall j | 0 <= j < |t.all| ensures ChanOk(t, j) && HandlerOk(t, j) {
      assert ChanOk(s, j);
    }
  }

  lemma SweeperStepInv(cfg: Config, s: State, a: SweeperAction)
    requires Inv(s) && SweeperStep(cfg, s, a).Some?
    ensures Inv(SweeperStep(cfg, s, a).value)
  {
    var t := SweeperStep(cfg, s, a).value;
    match s.sweeper
    case SweepClose(_, _, _, _, _) => SweeperCloseInv(cfg, s);
    case SweepDelete(_, _, _, _, _) => SweeperDeleteInv(cfg, s);
    case _ => SweeperMoveInv(s, t);
  }

  lemma StepInv(cfg: Config, s: State, e: Event)
    requires Inv(s) && Step(cfg, s, e).Some?
    ensures Inv(Step(cfg, s, e).value)
  {
    match e
    case Tick(now) => TickInv(s, now);
    case ReaderDoes(a) => ReaderStepInv(s, a);
    case SweeperDoes(a) => SweeperStepInv(cfg, s, a);
    case HandlerDoes(i, a) =>
      if Exiting(s.all[i].pc) { ExitStepInv(s, i, a); } else { LoopStepInv(s, i, a); }
  }

  lemma {:induction false} RunInv(cfg: Config, s: State, es: seq<Event>)
    requires Inv(s) && Run(cfg, s, es).Some?
    ensures Inv(Run(cfg, s, es).value)
  {
    if es != [] {
      var init := es[..|es| - 1];
      RunInv(cfg, s, init);
      StepInv(cfg, Run(cfg, s, init).value, es[|es| - 1]);
    }
  }

  lemma ReachableInv(cfg: Config, s: State)
    requires Reachable(cfg, s)
    ensures Inv(s)
  {
    var start, es :| Run(cfg, Init(cfg, start), es) == Some(s);
    InitInv(cfg, start);
    RunInv(cfg, Init(cfg, start), es);
  }
}
