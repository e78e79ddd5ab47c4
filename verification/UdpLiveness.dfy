/**
Progress of the UDP machine: a closed session's handler ends within a bounded number of its own
steps, nobody keeps the lock, and nobody waits except for the lock or for a read deadline.
*/
module UdpLiveness {
  import opened Wrappers
  import opened UdpSessions
  import opened UdpInvariant
  import opened UdpSafety

  // ---------------------------------------------------------------- the end of a closed session

  /** How many own steps a handler at `pc` can still take once its channel is closed. */
  function Rank(pc: HandlerPc): nat {
    match pc
    case Done => 0
    case CloseConn => 1
    case ExitUnlock => 2
    case ExitDelete => 3
    case ExitClose => 4
    case ExitSelect => 5
    case ExitCheck => 6
    case ExitLock => 7
    case Poll => 8
    case TimedOut => 9
    case Forward(_) => 9
    case Resolve(_) => 10
    case Stamp(_) => 11
    case Reading(_) => 12
    case Arm => 13
  }

  /** Whether a handler at `pc` can still forward a payload once its channel is closed. */
  function ForwardsLeft(pc: HandlerPc): nat {
    if pc.Arm? || pc.Reading? || pc.Stamp? || pc.Resolve? || pc.Forward? then 1 else 0
  }

  function OwnSteps(es: seq<Event>, i: nat): nat {
    if es == [] then 0 else
    OwnSteps(es[..|es| - 1], i) + (if es[|es| - 1].HandlerDoes? && es[|es| - 1].id == i then 1 else 0)
  }

  lemma ClosedHandlerStep(s: State, i: nat, a: HandlerAction, t: State)
    requires i < |s.all| && s.all[i].Closed() && HandlerStep(s, i, a) == Some(t)
    ensures |t.all| == |s.all| && Rank(t.all[i].pc) < Rank(s.all[i].pc)
    ensures |t.all[i].replies| + ForwardsLeft(t.all[i].pc) <= |s.all[i].replies| + ForwardsLeft(s.all[i].pc)
  {
  }

  lemma OtherStep(cfg: Config, s: State, e: Event, t: State, i: nat)
    requires Inv(s) && i < |s.all| && Step(cfg, s, e) == Some(t) && !(e.HandlerDoes? && e.id == i)
    ensures i < |t.all| && t.all[i].pc == s.all[i].pc && t.all[i].replies == s.all[i].replies
  {
    StepEffect(cfg, s, e, t, i);
    match e
    case ReaderDoes(a) => ReaderEffect(s, a, t, i);
    case SweeperDoes(a) => SweeperEffect(cfg, s, a, t, i);
    case _ =>
  }

  /**
  Once a session's channel is closed, its handler forwards at most one more payload and takes at
  most Rank(pc) <= 13 more steps, in every run and whatever the remote side sends.
  */
  lemma {:induction false} ClosedSessionEnds(cfg: Config, s: State, es: seq<Event>, t: State, i: nat)
    requires Inv(s) && i < |s.all| && s.all[i].Closed() && Run(cfg, s, es) == Some(t)
    ensures i < |t.all| && t.all[i].Closed()
    ensures OwnSteps(es, i) + Rank(t.all[i].pc) <= Rank(s.all[i].pc) <= 13
    ensures |t.all[i].replies| + ForwardsLeft(t.all[i].pc) <= |s.all[i].replies| + ForwardsLeft(s.all[i].pc)
    ensures |t.all[i].replies| <= |s.all[i].replies| + 1
  {
    if es != [] {
      var e := es[|es| - 1];
      var init := es[..|es| - 1];
      var mid := Run(cfg, s, init).value;
      ClosedSessionEnds(cfg, s, init, mid, i);
      RunInv(cfg, s, init);
      StepEffect(cfg, mid, e, t, i);
      if e.HandlerDoes? && e.id == i {
        ClosedHandlerStep(mid, i, e.h, t);
      } else {
        OtherStep(cfg, mid, e, t, i);
      }
    }
  }

  // ---------------------------------------------------------------- nobody is stuck

  ghost predicate DeadlinesOk(s: State) {
    forall i :: 0 <= i < |s.all| && s.all[i].pc.Reading? ==> s.all[i].pc.deadline <= s.clock + READ_DEADLINE
  }

  lemma StepDeadlines(cfg: Config, s: State, e: Event, t: State)
    requires Inv(s) && DeadlinesOk(s) && Step(cfg, s, e) == Some(t)
    ensures DeadlinesOk(t)
  {
    if e.HandlerDoes? {
      HandlerEffect(s, e.id, e.h, t);
    } else {
      forall i | 0 <= i < |t.all| && t.all[i].pc.Reading? ensures t.all[i].pc.deadline <= t.clock + READ_DEADLINE {
        if i < |s.all| { OtherStep(cfg, s, e, t, i); }
      }
    }
  }

  lemma {:induction false} RunDeadlines(cfg: Config, start: Time, es: seq<Event>, t: State)
    requires Run(cfg, Init(cfg, start), es) == Some(t)
    ensures Inv(t) && DeadlinesOk(t)
  {
    InitInv(cfg, start);
    RunInv(cfg, Init(cfg, start), es);
    if es != [] {
      var mid := Run(cfg, Init(cfg, start), es[..|es| - 1]).value;
      RunDeadlines(cfg, start, es[..|es| - 1], mid);
      StepDeadlines(cfg, mid, es[|es| - 1], t);
    }
  }

  /**
  In every reachable state a handler that has not ended can move on its own, or waits for a held
  lock, or waits in Read for at most five more seconds.
  */
  lemma HandlerIsNeverStuck(cfg: Config, s: State, i: nat)
    requires Reachable(cfg, s) && i < |s.all| && s.all[i].pc != Done
    ensures || HandlerStep(s, i, Proceed).Some?
            || HandlerStep(s, i, Timeout).Some?
            || (s.all[i].pc == ExitLock && s.lock.Some?)
            || (s.all[i].pc.Reading? && s.clock < s.all[i].pc.deadline <= s.clock + 5_000_000_000)
  {
    var start, es :| Run(cfg, Init(cfg, start), es) == Some(s);
    RunDeadlines(cfg, start, es, s);
  }

  /** The reader moves, or waits for a datagram or for a held lock. */
  lemma ReaderIsNeverStuck(cfg: Config, s: State)
    requires Reachable(cfg, s) && !s.reader.Receive?
    ensures ReaderStep(s, Next).Some? || (s.reader.WantLock? && s.lock.Some?)
  {
    ReachableInv(cfg, s);
  }

  // ---------------------------------------------------------------- the lock is always released

  predicate ByOwner(o: Owner, e: Event) {
    match o
    case ReaderOwner => e.ReaderDoes?
    case SweeperOwner => e.SweeperDoes?
    case HandlerOwner(i) => e.HandlerDoes? && e.id == i
  }

  function ReaderRank(r: ReaderPc): nat {
    match r
    case Lookup(_, _) => 4
    case Dial(_, _) => 3
    case Create(_, _) => 2
    case Touch(_, _, _) => 2
    case _ => 1
  }

  function SweeperRank(w: SweeperPc): nat {
    match w
    case Iterate(_, todo) => 4 * |todo| + 2
    case SweepSelect(_, todo, _, _, _) => 4 * |todo| + 5
    case SweepClose(_, todo, _, _, _) => 4 * |todo| + 4
    case SweepDelete(_, todo, _, _, _) => 4 * |todo| + 3
    case _ => 1
  }

  /** How many own steps the owner of the lock can take before it unlocks. */
  function CriticalRank(s: State): nat {
    match s.lock
    case None => 0
    case Some(ReaderOwner) => ReaderRank(s.reader)
    case Some(SweeperOwner) => SweeperRank(s.sweeper)
    case Some(HandlerOwner(i)) => if i < |s.all| then Rank(s.all[i].pc) else 0
  }

  /** The owner of the lock can always move: a dial, a map access or an unlock never waits for the lock. */
  lemma OwnerCanMove(cfg: Config, s: State)
    requires Reachable(cfg, s) && s.lock.Some?
    ensures exists e :: ByOwner(s.lock.value, e) && Step(cfg, s, e).Some?
  {
    ReachableInv(cfg, s);
    match s.lock.value
    case ReaderOwner =>
      assert ByOwner(ReaderOwner, ReaderDoes(Next)) && Step(cfg, s, ReaderDoes(Next)).Some?;
    case HandlerOwner(i) =>
      assert ByOwner(HandlerOwner(i), HandlerDoes(i, Proceed)) && Step(cfg, s, HandlerDoes(i, Proceed)).Some?;
    case SweeperOwner =>
      if s.sweeper.Iterate? && s.sweeper.todo != {} {
        var key :| key in s.sweeper.todo;
        assert ByOwner(SweeperOwner, SweeperDoes(Visit(key))) && Step(cfg, s, SweeperDoes(Visit(key))).Some?;
      } else {
        assert ByOwner(SweeperOwner, SweeperDoes(Go)) && Step(cfg, s, SweeperDoes(Go)).Some?;
      }
  }

  lemma ReaderReleases(s: State, a: ReaderAction, t: State)
    requires Inv(s) && s.lock == Some(ReaderOwner) && ReaderStep(s, a) == Some(t)
    ensures t.lock == None || (t.lock == s.lock && CriticalRank(t) < CriticalRank(s))
  {
  }

  lemma SweeperReleases(cfg: Config, s: State, a: SweeperAction, t: State)
    requires Inv(s) && s.lock == Some(SweeperOwner) && SweeperStep(cfg, s, a) == Some(t)
    ensures t.lock == None || (t.lock == s.lock && CriticalRank(t) < CriticalRank(s))
  {
  }

  lemma HandlerReleases(s: State, i: nat, a: HandlerAction, t: State)
    requires Inv(s) && s.lock == Some(HandlerOwner(i)) && HandlerStep(s, i, a) == Some(t)
    ensures t.lock == None || (t.lock == s.lock && CriticalRank(t) < CriticalRank(s))
  {
  }

  /** Each step of the owner unlocks or brings the unlock closer; no other step takes the lock away. */
  lemma LockIsReleased(cfg: Config, s: State, e: Event, t: State)
    requires Inv(s) && s.lock.Some? && Step(cfg, s, e) == Some(t)
    ensures ByOwner(s.lock.value, e) ==> t.lock == None || (t.lock == s.lock && CriticalRank(t) < CriticalRank(s))
    ensures !ByOwner(s.lock.value, e) ==> t.lock == s.lock && CriticalRank(t) == CriticalRank(s)
  {
    match e
    case Tick(_) =>
    case ReaderDoes(a) =>
      if ByOwner(s.lock.value, e) { ReaderReleases(s, a, t); }
      else if s.lock.value.HandlerOwner? { ReaderEffect(s, a, t, s.lock.value.id); }
    case SweeperDoes(a) =>
      if ByOwner(s.lock.value, e) { SweeperReleases(cfg, s, a, t); }
      else if s.lock.value.HandlerOwner? { SweeperEffect(cfg, s, a, t, s.lock.value.id); }
    case HandlerDoes(i, a) =>
      HandlerEffect(s, i, a, t);
      if ByOwner(s.lock.value, e) { HandlerReleases(s, i, a, t); }
  }
}
