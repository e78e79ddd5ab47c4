/** The measure, the lock and the read deadline put together: a closed session can always end in time. */
module UdpEnding {
  import opened Wrappers
  import opened UdpSessions
  import opened UdpInvariant
  import opened UdpSafety
  import opened UdpAtomic
  import opened UdpLiveness

  lemma ReachableLeads(cfg: Config, s: State, t: State)
    requires Reachable(cfg, s) && Leads(cfg, s, t)
    ensures Reachable(cfg, t)
  {
    var start, a :| Run(cfg, Init(cfg, start), a) == Some(s);
    var b :| Run(cfg, s, b) == Some(t);
    RunAppend(cfg, Init(cfg, start), a, s, b);
    assert Run(cfg, Init(cfg, start), a + b) == Some(t);
  }

  lemma ReachableStep(cfg: Config, s: State, e: Event, t: State)
    requires Reachable(cfg, s) && Step(cfg, s, e) == Some(t)
    ensures Reachable(cfg, t)
  {
    LeadsRefl(cfg, s);
    LeadsThen(cfg, s, s, e, t);
    ReachableLeads(cfg, s, t);
  }

  lemma OnlyTicksMoveTheClock(cfg: Config, s: State, e: Event, t: State)
    requires Step(cfg, s, e) == Some(t) && !e.Tick?
    ensures t.clock == s.clock
  {
  }

  /** `t` is reached from `s` without moving session `i`, at most its channel being closed meanwhile. */
  ghost predicate WithoutMoving(cfg: Config, s: State, t: State, i: nat) {
    && Leads(cfg, s, t) && Reachable(cfg, t) && t.clock == s.clock
    && i < |s.all| && i < |t.all| && t.all[i].pc == s.all[i].pc && (s.all[i].Closed() ==> t.all[i].Closed())
  }

  lemma StepWithoutMoving(cfg: Config, s: State, e: Event, t: State, i: nat)
    requires Reachable(cfg, s) && Step(cfg, s, e) == Some(t) && i < |s.all| && !e.Tick? && !(e.HandlerDoes? && e.id == i)
    ensures WithoutMoving(cfg, s, t, i)
  {
    ReachableInv(cfg, s);
    LeadsRefl(cfg, s);
    LeadsThen(cfg, s, s, e, t);
    ReachableStep(cfg, s, e, t);
    OtherStep(cfg, s, e, t, i);
    StepEffect(cfg, s, e, t, i);
    OnlyTicksMoveTheClock(cfg, s, e, t);
  }

  lemma OwnerSteps(cfg: Config, s: State, i: nat) returns (t: State)
    requires Reachable(cfg, s) && i < |s.all| && s.lock.Some? && s.lock != Some(HandlerOwner(i))
    ensures WithoutMoving(cfg, s, t, i)
    ensures t.lock == None || (t.lock == s.lock && CriticalRank(t) < CriticalRank(s))
  {
    OwnerCanMove(cfg, s);
    var e :| ByOwner(s.lock.value, e) && Step(cfg, s, e).Some?;
    t := Step(cfg, s, e).value;
    StepWithoutMoving(cfg, s, e, t, i);
    ReachableInv(cfg, s);
    LockIsReleased(cfg, s, e, t);
  }

  lemma WithoutMovingTrans(cfg: Config, s: State, u: State, t: State, i: nat)
    requires WithoutMoving(cfg, s, u, i) && WithoutMoving(cfg, u, t, i)
    ensures WithoutMoving(cfg, s, t, i)
  {
    LeadsTrans(cfg, s, u, t);
  }

  /** Whoever else holds the lock can run until it unlocks, in no time. */
  lemma {:induction false} LockGetsFree(cfg: Config, s: State, i: nat) returns (t: State)
    requires Reachable(cfg, s) && i < |s.all| && s.lock != Some(HandlerOwner(i))
    ensures WithoutMoving(cfg, s, t, i) && t.lock == None
    decreases CriticalRank(s)
  {
    if s.lock == None {
      t := s;
      LeadsRefl(cfg, s);
    } else {
      t := OwnerSteps(cfg, s, i);
      if t.lock != None {
        var u := t;
        t := LockGetsFree(cfg, u, i);
        WithoutMovingTrans(cfg, s, u, t, i);
      }
    }
  }

  /** How long a handler at `pc` may still wait for its read, once its channel is closed. */
  function WaitLeft(clock: Time, pc: HandlerPc): Time {
    if pc.Arm? then READ_DEADLINE else if pc.Reading? && pc.deadline > clock then pc.deadline - clock else 0
  }

  /** The next own step of a handler, after the lock is free or the deadline has passed. */
  lemma NextOwnStep(cfg: Config, s: State, i: nat) returns (t: State)
    requires Reachable(cfg, s) && i < |s.all| && s.all[i].Closed() && s.all[i].pc != Done
    ensures Leads(cfg, s, t) && Reachable(cfg, t) && i < |t.all| && t.all[i].Closed()
    ensures Rank(t.all[i].pc) < Rank(s.all[i].pc)
    ensures t.clock + WaitLeft(t.clock, t.all[i].pc) <= s.clock + WaitLeft(s.clock, s.all[i].pc)
  {
    var u, a := s, Proceed;
    LeadsRefl(cfg, s);
    ReachableInv(cfg, s);
    if s.all[i].pc == ExitLock {
      u := LockGetsFree(cfg, s, i);
    } else if s.all[i].pc.Reading? {
      a := Timeout;
      if s.clock < s.all[i].pc.deadline {
        u := s.(clock := s.all[i].pc.deadline);
        LeadsThen(cfg, s, s, Tick(u.clock), u);
        ReachableStep(cfg, s, Tick(u.clock), u);
      }
    }
    ReachableInv(cfg, u);
    t := HandlerStep(u, i, a).value;
    LeadsThen(cfg, s, u, HandlerDoes(i, a), t);
    ReachableStep(cfg, u, HandlerDoes(i, a), t);
    ClosedHandlerStep(u, i, a, t);
    StepEffect(cfg, u, HandlerDoes(i, a), t, i);
  }

  lemma {:induction false} ClosedSessionLeadsToDone(cfg: Config, s: State, i: nat) returns (t: State)
    requires Reachable(cfg, s) && i < |s.all| && s.all[i].Closed()
    ensures Leads(cfg, s, t) && i < |t.all| && t.all[i].pc == Done
    ensures t.clock <= s.clock + WaitLeft(s.clock, s.all[i].pc)
    decreases Rank(s.all[i].pc)
  {
    LeadsRefl(cfg, s);
    if s.all[i].pc == Done {
      t := s;
    } else {
      var u := NextOwnStep(cfg, s, i);
      t := ClosedSessionLeadsToDone(cfg, u, i);
      LeadsTrans(cfg, s, u, t);
    }
  }

  /**
  From every reachable state in which a session's channel is closed, whoever holds the lock and
  wherever the handler stands, the machine leads to a state in which the handler has ended and the
  connection is closed, at most five seconds later.
  */
  lemma ClosedSessionCanEnd(cfg: Config, s: State, i: nat) returns (t: State)
    requires Reachable(cfg, s) && i < |s.all| && s.all[i].Closed()
    ensures Leads(cfg, s, t) && i < |t.all| && t.all[i].pc == Done && t.all[i].connCloses == 1
    ensures t.clock <= s.clock + 5_000_000_000
  {
    var start, es :| Run(cfg, Init(cfg, start), es) == Some(s);
    RunDeadlines(cfg, start, es, s);
    t := ClosedSessionLeadsToDone(cfg, s, i);
    ReachableLeads(cfg, s, t);
    ReachableInv(cfg, t);
    assert HandlerOk(t, i);
  }
}
