/**
The liveness records of routine.go as a machine: ping goroutines that send echo requests and store
the time of a matching reply, and a /readyz request that checks the records one by one, each at
its own time. The clock never goes back; a store and a check are single steps. A read gives a reply
only until its deadline, CheckAliveInterval after the request.
*/
module Health {
  import opened Wrappers

  type Addr = string
  type Time = nat  // nanoseconds since the epoch

  const SECOND: nat := 1_000_000_000
  const OK := 200
  const SERVICE_UNAVAILABLE := 503

  datatype Config = Config(checkAlive: seq<Addr>, interval: int) {
    /** How old a record may be, in nanoseconds. */
    function Window(): int {
      (interval + 2) * SECOND
    }

    /** How long a ping goroutine waits for its reply. */
    function ReadTimeout(): int {
      interval * SECOND
    }
  }

  datatype Echo = Echo(seqNo: nat, data: Bytes)

  /** A ping goroutine: waiting for its reply, holding a matching one, done with a store, or ended without. */
  datatype PingPc =
    | Waiting
    | Matched(receivedAt: Time)
    | Stored(receivedAt: Time, storedAt: Time)
    | Ended

  datatype Ping = Ping(addr: Addr, request: Echo, sentAt: Time, pc: PingPc)

  /** A /readyz request: `checked` holds when each record was found fresh. */
  datatype Probe =
    | Idle
    | Checking(start: Time, todo: set<Addr>, checked: map<Addr, Time>)
    | Answered(start: Time, status: int, checked: map<Addr, Time>)

  datatype State = State(clock: Time, record: map<Addr, nat>, pings: seq<Ping>, probe: Probe)

  datatype Event =
    | Tick(now: Time)
    | Send(addr: Addr, request: Echo)
    | Receive(ping: nat, reply: Option<Echo>)   // None: a read, parse or type error
    | Store(ping: nat)
    | Ask
    | Check(addr: Addr)
    | Answer

  /** StartPingIPs: every address starts with record 0. */
  function Init(cfg: Config, start: Time): State {
    State(start, map a | a in cfg.checkAlive :: 0, [], Idle)
  }

  predicate Stale(cfg: Config, now: Time, record: nat) {
    now - record * SECOND > cfg.Window()
  }

  /** A reply counts when it repeats the request's sequence number and data. */
  predicate Matches(request: Echo, reply: Option<Echo>) {
    reply.Some? && reply.value.data == request.data && reply.value.seqNo == request.seqNo
  }

  function PingStep(cfg: Config, s: State, e: Event): Option<State>
    requires e.Send? || e.Receive? || e.Store?
  {
    match e
    case Send(addr, request) =>
      if addr !in cfg.checkAlive then None
      else Some(s.(pings := s.pings + [Ping(addr, request, s.clock, Waiting)]))
    case Receive(i, reply) =>
      if i >= |s.pings| || !s.pings[i].pc.Waiting? then None
      else if reply.Some? && s.clock - s.pings[i].sentAt > cfg.ReadTimeout() then None
      else Some(s.(pings := s.pings[i := s.pings[i].(
        pc := if Matches(s.pings[i].request, reply) then Matched(s.clock) else Ended)]))
    case Store(i) =>
      if i >= |s.pings| || !s.pings[i].pc.Matched? then None
      else Some(s.(record := s.record[s.pings[i].addr := s.clock / SECOND],
                   pings := s.pings[i := s.pings[i].(pc := Stored(s.pings[i].pc.receivedAt, s.clock))]))
  }

  function ProbeStep(cfg: Config, s: State, e: Event): Option<State>
    requires e.Ask? || e.Check? || e.Answer?
  {
    match e
    case Ask => if s.probe.Checking? then None else Some(s.(probe := Checking(s.clock, s.record.Keys, map[])))
    case Check(a) =>
      if !s.probe.Checking? || a !in s.probe.todo || a !in s.record then None
      else if Stale(cfg, s.clock, s.record[a])
      then Some(s.(probe := Answered(s.probe.start, SERVICE_UNAVAILABLE, s.probe.checked)))
      else Some(s.(probe := s.probe.(todo := s.probe.todo - {a}, checked := s.probe.checked[a := s.clock])))
    case Answer =>
      if !s.probe.Checking? || s.probe.todo != {} then None
      else Some(s.(probe := Answered(s.probe.start, OK, s.probe.checked)))
  }

  function Step(cfg: Config, s: State, e: Event): Option<State> {
    match e
    case Tick(now) => if now < s.clock then None else Some(s.(clock := now))
    case Send(_, _) => PingStep(cfg, s, e)
    case Receive(_, _) => PingStep(cfg, s, e)
    case Store(_) => PingStep(cfg, s, e)
    case _ => ProbeStep(cfg, s, e)
  }

  function Run(cfg: Config, s: State, es: seq<Event>): Option<State> {
    if es == [] then Some(s) else
    var mid :- Run(cfg, s, es[..|es| - 1]);
    Step(cfg, mid, es[|es| - 1])
  }

  ghost predicate Reachable(cfg: Config, s: State) {
    exists start: Time, es: seq<Event> :: Run(cfg, Init(cfg, start), es) == Some(s)
  }

  // ---------------------------------------------------------------- what every step keeps

  /** Ping `i` of `a` got a matching reply and stored it; the record it left is `r`. */
  predicate Proves(s: State, i: nat, a: Addr, r: nat) {
    && i < |s.pings| && s.pings[i].addr == a && s.pings[i].pc.Stored?
    && s.pings[i].sentAt <= s.pings[i].pc.receivedAt <= s.pings[i].pc.storedAt <= s.clock
    && s.pings[i].pc.storedAt / SECOND == r
  }

  ghost predicate RecordOk(s: State, a: Addr)
    requires a in s.record
  {
    && s.record[a] <= s.clock / SECOND
    && (s.record[a] != 0 ==> exists i: nat :: Proves(s, i, a, s.record[a]))
  }

  predicate PingOk(cfg: Config, s: State, p: Ping) {
    && p.addr in cfg.checkAlive && p.sentAt <= s.clock
    && (p.pc.Matched? ==> p.sentAt <= p.pc.receivedAt <= s.clock && p.pc.receivedAt - p.sentAt <= cfg.ReadTimeout())
    && (p.pc.Stored? ==>
          && p.sentAt <= p.pc.receivedAt <= p.pc.storedAt <= s.clock
          && p.pc.receivedAt - p.sentAt <= cfg.ReadTimeout()
          && p.addr in s.record && p.pc.storedAt / SECOND <= s.record[p.addr])
  }

  /** Ping `i` stored a matching reply of `a` before `at`, in a second that began within the window. */
  predicate Fresh(cfg: Config, s: State, i: nat, a: Addr, at: Time) {
    && i < |s.pings| && s.pings[i].addr == a && s.pings[i].pc.Stored?
    && s.pings[i].sentAt <= s.pings[i].pc.receivedAt <= s.pings[i].pc.storedAt <= at
    && at - s.pings[i].pc.storedAt <= at - s.pings[i].pc.storedAt / SECOND * SECOND <= cfg.Window()
  }

  ghost predicate CheckedOk(cfg: Config, s: State, start: Time, checked: map<Addr, Time>) {
    forall a :: a in checked ==>
      && start <= checked[a] <= s.clock
      && (start > cfg.Window() ==> exists i: nat :: Fresh(cfg, s, i, a, checked[a]))
  }

  ghost predicate ProbeOk(cfg: Config, s: State) {
    && (!s.probe.Idle? ==> s.probe.start <= s.clock && CheckedOk(cfg, s, s.probe.start, s.probe.checked))
    && (s.probe.Checking? ==> s.probe.todo + s.probe.checked.Keys == s.record.Keys)
    && (s.probe.Answered? && s.probe.status == OK ==> s.probe.checked.Keys == s.record.Keys)
  }

  ghost predicate Inv(cfg: Config, s: State) {
    && s.record.Keys == (set a | a in cfg.checkAlive)
    && (forall a :: a in s.record ==> RecordOk(s, a))
    && (forall i :: 0 <= i < |s.pings| ==> PingOk(cfg, s, s.pings[i]))
    && ProbeOk(cfg, s)
  }

  /** Stored pings never change again, so what they prove stays proved. */
  ghost predicate Extends(s: State, t: State) {
    && s.clock <= t.clock && |s.pings| <= |t.pings|
    && forall i :: 0 <= i < |s.pings| && s.pings[i].pc.Stored? ==> t.pings[i] == s.pings[i]
  }

  lemma RecordOkExtends(s: State, t: State, a: Addr)
    requires a in s.record && a in t.record && RecordOk(s, a) && Extends(s, t) && t.record[a] == s.record[a]
    ensures RecordOk(t, a)
  {
    assert s.clock / SECOND <= t.clock / SECOND;
    if s.record[a] != 0 {
      var i: nat :| Proves(s, i, a, s.record[a]);
      assert Proves(t, i, a, t.record[a]);
    }
  }

  lemma CheckedOkExtends(cfg: Config, s: State, t: State, start: Time, checked: map<Addr, Time>)
    requires CheckedOk(cfg, s, start, checked) && Extends(s, t)
    ensures CheckedOk(cfg, t, start, checked)
  {
    forall a | a in checked && start > cfg.Window() ensures exists i: nat :: Fresh(cfg, t, i, a, checked[a]) {
      var i: nat :| Fresh(cfg, s, i, a, checked[a]);
      assert Fresh(cfg, t, i, a, checked[a]);
    }
  }

  lemma PingStepInv(cfg: Config, s: State, e: Event, t: State)
    requires Inv(cfg, s) && (e.Send? || e.Receive? || e.Store?) && PingStep(cfg, s, e) == Some(t)
    ensures Inv(cfg, t)
  {
    assert Extends(s, t);
    if !s.probe.Idle? { CheckedOkExtends(cfg, s, t, s.probe.start, s.probe.checked); }
    if e.Store? { assert PingOk(cfg, s, s.pings[e.ping]); }
    if e.Store? { assert RecordOk(s, s.pings[e.ping].addr); }
    forall i | 0 <= i < |t.pings| ensures PingOk(cfg, t, t.pings[i]) {
      if i < |s.pings| { assert PingOk(cfg, s, s.pings[i]); }
    }
    forall a | a in t.record ensures RecordOk(t, a) {
      if e.Store? && a == s.pings[e.ping].addr {
        assert Proves(t, e.ping, a, t.record[a]);
      } else {
        RecordOkExtends(s, t, a);
      }
    }
  }

  /** A record that passes a check later than one window after the epoch proves a fresh reply. */
  lemma PassedCheckIsFresh(cfg: Config, s: State, a: Addr)
    requires a in s.record && RecordOk(s, a) && s.clock > cfg.Window() && !Stale(cfg, s.clock, s.record[a])
    ensures exists i: nat :: Fresh(cfg, s, i, a, s.clock)
  {
    var i: nat :| Proves(s, i, a, s.record[a]);
    assert Fresh(cfg, s, i, a, s.clock);
  }

  /** One more address checked keeps the checked ones checked. */
  lemma CheckedOkAdd(cfg: Config, s: State, start: Time, checked: map<Addr, Time>, a: Addr)
    requires CheckedOk(cfg, s, start, checked) && start <= s.clock
    requires start > cfg.Window() ==> exists i: nat :: Fresh(cfg, s, i, a, s.clock)
    ensures CheckedOk(cfg, s, start, checked[a := s.clock])
  {
  }

  lemma CheckInv(cfg: Config, s: State, a: Addr, t: State)
    requires Inv(cfg, s) && ProbeStep(cfg, s, Check(a)) == Some(t)
    ensures Inv(cfg, t)
  {
    assert t == s.(probe := t.probe);
    assert forall b :: b in s.record ==> RecordOk(s, b);
    forall b | b in t.record ensures RecordOk(t, b) { RecordOkExtends(s, t, b); }
    if !Stale(cfg, s.clock, s.record[a]) {
      if s.probe.start > cfg.Window() { PassedCheckIsFresh(cfg, s, a); }
      CheckedOkAdd(cfg, s, s.probe.start, s.probe.checked, a);
      assert t.probe.todo + t.probe.checked.Keys == t.record.Keys;
    }
    if !t.probe.Idle? { CheckedOkExtends(cfg, s, t, t.probe.start, t.probe.checked); }
  }

  lemma StepInv(cfg: Config, s: State, e: Event, t: State)
    requires Inv(cfg, s) && Step(cfg, s, e) == Some(t)
    ensures Inv(cfg, t)
  {
    if e.Send? || e.Receive? || e.Store? {
      PingStepInv(cfg, s, e, t);
    } else if e.Check? {
      CheckInv(cfg, s, e.addr, t);
    } else {
      forall a | a in t.record ensures RecordOk(t, a) { RecordOkExtends(s, t, a); }
      if !s.probe.Idle? { CheckedOkExtends(cfg, s, t, s.probe.start, s.probe.checked); }
    }
  }

  lemma {:induction false} RunInv(cfg: Config, start: Time, es: seq<Event>, t: State)
    requires Run(cfg, Init(cfg, start), es) == Some(t)
    ensures Inv(cfg, t)
  {
    if es != [] {
      var mid := Run(cfg, Init(cfg, start), es[..|es| - 1]).value;
      RunInv(cfg, start, es[..|es| - 1], mid);
      StepInv(cfg, mid, es[|es| - 1], t);
    }
  }

  // ---------------------------------------------------------------- results

  /** After initialisation the records stay exactly those of the CheckAlive addresses. */
  lemma RecordKeysFixed(cfg: Config, s: State)
    requires Reachable(cfg, s)
    ensures s.record.Keys == (set a | a in cfg.checkAlive)
  {
    var start, es :| Run(cfg, Init(cfg, start), es) == Some(s);
    RunInv(cfg, start, es, s);
  }

  /** Over any run no record ever decreases. */
  lemma {:induction false} RecordsNeverDecrease(cfg: Config, s: State, es: seq<Event>, t: State, a: Addr)
    requires Inv(cfg, s) && Run(cfg, s, es) == Some(t) && a in s.record
    ensures Inv(cfg, t) && a in t.record && s.record[a] <= t.record[a]
  {
    if es != [] {
      var mid := Run(cfg, s, es[..|es| - 1]).value;
      RecordsNeverDecrease(cfg, s, es[..|es| - 1], mid, a);
      StepInv(cfg, mid, es[|es| - 1], t);
      assert RecordOk(mid, a);
    }
  }

  lemma ReadyHasFresh(cfg: Config, s: State, a: Addr)
    requires Reachable(cfg, s) && s.probe.Answered? && s.probe.status == OK && s.probe.start > cfg.Window()
    requires a in cfg.checkAlive
    ensures a in s.probe.checked && s.probe.start <= s.probe.checked[a] <= s.clock
    ensures exists i: nat :: Fresh(cfg, s, i, a, s.probe.checked[a])
  {
    var start, es :| Run(cfg, Init(cfg, start), es) == Some(s);
    RunInv(cfg, start, es, s);
    assert a in s.record.Keys;
  }

  /**
  A 200 from /readyz, for a request asked later than one window after the epoch: every CheckAlive
  address has a ping whose reply matched in sequence and data and was stored within
  CheckAliveInterval + 2 seconds before its record was checked, during the request.
  */
  lemma ReadyMeansAlive(cfg: Config, s: State, a: Addr) returns (i: nat)
    requires Reachable(cfg, s) && s.probe.Answered? && s.probe.status == 200
    requires s.probe.start > (cfg.interval + 2) * 1_000_000_000 && a in cfg.checkAlive
    ensures a in s.probe.checked && s.probe.start <= s.probe.checked[a] <= s.clock
    ensures i < |s.pings| && s.pings[i].addr == a && s.pings[i].pc.Stored?
    ensures s.pings[i].sentAt <= s.pings[i].pc.receivedAt <= s.pings[i].pc.storedAt <= s.probe.checked[a]
    ensures s.probe.checked[a] - s.pings[i].pc.storedAt <= (cfg.interval + 2) * 1_000_000_000
  {
    ReadyHasFresh(cfg, s, a);
    i :| Fresh(cfg, s, i, a, s.probe.checked[a]);
  }

  /** Ping `i` of `a` stored a matching reply in a second that began within the window before `at`. */
  predicate Counts(cfg: Config, s: State, i: nat, a: Addr, at: Time) {
    && i < |s.pings| && s.pings[i].addr == a && s.pings[i].pc.Stored?
    && at - (s.pings[i].pc.storedAt - s.pings[i].pc.storedAt % 1_000_000_000) <= (cfg.interval + 2) * 1_000_000_000
  }

  /**
  Exactly when a check passes: some matching reply of the address was stored, and the second it was
  stored in began within the window. The fraction of that second counts against the window.
  */
  lemma CheckPassesExactly(cfg: Config, s: State, a: Addr)
    requires Reachable(cfg, s) && a in cfg.checkAlive && s.clock > cfg.Window()
    ensures a in s.record
    ensures !Stale(cfg, s.clock, s.record[a]) <==> exists i: nat :: Counts(cfg, s, i, a, s.clock)
  {
    var start, es :| Run(cfg, Init(cfg, start), es) == Some(s);
    RunInv(cfg, start, es, s);
    assert a in s.record.Keys && RecordOk(s, a);
    if !Stale(cfg, s.clock, s.record[a]) {
      var i: nat :| Proves(s, i, a, s.record[a]);
      assert Counts(cfg, s, i, a, s.clock);
    }
    forall i: nat | Counts(cfg, s, i, a, s.clock) ensures !Stale(cfg, s.clock, s.record[a]) {
      assert PingOk(cfg, s, s.pings[i]);
    }
  }

  // ---------------------------------------------------------------- runs put together

  ghost predicate Leads(cfg: Config, s: State, t: State) {
    exists es: seq<Event> :: Run(cfg, s, es) == Some(t)
  }

  lemma LeadsRefl(cfg: Config, s: State)
    ensures Leads(cfg, s, s)
  {
    assert Run(cfg, s, []) == Some(s);
  }

  lemma LeadsThen(cfg: Config, s: State, mid: State, e: Event, t: State)
    requires Leads(cfg, s, mid) && Step(cfg, mid, e) == Some(t)
    ensures Leads(cfg, s, t)
  {
    var es :| Run(cfg, s, es) == Some(mid);
    assert (es + [e])[..|es|] == es;
    assert Run(cfg, s, es + [e]) == Some(t);
  }

  lemma {:induction false} InvAlong(cfg: Config, s: State, es: seq<Event>, t: State)
    requires Inv(cfg, s) && Run(cfg, s, es) == Some(t)
    ensures Inv(cfg, t)
  {
    if es != [] {
      var mid := Run(cfg, s, es[..|es| - 1]).value;
      InvAlong(cfg, s, es[..|es| - 1], mid);
      StepInv(cfg, mid, es[|es| - 1], t);
    }
  }

  lemma LeadsInv(cfg: Config, s: State, t: State)
    requires Inv(cfg, s) && Leads(cfg, s, t)
    ensures Inv(cfg, t)
  {
    var es :| Run(cfg, s, es) == Some(t);
    InvAlong(cfg, s, es, t);
  }

  function CheckedAt(checked: map<Addr, Time>, todo: set<Addr>, at: Time): map<Addr, Time> {
    checked + map a | a in todo :: at
  }

  /** A request that finds no record stale answers 200. */
  lemma {:induction false} FreshRecordsAnswerOk(cfg: Config, origin: State, s: State)
    requires Leads(cfg, origin, s) && s.probe.Checking? && s.probe.todo <= s.record.Keys
    requires forall a :: a in s.probe.todo ==> !Stale(cfg, s.clock, s.record[a])
    ensures Leads(cfg, origin, s.(probe := Answered(s.probe.start, OK, CheckedAt(s.probe.checked, s.probe.todo, s.clock))))
    decreases s.probe.todo
  {
    var answer := Answered(s.probe.start, OK, CheckedAt(s.probe.checked, s.probe.todo, s.clock));
    if s.probe.todo == {} {
      assert answer.checked == s.probe.checked;
      LeadsThen(cfg, origin, s, Answer, s.(probe := answer));
    } else {
      var a :| a in s.probe.todo;
      var t := s.(probe := s.probe.(todo := s.probe.todo - {a}, checked := s.probe.checked[a := s.clock]));
      LeadsThen(cfg, origin, s, Check(a), t);
      FreshRecordsAnswerOk(cfg, origin, t);
      assert CheckedAt(t.probe.checked, t.probe.todo, s.clock) == answer.checked;
    }
  }

  // ---------------------------------------------------------------- when the reply itself is in the window

  /** The reply was received in the very second its record names. */
  predicate Prompt(p: PingPc)
    requires p.Stored?
  {
    p.receivedAt >= p.storedAt / 1_000_000_000 * 1_000_000_000
  }

  /** Ping `i` got a matching reply of `a` off the wire within the window before `at`. */
  predicate ReceivedWithin(cfg: Config, s: State, i: nat, a: Addr, at: Time) {
    && i < |s.pings| && s.pings[i].addr == a && s.pings[i].pc.Stored?
    && at - s.pings[i].pc.receivedAt <= (cfg.interval + 2) * 1_000_000_000
  }

  /**
  A reply is within the window at every check that its record passes, if and only if it was received
  in the whole second it was stored in, or no check after the store can pass at all.
  */
  lemma ReceivedInTimeExactly(cfg: Config, p: PingPc)
    requires p.Stored? && p.receivedAt <= p.storedAt
    ensures (forall at: Time :: p.storedAt <= at && !Stale(cfg, at, p.storedAt / 1_000_000_000) ==>
               at - p.receivedAt <= (cfg.interval + 2) * 1_000_000_000)
       <==> (Prompt(p) || p.storedAt % 1_000_000_000 > (cfg.interval + 2) * 1_000_000_000)
  {
    var second := p.storedAt / SECOND * SECOND;
    var last := second + cfg.Window();
    if !Prompt(p) && p.storedAt % SECOND <= cfg.Window() {
      assert p.storedAt <= last && !Stale(cfg, last, p.storedAt / SECOND) && last - p.receivedAt > cfg.Window();
    }
  }

  /** With every reply stored in the second it was received in, a 200 speaks of replies received within the window. */
  lemma ReadyMeansReceived(cfg: Config, s: State, a: Addr)
    requires Reachable(cfg, s) && s.probe.Answered? && s.probe.status == OK && s.probe.start > cfg.Window()
    requires a in cfg.checkAlive
    requires forall i :: 0 <= i < |s.pings| && s.pings[i].addr == a && s.pings[i].pc.Stored? ==> Prompt(s.pings[i].pc)
    ensures a in s.probe.checked
    ensures exists i: nat :: ReceivedWithin(cfg, s, i, a, s.probe.checked[a])
  {
    ReadyHasFresh(cfg, s, a);
    var i: nat :| Fresh(cfg, s, i, a, s.probe.checked[a]);
    assert ReceivedWithin(cfg, s, i, a, s.probe.checked[a]);
  }

  /**
  The converse: in any reachable state whose record of `a` comes from a reply that was not stored in
  the second it was received in, no other stored reply of `a` being later, the machine can go on to
  a 200 for which no reply of `a` was received within the window, as long as the record can still
  pass and the other records do.
  */
  lemma LateReplyAnsweredReady(cfg: Config, s: State, a: Addr, i: nat) returns (t: State)
    requires Reachable(cfg, s) && a in cfg.checkAlive && a in s.record && !s.probe.Checking?
    requires i < |s.pings| && s.pings[i].addr == a && s.pings[i].pc.Stored? && !Prompt(s.pings[i].pc)
    requires s.record[a] == s.pings[i].pc.storedAt / SECOND
    requires forall j :: 0 <= j < |s.pings| && s.pings[j].addr == a && s.pings[j].pc.Stored? ==>
      s.pings[j].pc.receivedAt <= s.pings[i].pc.receivedAt
    requires s.clock <= s.record[a] * SECOND + cfg.Window()
    requires forall b :: b in s.record ==> s.record[b] >= s.record[a]
    ensures Leads(cfg, s, t) && t.probe.Answered? && t.probe.status == OK && a in t.probe.checked
    ensures forall j: nat :: !ReceivedWithin(cfg, t, j, a, t.probe.checked[a])
  {
    var at := s.record[a] * SECOND + cfg.Window();
    var u := s.(clock := at);
    var v := u.(probe := Checking(at, s.record.Keys, map[]));
    LeadsRefl(cfg, s);
    LeadsThen(cfg, s, s, Tick(at), u);
    LeadsThen(cfg, s, u, Ask, v);
    FreshRecordsAnswerOk(cfg, s, v);
    t := v.(probe := Answered(at, OK, CheckedAt(v.probe.checked, v.probe.todo, at)));
    assert t.probe.checked[a] == at;
  }

  /** The reply's age is bounded by the window and the time its goroutine took to store it, and the request's by the read timeout more. */
  lemma ReadyBoundsTheRequest(cfg: Config, s: State, a: Addr, delay: nat) returns (i: nat)
    requires Reachable(cfg, s) && s.probe.Answered? && s.probe.status == OK && s.probe.start > cfg.Window()
    requires a in cfg.checkAlive
    requires forall j :: 0 <= j < |s.pings| && s.pings[j].pc.Stored? ==>
      s.pings[j].pc.storedAt - s.pings[j].pc.receivedAt <= delay
    ensures a in s.probe.checked && i < |s.pings| && s.pings[i].addr == a && s.pings[i].pc.Stored?
    ensures s.probe.checked[a] - s.pings[i].pc.receivedAt <= (cfg.interval + 2) * 1_000_000_000 + delay
    ensures s.probe.checked[a] - s.pings[i].sentAt <= (2 * cfg.interval + 2) * 1_000_000_000 + delay
  {
    var start, es :| Run(cfg, Init(cfg, start), es) == Some(s);
    RunInv(cfg, start, es, s);
    ReadyHasFresh(cfg, s, a);
    i :| Fresh(cfg, s, i, a, s.probe.checked[a]);
    assert PingOk(cfg, s, s.pings[i]);
  }

  // ---------------------------------------------------------------- two runs

  const ALONE := Config(["10.2.0.1"], 5)

  /** A ping of the only address, sent, answered and matched at `sent` and stored at `stored`, and then a request at `asked`. */
  function Asked(request: Echo, sent: Time, stored: Time, asked: Time): State {
    State(asked, map["10.2.0.1" := stored / SECOND], [Ping("10.2.0.1", request, sent, Stored(sent, stored))],
          Checking(asked, {"10.2.0.1"}, map[]))
  }

  lemma AskedIsReachable(request: Echo, sent: Time, stored: Time, asked: Time)
    requires sent <= stored <= asked
    ensures Leads(ALONE, Init(ALONE, sent), Asked(request, sent, stored, asked))
  {
    var a, cfg, s0 := "10.2.0.1", ALONE, Init(ALONE, sent);
    var waiting, matched := Ping(a, request, sent, Waiting), Ping(a, request, sent, Matched(sent));
    assert a in cfg.checkAlive && s0.record == map[a := 0];
    assert s0.pings + [waiting] == [waiting] && [waiting][0 := matched] == [matched];
    assert [matched][0 := Ping(a, request, sent, Stored(sent, stored))] == [Ping(a, request, sent, Stored(sent, stored))];
    assert map[a := 0][a := stored / SECOND] == map[a := stored / SECOND];
    var s1 := s0.(pings := [waiting]);
    var s2 := s0.(pings := [matched]);
    var s3 := s2.(clock := stored);
    var s4 := Asked(request, sent, stored, stored).(probe := Idle);
    LeadsRefl(cfg, s0);
    LeadsThen(cfg, s0, s0, Send(a, request), s1);
    LeadsThen(cfg, s0, s1, Receive(0, Some(request)), s2);
    LeadsThen(cfg, s0, s2, Tick(stored), s3);
    LeadsThen(cfg, s0, s3, Store(0), s4);
    LeadsThen(cfg, s0, s4, Tick(asked), s4.(clock := asked));
    assert s4.record.Keys == {a};
    LeadsThen(cfg, s0, s4.(clock := asked), Ask, Asked(request, sent, stored, asked));
  }

  /** A reply stored within the window before a request can still be answered 503, because its stamp is cut to seconds. */
  lemma TruncationCanReject(request: Echo) returns (s: State)
    ensures Reachable(ALONE, s) && s.probe.Answered? && s.probe.status == 503
    ensures |s.pings| == 1 && s.pings[0].addr == "10.2.0.1" && s.pings[0].pc.Stored?
    ensures s.probe.start == s.clock && s.clock - s.pings[0].pc.storedAt <= (ALONE.interval + 2) * 1_000_000_000
  {
    var sent, asked := 10_900_000_000, 17_500_000_000;
    AskedIsReachable(request, sent, sent, asked);
    var mid := Asked(request, sent, sent, asked);
    s := mid.(probe := Answered(asked, SERVICE_UNAVAILABLE, map[]));
    LeadsThen(ALONE, Init(ALONE, sent), mid, Check("10.2.0.1"), s);
  }

  /** A goroutine may hold a matching reply for 100 seconds before it stores it, and the answer is still 200. */
  lemma LateStoreStillReady(request: Echo) returns (s: State)
    ensures Reachable(ALONE, s) && s.probe.Answered? && s.probe.status == 200 && s.probe.start > (ALONE.interval + 2) * 1_000_000_000
    ensures "10.2.0.1" in s.probe.checked && forall i: nat :: !ReceivedWithin(ALONE, s, i, "10.2.0.1", s.probe.checked["10.2.0.1"])
  {
    var sent, stored := 100 * SECOND, 200 * SECOND;
    AskedIsReachable(request, sent, stored, stored);
    var mid := Asked(request, sent, stored, stored);
    FreshRecordsAnswerOk(ALONE, Init(ALONE, sent), mid);
    s := mid.(probe := Answered(stored, OK, CheckedAt(mid.probe.checked, mid.probe.todo, stored)));
  }
}
