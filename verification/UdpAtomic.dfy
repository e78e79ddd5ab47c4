/**
What each closure of udp_proxy.go leaves behind when its goroutine runs through it alone, and the
proof that the machine reaches it: the machine's steps are the program's accesses.
*/
module UdpAtomic {
  import opened Wrappers
  import opened UdpSessions
  import opened UdpInvariant

  // ---------------------------------------------------------------- runs

  lemma {:induction false} RunAppend(cfg: Config, s: State, a: seq<Event>, mid: State, b: seq<Event>)
    requires Run(cfg, s, a) == Some(mid)
    ensures Run(cfg, s, a + b) == Run(cfg, mid, b)
  {
    if b == [] {
      assert a + b == a;
    } else {
      RunAppend(cfg, s, a, mid, b[..|b| - 1]);
      assert (a + b)[..|a + b| - 1] == a + b[..|b| - 1];
    }
  }

  ghost predicate Leads(cfg: Config, s: State, t: State) {
    exists es: seq<Event> :: Run(cfg, s, es) == Some(t)
  }

  lemma LeadsRefl(cfg: Config, s: State)
    ensures Leads(cfg, s, s)
  {
    assert Run(cfg, s, []) == Some(s);
  }

  lemma LeadsThen(cfg: Config, s: State, mid: State, e: Event, t: State)
    requires Leads(cfg, s, mid) && Step(cfg, mid, e) == Some(t)
    ensures Leads(cfg, s, t)
  {
    var es :| Run(cfg, s, es) == Some(mid);
    assert (es + [e])[..|es|] == es;
    assert Run(cfg, s, es + [e]) == Some(t);
  }

  lemma LeadsTrans(cfg: Config, s: State, mid: State, t: State)
    requires Leads(cfg, s, mid) && Leads(cfg, mid, t)
    ensures Leads(cfg, s, t)
  {
    var a :| Run(cfg, s, a) == Some(mid);
    var b :| Run(cfg, mid, b) == Some(t);
    RunAppend(cfg, s, a, mid, b);
    assert Run(cfg, s, a + b) == Some(t);
  }

  // ---------------------------------------------------------------- what each closure leaves behind

  /** removeSession by the handler of `i`: its own entry goes, an entry of a newer session stays. */
  function Removed(s: State, i: nat): State
    requires i < |s.all|
  {
    s.(sessions := if InMap(s, i) then s.sessions - {s.all[i].src} else s.sessions,
       all := s.all[i := s.all[i].(pc := CloseConn, chanCloses := 1)])
  }

  lemma RemovedMappedIsARun(cfg: Config, s: State, i: nat)
    requires s.lock == None && i < |s.all| && s.all[i].pc == ExitLock && InMap(s, i) && !s.all[i].Closed()
    ensures Leads(cfg, s, Removed(s, i))
  {
    var e := HandlerDoes(i, Proceed);
    var a := WithPc(s.(lock := Some(HandlerOwner(i))), i, ExitCheck);
    var b := WithPc(a, i, ExitSelect);
    var c := WithPc(b, i, ExitClose);
    var d := WithPc(WithClose(c, i), i, ExitDelete);
    var f := WithPc(d.(sessions := s.sessions - {s.all[i].src}), i, ExitUnlock);
    LeadsRefl(cfg, s);
    LeadsThen(cfg, s, s, e, a);
    LeadsThen(cfg, s, a, e, b);
    LeadsThen(cfg, s, b, e, c);
    LeadsThen(cfg, s, c, e, d);
    LeadsThen(cfg, s, d, e, f);
    LeadsThen(cfg, s, f, e, WithPc(f.(lock := None), i, CloseConn));
    assert WithPc(f.(lock := None), i, CloseConn).all == Removed(s, i).all;
  }

  lemma RemovedIsARun(cfg: Config, s: State, i: nat)
    requires Inv(s) && s.lock == None && i < |s.all| && s.all[i].pc == ExitLock
    ensures Leads(cfg, s, Removed(s, i))
  {
    assert ChanOk(s, i);
    if InMap(s, i) {
      RemovedMappedIsARun(cfg, s, i);
    } else {
      var e := HandlerDoes(i, Proceed);
      var a := WithPc(s.(lock := Some(HandlerOwner(i))), i, ExitCheck);
      var f := WithPc(a, i, ExitUnlock);
      LeadsRefl(cfg, s);
      LeadsThen(cfg, s, s, e, a);
      LeadsThen(cfg, s, a, e, f);
      LeadsThen(cfg, s, f, e, WithPc(f.(lock := None), i, CloseConn));
      assert WithPc(f.(lock := None), i, CloseConn).all == Removed(s, i).all;
    }
  }

  /** Session `i` is in the map and idle at `now`. */
  predicate Idle(cfg: Config, sessions: map<Addr, nat>, all: seq<Session>, now: Time, i: nat)
    requires i < |all|
  {
    all[i].src in sessions && sessions[all[i].src] == i && Expired(cfg, now, all[i].lastActive)
  }

  /** A sweep at `now` over the keys in `todo`: idle sessions are closed and leave the map. */
  function SweptMap(cfg: Config, sessions: map<Addr, nat>, all: seq<Session>, now: Time, todo: set<Addr>): map<Addr, nat> {
    map k | k in sessions && !(k in todo && sessions[k] < |all| && Idle(cfg, sessions, all, now, sessions[k]))
      :: sessions[k]
  }

  function SweptAll(cfg: Config, sessions: map<Addr, nat>, all: seq<Session>, now: Time, todo: set<Addr>): seq<Session> {
    seq(|all|, i requires 0 <= i < |all| =>
      if all[i].src in todo && Idle(cfg, sessions, all, now, i) then all[i].(chanCloses := 1) else all[i])
  }

  function Swept(cfg: Config, s: State, now: Time, todo: set<Addr>): State {
    s.(sessions := SweptMap(cfg, s.sessions, s.all, now, todo), all := SweptAll(cfg, s.sessions, s.all, now, todo))
  }

  /** What sweeping one key does: nothing, or closing and deleting its session. */
  lemma SweptOne(cfg: Config, s: State, now: Time, key: Addr)
    requires MapOk(s) && key in s.sessions
    ensures var id := s.sessions[key];
      if Expired(cfg, now, s.all[id].lastActive)
      then Swept(cfg, s, now, {key}) == s.(sessions := s.sessions - {key}, all := s.all[id := s.all[id].(chanCloses := 1)])
      else Swept(cfg, s, now, {key}) == s
  {
    var id := s.sessions[key];
    var t := Swept(cfg, s, now, {key});
    if Expired(cfg, now, s.all[id].lastActive) {
      assert t.sessions == s.sessions - {key};
      assert t.all == s.all[id := s.all[id].(chanCloses := 1)];
    } else {
      assert t.sessions == s.sessions;
      assert t.all == s.all;
    }
  }

  lemma SweptKeyIsARun(cfg: Config, s: State, key: Addr)
    requires Inv(s) && s.sweeper.Iterate? && key in s.sweeper.todo
    ensures Leads(cfg, s, Swept(cfg, s, s.sweeper.now, {key}).(sweeper := Iterate(s.sweeper.now, s.sweeper.todo - {key})))
  {
    var now, todo := s.sweeper.now, s.sweeper.todo - {key};
    var id := s.sessions[key];
    var seen := s.all[id].lastActive;
    var t := Swept(cfg, s, now, {key}).(sweeper := Iterate(now, todo));
    assert ChanOk(s, id);
    SweptOne(cfg, s, now, key);
    LeadsRefl(cfg, s);
    if Expired(cfg, now, seen) {
      var a := s.(sweeper := SweepSelect(now, todo, key, id, seen));
      LeadsThen(cfg, s, s, SweeperDoes(Visit(key)), a);
      var b := s.(sweeper := SweepClose(now, todo, key, id, seen));
      LeadsThen(cfg, s, a, SweeperDoes(Go), b);
      var c := WithClose(s, id).(sweeper := SweepDelete(now, todo, key, id, seen));
      LeadsThen(cfg, s, b, SweeperDoes(Go), c);
      LeadsThen(cfg, s, c, SweeperDoes(Go), t);
    } else {
      LeadsThen(cfg, s, s, SweeperDoes(Visit(key)), t);
    }
  }

  lemma LeadsInv(cfg: Config, s: State, t: State)
    requires Inv(s) && Leads(cfg, s, t)
    ensures Inv(t)
  {
    var es :| Run(cfg, s, es) == Some(t);
    RunInv(cfg, s, es);
  }

  /** Sweeping one key and then the rest is sweeping all of them, in any order. */
  lemma SweptSplit(cfg: Config, s: State, now: Time, key: Addr, rest: set<Addr>)
    requires MapOk(s) && key in s.sessions && key !in rest
    ensures Swept(cfg, Swept(cfg, s, now, {key}), now, rest) == Swept(cfg, s, now, {key} + rest)
  {
    var a, b, c := Swept(cfg, s, now, {key}), Swept(cfg, Swept(cfg, s, now, {key}), now, rest), Swept(cfg, s, now, {key} + rest);
    SweptOne(cfg, s, now, key);
    forall i | 0 <= i < |s.all| ensures b.all[i] == c.all[i] {
      assert s.all[i].src in rest ==> s.all[i].src != key;
    }
    assert b.all == c.all;
    assert b.sessions == c.sessions;
  }

  /** One more key in a sweep under way: its entry is still there and fresh, or is closed and deleted now. */
  lemma SweptKey(cfg: Config, s: State, now: Time, swept: set<Addr>, key: Addr)
    requires MapOk(s) && key in s.sessions && key !in swept
    ensures var id, a, b := s.sessions[key], Swept(cfg, s, now, swept), Swept(cfg, s, now, swept + {key});
      && key in a.sessions && a.sessions[key] == id && a.all[id] == s.all[id]
      && (if Expired(cfg, now, s.all[id].lastActive)
          then b.sessions == a.sessions - {key} && b.all == a.all[id := s.all[id].(chanCloses := 1)]
          else b.sessions == a.sessions && b.all == a.all)
  {
    var id, a, b := s.sessions[key], Swept(cfg, s, now, swept), Swept(cfg, s, now, swept + {key});
    if Expired(cfg, now, s.all[id].lastActive) {
      assert b.sessions == a.sessions - {key};
      assert b.all == a.all[id := s.all[id].(chanCloses := 1)];
    } else {
      assert b.sessions == a.sessions;
      assert b.all == a.all;
    }
  }

  lemma {:induction false} SweptKeysIsARun(cfg: Config, s: State)
    requires Inv(s) && s.sweeper.Iterate?
    ensures Leads(cfg, s, Swept(cfg, s, s.sweeper.now, s.sweeper.todo).(sweeper := Iterate(s.sweeper.now, {})))
    decreases s.sweeper.todo
  {
    var now, todo := s.sweeper.now, s.sweeper.todo;
    if todo == {} {
      LeadsRefl(cfg, s);
      assert SweptAll(cfg, s.sessions, s.all, now, todo) == s.all;
      assert SweptMap(cfg, s.sessions, s.all, now, todo) == s.sessions;
    } else {
      var key :| key in todo;
      var mid := Swept(cfg, s, now, {key}).(sweeper := Iterate(now, todo - {key}));
      SweptKeyIsARun(cfg, s, key);
      LeadsInv(cfg, s, mid);
      SweptKeysIsARun(cfg, mid);
      SweptSplit(cfg, s, now, key, todo - {key});
      assert {key} + (todo - {key}) == todo;
      var t := Swept(cfg, s, now, todo).(sweeper := Iterate(now, {}));
      assert Swept(cfg, mid, now, todo - {key}).(sweeper := Iterate(now, {})) == t;
      LeadsTrans(cfg, s, mid, t);
    }
  }

  /** A whole sweep: every idle session goes at once. */
  lemma SweepIsARun(cfg: Config, s: State)
    requires Inv(s) && s.lock == None && s.sweeper == Waiting
    ensures Leads(cfg, s, Swept(cfg, s, s.clock, s.sessions.Keys))
  {
    var a := s.(sweeper := SweepLock(s.clock));
    var b := a.(lock := Some(SweeperOwner), sweeper := Iterate(s.clock, s.sessions.Keys));
    LeadsRefl(cfg, s);
    LeadsThen(cfg, s, s, SweeperDoes(Go), a);
    LeadsThen(cfg, s, a, SweeperDoes(Go), b);
    LeadsInv(cfg, s, b);
    SweptKeysIsARun(cfg, b);
    var t := Swept(cfg, s, s.clock, s.sessions.Keys);
    var c := t.(lock := Some(SweeperOwner), sweeper := Iterate(s.clock, {}));
    LeadsTrans(cfg, s, b, c);
    var d := c.(sweeper := SweepUnlock(s.clock));
    LeadsThen(cfg, s, c, SweeperDoes(Go), d);
    LeadsThen(cfg, s, d, SweeperDoes(Go), t);
  }

  /** One turn of the main loop for a datagram of `src`; `dials` says whether a needed dial succeeds. */
  function Relayed(s: State, src: Addr, p: Payload, dials: bool): State
    requires MapOk(s)
  {
    var got := s.(inbox := s.inbox + [Datagram(src, p, src !in s.sessions && !dials)]);
    if src in s.sessions then
      var id := s.sessions[src];
      got.(all := s.all[id := s.all[id].(lastActive := s.clock, sent := s.all[id].sent + [p])])
    else if dials then
      got.(all := s.all + [Session(src, s.clock, 0, 0, Poll, [p], [], [])], sessions := s.sessions[src := |s.all|])
    else
      got
  }

  /** From the deferred unlock of getOrCreateSession to the write. */
  lemma SendIsARun(cfg: Config, s: State, src: Addr, p: Payload, id: nat)
    requires s.reader == UnlockSend(src, p, id) && id < |s.all|
    ensures Leads(cfg, s, s.(lock := None, reader := Receive,
                             all := s.all[id := s.all[id].(lastActive := s.clock, sent := s.all[id].sent + [p])]))
  {
    var e := ReaderDoes(Next);
    var a := s.(reader := StampSend(src, p, id), lock := None);
    var b := WithStamp(a, id).(reader := Send(src, p, id));
    var c := ReaderStep(b, Next).value;
    LeadsRefl(cfg, s);
    LeadsThen(cfg, s, s, e, a);
    LeadsThen(cfg, s, a, e, b);
    LeadsThen(cfg, s, b, e, c);
    assert c.all == s.all[id := s.all[id].(lastActive := s.clock, sent := s.all[id].sent + [p])];
  }

  lemma RelayedKnownIsARun(cfg: Config, s: State, src: Addr, p: Payload)
    requires MapOk(s) && s.lock == None && s.reader == Receive && src in s.sessions
    ensures Leads(cfg, s, Relayed(s, src, p, true))
  {
    var e, id := ReaderDoes(Next), s.sessions[src];
    var a := s.(reader := WantLock(src, p), inbox := s.inbox + [Datagram(src, p, false)]);
    var b := a.(reader := Lookup(src, p), lock := Some(ReaderOwner));
    var c := b.(reader := Touch(src, p, id));
    var d := WithStamp(b, id).(reader := UnlockSend(src, p, id));
    LeadsRefl(cfg, s);
    LeadsThen(cfg, s, s, ReaderDoes(Recv(src, p)), a);
    LeadsThen(cfg, s, a, e, b);
    LeadsThen(cfg, s, b, e, c);
    LeadsThen(cfg, s, c, e, d);
    SendIsARun(cfg, d, src, p, id);
    var t := Relayed(s, src, p, true);
    assert d.all[id := d.all[id].(lastActive := s.clock, sent := d.all[id].sent + [p])] == t.all;
    LeadsTrans(cfg, s, d, t);
  }

  lemma RelayedNewIsARun(cfg: Config, s: State, src: Addr, p: Payload)
    requires MapOk(s) && s.lock == None && s.reader == Receive && src !in s.sessions
    ensures Leads(cfg, s, Relayed(s, src, p, true))
  {
    var e, id := ReaderDoes(Next), |s.all|;
    var a := s.(reader := WantLock(src, p), inbox := s.inbox + [Datagram(src, p, false)]);
    var b := a.(reader := Lookup(src, p), lock := Some(ReaderOwner));
    var c := b.(reader := Dial(src, p));
    var d := b.(reader := Create(src, p));
    var f := b.(all := s.all + [Session(src, s.clock, 0, 0, Poll, [], [], [])],
                sessions := s.sessions[src := id], reader := UnlockSend(src, p, id));
    LeadsRefl(cfg, s);
    LeadsThen(cfg, s, s, ReaderDoes(Recv(src, p)), a);
    LeadsThen(cfg, s, a, e, b);
    LeadsThen(cfg, s, b, e, c);
    LeadsThen(cfg, s, c, e, d);
    LeadsThen(cfg, s, d, e, f);
    SendIsARun(cfg, f, src, p, id);
    var t := Relayed(s, src, p, true);
    assert [] + [p] == [p];
    assert f.all[id := f.all[id].(lastActive := s.clock, sent := f.all[id].sent + [p])] == t.all;
    LeadsTrans(cfg, s, f, t);
  }

  /** A turn of the main loop reaches the datagram's session, a new one, or drops it with the dial. */
  lemma RelayedIsARun(cfg: Config, s: State, src: Addr, p: Payload, dials: bool)
    requires MapOk(s) && s.lock == None && s.reader == Receive
    ensures Leads(cfg, s, Relayed(s, src, p, dials))
  {
    if src in s.sessions {
      RelayedKnownIsARun(cfg, s, src, p);
    } else if dials {
      RelayedNewIsARun(cfg, s, src, p);
    } else {
      var e := ReaderDoes(Next);
      var a := s.(reader := WantLock(src, p), inbox := s.inbox + [Datagram(src, p, false)]);
      var b := a.(reader := Lookup(src, p), lock := Some(ReaderOwner));
      var c := b.(reader := Dial(src, p));
      var d := b.(reader := UnlockDrop, inbox := s.inbox + [Datagram(src, p, true)]);
      LeadsRefl(cfg, s);
      LeadsThen(cfg, s, s, ReaderDoes(Recv(src, p)), a);
      LeadsThen(cfg, s, a, e, b);
      LeadsThen(cfg, s, b, e, c);
      assert a.inbox[|s.inbox| := Datagram(src, p, true)] == d.inbox;
      LeadsThen(cfg, s, c, ReaderDoes(DialError), d);
      LeadsThen(cfg, s, d, e, Relayed(s, src, p, dials));
    }
  }

  /** What a read on the remote connection, and the write that follows it, come to. */
  datatype Outcome = Got(payload: Payload, resolves: bool, writes: bool) | TimesOut | Breaks

  /** One turn of the handler loop of session `i`, starting at the select. */
  function Handled(s: State, i: nat, o: Outcome): State
    requires i < |s.all|
  {
    var h := s.all[i];
    if h.Closed() then s.(all := s.all[i := h.(pc := ExitLock)]) else
    match o
    case TimesOut => s.(clock := s.clock + READ_DEADLINE)
    case Breaks => s.(all := s.all[i := h.(pc := ExitLock)])
    case Got(p, resolves, writes) =>
      s.(all := s.all[i := h.(
        lastActive := s.clock,
        received := h.received + [p],
        replies := if resolves then h.replies + [Reply(h.src, p)] else h.replies,
        pc := if resolves && writes then Poll else ExitLock)])
  }

  lemma HandledGotIsARun(cfg: Config, s: State, i: nat, p: Payload, resolves: bool, writes: bool)
    requires i < |s.all| && s.all[i].pc == Poll && !s.all[i].Closed()
    ensures Leads(cfg, s, Handled(s, i, Got(p, resolves, writes)))
  {
    var e := HandlerDoes(i, Proceed);
    var a := WithPc(s, i, Arm);
    var b := WithPc(a, i, Reading(s.clock + READ_DEADLINE));
    var c := LoopStep(b, i, Data(p)).value;
    var d := LoopStep(c, i, Proceed).value;
    LeadsRefl(cfg, s);
    LeadsThen(cfg, s, s, e, a);
    LeadsThen(cfg, s, a, e, b);
    LeadsThen(cfg, s, b, HandlerDoes(i, Data(p)), c);
    LeadsThen(cfg, s, c, e, d);
    var r := if resolves then Proceed else Fail;
    var f := LoopStep(d, i, r).value;
    LeadsThen(cfg, s, d, HandlerDoes(i, r), f);
    if resolves {
      var w := if writes then Proceed else Fail;
      var g := LoopStep(f, i, w).value;
      LeadsThen(cfg, s, f, HandlerDoes(i, w), g);
      assert g.all == Handled(s, i, Got(p, resolves, writes)).all;
    } else {
      assert f.all == Handled(s, i, Got(p, resolves, writes)).all;
    }
  }

  /** A turn of the handler loop, with every outcome of the read. */
  lemma HandledIsARun(cfg: Config, s: State, i: nat, o: Outcome)
    requires i < |s.all| && s.all[i].pc == Poll
    ensures Leads(cfg, s, Handled(s, i, o))
  {
    var e := HandlerDoes(i, Proceed);
    LeadsRefl(cfg, s);
    if s.all[i].Closed() {
      LeadsThen(cfg, s, s, e, Handled(s, i, o));
    } else if o.Got? {
      HandledGotIsARun(cfg, s, i, o.payload, o.resolves, o.writes);
    } else {
      var deadline := s.clock + READ_DEADLINE;
      var a := WithPc(s, i, Arm);
      var b := WithPc(a, i, Reading(deadline));
      LeadsThen(cfg, s, s, e, a);
      LeadsThen(cfg, s, a, e, b);
      if o.Breaks? {
        LeadsThen(cfg, s, b, HandlerDoes(i, ReadError), WithPc(b, i, ExitLock));
        assert WithPc(b, i, ExitLock).all == Handled(s, i, o).all;
      } else {
        var c := b.(clock := deadline);
        LeadsThen(cfg, s, b, Tick(deadline), c);
        LeadsThen(cfg, s, c, HandlerDoes(i, Timeout), WithPc(c, i, TimedOut));
        var d := WithPc(WithPc(c, i, TimedOut), i, Poll);
        LeadsThen(cfg, s, WithPc(c, i, TimedOut), e, d);
        assert d.all == Handled(s, i, o).all;
      }
    }
  }
}
