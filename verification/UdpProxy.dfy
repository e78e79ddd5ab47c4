/**
The closures of udp_proxy.go as methods of one object that updates its fields in place, each
proved to leave behind what the machine of UdpSessions reaches.
*/
module UdpProxy {
  import opened Wrappers
  import opened UdpSessions
  import opened UdpInvariant
  import opened UdpAtomic

  class Proxy {
    const cfg: Config
    var clock: Time
    var lock: Option<Owner>
    var sessions: map<Addr, nat>
    var all: seq<Session>
    // Where the other goroutines stand, and the arrival log: history, not part of the program.
    ghost var reader: ReaderPc
    ghost var sweeper: SweeperPc
    ghost var inbox: seq<Datagram>

    ghost function Snapshot(): State
      reads this
    {
      State(clock, lock, sessions, all, reader, sweeper, inbox)
    }

    ghost predicate Valid()
      reads this
    {
      Inv(Snapshot())
    }

    constructor (cfg: Config, start: Time)
      ensures this.cfg == cfg && Valid() && Snapshot() == Init(cfg, start)
    {
      this.cfg := cfg;
      clock, lock, sessions, all := start, None, map[], [];
      reader, sweeper, inbox := Receive, if cfg.inactivityTimeout > 0 then Waiting else Off, [];
    }

    /** closeSessionChan: the channel is closed afterwards, and closed once however often it is called. */
    method CloseSessionChan(id: nat)
      requires id < |all| && all[id].chanCloses <= 1
      modifies this`all
      ensures all == old(all)[id := old(all)[id].(chanCloses := 1)]
    {
      if !all[id].Closed() {
        all := all[id := all[id].(chanCloses := all[id].chanCloses + 1)];
      }
    }

    /** removeSession and the jump to the deferred Close, called by the handler of session `id`. */
    method RemoveSession(id: nat)
      requires Valid() && lock == None && id < |all| && all[id].pc == ExitLock
      modifies this`lock, this`sessions, this`all
      ensures Valid() && Snapshot() == Removed(old(Snapshot()), id)
      ensures all[id].Closed() && all[id].pc == CloseConn && !(all[id].src in sessions && sessions[all[id].src] == id)
      ensures forall k :: k in old(sessions) && old(sessions)[k] != id ==> k in sessions && sessions[k] == old(sessions)[k]
      ensures Leads(cfg, old(Snapshot()), Snapshot())
    {
      ghost var s := Snapshot();
      assert ChanOk(s, id);
      lock := Some(HandlerOwner(id));
      var src := all[id].src;
      if src in sessions && sessions[src] == id {
        CloseSessionChan(id);
        sessions := sessions - {src};
      }
      lock := None;
      all := all[id := all[id].(pc := CloseConn)];
      assert all == Removed(s, id).all;
      RemovedIsARun(cfg, s, id);
      LeadsInv(cfg, s, Snapshot());
    }

    /** The range over the sessions, under the lock. */
    method SweepSessions(now: Time)
      requires MapOk(Snapshot()) && forall k :: k in sessions ==> !all[sessions[k]].Closed()
      modifies this`sessions, this`all
      ensures sessions == SweptMap(cfg, old(sessions), old(all), now, old(sessions).Keys)
      ensures all == SweptAll(cfg, old(sessions), old(all), now, old(sessions).Keys)
    {
      ghost var s := Snapshot();
      var todo := sessions.Keys;
      assert SweptMap(cfg, s.sessions, s.all, now, {}) == sessions;
      assert SweptAll(cfg, s.sessions, s.all, now, {}) == all;
      while todo != {}
        invariant todo <= s.sessions.Keys
        invariant sessions == SweptMap(cfg, s.sessions, s.all, now, s.sessions.Keys - todo)
        invariant all == SweptAll(cfg, s.sessions, s.all, now, s.sessions.Keys - todo)
        decreases todo
      {
        var key :| key in todo;
        ghost var swept := s.sessions.Keys - todo;
        SweptKey(cfg, s, now, swept, key);
        if now - all[sessions[key]].lastActive >= cfg.InactivityDur() {
          CloseSessionChan(sessions[key]);
          sessions := sessions - {key};
        }
        todo := todo - {key};
        assert s.sessions.Keys - todo == swept + {key};
      }
      assert s.sessions.Keys - {} == s.sessions.Keys;
    }

    /** The body of the ticker loop. */
    method Sweep()
      requires Valid() && lock == None && sweeper == Waiting
      modifies this`lock, this`sessions, this`all
      ensures Valid() && Snapshot() == Swept(cfg, old(Snapshot()), old(clock), old(sessions).Keys)
      ensures forall k :: k in old(sessions) ==>
        (k in sessions <==> clock - old(all)[old(sessions)[k]].lastActive < cfg.inactivityTimeout * 1_000_000_000)
      ensures forall k :: k in sessions ==> k in old(sessions) && sessions[k] == old(sessions)[k]
      ensures Leads(cfg, old(Snapshot()), Snapshot())
    {
      ghost var s := Snapshot();
      var now := clock;
      lock := Some(SweeperOwner);
      forall k | k in sessions ensures !all[sessions[k]].Closed() { assert ChanOk(s, sessions[k]); }
      SweepSessions(now);
      lock := None;
      SweepIsARun(cfg, s);
      LeadsInv(cfg, s, Snapshot());
    }

    /**
    One turn of the main loop: getOrCreateSession under the lock, then the stamp and the write.
    `dials` is the outcome of a dial, should one be needed.
    */
    method Relay(src: Addr, payload: Payload, dials: bool)
      requires Valid() && lock == None && reader == Receive
      modifies this`lock, this`sessions, this`all, this`inbox
      ensures Valid() && Snapshot() == Relayed(old(Snapshot()), src, payload, dials)
      ensures src in sessions <==> src in old(sessions) || dials
      ensures src in old(sessions) ==> sessions == old(sessions) && |all| == |old(all)|
      ensures src in sessions ==>
        && sessions[src] < |all| && all[sessions[src]].src == src && all[sessions[src]].lastActive == clock
        && all[sessions[src]].sent == (if src in old(sessions) then old(all)[sessions[src]].sent else []) + [payload]
      ensures src !in sessions ==> all == old(all)
      ensures Leads(cfg, old(Snapshot()), Snapshot())
    {
      ghost var s := Snapshot();
      inbox := inbox + [Datagram(src, payload, src !in sessions && !dials)];
      lock := Some(ReaderOwner);
      var found := None;
      if src in sessions {
        all := all[sessions[src] := all[sessions[src]].(lastActive := clock)];
        found := Some(sessions[src]);
      } else if dials {
        found := Some(|all|);
        sessions := sessions[src := |all|];
        all := all + [Session(src, clock, 0, 0, Poll, [], [], [])];
      }
      lock := None;
      if found.Some? {
        var id := found.value;
        all := all[id := all[id].(lastActive := clock)];
        all := all[id := all[id].(sent := all[id].sent + [payload])];
        assert [] + [payload] == [payload];
      }
      assert all == Relayed(s, src, payload, dials).all;
      RelayedIsARun(cfg, s, src, payload, dials);
      LeadsInv(cfg, s, Snapshot());
    }

    /** One turn of the loop in handleRemoteToLocal; false when the handler returns. */
    method HandleOnce(id: nat, outcome: Outcome) returns (goesOn: bool)
      requires Valid() && id < |all| && all[id].pc == Poll
      modifies this`all, this`clock
      ensures Valid() && Snapshot() == Handled(old(Snapshot()), id, outcome)
      ensures goesOn <==> all[id].pc == Poll
      ensures goesOn <==> !old(all)[id].Closed() && (outcome.TimesOut? || (outcome.Got? && outcome.resolves && outcome.writes))
      ensures |all| == |old(all)| && forall j :: 0 <= j < |all| && j != id ==> all[j] == old(all)[j]
      ensures !old(all)[id].Closed() && outcome.TimesOut? ==> all == old(all) && clock == old(clock) + 5_000_000_000
      ensures !old(all)[id].Closed() && outcome.Got? ==>
        && all[id].lastActive == clock == old(clock) && all[id].received == old(all)[id].received + [outcome.payload]
        && all[id].replies == old(all)[id].replies + if outcome.resolves then [Reply(all[id].src, outcome.payload)] else []
      ensures Leads(cfg, old(Snapshot()), Snapshot())
    {
      ghost var s := Snapshot();
      HandledIsARun(cfg, s, id, outcome);
      LeadsInv(cfg, s, Handled(s, id, outcome));
      goesOn := false;
      if !all[id].Closed() {
        if outcome.TimesOut? {
          clock := clock + READ_DEADLINE;
          goesOn := !all[id].Closed();
        } else if outcome.Got? {
          all := all[id := all[id].(received := all[id].received + [outcome.payload])];
          all := all[id := all[id].(lastActive := clock)];
          if outcome.resolves {
            all := all[id := all[id].(replies := all[id].replies + [Reply(all[id].src, outcome.payload)])];
            goesOn := outcome.writes;
          }
        }
      }
      if !goesOn {
        all := all[id := all[id].(pc := ExitLock)];
      }
      assert all == Handled(s, id, outcome).all;
    }
  }
}
