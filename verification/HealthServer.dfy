/**
The code of routine.go around the liveness records, as methods of one object that updates its
fields in place, each proved to leave behind what the machine of Health reaches.
*/
module HealthServer {
  import opened Wrappers
  import opened Health

  class VirtualTun {
    const cfg: Config
    var clock: Time
    var pingRecord: map<Addr, nat>
    // The ping goroutines and the request under way: history, not part of the program.
    ghost var pings: seq<Ping>
    ghost var probe: Probe

    ghost function Snapshot(): State
      reads this
    {
      State(clock, pingRecord, pings, probe)
    }

    ghost predicate Valid()
      reads this
    {
      Inv(cfg, Snapshot())
    }

    constructor (cfg: Config, start: Time)
      ensures this.cfg == cfg && clock == start && pingRecord == map[] && pings == [] && probe == Idle
    {
      this.cfg := cfg;
      clock, pingRecord, pings, probe := start, map[], [], Idle;
    }

    /** The initialisation loop of StartPingIPs. */
    method StartPingIPs()
      requires pingRecord == map[] && pings == [] && probe == Idle
      modifies this`pingRecord
      ensures Valid() && Snapshot() == Init(cfg, clock)
    {
      for i := 0 to |cfg.checkAlive|
        invariant pingRecord == map a | a in cfg.checkAlive[..i] :: 0
      {
        pingRecord := pingRecord[cfg.checkAlive[i] := 0];
      }
      assert cfg.checkAlive[..|cfg.checkAlive|] == cfg.checkAlive;
      assert pingRecord == Init(cfg, clock).record;
      RunInv(cfg, clock, [], Init(cfg, clock));
    }

    /** The goroutine of ping `i` from its read to its end: a matching reply is stored under the lock. */
    method Pong(ghost i: nat, addr: Addr, request: Echo, reply: Option<Echo>)
      requires Valid() && i < |pings| && pings[i].addr == addr && pings[i].request == request && pings[i].pc.Waiting?
      requires reply.Some? ==> clock - pings[i].sentAt <= cfg.interval * 1_000_000_000
      modifies this`pingRecord, this`pings
      ensures Valid() && Leads(cfg, old(Snapshot()), Snapshot())
      ensures pingRecord == if reply == Some(request) then old(pingRecord)[addr := clock / 1_000_000_000] else old(pingRecord)
      ensures pings == old(pings)[i := old(pings)[i].(pc := if reply == Some(request) then Stored(clock, clock) else Ended)]
    {
      ghost var s := Snapshot();
      LeadsRefl(cfg, s);
      if reply.None? || reply.value.data != request.data || reply.value.seqNo != request.seqNo {
        pings := pings[i := pings[i].(pc := Ended)];
        LeadsThen(cfg, s, s, Receive(i, reply), Snapshot());
      } else {
        pings := pings[i := pings[i].(pc := Matched(clock))];
        ghost var mid := Snapshot();
        LeadsThen(cfg, s, s, Receive(i, reply), mid);
        pingRecord := pingRecord[addr := clock / SECOND];
        pings := pings[i := pings[i].(pc := Stored(clock, clock))];
        LeadsThen(cfg, s, mid, Store(i), Snapshot());
      }
      LeadsInv(cfg, s, Snapshot());
    }

    /**
    The loop of /readyz over the records, leaving at the first stale one. `times` are the
    clock readings, one per record, none earlier than the request and none going back.
    */
    method Readyz(times: seq<Time>) returns (status: int)
      requires Valid() && !probe.Checking? && |times| == |pingRecord|
      requires forall k :: 0 <= k < |times| ==> clock <= times[k]
      requires forall k, l :: 0 <= k < l < |times| ==> times[k] <= times[l]
      modifies this`clock, this`probe
      ensures Valid() && Leads(cfg, old(Snapshot()), Snapshot())
      ensures probe.Answered? && probe.start == old(clock) && probe.status == status
      ensures status == 200 || status == 503
      ensures status == 200 ==> forall a :: a in pingRecord ==>
        a in probe.checked && probe.checked[a] - pingRecord[a] * 1_000_000_000 <= (cfg.interval + 2) * 1_000_000_000
      ensures status == 503 ==>
        exists a :: a in pingRecord && clock - pingRecord[a] * 1_000_000_000 > (cfg.interval + 2) * 1_000_000_000
    {
      ghost var s := Snapshot();
      status := OK;
      var todo, k := pingRecord.Keys, 0;
      probe := Checking(clock, todo, map[]);
      LeadsRefl(cfg, s);
      LeadsThen(cfg, s, s, Ask, Snapshot());
      while todo != {}
        invariant probe.Checking? && probe.start == s.clock && probe.todo == todo <= pingRecord.Keys
        invariant k + |todo| == |times| && (forall l :: k <= l < |times| ==> clock <= times[l])
        invariant forall a :: a in pingRecord && a !in todo ==> a in probe.checked && !Stale(cfg, probe.checked[a], pingRecord[a])
        invariant status == OK && Leads(cfg, s, Snapshot())
        decreases todo
      {
        var a :| a in todo;
        ghost var u := Snapshot();
        clock := times[k];
        ghost var v := Snapshot();
        LeadsThen(cfg, s, u, Tick(clock), v);
        if clock - pingRecord[a] * SECOND > cfg.Window() {
          status := SERVICE_UNAVAILABLE;
          probe := Answered(probe.start, status, probe.checked);
          LeadsThen(cfg, s, v, Check(a), Snapshot());
          break;
        }
        todo, k := todo - {a}, k + 1;
        probe := probe.(todo := todo, checked := probe.checked[a := clock]);
        LeadsThen(cfg, s, v, Check(a), Snapshot());
      }
      if status == OK {
        ghost var u := Snapshot();
        probe := Answered(probe.start, status, probe.checked);
        LeadsThen(cfg, s, u, Answer, Snapshot());
      }
      LeadsInv(cfg, s, Snapshot());
    }
  }
}
