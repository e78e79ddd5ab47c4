/**
The UDP proxy of udp_proxy.go as a concurrent machine.

One reader goroutine, one sweeper goroutine (only when InactivityTimeout > 0) and one handler
goroutine per session share the `sessions` map, the mutex `sessionMu`, and each session's close
channel, remote connection and `lastActive` stamp. Every goroutine has a program counter, and
one event moves one goroutine by one shared access. Reads, dials and writes have all their
outcomes. The stores to `lastActive` outside the lock are single steps, and the clock never goes
back. A close channel and a connection count how often they were closed.
*/
module UdpSessions {
  import opened Wrappers

  type Addr = string
  type Payload = Bytes
  type Time = int  // nanoseconds

  const SECOND: Time := 1_000_000_000
  const READ_DEADLINE: Time := 5 * SECOND

  datatype Config = Config(inactivityTimeout: int) {
    function InactivityDur(): Time {
      inactivityTimeout * SECOND
    }
  }

  /** Where the handler of a session stands (`handleRemoteToLocal` and its deferred exit). */
  datatype HandlerPc =
    | Poll                        // the select at the top of the loop
    | Arm                         // SetReadDeadline
    | Reading(deadline: Time)     // Read
    | TimedOut                    // the select after a timeout
    | Stamp(payload: Payload)     // lastActive = now
    | Resolve(payload: Payload)   // ResolveUDPAddr(srcAddr)
    | Forward(payload: Payload)   // WriteToUDP
    | ExitLock                    // removeSession: Lock
    | ExitCheck                   // removeSession: current == sess
    | ExitSelect                  // closeSessionChan: select
    | ExitClose                   // closeSessionChan: close
    | ExitDelete                  // delete(sessions, src)
    | ExitUnlock                  // Unlock
    | CloseConn                   // remoteConn.Close()
    | Done

  datatype Reply = Reply(dst: Addr, payload: Payload)

  datatype Session = Session(
    src: Addr,
    lastActive: Time,
    chanCloses: nat,
    connCloses: nat,
    pc: HandlerPc,
    sent: seq<Payload>,       // log: writes attempted on remoteConn
    received: seq<Payload>,   // log: payloads read from remoteConn
    replies: seq<Reply>       // log: writes attempted on the listener
  ) {
    predicate Closed() {
      chanCloses > 0
    }
  }

  /** Where the main loop stands (`getOrCreateSession` inlined). */
  datatype ReaderPc =
    | Receive
    | WantLock(src: Addr, payload: Payload)
    | Lookup(src: Addr, payload: Payload)
    | Touch(src: Addr, payload: Payload, id: nat)
    | Dial(src: Addr, payload: Payload)
    | Create(src: Addr, payload: Payload)
    | UnlockDrop
    | UnlockSend(src: Addr, payload: Payload, id: nat)
    | StampSend(src: Addr, payload: Payload, id: nat)
    | Send(src: Addr, payload: Payload, id: nat)

  /** Where the sweeper stands; `todo` are the keys its map iteration still has to visit. */
  datatype SweeperPc =
    | Off
    | Waiting
    | SweepLock(now: Time)
    | Iterate(now: Time, todo: set<Addr>)
    | SweepSelect(now: Time, todo: set<Addr>, key: Addr, id: nat, seen: Time)
    | SweepClose(now: Time, todo: set<Addr>, key: Addr, id: nat, seen: Time)
    | SweepDelete(now: Time, todo: set<Addr>, key: Addr, id: nat, seen: Time)
    | SweepUnlock(now: Time)

  datatype Owner = ReaderOwner | SweeperOwner | HandlerOwner(id: nat)

  datatype Datagram = Datagram(src: Addr, payload: Payload, dropped: bool)

  datatype State = State(
    clock: Time,
    lock: Option<Owner>,
    sessions: map<Addr, nat>,   // the Go map; a session is identified by its index in `all`
    all: seq<Session>,          // every session ever created, in creation order
    reader: ReaderPc,
    sweeper: SweeperPc,
    inbox: seq<Datagram>        // log: datagrams read from the listener, `dropped` if the dial failed
  )

  datatype HandlerAction = Proceed | Timeout | ReadError | Data(payload: Payload) | Fail
  datatype ReaderAction = Recv(src: Addr, payload: Payload) | RecvError | Next | DialError
  datatype SweeperAction = Visit(key: Addr) | Go
  datatype Event =
    | Tick(now: Time)
    | ReaderDoes(r: ReaderAction)
    | SweeperDoes(w: SweeperAction)
    | HandlerDoes(id: nat, h: HandlerAction)

  function Init(cfg: Config, start: Time): State {
    State(start, None, map[], [], Receive, if cfg.inactivityTimeout > 0 then Waiting else Off, [])
  }

  // ---------------------------------------------------------------- steps

  function WithPc(s: State, i: nat, pc: HandlerPc): State
    requires i < |s.all|
  {
    s.(all := s.all[i := s.all[i].(pc := pc)])
  }

  function WithStamp(s: State, i: nat): State
    requires i < |s.all|
  {
    s.(all := s.all[i := s.all[i].(lastActive := s.clock)])
  }

  /** `close(sess.closeChan)`; a second close would be a Go panic, so closes are counted. */
  function WithClose(s: State, i: nat): State
    requires i < |s.all|
  {
    s.(all := s.all[i := s.all[i].(chanCloses := s.all[i].chanCloses + 1)])
  }

  /** The handler loop up to the return (udp_proxy.go, lines 141-177). */
  function LoopStep(s: State, i: nat, a: HandlerAction): Option<State>
    requires i < |s.all|
  {
    var h := s.all[i];
    match (h.pc, a)
    case (Poll, Proceed) => Some(WithPc(s, i, if h.Closed() then ExitLock else Arm))
    case (Arm, Proceed) => Some(WithPc(s, i, Reading(s.clock + READ_DEADLINE)))
    case (Reading(deadline), Timeout) => if s.clock < deadline then None else Some(WithPc(s, i, TimedOut))
    case (Reading(_), ReadError) => Some(WithPc(s, i, ExitLock))
    case (Reading(_), Data(p)) =>
      Some(s.(all := s.all[i := h.(pc := Stamp(p), received := h.received + [p])]))
    case (TimedOut, Proceed) => Some(WithPc(s, i, if h.Closed() then ExitLock else Poll))
    case (Stamp(p), Proceed) => Some(WithPc(WithStamp(s, i), i, Resolve(p)))
    case (Resolve(p), Proceed) => Some(WithPc(s, i, Forward(p)))
    case (Resolve(p), Fail) => Some(WithPc(s, i, ExitLock))
    case (Forward(p), Proceed) =>
      Some(s.(all := s.all[i := h.(pc := Poll, replies := h.replies + [Reply(h.src, p)])]))
    case (Forward(p), Fail) =>
      Some(s.(all := s.all[i := h.(pc := ExitLock, replies := h.replies + [Reply(h.src, p)])]))
    case _ => None
  }

  /** The deferred exit: removeSession, then Close (lines 47-54 and 135-138). */
  function ExitStep(s: State, i: nat, a: HandlerAction): Option<State>
    requires i < |s.all|
  {
    var h := s.all[i];
    if a != Proceed then None else
    match h.pc
    case ExitLock => if s.lock.Some? then None else Some(WithPc(s.(lock := Some(HandlerOwner(i))), i, ExitCheck))
    case ExitCheck =>
      Some(WithPc(s, i, if h.src in s.sessions && s.sessions[h.src] == i then ExitSelect else ExitUnlock))
    case ExitSelect => Some(WithPc(s, i, if h.Closed() then ExitDelete else ExitClose))
    case ExitClose => Some(WithPc(WithClose(s, i), i, ExitDelete))
    case ExitDelete => Some(WithPc(s.(sessions := s.sessions - {h.src}), i, ExitUnlock))
    case ExitUnlock => Some(WithPc(s.(lock := None), i, CloseConn))
    case CloseConn => Some(s.(all := s.all[i := h.(pc := Done, connCloses := h.connCloses + 1)]))
    case _ => None
  }

  predicate Exiting(pc: HandlerPc) {
    pc in {ExitLock, ExitCheck, ExitSelect, ExitClose, ExitDelete, ExitUnlock, CloseConn, Done}
  }

  function HandlerStep(s: State, i: nat, a: HandlerAction): Option<State> {
    if i >= |s.all| then None
    else if Exiting(s.all[i].pc) then ExitStep(s, i, a)
    else LoopStep(s, i, a)
  }

  /** One step of the main loop (lines 77-128). */
  function ReaderStep(s: State, a: ReaderAction): Option<State> {
    match (s.reader, a)
    case (Receive, RecvError) => Some(s)
    case (Receive, Recv(src, p)) =>
      Some(s.(reader := WantLock(src, p), inbox := s.inbox + [Datagram(src, p, false)]))
    case (WantLock(src, p), Next) =>
      if s.lock.Some? then None else Some(s.(lock := Some(ReaderOwner), reader := Lookup(src, p)))
    case (Lookup(src, p), Next) =>
      Some(s.(reader := if src in s.sessions then Touch(src, p, s.sessions[src]) else Dial(src, p)))
    case (Touch(src, p, id), Next) =>
      if id >= |s.all| then None else Some(WithStamp(s, id).(reader := UnlockSend(src, p, id)))
    case (Dial(src, p), DialError) =>
      if s.inbox == [] then None else
      Some(s.(reader := UnlockDrop, inbox := s.inbox[|s.inbox| - 1 := s.inbox[|s.inbox| - 1].(dropped := true)]))
    case (Dial(src, p), Next) => Some(s.(reader := Create(src, p)))
    case (Create(src, p), Next) =>
      Some(s.(all := s.all + [Session(src, s.clock, 0, 0, Poll, [], [], [])],
              sessions := s.sessions[src := |s.all|],
              reader := UnlockSend(src, p, |s.all|)))
    case (UnlockDrop, Next) => Some(s.(lock := None, reader := Receive))
    case (UnlockSend(src, p, id), Next) => Some(s.(lock := None, reader := StampSend(src, p, id)))
    case (StampSend(src, p, id), Next) =>
      if id >= |s.all| then None else Some(WithStamp(s, id).(reader := Send(src, p, id)))
    case (Send(src, p, id), Next) =>
      if id >= |s.all| then None else
      Some(s.(all := s.all[id := s.all[id].(sent := s.all[id].sent + [p])], reader := Receive))
    case _ => None
  }

  predicate Expired(cfg: Config, now: Time, stamp: Time) {
    now - stamp >= cfg.InactivityDur()
  }

  /** One step of the sweeper (lines 57-74). A key deleted since the iteration began is not visited. */
  function SweeperStep(cfg: Config, s: State, a: SweeperAction): Option<State> {
    match (s.sweeper, a)
    case (Waiting, Go) => Some(s.(sweeper := SweepLock(s.clock)))
    case (SweepLock(now), Go) =>
      if s.lock.Some? then None
      else Some(s.(lock := Some(SweeperOwner), sweeper := Iterate(now, s.sessions.Keys)))
    case (Iterate(now, todo), Visit(key)) =>
      if key !in todo || key !in s.sessions || s.sessions[key] >= |s.all| then None else
      var id := s.sessions[key];
      var seen := s.all[id].lastActive;
      Some(s.(sweeper := if Expired(cfg, now, seen)
                         then SweepSelect(now, todo - {key}, key, id, seen)
                         else Iterate(now, todo - {key})))
    case (Iterate(now, todo), Go) => if todo != {} then None else Some(s.(sweeper := SweepUnlock(now)))
    case (SweepSelect(now, todo, key, id, seen), Go) =>
      if id >= |s.all| then None else
      Some(s.(sweeper := if s.all[id].Closed() then SweepDelete(now, todo, key, id, seen)
                         else SweepClose(now, todo, key, id, seen)))
    case (SweepClose(now, todo, key, id, seen), Go) =>
      if id >= |s.all| then None else Some(WithClose(s, id).(sweeper := SweepDelete(now, todo, key, id, seen)))
    case (SweepDelete(now, todo, key, id, seen), Go) =>
      Some(s.(sessions := s.sessions - {key}, sweeper := Iterate(now, todo)))
    case (SweepUnlock(now), Go) => Some(s.(lock := None, sweeper := Waiting))
    case _ => None
  }

  /** The successor of `s` under `e`, or None when `e` cannot happen in `s`. */
  function Step(cfg: Config, s: State, e: Event): Option<State> {
    match e
    case Tick(now) => if now < s.clock then None else Some(s.(clock := now))
    case ReaderDoes(a) => ReaderStep(s, a)
    case SweeperDoes(a) => SweeperStep(cfg, s, a)
    case HandlerDoes(i, a) => HandlerStep(s, i, a)
  }

  /** A whole run: None as soon as one event cannot happen. */
  function Run(cfg: Config, s: State, es: seq<Event>): Option<State> {
    if es == [] then Some(s) else
    var mid :- Run(cfg, s, es[..|es| - 1]);
    Step(cfg, mid, es[|es| - 1])
  }

  ghost predicate Reachable(cfg: Config, s: State) {
    exists start: Time, es: seq<Event> :: Run(cfg, Init(cfg, start), es) == Some(s)
  }
}
