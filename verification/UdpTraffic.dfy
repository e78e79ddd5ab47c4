/**
Where the datagrams go: conservation of each client's traffic in both directions, over every run.
*/
module UdpTraffic {
  import opened Wrappers
  import opened UdpSessions
  import opened UdpInvariant
  import opened UdpSafety

  // ---------------------------------------------------------------- client to remote

  /** What was written on the connections of `src`'s sessions, in session creation order. */
  function SentFor(all: seq<Session>, src: Addr): seq<Payload> {
    if all == [] then [] else
    var last := all[|all| - 1];
    SentFor(all[..|all| - 1], src) + (if last.src == src then last.sent else [])
  }

  /** The datagrams of `src` in arrival order, without those whose dial failed. */
  function ArrivedFrom(inbox: seq<Datagram>, src: Addr): seq<Payload> {
    if inbox == [] then [] else
    var last := inbox[|inbox| - 1];
    ArrivedFrom(inbox[..|inbox| - 1], src) + (if last.src == src && !last.dropped then [last.payload] else [])
  }

  predicate Carrying(r: ReaderPc) {
    !r.Receive? && !r.UnlockDrop?
  }

  /** The datagram the reader holds and has not yet written. */
  function InFlight(r: ReaderPc, src: Addr): seq<Payload> {
    if Carrying(r) && r.src == src then [r.payload] else []
  }

  predicate HoldsLast(s: State) {
    Carrying(s.reader) ==>
      && s.inbox != []
      && s.inbox[|s.inbox| - 1] == Datagram(s.reader.src, s.reader.payload, false)
  }

  predicate Balanced(s: State, src: Addr) {
    SentFor(s.all, src) + InFlight(s.reader, src) == ArrivedFrom(s.inbox, src)
  }

  ghost predicate Conserved(s: State) {
    && HoldsLast(s)
    && forall src :: Balanced(s, src)
  }

  /** Sessions that agree on source and writes agree on `SentFor`. */
  lemma {:induction false} SentForFrame(a: seq<Session>, b: seq<Session>, src: Addr)
    requires |a| == |b| && forall i :: 0 <= i < |a| ==> a[i].src == b[i].src && a[i].sent == b[i].sent
    ensures SentFor(a, src) == SentFor(b, src)
  {
    if a != [] {
      SentForFrame(a[..|a| - 1], b[..|b| - 1], src);
    }
  }

  /** A write on the newest session of `src` goes to the end of that client's stream, and to no other. */
  lemma {:induction false} SentForWrite(all: seq<Session>, i: nat, p: Payload, src: Addr)
    requires i < |all|
    requires forall j :: i < j < |all| ==> all[j].src != all[i].src
    ensures SentFor(all[i := all[i].(sent := all[i].sent + [p])], src)
         == SentFor(all, src) + (if all[i].src == src then [p] else [])
  {
    var after := all[i := all[i].(sent := all[i].sent + [p])];
    var n := |all| - 1;
    if i == n {
      assert after[..n] == all[..n];
    } else {
      assert after[..n] == all[..n][i := all[i].(sent := all[i].sent + [p])];
      SentForWrite(all[..n], i, p, src);
      if all[n].src == src {
        assert all[i].src != src;
        assert SentFor(all[..n], src) + [] == SentFor(all[..n], src);
      }
    }
  }

  lemma ReceiveBalances(s: State, a: ReaderAction, t: State, src: Addr)
    requires Balanced(s, src) && s.reader.Receive? && ReaderStep(s, a) == Some(t)
    ensures Balanced(t, src)
  {
    if a.Recv? { assert t.inbox[..|s.inbox|] == s.inbox; }
  }

  lemma DialBalances(s: State, a: ReaderAction, t: State, src: Addr)
    requires Balanced(s, src) && HoldsLast(s) && s.reader.Dial? && ReaderStep(s, a) == Some(t)
    ensures Balanced(t, src)
  {
    if a.DialError? {
      var before := ArrivedFrom(s.inbox[..|s.inbox| - 1], src);
      assert t.inbox[..|t.inbox| - 1] == s.inbox[..|s.inbox| - 1];
      assert SentFor(s.all, src) + InFlight(s.reader, src) == before + InFlight(s.reader, src);
      assert SentFor(s.all, src) == (before + InFlight(s.reader, src))[..|before|] == before;
    }
  }

  lemma CreateBalances(s: State, t: State, src: Addr)
    requires Balanced(s, src) && s.reader.Create? && ReaderStep(s, Next) == Some(t)
    ensures Balanced(t, src)
  {
    assert t.all[..|s.all|] == s.all;
  }

  lemma SendBalances(s: State, t: State, src: Addr)
    requires Inv(s) && Balanced(s, src) && s.reader.Send? && ReaderStep(s, Next) == Some(t)
    ensures Balanced(t, src)
  {
    SentForWrite(s.all, s.reader.id, s.reader.payload, src);
  }

  lemma StampBalances(s: State, t: State, src: Addr)
    requires Balanced(s, src) && (s.reader.Touch? || s.reader.StampSend?) && ReaderStep(s, Next) == Some(t)
    ensures Balanced(t, src)
  {
    SentForFrame(s.all, t.all, src);
  }

  lemma ReaderBalances(s: State, a: ReaderAction, t: State, src: Addr)
    requires Inv(s) && Balanced(s, src) && HoldsLast(s) && ReaderStep(s, a) == Some(t)
    ensures Balanced(t, src)
  {
    match s.reader
    case Receive => ReceiveBalances(s, a, t, src);
    case Dial(_, _) => DialBalances(s, a, t, src);
    case Create(_, _) => CreateBalances(s, t, src);
    case Touch(_, _, _) => StampBalances(s, t, src);
    case StampSend(_, _, _) => StampBalances(s, t, src);
    case Send(_, _, _) => SendBalances(s, t, src);
    case _ =>
  }

  lemma ReaderConserves(s: State, a: ReaderAction, t: State)
    requires Inv(s) && Conserved(s) && ReaderStep(s, a) == Some(t)
    ensures Conserved(t)
  {
    assert HoldsLast(t);
    forall src ensures Balanced(t, src) {
      ReaderBalances(s, a, t, src);
    }
  }

  lemma HandlerDoesNotSend(s: State, i: nat, a: HandlerAction, t: State)
    requires HandlerStep(s, i, a) == Some(t)
    ensures t.reader == s.reader && t.inbox == s.inbox && |t.all| == |s.all|
    ensures forall j :: 0 <= j < |s.all| ==> t.all[j].src == s.all[j].src && t.all[j].sent == s.all[j].sent
  {
  }

  /** Only the reader writes to connections or takes datagrams. */
  lemma OthersDoNotSend(cfg: Config, s: State, e: Event, t: State)
    requires Inv(s) && Step(cfg, s, e) == Some(t) && !e.ReaderDoes?
    ensures t.reader == s.reader && t.inbox == s.inbox && |t.all| == |s.all|
    ensures forall j :: 0 <= j < |s.all| ==> t.all[j].src == s.all[j].src && t.all[j].sent == s.all[j].sent
  {
    if e.HandlerDoes? {
      HandlerDoesNotSend(s, e.id, e.h, t);
    } else if e.SweeperDoes? {
      forall j | 0 <= j < |s.all| ensures t.all[j].src == s.all[j].src && t.all[j].sent == s.all[j].sent {
        SweeperEffect(cfg, s, e.w, t, j);
      }
    }
  }

  lemma StepConserves(cfg: Config, s: State, e: Event, t: State)
    requires Inv(s) && Conserved(s) && Step(cfg, s, e) == Some(t)
    ensures Conserved(t)
  {
    if e.ReaderDoes? {
      ReaderConserves(s, e.r, t);
    } else {
      OthersDoNotSend(cfg, s, e, t);
      forall src ensures Balanced(t, src) {
        assert Balanced(s, src);
        SentForFrame(s.all, t.all, src);
      }
    }
  }

  lemma {:induction false} RunConserves(cfg: Config, start: Time, es: seq<Event>, t: State)
    requires Run(cfg, Init(cfg, start), es) == Some(t)
    ensures Inv(t) && Conserved(t)
  {
    InitInv(cfg, start);
    RunInv(cfg, Init(cfg, start), es);
    if es != [] {
      var mid := Run(cfg, Init(cfg, start), es[..|es| - 1]).value;
      RunConserves(cfg, start, es[..|es| - 1], mid);
      StepConserves(cfg, mid, es[|es| - 1], t);
    }
  }

  /**
  For every client and every run, the writes attempted on its sessions' connections, concatenated
  in session creation order, followed by the datagram in flight, are that client's datagrams in
  arrival order without those whose dial failed. No attempt is skipped, reordered, repeated or made
  on a connection dialled for another source.
  */
  lemma ClientTrafficConserved(cfg: Config, s: State, src: Addr)
    requires Reachable(cfg, s)
    ensures SentFor(s.all, src) + InFlight(s.reader, src) == ArrivedFrom(s.inbox, src)
  {
    var start, es :| Run(cfg, Init(cfg, start), es) == Some(s);
    RunConserves(cfg, start, es, s);
    assert Balanced(s, src);
  }

  // ---------------------------------------------------------------- remote to client

  function Payloads(rs: seq<Reply>): seq<Payload> {
    seq(|rs|, i requires 0 <= i < |rs| => rs[i].payload)
  }

  predicate Holding(pc: HandlerPc) {
    pc.Stamp? || pc.Resolve? || pc.Forward?
  }

  /**
  All of a session's replies go to the session's own source, and they are what its connection
  delivered, in order; only a payload the handler still holds, or the last one before an exit on an
  unresolvable address, can be missing at the end.
  */
  predicate RepliesOk(h: Session) {
    && (forall i :: 0 <= i < |h.replies| ==> h.replies[i].dst == h.src)
    && (if Holding(h.pc) then h.received == Payloads(h.replies) + [h.pc.payload]
        else || h.received == Payloads(h.replies)
             || (Exiting(h.pc) && h.received != [] && h.received[..|h.received| - 1] == Payloads(h.replies)))
  }

  ghost predicate RepliesInv(s: State) {
    forall i :: 0 <= i < |s.all| ==> RepliesOk(s.all[i])
  }

  lemma LoopReplies(s: State, i: nat, a: HandlerAction, t: State)
    requires i < |s.all| && RepliesOk(s.all[i]) && !Exiting(s.all[i].pc) && LoopStep(s, i, a) == Some(t)
    ensures |t.all| == |s.all| && RepliesOk(t.all[i])
  {
    var h, g := s.all[i], t.all[i];
    if h.pc.Forward? {
      assert Payloads(g.replies) == Payloads(h.replies) + [h.pc.payload];
    }
  }

  lemma ReaderReplies(s: State, a: ReaderAction, t: State)
    requires Inv(s) && RepliesInv(s) && ReaderStep(s, a) == Some(t)
    ensures RepliesInv(t)
  {
    forall j | 0 <= j < |t.all| ensures RepliesOk(t.all[j]) {
      if j < |s.all| {
        assert RepliesOk(s.all[j]);
        ReaderEffect(s, a, t, j);
      }
    }
  }

  lemma HandlerReplies(s: State, i: nat, a: HandlerAction, t: State)
    requires Inv(s) && RepliesInv(s) && HandlerStep(s, i, a) == Some(t)
    ensures RepliesInv(t)
  {
    HandlerEffect(s, i, a, t);
    assert RepliesOk(s.all[i]);
    if !Exiting(s.all[i].pc) {
      LoopReplies(s, i, a, t);
    }
    forall j | 0 <= j < |t.all| ensures RepliesOk(t.all[j]) {
      assert RepliesOk(s.all[j]);
    }
  }

  lemma StepReplies(cfg: Config, s: State, e: Event, t: State)
    requires Inv(s) && RepliesInv(s) && Step(cfg, s, e) == Some(t)
    ensures RepliesInv(t)
  {
    match e
    case Tick(_) => assert t.all == s.all;
    case ReaderDoes(a) => ReaderReplies(s, a, t);
    case HandlerDoes(i, a) => HandlerReplies(s, i, a, t);
    case SweeperDoes(a) =>
      forall j | 0 <= j < |t.all| ensures RepliesOk(t.all[j]) {
        assert |t.all| == |s.all| && RepliesOk(s.all[j]);
        SweeperEffect(cfg, s, a, t, j);
      }
  }

  lemma {:induction false} RunReplies(cfg: Config, start: Time, es: seq<Event>, t: State)
    requires Run(cfg, Init(cfg, start), es) == Some(t)
    ensures Inv(t) && RepliesInv(t)
  {
    InitInv(cfg, start);
    RunInv(cfg, Init(cfg, start), es);
    if es != [] {
      var mid := Run(cfg, Init(cfg, start), es[..|es| - 1]).value;
      RunReplies(cfg, start, es[..|es| - 1], mid);
      StepReplies(cfg, mid, es[|es| - 1], t);
    }
  }

  /** Every reply goes to the key of the session it was read from, and the replies are a prefix of the reads. */
  lemma RepliesGoToTheirClient(cfg: Config, s: State, i: nat)
    requires Reachable(cfg, s) && i < |s.all|
    ensures forall j :: 0 <= j < |s.all[i].replies| ==> s.all[i].replies[j].dst == s.all[i].src
    ensures Payloads(s.all[i].replies) <= s.all[i].received
    ensures |s.all[i].received| <= |s.all[i].replies| + 1
    ensures !Holding(s.all[i].pc) && !Exiting(s.all[i].pc) ==> Payloads(s.all[i].replies) == s.all[i].received
  {
    var start, es :| Run(cfg, Init(cfg, start), es) == Some(s);
    RunReplies(cfg, start, es, s);
    assert RepliesOk(s.all[i]);
  }
}
