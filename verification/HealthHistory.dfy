/** What a stored ping means in terms of the events of a run: its request, its reply and its store. */
module HealthHistory {
  import opened Wrappers
  import opened Health

  /** The state of a run before its event `n`. */
  function At(cfg: Config, start: Time, es: seq<Event>, n: nat): State
    requires Run(cfg, Init(cfg, start), es).Some? && n <= |es|
  {
    PrefixRuns(cfg, start, es, n);
    Run(cfg, Init(cfg, start), es[..n]).value
  }

  lemma {:induction false} PrefixRuns(cfg: Config, start: Time, es: seq<Event>, n: nat)
    requires Run(cfg, Init(cfg, start), es).Some? && n <= |es|
    ensures Run(cfg, Init(cfg, start), es[..n]).Some?
  {
    if n == |es| {
      assert es[..n] == es;
    } else {
      assert es[..|es| - 1][..n] == es[..n];
      PrefixRuns(cfg, start, es[..|es| - 1], n);
    }
  }

  lemma AtStep(cfg: Config, start: Time, es: seq<Event>, n: nat)
    requires Run(cfg, Init(cfg, start), es).Some? && n < |es|
    ensures Step(cfg, At(cfg, start, es, n), es[n]) == Some(At(cfg, start, es, n + 1))
  {
    PrefixRuns(cfg, start, es, n);
    PrefixRuns(cfg, start, es, n + 1);
    assert es[..n + 1][..n] == es[..n];
  }

  /** Event `n` sent the request of ping `i`. */
  predicate SentBy(cfg: Config, start: Time, es: seq<Event>, n: nat, i: nat, p: Ping)
    requires Run(cfg, Init(cfg, start), es).Some?
  {
    n < |es| && es[n] == Send(p.addr, p.request) && |At(cfg, start, es, n).pings| == i && At(cfg, start, es, n).clock == p.sentAt
  }

  /** Event `n` is the receipt of a reply to ping `i` that repeats its sequence number and data. */
  predicate ReceivedBy(cfg: Config, start: Time, es: seq<Event>, n: nat, i: nat, p: Ping, at: Time)
    requires Run(cfg, Init(cfg, start), es).Some?
  {
    && n < |es| && es[n].Receive? && es[n].ping == i && es[n].reply.Some?
    && es[n].reply.value.seqNo == p.request.seqNo && es[n].reply.value.data == p.request.data
    && At(cfg, start, es, n).clock == at
  }

  /** Event `n` stored the time of that reply in whole seconds. */
  predicate StoredBy(cfg: Config, start: Time, es: seq<Event>, n: nat, i: nat, p: Ping, at: Time)
    requires Run(cfg, Init(cfg, start), es).Some?
  {
    && n < |es| && es[n] == Store(i) && At(cfg, start, es, n).clock == at
    && At(cfg, start, es, n + 1).record == At(cfg, start, es, n).record[p.addr := at / 1_000_000_000]
  }

  ghost predicate Explained(cfg: Config, start: Time, es: seq<Event>, i: nat, p: Ping)
    requires Run(cfg, Init(cfg, start), es).Some?
  {
    && (exists n: nat :: SentBy(cfg, start, es, n, i, p))
    && (p.pc.Matched? || p.pc.Stored? ==> exists n: nat :: ReceivedBy(cfg, start, es, n, i, p, p.pc.receivedAt))
    && (p.pc.Stored? ==> exists n: nat :: StoredBy(cfg, start, es, n, i, p, p.pc.storedAt))
  }

  /** What one step does to a ping. */
  lemma PingStepEffect(cfg: Config, s: State, e: Event, t: State, i: nat)
    requires Step(cfg, s, e) == Some(t) && i < |t.pings|
    ensures i >= |s.pings| ==> i == |s.pings| && e == Send(t.pings[i].addr, t.pings[i].request) && t.pings[i].sentAt == s.clock && t.pings[i].pc.Waiting?
    ensures i < |s.pings| ==> t.pings[i] == s.pings[i].(pc := t.pings[i].pc)
    ensures i < |s.pings| && t.pings[i].pc.Matched? && t.pings[i] != s.pings[i] ==>
      && e.Receive? && e.ping == i && e.reply.Some? && t.pings[i].pc.receivedAt == s.clock
      && e.reply.value.seqNo == s.pings[i].request.seqNo && e.reply.value.data == s.pings[i].request.data
    ensures i < |s.pings| && t.pings[i].pc.Stored? && t.pings[i] != s.pings[i] ==>
      && e == Store(i) && s.pings[i].pc.Matched? && t.pings[i].pc == Stored(s.pings[i].pc.receivedAt, s.clock)
      && t.record == s.record[s.pings[i].addr := s.clock / 1_000_000_000]
  {
  }

  lemma ExplainedLonger(cfg: Config, start: Time, es: seq<Event>, i: nat, p: Ping)
    requires es != [] && Run(cfg, Init(cfg, start), es).Some?
    requires Run(cfg, Init(cfg, start), es[..|es| - 1]).Some? && Explained(cfg, start, es[..|es| - 1], i, p)
    ensures Explained(cfg, start, es, i, p)
  {
    var init := es[..|es| - 1];
    assert forall n :: 0 <= n <= |init| ==> init[..n] == es[..n];
    var n: nat :| SentBy(cfg, start, init, n, i, p);
    assert SentBy(cfg, start, es, n, i, p);
    if p.pc.Matched? || p.pc.Stored? {
      var k: nat :| ReceivedBy(cfg, start, init, k, i, p, p.pc.receivedAt);
      assert ReceivedBy(cfg, start, es, k, i, p, p.pc.receivedAt);
    }
    if p.pc.Stored? {
      var m: nat :| StoredBy(cfg, start, init, m, i, p, p.pc.storedAt);
      assert StoredBy(cfg, start, es, m, i, p, p.pc.storedAt);
    }
  }

  /**
  In every run, a ping was sent by an event of the run; a reply it holds or has stored was received by
  an event that repeats the request's sequence number and data, at the time the ping notes; and its
  store is an event that set the record of its address to that time in whole seconds.
  */
  lemma {:induction false} PingHistory(cfg: Config, start: Time, es: seq<Event>, t: State, i: nat)
    requires Run(cfg, Init(cfg, start), es) == Some(t) && i < |t.pings|
    ensures Explained(cfg, start, es, i, t.pings[i])
  {
    var init, e := es[..|es| - 1], es[|es| - 1];
    var s := Run(cfg, Init(cfg, start), init).value;
    PingStepEffect(cfg, s, e, t, i);
    assert At(cfg, start, es, |es| - 1) == s;
    assert es[..|es|] == es;
    if i >= |s.pings| {
      assert SentBy(cfg, start, es, |es| - 1, i, t.pings[i]);
    } else {
      PingHistory(cfg, start, init, s, i);
      ExplainedLonger(cfg, start, es, i, s.pings[i]);
      var n: nat :| SentBy(cfg, start, es, n, i, s.pings[i]);
      assert SentBy(cfg, start, es, n, i, t.pings[i]);
      if t.pings[i] != s.pings[i] && t.pings[i].pc.Matched? {
        assert ReceivedBy(cfg, start, es, |es| - 1, i, t.pings[i], s.clock);
      }
      if t.pings[i] != s.pings[i] && t.pings[i].pc.Stored? {
        var k: nat :| ReceivedBy(cfg, start, es, k, i, s.pings[i], s.pings[i].pc.receivedAt);
        assert ReceivedBy(cfg, start, es, k, i, t.pings[i], t.pings[i].pc.receivedAt);
        assert StoredBy(cfg, start, es, |es| - 1, i, t.pings[i], s.clock);
      }
    }
  }
}
