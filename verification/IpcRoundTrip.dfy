/** A request reads back as the configuration it was built from, exactly when nothing in it breaks a line. */
module IpcRoundTrip {
  import opened Wrappers
  import opened Text
  import opened UintRanges
  import opened Machine
  import opened IpcLines
  import opened AwgIpc
  import opened IpcRequest
  import opened IpcReader

  // ---------------------------------------------------------------- the condition

  predicate PeerOneLine(p: PeerConfig) {
    && NoNewline(p.publicKey) && NoNewline(p.preSharedKey) && OneLine(p.endpoint)
    && forall i :: 0 <= i < |p.allowedIPs| ==> NoNewline(p.allowedIPs[i])
  }

  /** No text contains a newline, and every interval is in order. */
  predicate Serializable(w: Width, conf: DeviceConfig) {
    && NoNewline(conf.secretKey) && Writable(EffectiveSettings(conf))
    && (forall i :: 0 <= i < |conf.peers| ==> PeerOneLine(conf.peers[i]))
    && KeepalivesOrdered(w, conf.peers)
  }

  // ---------------------------------------------------------------- sufficient

  predicate AllCleanFields(fields: seq<Field>) {
    forall k :: 0 <= k < |fields| ==> CleanField(fields[k])
  }

  lemma HeadNamesClean()
    ensures CleanKey("private_key") && CleanKey("listen_port") && CleanKey("public_key")
  {
  }

  lemma PeerNamesClean()
    ensures CleanKey("persistent_keepalive_interval") && CleanKey("preshared_key")
    ensures CleanKey("endpoint") && CleanKey("allowed_ip")
  {
  }

  lemma InterfaceClean(conf: DeviceConfig)
    requires NoNewline(conf.secretKey) && Writable(EffectiveSettings(conf))
    ensures AllCleanFields(InterfaceFields(conf))
  {
    FieldsClean(EffectiveSettings(conf));
    TextsAreOneLine(conf.listenPort, None, None);
    HeadNamesClean();
    var f := InterfaceFields(conf);
    forall k | 0 <= k < |f| ensures CleanField(f[k]) {
      if k >= 2 { assert f[k] == Fields(EffectiveSettings(conf))[k - 2]; }
    }
  }

  lemma DefaultsOneLine()
    ensures NoNewline(DEFAULT_ALLOWED[0]) && NoNewline(DEFAULT_ALLOWED[1])
  {
  }

  lemma PeerClean(p: PeerConfig, keepalive: UintRange)
    requires PeerOneLine(p)
    ensures AllCleanFields(PeerFields(p, keepalive))
  {
    ShowHasNoNewline(keepalive);
    HeadNamesClean();
    PeerNamesClean();
    DefaultsOneLine();
    var f, allowed := PeerFields(p, keepalive), AllowedOf(p);
    forall k | 0 <= k < |f| ensures CleanField(f[k]) {
      if k >= 4 { assert f[k] == Field("allowed_ip", Some(allowed[k - 4])) && NoNewline(allowed[k - 4]); }
    }
  }

  lemma {:induction false} PeersClean(w: Width, peers: seq<PeerConfig>)
    requires AllKeepalives(w, peers) && forall i :: 0 <= i < |peers| ==> PeerOneLine(peers[i])
    ensures PeersFields(w, peers).Ok? && AllCleanFields(PeersFields(w, peers).value)
  {
    if peers != [] {
      LastPeer(w, peers);
      PeersClean(w, peers[..|peers| - 1]);
      PeerClean(peers[|peers| - 1], KeepaliveRange(w, peers[|peers| - 1]).value);
    }
  }

  lemma RequestReadsBack(w: Width, conf: DeviceConfig)
    requires AllKeepalives(w, conf.peers) && Serializable(w, conf)
    ensures RequestText(w, conf).Ok?
    ensures ReadRequest(RequestText(w, conf).value) == Some(DeviceAsRead(w, conf))
  {
    PeersClean(w, conf.peers);
    InterfaceClean(conf);
    var head, tail := InterfaceFields(conf), PeersFields(w, conf.peers).value;
    var a, b := Present(head), Present(tail);
    assert AllCleanFields(head + tail);
    PresentClean(head + tail);
    PresentAppend(head, tail);
    ReadRender(a + b);
    InterfaceKnown(conf);
    PeersStart(w, conf.peers);
    InterfaceEnds(a, b);
    assert (a + b)[..|a|] == a && (a + b)[|a|..] == b;
    ReadInterface(conf);
    AddPeers(w, conf.peers);
  }

  // ---------------------------------------------------------------- necessary

  predicate SafePeer(q: PeerRead) {
    && NoNewline(q.publicKey) && Ordered(q.keepalive) && OneLine(q.presharedKey) && OneLine(q.endpoint)
    && forall i :: 0 <= i < |q.allowedIps| ==> NoNewline(q.allowedIps[i])
  }

  predicate SafePeers(peers: seq<PeerRead>) {
    forall i :: 0 <= i < |peers| ==> SafePeer(peers[i])
  }

  lemma AddLineSafe(peers: seq<PeerRead>, p: Pair)
    requires SafePeers(peers) && Clean(p) && AddLine(peers, p).Some?
    ensures SafePeers(AddLine(peers, p).value)
  {
  }

  lemma {:induction false} AddLinesSafe(peers: seq<PeerRead>, pairs: seq<Pair>)
    requires SafePeers(peers) && AllClean(pairs) && AddLines(peers, pairs).Some?
    ensures SafePeers(AddLines(peers, pairs).value)
    decreases pairs
  {
    if pairs != [] {
      AddLineSafe(peers, pairs[0]);
      AddLinesSafe(AddLine(peers, pairs[0]).value, pairs[1..]);
    }
  }

  /** Whatever the text, what is read from it has no newline in it and no interval out of order. */
  lemma ReadIsSafe(text: string)
    requires ReadRequest(text).Some?
    ensures var d := ReadRequest(text).value;
      NoNewline(d.privateKey) && Writable(d.settings) && SafePeers(d.peers)
  {
    ReadPairsClean(text);
    var pairs := ReadPairs(text).value;
    var n := InterfaceLength(pairs);
    LookupIsClean(pairs[..n], "private_key");
    ReadSettingsWritable(pairs[..n]);
    AddLinesSafe([], pairs[n..]);
  }

  lemma SafeMeansSerializable(w: Width, conf: DeviceConfig)
    requires AllKeepalives(w, conf.peers)
    requires var d := DeviceAsRead(w, conf); NoNewline(d.privateKey) && Writable(d.settings) && SafePeers(d.peers)
    ensures Serializable(w, conf)
  {
    var d := DeviceAsRead(w, conf);
    forall i | 0 <= i < |conf.peers|
      ensures PeerOneLine(conf.peers[i]) && Ordered(Some(KeepaliveRange(w, conf.peers[i]).value))
    {
      assert SafePeer(d.peers[i]);
    }
  }

  /**
  The request of a configuration reads back as that configuration, with every interface field, the
  peers in order, their effective keepalive and their allowed IPs or the default ones, if and only
  if no text in it contains a newline and no interval is out of order.
  */
  lemma RoundTripExactly(w: Width, conf: DeviceConfig)
    requires AllKeepalives(w, conf.peers)
    ensures RequestText(w, conf).Ok?
    ensures ReadRequest(RequestText(w, conf).value) == Some(DeviceAsRead(w, conf)) <==> Serializable(w, conf)
  {
    PeersFieldsOk(w, conf.peers);
    if Serializable(w, conf) {
      RequestReadsBack(w, conf);
    }
    var text := RequestText(w, conf).value;
    if ReadRequest(text) == Some(DeviceAsRead(w, conf)) {
      ReadIsSafe(text);
      SafeMeansSerializable(w, conf);
    }
  }

  /** A request is refused exactly when some peer has no valid keepalive. */
  lemma RequestRefusedExactly(w: Width, conf: DeviceConfig)
    ensures RequestText(w, conf).Err? <==> !AllKeepalives(w, conf.peers)
  {
    PeersFieldsOk(w, conf.peers);
  }
}
