/**
An independent reader of requests, following the configuration protocol: interface lines up to the
first public_key, then one block of lines per peer. And the proof that it recovers the
configuration a request was built from.
*/
module IpcReader {
  import opened Wrappers
  import opened UintRanges
  import opened Machine
  import opened AwgConfig
  import opened IpcLines
  import opened AwgIpc
  import opened IpcRequest

  datatype PeerRead = PeerRead(
    publicKey: string,
    keepalive: Option<UintRange>,
    presharedKey: Option<string>,
    endpoint: Option<string>,
    allowedIps: seq<string>)

  datatype DeviceRead = DeviceRead(
    privateKey: string,
    listenPort: Option<int>,
    settings: ASecConfig,
    peers: seq<PeerRead>)

  // ---------------------------------------------------------------- the reader

  /** A line of the peer part: public_key begins a peer, every other key belongs to the last one. */
  function AddLine(peers: seq<PeerRead>, p: Pair): Option<seq<PeerRead>> {
    if p.key == "public_key" then Some(peers + [PeerRead(p.value, None, None, None, [])])
    else if peers == [] then None
    else
      var q := peers[|peers| - 1];
      var changed :- SetLine(q, p);
      Some(peers[..|peers| - 1] + [changed])
  }

  function SetLine(q: PeerRead, p: Pair): Option<PeerRead> {
    if p.key == "persistent_keepalive_interval" then
      (if Parse(p.value).Ok? then Some(q.(keepalive := Some(Parse(p.value).value))) else None)
    else if p.key == "preshared_key" then Some(q.(presharedKey := Some(p.value)))
    else if p.key == "endpoint" then Some(q.(endpoint := Some(p.value)))
    else if p.key == "allowed_ip" then Some(q.(allowedIps := q.allowedIps + [p.value]))
    else None
  }

  function AddLines(peers: seq<PeerRead>, pairs: seq<Pair>): Option<seq<PeerRead>>
    decreases pairs
  {
    if pairs == [] then Some(peers) else
    var next :- AddLine(peers, pairs[0]);
    AddLines(next, pairs[1..])
  }

  /** How many lines come before the first public_key. */
  function InterfaceLength(pairs: seq<Pair>): (n: nat)
    ensures n <= |pairs|
    ensures forall i :: 0 <= i < n ==> pairs[i].key != "public_key"
  {
    if pairs == [] || pairs[0].key == "public_key" then 0 else 1 + InterfaceLength(pairs[1..])
  }

  const INTERFACE_NAMES := ["private_key", "listen_port"] + NAMES

  predicate KnownInterface(pairs: seq<Pair>) {
    forall i :: 0 <= i < |pairs| ==> pairs[i].key in INTERFACE_NAMES
  }

  function ReadRequest(text: string): Option<DeviceRead> {
    var pairs :- ReadPairs(text);
    var n := InterfaceLength(pairs);
    if !KnownInterface(pairs[..n]) then None else
    var privateKey :- Lookup(pairs[..n], "private_key");
    var listenPort :- ReadIntOf(pairs[..n], "listen_port");
    var settings :- ReadSettings(pairs[..n]);
    var peers :- AddLines([], pairs[n..]);
    Some(DeviceRead(privateKey, listenPort, settings, peers))
  }

  // ---------------------------------------------------------------- what a request should read as

  function PeerAsRead(p: PeerConfig, keepalive: UintRange): PeerRead {
    PeerRead(p.publicKey, Some(keepalive), Some(p.preSharedKey), p.endpoint, AllowedOf(p))
  }

  predicate AllKeepalives(w: Width, peers: seq<PeerConfig>) {
    forall i :: 0 <= i < |peers| ==> KeepaliveRange(w, peers[i]).Ok?
  }

  function PeersAsRead(w: Width, peers: seq<PeerConfig>): (r: seq<PeerRead>)
    requires AllKeepalives(w, peers)
    ensures |r| == |peers|
    ensures forall i :: 0 <= i < |peers| ==> r[i] == PeerAsRead(peers[i], KeepaliveRange(w, peers[i]).value)
  {
    if peers == [] then []
    else
      var n := |peers| - 1;
      PeersAsRead(w, peers[..n]) + [PeerAsRead(peers[n], KeepaliveRange(w, peers[n]).value)]
  }

  function DeviceAsRead(w: Width, conf: DeviceConfig): DeviceRead
    requires AllKeepalives(w, conf.peers)
  {
    DeviceRead(conf.secretKey, conf.listenPort, EffectiveSettings(conf), PeersAsRead(w, conf.peers))
  }

  // ---------------------------------------------------------------- peers read back

  lemma {:induction false} AddLinesAppend(peers: seq<PeerRead>, a: seq<Pair>, b: seq<Pair>)
    requires AddLines(peers, a).Some?
    ensures AddLines(peers, a + b) == AddLines(AddLines(peers, a).value, b)
    decreases a
  {
    if a == [] {
      assert a + b == b;
    } else {
      assert (a + b)[1..] == a[1..] + b;
      AddLinesAppend(AddLine(peers, a[0]).value, a[1..], b);
    }
  }

  lemma AddOne(peers: seq<PeerRead>, f: Field)
    ensures AddLines(peers, Present([f])) ==
      if f.text.Some? then AddLine(peers, Pair(f.name, f.text.value)) else Some(peers)
  {
    assert [f][1..] == [];
    if f.text.Some? {
      assert Present([f]) == [Pair(f.name, f.text.value)];
      assert [Pair(f.name, f.text.value)][1..] == [];
    }
  }

  /** One more field on top of the lines of the fields before it. */
  lemma AddSnoc(peers: seq<PeerRead>, done: seq<Field>, f: Field, mid: seq<PeerRead>)
    requires AddLines(peers, Present(done)) == Some(mid)
    ensures AddLines(peers, Present(done + [f])) ==
      if f.text.Some? then AddLine(mid, Pair(f.name, f.text.value)) else Some(mid)
  {
    PresentAppend(done, [f]);
    AddLinesAppend(peers, Present(done), Present([f]));
    AddOne(mid, f);
  }

  lemma SetLast(peers: seq<PeerRead>, q: PeerRead, p: Pair)
    requires p.key != "public_key" && SetLine(q, p).Some?
    ensures AddLine(peers + [q], p) == Some(peers + [SetLine(q, p).value])
  {
    assert (peers + [q])[..|peers|] == peers;
  }

  lemma AddHead(peers: seq<PeerRead>, p: PeerConfig, keepalive: UintRange)
    requires keepalive.min <= keepalive.max
    ensures AddLines(peers, Present(PeerHead(p, keepalive)))
         == Some(peers + [PeerRead(p.publicKey, Some(keepalive), Some(p.preSharedKey), p.endpoint, [])])
  {
    var f := PeerHead(p, keepalive);
    var q0 := PeerRead(p.publicKey, None, None, None, []);
    var q1 := q0.(keepalive := Some(keepalive));
    var q2 := q1.(presharedKey := Some(p.preSharedKey));
    ShowParse(keepalive);
    AddOne(peers, f[0]);
    AddSnoc(peers, [f[0]], f[1], peers + [q0]);
    SetLast(peers, q0, Pair("persistent_keepalive_interval", Show(keepalive)));
    AddSnoc(peers, [f[0], f[1]], f[2], peers + [q1]);
    SetLast(peers, q1, Pair("preshared_key", p.preSharedKey));
    AddSnoc(peers, [f[0], f[1], f[2]], f[3], peers + [q2]);
    if p.endpoint.Some? { SetLast(peers, q2, Pair("endpoint", p.endpoint.value)); }
    assert [f[0]] + [f[1]] == [f[0], f[1]];
    assert [f[0], f[1]] + [f[2]] == [f[0], f[1], f[2]];
    assert [f[0], f[1], f[2]] + [f[3]] == f;
  }

  lemma {:induction false} AddAllowed(peers: seq<PeerRead>, q: PeerRead, ips: seq<string>)
    ensures AddLines(peers + [q], Present(AllowedFields(ips))) == Some(peers + [q.(allowedIps := q.allowedIps + ips)])
  {
    if ips == [] {
      assert q.allowedIps + [] == q.allowedIps;
    } else {
      var n := |ips| - 1;
      var mid := q.(allowedIps := q.allowedIps + ips[..n]);
      AddAllowed(peers, q, ips[..n]);
      var f := Field("allowed_ip", Some(ips[n]));
      AddSnoc(peers + [q], AllowedFields(ips[..n]), f, peers + [mid]);
      assert AllowedFields(ips[..n]) + [f] == AllowedFields(ips);
      SetLast(peers, mid, Pair("allowed_ip", ips[n]));
      assert q.allowedIps + ips[..n] + [ips[n]] == q.allowedIps + ips;
    }
  }

  lemma AddPeer(peers: seq<PeerRead>, p: PeerConfig, keepalive: UintRange)
    requires keepalive.min <= keepalive.max
    ensures AddLines(peers, Present(PeerFields(p, keepalive))) == Some(peers + [PeerAsRead(p, keepalive)])
  {
    var q := PeerRead(p.publicKey, Some(keepalive), Some(p.preSharedKey), p.endpoint, []);
    PresentAppend(PeerHead(p, keepalive), AllowedFields(AllowedOf(p)));
    AddHead(peers, p, keepalive);
    AddLinesAppend(peers, Present(PeerHead(p, keepalive)), Present(AllowedFields(AllowedOf(p))));
    AddAllowed(peers, q, AllowedOf(p));
    assert [] + AllowedOf(p) == AllowedOf(p);
  }

  predicate KeepalivesOrdered(w: Width, peers: seq<PeerConfig>) {
    forall i :: 0 <= i < |peers| && KeepaliveRange(w, peers[i]).Ok? ==>
      KeepaliveRange(w, peers[i]).value.min <= KeepaliveRange(w, peers[i]).value.max
  }

  lemma {:induction false} PeersFieldsOk(w: Width, peers: seq<PeerConfig>)
    ensures PeersFields(w, peers).Ok? <==> AllKeepalives(w, peers)
  {
    if peers != [] {
      PeersFieldsOk(w, peers[..|peers| - 1]);
    }
  }

  lemma AddMore(done: seq<Field>, mid: seq<PeerRead>, p: PeerConfig, keepalive: UintRange)
    requires AddLines([], Present(done)) == Some(mid) && keepalive.min <= keepalive.max
    ensures AddLines([], Present(done + PeerFields(p, keepalive))) == Some(mid + [PeerAsRead(p, keepalive)])
  {
    PresentAppend(done, PeerFields(p, keepalive));
    AddLinesAppend([], Present(done), Present(PeerFields(p, keepalive)));
    AddPeer(mid, p, keepalive);
  }

  lemma LastPeer(w: Width, peers: seq<PeerConfig>)
    requires AllKeepalives(w, peers) && peers != []
    ensures var n := |peers| - 1; var k := KeepaliveRange(w, peers[n]).value;
      && AllKeepalives(w, peers[..n]) && PeersFields(w, peers[..n]).Ok?
      && PeersFields(w, peers) == Ok(PeersFields(w, peers[..n]).value + PeerFields(peers[n], k))
      && PeersAsRead(w, peers) == PeersAsRead(w, peers[..n]) + [PeerAsRead(peers[n], k)]
  {
    PeersFieldsOk(w, peers[..|peers| - 1]);
  }

  lemma {:induction false} AddPeers(w: Width, peers: seq<PeerConfig>)
    requires AllKeepalives(w, peers) && KeepalivesOrdered(w, peers)
    ensures PeersFields(w, peers).Ok?
    ensures AddLines([], Present(PeersFields(w, peers).value)) == Some(PeersAsRead(w, peers))
  {
    if peers != [] {
      var n := |peers| - 1;
      LastPeer(w, peers);
      var k := KeepaliveRange(w, peers[n]).value;
      assert k.min <= k.max;
      assert KeepalivesOrdered(w, peers[..n]);
      AddPeers(w, peers[..n]);
      AddMore(PeersFields(w, peers[..n]).value, PeersAsRead(w, peers[..n]), peers[n], k);
    }
  }

  // ---------------------------------------------------------------- the interface read back

  lemma {:induction false} PresentKeys(fields: seq<Field>, i: nat)
    requires i < |Present(fields)|
    ensures exists k :: 0 <= k < |fields| && fields[k].name == Present(fields)[i].key
  {
    PresentFirst(fields);
    var skip := if fields[0].text.Some? then 1 else 0;
    if i < skip {
      assert fields[0].name == Present(fields)[i].key;
    } else {
      PresentKeys(fields[1..], i - skip);
      var k :| 0 <= k < |fields[1..]| && fields[1..][k].name == Present(fields[1..])[i - skip].key;
      assert fields[k + 1].name == Present(fields)[i].key;
    }
  }

  lemma {:induction false} InterfaceEnds(a: seq<Pair>, b: seq<Pair>)
    requires forall i :: 0 <= i < |a| ==> a[i].key != "public_key"
    requires b == [] || b[0].key == "public_key"
    ensures InterfaceLength(a + b) == |a|
  {
    if a == [] {
      assert a + b == b;
    } else {
      assert (a + b)[1..] == a[1..] + b;
      InterfaceEnds(a[1..], b);
    }
  }

  lemma {:induction false} PeersStart(w: Width, peers: seq<PeerConfig>)
    requires PeersFields(w, peers).Ok?
    ensures var pairs := Present(PeersFields(w, peers).value);
      pairs == [] || pairs[0].key == "public_key"
  {
    if peers != [] {
      var n := |peers| - 1;
      PeersStart(w, peers[..n]);
      var before, k := PeersFields(w, peers[..n]).value, KeepaliveRange(w, peers[n]).value;
      PresentAppend(before, PeerFields(peers[n], k));
      PresentFirst(PeerFields(peers[n], k));
    }
  }

  lemma InterfaceNamesDistinct()
    ensures forall i, j :: 0 <= i < j < |INTERFACE_NAMES| ==> INTERFACE_NAMES[i] != INTERFACE_NAMES[j]
  {
    NamesDistinct();
  }

  lemma InterfaceNamesKnown()
    ensures "public_key" !in INTERFACE_NAMES
  {
  }

  lemma InterfaceFieldNames(conf: DeviceConfig)
    ensures |InterfaceFields(conf)| == |INTERFACE_NAMES|
    ensures forall k :: 0 <= k < |INTERFACE_NAMES| ==> InterfaceFields(conf)[k].name == INTERFACE_NAMES[k]
  {
    FieldNames(EffectiveSettings(conf));
  }

  lemma InterfaceKnown(conf: DeviceConfig)
    ensures KnownInterface(Present(InterfaceFields(conf)))
    ensures forall i :: 0 <= i < |Present(InterfaceFields(conf))| ==> Present(InterfaceFields(conf))[i].key != "public_key"
  {
    InterfaceFieldNames(conf);
    InterfaceNamesKnown();
    var f := InterfaceFields(conf);
    forall i | 0 <= i < |Present(f)| ensures Present(f)[i].key in INTERFACE_NAMES {
      PresentKeys(f, i);
    }
  }

  lemma InterfaceShows(conf: DeviceConfig)
    ensures Shows(Present(InterfaceFields(conf)), InterfaceFields(conf))
  {
    var f := InterfaceFields(conf);
    InterfaceFieldNames(conf);
    InterfaceNamesDistinct();
    forall k | 0 <= k < |f| ensures Lookup(Present(f), f[k].name) == f[k].text {
      LookupPresent(f, k);
    }
  }

  lemma ReadInterface(conf: DeviceConfig)
    requires Writable(EffectiveSettings(conf))
    ensures var pairs := Present(InterfaceFields(conf));
      && Lookup(pairs, "private_key") == Some(conf.secretKey)
      && ReadIntOf(pairs, "listen_port") == Some(conf.listenPort)
      && ReadSettings(pairs) == Some(EffectiveSettings(conf))
  {
    var f := InterfaceFields(conf);
    var pairs := Present(f);
    InterfaceShows(conf);
    assert f[0] == Field("private_key", Some(conf.secretKey)) && f[1] == Field("listen_port", IntText(conf.listenPort));
    ReadIntText(pairs, "listen_port", conf.listenPort);
    ShowsSlice(pairs, f, 2, |f|);
    assert f[2..|f|] == Fields(EffectiveSettings(conf));
    ReadSettingsBack(pairs, EffectiveSettings(conf));
  }
}
