/** The whole way: the request built from an accepted file says what the file says. */
module FileToDevice {
  import opened Wrappers
  import opened Text
  import opened UintRanges
  import opened Machine
  import opened AwgConfig
  import opened AwgParse
  import opened AwgIpc
  import opened IpcRequest
  import opened IpcReader
  import opened IpcRoundTrip
  import opened Endpoints
  import opened ConfigFile
  import opened SectionText
  import opened FileText
  import Base64
  import CommaLists
  import Hex
  import Keys

  // ---------------------------------------------------------------- what can break a line

  const TEXT_KEYS := ["I1", "I2", "I3", "I4", "I5"]

  /** None of I1-I5, which go into the request as they are, has a newline. */
  predicate TextsOneLine(sec: Section) {
    forall k :: 0 <= k < 5 && TEXT_KEYS[k] in sec ==> NoNewline(sec[TEXT_KEYS[k]])
  }

  /** Neither the port text of an endpoint nor the zone of its resolved address, which nobody checks, has a newline. */
  predicate EndpointOneLine(net: Net, sec: Section) {
    "Endpoint" in sec ==>
      var parts := SplitHostPort(ToLower(net.lower, sec["Endpoint"]));
      parts.Some? && net.resolve(parts.value.0).Some? ==>
        NoNewline(net.resolve(parts.value.0).value.zone) && NoNewline(parts.value.1)
  }

  predicate FileOneLine(net: Net, sec: Section, sections: seq<Section>) {
    TextsOneLine(sec) && forall i :: 0 <= i < |sections| ==> EndpointOneLine(net, sections[i])
  }

  /** Printed IP addresses and printed prefixes have no newline. */
  ghost predicate NetOneLine(net: Net) {
    && (forall s :: net.resolve(s).Some? ==> NoNewline(net.resolve(s).value.ip))
    && (forall s :: OneLine(net.prefix(s)))
  }

  /** Only a zone can carry a newline of a host through resolution, and lower-casing keeps newlines. */
  ghost predicate NewlinesStayInZones(net: Net) {
    && (forall s :: net.resolve(s).Some? ==> (NoNewline(s) <==> NoNewline(net.resolve(s).value.zone)))
    && (forall c :: net.lower(c) == '\n' <==> c == '\n')
  }

  /** An endpoint that resolves then fits on its line if and only if the text in the file has no newline. */
  lemma EndpointTextExactly(net: Net, sec: Section)
    requires "Endpoint" in sec && EndpointAt(net, sec).Ok? && NewlinesStayInZones(net)
    ensures EndpointOneLine(net, sec) <==> NoNewline(sec["Endpoint"])
  {
    var text := ToLower(net.lower, sec["Endpoint"]);
    var parts := SplitHostPort(text).value;
    SplitKeepsNewlines(text, parts.0, parts.1);
    LowerKeepsNewlines(net.lower, sec["Endpoint"]);
  }

  lemma EndpointLineExactly(net: Net, sec: Section)
    requires EndpointAt(net, sec).Ok? && NetOneLine(net)
    ensures OneLine(EndpointAt(net, sec).value) <==> EndpointOneLine(net, sec)
  {
    if "Endpoint" in sec {
      var parts := SplitHostPort(ToLower(net.lower, sec["Endpoint"])).value;
      ResolvedLine(net.resolve(parts.0).value, parts.1);
    }
  }

  lemma SignaturesExactly(sec: Section)
    requires SignaturesOf(sec).Ok?
    ensures SignaturesOneLine(SignaturesOf(sec).value) <==> TextsOneLine(sec)
  {
    assert TEXT_KEYS[0] == "I1" && TEXT_KEYS[1] == "I2" && TEXT_KEYS[2] == "I3" && TEXT_KEYS[3] == "I4" && TEXT_KEYS[4] == "I5";
  }

  lemma RangeOrderedWhenRead(sec: Section, key: string)
    requires Typed(sec, key, ReadRange).Ok?
    ensures Ordered(Typed(sec, key, ReadRange).value)
  {
  }

  lemma HeadersOrderedWhenRead(sec: Section)
    requires HeadersOf(sec).Ok?
    ensures HeadersInOrder(HeadersOf(sec).value)
  {
    RangeOrderedWhenRead(sec, "H1");
    RangeOrderedWhenRead(sec, "H2");
    RangeOrderedWhenRead(sec, "H3");
    RangeOrderedWhenRead(sec, "H4");
  }

  lemma TimingsOrderedWhenRead(sec: Section)
    requires TimingsOf(sec).Ok?
    ensures TimingsInOrder(TimingsOf(sec).value)
  {
    RangeOrderedWhenRead(sec, "ContentPaddingAddition");
    RangeOrderedWhenRead(sec, "RekeyAfterTime");
    RangeOrderedWhenRead(sec, "RekeyTimeout");
    RangeOrderedWhenRead(sec, "RejectAfterTime");
    RangeOrderedWhenRead(sec, "KeepaliveTimeout");
    RangeOrderedWhenRead(sec, "MaxHandshakeAttempts");
  }

  lemma ProtectionOneLine(sec: Section)
    requires Typed(sec, "HeaderProtectionKey", ReadKey).Ok?
    ensures OneLine(Typed(sec, "HeaderProtectionKey", ReadKey).value)
  {
    if "HeaderProtectionKey" in sec {
      var h := ReadKey(sec["HeaderProtectionKey"]).value;
      Keys.ToHexExactly(sec["HeaderProtectionKey"], h);
      Keys.HexKeyIsLineSafe(h);
    }
  }

  lemma WritableExactly(w: Width, ini: Ini, sec: Section, c: ASecConfig)
    requires SettingsOf(w, ini, sec) == Ok(c)
    ensures Writable(c) <==> TextsOneLine(sec)
  {
    HeadersOrderedWhenRead(sec);
    TimingsOrderedWhenRead(sec);
    ProtectionOneLine(sec);
    SignaturesExactly(sec);
  }

  // ---------------------------------------------------------------- keys

  predicate AllZeros(hex: string) {
    forall i :: 0 <= i < |hex| ==> hex[i] == '0'
  }

  function ZeroKey(n: nat): Bytes {
    if n == 0 then [] else [0] + ZeroKey(n - 1)
  }

  lemma {:induction false} ZeroBytes(hex: string, n: nat)
    requires |hex| == 2 * n && AllZeros(hex)
    ensures Hex.Decode(hex) == Some(ZeroKey(n))
  {
    if n > 0 {
      ZeroBytes(hex[2..], n - 1);
    }
  }

  lemma ZerosAreZeros()
    ensures |ZEROS| == 16 && AllZeros(ZEROS)
  {
  }

  lemma NoPresharedKeyIsZero()
    ensures Hex.Decode(NO_PRESHARED_KEY) == Some(ZeroKey(32)) && NoNewline(NO_PRESHARED_KEY)
    ensures Keys.IsHexKey(NO_PRESHARED_KEY)
  {
    ZerosAreZeros();
    ZeroBytes(NO_PRESHARED_KEY, 32);
  }

  /** The bytes a base64 text stands for, in hex on one line. */
  predicate SaysKey(hex: string, text: string) {
    NoNewline(hex) && Keys.IsHexKey(hex) && Base64.Decode(text).Some? && Hex.Decode(hex) == Base64.Decode(text)
  }

  lemma HexSaysKey(text: string, hex: string)
    requires Keys.ToHex(text) == Ok(hex)
    ensures SaysKey(hex, text)
  {
    Keys.ToHexExactly(text, hex);
    Keys.HexKeyIsLineSafe(hex);
  }

  predicate SaysKeyAt(env: Env, sec: Section, key: string, hex: string) {
    StringAt(env, sec, key).Ok? && SaysKey(hex, StringAt(env, sec, key).value)
  }

  lemma HexKeySays(env: Env, sec: Section, key: string, hex: string)
    requires HexKeyAt(env, sec, key) == Ok(hex)
    ensures SaysKeyAt(env, sec, key, hex)
  {
    HexSaysKey(StringAt(env, sec, key).value, hex);
  }

  /** The preshared key of a section, 32 zero bytes when it has none. */
  predicate SaysPresharedKey(sec: Section, hex: string) {
    NoNewline(hex) && Keys.IsHexKey(hex) && Hex.Decode(hex) ==
      if "PreSharedKey" in sec then Base64.Decode(sec["PreSharedKey"]) else Some(ZeroKey(32))
  }

  lemma PresharedKeySays(sec: Section, hex: string)
    requires PresharedKeyAt(sec) == Ok(hex)
    ensures SaysPresharedKey(sec, hex)
  {
    if "PreSharedKey" in sec {
      HexSaysKey(sec["PreSharedKey"], hex);
    } else {
      NoPresharedKeyIsZero();
    }
  }

  // ---------------------------------------------------------------- one peer

  /** The keepalive a section asks for: 0 when absent or off, else the range it states. */
  function AskedKeepalive(sec: Section): UintRange {
    if KeepaliveAt(sec).Ok? && KeepaliveAt(sec).value.Some? then KeepaliveAt(sec).value.value else UintRange(0, 0)
  }

  lemma PeerParts(w: Width, env: Env, net: Net, sec: Section, p: PeerConfig)
    requires PeerOf(w, env, net, sec) == Ok(p)
    ensures HexKeyAt(env, sec, "PublicKey") == Ok(p.publicKey) && PresharedKeyAt(sec) == Ok(p.preSharedKey)
    ensures EndpointAt(net, sec) == Ok(p.endpoint) && AllowedAt(env, net, sec) == Ok(p.allowedIPs)
    ensures KeepaliveAt(sec) == Ok(p.keepAliveRange)
    ensures p.keepAliveRange.Some? ==> FromParser(w, p, p.keepAliveRange.value)
    ensures p.keepAliveRange.None? ==> p.keepAlive == 0 && p.keepAliveMax == 0
  {
  }

  lemma AskedKeepaliveOrdered(sec: Section)
    ensures AskedKeepalive(sec).min <= AskedKeepalive(sec).max
  {
  }

  lemma KeepaliveReaches(w: Width, sec: Section, p: PeerConfig)
    requires KeepaliveAt(sec) == Ok(p.keepAliveRange)
    requires p.keepAliveRange.Some? ==> FromParser(w, p, p.keepAliveRange.value)
    requires p.keepAliveRange.None? ==> p.keepAlive == 0 && p.keepAliveMax == 0
    ensures KeepaliveRange(w, p) == Ok(AskedKeepalive(sec))
  {
    if p.keepAliveRange.Some? {
      ParsedRangeSurvives(w, p, p.keepAliveRange.value);
    }
  }

  lemma {:induction false} ItemsOneLine(parse: string -> Option<string>, parts: seq<string>)
    requires (forall s :: OneLine(parse(s))) && CommaLists.Items(parse, parts).Some?
    ensures forall i :: 0 <= i < |CommaLists.Items(parse, parts).value| ==> NoNewline(CommaLists.Items(parse, parts).value[i])
  {
    if parts != [] {
      ItemsOneLine(parse, parts[..|parts| - 1]);
      assert OneLine(parse(TrimSpace(parts[|parts| - 1])));
    }
  }

  /** The keepalive of a section: the range its text denotes, or 0 when it is off or absent. */
  ghost predicate SaysKeepalive(sec: Section, r: UintRange) {
    if "PersistentKeepalive" in sec
    then Denotes(sec["PersistentKeepalive"], r) || (SaysOff(sec["PersistentKeepalive"]) && r == UintRange(0, 0))
    else r == UintRange(0, 0)
  }

  /** The allowed IPs of a section: the prefixes of its list in order, or everything when there is none. */
  ghost predicate SaysAllowed(env: Env, net: Net, sec: Section, ips: seq<string>) {
    || (ips != [] && SaysList(env, sec, "AllowedIPs", net.prefix, ips))
    || (ips == ["0.0.0.0/0", "::0/0"] && SaysList(env, sec, "AllowedIPs", net.prefix, []))
  }

  /** A peer as the device reads it says what the texts of the section say. */
  ghost predicate PeerSays(env: Env, net: Net, sec: Section, q: PeerRead) {
    && SaysKeyAt(env, sec, "PublicKey", q.publicKey)
    && q.presharedKey.Some? && SaysPresharedKey(sec, q.presharedKey.value)
    && (if "Endpoint" in sec then q.endpoint.Some? && SaysEndpoint(net, sec["Endpoint"], q.endpoint.value) else q.endpoint == None)
    && q.keepalive.Some? && SaysKeepalive(sec, q.keepalive.value)
    && SaysAllowed(env, net, sec, q.allowedIps)
  }

  lemma AskedKeepaliveSays(sec: Section)
    requires KeepaliveAt(sec).Ok?
    ensures SaysKeepalive(sec, AskedKeepalive(sec))
  {
    KeepaliveExactly(sec, AskedKeepalive(sec));
  }

  lemma EndpointSays(net: Net, sec: Section, endpoint: Option<string>)
    requires EndpointAt(net, sec) == Ok(endpoint)
    ensures if "Endpoint" in sec then endpoint.Some? && SaysEndpoint(net, sec["Endpoint"], endpoint.value) else endpoint == None
  {
    EndpointExactly(net, sec, if endpoint.Some? then endpoint.value else "");
  }

  lemma AllowedSays(env: Env, net: Net, sec: Section, p: PeerConfig)
    requires AllowedAt(env, net, sec) == Ok(p.allowedIPs)
    ensures SaysAllowed(env, net, sec, AllowedOf(p))
  {
    ListAtExactly(env, sec, "AllowedIPs", net.prefix, p.allowedIPs);
  }

  lemma PeerReaches(w: Width, env: Env, net: Net, sec: Section, p: PeerConfig)
    requires PeerOf(w, env, net, sec) == Ok(p)
    ensures KeepaliveRange(w, p) == Ok(AskedKeepalive(sec))
    ensures PeerSays(env, net, sec, PeerAsRead(p, AskedKeepalive(sec)))
  {
    PeerParts(w, env, net, sec, p);
    KeepaliveReaches(w, sec, p);
    HexKeySays(env, sec, "PublicKey", p.publicKey);
    PresharedKeySays(sec, p.preSharedKey);
    AskedKeepaliveSays(sec);
    EndpointSays(net, sec, p.endpoint);
    AllowedSays(env, net, sec, p);
  }

  lemma SaysKeyBack(env: Env, sec: Section, key: string, hex: string)
    requires SaysKeyAt(env, sec, key, hex)
    ensures HexKeyAt(env, sec, key).Ok?
  {
    Keys.ToHexExactly(StringAt(env, sec, key).value, hex);
  }

  lemma SaysPresharedKeyBack(sec: Section, hex: string)
    requires SaysPresharedKey(sec, hex)
    ensures PresharedKeyAt(sec).Ok?
  {
    if "PreSharedKey" in sec && Base64.Decode(sec["PreSharedKey"]).Some? {
      Keys.ToHexExactly(sec["PreSharedKey"], hex);
    } else if "PreSharedKey" in sec {
      HexDecodes(hex);
    }
  }

  lemma {:induction false} HexDecodes(hex: string)
    requires |hex| % 2 == 0 && forall i :: 0 <= i < |hex| ==> Hex.IsHexDigit(hex[i])
    ensures Hex.Decode(hex).Some?
  {
    if hex != "" { HexDecodes(hex[2..]); }
  }

  lemma SaysKeepaliveBack(sec: Section, r: UintRange)
    requires SaysKeepalive(sec, r)
    ensures KeepaliveAt(sec).Ok?
  {
    KeepaliveExactly(sec, r);
  }

  lemma SaysAllowedBack(env: Env, net: Net, sec: Section, ips: seq<string>)
    requires SaysAllowed(env, net, sec, ips)
    ensures AllowedAt(env, net, sec).Ok?
  {
    ListAtExactly(env, sec, "AllowedIPs", net.prefix, ips);
    ListAtExactly(env, sec, "AllowedIPs", net.prefix, []);
  }

  ghost predicate SaysAPeer(env: Env, net: Net, sec: Section) {
    exists q :: PeerSays(env, net, sec, q)
  }

  /** A peer section is accepted if and only if its texts say some peer. */
  lemma PeerAcceptedExactly(w: Width, env: Env, net: Net, sec: Section)
    ensures PeerOf(w, env, net, sec).Ok? <==> SaysAPeer(env, net, sec)
  {
    if PeerOf(w, env, net, sec).Ok? {
      PeerReaches(w, env, net, sec, PeerOf(w, env, net, sec).value);
    }
    if q :| PeerSays(env, net, sec, q) {
      SaysKeyBack(env, sec, "PublicKey", q.publicKey);
      SaysPresharedKeyBack(sec, q.presharedKey.value);
      EndpointExactly(net, sec, if q.endpoint.Some? then q.endpoint.value else "");
      SaysKeepaliveBack(sec, q.keepalive.value);
      SaysAllowedBack(env, net, sec, q.allowedIps);
    }
  }

  lemma ParsedPeerOneLine(w: Width, env: Env, net: Net, sec: Section, p: PeerConfig)
    requires PeerOf(w, env, net, sec) == Ok(p) && NetOneLine(net)
    ensures PeerOneLine(p) <==> EndpointOneLine(net, sec)
  {
    PeerParts(w, env, net, sec, p);
    HexKeySays(env, sec, "PublicKey", p.publicKey);
    PresharedKeySays(sec, p.preSharedKey);
    ItemsOneLine(net.prefix, Split(StringAt(env, sec, "AllowedIPs").value, ','));
    EndpointLineExactly(net, sec);
  }

  // ---------------------------------------------------------------- all peers

  /** The peers of an accepted file: as many as sections, each with a keepalive and all in order. */
  lemma ParsedPeers(w: Width, env: Env, net: Net, sections: seq<Section>, peers: seq<PeerConfig>)
    requires Collect(PeerReader(w, env, net), sections) == Ok(peers)
    ensures |peers| == |sections| && AllKeepalives(w, peers) && KeepalivesOrdered(w, peers)
    ensures forall i :: 0 <= i < |peers| ==> PeerSays(env, net, sections[i], PeersAsRead(w, peers)[i])
    ensures NetOneLine(net) ==> forall i :: 0 <= i < |peers| ==> (PeerOneLine(peers[i]) <==> EndpointOneLine(net, sections[i]))
  {
    CollectExactly(PeerReader(w, env, net), sections, peers);
    forall i | 0 <= i < |peers|
      ensures KeepaliveRange(w, peers[i]) == Ok(AskedKeepalive(sections[i]))
      ensures PeerSays(env, net, sections[i], PeerAsRead(peers[i], AskedKeepalive(sections[i])))
      ensures KeepaliveRange(w, peers[i]).value.min <= KeepaliveRange(w, peers[i]).value.max
      ensures NetOneLine(net) ==> (PeerOneLine(peers[i]) <==> EndpointOneLine(net, sections[i]))
    {
      assert PeerReader(w, env, net)(sections[i]) == Ok(peers[i]);
      PeerReaches(w, env, net, sections[i], peers[i]);
      AskedKeepaliveOrdered(sections[i]);
      if NetOneLine(net) { ParsedPeerOneLine(w, env, net, sections[i], peers[i]); }
    }
  }

  // ---------------------------------------------------------------- the whole file

  /** What the device is told is what the file says. */
  ghost predicate DeviceSays(w: Width, ini: Ini, env: Env, net: Net, sec: Section, sections: seq<Section>, d: DeviceRead) {
    && SaysKeyAt(env, sec, "PrivateKey", d.privateKey)
    && SaysInt(w, ini, sec, "ListenPort", d.listenPort)
    && SettingsSay(w, ini, sec, d.settings)
    && |d.peers| == |sections|
    && forall i :: 0 <= i < |sections| ==> PeerSays(env, net, sections[i], d.peers[i])
  }

  lemma AcceptedSettings(w: Width, ini: Ini, sec: Section)
    requires ASecAt(w, ini, sec).Ok?
    ensures SettingsOf(w, ini, sec) ==
      Ok(if ASecAt(w, ini, sec).value.None? then NOTHING_SET else ASecAt(w, ini, sec).value.value)
  {
  }

  lemma DeviceParts(w: Width, ini: Ini, env: Env, net: Net, interfaces: seq<Section>, sections: seq<Section>, conf: DeviceConfig)
    requires DeviceOf(w, ini, env, net, interfaces, sections) == Ok(conf)
    ensures |interfaces| == 1 && HexKeyAt(env, interfaces[0], "PrivateKey") == Ok(conf.secretKey)
    ensures IntAt(w, ini, interfaces[0], "ListenPort") == Ok(conf.listenPort)
    ensures sections != [] && Collect(PeerReader(w, env, net), sections) == Ok(conf.peers)
    ensures SettingsOf(w, ini, interfaces[0]) == Ok(EffectiveSettings(conf))
  {
    AcceptedSettings(w, ini, interfaces[0]);
  }

  lemma PeersAcceptedExactly(w: Width, env: Env, net: Net, sections: seq<Section>)
    ensures Collect(PeerReader(w, env, net), sections).Ok? <==>
      forall i :: 0 <= i < |sections| ==> PeerOf(w, env, net, sections[i]).Ok?
  {
    var f := PeerReader(w, env, net);
    if Collect(f, sections).Ok? {
      CollectExactly(f, sections, Collect(f, sections).value);
      forall i | 0 <= i < |sections| ensures PeerOf(w, env, net, sections[i]).Ok? { assert f(sections[i]).Ok?; }
    }
    if forall i :: 0 <= i < |sections| ==> PeerOf(w, env, net, sections[i]).Ok? {
      var peers := seq(|sections|, i requires 0 <= i < |sections| => PeerOf(w, env, net, sections[i]).value);
      CollectExactly(f, sections, peers);
    }
  }

  /** The texts say settings, and those have no problem unless there are none. */
  ghost predicate SaysValidSettings(w: Width, ini: Ini, sec: Section) {
    exists c :: SettingsSay(w, ini, sec, c) && (c == NOTHING_SET || FirstProblem(w, c) == None)
  }

  lemma SettingsAcceptedExactly(w: Width, ini: Ini, sec: Section)
    ensures ASecAt(w, ini, sec).Ok? <==> SaysValidSettings(w, ini, sec)
  {
    if SettingsOf(w, ini, sec).Ok? {
      SettingsExactly(w, ini, sec, SettingsOf(w, ini, sec).value);
    }
    if c :| SettingsSay(w, ini, sec, c) && (c == NOTHING_SET || FirstProblem(w, c) == None) {
      SettingsExactly(w, ini, sec, c);
    }
  }

  lemma DeviceOkExactly(w: Width, ini: Ini, env: Env, net: Net, interfaces: seq<Section>, sections: seq<Section>)
    ensures DeviceOf(w, ini, env, net, interfaces, sections).Ok? <==>
      && |interfaces| == 1 && sections != [] && BasicsOf(w, ini, env, net, interfaces[0]).Ok? && ASecAt(w, ini, interfaces[0]).Ok?
      && Collect(PeerReader(w, env, net), sections).Ok?
  {
  }

  ghost predicate SaysAnInterface(w: Width, ini: Ini, env: Env, net: Net, sec: Section) {
    exists d :: InterfaceSays(w, ini, env, net, sec, d) && SaysKeyAt(env, sec, "PrivateKey", d.secretKey)
  }

  lemma BasicsAcceptedExactly(w: Width, ini: Ini, env: Env, net: Net, sec: Section)
    ensures BasicsOf(w, ini, env, net, sec).Ok? <==> SaysAnInterface(w, ini, env, net, sec)
  {
    if BasicsOf(w, ini, env, net, sec).Ok? {
      var d := BasicsOf(w, ini, env, net, sec).value;
      BasicsExactly(w, ini, env, net, sec, d);
      HexKeySays(env, sec, "PrivateKey", d.secretKey);
    }
    if d :| InterfaceSays(w, ini, env, net, sec, d) && SaysKeyAt(env, sec, "PrivateKey", d.secretKey) {
      SaysKeyBack(env, sec, "PrivateKey", d.secretKey);
      var e := d.(secretKey := HexKeyAt(env, sec, "PrivateKey").value, asec := None);
      BasicsExactly(w, ini, env, net, sec, e);
    }
  }

  lemma PeersSayExactly(w: Width, env: Env, net: Net, sections: seq<Section>)
    ensures Collect(PeerReader(w, env, net), sections).Ok? <==>
      forall i :: 0 <= i < |sections| ==> SaysAPeer(env, net, sections[i])
  {
    PeersAcceptedExactly(w, env, net, sections);
    forall i | 0 <= i < |sections| ensures PeerOf(w, env, net, sections[i]).Ok? <==> SaysAPeer(env, net, sections[i]) {
      PeerAcceptedExactly(w, env, net, sections[i]);
    }
  }

  /**
  A file is accepted if and only if it has exactly one [Interface] section, whose texts say an
  interface with a private key and settings without a problem, and at least one [Peer] section, each
  of which says a peer.
  */
  lemma FileAcceptedExactly(w: Width, ini: Ini, env: Env, net: Net, interfaces: seq<Section>, sections: seq<Section>)
    ensures DeviceOf(w, ini, env, net, interfaces, sections).Ok? <==>
      && |interfaces| == 1 && SaysAnInterface(w, ini, env, net, interfaces[0]) && SaysValidSettings(w, ini, interfaces[0])
      && sections != [] && forall i :: 0 <= i < |sections| ==> SaysAPeer(env, net, sections[i])
  {
    DeviceOkExactly(w, ini, env, net, interfaces, sections);
    PeersSayExactly(w, env, net, sections);
    if |interfaces| == 1 {
      BasicsAcceptedExactly(w, ini, env, net, interfaces[0]);
      SettingsAcceptedExactly(w, ini, interfaces[0]);
    }
  }

  lemma SerializableExactly(w: Width, ini: Ini, env: Env, net: Net, sec: Section, sections: seq<Section>, conf: DeviceConfig)
    requires NetOneLine(net) && NoNewline(conf.secretKey) && SettingsOf(w, ini, sec) == Ok(EffectiveSettings(conf))
    requires Collect(PeerReader(w, env, net), sections) == Ok(conf.peers)
    ensures AllKeepalives(w, conf.peers) && |conf.peers| == |sections|
    ensures forall i :: 0 <= i < |sections| ==> PeerSays(env, net, sections[i], PeersAsRead(w, conf.peers)[i])
    ensures Serializable(w, conf) <==> FileOneLine(net, sec, sections)
  {
    ParsedPeers(w, env, net, sections, conf.peers);
    WritableExactly(w, ini, sec, EffectiveSettings(conf));
  }

  /**
  An accepted file always gives a request. The device reads from it what the file says, every key,
  port, setting and peer, if and only if none of I1-I5, no port text of an endpoint and no zone of
  a resolved endpoint contains a newline.
  */
  lemma FileReachesDevice(w: Width, ini: Ini, env: Env, net: Net, interfaces: seq<Section>, sections: seq<Section>, conf: DeviceConfig)
    requires DeviceOf(w, ini, env, net, interfaces, sections) == Ok(conf) && NetOneLine(net)
    ensures RequestText(w, conf).Ok? && AllKeepalives(w, conf.peers) && |interfaces| == 1
    ensures DeviceSays(w, ini, env, net, interfaces[0], sections, DeviceAsRead(w, conf))
    ensures ReadRequest(RequestText(w, conf).value) == Some(DeviceAsRead(w, conf)) <==> FileOneLine(net, interfaces[0], sections)
  {
    var sec := interfaces[0];
    DeviceParts(w, ini, env, net, interfaces, sections, conf);
    HexKeySays(env, sec, "PrivateKey", conf.secretKey);
    IntAtExactly(w, ini, sec, "ListenPort", conf.listenPort);
    SettingsExactly(w, ini, sec, EffectiveSettings(conf));
    SerializableExactly(w, ini, env, net, sec, sections, conf);
    RoundTripExactly(w, conf);
  }
}
