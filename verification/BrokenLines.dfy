/**
What becomes of a request when a text with a newline reaches it: the rest of the text is a line of
its own, and the device reads a setting or an allowed IP that the file does not have.
*/
module BrokenLines {
  import opened Wrappers
  import opened Text
  import opened UintRanges
  import opened Machine
  import opened AwgConfig
  import opened AwgParse
  import opened IpcLines
  import opened AwgIpc
  import opened IpcRequest
  import opened IpcReader
  import opened IpcRoundTrip
  import opened Endpoints
  import opened ConfigFile
  import opened FileToDevice
  import opened RequestLines
  import CommaLists

  // ---------------------------------------------------------------- the text

  /** The value of `f` followed by a newline and the line of `g`. */
  function Merged(f: Field, g: Field): Field
    requires f.text.Some? && g.text.Some?
  {
    Field(f.name, Some(f.text.value + "\n" + (g.name + "=" + g.text.value)))
  }

  /** One value with a line in it and two values have the same text. */
  lemma MergedText(f: Field, g: Field)
    requires f.text.Some? && g.text.Some?
    ensures TextOf([Merged(f, g)]) == TextOf([f, g])
  {
    RenderOne(f);
    RenderOne(g);
    RenderOne(Merged(f, g));
    assert [f] + [g] == [f, g];
    TextAppend([f], [g]);
    var line := g.name + "=" + g.text.value;
    assert f.name + "=" + (f.text.value + "\n" + line) + "\n" == f.name + "=" + f.text.value + "\n" + (line + "\n");
  }

  lemma MergedBetween(a: seq<Field>, f: Field, g: Field, b: seq<Field>)
    requires f.text.Some? && g.text.Some?
    ensures TextOf(a + [Merged(f, g)] + b) == TextOf(a + [f, g] + b)
  {
    MergedText(f, g);
    TextAppend(a, [Merged(f, g)]);
    TextAppend(a, [f, g]);
    TextAppend(a + [Merged(f, g)], b);
    TextAppend(a + [f, g], b);
  }

  // ---------------------------------------------------------------- a line in I1

  /** The settings that the text of `c` says when its I1 is `x`, a newline and "i2=y". */
  function WithI2(c: ASecConfig, x: string, y: string): ASecConfig {
    c.(signatures := c.signatures.(i1 := Some(x), i2 := Some(y)))
  }

  lemma SignatureTexts(s: Signatures, x: string, y: string)
    requires s.i1 == Some(x + "\n" + ("i2" + "=" + y)) && s.i2 == None
    ensures TextOf(SignatureFields(s)) == TextOf(SignatureFields(s.(i1 := Some(x), i2 := Some(y))))
  {
    var f, g, none := Field("i1", Some(x)), Field("i2", Some(y)), Field("i2", None);
    var rest := [Field("i3", s.i3), Field("i4", s.i4), Field("i5", s.i5)];
    MergedText(f, g);
    assert SignatureFields(s) == [Merged(f, g)] + ([none] + rest);
    assert SignatureFields(s.(i1 := Some(x), i2 := Some(y))) == [f, g] + rest;
    TextAppend([Merged(f, g)], [none] + rest);
    TextAppend([none], rest);
    TextAppend([f, g], rest);
    RenderOne(none);
  }

  lemma FieldsText(c: ASecConfig, d: ASecConfig)
    requires d == c.(signatures := d.signatures)
    requires TextOf(SignatureFields(c.signatures)) == TextOf(SignatureFields(d.signatures))
    ensures TextOf(Fields(c)) == TextOf(Fields(d))
  {
    var a := JunkFields(c.junk) + PaddingFields(c.padding) + HeaderFields(c.headers);
    var b := [Field("header_protection_key", c.headerProtectionKey)] + TimingFields(c.timings) + SwitchFields(c.switches);
    FieldsSplit(c, a, b);
    FieldsSplit(d, a, b);
    TextAppend(a, SignatureFields(c.signatures));
    TextAppend(a, SignatureFields(d.signatures));
    TextAppend(a + SignatureFields(c.signatures), b);
    TextAppend(a + SignatureFields(d.signatures), b);
  }

  lemma FieldsSplit(c: ASecConfig, a: seq<Field>, b: seq<Field>)
    requires a == JunkFields(c.junk) + PaddingFields(c.padding) + HeaderFields(c.headers)
    requires b == [Field("header_protection_key", c.headerProtectionKey)] + TimingFields(c.timings) + SwitchFields(c.switches)
    ensures Fields(c) == a + SignatureFields(c.signatures) + b
  {
    var head := a + SignatureFields(c.signatures);
    var key := [Field("header_protection_key", c.headerProtectionKey)];
    AppendAssoc(head, key, TimingFields(c.timings));
    AppendAssoc(head, key + TimingFields(c.timings), SwitchFields(c.switches));
  }

  /** The request of such a configuration is that of the one with I1 = x and I2 = y. */
  lemma LineInI1(w: Width, conf: DeviceConfig, x: string, y: string)
    requires conf.asec.Some? && RequestText(w, conf).Ok?
    requires conf.asec.value.signatures.i1 == Some(x + "\n" + ("i2" + "=" + y)) && conf.asec.value.signatures.i2 == None
    ensures RequestText(w, conf) == RequestText(w, conf.(asec := Some(WithI2(conf.asec.value, x, y))))
  {
    var c, d := conf.asec.value, WithI2(conf.asec.value, x, y);
    var basics := [Field("private_key", Some(conf.secretKey)), Field("listen_port", IntText(conf.listenPort))];
    var peers := PeersFields(w, conf.peers).value;
    SignatureTexts(c.signatures, x, y);
    FieldsText(c, d);
    TextAppend(basics, Fields(c));
    TextAppend(basics, Fields(d));
    TextAppend(basics + Fields(c), peers);
    TextAppend(basics + Fields(d), peers);
  }

  // ---------------------------------------------------------------- a line in an endpoint

  /** The peer that the text of `p` says when its endpoint is `e`, a newline and "allowed_ip=ip". */
  function WithAllowed(p: PeerConfig, e: string, ip: string): PeerConfig {
    p.(endpoint := Some(e), allowedIPs := [ip] + AllowedOf(p))
  }

  predicate LineInEndpoint(p: PeerConfig, e: string, ip: string) {
    p.endpoint == Some(e + "\n" + ("allowed_ip" + "=" + ip))
  }

  lemma PeerTexts(p: PeerConfig, keepalive: UintRange, e: string, ip: string)
    requires LineInEndpoint(p, e, ip)
    ensures TextOf(PeerFields(p, keepalive)) == TextOf(PeerFields(WithAllowed(p, e, ip), keepalive))
  {
    var q := WithAllowed(p, e, ip);
    var f, g := Field("endpoint", Some(e)), Field("allowed_ip", Some(ip));
    var a, b := PeerHead(p, keepalive)[..3], AllowedFields(AllowedOf(p));
    assert PeerFields(p, keepalive) == a + [Merged(f, g)] + b;
    assert AllowedFields(AllowedOf(q)) == [g] + b && PeerHead(q, keepalive) == a + [f];
    assert PeerFields(q, keepalive) == a + [f, g] + b;
    MergedBetween(a, f, g, b);
  }

  lemma BlockTexts(w: Width, p: PeerConfig, e: string, ip: string)
    requires LineInEndpoint(p, e, ip) && KeepaliveRange(w, p).Ok?
    ensures KeepaliveRange(w, WithAllowed(p, e, ip)) == KeepaliveRange(w, p)
    ensures BlockText(w, WithAllowed(p, e, ip)) == BlockText(w, p)
  {
    PeerTexts(p, KeepaliveRange(w, p).value, e, ip);
  }

  /** The request of such a configuration is that of the one with endpoint e and one more allowed IP. */
  lemma LineInAnEndpoint(w: Width, conf: DeviceConfig, j: nat, e: string, ip: string)
    requires AllKeepalives(w, conf.peers) && j < |conf.peers| && LineInEndpoint(conf.peers[j], e, ip)
    requires AllKeepalives(w, conf.peers[j := WithAllowed(conf.peers[j], e, ip)])
    ensures RequestText(w, conf).Ok?
    ensures RequestText(w, conf) == RequestText(w, conf.(peers := conf.peers[j := WithAllowed(conf.peers[j], e, ip)]))
  {
    var others := conf.peers[j := WithAllowed(conf.peers[j], e, ip)];
    BlockTexts(w, conf.peers[j], e, ip);
    assert BlockTextsOf(w, conf.peers) == BlockTextsOf(w, others);
    PeersText(w, conf.peers);
    PeersText(w, others);
    TextAppend(InterfaceFields(conf), PeersFields(w, conf.peers).value);
    TextAppend(InterfaceFields(conf), PeersFields(w, others).value);
  }

  // ---------------------------------------------------------------- accepted files

  predicate AllOneLine(peers: seq<PeerConfig>) {
    forall i :: 0 <= i < |peers| ==> PeerOneLine(peers[i])
  }

  predicate EndpointsOneLine(net: Net, sections: seq<Section>) {
    forall i :: 0 <= i < |sections| ==> EndpointOneLine(net, sections[i])
  }

  /** The section without I1 and I2 has no newline in its texts. */
  predicate OtherTextsOneLine(sec: Section) {
    forall k :: 2 <= k < 5 && TEXT_KEYS[k] in sec ==> NoNewline(sec[TEXT_KEYS[k]])
  }

  lemma WithI2Writable(w: Width, ini: Ini, sec: Section, c: ASecConfig, x: string, y: string)
    requires SettingsOf(w, ini, sec) == Ok(c) && OtherTextsOneLine(sec) && NoNewline(x) && NoNewline(y)
    ensures Writable(WithI2(c, x, y))
  {
    HeadersOrderedWhenRead(sec);
    TimingsOrderedWhenRead(sec);
    ProtectionOneLine(sec);
    assert TEXT_KEYS[2] == "I3" && TEXT_KEYS[3] == "I4" && TEXT_KEYS[4] == "I5";
  }

  lemma SignaturesRead(w: Width, ini: Ini, sec: Section, c: ASecConfig)
    requires SettingsOf(w, ini, sec) == Ok(c)
    ensures c.signatures.i1 == (if "I1" in sec then Some(sec["I1"]) else None)
    ensures c.signatures.i2 == (if "I2" in sec then Some(sec["I2"]) else None)
  {
  }

  lemma PeersSerializable(w: Width, env: Env, net: Net, sections: seq<Section>, peers: seq<PeerConfig>)
    requires Collect(PeerReader(w, env, net), sections) == Ok(peers) && NetOneLine(net) && EndpointsOneLine(net, sections)
    ensures AllKeepalives(w, peers) && KeepalivesOrdered(w, peers) && AllOneLine(peers)
  {
    ParsedPeers(w, env, net, sections, peers);
  }

  lemma I1ReadBack(w: Width, ini: Ini, sec: Section, conf: DeviceConfig, x: string, y: string)
    requires NoNewline(conf.secretKey) && SettingsOf(w, ini, sec) == Ok(EffectiveSettings(conf)) && OtherTextsOneLine(sec)
    requires "I1" in sec && "I2" !in sec && sec["I1"] == x + "\n" + ("i2" + "=" + y) && NoNewline(x) && NoNewline(y)
    requires AllKeepalives(w, conf.peers) && KeepalivesOrdered(w, conf.peers) && AllOneLine(conf.peers)
    ensures RequestText(w, conf).Ok?
    ensures ReadRequest(RequestText(w, conf).value) ==
      Some(DeviceAsRead(w, conf).(settings := WithI2(EffectiveSettings(conf), x, y)))
  {
    var c := EffectiveSettings(conf);
    SignaturesRead(w, ini, sec, c);
    WithI2Writable(w, ini, sec, c, x, y);
    RequestReadsBack(w, conf.(asec := Some(WithI2(c, x, y))));
    PeersFieldsOk(w, conf.peers);
    LineInI1(w, conf, x, y);
  }

  /**
  For every accepted file whose I1 is `x`, a newline and "i2=y", the device silently gets I1 = x and
  I2 = y, although the file has no I2; everything else is as the file says.
  */
  lemma NewlineInI1SetsI2(w: Width, ini: Ini, env: Env, net: Net, interfaces: seq<Section>, sections: seq<Section>,
                          conf: DeviceConfig, x: string, y: string)
    requires DeviceOf(w, ini, env, net, interfaces, sections) == Ok(conf) && NetOneLine(net)
    requires |interfaces| == 1 && "I1" in interfaces[0] && "I2" !in interfaces[0]
    requires interfaces[0]["I1"] == x + "\n" + ("i2" + "=" + y) && NoNewline(x) && NoNewline(y)
    requires OtherTextsOneLine(interfaces[0]) && EndpointsOneLine(net, sections)
    ensures RequestText(w, conf).Ok? && AllKeepalives(w, conf.peers)
    ensures ReadRequest(RequestText(w, conf).value) ==
      Some(DeviceAsRead(w, conf).(settings := WithI2(EffectiveSettings(conf), x, y)))
  {
    DeviceParts(w, ini, env, net, interfaces, sections, conf);
    HexKeySays(env, interfaces[0], "PrivateKey", conf.secretKey);
    PeersSerializable(w, env, net, sections, conf.peers);
    I1ReadBack(w, ini, interfaces[0], conf, x, y);
  }

  /** A peer in this form loses its newline and gains an allowed IP. */
  lemma WithAllowedOneLine(w: Width, env: Env, net: Net, sec: Section, p: PeerConfig, e: string, ip: string)
    requires PeerOf(w, env, net, sec) == Ok(p) && NetOneLine(net) && NoNewline(e) && NoNewline(ip)
    ensures PeerOneLine(WithAllowed(p, e, ip))
  {
    PeerParts(w, env, net, sec, p);
    HexKeySays(env, sec, "PublicKey", p.publicKey);
    PresharedKeySays(sec, p.preSharedKey);
    ItemsOneLine(net.prefix, Split(StringAt(env, sec, "AllowedIPs").value, ','));
    DefaultsOneLine();
  }

  lemma ParsedPeerAt(w: Width, env: Env, net: Net, sections: seq<Section>, peers: seq<PeerConfig>, j: nat)
    requires Collect(PeerReader(w, env, net), sections) == Ok(peers) && j < |peers|
    ensures |peers| == |sections| && PeerOf(w, env, net, sections[j]) == Ok(peers[j])
  {
    CollectExactly(PeerReader(w, env, net), sections, peers);
    assert PeerReader(w, env, net)(sections[j]) == Ok(peers[j]);
  }

  lemma RepairedPeerOneLine(w: Width, env: Env, net: Net, sections: seq<Section>, peers: seq<PeerConfig>,
                            j: nat, e: string, ip: string)
    requires Collect(PeerReader(w, env, net), sections) == Ok(peers) && NetOneLine(net) && j < |peers|
    requires NoNewline(e) && NoNewline(ip)
    ensures PeerOneLine(WithAllowed(peers[j], e, ip))
  {
    ParsedPeerAt(w, env, net, sections, peers, j);
    WithAllowedOneLine(w, env, net, sections[j], peers[j], e, ip);
  }

  lemma ParsedLines(w: Width, env: Env, net: Net, sections: seq<Section>, peers: seq<PeerConfig>, j: nat)
    requires Collect(PeerReader(w, env, net), sections) == Ok(peers) && NetOneLine(net)
    requires forall i :: 0 <= i < |sections| && i != j ==> EndpointOneLine(net, sections[i])
    ensures AllKeepalives(w, peers) && KeepalivesOrdered(w, peers)
    ensures forall i :: 0 <= i < |peers| && i != j ==> PeerOneLine(peers[i])
  {
    ParsedPeers(w, env, net, sections, peers);
  }

  lemma ReplacedPeer(w: Width, peers: seq<PeerConfig>, j: nat, q: PeerConfig)
    requires j < |peers| && KeepalivesOrdered(w, peers) && KeepaliveRange(w, q) == KeepaliveRange(w, peers[j])
    requires PeerOneLine(q) && forall i :: 0 <= i < |peers| && i != j ==> PeerOneLine(peers[i])
    requires AllKeepalives(w, peers)
    ensures AllKeepalives(w, peers[j := q]) && KeepalivesOrdered(w, peers[j := q]) && AllOneLine(peers[j := q])
  {
  }

  lemma EndpointReadBack(w: Width, conf: DeviceConfig, j: nat, e: string, ip: string)
    requires NoNewline(conf.secretKey) && Writable(EffectiveSettings(conf))
    requires AllKeepalives(w, conf.peers) && KeepalivesOrdered(w, conf.peers)
    requires j < |conf.peers| && LineInEndpoint(conf.peers[j], e, ip) && PeerOneLine(WithAllowed(conf.peers[j], e, ip))
    requires forall i :: 0 <= i < |conf.peers| && i != j ==> PeerOneLine(conf.peers[i])
    ensures RequestText(w, conf).Ok?
    ensures var others := conf.peers[j := WithAllowed(conf.peers[j], e, ip)];
      AllKeepalives(w, others) && ReadRequest(RequestText(w, conf).value) == Some(DeviceAsRead(w, conf.(peers := others)))
  {
    var q := WithAllowed(conf.peers[j], e, ip);
    BlockTexts(w, conf.peers[j], e, ip);
    ReplacedPeer(w, conf.peers, j, q);
    LineInAnEndpoint(w, conf, j, e, ip);
    RequestReadsBack(w, conf.(peers := conf.peers[j := q]));
  }

  /**
  For every accepted file in which an endpoint resolves to `e` followed by a newline and
  "allowed_ip=ip", the device silently gets the endpoint e and one more allowed IP for that peer;
  everything else is as the file says.
  */
  lemma NewlineInPortAddsAllowedIP(w: Width, ini: Ini, env: Env, net: Net, interfaces: seq<Section>, sections: seq<Section>,
                                   conf: DeviceConfig, j: nat, e: string, ip: string)
    requires DeviceOf(w, ini, env, net, interfaces, sections) == Ok(conf) && NetOneLine(net)
    requires |interfaces| == 1 && TextsOneLine(interfaces[0]) && j < |conf.peers| && LineInEndpoint(conf.peers[j], e, ip)
    requires forall i :: 0 <= i < |sections| && i != j ==> EndpointOneLine(net, sections[i])
    requires NoNewline(e) && NoNewline(ip)
    ensures AllKeepalives(w, conf.peers) && RequestText(w, conf).Ok?
    ensures var others := conf.peers[j := WithAllowed(conf.peers[j], e, ip)];
      AllKeepalives(w, others) && ReadRequest(RequestText(w, conf).value) == Some(DeviceAsRead(w, conf.(peers := others)))
  {
    DeviceParts(w, ini, env, net, interfaces, sections, conf);
    HexKeySays(env, interfaces[0], "PrivateKey", conf.secretKey);
    WritableExactly(w, ini, interfaces[0], EffectiveSettings(conf));
    ParsedLines(w, env, net, sections, conf.peers, j);
    RepairedPeerOneLine(w, env, net, sections, conf.peers, j, e, ip);
    EndpointReadBack(w, conf, j, e, ip);
  }

  // ---------------------------------------------------------------- two of them

  lemma EmptyList(parse: string -> Option<string>)
    ensures CommaLists.ListOf(parse, "") == Some([])
  {
    assert Split("", ',') == [""];
    assert [""][..0] == [];
    assert CommaLists.Items(parse, [""]) == Some([]);
  }

  const I1_WITH_A_LINE := "x" + "\n" + ("i2" + "=" + "y")

  lemma SectionWithI1(w: Width, ini: Ini, key: string)
    ensures var sec := map["PrivateKey" := key, "I1" := I1_WITH_A_LINE];
      ASecAt(w, ini, sec) == Ok(Some(NOTHING_SET.(signatures := NOTHING_SET.signatures.(i1 := Some(I1_WITH_A_LINE)))))
  {
    var sec := map["PrivateKey" := key, "I1" := I1_WITH_A_LINE];
    var c := NOTHING_SET.(signatures := NOTHING_SET.signatures.(i1 := Some(I1_WITH_A_LINE)));
    assert TimingsOf(sec) == Ok(NOTHING_SET.timings);
    assert HeadersOf(sec) == Ok(NOTHING_SET.headers);
    assert SettingsOf(w, ini, sec) == Ok(c);
    assert Acceptable(w, c);
  }

  lemma BasicsWithI1(w: Width, ini: Ini, env: Env, net: Net, sec: Section)
    requires HexKeyAt(env, sec, "PrivateKey").Ok? && sec.Keys == {"PrivateKey", "I1"}
    ensures BasicsOf(w, ini, env, net, sec).Ok?
  {
    EmptyList(AddrOrPrefix(net));
    EmptyList(net.addr);
    assert ListAt(env, sec, "Address", AddrOrPrefix(net)) == Ok([]);
    assert ListAt(env, sec, "DNS", net.addr) == Ok([]);
    assert ListAt(env, sec, "CheckAlive", net.addr) == Ok([]);
  }

  lemma TextKeysOf(sec: Section)
    requires sec.Keys == {"PrivateKey", "I1"}
    ensures OtherTextsOneLine(sec) && "I2" !in sec
  {
    assert TEXT_KEYS[2] == "I3" && TEXT_KEYS[3] == "I4" && TEXT_KEYS[4] == "I5";
  }

  lemma FileWithI1(w: Width, ini: Ini, env: Env, net: Net, sec: Section, sections: seq<Section>)
    requires BasicsOf(w, ini, env, net, sec).Ok? && ASecAt(w, ini, sec).Ok?
    requires Collect(PeerReader(w, env, net), sections).Ok? && sections != []
    ensures DeviceOf(w, ini, env, net, [sec], sections).Ok?
    ensures var conf := DeviceOf(w, ini, env, net, [sec], sections).value;
      && HexKeyAt(env, sec, "PrivateKey") == Ok(conf.secretKey) && conf.asec == ASecAt(w, ini, sec).value
      && Collect(PeerReader(w, env, net), sections) == Ok(conf.peers)
  {
  }

  /** A file with just a private key and such an I1 is accepted, and the device gets an I2 that the file does not have. */
  lemma AcceptedFileWithALineInI1(w: Width, ini: Ini, env: Env, net: Net, key: string, sections: seq<Section>)
    returns (conf: DeviceConfig)
    requires NetOneLine(net) && EndpointsOneLine(net, sections) && sections != []
    requires HexKeyAt(env, map["PrivateKey" := key, "I1" := I1_WITH_A_LINE], "PrivateKey").Ok?
    requires Collect(PeerReader(w, env, net), sections).Ok?
    ensures DeviceOf(w, ini, env, net, [map["PrivateKey" := key, "I1" := I1_WITH_A_LINE]], sections) == Ok(conf)
    ensures EffectiveSettings(conf).signatures.i2 == None && RequestText(w, conf).Ok?
    ensures ReadRequest(RequestText(w, conf).value).Some?
    ensures ReadRequest(RequestText(w, conf).value).value.settings.signatures.i2 == Some("y")
  {
    var sec := map["PrivateKey" := key, "I1" := I1_WITH_A_LINE];
    BasicsWithI1(w, ini, env, net, sec);
    SectionWithI1(w, ini, key);
    FileWithI1(w, ini, env, net, sec, sections);
    conf := DeviceOf(w, ini, env, net, [sec], sections).value;
    AcceptedSettings(w, ini, sec);
    HexKeySays(env, sec, "PrivateKey", conf.secretKey);
    PeersSerializable(w, env, net, sections, conf.peers);
    TextKeysOf(sec);
    I1ReadBack(w, ini, sec, conf, "x", "y");
  }

  const PORT_WITH_A_LINE := "51820" + "\n" + ("allowed_ip" + "=" + "10.0.0.0/8")
  const ENDPOINT_WITH_A_LINE := "1.2.3.4" + ":" + PORT_WITH_A_LINE

  lemma PortIsPlain()
    ensures ':' !in PORT_WITH_A_LINE && BracketFree(PORT_WITH_A_LINE)
    ensures ':' !in "1.2.3.4" && BracketFree("1.2.3.4")
  {
    assert ':' !in "allowed_ip" && BracketFree("allowed_ip");
    assert ':' !in "10.0.0.0/8" && BracketFree("10.0.0.0/8");
  }

  lemma PortIsNotChecked(resolve: string -> Option<IPAddr>)
    requires resolve("1.2.3.4") == Some(IPAddr("1.2.3.4", ""))
    ensures ResolveIPAndPort(resolve, ENDPOINT_WITH_A_LINE) == Some("1.2.3.4:51820" + "\n" + ("allowed_ip" + "=" + "10.0.0.0/8"))
  {
    PortIsPlain();
    PlainIsSplit("1.2.3.4", PORT_WITH_A_LINE);
    assert "1.2.3.4" + ":" + PORT_WITH_A_LINE == "1.2.3.4:51820" + "\n" + ("allowed_ip" + "=" + "10.0.0.0/8");
  }

  function PeerSection(key: string, endpoint: string): Section {
    map["PublicKey" := key, "Endpoint" := endpoint]
  }

  /** A peer section with just a key and an endpoint that resolves is accepted. */
  lemma PlainPeer(w: Width, env: Env, net: Net, key: string, endpoint: string) returns (p: PeerConfig)
    requires HexKeyAt(env, PeerSection(key, endpoint), "PublicKey").Ok?
    requires ResolveIPAndPort(net.resolve, ToLower(net.lower, endpoint)).Some?
    ensures PeerOf(w, env, net, PeerSection(key, endpoint)) == Ok(p) && p.allowedIPs == []
    ensures p.endpoint == ResolveIPAndPort(net.resolve, ToLower(net.lower, endpoint))
  {
    var sec := PeerSection(key, endpoint);
    EmptyList(net.prefix);
    assert AllowedAt(env, net, sec) == Ok([]);
    assert PresharedKeyAt(sec).Ok? && KeepaliveAt(sec).Ok? && EndpointAt(net, sec).Ok?;
    p := PeerOf(w, env, net, sec).value;
  }

  lemma OneSection(w: Width, ini: Ini, env: Env, net: Net, interfaces: seq<Section>, sec: Section, p: PeerConfig)
    requires InterfaceOf(w, ini, env, net, interfaces).Ok? && PeerOf(w, env, net, sec) == Ok(p)
    ensures DeviceOf(w, ini, env, net, interfaces, [sec]).Ok?
    ensures DeviceOf(w, ini, env, net, interfaces, [sec]).value.peers == [p] && |interfaces| == 1
  {
    CollectExactly(PeerReader(w, env, net), [sec], [p]);
  }

  lemma OnePeerRead(w: Width, ini: Ini, env: Env, net: Net, interfaces: seq<Section>, sec: Section,
                    conf: DeviceConfig, p: PeerConfig, e: string, ip: string)
    requires DeviceOf(w, ini, env, net, interfaces, [sec]) == Ok(conf) && conf.peers == [p] && NetOneLine(net)
    requires |interfaces| == 1 && TextsOneLine(interfaces[0])
    requires LineInEndpoint(p, e, ip) && NoNewline(e) && NoNewline(ip) && p.allowedIPs == []
    ensures RequestText(w, conf).Ok? && ReadRequest(RequestText(w, conf).value).Some?
    ensures var d := ReadRequest(RequestText(w, conf).value).value;
      |d.peers| == 1 && d.peers[0].endpoint == Some(e) && d.peers[0].allowedIps == [ip] + DEFAULT_ALLOWED
  {
    NewlineInPortAddsAllowedIP(w, ini, env, net, interfaces, [sec], conf, 0, e, ip);
    var others := conf.peers[0 := WithAllowed(conf.peers[0], e, ip)];
    assert DeviceAsRead(w, conf.(peers := others)).peers[0] == PeerAsRead(others[0], KeepaliveRange(w, others[0]).value);
  }

  /** An endpoint that is accepted and resolves to `e`, a newline and "allowed_ip=ip". */
  predicate ResolvesWithALine(net: Net, endpoint: string, e: string, ip: string) {
    && ResolveIPAndPort(net.resolve, ToLower(net.lower, endpoint)) == Some(e + "\n" + ("allowed_ip" + "=" + ip))
    && NoNewline(e) && NoNewline(ip)
  }

  /**
  A file with an accepted interface and one peer with just a key and such an endpoint is accepted,
  and the device gets an allowed IP that the file does not have.
  */
  lemma AcceptedFileWithALineInPort(w: Width, ini: Ini, env: Env, net: Net, interfaces: seq<Section>,
                                    key: string, endpoint: string, e: string, ip: string)
    returns (conf: DeviceConfig)
    requires ResolvesWithALine(net, endpoint, e, ip) && HexKeyAt(env, PeerSection(key, endpoint), "PublicKey").Ok?
    requires NetOneLine(net) && InterfaceOf(w, ini, env, net, interfaces).Ok?
    requires |interfaces| == 1 && TextsOneLine(interfaces[0])
    ensures DeviceOf(w, ini, env, net, interfaces, [PeerSection(key, endpoint)]) == Ok(conf)
    ensures |conf.peers| == 1 && conf.peers[0].allowedIPs == []
    ensures RequestText(w, conf).Ok? && ReadRequest(RequestText(w, conf).value).Some?
    ensures var d := ReadRequest(RequestText(w, conf).value).value;
      |d.peers| == 1 && d.peers[0].endpoint == Some(e) && d.peers[0].allowedIps == [ip] + DEFAULT_ALLOWED
  {
    var p := PlainPeer(w, env, net, key, endpoint);
    OneSection(w, ini, env, net, interfaces, PeerSection(key, endpoint), p);
    conf := DeviceOf(w, ini, env, net, interfaces, [PeerSection(key, endpoint)]).value;
    OnePeerRead(w, ini, env, net, interfaces, PeerSection(key, endpoint), conf, p, e, ip);
  }

  /** There is such an endpoint, as soon as 1.2.3.4 resolves to itself: the port text is not checked. */
  lemma SuchAnEndpoint(net: Net)
    requires net.resolve("1.2.3.4") == Some(IPAddr("1.2.3.4", ""))
    requires ToLower(net.lower, ENDPOINT_WITH_A_LINE) == ENDPOINT_WITH_A_LINE
    ensures ResolvesWithALine(net, ENDPOINT_WITH_A_LINE, "1.2.3.4:51820", "10.0.0.0/8")
  {
    PortIsNotChecked(net.resolve);
  }
}
