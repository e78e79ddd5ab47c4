/** The request as the text it is: every line written out, in the order of CreateIPCRequest in wireguard.go. */
module RequestLines {
  import opened Wrappers
  import opened Decimal
  import opened UintRanges
  import opened Machine
  import opened AwgConfig
  import opened IpcLines
  import opened AwgIpc
  import opened IpcRequest
  import opened IpcReader

  function TextOf(fields: seq<Field>): string {
    Render(Present(fields))
  }

  lemma TextAppend(a: seq<Field>, b: seq<Field>)
    ensures TextOf(a + b) == TextOf(a) + TextOf(b)
  {
    PresentAppend(a, b);
    RenderAppend(Present(a), Present(b));
  }

  /** A line for a value that is there, nothing otherwise. */
  function LineIf(name: string, value: Option<string>): string {
    if value.Some? then name + "=" + value.value + "\n" else ""
  }

  lemma TextSnoc(fields: seq<Field>, f: Field)
    ensures TextOf(fields + [f]) == TextOf(fields) + LineIf(f.name, f.text)
  {
    TextAppend(fields, [f]);
    RenderOne(f);
  }

  // ---------------------------------------------------------------- peers

  function BlockText(w: Width, p: PeerConfig): string {
    if PeerBlock(w, p).Ok? then TextOf(PeerBlock(w, p).value) else ""
  }

  function Concat(texts: seq<string>): string {
    if texts == [] then "" else Concat(texts[..|texts| - 1]) + texts[|texts| - 1]
  }

  function BlockTextsOf(w: Width, peers: seq<PeerConfig>): (r: seq<string>)
    ensures |r| == |peers| && forall i :: 0 <= i < |peers| ==> r[i] == BlockText(w, peers[i])
  {
    seq(|peers|, i requires 0 <= i < |peers| => BlockText(w, peers[i]))
  }

  lemma LastText(w: Width, peers: seq<PeerConfig>)
    requires AllKeepalives(w, peers) && peers != []
    ensures AllKeepalives(w, peers[..|peers| - 1]) && PeersFields(w, peers).Ok? && PeersFields(w, peers[..|peers| - 1]).Ok?
    ensures TextOf(PeersFields(w, peers).value) ==
      TextOf(PeersFields(w, peers[..|peers| - 1]).value) + BlockText(w, peers[|peers| - 1])
  {
    var n := |peers| - 1;
    LastPeer(w, peers);
    TextAppend(PeersFields(w, peers[..n]).value, PeerFields(peers[n], KeepaliveRange(w, peers[n]).value));
  }

  lemma LastConcat(w: Width, peers: seq<PeerConfig>)
    requires peers != []
    ensures Concat(BlockTextsOf(w, peers)) ==
      Concat(BlockTextsOf(w, peers[..|peers| - 1])) + BlockText(w, peers[|peers| - 1])
  {
    assert BlockTextsOf(w, peers)[..|peers| - 1] == BlockTextsOf(w, peers[..|peers| - 1]);
  }

  lemma {:induction false} PeersText(w: Width, peers: seq<PeerConfig>)
    requires AllKeepalives(w, peers)
    ensures PeersFields(w, peers).Ok? && TextOf(PeersFields(w, peers).value) == Concat(BlockTextsOf(w, peers))
  {
    if peers != [] {
      LastText(w, peers);
      LastConcat(w, peers);
      PeersText(w, peers[..|peers| - 1]);
    }
  }

  function AllowedText(ips: seq<string>): string {
    if ips == [] then "" else AllowedText(ips[..|ips| - 1]) + "allowed_ip=" + ips[|ips| - 1] + "\n"
  }

  lemma {:induction false} AllowedTexts(ips: seq<string>)
    ensures TextOf(AllowedFields(ips)) == AllowedText(ips)
  {
    if ips != [] {
      var n := |ips| - 1;
      AllowedTexts(ips[..n]);
      assert AllowedFields(ips) == AllowedFields(ips[..n]) + [Field("allowed_ip", Some(ips[n]))];
      TextSnoc(AllowedFields(ips[..n]), Field("allowed_ip", Some(ips[n])));
      assert "allowed_ip" + "=" == "allowed_ip=";
      var before := AllowedText(ips[..n]);
      assert before + ("allowed_ip=" + ips[n] + "\n") == before + "allowed_ip=" + ips[n] + "\n";
    }
  }

  function HeadText(p: PeerConfig, keepalive: UintRange): string {
    LineIf("public_key", Some(p.publicKey)) + LineIf("persistent_keepalive_interval", Some(Show(keepalive)))
    + LineIf("preshared_key", Some(p.preSharedKey)) + LineIf("endpoint", p.endpoint)
  }

  lemma HeadTexts(p: PeerConfig, keepalive: UintRange)
    ensures TextOf(PeerHead(p, keepalive)) == HeadText(p, keepalive)
  {
    var f := PeerHead(p, keepalive);
    assert f == [] + [f[0]] + [f[1]] + [f[2]] + [f[3]];
    TextSnoc([], f[0]);
    TextSnoc([] + [f[0]], f[1]);
    TextSnoc([] + [f[0]] + [f[1]], f[2]);
    TextSnoc([] + [f[0]] + [f[1]] + [f[2]], f[3]);
    assert "" + LineIf(f[0].name, f[0].text) == LineIf(f[0].name, f[0].text);
  }

  /**
  The block of a peer: its key, keepalive and preshared key, its endpoint if it has one, and its
  allowed IPs in order, or the two that stand for everything.
  */
  lemma PeerTextExactly(p: PeerConfig, keepalive: UintRange)
    ensures TextOf(PeerFields(p, keepalive)) ==
      LineIf("public_key", Some(p.publicKey)) + LineIf("persistent_keepalive_interval", Some(Show(keepalive)))
      + LineIf("preshared_key", Some(p.preSharedKey)) + LineIf("endpoint", p.endpoint)
      + AllowedText(if p.allowedIPs == [] then ["0.0.0.0/0", "::0/0"] else p.allowedIPs)
  {
    HeadTexts(p, keepalive);
    AllowedTexts(AllowedOf(p));
    TextAppend(PeerHead(p, keepalive), AllowedFields(AllowedOf(p)));
  }

  // ---------------------------------------------------------------- settings

  /** The lines of the fields one after the other. */
  function LinesOf(fields: seq<Field>): string {
    if fields == [] then "" else LinesOf(fields[..|fields| - 1]) + LineIf(fields[|fields| - 1].name, fields[|fields| - 1].text)
  }

  lemma LastLine(fields: seq<Field>)
    requires fields != []
    ensures TextOf(fields) == TextOf(fields[..|fields| - 1]) + LineIf(fields[|fields| - 1].name, fields[|fields| - 1].text)
  {
    TextSnoc(fields[..|fields| - 1], fields[|fields| - 1]);
    assert fields == fields[..|fields| - 1] + [fields[|fields| - 1]];
  }

  lemma {:induction false} LinesOfText(fields: seq<Field>)
    ensures TextOf(fields) == LinesOf(fields)
  {
    if fields != [] {
      LinesOfText(fields[..|fields| - 1]);
      LastLine(fields);
    }
  }

  /** The settings in the order of their lines, numbers in decimal, ranges as "a" or "a-b", switches as true or false. */
  lemma SettingLines(c: ASecConfig)
    ensures var f := Fields(c);
      && f[0] == Field("jc", IntText(c.junk.count)) && f[1] == Field("jmin", IntText(c.junk.minSize))
      && f[2] == Field("jmax", IntText(c.junk.maxSize))
      && f[3] == Field("s1", IntText(c.padding.s1)) && f[4] == Field("s2", IntText(c.padding.s2))
      && f[5] == Field("s3", IntText(c.padding.s3)) && f[6] == Field("s4", IntText(c.padding.s4))
      && f[7] == Field("h1", RangeText(c.headers.h1)) && f[8] == Field("h2", RangeText(c.headers.h2))
      && f[9] == Field("h3", RangeText(c.headers.h3)) && f[10] == Field("h4", RangeText(c.headers.h4))
      && f[11] == Field("i1", c.signatures.i1) && f[12] == Field("i2", c.signatures.i2) && f[13] == Field("i3", c.signatures.i3)
      && f[14] == Field("i4", c.signatures.i4) && f[15] == Field("i5", c.signatures.i5)
      && f[16] == Field("header_protection_key", c.headerProtectionKey)
  {
  }

  lemma TimingLinesOf(c: ASecConfig)
    ensures var f, t := Fields(c), c.timings;
      && f[17] == Field("content_padding_addition", RangeText(t.contentPaddingAddition))
      && f[18] == Field("rekey_after_time", RangeText(t.rekeyAfterTime)) && f[19] == Field("rekey_timeout", RangeText(t.rekeyTimeout))
      && f[20] == Field("reject_after_time", RangeText(t.rejectAfterTime))
      && f[21] == Field("keepalive_timeout", RangeText(t.keepaliveTimeout))
      && f[22] == Field("max_handshake_attempts", RangeText(t.maxHandshakeAttempts))
      && f[23] == Field("random_trailers", BoolText(c.switches.randomTrailers))
      && f[24] == Field("disable_cookies", BoolText(c.switches.disableCookies))
  {
  }

  lemma ValueTexts(n: int, r: UintRange, b: bool)
    ensures IntText(Some(n)) == Some(if n < 0 then "-" + Print(-n) else Print(n)) && IntText(None) == None
    ensures RangeText(Some(r)) == Some(if r.min == r.max then Print(r.min) else Print(r.min) + "-" + Print(r.max)) && RangeText(None) == None
    ensures BoolText(Some(b)) == Some(if b then "true" else "false") && BoolText(None) == None
  {
  }

  /** The whole request: private key, port, the present settings in order, and the peers in order. */
  lemma RequestTextExactly(w: Width, conf: DeviceConfig)
    requires AllKeepalives(w, conf.peers)
    ensures RequestText(w, conf) == Ok(
      LineIf("private_key", Some(conf.secretKey)) + LineIf("listen_port", IntText(conf.listenPort))
      + LinesOf(Fields(EffectiveSettings(conf))) + Concat(BlockTextsOf(w, conf.peers)))
  {
    var a, b := Field("private_key", Some(conf.secretKey)), Field("listen_port", IntText(conf.listenPort));
    var settings := Fields(EffectiveSettings(conf));
    PeersText(w, conf.peers);
    TextSnoc([], a);
    TextSnoc([] + [a], b);
    assert "" + LineIf(a.name, a.text) == LineIf(a.name, a.text);
    assert [] + [a] + [b] == [a, b];
    TextAppend([a, b], settings);
    LinesOfText(settings);
    TextAppend([a, b] + settings, PeersFields(w, conf.peers).value);
  }
}
