/** The device configuration and the request built from it (CreateIPCRequest in wireguard.go). */
module IpcRequest {
  import opened Wrappers
  import opened Decimal
  import opened UintRanges
  import opened Machine
  import opened AwgConfig
  import opened IpcLines
  import opened AwgIpc

  /** A peer; AllowedIPs are given by their printed prefixes. */
  datatype PeerConfig = PeerConfig(
    publicKey: string,
    preSharedKey: string,
    endpoint: Option<string>,
    keepAlive: int,
    keepAliveMax: int,
    allowedIPs: seq<string>,
    keepAliveRange: Option<UintRange>)

  datatype DeviceConfig = DeviceConfig(
    secretKey: string,
    listenPort: Option<int>,
    asec: Option<ASecConfig>,
    peers: seq<PeerConfig>)

  // ---------------------------------------------------------------- keepalive

  datatype KeepaliveError = KeepaliveBound | KeepaliveMaxBound

  predicate IsUint32(n: int) {
    0 <= n < UINT32_LIMIT
  }

  /** persistentKeepaliveRange, on a platform whose int has width `w`. */
  function KeepaliveRange(w: Width, p: PeerConfig): Result<UintRange, KeepaliveError> {
    if p.keepAliveRange.Some?
       && Wrap(w, p.keepAliveRange.value.min) == p.keepAlive && Wrap(w, p.keepAliveRange.value.max) == p.keepAliveMax
    then Ok(p.keepAliveRange.value)
    else if !IsUint32(p.keepAlive) then Err(KeepaliveBound)
    else if !IsUint32(p.keepAliveMax) then Err(KeepaliveMaxBound)
    else Ok(UintRange(p.keepAlive, if p.keepAliveMax > p.keepAlive then p.keepAliveMax else p.keepAlive))
  }

  /** A peer as ParsePeers leaves it: the int fields hold the range as far as they can. */
  predicate FromParser(w: Width, p: PeerConfig, r: UintRange) {
    p.keepAliveRange == Some(r) && p.keepAlive == Wrap(w, r.min) && p.keepAliveMax == Wrap(w, r.max)
  }

  /** A parsed range reaches the request unchanged on both widths, although 32-bit ints cannot hold it. */
  lemma ParsedRangeSurvives(w: Width, p: PeerConfig, r: UintRange)
    requires FromParser(w, p, r)
    ensures KeepaliveRange(w, p) == Ok(r)
    ensures r.max >= Half(W32) ==> (p.keepAliveMax < 0 <==> w == W32)
  {
  }

  /** Without a stored range, a peer is refused exactly when a bound is not a uint32. */
  lemma HandBuiltRange(w: Width, p: PeerConfig)
    requires p.keepAliveRange.None?
    ensures KeepaliveRange(w, p).Err? <==> !IsUint32(p.keepAlive) || !IsUint32(p.keepAliveMax)
    ensures KeepaliveRange(w, p).Ok? ==>
      && KeepaliveRange(w, p).value.min == p.keepAlive
      && KeepaliveRange(w, p).value.max >= p.keepAlive && KeepaliveRange(w, p).value.max >= p.keepAliveMax
      && (KeepaliveRange(w, p).value.max == p.keepAlive || KeepaliveRange(w, p).value.max == p.keepAliveMax)
  {
  }

  /** An emitted range is in order, whatever the peer says, unless a stored range itself is not. */
  lemma EmittedRangeOrdered(w: Width, p: PeerConfig)
    requires KeepaliveRange(w, p).Ok? && Ordered(p.keepAliveRange)
    ensures KeepaliveRange(w, p).value.min <= KeepaliveRange(w, p).value.max
  {
  }

  /** The stored range only adds precision: where the int fields hold it exactly, dropping it changes nothing. */
  lemma StoredRangeAgrees(w: Width, p: PeerConfig, r: UintRange)
    requires FromParser(w, p, r) && r.min <= r.max && r.max < Half(w)
    ensures KeepaliveRange(w, p) == KeepaliveRange(w, p.(keepAliveRange := None))
  {
  }

  // ---------------------------------------------------------------- the lines of a request

  const DEFAULT_ALLOWED := ["0.0.0.0/0", "::0/0"]

  function AllowedOf(p: PeerConfig): (r: seq<string>)
    ensures r != []
  {
    if p.allowedIPs == [] then DEFAULT_ALLOWED else p.allowedIPs
  }

  function AllowedFields(ips: seq<string>): (fields: seq<Field>)
    ensures |fields| == |ips| && forall i :: 0 <= i < |ips| ==> fields[i] == Field("allowed_ip", Some(ips[i]))
  {
    seq(|ips|, i requires 0 <= i < |ips| => Field("allowed_ip", Some(ips[i])))
  }

  function PeerHead(p: PeerConfig, keepalive: UintRange): seq<Field> {
    [Field("public_key", Some(p.publicKey)), Field("persistent_keepalive_interval", Some(Show(keepalive))),
     Field("preshared_key", Some(p.preSharedKey)), Field("endpoint", p.endpoint)]
  }

  function PeerFields(p: PeerConfig, keepalive: UintRange): seq<Field> {
    PeerHead(p, keepalive) + AllowedFields(AllowedOf(p))
  }

  function PeerBlock(w: Width, p: PeerConfig): Result<seq<Field>, KeepaliveError> {
    var keepalive :- KeepaliveRange(w, p);
    Ok(PeerFields(p, keepalive))
  }

  /** The lines of all peers, or the error of the first peer without a valid keepalive. */
  function PeersFields(w: Width, peers: seq<PeerConfig>): Result<seq<Field>, KeepaliveError> {
    if peers == [] then Ok([]) else
    var before :- PeersFields(w, peers[..|peers| - 1]);
    var block :- PeerBlock(w, peers[|peers| - 1]);
    Ok(before + block)
  }

  function EffectiveSettings(conf: DeviceConfig): ASecConfig {
    if conf.asec.Some? then conf.asec.value else NOTHING_SET
  }

  function InterfaceFields(conf: DeviceConfig): seq<Field> {
    [Field("private_key", Some(conf.secretKey)), Field("listen_port", IntText(conf.listenPort))] + Fields(EffectiveSettings(conf))
  }

  /** The request: the present lines of the interface, then those of each peer. */
  function RequestText(w: Width, conf: DeviceConfig): Result<string, KeepaliveError> {
    var peers :- PeersFields(w, conf.peers);
    Ok(Render(Present(InterfaceFields(conf) + peers)))
  }

  // ---------------------------------------------------------------- the code

  lemma RenderOne(f: Field)
    ensures Render(Present([f])) == if f.text.Some? then f.name + "=" + f.text.value + "\n" else ""
  {
    assert [f][1..] == [];
    if f.text.Some? {
      var p := Pair(f.name, f.text.value);
      assert Present([f]) == [p] && [p][1..] == [];
      assert Line(p) + "\n" + "" == Line(p) + "\n";
    }
  }

  lemma RenderSnoc(done: seq<Field>, f: Field)
    ensures Render(Present(done + [f])) == Render(Present(done)) + Render(Present([f]))
  {
    PresentAppend(done, [f]);
    RenderAppend(Present(done), Present([f]));
  }

  lemma {:induction false} PresentNothing(fields: seq<Field>)
    requires forall i :: 0 <= i < |fields| ==> fields[i].text.None?
    ensures Present(fields) == []
  {
    if fields != [] {
      PresentNothing(fields[1..]);
    }
  }

  /** The growing request; `fields` is the history of what was written. */
  class Builder {
    var text: string
    ghost var fields: seq<Field>

    ghost predicate Valid()
      reads this
    {
      text == Render(Present(fields))
    }

    constructor ()
      ensures Valid() && fields == []
    {
      text, fields := "", [];
    }

    /** One line, or none when there is no value. */
    method Put(name: string, value: Option<string>)
      requires Valid()
      modifies this
      ensures Valid() && fields == old(fields) + [Field(name, value)]
    {
      if value.Some? {
        text := text + (name + "=" + value.value + "\n");
      }
      RenderSnoc(fields, Field(name, value));
      RenderOne(Field(name, value));
      fields := fields + [Field(name, value)];
    }

    /** Settings without a value leave no trace in the text. */
    ghost method Skip(unset: seq<Field>)
      requires Valid() && Present(unset) == []
      modifies this`fields
      ensures Valid() && fields == old(fields) + unset
    {
      PresentAppend(fields, unset);
      assert Present(fields) + [] == Present(fields);
      fields := fields + unset;
    }
  }

  method WriteJunk(b: Builder, j: Junk)
    requires b.Valid()
    modifies b
    ensures b.Valid() && b.fields == old(b.fields) + JunkFields(j)
  {
    b.Put("jc", IntText(j.count));
    b.Put("jmin", IntText(j.minSize));
    b.Put("jmax", IntText(j.maxSize));
  }

  method WritePadding(b: Builder, p: Padding)
    requires b.Valid()
    modifies b
    ensures b.Valid() && b.fields == old(b.fields) + PaddingFields(p)
  {
    b.Put("s1", IntText(p.s1));
    b.Put("s2", IntText(p.s2));
    b.Put("s3", IntText(p.s3));
    b.Put("s4", IntText(p.s4));
  }

  method WriteHeaders(b: Builder, h: Headers)
    requires b.Valid()
    modifies b
    ensures b.Valid() && b.fields == old(b.fields) + HeaderFields(h)
  {
    b.Put("h1", RangeText(h.h1));
    b.Put("h2", RangeText(h.h2));
    b.Put("h3", RangeText(h.h3));
    b.Put("h4", RangeText(h.h4));
  }

  method WriteSignatures(b: Builder, s: Signatures)
    requires b.Valid()
    modifies b
    ensures b.Valid() && b.fields == old(b.fields) + SignatureFields(s)
  {
    b.Put("i1", s.i1);
    b.Put("i2", s.i2);
    b.Put("i3", s.i3);
    b.Put("i4", s.i4);
    b.Put("i5", s.i5);
  }

  method WriteTimings(b: Builder, t: Timings)
    requires b.Valid()
    modifies b
    ensures b.Valid() && b.fields == old(b.fields) + TimingFields(t)
  {
    b.Put("content_padding_addition", RangeText(t.contentPaddingAddition));
    b.Put("rekey_after_time", RangeText(t.rekeyAfterTime));
    b.Put("rekey_timeout", RangeText(t.rekeyTimeout));
    assert b.fields == old(b.fields) + TimingFields(t)[..3];
    b.Put("reject_after_time", RangeText(t.rejectAfterTime));
    b.Put("keepalive_timeout", RangeText(t.keepaliveTimeout));
    b.Put("max_handshake_attempts", RangeText(t.maxHandshakeAttempts));
  }

  method WriteSwitches(b: Builder, s: Switches)
    requires b.Valid()
    modifies b
    ensures b.Valid() && b.fields == old(b.fields) + SwitchFields(s)
  {
    b.Put("random_trailers", BoolText(s.randomTrailers));
    b.Put("disable_cookies", BoolText(s.disableCookies));
  }

  lemma ConcatAssoc<T>(o: seq<T>, a: seq<T>, b: seq<T>, c: seq<T>, d: seq<T>, e: seq<T>, f: seq<T>, g: seq<T>)
    ensures o + a + b + c + d + e + f + g == o + (a + b + c + d + e + f + g)
  {
  }

  /** The block of AmneziaWG lines. */
  method WriteSettings(b: Builder, c: ASecConfig)
    requires b.Valid()
    modifies b
    ensures b.Valid() && b.fields == old(b.fields) + Fields(c)
  {
    WriteJunk(b, c.junk);
    WritePadding(b, c.padding);
    WriteHeaders(b, c.headers);
    WriteSignatures(b, c.signatures);
    b.Put("header_protection_key", c.headerProtectionKey);
    WriteTimings(b, c.timings);
    WriteSwitches(b, c.switches);
    ConcatAssoc(old(b.fields), JunkFields(c.junk), PaddingFields(c.padding), HeaderFields(c.headers),
                SignatureFields(c.signatures), [Field("header_protection_key", c.headerProtectionKey)],
                TimingFields(c.timings), SwitchFields(c.switches));
  }

  method WriteInterface(b: Builder, conf: DeviceConfig)
    requires b.Valid() && b.fields == []
    modifies b
    ensures b.Valid() && b.fields == InterfaceFields(conf)
  {
    b.Put("private_key", Some(conf.secretKey));
    b.Put("listen_port", IntText(conf.listenPort));
    if conf.asec.Some? {
      WriteSettings(b, conf.asec.value);
    } else {
      PresentNothing(Fields(NOTHING_SET));
      b.Skip(Fields(NOTHING_SET));
    }
  }

  method WriteAllowed(b: Builder, p: PeerConfig)
    requires b.Valid()
    modifies b
    ensures b.Valid() && b.fields == old(b.fields) + AllowedFields(AllowedOf(p))
  {
    if |p.allowedIPs| > 0 {
      for i := 0 to |p.allowedIPs|
        invariant b.Valid() && b.fields == old(b.fields) + AllowedFields(p.allowedIPs[..i])
      {
        b.Put("allowed_ip", Some(p.allowedIPs[i]));
      }
      assert p.allowedIPs[..|p.allowedIPs|] == p.allowedIPs;
    } else {
      b.Put("allowed_ip", Some("0.0.0.0/0"));
      b.Put("allowed_ip", Some("::0/0"));
      assert b.fields == old(b.fields) + AllowedFields(DEFAULT_ALLOWED);
    }
  }

  method WriteHead(b: Builder, p: PeerConfig, keepalive: UintRange)
    requires b.Valid()
    modifies b
    ensures b.Valid() && b.fields == old(b.fields) + PeerHead(p, keepalive)
  {
    b.Put("public_key", Some(p.publicKey));
    b.Put("persistent_keepalive_interval", Some(Show(keepalive)));
    b.Put("preshared_key", Some(p.preSharedKey));
    b.Put("endpoint", p.endpoint);
  }

  method WritePeer(b: Builder, p: PeerConfig, keepalive: UintRange)
    requires b.Valid()
    modifies b
    ensures b.Valid() && b.fields == old(b.fields) + PeerFields(p, keepalive)
  {
    WriteHead(b, p, keepalive);
    WriteAllowed(b, p);
    AppendAssoc(old(b.fields), PeerHead(p, keepalive), AllowedFields(AllowedOf(p)));
  }

  lemma PeersFieldsNext(w: Width, peers: seq<PeerConfig>, i: nat)
    requires i < |peers| && PeersFields(w, peers[..i]).Ok?
    ensures PeersFields(w, peers[..i + 1]) ==
      var block :- PeerBlock(w, peers[i]);
      Ok(PeersFields(w, peers[..i]).value + block)
  {
    assert peers[..i + 1][..i] == peers[..i];
  }

  /** One turn of the loop over the peers. */
  method WriteBlock(b: Builder, w: Width, p: PeerConfig) returns (error: Option<KeepaliveError>)
    requires b.Valid()
    modifies b
    ensures b.Valid() && (error.Some? ==> PeerBlock(w, p) == Err(error.value))
    ensures error.None? ==> PeerBlock(w, p).Ok? && b.fields == old(b.fields) + PeerBlock(w, p).value
  {
    var keepalive := KeepaliveRange(w, p);
    if keepalive.Err? { return Some(keepalive.error); }
    WritePeer(b, p, keepalive.value);
    return None;
  }

  /** The loop over the peers. */
  method WritePeers(b: Builder, w: Width, peers: seq<PeerConfig>) returns (error: Option<KeepaliveError>)
    requires b.Valid()
    modifies b
    ensures b.Valid() && (error.Some? ==> PeersFields(w, peers) == Err(error.value))
    ensures error.None? ==> PeersFields(w, peers).Ok? && b.fields == old(b.fields) + PeersFields(w, peers).value
  {
    ghost var start := b.fields;
    ghost var done: seq<Field> := [];
    for i := 0 to |peers|
      invariant b.Valid() && PeersFields(w, peers[..i]) == Ok(done) && b.fields == start + done
    {
      PeersFieldsNext(w, peers, i);
      error := WriteBlock(b, w, peers[i]);
      if error.Some? {
        FirstErrorStays(w, peers, i + 1);
        return;
      }
      AppendAssoc(start, done, PeerBlock(w, peers[i]).value);
      done := done + PeerBlock(w, peers[i]).value;
    }
    assert peers[..|peers|] == peers;
    return None;
  }

  /** CreateIPCRequest, the text of the request. */
  method CreateIPCRequest(w: Width, conf: DeviceConfig) returns (r: Result<string, KeepaliveError>)
    ensures r == RequestText(w, conf)
  {
    var b := new Builder();
    WriteInterface(b, conf);
    var error := WritePeers(b, w, conf.peers);
    if error.Some? { return Err(error.value); }
    return Ok(b.text);
  }

  lemma {:induction false} FirstErrorStays(w: Width, peers: seq<PeerConfig>, n: nat)
    requires n <= |peers| && PeersFields(w, peers[..n]).Err?
    ensures PeersFields(w, peers) == PeersFields(w, peers[..n])
  {
    if n < |peers| {
      assert peers[..|peers| - 1][..n] == peers[..n];
      FirstErrorStays(w, peers[..|peers| - 1], n);
    } else {
      assert peers[..n] == peers;
    }
  }
}
