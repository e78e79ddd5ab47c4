/** What the keys of a file mean, in terms of their texts: variables, keepalives, lists, endpoints and defaults. */
module FileText {
  import opened Wrappers
  import opened Text
  import opened Decimal
  import opened UintRanges
  import opened Machine
  import opened AwgParse
  import opened Endpoints
  import opened ConfigFile
  import opened SectionText
  import CommaLists

  // ---------------------------------------------------------------- variables

  /** A missing key is an empty text, $$ at the start stands for a dollar, $NAME for a variable, anything else for itself. */
  lemma StringAtExactly(env: Env, sec: Section, key: string, rest: string)
    ensures key !in sec ==> StringAt(env, sec, key) == Ok("")
    ensures key in sec && sec[key] == "$$" + rest ==> StringAt(env, sec, key) == Ok("$" + rest)
    ensures key in sec && sec[key] == "$" + rest && !("$" <= rest) ==>
      StringAt(env, sec, key) == if rest in env then Ok(env[rest]) else Err(UnsetVariable(key))
    ensures key in sec && !("$" <= sec[key]) ==> StringAt(env, sec, key) == Ok(sec[key])
  {
    if key in sec && sec[key] == "$$" + rest {
      assert sec[key][1..] == "$" + rest;
    } else if key in sec && sec[key] == "$" + rest && !("$" <= rest) {
      assert sec[key][1..] == rest;
    }
  }

  // ---------------------------------------------------------------- keepalive

  function LowerAscii(c: char): char {
    if 'A' <= c <= 'Z' then (c as int - 'A' as int + 'a' as int) as char else c
  }

  /** "off" in any case, with any spaces around it. */
  predicate SaysOff(text: string) {
    var raw := TrimSpace(text);
    |raw| == 3 && LowerAscii(raw[0]) == 'o' && LowerAscii(raw[1]) == 'f' && LowerAscii(raw[2]) == 'f'
  }

  lemma TrimTwice(s: string)
    ensures TrimSpace(TrimSpace(s)) == TrimSpace(s)
  {
    var pre, post := TrimSpaceShape(s);
    var t := TrimSpace(s);
    TrimSpaceAround("", t, "");
    assert "" + t + "" == t;
  }

  lemma ParseTrimmed(s: string)
    ensures Parse(TrimSpace(s)) == Parse(s)
  {
    TrimTwice(s);
  }

  lemma ZeroParses()
    ensures Parse("0") == Ok(UintRange(0, 0))
  {
    assert "0"[..0] == "";
    assert Value("0") == 0;
    ParseSpacedNumber("", "0", "");
    assert "" + "0" + "" == "0";
  }

  /** An off keepalive denotes no range. */
  lemma OffIsNoRange(text: string, r: UintRange)
    requires SaysOff(text)
    ensures !Denotes(text, r)
  {
    var raw := TrimSpace(text);
    ParseTrimmed(text);
    TrimTwice(text);
    assert !IsDigit(raw[0]);
    assert raw[0] != '-' && raw[1] != '-' && raw[2] != '-';
    SplitFree(raw, '-');
    ParseExactly(text, r);
  }

  /**
  The keepalive of a section: none if and only if the key is absent, the range that its text denotes,
  or 0 for "off"; anything else is refused.
  */
  lemma KeepaliveExactly(sec: Section, r: UintRange)
    ensures KeepaliveAt(sec) == Ok(None) <==> "PersistentKeepalive" !in sec
    ensures KeepaliveAt(sec) == Ok(Some(r)) <==>
      "PersistentKeepalive" in sec &&
      (Denotes(sec["PersistentKeepalive"], r) || (SaysOff(sec["PersistentKeepalive"]) && r == UintRange(0, 0)))
  {
    if "PersistentKeepalive" in sec {
      var text := sec["PersistentKeepalive"];
      ParseTrimmed(text);
      ParseExactly(text, r);
      ZeroParses();
      if SaysOff(text) { OffIsNoRange(text, r); }
    }
  }

  // ---------------------------------------------------------------- endpoint

  /** The address of a resolved host with its zone, in brackets if it has a colon, and the port text. */
  predicate Written(ip: IPAddr, port: string, endpoint: string) {
    var host := if ip.zone == "" then ip.ip else ip.ip + "%" + ip.zone;
    endpoint == if ':' in host then "[" + host + "]:" + port else host + ":" + port
  }

  predicate ResolvesTo(net: Net, text: string, host: string, port: string, endpoint: string) {
    Endpoints.Spells(ToLower(net.lower, text), host, port) && net.resolve(host).Some? && Written(net.resolve(host).value, port, endpoint)
  }

  /** The text names a host that resolves, and a port. */
  ghost predicate SaysEndpoint(net: Net, text: string, endpoint: string) {
    exists host, port :: ResolvesTo(net, text, host, port, endpoint)
  }

  lemma EndpointExactly(net: Net, sec: Section, endpoint: string)
    ensures EndpointAt(net, sec) == Ok(None) <==> "Endpoint" !in sec
    ensures EndpointAt(net, sec) == Ok(Some(endpoint)) <==> "Endpoint" in sec && SaysEndpoint(net, sec["Endpoint"], endpoint)
  {
    if "Endpoint" in sec {
      var text := ToLower(net.lower, sec["Endpoint"]);
      if EndpointAt(net, sec) == Ok(Some(endpoint)) {
        var parts := SplitHostPort(text).value;
        SplitHostPortExactly(text, parts.0, parts.1);
        assert ResolvesTo(net, sec["Endpoint"], parts.0, parts.1, endpoint);
      }
      if SaysEndpoint(net, sec["Endpoint"], endpoint) {
        var host, port :| ResolvesTo(net, sec["Endpoint"], host, port, endpoint);
        SplitHostPortExactly(text, host, port);
      }
    }
  }

  // ---------------------------------------------------------------- lists

  /** The text of the key, variables expanded, is a list whose items parse to the values; a missing key is an empty list. */
  ghost predicate SaysList(env: Env, sec: Section, key: string, parse: string -> Option<string>, values: seq<string>) {
    StringAt(env, sec, key).Ok? && CommaLists.ListSays(parse, StringAt(env, sec, key).value, values)
  }

  lemma ListAtExactly(env: Env, sec: Section, key: string, parse: string -> Option<string>, values: seq<string>)
    ensures ListAt(env, sec, key, parse) == Ok(values) <==> SaysList(env, sec, key, parse, values)
  {
    if StringAt(env, sec, key).Ok? { CommaLists.ListExactly(parse, StringAt(env, sec, key).value, values); }
  }

  /** An item of Address is an address, or else a prefix that stands for its address. */
  lemma AddressItem(net: Net, item: string, value: string)
    ensures AddrOrPrefix(net)(item) == Some(value) <==>
      net.addr(item) == Some(value) || (net.addr(item) == None && net.prefixAddr(item) == Some(value))
  {
  }

  // ---------------------------------------------------------------- the interface

  /** The number of a key, or the default. */
  predicate SaysIntOr(w: Width, ini: Ini, sec: Section, key: string, default: int, v: int) {
    if key in sec then SaysInt(w, ini, sec, key, Some(v)) else v == default
  }

  ghost predicate InterfaceSays(w: Width, ini: Ini, env: Env, net: Net, sec: Section, d: Interface) {
    && SaysList(env, sec, "Address", AddrOrPrefix(net), d.address)
    && SaysList(env, sec, "DNS", net.addr, d.dns)
    && SaysIntOr(w, ini, sec, "MTU", 1420, d.mtu)
    && SaysInt(w, ini, sec, "ListenPort", d.listenPort)
    && SaysList(env, sec, "CheckAlive", net.addr, d.liveness.checkAlive)
    && SaysIntOr(w, ini, sec, "CheckAliveInterval", 5, d.liveness.interval)
    && ("CheckAliveInterval" in sec ==> d.liveness.checkAlive != [])
  }

  lemma IntAtExactly(w: Width, ini: Ini, sec: Section, key: string, v: Option<int>)
    ensures IntAt(w, ini, sec, key) == Ok(v) <==> SaysInt(w, ini, sec, key, v)
  {
    IntSays(w, ini, sec, key, v);
  }

  lemma LivenessExactly(w: Width, ini: Ini, env: Env, net: Net, sec: Section, v: Liveness)
    ensures LivenessOf(w, ini, env, net, sec) == Ok(v) <==>
      && SaysList(env, sec, "CheckAlive", net.addr, v.checkAlive)
      && SaysIntOr(w, ini, sec, "CheckAliveInterval", 5, v.interval)
      && ("CheckAliveInterval" in sec ==> v.checkAlive != [])
  {
    ListAtExactly(env, sec, "CheckAlive", net.addr, v.checkAlive);
    IntAtExactly(w, ini, sec, "CheckAliveInterval", Some(v.interval));
    IntAtExactly(w, ini, sec, "CheckAliveInterval", None);
  }

  lemma NetworkExactly(env: Env, net: Net, sec: Section, address: seq<string>, secretKey: string, dns: seq<string>)
    ensures NetworkOf(env, net, sec) == Ok((address, secretKey, dns)) <==>
      && SaysList(env, sec, "Address", AddrOrPrefix(net), address) && SaysList(env, sec, "DNS", net.addr, dns)
      && HexKeyAt(env, sec, "PrivateKey") == Ok(secretKey)
  {
    ListAtExactly(env, sec, "Address", AddrOrPrefix(net), address);
    ListAtExactly(env, sec, "DNS", net.addr, dns);
  }

  lemma NumbersExactly(w: Width, ini: Ini, sec: Section, mtu: int, listenPort: Option<int>)
    ensures NumbersOf(w, ini, sec) == Ok((mtu, listenPort)) <==>
      SaysIntOr(w, ini, sec, "MTU", 1420, mtu) && SaysInt(w, ini, sec, "ListenPort", listenPort)
  {
    IntAtExactly(w, ini, sec, "MTU", Some(mtu));
    IntAtExactly(w, ini, sec, "MTU", None);
    IntAtExactly(w, ini, sec, "ListenPort", listenPort);
  }

  lemma BasicsParts(w: Width, ini: Ini, env: Env, net: Net, sec: Section, d: Interface)
    ensures BasicsOf(w, ini, env, net, sec) == Ok(d) <==>
      && NetworkOf(env, net, sec) == Ok((d.address, d.secretKey, d.dns)) && NumbersOf(w, ini, sec) == Ok((d.mtu, d.listenPort))
      && LivenessOf(w, ini, env, net, sec) == Ok(d.liveness) && d.asec == None
  {
  }

  /**
  An [Interface] section is read as `d` if and only if each field is what its key says: addresses and
  DNS servers in the order of their lists, the MTU or 1420, the port or none, the addresses to ping
  and the interval or 5, the interval only together with an address, and the private key.
  */
  lemma BasicsExactly(w: Width, ini: Ini, env: Env, net: Net, sec: Section, d: Interface)
    ensures BasicsOf(w, ini, env, net, sec) == Ok(d) <==>
      InterfaceSays(w, ini, env, net, sec, d) && HexKeyAt(env, sec, "PrivateKey") == Ok(d.secretKey) && d.asec == None
  {
    BasicsParts(w, ini, env, net, sec, d);
    NetworkExactly(env, net, sec, d.address, d.secretKey, d.dns);
    NumbersExactly(w, ini, sec, d.mtu, d.listenPort);
    LivenessExactly(w, ini, env, net, sec, d.liveness);
  }

  lemma InterfaceParts(w: Width, ini: Ini, env: Env, net: Net, interfaces: seq<Section>, d: Interface)
    ensures InterfaceOf(w, ini, env, net, interfaces) == Ok(d) <==>
      && |interfaces| == 1 && BasicsOf(w, ini, env, net, interfaces[0]) == Ok(d.(asec := None))
      && ASecAt(w, ini, interfaces[0]) == Ok(d.asec)
  {
    if |interfaces| == 1 && BasicsOf(w, ini, env, net, interfaces[0]).Ok? {
      BasicsParts(w, ini, env, net, interfaces[0], BasicsOf(w, ini, env, net, interfaces[0]).value);
    }
  }

  /** A file has an accepted interface exactly when it has one [Interface] section that is read, with valid settings. */
  lemma InterfaceExactly(w: Width, ini: Ini, env: Env, net: Net, interfaces: seq<Section>, d: Interface)
    ensures InterfaceOf(w, ini, env, net, interfaces) == Ok(d) <==>
      && |interfaces| == 1 && InterfaceSays(w, ini, env, net, interfaces[0], d)
      && HexKeyAt(env, interfaces[0], "PrivateKey") == Ok(d.secretKey) && ASecAt(w, ini, interfaces[0]) == Ok(d.asec)
  {
    InterfaceParts(w, ini, env, net, interfaces, d);
    if |interfaces| == 1 {
      BasicsExactly(w, ini, env, net, interfaces[0], d.(asec := None));
    }
  }

  // ---------------------------------------------------------------- which error

  /** The key that an error names. */
  function ErrorKey(e: FileError): string {
    match e
    case NotOneInterface => "[Interface]"
    case NoPeer => "[Peer]"
    case UnsetVariable(key) => key
    case BadKey(key, _) => key
    case BadInt(key) => key
    case BadList(key) => key
    case IntervalAlone => "CheckAliveInterval"
    case BadEndpoint => "Endpoint"
    case BadKeepalive(_) => "PersistentKeepalive"
    case BadSettings(_) => "settings"
  }

  predicate Blames<T>(r: Result<T, FileError>, key: string) {
    r.Err? ==> ErrorKey(r.error) == key
  }

  lemma KeyBlames(env: Env, sec: Section, key: string)
    ensures Blames(HexKeyAt(env, sec, key), key)
  {
  }

  lemma ListBlames(env: Env, sec: Section, key: string, parse: string -> Option<string>)
    ensures Blames(ListAt(env, sec, key, parse), key)
  {
  }

  lemma PeerKeysBlame(env: Env, sec: Section)
    requires PeerKeysOf(env, sec).Err?
    ensures ErrorKey(PeerKeysOf(env, sec).error) == if HexKeyAt(env, sec, "PublicKey").Err? then "PublicKey" else "PreSharedKey"
    ensures HexKeyAt(env, sec, "PublicKey").Ok? ==> PresharedKeyAt(sec).Err?
  {
    KeyBlames(env, sec, "PublicKey");
  }

  lemma FirstOfFour(w: Width, env: Env, net: Net, sec: Section)
    requires PeerOf(w, env, net, sec).Err?
    ensures var e := PeerOf(w, env, net, sec).error;
      if PeerKeysOf(env, sec).Err? then e == PeerKeysOf(env, sec).error
      else if EndpointAt(net, sec).Err? then e == EndpointAt(net, sec).error
      else if KeepaliveAt(sec).Err? then e == KeepaliveAt(sec).error
      else AllowedAt(env, net, sec).Err? && e == AllowedAt(env, net, sec).error
  {
  }

  /** A refused peer section is refused for its first bad key in this order. */
  lemma PeerErrorNames(w: Width, env: Env, net: Net, sec: Section)
    requires PeerOf(w, env, net, sec).Err?
    ensures ErrorKey(PeerOf(w, env, net, sec).error) ==
      if PeerKeysOf(env, sec).Err? then (if HexKeyAt(env, sec, "PublicKey").Err? then "PublicKey" else "PreSharedKey")
      else if EndpointAt(net, sec).Err? then "Endpoint"
      else if KeepaliveAt(sec).Err? then "PersistentKeepalive"
      else "AllowedIPs"
  {
    FirstOfFour(w, env, net, sec);
    if PeerKeysOf(env, sec).Err? {
      PeerKeysBlame(env, sec);
    } else {
      PeerRestBlames(env, net, sec);
    }
  }

  lemma PeerRestBlames(env: Env, net: Net, sec: Section)
    ensures Blames(EndpointAt(net, sec), "Endpoint") && Blames(KeepaliveAt(sec), "PersistentKeepalive")
    ensures Blames(AllowedAt(env, net, sec), "AllowedIPs")
  {
    ListBlames(env, sec, "AllowedIPs", net.prefix);
  }

  lemma NetworkBlames(env: Env, net: Net, sec: Section)
    requires NetworkOf(env, net, sec).Err?
    ensures ErrorKey(NetworkOf(env, net, sec).error) ==
      if ListAt(env, sec, "Address", AddrOrPrefix(net)).Err? then "Address"
      else if HexKeyAt(env, sec, "PrivateKey").Err? then "PrivateKey"
      else "DNS"
  {
    ListBlames(env, sec, "Address", AddrOrPrefix(net));
    KeyBlames(env, sec, "PrivateKey");
    ListBlames(env, sec, "DNS", net.addr);
  }

  lemma NumbersBlame(w: Width, ini: Ini, sec: Section)
    requires NumbersOf(w, ini, sec).Err?
    ensures ErrorKey(NumbersOf(w, ini, sec).error) == if IntAt(w, ini, sec, "MTU").Err? then "MTU" else "ListenPort"
  {
  }

  lemma LivenessBlames(w: Width, ini: Ini, env: Env, net: Net, sec: Section)
    requires LivenessOf(w, ini, env, net, sec).Err?
    ensures ErrorKey(LivenessOf(w, ini, env, net, sec).error) ==
      if ListAt(env, sec, "CheckAlive", net.addr).Err? then "CheckAlive" else "CheckAliveInterval"
  {
    ListBlames(env, sec, "CheckAlive", net.addr);
  }

  lemma FirstOfThree(w: Width, ini: Ini, env: Env, net: Net, sec: Section)
    requires BasicsOf(w, ini, env, net, sec).Err?
    ensures var e := BasicsOf(w, ini, env, net, sec).error;
      if NetworkOf(env, net, sec).Err? then e == NetworkOf(env, net, sec).error
      else if NumbersOf(w, ini, sec).Err? then e == NumbersOf(w, ini, sec).error
      else LivenessOf(w, ini, env, net, sec).Err? && e == LivenessOf(w, ini, env, net, sec).error
  {
  }

  /** A refused interface section is refused for its first bad key in this order. */
  lemma InterfaceErrorNames(w: Width, ini: Ini, env: Env, net: Net, sec: Section)
    requires BasicsOf(w, ini, env, net, sec).Err?
    ensures ErrorKey(BasicsOf(w, ini, env, net, sec).error) ==
      if NetworkOf(env, net, sec).Err? then
        (if ListAt(env, sec, "Address", AddrOrPrefix(net)).Err? then "Address"
         else if HexKeyAt(env, sec, "PrivateKey").Err? then "PrivateKey" else "DNS")
      else if NumbersOf(w, ini, sec).Err? then (if IntAt(w, ini, sec, "MTU").Err? then "MTU" else "ListenPort")
      else if ListAt(env, sec, "CheckAlive", net.addr).Err? then "CheckAlive"
      else "CheckAliveInterval"
  {
    FirstOfThree(w, ini, env, net, sec);
    if NetworkOf(env, net, sec).Err? {
      NetworkBlames(env, net, sec);
    } else if NumbersOf(w, ini, sec).Err? {
      NumbersBlame(w, ini, sec);
    } else {
      LivenessBlames(w, ini, env, net, sec);
    }
  }

  /** The settings are looked at last. */
  lemma SettingsComeLast(w: Width, ini: Ini, env: Env, net: Net, sec: Section)
    requires InterfaceOf(w, ini, env, net, [sec]).Err?
    ensures var e := InterfaceOf(w, ini, env, net, [sec]).error;
      if BasicsOf(w, ini, env, net, sec).Err? then e == BasicsOf(w, ini, env, net, sec).error else e.BadSettings?
  {
  }
}
