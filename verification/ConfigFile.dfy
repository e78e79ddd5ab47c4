/**
The [Interface] and [Peer] sections (ParseInterface and ParsePeers in config.go). Name resolution,
lower-casing of a rune and the parsers of addresses and prefixes are parameters; an address and a
prefix are given by their printed forms.
*/
module ConfigFile {
  import opened Wrappers
  import opened Text
  import opened UintRanges
  import opened Machine
  import opened AwgConfig
  import opened AwgParse
  import opened IpcRequest
  import opened Endpoints
  import Keys
  import CommaLists

  /** net.ResolveIPAddr, netip.ParseAddr, and netip.ParsePrefix with its printed form and its address. */
  datatype Net = Net(
    lower: char -> char,
    resolve: string -> Option<IPAddr>,
    addr: string -> Option<string>,
    prefix: string -> Option<string>,
    prefixAddr: string -> Option<string>)

  type Env = map<string, string>

  datatype FileError =
    | NotOneInterface
    | NoPeer
    | UnsetVariable(key: string)
    | BadKey(key: string, reason: Keys.KeyError)
    | BadInt(key: string)
    | BadList(key: string)
    | IntervalAlone
    | BadEndpoint
    | BadKeepalive(cause: RangeError)
    | BadSettings(problem: ParseError)

  const ZEROS := "0000000000000000"

  /** 64 zero digits. */
  const NO_PRESHARED_KEY := ZEROS + ZEROS + ZEROS + ZEROS

  // ---------------------------------------------------------------- values

  /** parseString: a missing key is an empty text, $NAME stands for a variable, $$ for a dollar. */
  function StringAt(env: Env, sec: Section, key: string): Result<string, FileError> {
    var value := if key in sec then sec[key] else "";
    if "$$" <= value then Ok(value[1..])
    else if "$" <= value then (if value[1..] in env then Ok(env[value[1..]]) else Err(UnsetVariable(key)))
    else Ok(value)
  }

  /** parseBase64KeyToHex. */
  function HexKeyAt(env: Env, sec: Section, key: string): Result<string, FileError> {
    var text :- StringAt(env, sec, key);
    match Keys.ToHex(text)
    case Ok(h) => Ok(h)
    case Err(e) => Err(BadKey(key, e))
  }

  function PresharedKeyAt(sec: Section): Result<string, FileError> {
    if "PreSharedKey" !in sec then Ok(NO_PRESHARED_KEY) else
    match Keys.ToHex(sec["PreSharedKey"])
    case Ok(h) => Ok(h)
    case Err(e) => Err(BadKey("PreSharedKey", e))
  }

  function EndpointAt(net: Net, sec: Section): Result<Option<string>, FileError> {
    if "Endpoint" !in sec then Ok(None) else
    match ResolveIPAndPort(net.resolve, ToLower(net.lower, sec["Endpoint"]))
    case None => Err(BadEndpoint)
    case Some(addr) => Ok(Some(addr))
  }

  /** strings.EqualFold(s, "off"). */
  predicate IsOff(s: string) {
    |s| == 3 && (s[0] == 'o' || s[0] == 'O') && (s[1] == 'f' || s[1] == 'F') && (s[2] == 'f' || s[2] == 'F')
  }

  /** The keepalive range of a section: none when absent, 0 when off. */
  function KeepaliveAt(sec: Section): Result<Option<UintRange>, FileError> {
    if "PersistentKeepalive" !in sec then Ok(None) else
    var raw := TrimSpace(sec["PersistentKeepalive"]);
    match Parse(if IsOff(raw) then "0" else raw)
    case Ok(r) => Ok(Some(r))
    case Err(e) => Err(BadKeepalive(e))
  }

  /** parseNetIP, parseCIDRNetIP and parseAllowedIPs, which differ in how they parse an item. */
  function ListAt(env: Env, sec: Section, key: string, parse: string -> Option<string>): Result<seq<string>, FileError> {
    var text :- StringAt(env, sec, key);
    match CommaLists.ListOf(parse, text)
    case None => Err(BadList(key))
    case Some(items) => Ok(items)
  }

  function AllowedAt(env: Env, net: Net, sec: Section): Result<seq<string>, FileError> {
    ListAt(env, sec, "AllowedIPs", net.prefix)
  }

  function IntAt(w: Width, ini: Ini, sec: Section, key: string): Result<Option<int>, FileError> {
    match Typed(sec, key, IntReader(w, ini))
    case Ok(n) => Ok(n)
    case Err(_) => Err(BadInt(key))
  }

  // ---------------------------------------------------------------- peers

  /** The int fields of a peer, truncated to the platform, and the exact range beside them. */
  function WithKeepalive(w: Width, p: PeerConfig, r: Option<UintRange>): PeerConfig {
    if r.None? then p
    else p.(keepAlive := Wrap(w, r.value.min), keepAliveMax := Wrap(w, r.value.max), keepAliveRange := r)
  }

  function PeerKeysOf(env: Env, sec: Section): Result<(string, string), FileError> {
    var publicKey :- HexKeyAt(env, sec, "PublicKey");
    var presharedKey :- PresharedKeyAt(sec);
    Ok((publicKey, presharedKey))
  }

  function PeerOf(w: Width, env: Env, net: Net, sec: Section): Result<PeerConfig, FileError> {
    var keys :- PeerKeysOf(env, sec);
    var endpoint :- EndpointAt(net, sec);
    var keepalive :- KeepaliveAt(sec);
    var allowed :- AllowedAt(env, net, sec);
    Ok(WithKeepalive(w, PeerConfig(keys.0, keys.1, endpoint, 0, 0, allowed, None), keepalive))
  }

  function PeerReader(w: Width, env: Env, net: Net): Section -> Result<PeerConfig, FileError> {
    sec => PeerOf(w, env, net, sec)
  }

  /** One turn of the loop in ParsePeers. */
  method ParsePeer(w: Width, env: Env, net: Net, sec: Section) returns (r: Result<PeerConfig, FileError>)
    ensures r == PeerOf(w, env, net, sec)
  {
    var peer := PeerConfig("", NO_PRESHARED_KEY, None, 0, 0, [], None);
    var publicKey :- HexKeyAt(env, sec, "PublicKey");
    peer := peer.(publicKey := publicKey);
    var presharedKey :- PresharedKeyAt(sec);
    peer := peer.(preSharedKey := presharedKey);
    var endpoint :- EndpointAt(net, sec);
    peer := peer.(endpoint := endpoint);
    if "PersistentKeepalive" in sec {
      var raw := TrimSpace(sec["PersistentKeepalive"]);
      if IsOff(raw) { raw := "0"; }
      var value := Parse(raw);
      if value.Err? { return Err(BadKeepalive(value.error)); }
      peer := peer.(keepAlive := Wrap(w, value.value.min), keepAliveMax := Wrap(w, value.value.max),
                    keepAliveRange := Some(value.value));
    }
    var text :- StringAt(env, sec, "AllowedIPs");
    var allowed := CommaLists.ParseList(net.prefix, text);
    if allowed.None? { return Err(BadList("AllowedIPs")); }
    return Ok(peer.(allowedIPs := allowed.value));
  }

  /** ParsePeers: the peers of all sections in order, or the first error. */
  method ParsePeers(w: Width, env: Env, net: Net, sections: seq<Section>) returns (r: Result<seq<PeerConfig>, FileError>)
    ensures r == if sections == [] then Err(NoPeer) else Collect(PeerReader(w, env, net), sections)
  {
    if |sections| < 1 { return Err(NoPeer); }
    var peers: seq<PeerConfig> := [];
    for i := 0 to |sections|
      invariant Collect(PeerReader(w, env, net), sections[..i]) == Ok(peers)
    {
      CollectNext(PeerReader(w, env, net), sections, i);
      var peer := ParsePeer(w, env, net, sections[i]);
      if peer.Err? {
        CollectFails(PeerReader(w, env, net), sections, i + 1);
        return Err(peer.error);
      }
      peers := peers + [peer.value];
    }
    assert sections[..|sections|] == sections;
    return Ok(peers);
  }

  // ---------------------------------------------------------------- the interface

  const DEFAULT_MTU := 1420
  const DEFAULT_INTERVAL := 5

  datatype Liveness = Liveness(checkAlive: seq<string>, interval: int)

  datatype Interface = Interface(
    address: seq<string>,
    secretKey: string,
    dns: seq<string>,
    mtu: int,
    listenPort: Option<int>,
    liveness: Liveness,
    asec: Option<ASecConfig>)

  /** An item of Address: an address, or else the address of a prefix. */
  function AddrOrPrefix(net: Net): string -> Option<string> {
    text => if net.addr(text).Some? then net.addr(text) else net.prefixAddr(text)
  }

  function Default<T>(value: Option<T>, otherwise: T): T {
    if value.Some? then value.value else otherwise
  }

  /** What ParseASecConfig returns for a section. */
  ghost function ASecAt(w: Width, ini: Ini, sec: Section): Result<Option<ASecConfig>, FileError> {
    match SettingsOf(w, ini, sec)
    case Err(e) => Err(BadSettings(e))
    case Ok(c) =>
      if Optional(c).Some? && FirstProblem(w, c).Some? then Err(BadSettings(Invalid(FirstProblem(w, c).value)))
      else Ok(Optional(c))
  }

  /** The addresses to ping and how often; an interval without an address is refused. */
  function LivenessOf(w: Width, ini: Ini, env: Env, net: Net, sec: Section): (r: Result<Liveness, FileError>)
    ensures r.Ok? && "CheckAliveInterval" in sec ==> r.value.checkAlive != []
  {
    var checkAlive :- ListAt(env, sec, "CheckAlive", net.addr);
    var interval :- IntAt(w, ini, sec, "CheckAliveInterval");
    if interval.Some? && checkAlive == [] then Err(IntervalAlone) else
    Ok(Liveness(checkAlive, Default(interval, DEFAULT_INTERVAL)))
  }

  /** The addresses, the private key and the DNS servers. */
  function NetworkOf(env: Env, net: Net, sec: Section): Result<(seq<string>, string, seq<string>), FileError> {
    var address :- ListAt(env, sec, "Address", AddrOrPrefix(net));
    var secretKey :- HexKeyAt(env, sec, "PrivateKey");
    var dns :- ListAt(env, sec, "DNS", net.addr);
    Ok((address, secretKey, dns))
  }

  /** The MTU and the port. */
  function NumbersOf(w: Width, ini: Ini, sec: Section): Result<(int, Option<int>), FileError> {
    var mtu :- IntAt(w, ini, sec, "MTU");
    var listenPort :- IntAt(w, ini, sec, "ListenPort");
    Ok((Default(mtu, DEFAULT_MTU), listenPort))
  }

  /** What an [Interface] section says besides its settings. */
  function BasicsOf(w: Width, ini: Ini, env: Env, net: Net, sec: Section): (r: Result<Interface, FileError>)
    ensures r.Ok? ==> HexKeyAt(env, sec, "PrivateKey") == Ok(r.value.secretKey)
    ensures r.Ok? ==> IntAt(w, ini, sec, "ListenPort") == Ok(r.value.listenPort)
  {
    var network :- NetworkOf(env, net, sec);
    var numbers :- NumbersOf(w, ini, sec);
    var liveness :- LivenessOf(w, ini, env, net, sec);
    Ok(Interface(network.0, network.1, network.2, numbers.0, numbers.1, liveness, None))
  }

  ghost function InterfaceOf(w: Width, ini: Ini, env: Env, net: Net, interfaces: seq<Section>): Result<Interface, FileError> {
    if |interfaces| != 1 then Err(NotOneInterface) else
    var basics :- BasicsOf(w, ini, env, net, interfaces[0]);
    var asec :- ASecAt(w, ini, interfaces[0]);
    Ok(basics.(asec := asec))
  }

  /** A list key read by the loop of CommaLists. */
  method ReadList(env: Env, sec: Section, key: string, parse: string -> Option<string>)
    returns (r: Result<seq<string>, FileError>)
    ensures r == ListAt(env, sec, key, parse)
  {
    var text :- StringAt(env, sec, key);
    var items := CommaLists.ParseList(parse, text);
    if items.None? { return Err(BadList(key)); }
    return Ok(items.value);
  }

  method ParseLiveness(w: Width, ini: Ini, env: Env, net: Net, sec: Section) returns (r: Result<Liveness, FileError>)
    ensures r == LivenessOf(w, ini, env, net, sec)
  {
    var checkAlive :- ReadList(env, sec, "CheckAlive", net.addr);
    var liveness := Liveness(checkAlive, DEFAULT_INTERVAL);
    var interval :- IntAt(w, ini, sec, "CheckAliveInterval");
    if interval.Some? {
      if |checkAlive| == 0 { return Err(IntervalAlone); }
      liveness := liveness.(interval := interval.value);
    }
    return Ok(liveness);
  }

  method ParseBasics(w: Width, ini: Ini, env: Env, net: Net, sec: Section) returns (r: Result<Interface, FileError>)
    ensures r == BasicsOf(w, ini, env, net, sec)
  {
    var device := Interface([], "", [], DEFAULT_MTU, None, Liveness([], DEFAULT_INTERVAL), None);
    var address :- ReadList(env, sec, "Address", AddrOrPrefix(net));
    device := device.(address := address);
    var secretKey :- HexKeyAt(env, sec, "PrivateKey");
    device := device.(secretKey := secretKey);
    var dns :- ReadList(env, sec, "DNS", net.addr);
    device := device.(dns := dns);
    var mtu :- IntAt(w, ini, sec, "MTU");
    if mtu.Some? { device := device.(mtu := mtu.value); }
    var listenPort :- IntAt(w, ini, sec, "ListenPort");
    if listenPort.Some? { device := device.(listenPort := listenPort); }
    var liveness :- ParseLiveness(w, ini, env, net, sec);
    return Ok(device.(liveness := liveness));
  }

  /** ParseInterface: the one [Interface] section of a file. */
  method ParseInterface(w: Width, ini: Ini, env: Env, net: Net, interfaces: seq<Section>) returns (r: Result<Interface, FileError>)
    ensures r == InterfaceOf(w, ini, env, net, interfaces)
  {
    if |interfaces| != 1 { return Err(NotOneInterface); }
    var device :- ParseBasics(w, ini, env, net, interfaces[0]);
    var asec := ParseASecConfig(w, ini, interfaces[0]);
    if asec.Err? { return Err(BadSettings(asec.error)); }
    return Ok(device.(asec := asec.value));
  }

  // ---------------------------------------------------------------- the device

  /** The device configuration of a file, as far as it reaches the request. */
  ghost function DeviceOf(w: Width, ini: Ini, env: Env, net: Net, interfaces: seq<Section>, sections: seq<Section>)
    : Result<DeviceConfig, FileError>
  {
    var device :- InterfaceOf(w, ini, env, net, interfaces);
    if sections == [] then Err(NoPeer) else
    var peers :- Collect(PeerReader(w, env, net), sections);
    Ok(DeviceConfig(device.secretKey, device.listenPort, device.asec, peers))
  }

  /** ParseInterface and ParsePeers, one after the other. */
  method ParseDevice(w: Width, ini: Ini, env: Env, net: Net, interfaces: seq<Section>, sections: seq<Section>)
    returns (r: Result<DeviceConfig, FileError>)
    ensures r == DeviceOf(w, ini, env, net, interfaces, sections)
  {
    var device :- ParseInterface(w, ini, env, net, interfaces);
    var peers :- ParsePeers(w, env, net, sections);
    return Ok(DeviceConfig(device.secretKey, device.listenPort, device.asec, peers));
  }
}
