/**
Reading the AmneziaWG keys of an [Interface] section (ParseASecConfig in awg_config.go). A section
is a map from key name to text; the number and boolean readers of the INI library are parameters.
*/
module AwgParse {
  import opened Wrappers
  import opened UintRanges
  import opened Machine
  import opened AwgConfig
  import Keys

  type Section = map<string, string>

  /** Key.Int (before the conversion to the platform's int) and Key.Bool. */
  datatype Ini = Ini(intOf: string -> Option<int>, boolOf: string -> Option<bool>)

  datatype ParseError = BadValue(key: string) | Invalid(problem: ConfigError)

  // ---------------------------------------------------------------- one key

  /** A present key gives its value or an error naming it, an absent key gives nothing. */
  function Typed<T>(sec: Section, key: string, read: string -> Option<T>): Result<Option<T>, ParseError> {
    if key !in sec then Ok(None)
    else if read(sec[key]).None? then Err(BadValue(key))
    else Ok(Some(read(sec[key]).value))
  }

  function IntReader(w: Width, ini: Ini): string -> Option<int> {
    text => if ini.intOf(text).None? then None else Some(Wrap(w, ini.intOf(text).value))
  }

  function ReadRange(text: string): Option<UintRange> {
    if Parse(text).Ok? then Some(Parse(text).value) else None
  }

  function ReadText(text: string): Option<string> {
    Some(text)
  }

  function ReadKey(text: string): Option<string> {
    if Keys.ToHex(text).Ok? then Some(Keys.ToHex(text).value) else None
  }

  // ---------------------------------------------------------------- what a section says

  function JunkOf(sec: Section, int_: string -> Option<int>): Result<Junk, ParseError> {
    var jc :- Typed(sec, "Jc", int_);
    var jmin :- Typed(sec, "Jmin", int_);
    var jmax :- Typed(sec, "Jmax", int_);
    Ok(Junk(jc, jmin, jmax))
  }

  function PaddingOfSection(sec: Section, int_: string -> Option<int>): Result<Padding, ParseError> {
    var s1 :- Typed(sec, "S1", int_);
    var s2 :- Typed(sec, "S2", int_);
    var s3 :- Typed(sec, "S3", int_);
    var s4 :- Typed(sec, "S4", int_);
    Ok(Padding(s1, s2, s3, s4))
  }

  function HeadersOf(sec: Section): Result<Headers, ParseError> {
    var h1 :- Typed(sec, "H1", ReadRange);
    var h2 :- Typed(sec, "H2", ReadRange);
    var h3 :- Typed(sec, "H3", ReadRange);
    var h4 :- Typed(sec, "H4", ReadRange);
    Ok(Headers(h1, h2, h3, h4))
  }

  function SignaturesOf(sec: Section): Result<Signatures, ParseError> {
    var i1 :- Typed(sec, "I1", ReadText);
    var i2 :- Typed(sec, "I2", ReadText);
    var i3 :- Typed(sec, "I3", ReadText);
    var i4 :- Typed(sec, "I4", ReadText);
    var i5 :- Typed(sec, "I5", ReadText);
    Ok(Signatures(i1, i2, i3, i4, i5))
  }

  function TimingsOf(sec: Section): Result<Timings, ParseError> {
    var padding :- Typed(sec, "ContentPaddingAddition", ReadRange);
    var rekey :- Typed(sec, "RekeyAfterTime", ReadRange);
    var retry :- Typed(sec, "RekeyTimeout", ReadRange);
    var reject :- Typed(sec, "RejectAfterTime", ReadRange);
    var keepalive :- Typed(sec, "KeepaliveTimeout", ReadRange);
    var attempts :- Typed(sec, "MaxHandshakeAttempts", ReadRange);
    Ok(Timings(padding, rekey, retry, reject, keepalive, attempts))
  }

  function SwitchesOf(sec: Section, ini: Ini): Result<Switches, ParseError> {
    var trailers :- Typed(sec, "RandomTrailers", ini.boolOf);
    var cookies :- Typed(sec, "DisableCookies", ini.boolOf);
    Ok(Switches(trailers, cookies))
  }

  /** All settings of the section, or the first key, in reading order, with a value that cannot be read. */
  function SettingsOf(w: Width, ini: Ini, sec: Section): Result<ASecConfig, ParseError> {
    var junk :- JunkOf(sec, IntReader(w, ini));
    var padding :- PaddingOfSection(sec, IntReader(w, ini));
    var headers :- HeadersOf(sec);
    var signatures :- SignaturesOf(sec);
    var key :- Typed(sec, "HeaderProtectionKey", ReadKey);
    var timings :- TimingsOf(sec);
    var switches :- SwitchesOf(sec, ini);
    Ok(ASecConfig(junk, padding, headers, signatures, key, timings, switches))
  }

  /** No configuration at all when nothing is set. */
  function Optional(c: ASecConfig): Option<ASecConfig> {
    if c == NOTHING_SET then None else Some(c)
  }

  // ---------------------------------------------------------------- the code

  function Filled(c: Option<ASecConfig>): ASecConfig {
    if c.Some? then c.value else NOTHING_SET
  }

  method ParseJunk(sec: Section, int_: string -> Option<int>) returns (r: Result<Option<ASecConfig>, ParseError>)
    ensures r == var junk :- JunkOf(sec, int_); Ok(Optional(NOTHING_SET.(junk := junk)))
  {
    var config: Option<ASecConfig> := None;
    var jc :- Typed(sec, "Jc", int_);
    if jc.Some? { config := Some(Filled(config).(junk := Filled(config).junk.(count := jc))); }
    var jmin :- Typed(sec, "Jmin", int_);
    if jmin.Some? { config := Some(Filled(config).(junk := Filled(config).junk.(minSize := jmin))); }
    var jmax :- Typed(sec, "Jmax", int_);
    if jmax.Some? { config := Some(Filled(config).(junk := Filled(config).junk.(maxSize := jmax))); }
    return Ok(config);
  }

  method ParsePadding(sec: Section, int_: string -> Option<int>, given: ASecConfig)
    returns (r: Result<Option<ASecConfig>, ParseError>)
    requires given.padding == NOTHING_SET.padding
    ensures r == var padding :- PaddingOfSection(sec, int_); Ok(Optional(given.(padding := padding)))
  {
    var config := Optional(given);
    var s1 :- Typed(sec, "S1", int_);
    if s1.Some? { config := Some(Filled(config).(padding := Filled(config).padding.(s1 := s1))); }
    var s2 :- Typed(sec, "S2", int_);
    if s2.Some? { config := Some(Filled(config).(padding := Filled(config).padding.(s2 := s2))); }
    var s3 :- Typed(sec, "S3", int_);
    if s3.Some? { config := Some(Filled(config).(padding := Filled(config).padding.(s3 := s3))); }
    var s4 :- Typed(sec, "S4", int_);
    if s4.Some? { config := Some(Filled(config).(padding := Filled(config).padding.(s4 := s4))); }
    return Ok(config);
  }

  method ParseHeaders(sec: Section, given: ASecConfig) returns (r: Result<Option<ASecConfig>, ParseError>)
    requires given.headers == NOTHING_SET.headers
    ensures r == var headers :- HeadersOf(sec); Ok(Optional(given.(headers := headers)))
  {
    var config := Optional(given);
    var h1 :- Typed(sec, "H1", ReadRange);
    if h1.Some? { config := Some(Filled(config).(headers := Filled(config).headers.(h1 := h1))); }
    var h2 :- Typed(sec, "H2", ReadRange);
    if h2.Some? { config := Some(Filled(config).(headers := Filled(config).headers.(h2 := h2))); }
    var h3 :- Typed(sec, "H3", ReadRange);
    if h3.Some? { config := Some(Filled(config).(headers := Filled(config).headers.(h3 := h3))); }
    var h4 :- Typed(sec, "H4", ReadRange);
    if h4.Some? { config := Some(Filled(config).(headers := Filled(config).headers.(h4 := h4))); }
    return Ok(config);
  }

  method ParseSignatures(sec: Section, given: ASecConfig) returns (r: Result<Option<ASecConfig>, ParseError>)
    requires given.signatures == NOTHING_SET.signatures
    ensures r == var signatures :- SignaturesOf(sec); Ok(Optional(given.(signatures := signatures)))
  {
    var config := Optional(given);
    if "I1" in sec { config := Some(Filled(config).(signatures := Filled(config).signatures.(i1 := Some(sec["I1"])))); }
    if "I2" in sec { config := Some(Filled(config).(signatures := Filled(config).signatures.(i2 := Some(sec["I2"])))); }
    if "I3" in sec { config := Some(Filled(config).(signatures := Filled(config).signatures.(i3 := Some(sec["I3"])))); }
    if "I4" in sec { config := Some(Filled(config).(signatures := Filled(config).signatures.(i4 := Some(sec["I4"])))); }
    if "I5" in sec { config := Some(Filled(config).(signatures := Filled(config).signatures.(i5 := Some(sec["I5"])))); }
    return Ok(config);
  }

  const RANGE_KEYS := ["ContentPaddingAddition", "RekeyAfterTime", "RekeyTimeout",
                       "RejectAfterTime", "KeepaliveTimeout", "MaxHandshakeAttempts"]

  /** The destination of the k-th key of the range table. */
  function SetTiming(t: Timings, k: nat, v: UintRange): Timings
    requires k < |RANGE_KEYS|
  {
    match k
    case 0 => t.(contentPaddingAddition := Some(v))
    case 1 => t.(rekeyAfterTime := Some(v))
    case 2 => t.(rekeyTimeout := Some(v))
    case 3 => t.(rejectAfterTime := Some(v))
    case 4 => t.(keepaliveTimeout := Some(v))
    case _ => t.(maxHandshakeAttempts := Some(v))
  }

  /** What the first `n` keys of the range table leave behind. */
  function TimingsUpTo(sec: Section, n: nat): Result<Timings, ParseError>
    requires n <= |RANGE_KEYS|
  {
    if n == 0 then Ok(NOTHING_SET.timings) else
    var before :- TimingsUpTo(sec, n - 1);
    var v :- Typed(sec, RANGE_KEYS[n - 1], ReadRange);
    Ok(if v.Some? then SetTiming(before, n - 1, v.value) else before)
  }

  lemma TimingsUpToAll(sec: Section)
    ensures TimingsUpTo(sec, 6) == TimingsOf(sec)
  {
    assert TimingsUpTo(sec, 1) == var a :- Typed(sec, "ContentPaddingAddition", ReadRange);
      Ok(Timings(a, None, None, None, None, None));
    assert TimingsUpTo(sec, 2) == var a :- Typed(sec, "ContentPaddingAddition", ReadRange);
      var b :- Typed(sec, "RekeyAfterTime", ReadRange);
      Ok(Timings(a, b, None, None, None, None));
    assert TimingsUpTo(sec, 3) == var a :- Typed(sec, "ContentPaddingAddition", ReadRange);
      var b :- Typed(sec, "RekeyAfterTime", ReadRange);
      var c :- Typed(sec, "RekeyTimeout", ReadRange);
      Ok(Timings(a, b, c, None, None, None));
    assert TimingsUpTo(sec, 4) == var a :- Typed(sec, "ContentPaddingAddition", ReadRange);
      var b :- Typed(sec, "RekeyAfterTime", ReadRange);
      var c :- Typed(sec, "RekeyTimeout", ReadRange);
      var d :- Typed(sec, "RejectAfterTime", ReadRange);
      Ok(Timings(a, b, c, d, None, None));
    assert TimingsUpTo(sec, 5) == var a :- Typed(sec, "ContentPaddingAddition", ReadRange);
      var b :- Typed(sec, "RekeyAfterTime", ReadRange);
      var c :- Typed(sec, "RekeyTimeout", ReadRange);
      var d :- Typed(sec, "RejectAfterTime", ReadRange);
      var e :- Typed(sec, "KeepaliveTimeout", ReadRange);
      Ok(Timings(a, b, c, d, e, None));
  }

  lemma {:induction false} TimingsUpToFails(sec: Section, n: nat, m: nat)
    requires n <= m <= |RANGE_KEYS| && TimingsUpTo(sec, n).Err?
    ensures TimingsUpTo(sec, m) == TimingsUpTo(sec, n)
  {
    if n < m {
      TimingsUpToFails(sec, n, m - 1);
    }
  }

  /** The loop over the table of range keys. */
  method ParseTimings(sec: Section, given: ASecConfig) returns (r: Result<Option<ASecConfig>, ParseError>)
    requires given.timings == NOTHING_SET.timings
    ensures r == var timings :- TimingsOf(sec); Ok(Optional(given.(timings := timings)))
  {
    var config := Optional(given);
    TimingsUpToAll(sec);
    for k := 0 to |RANGE_KEYS|
      invariant TimingsUpTo(sec, k).Ok?
      invariant config == Optional(given.(timings := TimingsUpTo(sec, k).value))
    {
      if RANGE_KEYS[k] in sec {
        var v := Parse(sec[RANGE_KEYS[k]]);
        if v.Err? {
          TimingsUpToFails(sec, k + 1, 6);
          return Err(BadValue(RANGE_KEYS[k]));
        }
        config := Some(Filled(config).(timings := SetTiming(Filled(config).timings, k, v.value)));
      }
    }
    return Ok(config);
  }

  const BOOL_KEYS := ["RandomTrailers", "DisableCookies"]

  /** The loop over the table of boolean keys. */
  method ParseSwitches(sec: Section, ini: Ini, given: ASecConfig) returns (r: Result<Option<ASecConfig>, ParseError>)
    requires given.switches == NOTHING_SET.switches
    ensures r == var switches :- SwitchesOf(sec, ini); Ok(Optional(given.(switches := switches)))
  {
    var config := Optional(given);
    for k := 0 to |BOOL_KEYS|
      invariant k >= 1 ==> Typed(sec, "RandomTrailers", ini.boolOf).Ok?
      invariant k == 2 ==> Typed(sec, "DisableCookies", ini.boolOf).Ok?
      invariant config == Optional(given.(switches := Switches(
        if k >= 1 then Typed(sec, "RandomTrailers", ini.boolOf).value else None,
        if k == 2 then Typed(sec, "DisableCookies", ini.boolOf).value else None)))
    {
      if BOOL_KEYS[k] in sec {
        var v := ini.boolOf(sec[BOOL_KEYS[k]]);
        if v.None? { return Err(BadValue(BOOL_KEYS[k])); }
        var switches := Filled(config).switches;
        config := Some(Filled(config).(switches :=
          if k == 0 then switches.(randomTrailers := v) else switches.(disableCookies := v)));
      }
    }
    return Ok(config);
  }

  /**
  ParseASecConfig: the first unreadable value or, when all are read, the first problem the validator
  finds; otherwise the settings of the section, or nothing when it sets none of them.
  */
  method ParseASecConfig(w: Width, ini: Ini, sec: Section) returns (r: Result<Option<ASecConfig>, ParseError>)
    ensures r == var c :- SettingsOf(w, ini, sec);
      if Optional(c).Some? && FirstProblem(w, c).Some? then Err(Invalid(FirstProblem(w, c).value)) else Ok(Optional(c))
  {
    var a :- ParseJunk(sec, IntReader(w, ini));
    var b :- ParsePadding(sec, IntReader(w, ini), Filled(a));
    var c :- ParseHeaders(sec, Filled(b));
    var d :- ParseSignatures(sec, Filled(c));
    var key :- Typed(sec, "HeaderProtectionKey", ReadKey);
    if key.Some? { d := Some(Filled(d).(headerProtectionKey := key)); }
    var e :- ParseTimings(sec, Filled(d));
    var config :- ParseSwitches(sec, ini, Filled(e));
    var problem := Validate(w, config);
    if problem.Some? { return Err(Invalid(problem.value)); }
    return Ok(config);
  }
}
