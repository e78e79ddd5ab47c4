/**
What a section says, in terms of its texts: each of the 25 settings against its key, and which key
makes a section unreadable.
*/
module SectionText {
  import opened Wrappers
  import opened UintRanges
  import opened Machine
  import opened AwgConfig
  import opened AwgParse
  import opened Pipeline
  import Base64
  import Hex
  import Keys

  // ---------------------------------------------------------------- one key

  /** The number of a key, as the INI library reads it into an int of the platform, or nothing. */
  predicate SaysInt(w: Width, ini: Ini, sec: Section, key: string, v: Option<int>) {
    if key in sec then ini.intOf(sec[key]).Some? && v == Some(Wrap(w, ini.intOf(sec[key]).value)) else v == None
  }

  ghost predicate SaysRange(sec: Section, key: string, v: Option<UintRange>) {
    if key in sec then v.Some? && Denotes(sec[key], v.value) else v == None
  }

  predicate SaysText(sec: Section, key: string, v: Option<string>) {
    v == if key in sec then Some(sec[key]) else None
  }

  /** 64 hex digits for the 32 bytes that the base64 text of the key stands for. */
  predicate SaysHexKey(sec: Section, key: string, v: Option<string>) {
    if key in sec then v.Some? && Keys.IsHexKey(v.value) && Base64.Decode(sec[key]).Some? && Hex.Decode(v.value) == Base64.Decode(sec[key])
    else v == None
  }

  predicate SaysBool(ini: Ini, sec: Section, key: string, v: Option<bool>) {
    if key in sec then v.Some? && v == ini.boolOf(sec[key]) else v == None
  }

  lemma IntSays(w: Width, ini: Ini, sec: Section, key: string, v: Option<int>)
    ensures Typed(sec, key, IntReader(w, ini)) == Ok(v) <==> SaysInt(w, ini, sec, key, v)
  {
  }

  lemma RangeSays(sec: Section, key: string, v: Option<UintRange>)
    ensures Typed(sec, key, ReadRange) == Ok(v) <==> SaysRange(sec, key, v)
  {
    if key in sec && v.Some? { ParseExactly(sec[key], v.value); }
  }

  lemma HexKeyText(sec: Section, key: string, v: Option<string>)
    ensures Typed(sec, key, ReadKey) == Ok(v) <==> SaysHexKey(sec, key, v)
  {
    if key in sec && v.Some? { Keys.ToHexExactly(sec[key], v.value); }
  }

  // ---------------------------------------------------------------- all keys

  predicate JunkSays(w: Width, ini: Ini, sec: Section, j: Junk) {
    SaysInt(w, ini, sec, "Jc", j.count) && SaysInt(w, ini, sec, "Jmin", j.minSize) && SaysInt(w, ini, sec, "Jmax", j.maxSize)
  }

  predicate PaddingSays(w: Width, ini: Ini, sec: Section, p: Padding) {
    && SaysInt(w, ini, sec, "S1", p.s1) && SaysInt(w, ini, sec, "S2", p.s2)
    && SaysInt(w, ini, sec, "S3", p.s3) && SaysInt(w, ini, sec, "S4", p.s4)
  }

  ghost predicate HeadersSay(sec: Section, h: Headers) {
    SaysRange(sec, "H1", h.h1) && SaysRange(sec, "H2", h.h2) && SaysRange(sec, "H3", h.h3) && SaysRange(sec, "H4", h.h4)
  }

  predicate SignaturesSay(sec: Section, s: Signatures) {
    && SaysText(sec, "I1", s.i1) && SaysText(sec, "I2", s.i2) && SaysText(sec, "I3", s.i3)
    && SaysText(sec, "I4", s.i4) && SaysText(sec, "I5", s.i5)
  }

  ghost predicate TimingsSay(sec: Section, t: Timings) {
    && SaysRange(sec, "ContentPaddingAddition", t.contentPaddingAddition) && SaysRange(sec, "RekeyAfterTime", t.rekeyAfterTime)
    && SaysRange(sec, "RekeyTimeout", t.rekeyTimeout) && SaysRange(sec, "RejectAfterTime", t.rejectAfterTime)
    && SaysRange(sec, "KeepaliveTimeout", t.keepaliveTimeout) && SaysRange(sec, "MaxHandshakeAttempts", t.maxHandshakeAttempts)
  }

  predicate SwitchesSay(ini: Ini, sec: Section, s: Switches) {
    SaysBool(ini, sec, "RandomTrailers", s.randomTrailers) && SaysBool(ini, sec, "DisableCookies", s.disableCookies)
  }

  /** Every setting is what its key says. */
  ghost predicate SettingsSay(w: Width, ini: Ini, sec: Section, c: ASecConfig) {
    && JunkSays(w, ini, sec, c.junk) && PaddingSays(w, ini, sec, c.padding) && HeadersSay(sec, c.headers)
    && SignaturesSay(sec, c.signatures) && SaysHexKey(sec, "HeaderProtectionKey", c.headerProtectionKey)
    && TimingsSay(sec, c.timings) && SwitchesSay(ini, sec, c.switches)
  }

  lemma JunkExactly(w: Width, ini: Ini, sec: Section, j: Junk)
    ensures JunkOf(sec, IntReader(w, ini)) == Ok(j) <==> JunkSays(w, ini, sec, j)
  {
    IntSays(w, ini, sec, "Jc", j.count);
    IntSays(w, ini, sec, "Jmin", j.minSize);
    IntSays(w, ini, sec, "Jmax", j.maxSize);
  }

  lemma PaddingExactly(w: Width, ini: Ini, sec: Section, p: Padding)
    ensures PaddingOfSection(sec, IntReader(w, ini)) == Ok(p) <==> PaddingSays(w, ini, sec, p)
  {
    IntSays(w, ini, sec, "S1", p.s1);
    IntSays(w, ini, sec, "S2", p.s2);
    IntSays(w, ini, sec, "S3", p.s3);
    IntSays(w, ini, sec, "S4", p.s4);
  }

  lemma HeadersExactly(sec: Section, h: Headers)
    ensures HeadersOf(sec) == Ok(h) <==> HeadersSay(sec, h)
  {
    RangeSays(sec, "H1", h.h1);
    RangeSays(sec, "H2", h.h2);
    RangeSays(sec, "H3", h.h3);
    RangeSays(sec, "H4", h.h4);
  }

  lemma TimingsExactly(sec: Section, t: Timings)
    ensures TimingsOf(sec) == Ok(t) <==> TimingsSay(sec, t)
  {
    RangeSays(sec, "ContentPaddingAddition", t.contentPaddingAddition);
    RangeSays(sec, "RekeyAfterTime", t.rekeyAfterTime);
    RangeSays(sec, "RekeyTimeout", t.rekeyTimeout);
    RangeSays(sec, "RejectAfterTime", t.rejectAfterTime);
    RangeSays(sec, "KeepaliveTimeout", t.keepaliveTimeout);
    RangeSays(sec, "MaxHandshakeAttempts", t.maxHandshakeAttempts);
  }

  lemma TextsExactly(sec: Section, s: Signatures)
    ensures SignaturesOf(sec) == Ok(s) <==> SignaturesSay(sec, s)
  {
  }

  lemma SwitchesExactly(ini: Ini, sec: Section, s: Switches)
    ensures SwitchesOf(sec, ini) == Ok(s) <==> SwitchesSay(ini, sec, s)
  {
  }

  lemma SettingsParts(w: Width, ini: Ini, sec: Section, c: ASecConfig)
    ensures SettingsOf(w, ini, sec) == Ok(c) <==>
      && JunkOf(sec, IntReader(w, ini)) == Ok(c.junk) && PaddingOfSection(sec, IntReader(w, ini)) == Ok(c.padding)
      && HeadersOf(sec) == Ok(c.headers) && SignaturesOf(sec) == Ok(c.signatures)
      && Typed(sec, "HeaderProtectionKey", ReadKey) == Ok(c.headerProtectionKey)
      && TimingsOf(sec) == Ok(c.timings) && SwitchesOf(sec, ini) == Ok(c.switches)
  {
  }

  /** A section is read as `c` if and only if every setting of `c` is what its key says. */
  lemma SettingsExactly(w: Width, ini: Ini, sec: Section, c: ASecConfig)
    ensures SettingsOf(w, ini, sec) == Ok(c) <==> SettingsSay(w, ini, sec, c)
  {
    SettingsParts(w, ini, sec, c);
    JunkExactly(w, ini, sec, c.junk);
    PaddingExactly(w, ini, sec, c.padding);
    HeadersExactly(sec, c.headers);
    TextsExactly(sec, c.signatures);
    HexKeyText(sec, "HeaderProtectionKey", c.headerProtectionKey);
    TimingsExactly(sec, c.timings);
    SwitchesExactly(ini, sec, c.switches);
  }

  // ---------------------------------------------------------------- sections that are refused

  /** The k-th key is present with a value that cannot be read: no number, no range, no key, no switch. */
  ghost predicate Unreadable(w: Width, ini: Ini, sec: Section, k: nat)
    requires k < 25
  {
    && KEYS[k] in sec
    && var text := sec[KEYS[k]];
       if k < 7 then ini.intOf(text).None?
       else if k < 11 || 17 <= k < 23 then forall r :: !Denotes(text, r)
       else if k < 16 then false
       else if k == 16 then forall h :: Keys.IsHexKey(h) ==> Base64.Decode(text).None? || Hex.Decode(h) != Base64.Decode(text)
       else ini.boolOf(text).None?
  }

  ghost predicate AllReadable(w: Width, ini: Ini, sec: Section, lo: nat, hi: nat)
    requires hi <= 25
  {
    forall k :: lo <= k < hi ==> !Unreadable(w, ini, sec, k)
  }

  /** The error names the first unreadable key from `lo` on. */
  ghost predicate NamesFirst(w: Width, ini: Ini, sec: Section, lo: nat, hi: nat, e: ParseError)
    requires hi <= 25
  {
    exists n :: lo <= n < hi && Unreadable(w, ini, sec, n) && e == BadValue(KEYS[n]) && AllReadable(w, ini, sec, lo, n)
  }

  ghost predicate Explains<T>(w: Width, ini: Ini, sec: Section, lo: nat, hi: nat, r: Result<T, ParseError>)
    requires hi <= 25
  {
    if r.Ok? then AllReadable(w, ini, sec, lo, hi) else NamesFirst(w, ini, sec, lo, hi, r.error)
  }

  lemma IntKey(w: Width, ini: Ini, sec: Section, k: nat)
    requires k < 7
    ensures Explains(w, ini, sec, k, k + 1, Typed(sec, KEYS[k], IntReader(w, ini)))
  {
    if Typed(sec, KEYS[k], IntReader(w, ini)).Err? { assert Unreadable(w, ini, sec, k); }
  }

  lemma RangeKey(w: Width, ini: Ini, sec: Section, k: nat)
    requires 7 <= k < 11 || 17 <= k < 23
    ensures Explains(w, ini, sec, k, k + 1, Typed(sec, KEYS[k], ReadRange))
  {
    if KEYS[k] in sec {
      var text := sec[KEYS[k]];
      forall r ensures Parse(text) == Ok(r) <==> Denotes(text, r) { ParseExactly(text, r); }
      if Parse(text).Err? { assert Unreadable(w, ini, sec, k); } else { assert Denotes(text, Parse(text).value); }
    }
  }

  lemma ProtectionKey(w: Width, ini: Ini, sec: Section)
    ensures Explains(w, ini, sec, 16, 17, Typed(sec, KEYS[16], ReadKey))
  {
    if KEYS[16] in sec {
      var text := sec[KEYS[16]];
      forall h ensures Keys.ToHex(text) == Ok(h) <==>
        Keys.IsHexKey(h) && Base64.Decode(text).Some? && Hex.Decode(h) == Base64.Decode(text)
      {
        Keys.ToHexExactly(text, h);
      }
      if Keys.ToHex(text).Err? { assert Unreadable(w, ini, sec, 16); } else { assert Keys.IsHexKey(Keys.ToHex(text).value); }
    }
  }

  lemma SwitchKey(w: Width, ini: Ini, sec: Section, k: nat)
    requires 23 <= k < 25
    ensures Explains(w, ini, sec, k, k + 1, Typed(sec, KEYS[k], ini.boolOf))
  {
    if Typed(sec, KEYS[k], ini.boolOf).Err? { assert Unreadable(w, ini, sec, k); }
  }

  /** Reading one part after the other: the first failure is the failure of the whole. */
  lemma Then<T, U, V>(w: Width, ini: Ini, sec: Section, lo: nat, mid: nat, hi: nat,
                      a: Result<T, ParseError>, b: Result<U, ParseError>, both: Result<V, ParseError>)
    requires lo <= mid <= hi <= 25 && Explains(w, ini, sec, lo, mid, a) && Explains(w, ini, sec, mid, hi, b)
    requires both.Ok? <==> a.Ok? && b.Ok?
    requires both.Err? ==> both.error == if a.Err? then a.error else b.error
    ensures Explains(w, ini, sec, lo, hi, both)
  {
    if a.Ok? && b.Err? {
      var n :| mid <= n < hi && Unreadable(w, ini, sec, n) && b.error == BadValue(KEYS[n]) && AllReadable(w, ini, sec, mid, n);
      assert AllReadable(w, ini, sec, lo, n);
    } else if a.Err? {
      var n :| lo <= n < mid && Unreadable(w, ini, sec, n) && a.error == BadValue(KEYS[n]) && AllReadable(w, ini, sec, lo, n);
      assert NamesFirst(w, ini, sec, lo, hi, a.error);
    }
  }

  /** The outcome of two parts read in order. */
  function Both<T, U>(a: Result<T, ParseError>, b: Result<U, ParseError>): Result<(), ParseError> {
    if a.Err? then Err(a.error) else if b.Err? then Err(b.error) else Ok(())
  }

  /** The outcome of reading `n` keys in order from the key `lo` on. */
  function KeysRead<T>(sec: Section, read: string -> Option<T>, lo: nat, n: nat): Result<(), ParseError>
    requires lo + n <= 25
  {
    if n == 0 then Ok(()) else Both(KeysRead(sec, read, lo, n - 1), Typed(sec, KEYS[lo + n - 1], read))
  }

  ghost predicate KeyExplained<T>(w: Width, ini: Ini, sec: Section, read: string -> Option<T>, k: nat)
    requires k < 25
  {
    Explains(w, ini, sec, k, k + 1, Typed(sec, KEYS[k], read))
  }

  lemma NothingExplained(w: Width, ini: Ini, sec: Section, lo: nat)
    requires lo <= 25
    ensures Explains(w, ini, sec, lo, lo, Ok(()))
  {
  }

  lemma OneMoreKey<T>(w: Width, ini: Ini, sec: Section, read: string -> Option<T>, lo: nat, n: nat)
    requires 0 < n && lo + n <= 25 && KeyExplained(w, ini, sec, read, lo + n - 1)
    requires Explains(w, ini, sec, lo, lo + n - 1, KeysRead(sec, read, lo, n - 1))
    ensures Explains(w, ini, sec, lo, lo + n, KeysRead(sec, read, lo, n))
  {
    var m := lo + n - 1;
    Then(w, ini, sec, lo, m, m + 1, KeysRead(sec, read, lo, n - 1), Typed(sec, KEYS[m], read), KeysRead(sec, read, lo, n));
  }

  lemma {:induction false} KeysReadExplained<T>(w: Width, ini: Ini, sec: Section, read: string -> Option<T>, lo: nat, n: nat)
    requires lo + n <= 25 && forall k :: lo <= k < lo + n ==> KeyExplained(w, ini, sec, read, k)
    ensures Explains(w, ini, sec, lo, lo + n, KeysRead(sec, read, lo, n))
  {
    if n == 0 {
      NothingExplained(w, ini, sec, lo);
    } else {
      KeysReadExplained(w, ini, sec, read, lo, n - 1);
      OneMoreKey(w, ini, sec, read, lo, n);
    }
  }

  predicate SameOutcome<T, U>(a: Result<T, ParseError>, b: Result<U, ParseError>) {
    (a.Ok? <==> b.Ok?) && (a.Err? ==> b.Err? && a.error == b.error)
  }

  lemma ThreeKeys<T>(sec: Section, read: string -> Option<T>, lo: nat)
    requires lo + 3 <= 25
    ensures KeysRead(sec, read, lo, 3) ==
      Both(Both(Typed(sec, KEYS[lo], read), Typed(sec, KEYS[lo + 1], read)), Typed(sec, KEYS[lo + 2], read))
  {
    assert KeysRead(sec, read, lo, 0) == Ok(());
    assert KeysRead(sec, read, lo, 1) == Both(KeysRead(sec, read, lo, 0), Typed(sec, KEYS[lo], read));
    assert KeysRead(sec, read, lo, 2) == Both(KeysRead(sec, read, lo, 1), Typed(sec, KEYS[lo + 1], read));
  }

  lemma JunkIsKeys(sec: Section, read: string -> Option<int>)
    ensures SameOutcome(KeysRead(sec, read, 0, 3), JunkOf(sec, read))
  {
    ThreeKeys(sec, read, 0);
  }

  lemma PaddingIsKeys(sec: Section, read: string -> Option<int>)
    ensures SameOutcome(KeysRead(sec, read, 3, 4), PaddingOfSection(sec, read))
  {
    ThreeKeys(sec, read, 3);
    assert KeysRead(sec, read, 3, 4) == Both(KeysRead(sec, read, 3, 3), Typed(sec, KEYS[6], read));
  }

  lemma HeadersAreKeys(sec: Section)
    ensures SameOutcome(KeysRead(sec, ReadRange, 7, 4), HeadersOf(sec))
  {
    ThreeKeys(sec, ReadRange, 7);
    assert KeysRead(sec, ReadRange, 7, 4) == Both(KeysRead(sec, ReadRange, 7, 3), Typed(sec, KEYS[10], ReadRange));
  }

  lemma TimingsAreKeys(sec: Section)
    ensures SameOutcome(KeysRead(sec, ReadRange, 17, 6), TimingsOf(sec))
  {
    ThreeKeys(sec, ReadRange, 17);
    assert KeysRead(sec, ReadRange, 17, 4) == Both(KeysRead(sec, ReadRange, 17, 3), Typed(sec, KEYS[20], ReadRange));
    assert KeysRead(sec, ReadRange, 17, 5) == Both(KeysRead(sec, ReadRange, 17, 4), Typed(sec, KEYS[21], ReadRange));
    assert KeysRead(sec, ReadRange, 17, 6) == Both(KeysRead(sec, ReadRange, 17, 5), Typed(sec, KEYS[22], ReadRange));
  }

  lemma IntKeys(w: Width, ini: Ini, sec: Section)
    ensures Explains(w, ini, sec, 0, 3, JunkOf(sec, IntReader(w, ini)))
    ensures Explains(w, ini, sec, 3, 7, PaddingOfSection(sec, IntReader(w, ini)))
  {
    forall k | 0 <= k < 7 ensures KeyExplained(w, ini, sec, IntReader(w, ini), k) { IntKey(w, ini, sec, k); }
    KeysReadExplained(w, ini, sec, IntReader(w, ini), 0, 3);
    KeysReadExplained(w, ini, sec, IntReader(w, ini), 3, 4);
    JunkIsKeys(sec, IntReader(w, ini));
    PaddingIsKeys(sec, IntReader(w, ini));
  }

  lemma RangeKeys(w: Width, ini: Ini, sec: Section)
    ensures Explains(w, ini, sec, 7, 11, HeadersOf(sec))
    ensures Explains(w, ini, sec, 17, 23, TimingsOf(sec))
  {
    forall k | 7 <= k < 11 || 17 <= k < 23 ensures KeyExplained(w, ini, sec, ReadRange, k) {
      RangeKey(w, ini, sec, k);
    }
    KeysReadExplained(w, ini, sec, ReadRange, 7, 4);
    KeysReadExplained(w, ini, sec, ReadRange, 17, 6);
    HeadersAreKeys(sec);
    TimingsAreKeys(sec);
  }

  lemma OtherKeys(w: Width, ini: Ini, sec: Section)
    ensures Explains(w, ini, sec, 11, 16, SignaturesOf(sec))
    ensures Explains(w, ini, sec, 16, 17, Typed(sec, "HeaderProtectionKey", ReadKey))
    ensures Explains(w, ini, sec, 23, 25, SwitchesOf(sec, ini))
  {
    ProtectionKey(w, ini, sec);
    SwitchKey(w, ini, sec, 23);
    SwitchKey(w, ini, sec, 24);
    Then(w, ini, sec, 23, 24, 25, Typed(sec, "RandomTrailers", ini.boolOf), Typed(sec, "DisableCookies", ini.boolOf), SwitchesOf(sec, ini));
  }

  /**
  Reading a section succeeds if and only if none of the 25 keys is present with an unreadable value;
  otherwise the error names the first such key in the order of the request.
  */
  lemma SettingsRefusedExactly(w: Width, ini: Ini, sec: Section)
    ensures SettingsOf(w, ini, sec).Ok? <==> AllReadable(w, ini, sec, 0, 25)
    ensures SettingsOf(w, ini, sec).Err? ==> NamesFirst(w, ini, sec, 0, 25, SettingsOf(w, ini, sec).error)
  {
    IntKeys(w, ini, sec);
    RangeKeys(w, ini, sec);
    OtherKeys(w, ini, sec);
    var a, b, c, d := JunkOf(sec, IntReader(w, ini)), PaddingOfSection(sec, IntReader(w, ini)), HeadersOf(sec), SignaturesOf(sec);
    var e, f, g := Typed(sec, "HeaderProtectionKey", ReadKey), TimingsOf(sec), SwitchesOf(sec, ini);
    Then(w, ini, sec, 0, 3, 7, a, b, Both(a, b));
    Then(w, ini, sec, 0, 7, 11, Both(a, b), c, Both(Both(a, b), c));
    Then(w, ini, sec, 0, 11, 16, Both(Both(a, b), c), d, Both(Both(Both(a, b), c), d));
    Then(w, ini, sec, 0, 16, 17, Both(Both(Both(a, b), c), d), e, Both(Both(Both(Both(a, b), c), d), e));
    var most := Both(Both(Both(Both(a, b), c), d), e);
    Then(w, ini, sec, 0, 17, 23, most, f, Both(most, f));
    Then(w, ini, sec, 0, 23, 25, Both(most, f), g, SettingsOf(w, ini, sec));
  }
}
