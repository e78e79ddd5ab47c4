/** The AmneziaWG lines of a request (CreateIPCRequest in wireguard.go) and an independent reader for them. */
module AwgIpc {
  import opened Wrappers
  import opened Decimal
  import opened UintRanges
  import opened AwgConfig
  import opened IpcLines

  // ---------------------------------------------------------------- texts of values

  function IntText(v: Option<int>): Option<string> {
    if v.Some? then Some(PrintInt(v.value)) else None
  }

  function RangeText(v: Option<UintRange>): Option<string> {
    if v.Some? then Some(Show(v.value)) else None
  }

  function BoolText(v: Option<bool>): Option<string> {
    if v.Some? then Some(if v.value then "true" else "false") else None
  }

  // ---------------------------------------------------------------- the lines

  function JunkFields(j: Junk): seq<Field> {
    [Field("jc", IntText(j.count)), Field("jmin", IntText(j.minSize)), Field("jmax", IntText(j.maxSize))]
  }

  function PaddingFields(p: Padding): seq<Field> {
    [Field("s1", IntText(p.s1)), Field("s2", IntText(p.s2)), Field("s3", IntText(p.s3)), Field("s4", IntText(p.s4))]
  }

  function HeaderFields(h: Headers): seq<Field> {
    [Field("h1", RangeText(h.h1)), Field("h2", RangeText(h.h2)), Field("h3", RangeText(h.h3)), Field("h4", RangeText(h.h4))]
  }

  function SignatureFields(s: Signatures): seq<Field> {
    [Field("i1", s.i1), Field("i2", s.i2), Field("i3", s.i3), Field("i4", s.i4), Field("i5", s.i5)]
  }

  function TimingFields(t: Timings): seq<Field> {
    [Field("content_padding_addition", RangeText(t.contentPaddingAddition)),
     Field("rekey_after_time", RangeText(t.rekeyAfterTime)),
     Field("rekey_timeout", RangeText(t.rekeyTimeout)),
     Field("reject_after_time", RangeText(t.rejectAfterTime)),
     Field("keepalive_timeout", RangeText(t.keepaliveTimeout)),
     Field("max_handshake_attempts", RangeText(t.maxHandshakeAttempts))]
  }

  function SwitchFields(s: Switches): seq<Field> {
    [Field("random_trailers", BoolText(s.randomTrailers)), Field("disable_cookies", BoolText(s.disableCookies))]
  }

  /** The 25 settings in the order of the request. */
  function Fields(c: ASecConfig): (fields: seq<Field>)
    ensures |fields| == 25
  {
    JunkFields(c.junk) + PaddingFields(c.padding) + HeaderFields(c.headers) + SignatureFields(c.signatures)
    + [Field("header_protection_key", c.headerProtectionKey)] + TimingFields(c.timings) + SwitchFields(c.switches)
  }

  const NAMES := ["jc", "jmin", "jmax", "s1", "s2", "s3", "s4", "h1", "h2", "h3", "h4", "i1", "i2", "i3", "i4", "i5",
                  "header_protection_key", "content_padding_addition", "rekey_after_time", "rekey_timeout",
                  "reject_after_time", "keepalive_timeout", "max_handshake_attempts", "random_trailers", "disable_cookies"]

  lemma FieldNames(c: ASecConfig)
    ensures forall k :: 0 <= k < 25 ==> Fields(c)[k].name == NAMES[k]
  {
  }

  lemma NamesDistinct()
    ensures forall i, j :: 0 <= i < j < |NAMES| ==> NAMES[i] != NAMES[j]
  {
  }

  lemma NamesClean()
    ensures forall i :: 0 <= i < |NAMES| ==> CleanKey(NAMES[i])
  {
  }

  predicate Ordered(r: Option<UintRange>) {
    r.Some? ==> r.value.min <= r.value.max
  }

  // ---------------------------------------------------------------- an independent reader

  function ReadIntOf(pairs: seq<Pair>, key: string): Option<Option<int>> {
    var text := Lookup(pairs, key);
    if text.None? then Some(None) else
    var v :- ReadInt(text.value);
    Some(Some(v))
  }

  function ReadRangeOf(pairs: seq<Pair>, key: string): (r: Option<Option<UintRange>>)
    ensures r.Some? ==> Ordered(r.value)
  {
    var text := Lookup(pairs, key);
    if text.None? then Some(None)
    else if Parse(text.value).Err? then None
    else Some(Some(Parse(text.value).value))
  }

  function ReadBoolOf(pairs: seq<Pair>, key: string): Option<Option<bool>> {
    var text := Lookup(pairs, key);
    if text.None? then Some(None)
    else if text.value == "true" then Some(Some(true))
    else if text.value == "false" then Some(Some(false))
    else None
  }

  function ReadJunk(pairs: seq<Pair>): Option<Junk> {
    var jc :- ReadIntOf(pairs, "jc");
    var jmin :- ReadIntOf(pairs, "jmin");
    var jmax :- ReadIntOf(pairs, "jmax");
    Some(Junk(jc, jmin, jmax))
  }

  function ReadPadding(pairs: seq<Pair>): Option<Padding> {
    var s1 :- ReadIntOf(pairs, "s1");
    var s2 :- ReadIntOf(pairs, "s2");
    var s3 :- ReadIntOf(pairs, "s3");
    var s4 :- ReadIntOf(pairs, "s4");
    Some(Padding(s1, s2, s3, s4))
  }

  function ReadHeaders(pairs: seq<Pair>): Option<Headers> {
    var h1 :- ReadRangeOf(pairs, "h1");
    var h2 :- ReadRangeOf(pairs, "h2");
    var h3 :- ReadRangeOf(pairs, "h3");
    var h4 :- ReadRangeOf(pairs, "h4");
    Some(Headers(h1, h2, h3, h4))
  }

  function ReadTimings(pairs: seq<Pair>): (r: Option<Timings>)
    ensures r.Some? ==> TimingsInOrder(r.value)
  {
    var a :- ReadRangeOf(pairs, "content_padding_addition");
    var b :- ReadRangeOf(pairs, "rekey_after_time");
    var c :- ReadRangeOf(pairs, "rekey_timeout");
    var d :- ReadRangeOf(pairs, "reject_after_time");
    var e :- ReadRangeOf(pairs, "keepalive_timeout");
    var f :- ReadRangeOf(pairs, "max_handshake_attempts");
    Some(Timings(a, b, c, d, e, f))
  }

  function ReadSwitches(pairs: seq<Pair>): Option<Switches> {
    var a :- ReadBoolOf(pairs, "random_trailers");
    var b :- ReadBoolOf(pairs, "disable_cookies");
    Some(Switches(a, b))
  }

  function ReadSettings(pairs: seq<Pair>): Option<ASecConfig> {
    var junk :- ReadJunk(pairs);
    var padding :- ReadPadding(pairs);
    var headers :- ReadHeaders(pairs);
    var timings :- ReadTimings(pairs);
    var switches :- ReadSwitches(pairs);
    var signatures := Signatures(Lookup(pairs, "i1"), Lookup(pairs, "i2"), Lookup(pairs, "i3"),
                                 Lookup(pairs, "i4"), Lookup(pairs, "i5"));
    Some(ASecConfig(junk, padding, headers, signatures, Lookup(pairs, "header_protection_key"), timings, switches))
  }

  // ---------------------------------------------------------------- what can be written and read back

  predicate OneLine(s: Option<string>) {
    s.Some? ==> '\n' !in s.value
  }

  predicate HeadersInOrder(h: Headers) {
    Ordered(h.h1) && Ordered(h.h2) && Ordered(h.h3) && Ordered(h.h4)
  }

  predicate SignaturesOneLine(s: Signatures) {
    OneLine(s.i1) && OneLine(s.i2) && OneLine(s.i3) && OneLine(s.i4) && OneLine(s.i5)
  }

  predicate TimingsInOrder(t: Timings) {
    && Ordered(t.contentPaddingAddition) && Ordered(t.rekeyAfterTime) && Ordered(t.rekeyTimeout)
    && Ordered(t.rejectAfterTime) && Ordered(t.keepaliveTimeout) && Ordered(t.maxHandshakeAttempts)
  }

  /** All intervals are in order and all texts fit on a line. */
  predicate Writable(c: ASecConfig) {
    && HeadersInOrder(c.headers) && SignaturesOneLine(c.signatures)
    && OneLine(c.headerProtectionKey) && TimingsInOrder(c.timings)
  }

  /** Every name leads to its field's text. */
  ghost predicate Shows(pairs: seq<Pair>, fields: seq<Field>) {
    forall k :: 0 <= k < |fields| ==> Lookup(pairs, fields[k].name) == fields[k].text
  }

  lemma ReadIntText(pairs: seq<Pair>, key: string, v: Option<int>)
    requires Lookup(pairs, key) == IntText(v)
    ensures ReadIntOf(pairs, key) == Some(v)
  {
    if v.Some? { PrintIntRoundTrip(v.value); }
  }

  lemma ReadRangeText(pairs: seq<Pair>, key: string, v: Option<UintRange>)
    requires Lookup(pairs, key) == RangeText(v) && Ordered(v)
    ensures ReadRangeOf(pairs, key) == Some(v)
  {
    if v.Some? { ShowParse(v.value); }
  }

  lemma ReadBoolText(pairs: seq<Pair>, key: string, v: Option<bool>)
    requires Lookup(pairs, key) == BoolText(v)
    ensures ReadBoolOf(pairs, key) == Some(v)
  {
  }

  lemma ReadJunkBack(pairs: seq<Pair>, j: Junk)
    requires Shows(pairs, JunkFields(j))
    ensures ReadJunk(pairs) == Some(j)
  {
    var f := JunkFields(j);
    assert f[0].name == "jc" && f[1].name == "jmin" && f[2].name == "jmax";
    ReadIntText(pairs, "jc", j.count);
    ReadIntText(pairs, "jmin", j.minSize);
    ReadIntText(pairs, "jmax", j.maxSize);
  }

  lemma ReadPaddingBack(pairs: seq<Pair>, p: Padding)
    requires Shows(pairs, PaddingFields(p))
    ensures ReadPadding(pairs) == Some(p)
  {
    var f := PaddingFields(p);
    assert f[0].name == "s1" && f[1].name == "s2" && f[2].name == "s3" && f[3].name == "s4";
    ReadIntText(pairs, "s1", p.s1);
    ReadIntText(pairs, "s2", p.s2);
    ReadIntText(pairs, "s3", p.s3);
    ReadIntText(pairs, "s4", p.s4);
  }

  lemma ReadHeadersBack(pairs: seq<Pair>, h: Headers)
    requires Shows(pairs, HeaderFields(h)) && HeadersInOrder(h)
    ensures ReadHeaders(pairs) == Some(h)
  {
    var f := HeaderFields(h);
    assert f[0].name == "h1" && f[1].name == "h2" && f[2].name == "h3" && f[3].name == "h4";
    ReadRangeText(pairs, "h1", h.h1);
    ReadRangeText(pairs, "h2", h.h2);
    ReadRangeText(pairs, "h3", h.h3);
    ReadRangeText(pairs, "h4", h.h4);
  }

  lemma ReadTimingsBack(pairs: seq<Pair>, t: Timings)
    requires Shows(pairs, TimingFields(t)) && TimingsInOrder(t)
    ensures ReadTimings(pairs) == Some(t)
  {
    var f := TimingFields(t);
    assert f[0].name == "content_padding_addition" && f[1].name == "rekey_after_time" && f[2].name == "rekey_timeout";
    assert f[3].name == "reject_after_time" && f[4].name == "keepalive_timeout" && f[5].name == "max_handshake_attempts";
    ReadRangeText(pairs, "content_padding_addition", t.contentPaddingAddition);
    ReadRangeText(pairs, "rekey_after_time", t.rekeyAfterTime);
    ReadRangeText(pairs, "rekey_timeout", t.rekeyTimeout);
    ReadRangeText(pairs, "reject_after_time", t.rejectAfterTime);
    ReadRangeText(pairs, "keepalive_timeout", t.keepaliveTimeout);
    ReadRangeText(pairs, "max_handshake_attempts", t.maxHandshakeAttempts);
  }

  lemma ReadSwitchesBack(pairs: seq<Pair>, s: Switches)
    requires Shows(pairs, SwitchFields(s))
    ensures ReadSwitches(pairs) == Some(s)
  {
    var f := SwitchFields(s);
    assert f[0].name == "random_trailers" && f[1].name == "disable_cookies";
    ReadBoolText(pairs, "random_trailers", s.randomTrailers);
    ReadBoolText(pairs, "disable_cookies", s.disableCookies);
  }

  lemma ReadSignaturesBack(pairs: seq<Pair>, s: Signatures)
    requires Shows(pairs, SignatureFields(s))
    ensures s == Signatures(Lookup(pairs, "i1"), Lookup(pairs, "i2"), Lookup(pairs, "i3"),
                            Lookup(pairs, "i4"), Lookup(pairs, "i5"))
  {
    var f := SignatureFields(s);
    assert f[0].name == "i1" && f[1].name == "i2" && f[2].name == "i3" && f[3].name == "i4" && f[4].name == "i5";
  }

  lemma ShowsSlice(pairs: seq<Pair>, fields: seq<Field>, lo: nat, hi: nat)
    requires Shows(pairs, fields) && lo <= hi <= |fields|
    ensures Shows(pairs, fields[lo..hi])
  {
  }

  /** Lines that show the fields of a writable configuration read back as that configuration. */
  lemma ReadSettingsBack(pairs: seq<Pair>, c: ASecConfig)
    requires Shows(pairs, Fields(c)) && Writable(c)
    ensures ReadSettings(pairs) == Some(c)
  {
    var f := Fields(c);
    ShowsSlice(pairs, f, 0, 3);
    ShowsSlice(pairs, f, 3, 7);
    ShowsSlice(pairs, f, 7, 11);
    ShowsSlice(pairs, f, 11, 16);
    ShowsSlice(pairs, f, 17, 23);
    ShowsSlice(pairs, f, 23, 25);
    assert f[0..3] == JunkFields(c.junk) && f[3..7] == PaddingFields(c.padding) && f[7..11] == HeaderFields(c.headers);
    assert f[11..16] == SignatureFields(c.signatures) && f[16] == Field("header_protection_key", c.headerProtectionKey);
    assert f[17..23] == TimingFields(c.timings) && f[23..25] == SwitchFields(c.switches);
    ReadJunkBack(pairs, c.junk);
    ReadPaddingBack(pairs, c.padding);
    ReadHeadersBack(pairs, c.headers);
    ReadSignaturesBack(pairs, c.signatures);
    ReadTimingsBack(pairs, c.timings);
    ReadSwitchesBack(pairs, c.switches);
  }

  // ---------------------------------------------------------------- what reading can give

  lemma {:induction false} LookupIsClean(pairs: seq<Pair>, key: string)
    requires AllClean(pairs)
    ensures OneLine(Lookup(pairs, key))
  {
    if pairs != [] {
      LookupIsClean(pairs[1..], key);
    }
  }

  lemma ReadHeadersInOrder(pairs: seq<Pair>)
    requires ReadHeaders(pairs).Some?
    ensures HeadersInOrder(ReadHeaders(pairs).value)
  {
  }

  /** Whatever was read from lines can be written again. */
  lemma ReadSettingsWritable(pairs: seq<Pair>)
    requires AllClean(pairs) && ReadSettings(pairs).Some?
    ensures Writable(ReadSettings(pairs).value)
  {
    LookupIsClean(pairs, "i1");
    LookupIsClean(pairs, "i2");
    LookupIsClean(pairs, "i3");
    LookupIsClean(pairs, "i4");
    LookupIsClean(pairs, "i5");
    LookupIsClean(pairs, "header_protection_key");
    ReadHeadersInOrder(pairs);
  }

  // ---------------------------------------------------------------- the written lines are lines

  predicate CleanField(f: Field) {
    CleanKey(f.name) && OneLine(f.text)
  }

  lemma TextsAreOneLine(i: Option<int>, r: Option<UintRange>, b: Option<bool>)
    ensures OneLine(IntText(i)) && OneLine(RangeText(r)) && OneLine(BoolText(b))
  {
    if i.Some? { PrintIntRoundTrip(i.value); }
    if r.Some? { ShowHasNoNewline(r.value); }
  }

  lemma FieldTextsOneLine(c: ASecConfig, k: nat)
    requires Writable(c) && k < 25
    ensures OneLine(Fields(c)[k].text)
  {
    var f := Fields(c);
    if k < 3 {
      assert f[k] == JunkFields(c.junk)[k];
      TextsAreOneLine(if k == 0 then c.junk.count else if k == 1 then c.junk.minSize else c.junk.maxSize, None, None);
    } else if k < 7 {
      assert f[k] == PaddingFields(c.padding)[k - 3];
      TextsAreOneLine(PaddingOf(c, k - 3), None, None);
    } else if k < 11 {
      assert f[k] == HeaderFields(c.headers)[k - 7];
      var h := c.headers;
      TextsAreOneLine(None, if k == 7 then h.h1 else if k == 8 then h.h2 else if k == 9 then h.h3 else h.h4, None);
    } else if k < 16 {
      assert f[k] == SignatureFields(c.signatures)[k - 11];
    } else if k == 16 {
      assert f[k].text == c.headerProtectionKey;
    } else if k < 23 {
      assert f[k] == TimingFields(c.timings)[k - 17];
      var t := c.timings;
      TextsAreOneLine(None, if k == 17 then t.contentPaddingAddition else if k == 18 then t.rekeyAfterTime
                            else if k == 19 then t.rekeyTimeout else if k == 20 then t.rejectAfterTime
                            else if k == 21 then t.keepaliveTimeout else t.maxHandshakeAttempts, None);
    } else {
      assert f[k] == SwitchFields(c.switches)[k - 23];
      TextsAreOneLine(None, None, if k == 23 then c.switches.randomTrailers else c.switches.disableCookies);
    }
  }

  lemma {:induction false} PresentClean(fields: seq<Field>)
    requires forall k :: 0 <= k < |fields| ==> CleanField(fields[k])
    ensures AllClean(Present(fields))
  {
    if fields != [] {
      PresentClean(fields[1..]);
    }
  }

  lemma FieldsClean(c: ASecConfig)
    requires Writable(c)
    ensures forall k :: 0 <= k < 25 ==> CleanField(Fields(c)[k])
  {
    FieldNames(c);
    NamesClean();
    forall k | 0 <= k < 25 ensures CleanField(Fields(c)[k]) {
      FieldTextsOneLine(c, k);
    }
  }
}
