/** From the configuration file to the device: what an accepted file says is what its request says. */
module Pipeline {
  import opened Wrappers
  import opened Machine
  import opened AwgConfig
  import opened AwgParse
  import opened IpcLines
  import opened AwgIpc
  import opened ConfigFile

  // ---------------------------------------------------------------- one line per key

  /** The 25 keys of a section, in the order of the request lines NAMES. */
  const KEYS := ["Jc", "Jmin", "Jmax", "S1", "S2", "S3", "S4", "H1", "H2", "H3", "H4", "I1", "I2", "I3", "I4", "I5",
                 "HeaderProtectionKey", "ContentPaddingAddition", "RekeyAfterTime", "RekeyTimeout",
                 "RejectAfterTime", "KeepaliveTimeout", "MaxHandshakeAttempts", "RandomTrailers", "DisableCookies"]

  /** The canonical text of the k-th setting, or None when its value cannot be read. */
  function Canonical(w: Width, ini: Ini, k: nat, value: string): Option<string>
    requires k < 25
  {
    if k < 7 then IntText(IntReader(w, ini)(value))
    else if k < 11 || 17 <= k < 23 then RangeText(ReadRange(value))
    else if k < 16 then Some(value)
    else if k == 16 then ReadKey(value)
    else BoolText(ini.boolOf(value))
  }

  /** The line of the k-th key: there is one exactly when the key is present. */
  predicate LineOk(w: Width, ini: Ini, sec: Section, k: nat, f: Field)
    requires k < 25
  {
    && f.name == NAMES[k]
    && f.text == (if KEYS[k] in sec then Canonical(w, ini, k, sec[KEYS[k]]) else None)
    && (KEYS[k] in sec ==> f.text.Some?)
  }

  lemma JunkLines(w: Width, ini: Ini, sec: Section, j: Junk, k: nat)
    requires JunkOf(sec, IntReader(w, ini)) == Ok(j) && k < 3
    ensures LineOk(w, ini, sec, k, JunkFields(j)[k])
  {
  }

  lemma PaddingLines(w: Width, ini: Ini, sec: Section, p: Padding, k: nat)
    requires PaddingOfSection(sec, IntReader(w, ini)) == Ok(p) && k < 4
    ensures LineOk(w, ini, sec, 3 + k, PaddingFields(p)[k])
  {
  }

  lemma HeaderLines(w: Width, ini: Ini, sec: Section, h: Headers, k: nat)
    requires HeadersOf(sec) == Ok(h) && k < 4
    ensures LineOk(w, ini, sec, 7 + k, HeaderFields(h)[k])
  {
  }

  lemma SignatureLines(w: Width, ini: Ini, sec: Section, s: Signatures, k: nat)
    requires SignaturesOf(sec) == Ok(s) && k < 5
    ensures LineOk(w, ini, sec, 11 + k, SignatureFields(s)[k])
  {
  }

  lemma TimingLines(w: Width, ini: Ini, sec: Section, t: Timings, k: nat)
    requires TimingsOf(sec) == Ok(t) && k < 6
    ensures LineOk(w, ini, sec, 17 + k, TimingFields(t)[k])
  {
  }

  lemma SwitchLines(w: Width, ini: Ini, sec: Section, s: Switches, k: nat)
    requires SwitchesOf(sec, ini) == Ok(s) && k < 2
    ensures LineOk(w, ini, sec, 23 + k, SwitchFields(s)[k])
  {
  }

  /** Every key of a readable section has its line, under its name, with the canonical text of its value. */
  lemma LinePerKey(w: Width, ini: Ini, sec: Section, c: ASecConfig, k: nat)
    requires SettingsOf(w, ini, sec) == Ok(c) && k < 25
    ensures LineOk(w, ini, sec, k, Fields(c)[k])
  {
    var f := Fields(c);
    if k < 3 {
      JunkLines(w, ini, sec, c.junk, k);
      assert f[k] == JunkFields(c.junk)[k];
    } else if k < 7 {
      PaddingLines(w, ini, sec, c.padding, k - 3);
      assert f[k] == PaddingFields(c.padding)[k - 3];
    } else if k < 11 {
      HeaderLines(w, ini, sec, c.headers, k - 7);
      assert f[k] == HeaderFields(c.headers)[k - 7];
    } else if k < 16 {
      SignatureLines(w, ini, sec, c.signatures, k - 11);
      assert f[k] == SignatureFields(c.signatures)[k - 11];
    } else if k == 16 {
      assert f[k] == Field("header_protection_key", c.headerProtectionKey);
    } else if k < 23 {
      TimingLines(w, ini, sec, c.timings, k - 17);
      assert f[k] == TimingFields(c.timings)[k - 17];
    } else {
      SwitchLines(w, ini, sec, c.switches, k - 23);
      assert f[k] == SwitchFields(c.switches)[k - 23];
    }
  }

  /** The lines of the keys from the k-th on that are present in the section. */
  function LinesFrom(w: Width, ini: Ini, sec: Section, k: nat): seq<Pair>
    requires k <= 25
    decreases 25 - k
  {
    if k == 25 then [] else
    (if KEYS[k] in sec && Canonical(w, ini, k, sec[KEYS[k]]).Some?
     then [Pair(NAMES[k], Canonical(w, ini, k, sec[KEYS[k]]).value)] else [])
    + LinesFrom(w, ini, sec, k + 1)
  }

  lemma {:induction false} PresentFrom(w: Width, ini: Ini, sec: Section, c: ASecConfig, k: nat)
    requires SettingsOf(w, ini, sec) == Ok(c) && k <= 25
    ensures Present(Fields(c)[k..]) == LinesFrom(w, ini, sec, k)
    decreases 25 - k
  {
    if k < 25 {
      PresentFrom(w, ini, sec, c, k + 1);
      LinePerKey(w, ini, sec, c, k);
      PresentFirst(Fields(c)[k..]);
      assert Fields(c)[k..][1..] == Fields(c)[k + 1..];
    }
  }

  predicate AllNone(fields: seq<Field>) {
    forall k :: 0 <= k < |fields| ==> fields[k].text.None?
  }

  lemma NumbersUnset(j: Junk, p: Padding)
    requires AllNone(JunkFields(j)) && AllNone(PaddingFields(p))
    ensures j == NOTHING_SET.junk && p == NOTHING_SET.padding
  {
    var f, g := JunkFields(j), PaddingFields(p);
    assert f[0].text.None? && f[1].text.None? && f[2].text.None?;
    assert g[0].text.None? && g[1].text.None? && g[2].text.None? && g[3].text.None?;
  }

  lemma HeadersUnset(h: Headers, s: Signatures)
    requires AllNone(HeaderFields(h)) && AllNone(SignatureFields(s))
    ensures h == NOTHING_SET.headers && s == NOTHING_SET.signatures
  {
    var f, g := HeaderFields(h), SignatureFields(s);
    assert f[0].text.None? && f[1].text.None? && f[2].text.None? && f[3].text.None?;
    assert g[0].text.None? && g[1].text.None? && g[2].text.None? && g[3].text.None? && g[4].text.None?;
  }

  lemma TimingsUnset(t: Timings, s: Switches)
    requires AllNone(TimingFields(t)) && AllNone(SwitchFields(s))
    ensures t == NOTHING_SET.timings && s == NOTHING_SET.switches
  {
    var f, g := TimingFields(t), SwitchFields(s);
    assert f[0].text.None? && f[1].text.None? && f[2].text.None? && f[3].text.None? && f[4].text.None? && f[5].text.None?;
    assert g[0].text.None? && g[1].text.None?;
  }

  lemma AllNoneSlice(fields: seq<Field>, lo: nat, hi: nat)
    requires AllNone(fields) && lo <= hi <= |fields|
    ensures AllNone(fields[lo..hi])
  {
  }

  lemma NothingSetExactly(c: ASecConfig)
    ensures c == NOTHING_SET <==> AllNone(Fields(c))
  {
    if AllNone(Fields(c)) {
      var f := Fields(c);
      AllNoneSlice(f, 0, 3);
      AllNoneSlice(f, 3, 7);
      AllNoneSlice(f, 7, 11);
      AllNoneSlice(f, 11, 16);
      AllNoneSlice(f, 17, 23);
      AllNoneSlice(f, 23, 25);
      assert f[0..3] == JunkFields(c.junk) && f[3..7] == PaddingFields(c.padding) && f[7..11] == HeaderFields(c.headers);
      assert f[11..16] == SignatureFields(c.signatures) && f[17..23] == TimingFields(c.timings);
      assert f[23..25] == SwitchFields(c.switches) && f[16].text == c.headerProtectionKey;
      NumbersUnset(c.junk, c.padding);
      HeadersUnset(c.headers, c.signatures);
      TimingsUnset(c.timings, c.switches);
    }
  }

  ghost predicate AllLinesOk(w: Width, ini: Ini, sec: Section, c: ASecConfig) {
    forall k :: 0 <= k < 25 ==> LineOk(w, ini, sec, k, Fields(c)[k])
  }

  lemma NothingSetMeansNoKey(w: Width, ini: Ini, sec: Section, c: ASecConfig)
    requires AllLinesOk(w, ini, sec, c)
    ensures Optional(c) == None <==> forall k :: 0 <= k < 25 ==> KEYS[k] !in sec
  {
    NothingSetExactly(c);
    var f := Fields(c);
    if c == NOTHING_SET {
      forall k | 0 <= k < 25 ensures KEYS[k] !in sec { assert LineOk(w, ini, sec, k, f[k]); }
    } else {
      var k :| 0 <= k < 25 && f[k].text.Some?;
      assert LineOk(w, ini, sec, k, f[k]);
    }
  }

  /**
  The request of a readable section has exactly one line per present key, with the canonical text of
  its value, none for an absent key, in the fixed order; and there is no configuration at all
  exactly when none of the 25 keys is present.
  */
  lemma LinesOfSection(w: Width, ini: Ini, sec: Section, c: ASecConfig)
    requires SettingsOf(w, ini, sec) == Ok(c)
    ensures Present(Fields(c)) == LinesFrom(w, ini, sec, 0)
    ensures AllLinesOk(w, ini, sec, c)
    ensures Optional(c) == None <==> forall k :: 0 <= k < 25 ==> KEYS[k] !in sec
  {
    PresentFrom(w, ini, sec, c, 0);
    assert Fields(c)[0..] == Fields(c);
    forall k | 0 <= k < 25 ensures LineOk(w, ini, sec, k, Fields(c)[k]) {
      LinePerKey(w, ini, sec, c, k);
    }
    NothingSetMeansNoKey(w, ini, sec, c);
  }

  // ---------------------------------------------------------------- header protection

  lemma ReadPaddingsAreInts(w: Width, ini: Ini, sec: Section, p: Padding)
    requires PaddingOfSection(sec, IntReader(w, ini)) == Ok(p)
    ensures IntPaddings(w, NOTHING_SET.(padding := p))
  {
  }

  lemma ParsedPaddingsAreInts(w: Width, ini: Ini, sec: Section, c: ASecConfig)
    requires SettingsOf(w, ini, sec) == Ok(c)
    ensures IntPaddings(w, c)
  {
    ReadPaddingsAreInts(w, ini, sec, c.padding);
    assert forall k :: 0 <= k < KINDS ==> PaddingOf(c, k) == PaddingOf(NOTHING_SET.(padding := c.padding), k);
  }

  lemma AcceptedSettings(w: Width, ini: Ini, sec: Section, c: ASecConfig)
    requires ASecAt(w, ini, sec) == Ok(Some(c))
    ensures SettingsOf(w, ini, sec) == Ok(c) && Acceptable(w, c)
  {
  }

  const PADDING_KEYS := ["S1", "S2", "S3", "S4"]

  lemma PaddingKeyPresent(w: Width, ini: Ini, sec: Section, c: ASecConfig, k: nat)
    requires AllLinesOk(w, ini, sec, c) && k < KINDS && PaddingOf(c, k).Some?
    ensures PADDING_KEYS[k] in sec
  {
    assert LineOk(w, ini, sec, 3 + k, Fields(c)[3 + k]);
    assert Fields(c)[3 + k] == PaddingFields(c.padding)[k];
  }

  lemma ProtectionKeyPresent(w: Width, ini: Ini, sec: Section, c: ASecConfig)
    requires AllLinesOk(w, ini, sec, c) && "HeaderProtectionKey" in sec
    ensures c.headerProtectionKey.Some?
  {
    assert LineOk(w, ini, sec, 16, Fields(c)[16]);
    assert Fields(c)[16].text == c.headerProtectionKey;
  }

  /** An accepted file with a header protection key sets S1-S4, each at least 12, to four distinct packet sizes. */
  lemma ProtectedFile(w: Width, ini: Ini, sec: Section, c: ASecConfig, i: nat, j: nat)
    requires ASecAt(w, ini, sec) == Ok(Some(c)) && "HeaderProtectionKey" in sec && i < j < KINDS
    ensures PADDING_KEYS[i] in sec && PADDING_KEYS[j] in sec
    ensures PaddingOf(c, i).Some? && PaddingOf(c, i).value >= 12
    ensures PaddingOf(c, j).Some? && PaddingOf(c, j).value >= 12
    ensures TrueSize(c, i) != TrueSize(c, j)
  {
    AcceptedSettings(w, ini, sec, c);
    ParsedPaddingsAreInts(w, ini, sec, c);
    LinesOfSection(w, ini, sec, c);
    ProtectionKeyPresent(w, ini, sec, c);
    ProtectedPackets(w, c, i, j);
    PaddingKeyPresent(w, ini, sec, c, i);
    PaddingKeyPresent(w, ini, sec, c, j);
  }
}
