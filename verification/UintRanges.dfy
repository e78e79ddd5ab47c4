/** AmneziaWG interval parameters, written "a" or "a-b" (uintRange and parseUintRange in awg_config.go). */
module UintRanges {
  import opened Wrappers
  import opened Decimal
  import opened Text

  datatype UintRange = UintRange(min: Uint32, max: Uint32)

  datatype RangeError = EmptyRange | BadFormat | BadNumber | Inverted

  /** uintRange.String. */
  function Show(r: UintRange): (s: string)
    ensures s != ""
  {
    if r.min == r.max then Print(r.min) else Print(r.min) + "-" + Print(r.max)
  }

  /** parseUintRange. */
  function Parse(value: string): Result<UintRange, RangeError> {
    var trimmed := TrimSpace(value);
    if trimmed == "" then Err(EmptyRange) else
    var parts := Split(trimmed, '-');
    if |parts| > 2 || parts[0] == "" then Err(BadFormat) else
    var lo := ParseUint32(parts[0]);
    if lo.None? then Err(BadNumber)
    else if |parts| == 1 then Ok(UintRange(lo.value, lo.value))
    else if parts[1] == "" then Err(BadFormat) else
    var hi := ParseUint32(parts[1]);
    if hi.None? then Err(BadNumber)
    else if lo.value > hi.value then Err(Inverted)
    else Ok(UintRange(lo.value, hi.value))
  }

  // ---------------------------------------------------------------- acceptance

  /** A nonempty digit string below 2^32, leading zeros allowed. */
  predicate Number(s: string) {
    s != "" && AllDigits(s) && Value(s) < UINT32_LIMIT
  }

  lemma DigitsHaveNoDash(s: string)
    requires AllDigits(s)
    ensures '-' !in s && (s != "" ==> Trimmed(s))
  {
  }

  lemma ParseSpacedNumber(pre: string, a: string, post: string)
    requires AllSpace(pre) && AllSpace(post) && Number(a)
    ensures Parse(pre + a + post) == Ok(UintRange(Value(a), Value(a)))
  {
    DigitsHaveNoDash(a);
    TrimSpaceAround(pre, a, post);
    SplitFree(a, '-');
  }

  lemma ParseSpacedPair(pre: string, a: string, b: string, post: string)
    requires AllSpace(pre) && AllSpace(post) && Number(a) && Number(b)
    ensures Parse(pre + (a + "-" + b) + post)
         == if Value(a) <= Value(b) then Ok(UintRange(Value(a), Value(b))) else Err(Inverted)
  {
    DigitsHaveNoDash(a);
    DigitsHaveNoDash(b);
    TrimSpaceAround(pre, a + "-" + b, post);
    SplitAppend(a, '-', b);
    SplitFree(a, '-');
    SplitFree(b, '-');
  }

  /** `v` is the number `a`, or the pair `a`-`b` in order, with spaces around it. */
  predicate Spells(v: string, r: UintRange, pre: string, a: string, b: string, post: string) {
    && AllSpace(pre) && AllSpace(post) && Number(a) && Number(b)
    && Value(a) == r.min && Value(b) == r.max && r.min <= r.max
    && ((v == pre + a + post && a == b) || v == pre + (a + "-" + b) + post)
  }

  ghost predicate Denotes(v: string, r: UintRange) {
    exists pre, a, b, post :: Spells(v, r, pre, a, b, post)
  }

  /** parseUintRange accepts exactly the texts of an interval with min <= max < 2^32, and returns that interval. */
  lemma ParseExactly(v: string, r: UintRange)
    ensures Parse(v) == Ok(r) <==> Denotes(v, r)
  {
    if Parse(v) == Ok(r) {
      var pre, post := TrimSpaceShape(v);
      var t := TrimSpace(v);
      var parts := Split(t, '-');
      JoinSplit(t, '-');
      if |parts| == 1 {
        assert Spells(v, r, pre, parts[0], parts[0], post);
      } else {
        assert t == parts[0] + "-" + parts[1];
        assert Spells(v, r, pre, parts[0], parts[1], post);
      }
    } else if Denotes(v, r) {
      var pre, a, b, post :| Spells(v, r, pre, a, b, post);
      ParseSpacedPair(pre, a, b, post);
      if v == pre + a + post { ParseSpacedNumber(pre, a, post); }
    }
  }

  // ---------------------------------------------------------------- round trips

  /** Parsing the printed range gives the range back, exactly when its bounds are in order. */
  lemma ShowParse(r: UintRange)
    ensures Parse(Show(r)) == if r.min <= r.max then Ok(r) else Err(Inverted)
  {
    PrintValue(r.min);
    PrintValue(r.max);
    var a, b := Print(r.min), Print(r.max);
    if r.min == r.max {
      assert "" + a + "" == a;
      ParseSpacedNumber("", a, "");
    } else {
      assert "" + (a + "-" + b) + "" == a + "-" + b;
      ParseSpacedPair("", a, b, "");
    }
  }

  /** Whatever is accepted is in order, and printing it reads back as the same range. */
  lemma ParseShowStable(v: string)
    requires Parse(v).Ok?
    ensures Parse(v).value.min <= Parse(v).value.max
    ensures Parse(Show(Parse(v).value)) == Parse(v)
  {
    ShowParse(Parse(v).value);
  }

  /** Leading zeros, spaces around, and the form a-a all denote the canonical range. */
  lemma ParseNormalises(pre: string, za: string, zb: string, post: string, r: UintRange)
    requires AllSpace(pre) && AllSpace(post) && r.min <= r.max
    requires (forall i :: 0 <= i < |za| ==> za[i] == '0') && (forall i :: 0 <= i < |zb| ==> zb[i] == '0')
    ensures Parse(pre + (za + Print(r.min) + "-" + (zb + Print(r.max))) + post) == Ok(r)
    ensures r.min == r.max ==> Parse(pre + (za + Print(r.min)) + post) == Ok(r)
  {
    PrintValue(r.min);
    PrintValue(r.max);
    ValueZeros(za, Print(r.min));
    ValueZeros(zb, Print(r.max));
    ParseSpacedPair(pre, za + Print(r.min), zb + Print(r.max), post);
    ParseSpacedNumber(pre, za + Print(r.min), post);
  }

  lemma ShowHasNoNewline(r: UintRange)
    ensures '\n' !in Show(r)
  {
  }
}
