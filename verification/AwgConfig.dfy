/**
The AmneziaWG parameters of an [Interface] section and their validator (awg_config.go). A setting
that the source marks with a flag or leaves nil is an optional value here; the settings are
grouped as the documentation groups them.
*/
module AwgConfig {
  import opened Wrappers
  import opened Decimal
  import opened UintRanges
  import opened Machine

  datatype Junk = Junk(count: Option<int>, minSize: Option<int>, maxSize: Option<int>)
  datatype Padding = Padding(s1: Option<int>, s2: Option<int>, s3: Option<int>, s4: Option<int>)
  datatype Headers = Headers(h1: Option<UintRange>, h2: Option<UintRange>, h3: Option<UintRange>, h4: Option<UintRange>)
  datatype Signatures = Signatures(i1: Option<string>, i2: Option<string>, i3: Option<string>,
                                   i4: Option<string>, i5: Option<string>)
  datatype Timings = Timings(contentPaddingAddition: Option<UintRange>, rekeyAfterTime: Option<UintRange>,
                             rekeyTimeout: Option<UintRange>, rejectAfterTime: Option<UintRange>,
                             keepaliveTimeout: Option<UintRange>, maxHandshakeAttempts: Option<UintRange>)
  datatype Switches = Switches(randomTrailers: Option<bool>, disableCookies: Option<bool>)

  datatype ASecConfig = ASecConfig(junk: Junk, padding: Padding, headers: Headers, signatures: Signatures,
                                   headerProtectionKey: Option<string>, timings: Timings, switches: Switches)

  const NOTHING_SET := ASecConfig(
    Junk(None, None, None), Padding(None, None, None, None), Headers(None, None, None, None),
    Signatures(None, None, None, None, None), None, Timings(None, None, None, None, None, None), Switches(None, None))

  const NONCE_SIZE := 12

  // ---------------------------------------------------------------- what acceptance means

  predicate JunkCountOk(c: ASecConfig) {
    c.junk.count.Some? ==> 1 <= c.junk.count.value <= 128
  }

  predicate JunkOrderOk(c: ASecConfig) {
    c.junk.minSize.Some? && c.junk.maxSize.Some? ==> c.junk.minSize.value <= c.junk.maxSize.value
  }

  predicate JunkMaxOk(c: ASecConfig) {
    c.junk.maxSize.Some? ==> c.junk.maxSize.value <= 1280
  }

  /** Packet kinds: initiation, response, cookie reply, transport. */
  const KINDS := 4

  /** The bare size of a message of kind `k`. */
  function BareSize(k: nat): nat
    requires k < KINDS
  {
    if k == 0 then 148 else if k == 1 then 92 else if k == 2 then 64 else 32
  }

  /** The configured padding of kind `k`, if any. */
  function PaddingOf(c: ASecConfig, k: nat): Option<int>
    requires k < KINDS
  {
    if k == 0 then c.padding.s1 else if k == 1 then c.padding.s2 else if k == 2 then c.padding.s3 else c.padding.s4
  }

  /** The padded size the validator computes: a machine sum, which may wrap around. */
  function MachineSize(w: Width, c: ASecConfig, k: nat): int
    requires k < KINDS && PaddingOf(c, k).Some?
  {
    Wrap(w, BareSize(k) + PaddingOf(c, k).value)
  }

  predicate SizesDistinct(w: Width, c: ASecConfig) {
    forall i, j :: 0 <= i < j < KINDS && PaddingOf(c, i).Some? && PaddingOf(c, j).Some? ==>
      MachineSize(w, c, i) != MachineSize(w, c, j)
  }

  /** The header interval of kind `k`: the configured one, or the default message type k + 1. */
  function HeaderOf(c: ASecConfig, k: nat): UintRange
    requires k < KINDS
  {
    var h := if k == 0 then c.headers.h1 else if k == 1 then c.headers.h2 else if k == 2 then c.headers.h3 else c.headers.h4;
    if h.Some? then h.value else UintRange(k + 1, k + 1)
  }

  predicate HeadersOrdered(c: ASecConfig) {
    forall k :: 0 <= k < KINDS ==> HeaderOf(c, k).min <= HeaderOf(c, k).max
  }

  predicate Contains(r: UintRange, v: Uint32) {
    r.min <= v <= r.max
  }

  /** No message type belongs to two kinds of packets. */
  ghost predicate HeadersDisjoint(c: ASecConfig) {
    forall v: Uint32, i, j :: 0 <= i < j < KINDS ==> !(Contains(HeaderOf(c, i), v) && Contains(HeaderOf(c, j), v))
  }

  predicate NonceFits(c: ASecConfig) {
    c.headerProtectionKey.Some? ==>
      forall k :: 0 <= k < KINDS ==> PaddingOf(c, k).Some? && PaddingOf(c, k).value >= NONCE_SIZE
  }

  datatype ConfigError = JunkCount | JunkOrder | JunkMax | PacketSizes | HeaderOrder | HeaderOverlap | NoncePadding

  ghost predicate Acceptable(w: Width, c: ASecConfig) {
    && JunkCountOk(c) && JunkOrderOk(c) && JunkMaxOk(c)
    && SizesDistinct(w, c)
    && HeadersOrdered(c) && HeadersDisjoint(c)
    && NonceFits(c)
  }

  /** The first condition, in the order of the source, that a configuration breaks. */
  ghost function FirstProblem(w: Width, c: ASecConfig): (e: Option<ConfigError>)
    ensures e == None <==> Acceptable(w, c)
  {
    if !JunkCountOk(c) then Some(JunkCount)
    else if !JunkOrderOk(c) then Some(JunkOrder)
    else if !JunkMaxOk(c) then Some(JunkMax)
    else if !SizesDistinct(w, c) then Some(PacketSizes)
    else if !HeadersOrdered(c) then Some(HeaderOrder)
    else if !HeadersDisjoint(c) then Some(HeaderOverlap)
    else if !NonceFits(c) then Some(NoncePadding)
    else None
  }

  // ---------------------------------------------------------------- the loops

  /** Two intervals share a value exactly when each starts before the other ends. */
  predicate Overlap(a: UintRange, b: UintRange) {
    a.min <= b.max && b.min <= a.max
  }

  lemma OverlapSharesValue(a: UintRange, b: UintRange)
    requires a.min <= a.max && b.min <= b.max
    ensures Overlap(a, b) <==> exists v: Uint32 :: Contains(a, v) && Contains(b, v)
  {
    if Overlap(a, b) {
      var v: Uint32 := if a.min <= b.min then b.min else a.min;
      assert Contains(a, v) && Contains(b, v);
    }
  }

  /** hasOverlappingHeaderIntervals: for well-formed intervals, true exactly when some value lies in two of them. */
  method HasOverlap(intervals: seq<UintRange>) returns (overlap: bool)
    ensures overlap <==> exists i, j :: 0 <= i < j < |intervals| && Overlap(intervals[i], intervals[j])
    ensures (forall k :: 0 <= k < |intervals| ==> intervals[k].min <= intervals[k].max) ==>
      (overlap <==> exists v: Uint32, i, j :: 0 <= i < j < |intervals| && Contains(intervals[i], v) && Contains(intervals[j], v))
  {
    overlap := false;
    for i := 0 to |intervals|
      invariant !overlap
      invariant forall a, b :: 0 <= a < i && a < b < |intervals| ==> !Overlap(intervals[a], intervals[b])
    {
      for j := i + 1 to |intervals|
        invariant !overlap
        invariant forall b :: i < b < j ==> !Overlap(intervals[i], intervals[b])
      {
        if intervals[i].min <= intervals[j].max && intervals[j].min <= intervals[i].max {
          if forall k :: 0 <= k < |intervals| ==> intervals[k].min <= intervals[k].max {
            OverlapSharesValue(intervals[i], intervals[j]);
          }
          assert Overlap(intervals[i], intervals[j]);
          return true;
        }
      }
    }
  }

  /** collectEffectiveHeaderIntervals. */
  function EffectiveHeaders(c: ASecConfig): (r: seq<UintRange>)
    ensures |r| == KINDS && forall k :: 0 <= k < KINDS ==> r[k] == HeaderOf(c, k)
  {
    [HeaderOf(c, 0), HeaderOf(c, 1), HeaderOf(c, 2), HeaderOf(c, 3)]
  }

  /**
  What the pairwise comparison of the effective intervals means: for intervals in order it finds no
  overlap if and only if every 32-bit message type denotes at most one kind of packet, where an
  unset header stands for its default type.
  */
  lemma NoAmbiguousType(c: ASecConfig)
    requires HeadersOrdered(c)
    ensures (forall i, j :: 0 <= i < j < KINDS ==> !Overlap(HeaderOf(c, i), HeaderOf(c, j)))
       <==> HeadersDisjoint(c)
  {
    forall i, j | 0 <= i < j < KINDS
      ensures Overlap(HeaderOf(c, i), HeaderOf(c, j)) <==>
        exists v: Uint32 :: Contains(HeaderOf(c, i), v) && Contains(HeaderOf(c, j), v)
    {
      OverlapSharesValue(HeaderOf(c, i), HeaderOf(c, j));
    }
  }

  /** The double loop over the padded sizes; kinds without a configured padding are skipped. */
  method SizesCollide(w: Width, c: ASecConfig) returns (collide: bool)
    ensures collide <==> !SizesDistinct(w, c)
  {
    collide := false;
    for i := 0 to KINDS
      invariant forall a, b :: 0 <= a < i && a < b < KINDS && PaddingOf(c, a).Some? && PaddingOf(c, b).Some? ==>
        MachineSize(w, c, a) != MachineSize(w, c, b)
    {
      if PaddingOf(c, i).Some? {
        for j := i + 1 to KINDS
          invariant forall b :: i < b < j && PaddingOf(c, b).Some? ==> MachineSize(w, c, i) != MachineSize(w, c, b)
        {
          if PaddingOf(c, j).Some? && MachineSize(w, c, i) == MachineSize(w, c, j) {
            return true;
          }
        }
      }
    }
  }

  /** ValidateASecConfig: a missing configuration passes, any other gets its first problem. */
  method Validate(w: Width, config: Option<ASecConfig>) returns (problem: Option<ConfigError>)
    ensures problem == if config.None? then None else FirstProblem(w, config.value)
  {
    if config.None? { return None; }
    var c := config.value;
    if c.junk.count.Some? && (c.junk.count.value < 1 || c.junk.count.value > 128) { return Some(JunkCount); }
    if c.junk.minSize.Some? && c.junk.maxSize.Some? && c.junk.minSize.value > c.junk.maxSize.value { return Some(JunkOrder); }
    if c.junk.maxSize.Some? && c.junk.maxSize.value > 1280 { return Some(JunkMax); }
    var collide := SizesCollide(w, c);
    if collide { return Some(PacketSizes); }
    var intervals := EffectiveHeaders(c);
    for k := 0 to KINDS
      invariant forall b :: 0 <= b < k ==> HeaderOf(c, b).min <= HeaderOf(c, b).max
    {
      if intervals[k].min > intervals[k].max { return Some(HeaderOrder); }
    }
    var overlap := HasOverlap(intervals);
    NoAmbiguousType(c);
    if overlap {
      assert !HeadersDisjoint(c);
      return Some(HeaderOverlap);
    }
    assert HeadersDisjoint(c);
    if c.headerProtectionKey.Some? {
      for k := 0 to KINDS
        invariant forall b :: 0 <= b < k ==> PaddingOf(c, b).Some? && PaddingOf(c, b).value >= NONCE_SIZE
      {
        if PaddingOf(c, k).None? || PaddingOf(c, k).value < NONCE_SIZE { return Some(NoncePadding); }
      }
    }
    return None;
  }

  // ---------------------------------------------------------------- the conditions written out

  /** The machine size of a set padding. */
  function Padded(w: Width, size: int, p: Option<int>): Option<int> {
    if p.Some? then Some(Wrap(w, size + p.value)) else None
  }

  predicate Same(a: Option<int>, b: Option<int>) {
    a.Some? && a == b
  }

  /** Two of the set values are equal. */
  predicate SomeSame(a: Option<int>, b: Option<int>, c: Option<int>, d: Option<int>) {
    Same(a, b) || Same(a, c) || Same(a, d) || Same(b, c) || Same(b, d) || Same(c, d)
  }

  /** Some 32-bit value lies in both intervals. */
  ghost predicate Share(a: UintRange, b: UintRange) {
    exists v: Uint32 :: Contains(a, v) && Contains(b, v)
  }

  ghost predicate SomeShare(a: UintRange, b: UintRange, c: UintRange, d: UintRange) {
    Share(a, b) || Share(a, c) || Share(a, d) || Share(b, c) || Share(b, d) || Share(c, d)
  }

  function OrElse(h: Option<UintRange>, default: Uint32): UintRange {
    if h.Some? then h.value else UintRange(default, default)
  }

  predicate AtLeast12(p: Option<int>) {
    p.Some? && p.value >= 12
  }

  lemma FourDistinct(s: seq<Option<int>>)
    requires |s| == 4
    ensures (forall i, j :: 0 <= i < j < 4 && s[i].Some? && s[j].Some? ==> s[i] != s[j]) <==> !SomeSame(s[0], s[1], s[2], s[3])
  {
  }

  lemma SizesExactly(w: Width, c: ASecConfig)
    ensures var p := c.padding;
      SizesDistinct(w, c) <==> !SomeSame(Padded(w, 148, p.s1), Padded(w, 92, p.s2), Padded(w, 64, p.s3), Padded(w, 32, p.s4))
  {
    var p := c.padding;
    var s := [Padded(w, 148, p.s1), Padded(w, 92, p.s2), Padded(w, 64, p.s3), Padded(w, 32, p.s4)];
    FourDistinct(s);
    forall k | 0 <= k < 4
      ensures s[k].Some? <==> PaddingOf(c, k).Some?
      ensures s[k].Some? ==> s[k].value == MachineSize(w, c, k)
    {
    }
  }

  lemma ShareExactly(c: ASecConfig)
    ensures var h := c.headers; HeadersDisjoint(c) <==> !SomeShare(OrElse(h.h1, 1), OrElse(h.h2, 2), OrElse(h.h3, 3), OrElse(h.h4, 4))
  {
    var h := c.headers;
    var a, b, d, e := OrElse(h.h1, 1), OrElse(h.h2, 2), OrElse(h.h3, 3), OrElse(h.h4, 4);
    assert HeaderOf(c, 0) == a && HeaderOf(c, 1) == b && HeaderOf(c, 2) == d && HeaderOf(c, 3) == e;
    if HeadersDisjoint(c) {
      assert forall v: Uint32 :: !(Contains(a, v) && Contains(b, v));
      assert forall v: Uint32 :: !(Contains(a, v) && Contains(d, v));
      assert forall v: Uint32 :: !(Contains(a, v) && Contains(e, v));
      assert forall v: Uint32 :: !(Contains(b, v) && Contains(d, v));
      assert forall v: Uint32 :: !(Contains(b, v) && Contains(e, v));
      assert forall v: Uint32 :: !(Contains(d, v) && Contains(e, v));
    } else {
      var v: Uint32, i, j :| 0 <= i < j < KINDS && Contains(HeaderOf(c, i), v) && Contains(HeaderOf(c, j), v);
      assert Share(HeaderOf(c, i), HeaderOf(c, j));
    }
  }

  /** The first problem of a configuration, with all sizes, defaults and bounds written out. */
  lemma ProblemExactly(w: Width, c: ASecConfig)
    ensures var j, p, h := c.junk, c.padding, c.headers;
      var h1, h2, h3, h4 := OrElse(h.h1, 1), OrElse(h.h2, 2), OrElse(h.h3, 3), OrElse(h.h4, 4);
      FirstProblem(w, c) ==
        if j.count.Some? && !(1 <= j.count.value <= 128) then Some(JunkCount)
        else if j.minSize.Some? && j.maxSize.Some? && j.minSize.value > j.maxSize.value then Some(JunkOrder)
        else if j.maxSize.Some? && j.maxSize.value > 1280 then Some(JunkMax)
        else if SomeSame(Padded(w, 148, p.s1), Padded(w, 92, p.s2), Padded(w, 64, p.s3), Padded(w, 32, p.s4)) then Some(PacketSizes)
        else if h1.min > h1.max || h2.min > h2.max || h3.min > h3.max || h4.min > h4.max then Some(HeaderOrder)
        else if SomeShare(h1, h2, h3, h4) then Some(HeaderOverlap)
        else if c.headerProtectionKey.Some? && !(AtLeast12(p.s1) && AtLeast12(p.s2) && AtLeast12(p.s3) && AtLeast12(p.s4)) then Some(NoncePadding)
        else None
  {
    SizesExactly(w, c);
    ShareExactly(c);
    assert HeadersOrdered(c) <==> (HeaderOf(c, 0).min <= HeaderOf(c, 0).max && HeaderOf(c, 1).min <= HeaderOf(c, 1).max
                                   && HeaderOf(c, 2).min <= HeaderOf(c, 2).max && HeaderOf(c, 3).min <= HeaderOf(c, 3).max);
    assert (forall k :: 0 <= k < KINDS ==> PaddingOf(c, k).Some? && PaddingOf(c, k).value >= NONCE_SIZE) <==>
      AtLeast12(PaddingOf(c, 0)) && AtLeast12(PaddingOf(c, 1)) && AtLeast12(PaddingOf(c, 2)) && AtLeast12(PaddingOf(c, 3));
  }

  // ---------------------------------------------------------------- what acceptance gives

  predicate IntPaddings(w: Width, c: ASecConfig) {
    forall k :: 0 <= k < KINDS && PaddingOf(c, k).Some? ==> IsInt(w, PaddingOf(c, k).value)
  }

  /** The true padded size, without wrap-around. */
  function TrueSize(c: ASecConfig, k: nat): int
    requires k < KINDS && PaddingOf(c, k).Some?
  {
    BareSize(k) + PaddingOf(c, k).value
  }

  /**
  The size check against the true sizes, wrap-around included: it passes exactly when no two
  configured sizes are equal or 2^w apart. So acceptance always means truly distinct sizes.
  */
  lemma SizeCheckExactly(w: Width, c: ASecConfig)
    requires IntPaddings(w, c)
    ensures SizesDistinct(w, c) <==>
      forall i, j :: 0 <= i < j < KINDS && PaddingOf(c, i).Some? && PaddingOf(c, j).Some? ==>
        && TrueSize(c, i) != TrueSize(c, j)
        && TrueSize(c, i) - TrueSize(c, j) != Modulus(w) && TrueSize(c, j) - TrueSize(c, i) != Modulus(w)
  {
    forall i, j | 0 <= i < j < KINDS && PaddingOf(c, i).Some? && PaddingOf(c, j).Some?
      ensures MachineSize(w, c, i) != MachineSize(w, c, j) <==>
        && TrueSize(c, i) != TrueSize(c, j)
        && TrueSize(c, i) - TrueSize(c, j) != Modulus(w) && TrueSize(c, j) - TrueSize(c, i) != Modulus(w)
    {
      WrapCollision(w, TrueSize(c, i), TrueSize(c, j));
    }
  }

  /** Distinct sizes can be refused when one of the sums wraps around. */
  lemma WrapCanRefuse(w: Width)
    ensures var c := NOTHING_SET.(padding := Padding(Some(Half(w) - 1), Some(55 - Half(w)), None, None));
      IntPaddings(w, c) && TrueSize(c, 0) != TrueSize(c, 1) && !SizesDistinct(w, c)
  {
    var c := NOTHING_SET.(padding := Padding(Some(Half(w) - 1), Some(55 - Half(w)), None, None));
    WrapCollision(w, TrueSize(c, 0), TrueSize(c, 1));
    assert MachineSize(w, c, 0) == MachineSize(w, c, 1);
  }

  /** With header protection, an accepted configuration has four paddings of at least 12 and four distinct sizes. */
  lemma ProtectedPackets(w: Width, c: ASecConfig, i: nat, j: nat)
    requires Acceptable(w, c) && IntPaddings(w, c) && c.headerProtectionKey.Some? && i < j < KINDS
    ensures PaddingOf(c, i).Some? && PaddingOf(c, j).Some?
    ensures PaddingOf(c, i).value >= 12 && PaddingOf(c, j).value >= 12 && TrueSize(c, i) != TrueSize(c, j)
  {
    SizeCheckExactly(w, c);
  }

  // ---------------------------------------------------------------- paddings that are not set

  /** The size a packet of kind `k` has on the wire: an unset padding adds nothing. */
  function WireSize(c: ASecConfig, k: nat): int
    requires k < KINDS
  {
    if PaddingOf(c, k).Some? then TrueSize(c, k) else BareSize(k)
  }

  predicate WireSizesDistinct(c: ASecConfig) {
    forall i, j :: 0 <= i < j < KINDS ==> WireSize(c, i) != WireSize(c, j)
  }

  /** The validator skips unset paddings: it accepts S2 = 56 alone, although both handshake packets then have 148 bytes. */
  lemma UnsetPaddingIsSkipped(w: Width)
    ensures var c := NOTHING_SET.(padding := Padding(None, Some(56), None, None));
      Acceptable(w, c) && !WireSizesDistinct(c)
  {
    var c := NOTHING_SET.(padding := Padding(None, Some(56), None, None));
    assert WireSize(c, 0) == WireSize(c, 1);
    assert SizesDistinct(w, c);
  }

  /** Exactly when acceptance does give distinct packets: no padded size equals the bare size of an unpadded kind. */
  lemma WireSizesExactly(w: Width, c: ASecConfig)
    requires Acceptable(w, c) && IntPaddings(w, c)
    ensures WireSizesDistinct(c) <==>
      forall i, j :: 0 <= i < KINDS && 0 <= j < KINDS && PaddingOf(c, i).Some? && PaddingOf(c, j).None? ==>
        TrueSize(c, i) != BareSize(j)
  {
    SizeCheckExactly(w, c);
    if WireSizesDistinct(c) {
      forall i, j | 0 <= i < KINDS && 0 <= j < KINDS && PaddingOf(c, i).Some? && PaddingOf(c, j).None?
        ensures TrueSize(c, i) != BareSize(j)
      {
        assert WireSize(c, i) == TrueSize(c, i) && WireSize(c, j) == BareSize(j);
        assert i < j || j < i;
      }
    }
  }
}
