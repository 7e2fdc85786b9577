/** What a viewer reads off the display, and the refresh schedule over
    many ticks.  These are reference definitions the driver's writers and
    its interrupt are checked against. */
module VfdReadback {
  import opened Base
  import opened VfdDriver

  /** The decimal digit (searched from `d` upwards) whose pattern is `seg`. */
  function FindDigit(seg: uint8, d: nat): (r: Option<nat>)
    requires d <= 10
    decreases 10 - d
    ensures r.Some? ==> d <= r.value < 10 && NumLookupTable[r.value] == seg
    ensures r.None? ==> forall e :: d <= e < 10 ==> NumLookupTable[e] != seg
  {
    if d == 10 then None
    else if NumLookupTable[d] == seg then Some(d)
    else FindDigit(seg, d + 1)
  }

  /** The decimal digit a seven-segment pattern shows, if any. */
  function DigitOf(seg: uint8): Option<nat>
  {
    FindDigit(seg, 0)
  }

  /** The two-digit number shown by sections `secL` (tens) and `secR` (units). */
  function ReadPair(b: Buffer, secL: nat, secR: nat): Option<nat>
    requires secL < SECTIONS && secR < SECTIONS
  {
    match (DigitOf(b[secL]), DigitOf(b[secR]))
    case (Some(hi), Some(lo)) => Some(10 * hi + lo)
    case _ => None
  }

  function ReadLeft(b: Buffer): Option<nat>
  {
    ReadPair(b, 4, 3)
  }

  function ReadRight(b: Buffer): Option<nat>
  {
    ReadPair(b, 1, 0)
  }

  /** The value carried by segment outputs A..G, bit k for segment k. */
  function SegmentsValue(s: Segments): nat
  {
    (if s[0] then 0x01 else 0) + (if s[1] then 0x02 else 0) + (if s[2] then 0x04 else 0)
    + (if s[3] then 0x08 else 0) + (if s[4] then 0x10 else 0) + (if s[5] then 0x20 else 0)
    + (if s[6] then 0x40 else 0)
  }

  /** The decimal digits 0..9 have pairwise different patterns, so each
      reads back as itself. */
  lemma {:induction false} DigitOfTable(d: nat)
    requires d < 10
    ensures DigitOf(NumLookupTable[d]) == Some(d)
  {
    var r := DigitOf(NumLookupTable[d]);
    if r.Some? {
      var e := r.value;
      assert NumLookupTable[e] == NumLookupTable[d];
      assert NumLookupTable[..10] == [0x3F, 0x06, 0x5B, 0x4F, 0x66, 0x6D, 0x7D, 0x07, 0x7F, 0x6F];
      assert e == d;
    }
  }

  /** `Print` makes its two sections show the number modulo 100: the
      hundreds digit is dropped (123 shows as 23). */
  lemma PrintShows(b: Buffer, num: uint8, secL: nat, secR: nat)
    requires secL < SECTIONS && secR < SECTIONS && secL != secR
    ensures ReadPair(Print(b, num, secL, secR), secL, secR) == Some(num % 100)
  {
    var r := Print(b, num, secL, secR);
    DigitOfTable((num / 10) % 10);
    DigitOfTable(num % 10);
    assert 10 * ((num / 10) % 10) + num % 10 == num % 100;
  }

  lemma PrintLeftShows(b: Buffer, num: uint8)
    ensures ReadLeft(PrintLeft(b, num)) == Some(num % 100)
    ensures PrintLeft(b, num)[..3] == b[..3]
  {
    PrintShows(b, num, 4, 3);
  }

  lemma PrintRightShows(b: Buffer, num: uint8)
    ensures ReadRight(PrintRight(b, num)) == Some(num % 100)
    ensures PrintRight(b, num)[2..] == b[2..]
  {
    PrintShows(b, num, 1, 0);
  }

  /** `print_left(left)` then `print_right(right)`: both pairs show their
      numbers modulo 100 and the dot section is kept. */
  lemma PrintBothShows(b: Buffer, left: uint8, right: uint8)
    ensures var r := PrintRight(PrintLeft(b, left), right);
      && ReadLeft(r) == Some(left % 100)
      && ReadRight(r) == Some(right % 100)
      && r[DOT_SECTION] == b[DOT_SECTION]
  {
    var l := PrintLeft(b, left);
    var r := PrintRight(l, right);
    PrintLeftShows(b, left);
    PrintRightShows(l, right);
    assert r[4] == l[4] && r[3] == l[3];
  }

  /** A cleared buffer shows no digit on either pair. */
  lemma ClearShowsNothing(b: Buffer)
    ensures ReadLeft(Clear(b)) == None && ReadRight(Clear(b)) == None
  {
    assert DigitOf(0) == None;
  }

  /** The dot pattern written by `light_dots` reaches the dot lines on the
      next tick that advances onto the dot section. */
  lemma DotsReachPins(v: Vfd, dots: uint8)
    requires Advances(v) && v.current as nat == DOT_SECTION - 1
    ensures var r := Tick(v.(sections := LightDots(v.sections, dots)));
      && r.current as nat == DOT_SECTION
      && r.pins.dotH == HasBit(dots, DOT_H)
      && r.pins.dotL == HasBit(dots, DOT_L)
      && Lit(r.pins.grids) == {DOT_SECTION}
  {
  }

  /** The segment lines carry bits 0..6 of the section byte, segment A the
      lowest; bit 7 is not wired to any line. */
  lemma EncodeSectionCarriesLowBits(value: uint8)
    ensures SegmentsValue(EncodeSection(value)) == value % 0x80
  {
    var s := EncodeSection(value);
    assert value % 0x02 == (if s[0] then 0x01 else 0) by { LowBitsStep(value, 0x01); }
    assert value % 0x04 == value % 0x02 + (if s[1] then 0x02 else 0) by { LowBitsStep(value, 0x02); }
    assert value % 0x08 == value % 0x04 + (if s[2] then 0x04 else 0) by { LowBitsStep(value, 0x04); }
    assert value % 0x10 == value % 0x08 + (if s[3] then 0x08 else 0) by { LowBitsStep(value, 0x08); }
    assert value % 0x20 == value % 0x10 + (if s[4] then 0x10 else 0) by { LowBitsStep(value, 0x10); }
    assert value % 0x40 == value % 0x20 + (if s[5] then 0x20 else 0) by { LowBitsStep(value, 0x20); }
    assert value % 0x80 == value % 0x40 + (if s[6] then 0x40 else 0) by { LowBitsStep(value, 0x40); }
  }

  /** Two bytes that differ only in bit 7 drive the same segment lines. */
  lemma EncodeSectionIgnoresBit7(value: uint8)
    requires value < 0x80
    ensures EncodeSection(value + 0x80) == EncodeSection(value)
  {
    var a := EncodeSection(value + 0x80);
    var b := EncodeSection(value);
    forall k | 0 <= k < 7
      ensures a[k] == b[k]
    {
      var m := SegmentMasks[k];
      assert 0x80 % m == 0 && (0x80 / m) % 2 == 0;
      assert (value + 0x80) / m == value / m + 0x80 / m;
    }
  }

  // ------------------------------------------------------------------
  // Refresh schedule
  // ------------------------------------------------------------------

  /** The driver state after `n` refresh ticks with no other writer. */
  function Ticks(v: Vfd, n: nat): Vfd
    decreases n
  {
    if n == 0 then v else Ticks(Tick(v), n - 1)
  }

  lemma {:induction false} TicksSplit(v: Vfd, a: nat, b: nat)
    ensures Ticks(v, a + b) == Ticks(Ticks(v, a), b)
    decreases a
  {
    if a > 0 {
      TicksSplit(Tick(v), a - 1, b);
    }
  }

  /** Ticks before the counter reaches the threshold keep the section and
      leave every grid deselected. */
  lemma {:induction false} BlankTicks(v: Vfd, n: nat)
    requires v.skipCounter + n <= v.skipEvery
    ensures Ticks(v, n).current == v.current
    ensures Ticks(v, n).skipCounter == v.skipCounter + n
    ensures Ticks(v, n).sections == v.sections && Ticks(v, n).skipEvery == v.skipEvery
    ensures n > 0 ==> Lit(Ticks(v, n).pins.grids) == {}
    decreases n
  {
    if n > 0 {
      BlankTicks(Tick(v), n - 1);
    }
  }

  /** With threshold k and the counter just reset, the section is held for
      k ticks and the (k+1)-th tick advances to the next one and lights it. */
  lemma AdvancesEveryPeriod(v: Vfd)
    requires v.skipCounter == 0
    ensures forall n :: 0 <= n <= v.skipEvery ==> Ticks(v, n).current == v.current
    ensures var w := Ticks(v, v.skipEvery + 1);
      && w.current == NextSection(v.current)
      && w.skipCounter == 0
      && w.sections == v.sections
      && w.skipEvery == v.skipEvery
      && Lit(w.pins.grids) == {w.current as nat}
  {
    var k := v.skipEvery as nat;
    forall n | 0 <= n <= k
      ensures Ticks(v, n).current == v.current
    {
      BlankTicks(v, n);
    }
    BlankTicks(v, k);
    TicksSplit(v, k, 1);
  }

  /** Starting from section c with the counter reset, after j periods of
      k+1 ticks the display is on section (c + j) mod 5: it visits the
      sections round-robin 0, 1, 2, 3, 4, 0, ... */
  lemma {:induction false} RoundRobin(v: Vfd, j: nat)
    requires v.skipCounter == 0 && v.current < SECTIONS
    ensures var w := Ticks(v, j * (v.skipEvery + 1));
      && w.current == (v.current + j) % SECTIONS
      && w.skipCounter == 0
      && w.sections == v.sections
      && w.skipEvery == v.skipEvery
  {
    var p := v.skipEvery as nat + 1;
    if j > 0 {
      var a := (j - 1) * p;
      assert j * p == a + p by { assert j * p == (j - 1) * p + p; }
      RoundRobin(v, j - 1);
      var u := Ticks(v, a);
      assert u.current == (v.current + (j - 1)) % SECTIONS;
      OneMorePeriod(v, a);
      NextSectionMod(v.current + (j - 1));
      assert Ticks(v, j * p).current == NextSection(u.current);
    }
  }

  lemma NextSectionMod(x: nat)
    ensures NextSection((x % SECTIONS) as uint8) == (x + 1) % SECTIONS
  {
  }

  lemma OneMorePeriod(v: Vfd, a: nat)
    requires var u := Ticks(v, a); u.skipCounter == 0 && u.skipEvery == v.skipEvery
    ensures var u := Ticks(v, a);
      var w := Ticks(v, a + v.skipEvery + 1);
      && w.current == NextSection(u.current)
      && w.skipCounter == 0
      && w.sections == u.sections
      && w.skipEvery == v.skipEvery
  {
    var u := Ticks(v, a);
    AdvancesEveryPeriod(u);
    TicksSplit(v, a, v.skipEvery as nat + 1);
  }

  /** Five periods bring the display back to its starting section. */
  lemma FullCycle(v: Vfd)
    requires v.skipCounter == 0 && v.current < SECTIONS
    ensures Ticks(v, SECTIONS * (v.skipEvery + 1)).current == v.current
  {
    RoundRobin(v, SECTIONS);
  }

  /** On an advancing tick the lit section's lines are driven from its
      buffer byte: dot lines from bits 0x1/0x2 on the dot section (segments
      untouched), segment lines from bits 0..6 elsewhere (dots untouched). */
  lemma AdvanceDrivesSection(v: Vfd)
    requires Advances(v)
    ensures var r := Tick(v);
      if r.current as nat == DOT_SECTION then
        && r.pins.dotH == HasBit(v.sections[DOT_SECTION], DOT_H)
        && r.pins.dotL == HasBit(v.sections[DOT_SECTION], DOT_L)
        && r.pins.segments == v.pins.segments
      else
        && SegmentsValue(r.pins.segments) == v.sections[r.current] % 0x80
        && r.pins.dotH == v.pins.dotH && r.pins.dotL == v.pins.dotL
  {
    var r := Tick(v);
    if r.current as nat != DOT_SECTION {
      EncodeSectionCarriesLowBits(v.sections[r.current]);
    }
  }
}
