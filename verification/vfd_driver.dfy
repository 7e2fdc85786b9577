/** The vacuum-fluorescent display driver.

    Five physical sections: 0, 1, 3 and 4 are seven-segment digits, the
    middle section 2 carries the two dot indicators.  Writers fill a
    five-byte buffer; a fixed-rate refresh interrupt lights one section at a
    time, with a brightness-dependent number of blank ticks between
    advances.  The GPIO lines the interrupt drives (five grids, segments
    A..G, two dots) are part of the state as `Pins`.
 */
module VfdDriver {
  import opened Base

  const SECTIONS: nat := 5
  /** The physical section reserved for the dot indicators. */
  const DOT_SECTION: nat := 2

  const SEG_A: uint8 := 0x01
  const SEG_B: uint8 := 0x02
  const SEG_C: uint8 := 0x04
  const SEG_D: uint8 := 0x08
  const SEG_E: uint8 := 0x10
  const SEG_F: uint8 := 0x20
  const SEG_G: uint8 := 0x40

  const DOT_H: uint8 := 0x1
  const DOT_L: uint8 := 0x2

  /** Segment masks in output order A..G. */
  const SegmentMasks: seq<uint8> := [SEG_A, SEG_B, SEG_C, SEG_D, SEG_E, SEG_F, SEG_G]

  /** Seven-segment patterns of the hexadecimal digits 0..F. */
  const NumLookupTable: seq<uint8> :=
    [0x3F, 0x06, 0x5B, 0x4F, 0x66, 0x6D, 0x7D, 0x07, 0x7F,
     0x6F, 0x77, 0x7C, 0x39, 0x5E, 0x79, 0x71]

  /** The brightness enumeration, in declaration order. */
  datatype Brightness = BrightnessMin | Brightness25 | Brightness50 | BrightnessMax

  /** The C enumerator value of a brightness level. */
  function Ordinal(b: Brightness): uint8
  {
    match b
    case BrightnessMin => 0
    case Brightness25 => 1
    case Brightness50 => 2
    case BrightnessMax => 3
  }

  type Buffer = s: seq<uint8> | |s| == 5 witness [0, 0, 0, 0, 0]
  type Grids = s: seq<bool> | |s| == 5 witness [false, false, false, false, false]
  type Segments = s: seq<bool> | |s| == 7 witness [false, false, false, false, false, false, false]

  /** Output levels of the display's GPIO lines (true = set). */
  datatype Pins = Pins(grids: Grids, segments: Segments, dotH: bool, dotL: bool)

  /** The driver's private state: section buffer, refresh position and
      frame-skipping counters, plus the lines it drives. */
  datatype Vfd = Vfd(
    sections: Buffer,
    current: uint8,
    skipEvery: uint8,
    skipCounter: uint8,
    pins: Pins)

  /** The set of grids currently selected. */
  function Lit(g: Grids): set<nat>
  {
    set j: nat | j < SECTIONS && g[j]
  }

  // ------------------------------------------------------------------
  // Initialisation and brightness
  // ------------------------------------------------------------------

  /** Power-on state after `vfd_driver_init`: the buffer and the section
      index are zero-initialised statics; the threshold is the ENUMERATOR
      value of the maximum level, not its mapped threshold. */
  function Init(pins: Pins): (v: Vfd)
    ensures v.sections == [0, 0, 0, 0, 0] && v.current == 0 && v.skipCounter == 0
    ensures v.skipEvery == Ordinal(BrightnessMax) == 3
    ensures v.skipEvery != SkipThreshold(BrightnessMax)
  {
    Vfd([0, 0, 0, 0, 0], 0, Ordinal(BrightnessMax), 0, pins)
  }

  /** Number of blank ticks between two advances at brightness `b`. */
  function SkipThreshold(b: Brightness): (k: uint8)
    ensures k <= 4
    ensures Ordinal(b) < 3 ==> k == 4 - Ordinal(b)
    ensures Ordinal(b) == 3 ==> k == 0
  {
    match b
    case BrightnessMin => 4
    case Brightness25 => 3
    case Brightness50 => 2
    case BrightnessMax => 0
  }

  /** Only the threshold changes; the counter is not reset, so it may stay
      above a lowered threshold until the next tick. */
  function SetBrightness(v: Vfd, b: Brightness): (r: Vfd)
    ensures r.skipEvery == SkipThreshold(b)
    ensures r.sections == v.sections && r.current == v.current
    ensures r.skipCounter == v.skipCounter && r.pins == v.pins
  {
    v.(skipEvery := SkipThreshold(b))
  }

  // ------------------------------------------------------------------
  // Segment encoder: writers of the section buffer
  // ------------------------------------------------------------------

  /** Physical section written by `vfd_driver_light_cust` for logical index
      `digNum`: indices above 1 skip the dot section, then the index is
      reduced modulo the section count (after 8-bit wrap-around). */
  function PhysicalSection(digNum: uint8): (s: nat)
    ensures s < SECTIONS
    ensures digNum < 4 ==> s == [0, 1, 3, 4][digNum]
    ensures digNum < 4 ==> s != DOT_SECTION
    ensures digNum == 4 ==> s == 0
    ensures digNum == 6 ==> s == DOT_SECTION
    ensures digNum == 255 ==> s == 0
  {
    var shifted := if digNum > 1 then Wrap8(digNum + 1) else digNum;
    shifted % SECTIONS
  }

  function LightCust(b: Buffer, digNum: uint8, segs: uint8): (r: Buffer)
    ensures r[PhysicalSection(digNum)] == segs
    ensures forall j :: 0 <= j < SECTIONS && j != PhysicalSection(digNum) ==> r[j] == b[j]
  {
    b[PhysicalSection(digNum) := segs]
  }

  function LightDots(b: Buffer, dots: uint8): (r: Buffer)
    ensures r[DOT_SECTION] == dots
    ensures forall j :: 0 <= j < SECTIONS && j != DOT_SECTION ==> r[j] == b[j]
  {
    b[DOT_SECTION := dots]
  }

  /** `__vfd_driver_print`: the tens digit (modulo 10) goes to `secL`, the
      units digit to `secR`. */
  function Print(b: Buffer, num: uint8, secL: nat, secR: nat): (r: Buffer)
    requires secL < SECTIONS && secR < SECTIONS && secL != secR
    ensures r[secL] == NumLookupTable[(num / 10) % 10]
    ensures r[secR] == NumLookupTable[num % 10]
    ensures forall j :: 0 <= j < SECTIONS && j != secL && j != secR ==> r[j] == b[j]
  {
    var d1 := num / 10;
    var d2 := num - d1 * 10;
    b[secL := NumLookupTable[d1 % 10]][secR := NumLookupTable[d2 % 10]]
  }

  function PrintLeft(b: Buffer, num: uint8): (r: Buffer)
    ensures r[4] == NumLookupTable[(num / 10) % 10]
    ensures r[3] == NumLookupTable[num % 10]
    ensures r[..3] == b[..3]
  {
    Print(b, num, 4, 3)
  }

  function PrintRight(b: Buffer, num: uint8): (r: Buffer)
    ensures r[1] == NumLookupTable[(num / 10) % 10]
    ensures r[0] == NumLookupTable[num % 10]
    ensures r[2..] == b[2..]
  {
    Print(b, num, 1, 0)
  }

  function Clear(b: Buffer): (r: Buffer)
    ensures forall j :: 0 <= j < SECTIONS ==> r[j] == 0
  {
    [0, 0, 0, 0, 0]
  }

  // ------------------------------------------------------------------
  // Refresh interrupt
  // ------------------------------------------------------------------

  const AllGridsOff: Grids := [false, false, false, false, false]

  /** `__encode_section`: segment outputs A..G for a section byte, bit k
      of the byte on segment k.  What the lines carry is stated by
      `VfdReadback.EncodeSectionCarriesLowBits` against `VfdReadback.SegmentsValue`. */
  function EncodeSection(value: uint8): Segments
  {
    seq(7, k requires 0 <= k < 7 => HasBit(value, SegmentMasks[k]))
  }

  /** `__select_section`: exactly grid `s` on; no effect outside 0..4. */
  function SelectSection(p: Pins, s: nat): (r: Pins)
    ensures s < SECTIONS ==> Lit(r.grids) == {s}
    ensures r.segments == p.segments && r.dotH == p.dotH && r.dotL == p.dotL
  {
    if s < SECTIONS then
      var r := p.(grids := seq(5, j => j == s));
      assert forall j: nat :: j in Lit(r.grids) <==> j == s;
      r
    else
      p
  }

  /** Section index after an advance from `c`. */
  function NextSection(c: uint8): (n: nat)
    ensures n < SECTIONS
    ensures c < SECTIONS - 1 ==> n == c + 1
    ensures c == SECTIONS - 1 ==> n == 0
  {
    Wrap8(c + 1) % SECTIONS
  }

  /** Whether the next tick advances to another section. */
  predicate Advances(v: Vfd)
  {
    v.skipCounter >= v.skipEvery
  }

  /** `vfd_driver_int`: deselect every grid, then either count a blank
      tick or advance to the next section, drive its segment (or dot) lines
      from the buffer and select its grid. */
  function Tick(v: Vfd): (r: Vfd)
    ensures r.sections == v.sections && r.skipEvery == v.skipEvery
    ensures r.skipCounter <= r.skipEvery
    ensures Advances(v) ==> r.current == NextSection(v.current) && r.skipCounter == 0
    ensures Advances(v) ==> Lit(r.pins.grids) == {r.current as nat}
    ensures !Advances(v) ==> r.current == v.current && r.skipCounter == v.skipCounter + 1
    ensures !Advances(v) ==> Lit(r.pins.grids) == {}
    ensures !Advances(v) ==> r.pins == v.pins.(grids := AllGridsOff)
  {
    var p := v.pins.(grids := AllGridsOff);
    if v.skipCounter >= v.skipEvery then
      var next := NextSection(v.current);
      var driven :=
        if next == DOT_SECTION then
          p.(dotH := HasBit(v.sections[DOT_SECTION], DOT_H),
             dotL := HasBit(v.sections[DOT_SECTION], DOT_L))
        else
          p.(segments := EncodeSection(v.sections[next]));
      v.(skipCounter := 0, current := next, pins := SelectSection(driven, next))
    else
      assert Lit(p.grids) == {};
      v.(skipCounter := v.skipCounter + 1, pins := p)
  }
}
