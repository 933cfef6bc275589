/** End-of-game reports sent by the client (src/data/report.rs).

    Most counters are packed several to a 32-bit word. Writing masks each
    counter to its width before shifting it into place, except the one at the
    top of a word, which is shifted unmasked and so loses its high bits to the
    32-bit word. Reading masks every field back out. The lemmas below state
    both facts at once: reading what was written gives every field cut to its
    width, for every input, so an oversize counter never reaches a
    neighbouring field. */
module Reports {
  import opened Wrappers
  import opened Wire
  import opened Outcomes
  import opened Bits

  /** One hole's result. */
  datatype HoleReport = HoleReport(
    score: i8,
    gp: bv32,
    isHoleInOne: bool,
    maximumFlightDistance: bv32,
    longestChipIn: bv32,
    longestPutt: bv32,
    outcome: Outcome,
    vsPoint: bv32)

  /** The three words of a hole report. */
  function HoleWord1(gp: bv32, isHoleInOne: bool, maximumFlightDistance: bv32): bv32 {
    (gp & 0xFFF) | (if isHoleInOne then 0x1000 else 0) | ((maximumFlightDistance & 0x3FFFF) << 13)
  }

  function HoleWord2(longestChipIn: bv32, longestPutt: bv32): bv32 {
    (longestChipIn & 0x3FFFF) | (longestPutt << 18)
  }

  function HoleWord3(outcome: Outcome, vsPoint: bv32): bv32 {
    ToU32(outcome) | ((vsPoint & 7) << 3)
  }

  function Word1(h: HoleReport): bv32 { HoleWord1(h.gp, h.isHoleInOne, h.maximumFlightDistance) }
  function Word2(h: HoleReport): bv32 { HoleWord2(h.longestChipIn, h.longestPutt) }
  function Word3(h: HoleReport): bv32 { HoleWord3(h.outcome, h.vsPoint) }

  /** `HoleReport::write`: the score byte, then the three words. */
  function WriteHole(h: HoleReport): (fs: seq<Field>)
    ensures Kinds(fs) == HoleLayout
  {
    [I8(h.score), U32(Word1(h)), U32(Word2(h)), U32(Word3(h))]
  }

  const HoleLayout: seq<Kind> := [KI8, KU32, KU32, KU32]

  /** `HoleReport::read`: an `i8` and three `u32`s must come first. */
  function ReadHole(fs: seq<Field>): (r: Result<HoleReport, DekuError>)
    ensures r.Ok? <==> |fs| >= 4 && Kinds(fs[..4]) == HoleLayout
    ensures r.Err? ==> r.error == Incomplete
  {
    if |fs| >= 4 && fs[0].I8? && fs[1].U32? && fs[2].U32? && fs[3].U32? then
      Ok(DecodeHole(fs[0].i8, fs[1].u32, fs[2].u32, fs[3].u32))
    else
      Err(Incomplete)
  }

  function DecodeHole(score: i8, v1: bv32, v2: bv32, v3: bv32): HoleReport {
    HoleReport(
      score := score,
      gp := Mask(v1, 0xFFF),
      isHoleInOne := Mask(v1, 0x1000) != 0,
      maximumFlightDistance := SubField(v1, 13, 0x3FFFF),
      longestChipIn := Mask(v2, 0x3FFFF),
      longestPutt := High(v2, 18),
      outcome := FromU32(Mask(v3, 7)),
      vsPoint := SubField(v3, 3, 7))
  }

  /** Each field cut to the width the wire keeps. */
  function TruncateHole(h: HoleReport): HoleReport {
    HoleReport(h.score, Mask(h.gp, 0xFFF), h.isHoleInOne, Mask(h.maximumFlightDistance, 0x3FFFF),
      Mask(h.longestChipIn, 0x3FFFF), Mask(h.longestPutt, 0x3FFF), h.outcome, Mask(h.vsPoint, 7))
  }

  /** The fields fit their widths: no bit of `gp` above bit 11, of the
      distances above bit 17, of the longest putt above bit 13, of the point
      count above bit 2. */
  predicate HoleFits(h: HoleReport) {
    Mask(h.gp, 0xFFF) == h.gp && Mask(h.maximumFlightDistance, 0x3FFFF) == h.maximumFlightDistance
    && Mask(h.longestChipIn, 0x3FFFF) == h.longestChipIn && Mask(h.longestPutt, 0x3FFF) == h.longestPutt
    && Mask(h.vsPoint, 7) == h.vsPoint
  }

  /** Cutting to width changes nothing exactly when the fields fit. */
  lemma TruncateHoleIdentity(h: HoleReport)
    ensures TruncateHole(h) == h <==> HoleFits(h)
  {
    if HoleFits(h) {
      HoleFieldwiseEqual(TruncateHole(h), h);
    }
  }

  /** Two hole reports agreeing field by field are equal. */
  lemma HoleFieldwiseEqual(a: HoleReport, b: HoleReport)
    requires a.score == b.score && a.gp == b.gp && a.isHoleInOne == b.isHoleInOne
    requires a.maximumFlightDistance == b.maximumFlightDistance
    requires a.longestChipIn == b.longestChipIn && a.longestPutt == b.longestPutt
    requires a.outcome == b.outcome && a.vsPoint == b.vsPoint
    ensures a == b
  {
  }

  /** Reading a written hole report, followed by anything, gives the report
      cut to width; the hole-in-one flag is exactly bit 12 of the first word. */
  lemma ReadWriteHole(h: HoleReport, rest: seq<Field>)
    ensures ReadHole(WriteHole(h) + rest) == Ok(TruncateHole(h))
  {
    var fs := WriteHole(h) + rest;
    assert fs[..4] == WriteHole(h);
    assert fs[0].i8 == h.score && fs[1].u32 == Word1(h);
    assert fs[2].u32 == Word2(h) && fs[3].u32 == Word3(h);
    DecodeHoleWords(h);
  }

  lemma DecodeHoleWords(h: HoleReport)
    ensures DecodeHole(h.score, Word1(h), Word2(h), Word3(h)) == TruncateHole(h)
  {
    DecodeWord1(h);
    DecodeWord2(h);
    DecodeWord3(h);
    TruncateHoleFields(h);
    HoleFieldwiseEqual(DecodeHole(h.score, Word1(h), Word2(h), Word3(h)), TruncateHole(h));
  }

  lemma TruncateHoleFields(h: HoleReport)
    ensures TruncateHole(h).score == h.score && TruncateHole(h).gp == Mask(h.gp, 0xFFF)
    ensures TruncateHole(h).isHoleInOne == h.isHoleInOne
    ensures TruncateHole(h).maximumFlightDistance == Mask(h.maximumFlightDistance, 0x3FFFF)
    ensures TruncateHole(h).longestChipIn == Mask(h.longestChipIn, 0x3FFFF)
    ensures TruncateHole(h).longestPutt == Mask(h.longestPutt, 0x3FFF)
    ensures TruncateHole(h).outcome == h.outcome && TruncateHole(h).vsPoint == Mask(h.vsPoint, 7)
  {
  }

  lemma DecodeWord1(h: HoleReport)
    ensures DecodeHole(h.score, Word1(h), Word2(h), Word3(h)).gp == Mask(h.gp, 0xFFF)
    ensures DecodeHole(h.score, Word1(h), Word2(h), Word3(h)).isHoleInOne == h.isHoleInOne
    ensures DecodeHole(h.score, Word1(h), Word2(h), Word3(h)).maximumFlightDistance
         == Mask(h.maximumFlightDistance, 0x3FFFF)
  {
    HoleWord1Fields(h.gp, h.isHoleInOne, h.maximumFlightDistance);
  }

  lemma DecodeWord2(h: HoleReport)
    ensures DecodeHole(h.score, Word1(h), Word2(h), Word3(h)).longestChipIn == Mask(h.longestChipIn, 0x3FFFF)
    ensures DecodeHole(h.score, Word1(h), Word2(h), Word3(h)).longestPutt == Mask(h.longestPutt, 0x3FFF)
  {
    HoleWord2Fields(h.longestChipIn, h.longestPutt);
  }

  lemma DecodeWord3(h: HoleReport)
    ensures DecodeHole(h.score, Word1(h), Word2(h), Word3(h)).outcome == h.outcome
    ensures DecodeHole(h.score, Word1(h), Word2(h), Word3(h)).vsPoint == Mask(h.vsPoint, 7)
  {
    HoleWord3Fields(h.outcome, h.vsPoint);
  }

  lemma HoleRoundTrip(h: HoleReport)
    requires HoleFits(h)
    ensures ReadHole(WriteHole(h)) == Ok(h)
  {
    ReadWriteHole(h, []);
    assert WriteHole(h) + [] == WriteHole(h);
    TruncateHoleIdentity(h);
  }

  /** The hole-in-one flag read back is bit 12 of the first word. */
  lemma HoleInOneIsBit12(fs: seq<Field>)
    requires ReadHole(fs).Ok?
    ensures ReadHole(fs).value.isHoleInOne <==> fs[1].u32 & 0x1000 == 0x1000
  {
    Bit12(fs[1].u32);
  }

  /** A hole word 3 whose outcome bits are 0 or 7 reads as `Invalid`. */
  lemma UnknownHoleOutcome(fs: seq<Field>)
    requires ReadHole(fs).Ok?
    requires fs[3].u32 & 7 == 0 || fs[3].u32 & 7 == 7
    ensures ReadHole(fs).value.outcome == Invalid
  {
  }

  /** The 18 hole reports of a round, written back to back. */
  function WriteHoles(hs: seq<HoleReport>): (fs: seq<Field>)
    ensures |fs| == 4 * |hs|
  {
    if hs == [] then [] else WriteHole(hs[0]) + WriteHoles(hs[1..])
  }

  /** Reading `n` consecutive hole reports. */
  function ReadHoles(fs: seq<Field>, n: nat): (r: Result<seq<HoleReport>, DekuError>)
    ensures r.Ok? ==> |r.value| == n && |fs| >= 4 * n
    ensures r.Err? ==> r.error == Incomplete
    decreases n
  {
    if n == 0 then Ok([])
    else
      var h :- ReadHole(fs);
      var hs :- ReadHoles(fs[4..], n - 1);
      Ok([h] + hs)
  }

  function TruncateHoles(hs: seq<HoleReport>): (r: seq<HoleReport>)
    ensures |r| == |hs|
    ensures forall i :: 0 <= i < |hs| ==> r[i] == TruncateHole(hs[i])
  {
    if hs == [] then [] else [TruncateHole(hs[0])] + TruncateHoles(hs[1..])
  }

  lemma {:induction false} ReadWriteHoles(hs: seq<HoleReport>, rest: seq<Field>)
    ensures ReadHoles(WriteHoles(hs) + rest, |hs|) == Ok(TruncateHoles(hs))
  {
    if hs != [] {
      var fs := WriteHoles(hs) + rest;
      assert fs == WriteHole(hs[0]) + (WriteHoles(hs[1..]) + rest);
      ReadWriteHole(hs[0], WriteHoles(hs[1..]) + rest);
      assert fs[4..] == WriteHoles(hs[1..]) + rest;
      ReadWriteHoles(hs[1..], rest);
    }
  }

  lemma {:induction false} WriteHolesLayout(hs: seq<HoleReport>)
    ensures Kinds(WriteHoles(hs)) == RepeatKinds(HoleLayout, |hs|)
  {
    if hs != [] {
      KindsAppend(WriteHole(hs[0]), WriteHoles(hs[1..]));
      WriteHolesLayout(hs[1..]);
    }
  }

  lemma Bit12(v: bv32)
    ensures Mask(v, 0x1000) != 0 <==> v & 0x1000 == 0x1000
  {
  }

  lemma HoleWord1Fields(gp: bv32, isHoleInOne: bool, flight: bv32)
    ensures Mask(HoleWord1(gp, isHoleInOne, flight), 0xFFF) == Mask(gp, 0xFFF)
    ensures Mask(HoleWord1(gp, isHoleInOne, flight), 0x1000) != 0 <==> isHoleInOne
    ensures SubField(HoleWord1(gp, isHoleInOne, flight), 13, 0x3FFFF) == Mask(flight, 0x3FFFF)
  {
    if isHoleInOne {} else {}
  }

  lemma HoleWord2Fields(chip: bv32, putt: bv32)
    ensures Mask(HoleWord2(chip, putt), 0x3FFFF) == Mask(chip, 0x3FFFF)
    ensures High(HoleWord2(chip, putt), 18) == Mask(putt, 0x3FFF)
  {
  }

  lemma HoleWord3Fields(outcome: Outcome, vs: bv32)
    ensures FromU32(Mask(HoleWord3(outcome, vs), 7)) == outcome
    ensures SubField(HoleWord3(outcome, vs), 3, 7) == Mask(vs, 7)
  {
    var o := ToU32(outcome);
    assert (o | ((vs & 7) << 3)) & 7 == o;
  }
}
