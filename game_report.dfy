/** The end-of-round report (`GameReport` in src/data/report.rs): the same
    packing scheme as the hole report, over twelve words, followed by the
    round's 18 hole reports. */
module GameReports {
  import opened Wrappers
  import opened Wire
  import opened Outcomes
  import opened Bits
  import opened Reports

  /** The result of a whole round: 41 counters packed into twelve words, the
      halfway and final scores, then the 18 hole reports. */
  datatype GameReport = GameReport(
    outcome: Outcome,
    numStrokes: bv32,
    numCupIns: bv32,
    maximumDistance: bv32,
    longestPuttDistance: bv32,
    maximumTipInDistance: bv32,
    numPutts: bv32,
    numNiceShots: bv32,
    numTipIns: bv32,
    numFairwayKeep: bv32,
    numOb: bv32,
    numWaterHazard: bv32,
    num4OrMore: bv32,
    numTBogeys: bv32,
    numDBogeys: bv32,
    numBogeys: bv32,
    numPars: bv32,
    numBirdies: bv32,
    numEagles: bv32,
    numAlbatross: bv32,
    numHoleInOnes: bv32,
    numTotalDistance: bv32,
    playTime: bv32,
    obtainedGpRound: bv32,
    obtainedGpAll: bv32,
    acquiredExperience: bv32,
    numDirectTipIns: bv32,
    numRough: bv32,
    numBunkers: bv32,
    numObstacleHits: bv32,
    numPinshots: bv32,
    numFlagWraps: bv32,
    numConsumableItemUsage: bv32,
    longestTeeShot: bv32,
    totalPuttDistanceAtCupIn: bv32,
    numTopOrBackspinSuccesses: bv32,
    numFadeOrDrawUsage: bv32,
    numClubsUsed: bv32,
    numTimesCooperatingWithCaddy: bv32,
    numSpecialShotsUsed: bv32,
    vsRank: bv32,
    halfwayScore: i8,
    score: i8,
    holes: seq<HoleReport>)

  /** The twelve words of `GameReport::write`, each from the counters it packs. */
  function GameWord1(outcome: Outcome, numStrokes: bv32, numCupIns: bv32): bv32 {
    ToU32(outcome) | ((numStrokes & 0xFF) << 3) | ((numCupIns & 0x1F) << 11)
  }

  function GameWord2(maximumDistance: bv32, longestPuttDistance: bv32): bv32 {
    (maximumDistance & 0x3FFFF) | (longestPuttDistance << 18)
  }

  function GameWord3(maximumTipInDistance: bv32, numPutts: bv32, numNiceShots: bv32): bv32 {
    (maximumTipInDistance & 0x3FFFF) | ((numPutts & 0x7F) << 18) | (numNiceShots << 25)
  }

  function GameWord4(numTipIns: bv32, numFairwayKeep: bv32, numOb: bv32, numWaterHazard: bv32, num4OrMore: bv32): bv32 {
    (numTipIns & 0x1F) | ((numFairwayKeep & 0xFF) << 5) | ((numOb & 0x3F) << 13) | ((numWaterHazard & 0x3F) << 19) | ((num4OrMore & 0x1F) << 25)
  }

  function GameWord5(numTBogeys: bv32, numDBogeys: bv32, numBogeys: bv32, numPars: bv32, numBirdies: bv32, numEagles: bv32, numAlbatross: bv32): bv32 {
    (numTBogeys & 0x1F) | ((numDBogeys & 0x1F) << 5) | ((numBogeys & 0x1F) << 10) | ((numPars & 0x1F) << 15) | ((numBirdies & 0x1F) << 20) | ((numEagles & 0xF) << 25) | (numAlbatross << 29)
  }

  function GameWord6(numHoleInOnes: bv32, numTotalDistance: bv32): bv32 {
    (numHoleInOnes & 7) | ((numTotalDistance & 0x3FFFF) << 3)
  }

  function GameWord7(playTime: bv32, obtainedGpRound: bv32): bv32 {
    (playTime & 0x3FFF) | ((obtainedGpRound & 0x7FFF) << 14)
  }

  function GameWord8(obtainedGpAll: bv32, acquiredExperience: bv32, numDirectTipIns: bv32): bv32 {
    (obtainedGpAll & 0x7FFF) | ((acquiredExperience & 0xFF) << 15) | ((numDirectTipIns & 0x1F) << 23)
  }

  /** Word 9 as written: the pin-shot count is masked to seven bits at bit
      22, so it reaches bits 27 and 28, where `num_flag_wraps` starts. */
  function GameWord9(numRough: bv32, numBunkers: bv32, numObstacleHits: bv32, numPinshots: bv32, numFlagWraps: bv32): bv32 {
    (numRough & 0xFF) | ((numBunkers & 0x7F) << 8) | ((numObstacleHits & 0x7F) << 15) | ((numPinshots & 0x7F) << 22) | (numFlagWraps << 27)
  }

  /** Word 9 with the pin-shot mask corrected to five bits, so that its
      fields (8, 7, 7, 5 and 5 bits) tile the word. */
  function GameWord9Fixed(numRough: bv32, numBunkers: bv32, numObstacleHits: bv32, numPinshots: bv32, numFlagWraps: bv32): bv32 {
    GameWord9(numRough, numBunkers, numObstacleHits, numPinshots & 0x1F, numFlagWraps)
  }

  function GameWord10(numConsumableItemUsage: bv32, longestTeeShot: bv32): bv32 {
    (numConsumableItemUsage & 0xFF) | ((longestTeeShot & 0x3FFFF) << 8)
  }

  function GameWord11(totalPuttDistanceAtCupIn: bv32, numTopOrBackspinSuccesses: bv32, numFadeOrDrawUsage: bv32): bv32 {
    (totalPuttDistanceAtCupIn & 0xFFFF) | ((numTopOrBackspinSuccesses & 0x7F) << 16) | ((numFadeOrDrawUsage & 0x7F) << 23)
  }

  function GameWord12(numClubsUsed: bv32, numTimesCooperatingWithCaddy: bv32, numSpecialShotsUsed: bv32, vsRank: bv32): bv32 {
    (numClubsUsed & 0xF) | ((numTimesCooperatingWithCaddy & 0x7F) << 4) | ((numSpecialShotsUsed & 0x1F) << 11) | ((vsRank & 7) << 16)
  }

  function GameVal1(g: GameReport): bv32 { GameWord1(g.outcome, g.numStrokes, g.numCupIns) }
  function GameVal2(g: GameReport): bv32 { GameWord2(g.maximumDistance, g.longestPuttDistance) }
  function GameVal3(g: GameReport): bv32 { GameWord3(g.maximumTipInDistance, g.numPutts, g.numNiceShots) }
  function GameVal4(g: GameReport): bv32 { GameWord4(g.numTipIns, g.numFairwayKeep, g.numOb, g.numWaterHazard, g.num4OrMore) }
  function GameVal5(g: GameReport): bv32 { GameWord5(g.numTBogeys, g.numDBogeys, g.numBogeys, g.numPars, g.numBirdies, g.numEagles, g.numAlbatross) }
  function GameVal6(g: GameReport): bv32 { GameWord6(g.numHoleInOnes, g.numTotalDistance) }
  function GameVal7(g: GameReport): bv32 { GameWord7(g.playTime, g.obtainedGpRound) }
  function GameVal8(g: GameReport): bv32 { GameWord8(g.obtainedGpAll, g.acquiredExperience, g.numDirectTipIns) }
  function GameVal9(g: GameReport): bv32 { GameWord9(g.numRough, g.numBunkers, g.numObstacleHits, g.numPinshots, g.numFlagWraps) }
  function GameVal10(g: GameReport): bv32 { GameWord10(g.numConsumableItemUsage, g.longestTeeShot) }
  function GameVal11(g: GameReport): bv32 { GameWord11(g.totalPuttDistanceAtCupIn, g.numTopOrBackspinSuccesses, g.numFadeOrDrawUsage) }
  function GameVal12(g: GameReport): bv32 { GameWord12(g.numClubsUsed, g.numTimesCooperatingWithCaddy, g.numSpecialShotsUsed, g.vsRank) }

  /** The twelve counter words, in wire order. */
  function GameWords(g: GameReport): (ws: seq<bv32>)
    ensures |ws| == 12
  {
    [GameVal1(g), GameVal2(g), GameVal3(g), GameVal4(g), GameVal5(g), GameVal6(g),
     GameVal7(g), GameVal8(g), GameVal9(g), GameVal10(g), GameVal11(g), GameVal12(g)]
  }

  /** The twelve counter words with the corrected word 9. */
  function GameWordsFixed(g: GameReport): (ws: seq<bv32>)
    ensures |ws| == 12
  {
    GameWords(g)[8 := GameWord9Fixed(g.numRough, g.numBunkers, g.numObstacleHits, g.numPinshots, g.numFlagWraps)]
  }

  /** `GameReport::write`: twelve words, the two scores, then the holes. */
  function WriteGame(g: GameReport): (fs: seq<Field>)
    requires |g.holes| == 18
    ensures |fs| == 14 + 4 * 18
  {
    U32s(GameWords(g)) + [I8(g.halfwayScore), I8(g.score)] + WriteHoles(g.holes)
  }

  /** `GameReport::write` with the corrected word 9. */
  function WriteGameFixed(g: GameReport): (fs: seq<Field>)
    requires |g.holes| == 18
    ensures |fs| == 14 + 4 * 18
  {
    U32s(GameWordsFixed(g)) + [I8(g.halfwayScore), I8(g.score)] + WriteHoles(g.holes)
  }

  /** The twelve words and two scores that open a game report. */
  const GameHeadLayout: seq<Kind> := Repeat(KU32, 12) + [KI8, KI8]

  /** Twelve `u32`s and two `i8`s open the sequence. */
  predicate IsGameHead(fs: seq<Field>) {
    |fs| >= 14 && (forall i :: 0 <= i < 12 ==> fs[i].U32?) && fs[12].I8? && fs[13].I8?
  }

  /** The twelve words of a game head. */
  function HeadWords(fs: seq<Field>): (ws: seq<bv32>)
    requires IsGameHead(fs)
    ensures |ws| == 12
  {
    seq(12, i requires 0 <= i < 12 => fs[i].u32)
  }

  /** `GameReport::read`: the head, then 18 hole reports. */
  function ReadGame(fs: seq<Field>): (r: Result<GameReport, DekuError>)
    ensures r.Ok? <==> IsGameHead(fs) && ReadHoles(fs[14..], 18).Ok?
    ensures r.Ok? ==> |r.value.holes| == 18
    ensures r.Err? ==> r.error == Incomplete
  {
    if !IsGameHead(fs) then
      Err(Incomplete)
    else
      var holes :- ReadHoles(fs[14..], 18);
      Ok(DecodeGame(HeadWords(fs), fs[12].i8, fs[13].i8, holes))
  }

  /** `GameReport::read` with the corrected word 9. */
  function ReadGameFixed(fs: seq<Field>): (r: Result<GameReport, DekuError>)
    ensures r.Ok? <==> IsGameHead(fs) && ReadHoles(fs[14..], 18).Ok?
    ensures r.Ok? ==> |r.value.holes| == 18
    ensures r.Err? ==> r.error == Incomplete
  {
    if !IsGameHead(fs) then
      Err(Incomplete)
    else
      var holes :- ReadHoles(fs[14..], 18);
      Ok(DecodeGameFixed(HeadWords(fs), fs[12].i8, fs[13].i8, holes))
  }

  /** The head check is exactly the head layout. */
  lemma GameHeadIsLayout(fs: seq<Field>)
    ensures IsGameHead(fs) <==> |fs| >= 14 && Kinds(fs[..14]) == GameHeadLayout
  {
    if |fs| >= 14 {
      var ks := Kinds(fs[..14]);
      if IsGameHead(fs) {
        assert forall i :: 0 <= i < 14 ==> ks[i] == GameHeadLayout[i];
      }
      if ks == GameHeadLayout {
        assert forall i :: 0 <= i < 12 ==> KindOf(fs[i]) == ks[i] == KU32;
        assert KindOf(fs[12]) == ks[12] && KindOf(fs[13]) == ks[13];
      }
    }
  }

  /** The counters unpacked from the twelve words; pin shots are the seven
      bits from bit 22, as written. */
  function DecodeGame(ws: seq<bv32>, halfwayScore: i8, score: i8, holes: seq<HoleReport>): GameReport
    requires |ws| == 12
  {
    GameReport(
      outcome := FromU32(Mask(ws[0], 7)),
      numStrokes := SubField(ws[0], 3, 0xFF),
      numCupIns := SubField(ws[0], 11, 0x1F),
      maximumDistance := Mask(ws[1], 0x3FFFF),
      longestPuttDistance := High(ws[1], 18),
      maximumTipInDistance := Mask(ws[2], 0x3FFFF),
      numPutts := SubField(ws[2], 18, 0x7F),
      numNiceShots := High(ws[2], 25),
      numTipIns := Mask(ws[3], 0x1F),
      numFairwayKeep := SubField(ws[3], 5, 0xFF),
      numOb := SubField(ws[3], 13, 0x3F),
      numWaterHazard := SubField(ws[3], 19, 0x3F),
      num4OrMore := SubField(ws[3], 25, 0x1F),
      numTBogeys := Mask(ws[4], 0x1F),
      numDBogeys := SubField(ws[4], 5, 0x1F),
      numBogeys := SubField(ws[4], 10, 0x1F),
      numPars := SubField(ws[4], 15, 0x1F),
      numBirdies := SubField(ws[4], 20, 0x1F),
      numEagles := SubField(ws[4], 25, 0xF),
      numAlbatross := High(ws[4], 29),
      numHoleInOnes := Mask(ws[5], 7),
      numTotalDistance := SubField(ws[5], 3, 0x3FFFF),
      playTime := Mask(ws[6], 0x3FFF),
      obtainedGpRound := SubField(ws[6], 14, 0x7FFF),
      obtainedGpAll := Mask(ws[7], 0x7FFF),
      acquiredExperience := SubField(ws[7], 15, 0xFF),
      numDirectTipIns := SubField(ws[7], 23, 0x1F),
      numRough := Mask(ws[8], 0xFF),
      numBunkers := SubField(ws[8], 8, 0x7F),
      numObstacleHits := SubField(ws[8], 15, 0x7F),
      numPinshots := SubField(ws[8], 22, 0x7F),
      numFlagWraps := High(ws[8], 27),
      numConsumableItemUsage := Mask(ws[9], 0xFF),
      longestTeeShot := SubField(ws[9], 8, 0x3FFFF),
      totalPuttDistanceAtCupIn := Mask(ws[10], 0xFFFF),
      numTopOrBackspinSuccesses := SubField(ws[10], 16, 0x7F),
      numFadeOrDrawUsage := SubField(ws[10], 23, 0x7F),
      numClubsUsed := Mask(ws[11], 0xF),
      numTimesCooperatingWithCaddy := SubField(ws[11], 4, 0x7F),
      numSpecialShotsUsed := SubField(ws[11], 11, 0x1F),
      vsRank := SubField(ws[11], 16, 7),
      halfwayScore := halfwayScore,
      score := score,
      holes := holes)
  }

  /** The counters unpacked with the corrected five-bit pin-shot field. */
  function DecodeGameFixed(ws: seq<bv32>, halfwayScore: i8, score: i8, holes: seq<HoleReport>): GameReport
    requires |ws| == 12
  {
    DecodeGame(ws, halfwayScore, score, holes).(numPinshots := SubField(ws[8], 22, 0x1F))
  }

  /** Each counter cut to the width the wire keeps, each hole cut likewise;
      the two bits that pin shots and flag wraps share in word 9 (bits 5..6 of
      the one, bits 0..1 of the other) come back merged into both. */
  function TruncateGame(g: GameReport): GameReport {
    GameReport(
      g.outcome,
      Mask(g.numStrokes, 0xFF),
      Mask(g.numCupIns, 0x1F),
      Mask(g.maximumDistance, 0x3FFFF),
      Mask(g.longestPuttDistance, 0x3FFF),
      Mask(g.maximumTipInDistance, 0x3FFFF),
      Mask(g.numPutts, 0x7F),
      Mask(g.numNiceShots, 0x7F),
      Mask(g.numTipIns, 0x1F),
      Mask(g.numFairwayKeep, 0xFF),
      Mask(g.numOb, 0x3F),
      Mask(g.numWaterHazard, 0x3F),
      Mask(g.num4OrMore, 0x1F),
      Mask(g.numTBogeys, 0x1F),
      Mask(g.numDBogeys, 0x1F),
      Mask(g.numBogeys, 0x1F),
      Mask(g.numPars, 0x1F),
      Mask(g.numBirdies, 0x1F),
      Mask(g.numEagles, 0xF),
      Mask(g.numAlbatross, 7),
      Mask(g.numHoleInOnes, 7),
      Mask(g.numTotalDistance, 0x3FFFF),
      Mask(g.playTime, 0x3FFF),
      Mask(g.obtainedGpRound, 0x7FFF),
      Mask(g.obtainedGpAll, 0x7FFF),
      Mask(g.acquiredExperience, 0xFF),
      Mask(g.numDirectTipIns, 0x1F),
      Mask(g.numRough, 0xFF),
      Mask(g.numBunkers, 0x7F),
      Mask(g.numObstacleHits, 0x7F),
      Mask(g.numPinshots, 0x7F) | (Mask(g.numFlagWraps, 3) << 5),
      Mask(g.numFlagWraps, 0x1F) | SubField(g.numPinshots, 5, 3),
      Mask(g.numConsumableItemUsage, 0xFF),
      Mask(g.longestTeeShot, 0x3FFFF),
      Mask(g.totalPuttDistanceAtCupIn, 0xFFFF),
      Mask(g.numTopOrBackspinSuccesses, 0x7F),
      Mask(g.numFadeOrDrawUsage, 0x7F),
      Mask(g.numClubsUsed, 0xF),
      Mask(g.numTimesCooperatingWithCaddy, 0x7F),
      Mask(g.numSpecialShotsUsed, 0x1F),
      Mask(g.vsRank, 7),
      g.halfwayScore, g.score, TruncateHoles(g.holes))
  }

  /** The cut to width that the corrected word 9 makes: pin shots and flag
      wraps are each cut to five bits. */
  function TruncateGameFixed(g: GameReport): GameReport {
    TruncateGame(g).(numPinshots := Mask(g.numPinshots, 0x1F), numFlagWraps := Mask(g.numFlagWraps, 0x1F))
  }

  /** Every counter outside the pin shots and flag wraps fits its width, and
      every hole fits. */
  predicate CountersFit(g: GameReport) {
    (forall i :: 0 <= i < |g.holes| ==> HoleFits(g.holes[i]))
    && Mask(g.numStrokes, 0xFF) == g.numStrokes && Mask(g.numCupIns, 0x1F) == g.numCupIns
    && Mask(g.maximumDistance, 0x3FFFF) == g.maximumDistance && Mask(g.longestPuttDistance, 0x3FFF) == g.longestPuttDistance
    && Mask(g.maximumTipInDistance, 0x3FFFF) == g.maximumTipInDistance && Mask(g.numPutts, 0x7F) == g.numPutts
    && Mask(g.numNiceShots, 0x7F) == g.numNiceShots && Mask(g.numTipIns, 0x1F) == g.numTipIns
    && Mask(g.numFairwayKeep, 0xFF) == g.numFairwayKeep && Mask(g.numOb, 0x3F) == g.numOb
    && Mask(g.numWaterHazard, 0x3F) == g.numWaterHazard && Mask(g.num4OrMore, 0x1F) == g.num4OrMore
    && Mask(g.numTBogeys, 0x1F) == g.numTBogeys && Mask(g.numDBogeys, 0x1F) == g.numDBogeys
    && Mask(g.numBogeys, 0x1F) == g.numBogeys && Mask(g.numPars, 0x1F) == g.numPars
    && Mask(g.numBirdies, 0x1F) == g.numBirdies && Mask(g.numEagles, 0xF) == g.numEagles
    && Mask(g.numAlbatross, 7) == g.numAlbatross && Mask(g.numHoleInOnes, 7) == g.numHoleInOnes
    && Mask(g.numTotalDistance, 0x3FFFF) == g.numTotalDistance && Mask(g.playTime, 0x3FFF) == g.playTime
    && Mask(g.obtainedGpRound, 0x7FFF) == g.obtainedGpRound && Mask(g.obtainedGpAll, 0x7FFF) == g.obtainedGpAll
    && Mask(g.acquiredExperience, 0xFF) == g.acquiredExperience && Mask(g.numDirectTipIns, 0x1F) == g.numDirectTipIns
    && Mask(g.numRough, 0xFF) == g.numRough && Mask(g.numBunkers, 0x7F) == g.numBunkers
    && Mask(g.numObstacleHits, 0x7F) == g.numObstacleHits && Mask(g.numConsumableItemUsage, 0xFF) == g.numConsumableItemUsage
    && Mask(g.longestTeeShot, 0x3FFFF) == g.longestTeeShot && Mask(g.totalPuttDistanceAtCupIn, 0xFFFF) == g.totalPuttDistanceAtCupIn
    && Mask(g.numTopOrBackspinSuccesses, 0x7F) == g.numTopOrBackspinSuccesses && Mask(g.numFadeOrDrawUsage, 0x7F) == g.numFadeOrDrawUsage
    && Mask(g.numClubsUsed, 0xF) == g.numClubsUsed && Mask(g.numTimesCooperatingWithCaddy, 0x7F) == g.numTimesCooperatingWithCaddy
    && Mask(g.numSpecialShotsUsed, 0x1F) == g.numSpecialShotsUsed && Mask(g.vsRank, 7) == g.vsRank
  }

  /** What survives the code as written: every counter fits its width, and
      the two bits pin shots and flag wraps share in word 9 agree. */
  predicate GameFits(g: GameReport) {
    && CountersFit(g)
    && Mask(g.numPinshots, 0x7F) == g.numPinshots && Mask(g.numFlagWraps, 0x1F) == g.numFlagWraps
    && SubField(g.numPinshots, 5, 3) == Mask(g.numFlagWraps, 3)
  }

  /** What survives the corrected word 9: every counter fits its width. */
  predicate GameFitsFixed(g: GameReport) {
    && CountersFit(g)
    && Mask(g.numPinshots, 0x1F) == g.numPinshots && Mask(g.numFlagWraps, 0x1F) == g.numFlagWraps
  }

  /** Two game reports agreeing field by field are equal. */
  lemma GameFieldwiseEqual(a: GameReport, b: GameReport)
    requires a.outcome == b.outcome && a.numStrokes == b.numStrokes && a.numCupIns == b.numCupIns
    requires a.maximumDistance == b.maximumDistance && a.longestPuttDistance == b.longestPuttDistance && a.maximumTipInDistance == b.maximumTipInDistance
    requires a.numPutts == b.numPutts && a.numNiceShots == b.numNiceShots && a.numTipIns == b.numTipIns
    requires a.numFairwayKeep == b.numFairwayKeep && a.numOb == b.numOb && a.numWaterHazard == b.numWaterHazard
    requires a.num4OrMore == b.num4OrMore && a.numTBogeys == b.numTBogeys && a.numDBogeys == b.numDBogeys
    requires a.numBogeys == b.numBogeys && a.numPars == b.numPars && a.numBirdies == b.numBirdies
    requires a.numEagles == b.numEagles && a.numAlbatross == b.numAlbatross && a.numHoleInOnes == b.numHoleInOnes
    requires a.numTotalDistance == b.numTotalDistance && a.playTime == b.playTime && a.obtainedGpRound == b.obtainedGpRound
    requires a.obtainedGpAll == b.obtainedGpAll && a.acquiredExperience == b.acquiredExperience && a.numDirectTipIns == b.numDirectTipIns
    requires a.numRough == b.numRough && a.numBunkers == b.numBunkers && a.numObstacleHits == b.numObstacleHits
    requires a.numPinshots == b.numPinshots && a.numFlagWraps == b.numFlagWraps && a.numConsumableItemUsage == b.numConsumableItemUsage
    requires a.longestTeeShot == b.longestTeeShot && a.totalPuttDistanceAtCupIn == b.totalPuttDistanceAtCupIn && a.numTopOrBackspinSuccesses == b.numTopOrBackspinSuccesses
    requires a.numFadeOrDrawUsage == b.numFadeOrDrawUsage && a.numClubsUsed == b.numClubsUsed && a.numTimesCooperatingWithCaddy == b.numTimesCooperatingWithCaddy
    requires a.numSpecialShotsUsed == b.numSpecialShotsUsed && a.vsRank == b.vsRank && a.halfwayScore == b.halfwayScore
    requires a.score == b.score && a.holes == b.holes
    ensures a == b
  {
  }

  lemma TruncateGameFields(g: GameReport)
    ensures TruncateGame(g).outcome == g.outcome
    ensures TruncateGame(g).numStrokes == Mask(g.numStrokes, 0xFF)
    ensures TruncateGame(g).numCupIns == Mask(g.numCupIns, 0x1F)
    ensures TruncateGame(g).maximumDistance == Mask(g.maximumDistance, 0x3FFFF)
    ensures TruncateGame(g).longestPuttDistance == Mask(g.longestPuttDistance, 0x3FFF)
    ensures TruncateGame(g).maximumTipInDistance == Mask(g.maximumTipInDistance, 0x3FFFF)
    ensures TruncateGame(g).numPutts == Mask(g.numPutts, 0x7F)
    ensures TruncateGame(g).numNiceShots == Mask(g.numNiceShots, 0x7F)
    ensures TruncateGame(g).numTipIns == Mask(g.numTipIns, 0x1F)
    ensures TruncateGame(g).numFairwayKeep == Mask(g.numFairwayKeep, 0xFF)
    ensures TruncateGame(g).numOb == Mask(g.numOb, 0x3F)
    ensures TruncateGame(g).numWaterHazard == Mask(g.numWaterHazard, 0x3F)
    ensures TruncateGame(g).num4OrMore == Mask(g.num4OrMore, 0x1F)
    ensures TruncateGame(g).numTBogeys == Mask(g.numTBogeys, 0x1F)
    ensures TruncateGame(g).numDBogeys == Mask(g.numDBogeys, 0x1F)
    ensures TruncateGame(g).numBogeys == Mask(g.numBogeys, 0x1F)
    ensures TruncateGame(g).numPars == Mask(g.numPars, 0x1F)
    ensures TruncateGame(g).numBirdies == Mask(g.numBirdies, 0x1F)
    ensures TruncateGame(g).numEagles == Mask(g.numEagles, 0xF)
    ensures TruncateGame(g).numAlbatross == Mask(g.numAlbatross, 7)
    ensures TruncateGame(g).numHoleInOnes == Mask(g.numHoleInOnes, 7)
    ensures TruncateGame(g).numTotalDistance == Mask(g.numTotalDistance, 0x3FFFF)
    ensures TruncateGame(g).playTime == Mask(g.playTime, 0x3FFF)
    ensures TruncateGame(g).obtainedGpRound == Mask(g.obtainedGpRound, 0x7FFF)
    ensures TruncateGame(g).obtainedGpAll == Mask(g.obtainedGpAll, 0x7FFF)
    ensures TruncateGame(g).acquiredExperience == Mask(g.acquiredExperience, 0xFF)
    ensures TruncateGame(g).numDirectTipIns == Mask(g.numDirectTipIns, 0x1F)
    ensures TruncateGame(g).numRough == Mask(g.numRough, 0xFF)
    ensures TruncateGame(g).numBunkers == Mask(g.numBunkers, 0x7F)
    ensures TruncateGame(g).numObstacleHits == Mask(g.numObstacleHits, 0x7F)
    ensures TruncateGame(g).numConsumableItemUsage == Mask(g.numConsumableItemUsage, 0xFF)
    ensures TruncateGame(g).longestTeeShot == Mask(g.longestTeeShot, 0x3FFFF)
    ensures TruncateGame(g).totalPuttDistanceAtCupIn == Mask(g.totalPuttDistanceAtCupIn, 0xFFFF)
    ensures TruncateGame(g).numTopOrBackspinSuccesses == Mask(g.numTopOrBackspinSuccesses, 0x7F)
    ensures TruncateGame(g).numFadeOrDrawUsage == Mask(g.numFadeOrDrawUsage, 0x7F)
    ensures TruncateGame(g).numClubsUsed == Mask(g.numClubsUsed, 0xF)
    ensures TruncateGame(g).numTimesCooperatingWithCaddy == Mask(g.numTimesCooperatingWithCaddy, 0x7F)
    ensures TruncateGame(g).numSpecialShotsUsed == Mask(g.numSpecialShotsUsed, 0x1F)
    ensures TruncateGame(g).vsRank == Mask(g.vsRank, 7)
    ensures TruncateGame(g).halfwayScore == g.halfwayScore && TruncateGame(g).score == g.score
    ensures TruncateGame(g).holes == TruncateHoles(g.holes)
  {
  }

  lemma TruncateGameShared(g: GameReport)
    ensures TruncateGame(g).numPinshots == Mask(g.numPinshots, 0x7F) | (Mask(g.numFlagWraps, 3) << 5)
    ensures TruncateGame(g).numFlagWraps == Mask(g.numFlagWraps, 0x1F) | SubField(g.numPinshots, 5, 3)
  {
  }

  /** The report decoded from its own words, with its holes cut to width. */
  function Reread(g: GameReport): GameReport {
    DecodeGame(GameWords(g), g.halfwayScore, g.score, TruncateHoles(g.holes))
  }

  lemma DecodeGameWords(g: GameReport)
    ensures Reread(g) == TruncateGame(g)
  {
    RereadWord1(g);
    RereadWord2(g);
    RereadWord3(g);
    RereadWord4(g);
    RereadWord5(g);
    RereadWord6(g);
    RereadWord7(g);
    RereadWord8(g);
    RereadWord9(g);
    RereadWord10(g);
    RereadWord11(g);
    RereadWord12(g);
    TruncateGameFields(g);
    TruncateGameShared(g);
    GameFieldwiseEqual(Reread(g), TruncateGame(g));
  }

  lemma RereadWord1(g: GameReport)
    ensures Reread(g).outcome == g.outcome
    ensures Reread(g).numStrokes == Mask(g.numStrokes, 0xFF)
    ensures Reread(g).numCupIns == Mask(g.numCupIns, 0x1F)
  {
    GameWord1Fields(g.outcome, g.numStrokes, g.numCupIns);
  }

  lemma RereadWord2(g: GameReport)
    ensures Reread(g).maximumDistance == Mask(g.maximumDistance, 0x3FFFF)
    ensures Reread(g).longestPuttDistance == Mask(g.longestPuttDistance, 0x3FFF)
  {
    GameWord2Fields(g.maximumDistance, g.longestPuttDistance);
  }

  lemma RereadWord3(g: GameReport)
    ensures Reread(g).maximumTipInDistance == Mask(g.maximumTipInDistance, 0x3FFFF)
    ensures Reread(g).numPutts == Mask(g.numPutts, 0x7F)
    ensures Reread(g).numNiceShots == Mask(g.numNiceShots, 0x7F)
  {
    GameWord3Fields(g.maximumTipInDistance, g.numPutts, g.numNiceShots);
  }

  lemma RereadWord4(g: GameReport)
    ensures Reread(g).numTipIns == Mask(g.numTipIns, 0x1F)
    ensures Reread(g).numFairwayKeep == Mask(g.numFairwayKeep, 0xFF)
    ensures Reread(g).numOb == Mask(g.numOb, 0x3F)
    ensures Reread(g).numWaterHazard == Mask(g.numWaterHazard, 0x3F)
    ensures Reread(g).num4OrMore == Mask(g.num4OrMore, 0x1F)
  {
    GameWord4Fields(g.numTipIns, g.numFairwayKeep, g.numOb, g.numWaterHazard, g.num4OrMore);
  }

  lemma RereadWord5(g: GameReport)
    ensures Reread(g).numTBogeys == Mask(g.numTBogeys, 0x1F)
    ensures Reread(g).numDBogeys == Mask(g.numDBogeys, 0x1F)
    ensures Reread(g).numBogeys == Mask(g.numBogeys, 0x1F)
    ensures Reread(g).numPars == Mask(g.numPars, 0x1F)
    ensures Reread(g).numBirdies == Mask(g.numBirdies, 0x1F)
    ensures Reread(g).numEagles == Mask(g.numEagles, 0xF)
    ensures Reread(g).numAlbatross == Mask(g.numAlbatross, 7)
  {
    GameWord5Fields(g.numTBogeys, g.numDBogeys, g.numBogeys, g.numPars, g.numBirdies, g.numEagles, g.numAlbatross);
  }

  lemma RereadWord6(g: GameReport)
    ensures Reread(g).numHoleInOnes == Mask(g.numHoleInOnes, 7)
    ensures Reread(g).numTotalDistance == Mask(g.numTotalDistance, 0x3FFFF)
  {
    GameWord6Fields(g.numHoleInOnes, g.numTotalDistance);
  }

  lemma RereadWord7(g: GameReport)
    ensures Reread(g).playTime == Mask(g.playTime, 0x3FFF)
    ensures Reread(g).obtainedGpRound == Mask(g.obtainedGpRound, 0x7FFF)
  {
    GameWord7Fields(g.playTime, g.obtainedGpRound);
  }

  lemma RereadWord8(g: GameReport)
    ensures Reread(g).obtainedGpAll == Mask(g.obtainedGpAll, 0x7FFF)
    ensures Reread(g).acquiredExperience == Mask(g.acquiredExperience, 0xFF)
    ensures Reread(g).numDirectTipIns == Mask(g.numDirectTipIns, 0x1F)
  {
    GameWord8Fields(g.obtainedGpAll, g.acquiredExperience, g.numDirectTipIns);
  }

  lemma RereadWord9(g: GameReport)
    ensures Reread(g).numRough == Mask(g.numRough, 0xFF)
    ensures Reread(g).numBunkers == Mask(g.numBunkers, 0x7F)
    ensures Reread(g).numObstacleHits == Mask(g.numObstacleHits, 0x7F)
    ensures Reread(g).numPinshots == Mask(g.numPinshots, 0x7F) | (Mask(g.numFlagWraps, 3) << 5)
    ensures Reread(g).numFlagWraps == Mask(g.numFlagWraps, 0x1F) | SubField(g.numPinshots, 5, 3)
  {
    GameWord9Fields(g.numRough, g.numBunkers, g.numObstacleHits, g.numPinshots, g.numFlagWraps);
  }

  lemma RereadWord10(g: GameReport)
    ensures Reread(g).numConsumableItemUsage == Mask(g.numConsumableItemUsage, 0xFF)
    ensures Reread(g).longestTeeShot == Mask(g.longestTeeShot, 0x3FFFF)
  {
    GameWord10Fields(g.numConsumableItemUsage, g.longestTeeShot);
  }

  lemma RereadWord11(g: GameReport)
    ensures Reread(g).totalPuttDistanceAtCupIn == Mask(g.totalPuttDistanceAtCupIn, 0xFFFF)
    ensures Reread(g).numTopOrBackspinSuccesses == Mask(g.numTopOrBackspinSuccesses, 0x7F)
    ensures Reread(g).numFadeOrDrawUsage == Mask(g.numFadeOrDrawUsage, 0x7F)
  {
    GameWord11Fields(g.totalPuttDistanceAtCupIn, g.numTopOrBackspinSuccesses, g.numFadeOrDrawUsage);
  }

  lemma RereadWord12(g: GameReport)
    ensures Reread(g).numClubsUsed == Mask(g.numClubsUsed, 0xF)
    ensures Reread(g).numTimesCooperatingWithCaddy == Mask(g.numTimesCooperatingWithCaddy, 0x7F)
    ensures Reread(g).numSpecialShotsUsed == Mask(g.numSpecialShotsUsed, 0x1F)
    ensures Reread(g).vsRank == Mask(g.vsRank, 7)
  {
    GameWord12Fields(g.numClubsUsed, g.numTimesCooperatingWithCaddy, g.numSpecialShotsUsed, g.vsRank);
  }

  lemma GameWord1Fields(outcome: Outcome, numStrokes: bv32, numCupIns: bv32)
    ensures FromU32(Mask(GameWord1(outcome, numStrokes, numCupIns), 7)) == outcome
    ensures SubField(GameWord1(outcome, numStrokes, numCupIns), 3, 0xFF) == Mask(numStrokes, 0xFF)
    ensures SubField(GameWord1(outcome, numStrokes, numCupIns), 11, 0x1F) == Mask(numCupIns, 0x1F)
  {
    OutcomeInWord1(outcome, numStrokes, numCupIns);
    NumStrokesInWord1(outcome, numStrokes, numCupIns);
    NumCupInsInWord1(outcome, numStrokes, numCupIns);
  }

  lemma OutcomeInWord1(outcome: Outcome, numStrokes: bv32, numCupIns: bv32)
    ensures FromU32(Mask(GameWord1(outcome, numStrokes, numCupIns), 7)) == outcome
  {
    var o := ToU32(outcome);
    assert (o | ((numStrokes & 0xFF) << 3) | ((numCupIns & 0x1F) << 11)) & 7 == o;
  }

  lemma NumStrokesInWord1(outcome: Outcome, numStrokes: bv32, numCupIns: bv32)
    ensures SubField(GameWord1(outcome, numStrokes, numCupIns), 3, 0xFF) == Mask(numStrokes, 0xFF)
  {
  }

  lemma NumCupInsInWord1(outcome: Outcome, numStrokes: bv32, numCupIns: bv32)
    ensures SubField(GameWord1(outcome, numStrokes, numCupIns), 11, 0x1F) == Mask(numCupIns, 0x1F)
  {
  }

  lemma GameWord2Fields(maximumDistance: bv32, longestPuttDistance: bv32)
    ensures Mask(GameWord2(maximumDistance, longestPuttDistance), 0x3FFFF) == Mask(maximumDistance, 0x3FFFF)
    ensures High(GameWord2(maximumDistance, longestPuttDistance), 18) == Mask(longestPuttDistance, 0x3FFF)
  {
  }

  lemma GameWord3Fields(maximumTipInDistance: bv32, numPutts: bv32, numNiceShots: bv32)
    ensures Mask(GameWord3(maximumTipInDistance, numPutts, numNiceShots), 0x3FFFF) == Mask(maximumTipInDistance, 0x3FFFF)
    ensures SubField(GameWord3(maximumTipInDistance, numPutts, numNiceShots), 18, 0x7F) == Mask(numPutts, 0x7F)
    ensures High(GameWord3(maximumTipInDistance, numPutts, numNiceShots), 25) == Mask(numNiceShots, 0x7F)
  {
    MaximumTipInDistanceInWord3(maximumTipInDistance, numPutts, numNiceShots);
    NumPuttsInWord3(maximumTipInDistance, numPutts, numNiceShots);
    NumNiceShotsInWord3(maximumTipInDistance, numPutts, numNiceShots);
  }

  lemma MaximumTipInDistanceInWord3(maximumTipInDistance: bv32, numPutts: bv32, numNiceShots: bv32)
    ensures Mask(GameWord3(maximumTipInDistance, numPutts, numNiceShots), 0x3FFFF) == Mask(maximumTipInDistance, 0x3FFFF)
  {
    var putts, nice := (numPutts & 0x7F) << 18, numNiceShots << 25;
    assert putts & 0x3FFFF == 0 && nice & 0x3FFFF == 0;
    assert ((maximumTipInDistance & 0x3FFFF) | putts | nice) & 0x3FFFF
        == (maximumTipInDistance & 0x3FFFF) | (putts & 0x3FFFF) | (nice & 0x3FFFF);
  }

  lemma NumPuttsInWord3(maximumTipInDistance: bv32, numPutts: bv32, numNiceShots: bv32)
    ensures SubField(GameWord3(maximumTipInDistance, numPutts, numNiceShots), 18, 0x7F) == Mask(numPutts, 0x7F)
  {
  }

  lemma NumNiceShotsInWord3(maximumTipInDistance: bv32, numPutts: bv32, numNiceShots: bv32)
    ensures High(GameWord3(maximumTipInDistance, numPutts, numNiceShots), 25) == Mask(numNiceShots, 0x7F)
  {
  }

  lemma GameWord4Fields(numTipIns: bv32, numFairwayKeep: bv32, numOb: bv32, numWaterHazard: bv32, num4OrMore: bv32)
    ensures Mask(GameWord4(numTipIns, numFairwayKeep, numOb, numWaterHazard, num4OrMore), 0x1F) == Mask(numTipIns, 0x1F)
    ensures SubField(GameWord4(numTipIns, numFairwayKeep, numOb, numWaterHazard, num4OrMore), 5, 0xFF) == Mask(numFairwayKeep, 0xFF)
    ensures SubField(GameWord4(numTipIns, numFairwayKeep, numOb, numWaterHazard, num4OrMore), 13, 0x3F) == Mask(numOb, 0x3F)
    ensures SubField(GameWord4(numTipIns, numFairwayKeep, numOb, numWaterHazard, num4OrMore), 19, 0x3F) == Mask(numWaterHazard, 0x3F)
    ensures SubField(GameWord4(numTipIns, numFairwayKeep, numOb, numWaterHazard, num4OrMore), 25, 0x1F) == Mask(num4OrMore, 0x1F)
  {
    NumTipInsInWord4(numTipIns, numFairwayKeep, numOb, numWaterHazard, num4OrMore);
    NumFairwayKeepInWord4(numTipIns, numFairwayKeep, numOb, numWaterHazard, num4OrMore);
    NumObInWord4(numTipIns, numFairwayKeep, numOb, numWaterHazard, num4OrMore);
    NumWaterHazardInWord4(numTipIns, numFairwayKeep, numOb, numWaterHazard, num4OrMore);
    Num4OrMoreInWord4(numTipIns, numFairwayKeep, numOb, numWaterHazard, num4OrMore);
  }

  lemma NumTipInsInWord4(numTipIns: bv32, numFairwayKeep: bv32, numOb: bv32, numWaterHazard: bv32, num4OrMore: bv32)
    ensures Mask(GameWord4(numTipIns, numFairwayKeep, numOb, numWaterHazard, num4OrMore), 0x1F) == Mask(numTipIns, 0x1F)
  {
  }

  lemma NumFairwayKeepInWord4(numTipIns: bv32, numFairwayKeep: bv32, numOb: bv32, numWaterHazard: bv32, num4OrMore: bv32)
    ensures SubField(GameWord4(numTipIns, numFairwayKeep, numOb, numWaterHazard, num4OrMore), 5, 0xFF) == Mask(numFairwayKeep, 0xFF)
  {
  }

  lemma NumObInWord4(numTipIns: bv32, numFairwayKeep: bv32, numOb: bv32, numWaterHazard: bv32, num4OrMore: bv32)
    ensures SubField(GameWord4(numTipIns, numFairwayKeep, numOb, numWaterHazard, num4OrMore), 13, 0x3F) == Mask(numOb, 0x3F)
  {
  }

  lemma NumWaterHazardInWord4(numTipIns: bv32, numFairwayKeep: bv32, numOb: bv32, numWaterHazard: bv32, num4OrMore: bv32)
    ensures SubField(GameWord4(numTipIns, numFairwayKeep, numOb, numWaterHazard, num4OrMore), 19, 0x3F) == Mask(numWaterHazard, 0x3F)
  {
  }

  lemma Num4OrMoreInWord4(numTipIns: bv32, numFairwayKeep: bv32, numOb: bv32, numWaterHazard: bv32, num4OrMore: bv32)
    ensures SubField(GameWord4(numTipIns, numFairwayKeep, numOb, numWaterHazard, num4OrMore), 25, 0x1F) == Mask(num4OrMore, 0x1F)
  {
  }

  lemma GameWord5Fields(numTBogeys: bv32, numDBogeys: bv32, numBogeys: bv32, numPars: bv32, numBirdies: bv32, numEagles: bv32, numAlbatross: bv32)
    ensures Mask(GameWord5(numTBogeys, numDBogeys, numBogeys, numPars, numBirdies, numEagles, numAlbatross), 0x1F) == Mask(numTBogeys, 0x1F)
    ensures SubField(GameWord5(numTBogeys, numDBogeys, numBogeys, numPars, numBirdies, numEagles, numAlbatross), 5, 0x1F) == Mask(numDBogeys, 0x1F)
    ensures SubField(GameWord5(numTBogeys, numDBogeys, numBogeys, numPars, numBirdies, numEagles, numAlbatross), 10, 0x1F) == Mask(numBogeys, 0x1F)
    ensures SubField(GameWord5(numTBogeys, numDBogeys, numBogeys, numPars, numBirdies, numEagles, numAlbatross), 15, 0x1F) == Mask(numPars, 0x1F)
    ensures SubField(GameWord5(numTBogeys, numDBogeys, numBogeys, numPars, numBirdies, numEagles, numAlbatross), 20, 0x1F) == Mask(numBirdies, 0x1F)
    ensures SubField(GameWord5(numTBogeys, numDBogeys, numBogeys, numPars, numBirdies, numEagles, numAlbatross), 25, 0xF) == Mask(numEagles, 0xF)
    ensures High(GameWord5(numTBogeys, numDBogeys, numBogeys, numPars, numBirdies, numEagles, numAlbatross), 29) == Mask(numAlbatross, 7)
  {
    NumTBogeysInWord5(numTBogeys, numDBogeys, numBogeys, numPars, numBirdies, numEagles, numAlbatross);
    NumDBogeysInWord5(numTBogeys, numDBogeys, numBogeys, numPars, numBirdies, numEagles, numAlbatross);
    NumBogeysInWord5(numTBogeys, numDBogeys, numBogeys, numPars, numBirdies, numEagles, numAlbatross);
    NumParsInWord5(numTBogeys, numDBogeys, numBogeys, numPars, numBirdies, numEagles, numAlbatross);
    NumBirdiesInWord5(numTBogeys, numDBogeys, numBogeys, numPars, numBirdies, numEagles, numAlbatross);
    NumEaglesInWord5(numTBogeys, numDBogeys, numBogeys, numPars, numBirdies, numEagles, numAlbatross);
    NumAlbatrossInWord5(numTBogeys, numDBogeys, numBogeys, numPars, numBirdies, numEagles, numAlbatross);
  }

  lemma NumTBogeysInWord5(numTBogeys: bv32, numDBogeys: bv32, numBogeys: bv32, numPars: bv32, numBirdies: bv32, numEagles: bv32, numAlbatross: bv32)
    ensures Mask(GameWord5(numTBogeys, numDBogeys, numBogeys, numPars, numBirdies, numEagles, numAlbatross), 0x1F) == Mask(numTBogeys, 0x1F)
  {
  }

  lemma NumDBogeysInWord5(numTBogeys: bv32, numDBogeys: bv32, numBogeys: bv32, numPars: bv32, numBirdies: bv32, numEagles: bv32, numAlbatross: bv32)
    ensures SubField(GameWord5(numTBogeys, numDBogeys, numBogeys, numPars, numBirdies, numEagles, numAlbatross), 5, 0x1F) == Mask(numDBogeys, 0x1F)
  {
  }

  lemma NumBogeysInWord5(numTBogeys: bv32, numDBogeys: bv32, numBogeys: bv32, numPars: bv32, numBirdies: bv32, numEagles: bv32, numAlbatross: bv32)
    ensures SubField(GameWord5(numTBogeys, numDBogeys, numBogeys, numPars, numBirdies, numEagles, numAlbatross), 10, 0x1F) == Mask(numBogeys, 0x1F)
  {
  }

  lemma NumParsInWord5(numTBogeys: bv32, numDBogeys: bv32, numBogeys: bv32, numPars: bv32, numBirdies: bv32, numEagles: bv32, numAlbatross: bv32)
    ensures SubField(GameWord5(numTBogeys, numDBogeys, numBogeys, numPars, numBirdies, numEagles, numAlbatross), 15, 0x1F) == Mask(numPars, 0x1F)
  {
  }

  lemma NumBirdiesInWord5(numTBogeys: bv32, numDBogeys: bv32, numBogeys: bv32, numPars: bv32, numBirdies: bv32, numEagles: bv32, numAlbatross: bv32)
    ensures SubField(GameWord5(numTBogeys, numDBogeys, numBogeys, numPars, numBirdies, numEagles, numAlbatross), 20, 0x1F) == Mask(numBirdies, 0x1F)
  {
  }

  lemma NumEaglesInWord5(numTBogeys: bv32, numDBogeys: bv32, numBogeys: bv32, numPars: bv32, numBirdies: bv32, numEagles: bv32, numAlbatross: bv32)
    ensures SubField(GameWord5(numTBogeys, numDBogeys, numBogeys, numPars, numBirdies, numEagles, numAlbatross), 25, 0xF) == Mask(numEagles, 0xF)
  {
  }

  lemma NumAlbatrossInWord5(numTBogeys: bv32, numDBogeys: bv32, numBogeys: bv32, numPars: bv32, numBirdies: bv32, numEagles: bv32, numAlbatross: bv32)
    ensures High(GameWord5(numTBogeys, numDBogeys, numBogeys, numPars, numBirdies, numEagles, numAlbatross), 29) == Mask(numAlbatross, 7)
  {
  }

  lemma GameWord6Fields(numHoleInOnes: bv32, numTotalDistance: bv32)
    ensures Mask(GameWord6(numHoleInOnes, numTotalDistance), 7) == Mask(numHoleInOnes, 7)
    ensures SubField(GameWord6(numHoleInOnes, numTotalDistance), 3, 0x3FFFF) == Mask(numTotalDistance, 0x3FFFF)
  {
  }

  lemma GameWord7Fields(playTime: bv32, obtainedGpRound: bv32)
    ensures Mask(GameWord7(playTime, obtainedGpRound), 0x3FFF) == Mask(playTime, 0x3FFF)
    ensures SubField(GameWord7(playTime, obtainedGpRound), 14, 0x7FFF) == Mask(obtainedGpRound, 0x7FFF)
  {
  }

  lemma GameWord8Fields(obtainedGpAll: bv32, acquiredExperience: bv32, numDirectTipIns: bv32)
    ensures Mask(GameWord8(obtainedGpAll, acquiredExperience, numDirectTipIns), 0x7FFF) == Mask(obtainedGpAll, 0x7FFF)
    ensures SubField(GameWord8(obtainedGpAll, acquiredExperience, numDirectTipIns), 15, 0xFF) == Mask(acquiredExperience, 0xFF)
    ensures SubField(GameWord8(obtainedGpAll, acquiredExperience, numDirectTipIns), 23, 0x1F) == Mask(numDirectTipIns, 0x1F)
  {
    ObtainedGpAllInWord8(obtainedGpAll, acquiredExperience, numDirectTipIns);
    AcquiredExperienceInWord8(obtainedGpAll, acquiredExperience, numDirectTipIns);
    NumDirectTipInsInWord8(obtainedGpAll, acquiredExperience, numDirectTipIns);
  }

  lemma ObtainedGpAllInWord8(obtainedGpAll: bv32, acquiredExperience: bv32, numDirectTipIns: bv32)
    ensures Mask(GameWord8(obtainedGpAll, acquiredExperience, numDirectTipIns), 0x7FFF) == Mask(obtainedGpAll, 0x7FFF)
  {
    var experience, direct := (acquiredExperience & 0xFF) << 15, (numDirectTipIns & 0x1F) << 23;
    assert experience & 0x7FFF == 0 && direct & 0x7FFF == 0;
    assert ((obtainedGpAll & 0x7FFF) | experience | direct) & 0x7FFF
        == (obtainedGpAll & 0x7FFF) | (experience & 0x7FFF) | (direct & 0x7FFF);
  }

  lemma AcquiredExperienceInWord8(obtainedGpAll: bv32, acquiredExperience: bv32, numDirectTipIns: bv32)
    ensures SubField(GameWord8(obtainedGpAll, acquiredExperience, numDirectTipIns), 15, 0xFF) == Mask(acquiredExperience, 0xFF)
  {
  }

  lemma NumDirectTipInsInWord8(obtainedGpAll: bv32, acquiredExperience: bv32, numDirectTipIns: bv32)
    ensures SubField(GameWord8(obtainedGpAll, acquiredExperience, numDirectTipIns), 23, 0x1F) == Mask(numDirectTipIns, 0x1F)
  {
  }

  lemma GameWord9Fields(numRough: bv32, numBunkers: bv32, numObstacleHits: bv32, numPinshots: bv32, numFlagWraps: bv32)
    ensures Mask(GameWord9(numRough, numBunkers, numObstacleHits, numPinshots, numFlagWraps), 0xFF) == Mask(numRough, 0xFF)
    ensures SubField(GameWord9(numRough, numBunkers, numObstacleHits, numPinshots, numFlagWraps), 8, 0x7F) == Mask(numBunkers, 0x7F)
    ensures SubField(GameWord9(numRough, numBunkers, numObstacleHits, numPinshots, numFlagWraps), 15, 0x7F) == Mask(numObstacleHits, 0x7F)
    ensures SubField(GameWord9(numRough, numBunkers, numObstacleHits, numPinshots, numFlagWraps), 22, 0x7F)
         == Mask(numPinshots, 0x7F) | (Mask(numFlagWraps, 3) << 5)
    ensures High(GameWord9(numRough, numBunkers, numObstacleHits, numPinshots, numFlagWraps), 27)
         == Mask(numFlagWraps, 0x1F) | SubField(numPinshots, 5, 3)
  {
    NumRoughInWord9(numRough, numBunkers, numObstacleHits, numPinshots, numFlagWraps);
    NumBunkersInWord9(numRough, numBunkers, numObstacleHits, numPinshots, numFlagWraps);
    NumObstacleHitsInWord9(numRough, numBunkers, numObstacleHits, numPinshots, numFlagWraps);
    NumPinshotsInWord9(numRough, numBunkers, numObstacleHits, numPinshots, numFlagWraps);
    NumFlagWrapsInWord9(numRough, numBunkers, numObstacleHits, numPinshots, numFlagWraps);
  }

  lemma NumRoughInWord9(numRough: bv32, numBunkers: bv32, numObstacleHits: bv32, numPinshots: bv32, numFlagWraps: bv32)
    ensures Mask(GameWord9(numRough, numBunkers, numObstacleHits, numPinshots, numFlagWraps), 0xFF) == Mask(numRough, 0xFF)
  {
  }

  lemma NumBunkersInWord9(numRough: bv32, numBunkers: bv32, numObstacleHits: bv32, numPinshots: bv32, numFlagWraps: bv32)
    ensures SubField(GameWord9(numRough, numBunkers, numObstacleHits, numPinshots, numFlagWraps), 8, 0x7F) == Mask(numBunkers, 0x7F)
  {
  }

  lemma NumObstacleHitsInWord9(numRough: bv32, numBunkers: bv32, numObstacleHits: bv32, numPinshots: bv32, numFlagWraps: bv32)
    ensures SubField(GameWord9(numRough, numBunkers, numObstacleHits, numPinshots, numFlagWraps), 15, 0x7F) == Mask(numObstacleHits, 0x7F)
  {
  }

  lemma NumPinshotsInWord9(numRough: bv32, numBunkers: bv32, numObstacleHits: bv32, numPinshots: bv32, numFlagWraps: bv32)
    ensures SubField(GameWord9(numRough, numBunkers, numObstacleHits, numPinshots, numFlagWraps), 22, 0x7F)
         == Mask(numPinshots, 0x7F) | (Mask(numFlagWraps, 3) << 5)
  {
  }

  lemma NumFlagWrapsInWord9(numRough: bv32, numBunkers: bv32, numObstacleHits: bv32, numPinshots: bv32, numFlagWraps: bv32)
    ensures High(GameWord9(numRough, numBunkers, numObstacleHits, numPinshots, numFlagWraps), 27)
         == Mask(numFlagWraps, 0x1F) | SubField(numPinshots, 5, 3)
  {
  }

  /** The corrected word 9 keeps its five counters apart. */
  lemma GameWord9FixedFields(numRough: bv32, numBunkers: bv32, numObstacleHits: bv32, numPinshots: bv32, numFlagWraps: bv32)
    ensures Mask(GameWord9Fixed(numRough, numBunkers, numObstacleHits, numPinshots, numFlagWraps), 0xFF) == Mask(numRough, 0xFF)
    ensures SubField(GameWord9Fixed(numRough, numBunkers, numObstacleHits, numPinshots, numFlagWraps), 8, 0x7F) == Mask(numBunkers, 0x7F)
    ensures SubField(GameWord9Fixed(numRough, numBunkers, numObstacleHits, numPinshots, numFlagWraps), 15, 0x7F) == Mask(numObstacleHits, 0x7F)
    ensures SubField(GameWord9Fixed(numRough, numBunkers, numObstacleHits, numPinshots, numFlagWraps), 22, 0x1F) == Mask(numPinshots, 0x1F)
    ensures High(GameWord9Fixed(numRough, numBunkers, numObstacleHits, numPinshots, numFlagWraps), 27) == Mask(numFlagWraps, 0x1F)
  {
    var w := GameWord9Fixed(numRough, numBunkers, numObstacleHits, numPinshots, numFlagWraps);
    GameWord9Fields(numRough, numBunkers, numObstacleHits, numPinshots & 0x1F, numFlagWraps);
    FiveOfSeven(w);
    SharedBitsOfFive(numPinshots);
  }

  lemma FiveOfSeven(w: bv32)
    ensures SubField(w, 22, 0x1F) == SubField(w, 22, 0x7F) & 0x1F
  {
  }

  lemma SharedBitsOfFive(p: bv32)
    ensures Mask(p & 0x1F, 0x7F) == p & 0x1F && SubField(p & 0x1F, 5, 3) == 0
  {
  }

  lemma GameWord10Fields(numConsumableItemUsage: bv32, longestTeeShot: bv32)
    ensures Mask(GameWord10(numConsumableItemUsage, longestTeeShot), 0xFF) == Mask(numConsumableItemUsage, 0xFF)
    ensures SubField(GameWord10(numConsumableItemUsage, longestTeeShot), 8, 0x3FFFF) == Mask(longestTeeShot, 0x3FFFF)
  {
  }

  lemma GameWord11Fields(totalPuttDistanceAtCupIn: bv32, numTopOrBackspinSuccesses: bv32, numFadeOrDrawUsage: bv32)
    ensures Mask(GameWord11(totalPuttDistanceAtCupIn, numTopOrBackspinSuccesses, numFadeOrDrawUsage), 0xFFFF) == Mask(totalPuttDistanceAtCupIn, 0xFFFF)
    ensures SubField(GameWord11(totalPuttDistanceAtCupIn, numTopOrBackspinSuccesses, numFadeOrDrawUsage), 16, 0x7F) == Mask(numTopOrBackspinSuccesses, 0x7F)
    ensures SubField(GameWord11(totalPuttDistanceAtCupIn, numTopOrBackspinSuccesses, numFadeOrDrawUsage), 23, 0x7F) == Mask(numFadeOrDrawUsage, 0x7F)
  {
    TotalPuttDistanceAtCupInInWord11(totalPuttDistanceAtCupIn, numTopOrBackspinSuccesses, numFadeOrDrawUsage);
    NumTopOrBackspinSuccessesInWord11(totalPuttDistanceAtCupIn, numTopOrBackspinSuccesses, numFadeOrDrawUsage);
    NumFadeOrDrawUsageInWord11(totalPuttDistanceAtCupIn, numTopOrBackspinSuccesses, numFadeOrDrawUsage);
  }

  lemma TotalPuttDistanceAtCupInInWord11(totalPuttDistanceAtCupIn: bv32, numTopOrBackspinSuccesses: bv32, numFadeOrDrawUsage: bv32)
    ensures Mask(GameWord11(totalPuttDistanceAtCupIn, numTopOrBackspinSuccesses, numFadeOrDrawUsage), 0xFFFF) == Mask(totalPuttDistanceAtCupIn, 0xFFFF)
  {
    var spin, fade := (numTopOrBackspinSuccesses & 0x7F) << 16, (numFadeOrDrawUsage & 0x7F) << 23;
    assert spin & 0xFFFF == 0 && fade & 0xFFFF == 0;
    assert ((totalPuttDistanceAtCupIn & 0xFFFF) | spin | fade) & 0xFFFF
        == (totalPuttDistanceAtCupIn & 0xFFFF) | (spin & 0xFFFF) | (fade & 0xFFFF);
  }

  lemma NumTopOrBackspinSuccessesInWord11(totalPuttDistanceAtCupIn: bv32, numTopOrBackspinSuccesses: bv32, numFadeOrDrawUsage: bv32)
    ensures SubField(GameWord11(totalPuttDistanceAtCupIn, numTopOrBackspinSuccesses, numFadeOrDrawUsage), 16, 0x7F) == Mask(numTopOrBackspinSuccesses, 0x7F)
  {
  }

  lemma NumFadeOrDrawUsageInWord11(totalPuttDistanceAtCupIn: bv32, numTopOrBackspinSuccesses: bv32, numFadeOrDrawUsage: bv32)
    ensures SubField(GameWord11(totalPuttDistanceAtCupIn, numTopOrBackspinSuccesses, numFadeOrDrawUsage), 23, 0x7F) == Mask(numFadeOrDrawUsage, 0x7F)
  {
  }

  lemma GameWord12Fields(numClubsUsed: bv32, numTimesCooperatingWithCaddy: bv32, numSpecialShotsUsed: bv32, vsRank: bv32)
    ensures Mask(GameWord12(numClubsUsed, numTimesCooperatingWithCaddy, numSpecialShotsUsed, vsRank), 0xF) == Mask(numClubsUsed, 0xF)
    ensures SubField(GameWord12(numClubsUsed, numTimesCooperatingWithCaddy, numSpecialShotsUsed, vsRank), 4, 0x7F) == Mask(numTimesCooperatingWithCaddy, 0x7F)
    ensures SubField(GameWord12(numClubsUsed, numTimesCooperatingWithCaddy, numSpecialShotsUsed, vsRank), 11, 0x1F) == Mask(numSpecialShotsUsed, 0x1F)
    ensures SubField(GameWord12(numClubsUsed, numTimesCooperatingWithCaddy, numSpecialShotsUsed, vsRank), 16, 7) == Mask(vsRank, 7)
  {
    NumClubsUsedInWord12(numClubsUsed, numTimesCooperatingWithCaddy, numSpecialShotsUsed, vsRank);
    NumTimesCooperatingWithCaddyInWord12(numClubsUsed, numTimesCooperatingWithCaddy, numSpecialShotsUsed, vsRank);
    NumSpecialShotsUsedInWord12(numClubsUsed, numTimesCooperatingWithCaddy, numSpecialShotsUsed, vsRank);
    VsRankInWord12(numClubsUsed, numTimesCooperatingWithCaddy, numSpecialShotsUsed, vsRank);
  }

  lemma NumClubsUsedInWord12(numClubsUsed: bv32, numTimesCooperatingWithCaddy: bv32, numSpecialShotsUsed: bv32, vsRank: bv32)
    ensures Mask(GameWord12(numClubsUsed, numTimesCooperatingWithCaddy, numSpecialShotsUsed, vsRank), 0xF) == Mask(numClubsUsed, 0xF)
  {
  }

  lemma NumTimesCooperatingWithCaddyInWord12(numClubsUsed: bv32, numTimesCooperatingWithCaddy: bv32, numSpecialShotsUsed: bv32, vsRank: bv32)
    ensures SubField(GameWord12(numClubsUsed, numTimesCooperatingWithCaddy, numSpecialShotsUsed, vsRank), 4, 0x7F) == Mask(numTimesCooperatingWithCaddy, 0x7F)
  {
  }

  lemma NumSpecialShotsUsedInWord12(numClubsUsed: bv32, numTimesCooperatingWithCaddy: bv32, numSpecialShotsUsed: bv32, vsRank: bv32)
    ensures SubField(GameWord12(numClubsUsed, numTimesCooperatingWithCaddy, numSpecialShotsUsed, vsRank), 11, 0x1F) == Mask(numSpecialShotsUsed, 0x1F)
  {
  }

  lemma VsRankInWord12(numClubsUsed: bv32, numTimesCooperatingWithCaddy: bv32, numSpecialShotsUsed: bv32, vsRank: bv32)
    ensures SubField(GameWord12(numClubsUsed, numTimesCooperatingWithCaddy, numSpecialShotsUsed, vsRank), 16, 7) == Mask(vsRank, 7)
  {
  }

  /** Cutting to width changes nothing exactly when everything fits. */
  lemma TruncateGameIdentity(g: GameReport)
    ensures TruncateGame(g) == g <==> GameFits(g)
  {
    TruncateGameFields(g);
    TruncateGameShared(g);
    TruncateHolesIdentity(g.holes);
    SharedBitsFit(g.numPinshots, g.numFlagWraps);
    if GameFits(g) {
      GameFieldwiseEqual(TruncateGame(g), g);
    }
  }

  /** Merging the shared bits changes neither count exactly when both fit
      their masks and the shared bits already agree. */
  lemma SharedBitsFit(p: bv32, f: bv32)
    ensures (Mask(p, 0x7F) | (Mask(f, 3) << 5) == p && Mask(f, 0x1F) | SubField(p, 5, 3) == f)
        <==> (Mask(p, 0x7F) == p && Mask(f, 0x1F) == f && SubField(p, 5, 3) == Mask(f, 3))
  {
  }

  /** With the corrected word 9, cutting to width changes nothing exactly when
      everything fits. */
  lemma TruncateGameFixedIdentity(g: GameReport)
    ensures TruncateGameFixed(g) == g <==> GameFitsFixed(g)
  {
    TruncateGameFields(g);
    TruncateHolesIdentity(g.holes);
    if GameFitsFixed(g) {
      GameFieldwiseEqual(TruncateGameFixed(g), g);
    }
  }

  lemma TruncateHolesIdentity(hs: seq<HoleReport>)
    ensures TruncateHoles(hs) == hs <==> forall i :: 0 <= i < |hs| ==> HoleFits(hs[i])
  {
    if forall i :: 0 <= i < |hs| ==> HoleFits(hs[i]) {
      forall i | 0 <= i < |hs| ensures TruncateHoles(hs)[i] == hs[i] {
        TruncateHoleIdentity(hs[i]);
      }
    }
    if TruncateHoles(hs) == hs {
      forall i | 0 <= i < |hs| ensures HoleFits(hs[i]) {
        TruncateHoleIdentity(hs[i]);
      }
    }
  }

  /** Reading a written game report, followed by anything, gives the report
      cut to width. */
  lemma ReadWriteGame(g: GameReport, rest: seq<Field>)
    requires |g.holes| == 18
    ensures ReadGame(WriteGame(g) + rest) == Ok(TruncateGame(g))
  {
    ReadGameFields(GameWords(g), g.halfwayScore, g.score, g.holes, rest);
    DecodeGameWords(g);
  }

  /** Reading any twelve words, two scores and 18 written holes decodes the
      words and gives the holes cut to width. */
  lemma ReadGameFields(ws: seq<bv32>, halfwayScore: i8, score: i8, holes: seq<HoleReport>, rest: seq<Field>)
    requires |ws| == 12 && |holes| == 18
    ensures ReadGame(U32s(ws) + [I8(halfwayScore), I8(score)] + WriteHoles(holes) + rest)
         == Ok(DecodeGame(ws, halfwayScore, score, TruncateHoles(holes)))
  {
    var fs := U32s(ws) + [I8(halfwayScore), I8(score)] + WriteHoles(holes) + rest;
    assert fs == U32s(ws) + ([I8(halfwayScore), I8(score)] + (WriteHoles(holes) + rest));
    assert forall i :: 0 <= i < 12 ==> fs[i] == U32(ws[i]);
    assert IsGameHead(fs);
    assert HeadWords(fs) == ws;
    assert fs[14..] == WriteHoles(holes) + rest;
    ReadWriteHoles(holes, rest);
  }

  /** A written game report reads back as itself exactly when it fits, the
      shared bits of word 9 included. */
  lemma GameRoundTrip(g: GameReport)
    requires |g.holes| == 18
    ensures ReadGame(WriteGame(g)) == Ok(g) <==> GameFits(g)
  {
    ReadWriteGame(g, []);
    assert WriteGame(g) + [] == WriteGame(g);
    TruncateGameIdentity(g);
  }

  /** The corrected word 9 decodes to each counter cut to its own width. */
  function RereadFixed(g: GameReport): GameReport {
    DecodeGameFixed(GameWordsFixed(g), g.halfwayScore, g.score, TruncateHoles(g.holes))
  }

  lemma DecodeGameWordsFixed(g: GameReport)
    ensures RereadFixed(g) == TruncateGameFixed(g)
  {
    var ws, wf := GameWords(g), GameWordsFixed(g);
    DecodeGameWords(g);
    GameWord9Fields(g.numRough, g.numBunkers, g.numObstacleHits, g.numPinshots, g.numFlagWraps);
    GameWord9FixedFields(g.numRough, g.numBunkers, g.numObstacleHits, g.numPinshots, g.numFlagWraps);
    var r := Reread(g);
    assert DecodeGame(wf, g.halfwayScore, g.score, TruncateHoles(g.holes))
        == r.(numPinshots := SubField(wf[8], 22, 0x7F), numFlagWraps := High(wf[8], 27));
  }

  /** Reading a game report written with the corrected word 9, followed by
      anything, gives the report cut to width. */
  lemma ReadWriteGameFixed(g: GameReport, rest: seq<Field>)
    requires |g.holes| == 18
    ensures ReadGameFixed(WriteGameFixed(g) + rest) == Ok(TruncateGameFixed(g))
  {
    ReadGameFixedFields(GameWordsFixed(g), g.halfwayScore, g.score, g.holes, rest);
    DecodeGameWordsFixed(g);
  }

  lemma ReadGameFixedFields(ws: seq<bv32>, halfwayScore: i8, score: i8, holes: seq<HoleReport>, rest: seq<Field>)
    requires |ws| == 12 && |holes| == 18
    ensures ReadGameFixed(U32s(ws) + [I8(halfwayScore), I8(score)] + WriteHoles(holes) + rest)
         == Ok(DecodeGameFixed(ws, halfwayScore, score, TruncateHoles(holes)))
  {
    var fs := U32s(ws) + [I8(halfwayScore), I8(score)] + WriteHoles(holes) + rest;
    assert fs == U32s(ws) + ([I8(halfwayScore), I8(score)] + (WriteHoles(holes) + rest));
    assert forall i :: 0 <= i < 12 ==> fs[i] == U32(ws[i]);
    assert IsGameHead(fs);
    assert HeadWords(fs) == ws;
    assert fs[14..] == WriteHoles(holes) + rest;
    ReadWriteHoles(holes, rest);
  }

  /** With the corrected word 9, a game report survives a write followed by a
      read exactly when its counters and holes fit their widths. */
  lemma GameRoundTripFixed(g: GameReport)
    requires |g.holes| == 18
    ensures ReadGameFixed(WriteGameFixed(g)) == Ok(g) <==> GameFitsFixed(g)
  {
    ReadWriteGameFixed(g, []);
    assert WriteGameFixed(g) + [] == WriteGameFixed(g);
    TruncateGameFixedIdentity(g);
  }

  /** A written game report has the head layout followed by 18 hole layouts. */
  lemma WriteGameLayout(g: GameReport)
    requires |g.holes| == 18
    ensures Kinds(WriteGame(g)) == GameHeadLayout + RepeatKinds(HoleLayout, 18)
  {
    GameFieldsLayout(GameWords(g), g.halfwayScore, g.score, g.holes);
  }

  lemma GameFieldsLayout(ws: seq<bv32>, halfwayScore: i8, score: i8, holes: seq<HoleReport>)
    requires |ws| == 12 && |holes| == 18
    ensures Kinds(U32s(ws) + [I8(halfwayScore), I8(score)] + WriteHoles(holes))
         == GameHeadLayout + RepeatKinds(HoleLayout, 18)
  {
    var scores := [I8(halfwayScore), I8(score)];
    assert Kinds(scores) == [KI8, KI8];
    KindsAppend(U32s(ws), scores);
    assert Kinds(U32s(ws) + scores) == GameHeadLayout;
    KindsAppend(U32s(ws) + scores, WriteHoles(holes));
    WriteHolesLayout(holes);
  }

  /** A first word whose outcome bits are 0 or 7 reads as `Invalid`. */
  lemma UnknownGameOutcome(fs: seq<Field>)
    requires ReadGame(fs).Ok?
    requires fs[0].u32 & 7 == 0 || fs[0].u32 & 7 == 7
    ensures ReadGame(fs).value.outcome == Invalid
  {
  }

  /** As written, 32 pin shots and no flag wraps read back as one flag wrap,
      and one flag wrap and no pin shots read back as 32 pin shots. */
  lemma PinshotsOverlapFlagWraps(g: GameReport)
    requires |g.holes| == 18
    ensures ReadGame(WriteGame(g)).Ok?
    ensures g.numPinshots == 32 && g.numFlagWraps == 0 ==> ReadGame(WriteGame(g)).value.numFlagWraps == 1
    ensures g.numPinshots == 0 && g.numFlagWraps == 1 ==> ReadGame(WriteGame(g)).value.numPinshots == 32
  {
    ReadWriteGame(g, []);
    assert WriteGame(g) + [] == WriteGame(g);
    TruncateGameShared(g);
  }
}
