/** Player and course records (src/data/record.rs).

    `CRecord` has a hand-written codec: most fields travel as they are, but
    several words are masked on the way in, one of them (`max_exp`, and
    likewise `max_drive`) only on the way in, and the longest chip-in and the
    longest putt share one word. The other three records have derived codecs
    and are plain field sequences with a fixed layout. */
module Records {
  import opened Wrappers
  import opened Wire
  import opened Bits

  /** A player's records on one course. */
  datatype CRecord = CRecord(
    mxScore: i8,
    lowestScore: i8,
    totalScore: i8,
    unkArray: seq<i8>,
    numRounds: u16,
    maxGp: u16,
    totalGp: bv32,
    maxExp: bv32,
    totalExp: bv32,
    maxDrive: bv32,
    maxChipin: bv32,
    maxPutt: bv32,
    unk: bv32)

  /** The record of a course never played: lowest score -99, total score
      99, everything else zero. */
  function DefaultCRecord(): (r: CRecord)
    ensures |r.unkArray| == 18
  {
    CRecord(0, -99, 99, Repeat(0, 18), 0, 0, 0, 0, 0, 0, 0, 0, 0)
  }

  /** The shared distance word: the chip-in in bits 0 to 17, the putt from
      bit 18 up, shifted unmasked. */
  function ChipinPuttWord(maxChipin: bv32, maxPutt: bv32): bv32 {
    (maxChipin & 0x3FFFF) | (maxPutt << 18)
  }

  /** The six words that close a record, as written: `max_exp` and
      `max_drive` go out unmasked, `unk` is cut to 16 bits. */
  function CRecordWords(r: CRecord): (ws: seq<bv32>)
    ensures |ws| == 6
  {
    [r.totalGp, r.maxExp, r.totalExp, r.maxDrive, ChipinPuttWord(r.maxChipin, r.maxPutt), Mask(r.unk, 0xFFFF)]
  }

  /** `CRecord::write`: three scores, the 18-byte array, two `u16`s, six words. */
  function WriteCRecord(r: CRecord): (fs: seq<Field>)
    requires |r.unkArray| == 18
    ensures |fs| == CRecordSize
  {
    [I8(r.mxScore), I8(r.lowestScore), I8(r.totalScore)] + I8s(r.unkArray)
    + [U16(r.numRounds), U16(r.maxGp)] + U32s(CRecordWords(r))
  }

  const CRecordSize := 29

  const CRecordLayout: seq<Kind> := Repeat(KI8, 21) + [KU16, KU16] + Repeat(KU32, 6)

  /** Twenty-one `i8`s, two `u16`s and six `u32`s open the sequence. */
  predicate IsCRecord(fs: seq<Field>) {
    |fs| >= CRecordSize && (forall i :: 0 <= i < 21 ==> fs[i].I8?) && fs[21].U16? && fs[22].U16?
    && (forall i :: 23 <= i < 29 ==> fs[i].U32?)
  }

  /** The 18 array bytes of a record on the wire. */
  function ArrayOf(fs: seq<Field>): (a: seq<i8>)
    requires IsCRecord(fs)
    ensures |a| == 18
  {
    seq(18, i requires 0 <= i < 18 => fs[3 + i].i8)
  }

  /** The six closing words of a record on the wire. */
  function WordsOf(fs: seq<Field>): (ws: seq<bv32>)
    requires IsCRecord(fs)
    ensures |ws| == 6
  {
    seq(6, i requires 0 <= i < 6 => fs[23 + i].u32)
  }

  /** `CRecord::read`: fails on too short or mistyped input. */
  function ReadCRecord(fs: seq<Field>): (r: Result<CRecord, DekuError>)
    ensures r.Ok? <==> IsCRecord(fs)
    ensures r.Ok? ==> |r.value.unkArray| == 18
    ensures r.Err? ==> r.error == Incomplete
  {
    if IsCRecord(fs) then
      Ok(DecodeCRecord(fs[0].i8, fs[1].i8, fs[2].i8, ArrayOf(fs), fs[21].u16, fs[22].u16, WordsOf(fs)))
    else
      Err(Incomplete)
  }

  /** Reading masks `max_exp` to 8 bits, `max_drive` and the chip-in to 18
      bits and `unk` to 16; the putt is the top 14 bits of the shared word. */
  function DecodeCRecord(mxScore: i8, lowestScore: i8, totalScore: i8, unkArray: seq<i8>, numRounds: u16,
    maxGp: u16, ws: seq<bv32>): CRecord
    requires |ws| == 6
  {
    CRecord(mxScore, lowestScore, totalScore, unkArray, numRounds, maxGp,
      ws[0], Mask(ws[1], 0xFF), ws[2], Mask(ws[3], 0x3FFFF), Mask(ws[4], 0x3FFFF), High(ws[4], 18),
      Mask(ws[5], 0xFFFF))
  }

  /** Each field cut to the width a write followed by a read keeps. */
  function TruncateCRecord(r: CRecord): CRecord {
    r.(maxExp := Mask(r.maxExp, 0xFF), maxDrive := Mask(r.maxDrive, 0x3FFFF),
       maxChipin := Mask(r.maxChipin, 0x3FFFF), maxPutt := Mask(r.maxPutt, 0x3FFF), unk := Mask(r.unk, 0xFFFF))
  }

  /** `max_exp` fits 8 bits, `max_drive` and `max_chipin` 18, `max_putt`
      14 and `unk` 16. */
  predicate CRecordFits(r: CRecord) {
    Mask(r.maxExp, 0xFF) == r.maxExp && Mask(r.maxDrive, 0x3FFFF) == r.maxDrive
    && Mask(r.maxChipin, 0x3FFFF) == r.maxChipin && Mask(r.maxPutt, 0x3FFF) == r.maxPutt
    && Mask(r.unk, 0xFFFF) == r.unk
  }

  lemma TruncateCRecordIdentity(r: CRecord)
    ensures TruncateCRecord(r) == r <==> CRecordFits(r)
  {
    if CRecordFits(r) {
      CRecordFieldwiseEqual(TruncateCRecord(r), r);
    }
  }

  lemma CRecordFieldwiseEqual(a: CRecord, b: CRecord)
    requires a.mxScore == b.mxScore && a.lowestScore == b.lowestScore && a.totalScore == b.totalScore
    requires a.unkArray == b.unkArray && a.numRounds == b.numRounds && a.maxGp == b.maxGp
    requires a.totalGp == b.totalGp && a.maxExp == b.maxExp && a.totalExp == b.totalExp
    requires a.maxDrive == b.maxDrive && a.maxChipin == b.maxChipin && a.maxPutt == b.maxPutt
    requires a.unk == b.unk
    ensures a == b
  {
  }

  /** Reading a written record, followed by anything, gives the record cut to
      width. */
  lemma ReadWriteCRecord(r: CRecord, rest: seq<Field>)
    requires |r.unkArray| == 18
    ensures ReadCRecord(WriteCRecord(r) + rest) == Ok(TruncateCRecord(r))
  {
    ReadCRecordFields(r.mxScore, r.lowestScore, r.totalScore, r.unkArray, r.numRounds, r.maxGp, CRecordWords(r), rest);
    DecodeCRecordWords(r);
  }

  /** Reading any written scores, array, counts and words decodes them. */
  lemma ReadCRecordFields(mxScore: i8, lowestScore: i8, totalScore: i8, unkArray: seq<i8>, numRounds: u16,
    maxGp: u16, ws: seq<bv32>, rest: seq<Field>)
    requires |unkArray| == 18 && |ws| == 6
    ensures ReadCRecord([I8(mxScore), I8(lowestScore), I8(totalScore)] + I8s(unkArray)
                        + [U16(numRounds), U16(maxGp)] + U32s(ws) + rest)
         == Ok(DecodeCRecord(mxScore, lowestScore, totalScore, unkArray, numRounds, maxGp, ws))
  {
    var record := [I8(mxScore), I8(lowestScore), I8(totalScore)] + I8s(unkArray)
                  + [U16(numRounds), U16(maxGp)] + U32s(ws);
    CRecordLayoutOf(mxScore, lowestScore, totalScore, unkArray, numRounds, maxGp, ws);
    ReadCRecordPrefix(record, rest);
  }

  /** The written fields have the record's layout, and the array and the
      words read back from where they were written. */
  lemma CRecordLayoutOf(mxScore: i8, lowestScore: i8, totalScore: i8, unkArray: seq<i8>, numRounds: u16,
    maxGp: u16, ws: seq<bv32>)
    requires |unkArray| == 18 && |ws| == 6
    ensures var fs := [I8(mxScore), I8(lowestScore), I8(totalScore)] + I8s(unkArray)
                      + [U16(numRounds), U16(maxGp)] + U32s(ws);
      IsCRecord(fs) && ArrayOf(fs) == unkArray && WordsOf(fs) == ws
      && fs[0] == I8(mxScore) && fs[1] == I8(lowestScore) && fs[2] == I8(totalScore)
      && fs[21] == U16(numRounds) && fs[22] == U16(maxGp)
  {
    var scores := [I8(mxScore), I8(lowestScore), I8(totalScore)] + I8s(unkArray);
    var counts := scores + [U16(numRounds), U16(maxGp)];
    var record := counts + U32s(ws);
    forall i | 0 <= i < 18 ensures record[3 + i] == I8(unkArray[i]) {
      assert record[3 + i] == counts[3 + i] == scores[3 + i];
    }
    assert record[21] == counts[21] && record[22] == counts[22];
    assert IsCRecord(record);
    assert ArrayOf(record) == unkArray;
    assert WordsOf(record) == ws;
  }

  /** What follows a record does not change how it reads. */
  lemma ReadCRecordPrefix(fs: seq<Field>, rest: seq<Field>)
    requires IsCRecord(fs)
    ensures ReadCRecord(fs + rest) == ReadCRecord(fs)
  {
    var xs := fs + rest;
    assert forall i :: 0 <= i < |fs| ==> xs[i] == fs[i];
    assert ArrayOf(xs) == ArrayOf(fs);
    assert WordsOf(xs) == WordsOf(fs);
  }

  lemma DecodeCRecordWords(r: CRecord)
    requires |r.unkArray| == 18
    ensures DecodeCRecord(r.mxScore, r.lowestScore, r.totalScore, r.unkArray, r.numRounds, r.maxGp, CRecordWords(r))
         == TruncateCRecord(r)
  {
    var ws := CRecordWords(r);
    ChipinPuttFields(r.maxChipin, r.maxPutt);
    CRecordFieldwiseEqual(DecodeCRecord(r.mxScore, r.lowestScore, r.totalScore, r.unkArray, r.numRounds, r.maxGp, ws),
      TruncateCRecord(r));
  }

  /** The chip-in is bits 0 to 17 of the shared word and the putt bits 18 to
      31: reading each back gives it cut to its width, whatever the other. */
  lemma ChipinPuttFields(maxChipin: bv32, maxPutt: bv32)
    ensures Mask(ChipinPuttWord(maxChipin, maxPutt), 0x3FFFF) == Mask(maxChipin, 0x3FFFF)
    ensures High(ChipinPuttWord(maxChipin, maxPutt), 18) == Mask(maxPutt, 0x3FFF)
  {
  }

  lemma CRecordRoundTrip(r: CRecord)
    requires |r.unkArray| == 18 && CRecordFits(r)
    ensures ReadCRecord(WriteCRecord(r)) == Ok(r)
  {
    ReadWriteCRecord(r, []);
    assert WriteCRecord(r) + [] == WriteCRecord(r);
    TruncateCRecordIdentity(r);
  }

  /** The default record fits, so it survives a write and a read; its scores
      are 0, -99 and 99 and all its other fields are zero. */
  lemma DefaultCRecordRoundTrip()
    ensures ReadCRecord(WriteCRecord(DefaultCRecord())) == Ok(DefaultCRecord())
    ensures DefaultCRecord().mxScore == 0 && DefaultCRecord().lowestScore == -99
    ensures DefaultCRecord().totalScore == 99
    ensures forall i :: 0 <= i < 18 ==> DefaultCRecord().unkArray[i] == 0
  {
    CRecordRoundTrip(DefaultCRecord());
  }

  /** `max_exp` and `max_drive` go out as they are, but come back masked to
      8 and 18 bits. */
  lemma ExpDriveMaskedOnlyOnRead(r: CRecord)
    requires |r.unkArray| == 18
    ensures WriteCRecord(r)[24] == U32(r.maxExp) && WriteCRecord(r)[26] == U32(r.maxDrive)
    ensures ReadCRecord(WriteCRecord(r)).value.maxExp == Mask(r.maxExp, 0xFF)
    ensures ReadCRecord(WriteCRecord(r)).value.maxDrive == Mask(r.maxDrive, 0x3FFFF)
  {
    ReadWriteCRecord(r, []);
    assert WriteCRecord(r) + [] == WriteCRecord(r);
  }

  /** The wire order: 21 `i8`s, two `u16`s, six `u32`s. */
  lemma WriteCRecordLayout(r: CRecord)
    requires |r.unkArray| == 18
    ensures Kinds(WriteCRecord(r)) == CRecordLayout
  {
    var scores := [I8(r.mxScore), I8(r.lowestScore), I8(r.totalScore)];
    var counts := [U16(r.numRounds), U16(r.maxGp)];
    assert Kinds(scores) == Repeat(KI8, 3);
    assert Kinds(counts) == [KU16, KU16];
    KindsAppend(scores, I8s(r.unkArray));
    assert Repeat(KI8, 3) + Repeat(KI8, 18) == Repeat(KI8, 21);
    KindsAppend(scores + I8s(r.unkArray), counts);
    KindsAppend(scores + I8s(r.unkArray) + counts, U32s(CRecordWords(r)));
  }

  /** `URecord`, a player's overall records, in declaration order. */
  const URecordLayout: seq<Kind> :=
    [KI16, KI32, KI32, KI32, KI16, KI32, KI32, KI32, KI16, KI32,   // num_rounds .. num_fairway_keep
     KI16, KI16, KU32, KI16, KI16, KI16, KI32, KI32, KI16, KI16,   // num_ob .. num_albatross
     KI16, KI32, KI32, KI32, KI8, KI8, KI16, KI16, KI16, KI32,     // num_hoi .. num_rough
     KI32, KI32, KI16, KI16, KI32, KI32, KI32, KI32, KI32, KI32,   // num_bunker .. x_78
     KI16, KI32, KI16, KI16, KI16, KI16, KI16, KI16, KI32]         // num_logins .. total_round_gp
    + Repeat(KU8, 14)                                              // x_92

  /** `GCRecord`, the best score and GP on a course across all players. */
  const GCRecordLayout: seq<Kind> := [KI8, KI8, KI8, KI32, KI32, KI16, KI32, KI32, KI16]

  /** `GHRecord`, the best results on one hole across all players. */
  const GHRecordLayout: seq<Kind> :=
    [KI8, KI32, KI16, KI32, KI32, KI16, KI32, KI16, KI16, KI32, KI16, KI16, KI32, KI16, KI16, KI32, KI16]

  function ReadURecord(fs: seq<Field>): (r: Result<seq<Field>, DekuError>)
    ensures r.Ok? ==> Kinds(r.value) == URecordLayout
  {
    ReadFixed(URecordLayout, fs)
  }

  function ReadGCRecord(fs: seq<Field>): (r: Result<seq<Field>, DekuError>)
    ensures r.Ok? ==> Kinds(r.value) == GCRecordLayout
  {
    ReadFixed(GCRecordLayout, fs)
  }

  function ReadGHRecord(fs: seq<Field>): (r: Result<seq<Field>, DekuError>)
    ensures r.Ok? ==> Kinds(r.value) == GHRecordLayout
  {
    ReadFixed(GHRecordLayout, fs)
  }

  /** The three derived records round-trip verbatim. */
  lemma DerivedRecordsRoundTrip(u: seq<Field>, gc: seq<Field>, gh: seq<Field>, rest: seq<Field>)
    requires Kinds(u) == URecordLayout && Kinds(gc) == GCRecordLayout && Kinds(gh) == GHRecordLayout
    ensures ReadURecord(u + rest) == Ok(u)
    ensures ReadGCRecord(gc + rest) == Ok(gc)
    ensures ReadGHRecord(gh + rest) == Ok(gh)
  {
    ReadFixedWritten(URecordLayout, u, rest);
    ReadFixedWritten(GCRecordLayout, gc, rest);
    ReadFixedWritten(GHRecordLayout, gh, rest);
  }
}
