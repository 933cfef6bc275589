# SplashSrv core, modelled in Dafny

SplashSrv is a replacement server for an online golf game. A login gate
checks credentials. A game server holds every connected player, the
lobbies and rooms, and answers a fixed, reverse-engineered binary protocol.
This project models three parts of it and proves properties of each.

1. **Packed values** (`src/data/*`, `src/packets/helpers.rs`, parts of
   `src/packets/mod.rs`):
   - character ids, item codes, counted items and the nine-word appearance;
   - hole and game reports, course records, shop entries and flags;
   - account data, and the fixed-capacity byte and UTF-16 strings;
   - outcomes and status words.

   Words are `bv32`. A layout is a sequence of typed wire fields (module
   `Wire`). Each codec has its reader, its writer, a round-trip lemma under
   the stated field ranges, and lemmas for the asymmetries the code has:
   - `New` marketing reads back as `Hot`;
   - the optional field 0x3FF reads back as `Some(0x3FE)`;
   - `max_exp` and `max_drive` are written unmasked but read masked.
2. **Framing** (`src/stream.rs`). `Stream.Connection` is a class with the
   receive buffer, the bytes sent and the pid counter. Message bodies go
   through an abstract codec (a pair of functions with a round-trip
   property). Parsing, writing and the read loop are proved against
   specification functions.
3. **The game server** (`src/gs2/*`) and the login gate
   (`src/login_server.rs`).
   - `GameServers.GameServer` is a class holding:
     - `conns`, a sequence of `Player` values, each with an outbox of
       queued messages;
     - `connLookup` from cid to index;
     - `nextCid`;
     - the VS and Competition lobbies, with their rooms kept sorted by
       number;
     - the two catalogues.
   - Every handler is a method on that state. It keeps the server's
     invariant: the lookup maps each connected cid to its index, and
     lobby membership matches each player's mode and lobby. Each handler
     states exactly what it changes and what it queues.
   - Relays to lobby and room members are one specification function,
     `GameServers.Relayed`, with lemmas on who receives how many copies.

The model follows the code where the design notes describe it
differently:
- An optional appearance field of 0x3FF reads as `Some(0x3FE)`, not as
  absent, and values up to 0x3FE can be written.
- Ejection from a lobby, on a mode change or on logout, does not remove
  the player from their room's member list and does not reset
  `cur_room`.
- The "already in a room" test on entry is `cur_room > 0`, so a player in
  room 0 can enter again.
- Empty rooms are never deleted.
- Every refused room entry other than a wrong password answers -1.
- A refused login through storage answers `IDError`.
- Word 9 of a game report masks pin shots to seven bits, two of which
  overlap the flag-wrap field. `GameReports.WriteGame` and
  `GameReports.ReadGame` do the same; the codec with the five-bit mask the
  layout evidently intends is modelled beside them as
  `GameReports.WriteGameFixed` and `GameReports.ReadGameFixed` (see
  "Findings").

Where the source panics (an `unwrap` on a cid that is not connected, a cid
array past fifty, a failed `try_into`), the handler's outcome is
`Panicked`. A `bail!` or `?` error is `Bailed`. `Serve`, the message loop,
stops at the first panic.

Storage calls are parameters of the handlers: the account a login finds,
whether a name was saved, the uid a new character gets. Randomness is a
parameter too: the hole order, which must be a permutation.

## Model

| member | source | states |
|---|---|---|
| CharIds.ToIndex | src/data/character.rs:20-30 | the index of every character lies in 1..=7 and `FromIndex` maps it back to the same character |
| CharIds.FromIndex | src/data/character.rs:32-43 | no character exactly for index 0 and for indices above 7 |
| CharIds.ToIndexInjective | src/data/character.rs:20-30 | two characters with the same index are the same character |
| Characters.NewCharacter | src/data/character.rs:71-91 | a new character has class G, zero experience, eight zero settings, club set number 2, ball number 1, no caddie, and keeps the looks given |
| Characters.TypeOf | src/data/character.rs:93-96 | the character type sent on the wire lies in 1..=7 |
| Characters.ToChrData | src/data/character.rs:93-110 | the character record sent copies the uid, class, experience, settings, looks, club, ball and caddie, and zeroes the unknown bytes |
| Characters.ChrDataTypeIsIndex | src/data/character.rs:93-110 | the type field is the index of the looks' character, so two records with the same type belong to the same character |
| Ranks.ClassValue | src/data/mod.rs:73-87 | a class value lies in 0..=7 |
| Ranks.RankClass | src/data/mod.rs:74-86 | a rank lies in its class's block of four: from four times the class value up to three more |
| Ranks.RankClassIsQuarter | src/data/mod.rs:73-87 | each block of four consecutive ranks is one class: the class value is the rank value divided by four |
| Outcomes.ToU32 | src/packets/mod.rs:2029-2039 | every outcome's code is at most 6, so it fits a 3-bit field, and reading the code back gives the same outcome |
| Outcomes.FromU32 | src/packets/mod.rs:2017-2027 | code 0 and every code above 6 read as `Invalid`; codes 1 to 6 read as a real outcome |
| Outcomes.ToU32FromU32 | src/packets/mod.rs:2017-2039 | codes 1 to 6 survive a read followed by a write |
| Items.Character | src/data/item.rs:43-80 | a category names a character exactly when it is one of the character-scoped categories, and then it names that category's character |
| Items.BaseCode | src/data/item.rs:135-165 | every category code has its low 11 bits clear and fits below bit 17 |
| Items.OwnerBits | src/data/item.rs:135-170 | the character bits of a new item are the character's index for a character-scoped category and 0 otherwise |
| Items.NewItem | src/data/item.rs:132-172 | a new item is never the empty item 0 and keeps the number it was made with |
| Items.Maximum | src/data/item.rs:82-119 | a stack limit is at most 50, 0 exactly for `Invalid`, and 50 exactly for balls, carry and hold items and the colour and style tickets |
| Items.Num | src/data/item.rs:178-180 | an item's number fits 11 bits |
| Items.Category | src/data/item.rs:182-228 | item 0 has category `Invalid`; a character-scoped category is only read from character bits that name that character |
| Items.UnlistedKindIsInvalid | src/data/item.rs:189-226 | a kind code missing from the table of its branch (global or character) reads as `Invalid` |
| Items.CategoryOfNewItem | src/data/item.rs:132-228 | `category` of a new item gives back the category it was made with, for every valid category and number up to 0x7FF |
| Items.GlobalTable | src/data/item.rs:135-226 | the kind code of every global category reads back as that category |
| Items.CharacterTable | src/data/item.rs:135-226 | the kind code of every character-scoped category reads back as that category for its character |
| Items.CodeFields | src/data/item.rs:167-184 | or-ing the category code, the character bits and the number keeps the three fields apart |
| CountedItems.NewCounted | src/data/item.rs:253-256 | a counted item holds the count it was made with, and the item when the item fits 22 bits |
| CountedItems.ItemOf | src/data/item.rs:258-260 | the item part of a counted item fits 22 bits |
| CountedItems.CountOf | src/data/item.rs:262-264 | the count part of a counted item fits 10 bits |
| CountedItems.WithCount | src/data/item.rs:266-269 | changing the count keeps the item and gives the new count |
| CountedItems.One | src/data/item.rs:174-176 | one of an item has count 1 and holds the item when it fits 22 bits |
| Appearances.UnpackOptional | src/data/appearance.rs:36-42 | a slot reads as absent exactly for 0 and for values above 0x3FF; otherwise it holds one less than the stored value, so 0x3FF reads as 0x3FE |
| Appearances.PackOptional | src/data/appearance.rs:44-52 | packing succeeds exactly for absent and for values up to 0x3FE, fails otherwise with a parameter error, gives 0 for absent, and unpacks back to its input |
| Appearances.PackUnpackOptional | src/data/appearance.rs:36-52 | every 10-bit slot value survives an unpack followed by a pack |
| Appearances.ReadAppearance | src/data/appearance.rs:55-145 | reading fails on missing input, and with a parameter error when bits 2 to 7 of the first word are no character index; a successful read took nine words and its character has the index found there |
| Appearances.Slot | src/data/appearance.rs:44-52 | a packable slot is written as a 10-bit value that reads back as the slot |
| Appearances.WriteAppearance | src/data/appearance.rs:148-198 | writing succeeds exactly when every optional slot packs, fails with a parameter error otherwise, and writes nine words whose fifth is 0 |
| Appearances.ReadWriteAppearance | src/data/appearance.rs:54-199 | when the slots pack and the plain fields fit their widths, reading what was written gives the same looks |
| Appearances.DecodeWords | src/data/appearance.rs:58-143 | the nine words written for such looks decode to the same looks |
| Appearances.FirstWordRoundTrip | src/data/appearance.rs:60-67 | the first word gives back the character, the head slot and the face paint |
| Appearances.SlotTripleRoundTrip | src/data/appearance.rs:69-87 | a word of three slots gives back each slot, as no slot spills into its neighbour |
| Appearances.ColourWordsRoundTrip | src/data/appearance.rs:92-104 | the hair, eye and skin colour words give back each colour field and the default tops slot |
| Appearances.DefaultsWordRoundTrip | src/data/appearance.rs:106-110 | the defaults word gives back the default bottoms and shoes slots and the default hair colour |
| Appearances.ReadIsNormalForm | src/data/appearance.rs:54-199 | whatever a read accepts can be written again, and reading that gives the same looks |
| Appearances.ReadIgnoresUnusedWord | src/data/appearance.rs:89-90 | the word at offset 0x10 does not change what is read |
| Reports.WriteHole | src/data/report.rs:245-261 | a hole report is written as one `i8` and three `u32` fields |
| Reports.ReadHole | src/data/report.rs:220-242 | reading a hole report succeeds exactly when an `i8` and three `u32` fields are there, and fails as incomplete otherwise |
| Reports.TruncateHoleIdentity | src/data/report.rs:230-252 | masking a hole report's fields to their widths changes nothing exactly when every field fits its width |
| Reports.ReadWriteHole | src/data/report.rs:220-262 | reading a written hole report, followed by anything, gives the report with each field masked to its width |
| Reports.DecodeHoleWords | src/data/report.rs:230-252 | the three words written decode to the report with each field masked to its width |
| Reports.TruncateHoleFields | src/data/report.rs:247-252 | which field is masked to which width: gp to 12 bits, distances to 18, putt to 14, vs point to 3 |
| Reports.DecodeWord1 | src/data/report.rs:232-249 | the first word gives back gp, the hole-in-one flag and the flight distance, each masked |
| Reports.DecodeWord2 | src/data/report.rs:235-251 | the second word gives back the chip-in and putt distances, each masked |
| Reports.DecodeWord3 | src/data/report.rs:237-253 | the third word gives back the outcome and the masked vs point |
| Reports.HoleRoundTrip | src/data/report.rs:220-262 | a hole report whose fields fit their widths survives a write followed by a read |
| Reports.HoleInOneIsBit12 | src/data/report.rs:233 | the hole-in-one flag read is exactly bit 12 of the first word |
| Reports.UnknownHoleOutcome | src/data/report.rs:237 | an outcome code of 0 or 7 in the low three bits reads as `Invalid` |
| Reports.WriteHoles | src/data/report.rs:191 | eighteen hole reports (any number) are written as four fields each |
| Reports.ReadHoles | src/data/report.rs:74 | reading n hole reports gives n reports from at least 4n fields, or fails as incomplete |
| Reports.ReadWriteHoles | src/data/report.rs:220-262 | reading written hole reports gives them back, each masked to its field widths |
| Reports.WriteHolesLayout | src/data/report.rs:191-258 | the hole reports are laid out as one `i8` and three `u32` per hole, in order |
| Reports.HoleWord1Fields | src/data/report.rs:232-249 | the first hole word keeps gp, the flag and the flight distance apart |
| Reports.HoleWord2Fields | src/data/report.rs:235-251 | the second hole word keeps the chip-in and putt distances apart |
| Reports.HoleWord3Fields | src/data/report.rs:237-253 | the third hole word keeps the outcome and the vs point apart |
| GameReports.GameWords | src/data/report.rs:129-177 | a game report's counters are packed into exactly twelve words |
| GameReports.GameWordsFixed | src/data/report.rs:161-165 | with the corrected word 9 there are still exactly twelve words |
| GameReports.WriteGame | src/data/report.rs:127-197 | a game report with 18 holes is written as 86 fields: twelve words, two scores, four fields per hole |
| GameReports.WriteGameFixed | src/data/report.rs:127-197 | with the corrected word 9, a game report with 18 holes is still written as 86 fields |
| GameReports.HeadWords | src/data/report.rs:60-71 | the head of a game report yields twelve words |
| GameReports.ReadGame | src/data/report.rs:55-125 | reading succeeds exactly when twelve `u32`s and two `i8`s are followed by 18 readable hole reports, gives 18 holes, and fails as incomplete otherwise |
| GameReports.ReadGameFixed | src/data/report.rs:55-125 | with the corrected word 9, reading succeeds and fails on exactly the same inputs |
| GameReports.GameHeadIsLayout | src/data/report.rs:60-73 | the head check is exactly twelve `u32` fields followed by two `i8` fields |
| GameReports.GameWord1Fields | src/data/report.rs:77-131 | word 1 keeps the outcome, strokes and cup-ins apart |
| GameReports.GameWord2Fields | src/data/report.rs:80-133 | word 2 keeps the maximum distance and the longest putt apart |
| GameReports.GameWord3Fields | src/data/report.rs:82-137 | word 3 keeps the tip-in distance, putts and nice shots apart |
| GameReports.GameWord4Fields | src/data/report.rs:85-143 | word 4 keeps its five counters apart |
| GameReports.GameWord5Fields | src/data/report.rs:90-151 | word 5 keeps its seven score counters apart |
| GameReports.GameWord6Fields | src/data/report.rs:97-153 | word 6 keeps the hole-in-ones and the total distance apart |
| GameReports.GameWord7Fields | src/data/report.rs:99-155 | word 7 keeps the play time and the gp of the round apart |
| GameReports.GameWord8Fields | src/data/report.rs:101-159 | word 8 keeps the total gp, experience and direct tip-ins apart |
| GameReports.GameWord9Fields | src/data/report.rs:104-165 | word 9 as written keeps rough, bunkers and obstacle hits apart, but the seven-bit pin-shot field and the flag-wrap field share two bits: pin shots read back with bits 0..1 of the flag wraps merged into their bits 5..6, and flag wraps with bits 5..6 of the pin shots merged into their bits 0..1 |
| GameReports.GameWord9FixedFields | src/data/report.rs:104-165 | word 9 with the pin-shot mask corrected to five bits keeps all five counters apart |
| GameReports.SharedBitsFit | src/data/report.rs:107-165 | merging the shared bits changes neither pin shots nor flag wraps exactly when both fit their masks and the shared bits already agree |
| GameReports.GameWord10Fields | src/data/report.rs:109-168 | word 10 keeps the item usage and the longest tee shot apart |
| GameReports.GameWord11Fields | src/data/report.rs:111-172 | word 11 keeps the putt distance and the two spin counters apart |
| GameReports.GameWord12Fields | src/data/report.rs:114-177 | word 12 keeps the clubs, caddie, special shots and vs rank apart |
| GameReports.DecodeGameWords | src/data/report.rs:76-121 | decoding the twelve written words gives the report with every counter cut to its width and the shared bits of word 9 merged |
| GameReports.DecodeGameWordsFixed | src/data/report.rs:76-121 | with the corrected word 9, decoding the written words gives the report with every counter cut to its own width |
| GameReports.TruncateGameIdentity | src/data/report.rs:76-121 | cutting to width and merging the shared bits changes nothing exactly when every counter and hole fits and the shared bits of pin shots and flag wraps agree |
| GameReports.TruncateGameFixedIdentity | src/data/report.rs:76-121 | with the corrected word 9, cutting to width changes nothing exactly when every counter and hole fits |
| GameReports.ReadWriteGame | src/data/report.rs:55-197 | reading a written game report, followed by anything, gives the report cut to width, with the shared bits of word 9 merged |
| GameReports.ReadGameFields | src/data/report.rs:55-125 | reading twelve words, two scores and 18 written holes decodes the words and gives the holes cut to width |
| GameReports.GameRoundTrip | src/data/report.rs:55-197 | a game report with 18 holes survives a write followed by a read exactly when its counters and holes fit their widths and bits 5..6 of its pin shots equal bits 0..1 of its flag wraps |
| GameReports.ReadWriteGameFixed | src/data/report.rs:55-197 | with the corrected word 9, reading a written game report, followed by anything, gives the report cut to width |
| GameReports.ReadGameFixedFields | src/data/report.rs:55-125 | with the corrected word 9, reading twelve words, two scores and 18 written holes decodes the words and gives the holes cut to width |
| GameReports.GameRoundTripFixed | src/data/report.rs:55-197 | with the corrected word 9, a game report with 18 holes survives a write followed by a read exactly when its counters and holes fit their widths |
| GameReports.WriteGameLayout | src/data/report.rs:179-191 | the wire layout is twelve `u32`s, two `i8`s, then 18 hole layouts |
| GameReports.GameFieldsLayout | src/data/report.rs:179-191 | any twelve words, two scores and 18 holes are laid out in that order |
| GameReports.UnknownGameOutcome | src/data/report.rs:77 | an outcome code of 0 or 7 in the low three bits of word 1 reads as `Invalid` |
| GameReports.PinshotsOverlapFlagWraps | src/data/report.rs:106-165 | as written, a report with 32 pin shots and no flag wraps reads back with one flag wrap, and one with a flag wrap and no pin shots reads back with 32 pin shots |
| Records.DefaultCRecord | src/data/record.rs:38-56 | the default course record holds an 18-entry score array |
| Records.CRecordWords | src/data/record.rs:104-114 | a course record's 32-bit fields are written as six words |
| Records.WriteCRecord | src/data/record.rs:96-118 | a course record is written as a fixed number of fields |
| Records.ReadCRecord | src/data/record.rs:58-94 | reading a course record succeeds exactly when its fixed layout is there, gives an 18-entry array, and fails as incomplete otherwise |
| Records.TruncateCRecordIdentity | src/data/record.rs:78-113 | cutting the masked fields to width changes nothing exactly when every field fits |
| Records.ReadWriteCRecord | src/data/record.rs:58-118 | reading a written course record, followed by anything, gives the record with the masked fields cut to width |
| Records.ReadCRecordFields | src/data/record.rs:63-74 | the scores, the array, the two `u16`s and six words are read in that order and decoded |
| Records.DecodeCRecordWords | src/data/record.rs:76-114 | decoding the six written words gives the record cut to width |
| Records.ChipinPuttFields | src/data/record.rs:87-109 | the chip-in distance takes bits 0 to 17 and the putt distance bits 18 to 31 of one shared word |
| Records.CRecordRoundTrip | src/data/record.rs:58-118 | a course record whose fields fit their widths survives a write followed by a read |
| Records.DefaultCRecordRoundTrip | src/data/record.rs:38-56 | the default record has best score 0, lowest score -99, total score 99 and a zero array, and survives a write followed by a read |
| Records.ExpDriveMaskedOnlyOnRead | src/data/record.rs:84-107 | the maximum experience and drive words are written unmasked, but read back masked to 8 and 18 bits |
| Records.WriteCRecordLayout | src/data/record.rs:98-113 | the wire layout is three `i8`s, an 18-byte `i8` array, two `u16`s, then the `u32` words in declaration order |
| Records.ReadURecord | src/data/record.rs:122-223 | a player's overall record is read as its fields in declaration order |
| Records.ReadGCRecord | src/data/record.rs:227-237 | a course-wide record is read as its fields in declaration order |
| Records.ReadGHRecord | src/data/record.rs:241-259 | a hole-wide record is read as its fields in declaration order |
| Records.DerivedRecordsRoundTrip | src/data/record.rs:122-259 | the three derived records read back exactly as written |
| Shop.CurrencyFromFlags | src/data/shop.rs:13-21 | the currency read has its own bits set in the flags, and is GP exactly when neither currency bit is set |
| Shop.CurrencyToFlags | src/data/shop.rs:23-29 | a currency's flags use only bits 2 and 0x20 |
| Shop.MarketingFromFlags | src/data/shop.rs:41-51 | the label read is never `New`, is `Sale` exactly when bit 0x40 is set, and is no label exactly when no label bit is set |
| Shop.MarketingToFlags | src/data/shop.rs:53-60 | a label's flags use only bits 8, 0x10 and 0x40 |
| Shop.CurrencyRoundTrip | src/data/shop.rs:13-29 | GP, SC and tickets-only each read back from their own flags |
| Shop.TicketsOnlyTakesPrecedence | src/data/shop.rs:13-21 | flag 0x20 reads as tickets-only whatever else is set; SC needs flag 2 without 0x20 |
| Shop.MarketingRoundTrip | src/data/shop.rs:41-60 | every label reads back from its own flags except `New`, which reads back as `Hot` |
| Shop.FlagsDecode | src/data/shop.rs:13-60 | or-ing currency and label flags fits seven bits, and each part reads back on its own, subject to the `New`-as-`Hot` rule |
| Shop.WriteSellItem | src/data/shop.rs:104-121 | a catalogue entry is written as three `u32` fields |
| Shop.ReadSellItem | src/data/shop.rs:73-102 | reading a catalogue entry succeeds exactly when three `u32` fields are there, and fails as incomplete otherwise |
| Shop.PriceWordFields | src/data/shop.rs:84-112 | the price word keeps the 20-bit price and the flags above bit 20 apart |
| Shop.ReadWriteSellItem | src/data/shop.rs:73-121 | a written catalogue entry reads back with its item, its currency, its label as read, and both prices cut to 20 bits |
| Shop.SellItemRoundTrip | src/data/shop.rs:73-121 | an entry whose prices fit 20 bits and whose label is not `New` survives a write followed by a read |
| Shop.WriteSellCaddy | src/data/shop.rs:164-177 | a caddie rental entry is written as one word, three `u32` prices and an `i32` |
| Shop.ReadSellCaddy | src/data/shop.rs:135-162 | reading a caddie entry succeeds exactly when that layout is there, passes the four price fields through unchanged, and fails as incomplete otherwise |
| Shop.CaddyWordFields | src/data/shop.rs:140-167 | the caddie word keeps a 22-bit item and the flags above bit 22 apart |
| Shop.ReadWriteSellCaddy | src/data/shop.rs:135-177 | a caddie entry whose item fits 22 bits reads back unchanged apart from the `New`-as-`Hot` rule |
| Shop.OversizeCaddyItem | src/data/shop.rs:140-167 | an item that does not fit 22 bits spills into the flags: item 0x8000000 reads back as item 0 sold for tickets only |
| Users.DefaultUser | src/data/mod.rs:109-122 | new account data has default character -1, no element, rank G4 of class G, 5000 gp, 100 sc, an empty inventory and empty golf bag and holdbox |
| Users.FirstIndex | src/data/mod.rs:127 | the index of the first inventory entry holding the item, or -1 exactly when none does |
| Users.ItemAmount | src/data/mod.rs:126-131 | the amount held of an item fits the 10-bit count field |
| Users.AmountOfEntry | src/data/mod.rs:126-131 | in an inventory without duplicate items, the amount held of an entry's item is that entry's count |
| Users.Sum | src/data/mod.rs:139 | the sum of two counts that fit stays within the count field |
| Users.AddItem | src/data/mod.rs:134-142 | the inventory after the search loop is the specified `AddedTo`: the first matching entry's count raised, or the counted item appended |
| Users.UpdateWhenPresent | src/data/mod.rs:138-139 | when the item is held at the first index i, only entry i changes, to the summed count |
| Users.AppendWhenAbsent | src/data/mod.rs:140 | when the item is not held, the counted item is appended |
| Users.AddedAmounts | src/data/mod.rs:134-142 | adding raises the amount held of the item by the count and leaves every other item's amount unchanged |
| Users.AddedEntries | src/data/mod.rs:134-142 | adding appends an entry only when the item is absent, and otherwise changes only the first matching entry |
| Users.AddedNoDuplicates | src/data/mod.rs:138-141 | an inventory without duplicate items stays without duplicates |
| Users.FirstIndexAppend | src/data/mod.rs:127-140 | appending an absent item makes it found at the old length and changes no other search |
| Users.FirstIndexUpdate | src/data/mod.rs:127-139 | changing an entry's count does not change any search |
| Users.CheckBalance | src/data/mod.rs:145-151 | a balance check passes exactly when the currency is not tickets-only and the cost is at most the balance in that currency |
| Users.AdjustBalance | src/data/mod.rs:154-160 | adjusting changes the balance of the chosen currency by delta and nothing else |
| Users.PayCovered | src/data/mod.rs:145-160 | paying a non-negative cost that the balance check allowed leaves a non-negative balance |
| Strings.SequenceLength | src/packets/helpers.rs:28 | the length of a UTF-8 sequence read from its lead byte is at most 4 and 1 for an ASCII byte |
| Strings.BeforeNul | src/packets/helpers.rs:13-81 | the part before the first NUL is a prefix without NUL, followed by a NUL unless it is everything |
| Strings.AToString | src/packets/helpers.rs:12-15 | the text of a byte string is exactly the bytes before the first NUL, or all of them if there is none |
| Strings.AFromStr | src/packets/helpers.rs:59-68 | building a byte string of capacity L succeeds exactly when the text is shorter than L, and then holds the text followed by zeros |
| Strings.AFromStrHasNul | src/packets/helpers.rs:59-68 | every byte string built from text holds at least one NUL |
| Strings.AToStringFromStr | src/packets/helpers.rs:12-68 | valid text without NUL and shorter than the capacity gives back the same text |
| Strings.BeforeNulAt | src/packets/helpers.rs:13-81 | the part before the first NUL ends at the first NUL |
| Strings.WriteAString | src/packets/helpers.rs:41-45 | a byte string is written as exactly its L bytes |
| Strings.ReadAString | src/packets/helpers.rs:18-39 | reading a byte string succeeds exactly when L bytes are there and the part before the first NUL is valid UTF-8, keeps all L bytes including those after the NUL, and otherwise fails with a parse error |
| Strings.ReadWriteAString | src/packets/helpers.rs:18-45 | a byte string whose text is valid reads back exactly as written |
| Strings.WDefault | src/packets/helpers.rs:73-77 | the default wide string holds L units |
| Strings.Utf16Lossy | src/packets/helpers.rs:80-83 | the lossy decoding maps each unit to exactly one unit |
| Strings.Utf16LossyWellFormed | src/packets/helpers.rs:80-83 | the lossy decoding always gives well-formed UTF-16, and changes only surrogates, each into U+FFFD |
| Strings.Utf16LossyIdentity | src/packets/helpers.rs:80-83 | the lossy decoding gives back its input exactly when the input is well-formed UTF-16 |
| Strings.WToString | src/packets/helpers.rs:80-83 | the text of a wide string is the units before the first NUL (or all of them) decoded lossily: as long as that prefix, without NUL, well-formed UTF-16, and equal to the prefix exactly when the prefix is well formed |
| Strings.WDefaultIsEmpty | src/packets/helpers.rs:73-83 | the default wide string is all zeros and its text is empty |
| Strings.WPadded | src/packets/helpers.rs:117-126 | a padded wide string holds the units followed by zeros up to L |
| Strings.WFromStr | src/packets/helpers.rs:116-128 | the fill loop succeeds exactly when the text has at most L units, so exactly L units are accepted with no terminator, and gives the padded string |
| Strings.WToStringFromStr | src/packets/helpers.rs:80-128 | well-formed text without NUL of at most L units gives back the same text |
| Strings.WriteWString | src/packets/helpers.rs:99-103 | a wide string is written as exactly its L units |
| Strings.ReadWString | src/packets/helpers.rs:86-97 | reading a wide string succeeds exactly when L units are there, and keeps them all |
| Strings.ReadWriteWString | src/packets/helpers.rs:86-103 | a wide string reads back exactly as written |
| Packets.ModeValue | src/packets/mod.rs:77-87 | a mode's wire value lies in -1..=5 |
| Packets.ModeFromValue | src/packets/mod.rs:77-87 | a wire value names a mode exactly when it lies in -1..=5, and that mode's value is the wire value |
| Packets.ModeRoundTrip | src/packets/mod.rs:77-87 | every mode reads back from its wire value |
| Packets.AckIDPassValue | src/packets/mod.rs:1729-1745 | a login answer's code lies in -6..=0 and is 0 exactly for OK |
| Packets.BuyItemValue | src/packets/mod.rs:2100-2110 | a purchase answer's code lies in -6..=0 and is 0 exactly for OK |
| Packets.AnswerCodesDistinct | src/packets/mod.rs:1729-1745 | distinct answers have distinct codes |
| Packets.ReadStat | src/packets/mod.rs:43-55 | a status is read from one `u32` keeping every bit, and the rest of the input is left |
| Packets.WriteStat | src/packets/mod.rs:57-65 | a status is written as one `u32` holding its bits unchanged |
| Packets.StatRoundTrip | src/packets/mod.rs:43-65 | every 32-bit status, known flags or not, survives a write followed by a read |
| Packets.WriteHeader | src/packets/mod.rs:103-107 | a header is written as two `i16`s, id then pid |
| Packets.ReadHeader | src/packets/mod.rs:103-107 | reading a header succeeds exactly when two `i16`s are there, and leaves the rest |
| Packets.HeaderRoundTrip | src/packets/mod.rs:103-107 | a header survives a write followed by a read |
| Packets.CreateError | src/packets/mod.rs:1884-1918 | the error answer keeps mode and lobby, puts the code in the room field, zeroes every other room field and limit, and has an empty name and password |
| Packets.IdOf | src/packets/mod.rs:109-1711 | every message but the catch-all `Unknown` has an id, and an unmodelled message's id is one that no kind with a constructor of its own uses |
| Packets.IdOfInjective | src/packets/mod.rs:109-1711 | two messages written with the same id are of the same kind, and an unmodelled message is determined by its id |
| MessageKinds.KindOfIdInverts | src/packets/mod.rs:109-1711 | reading the id a kind is written with selects that kind again |
| MessageKinds.IdInjective | src/packets/mod.rs:109-1711 | no two kinds share an id |
| Stream.FrameLength | src/stream.rs:68-69 | the announced length is the first two bytes read little-endian, at most 65535 |
| Stream.LengthBytes | src/stream.rs:57 | a length is written as two bytes |
| Stream.LengthRoundTrip | src/stream.rs:57-69 | a length written little-endian reads back as the same length |
| Stream.Frame | src/stream.rs:57-58 | a frame is the two length bytes followed by the payload unchanged |
| Stream.Parsed | src/stream.rs:62-91 | with fewer than 2 bytes, or fewer than 2 plus the length, nothing is parsed and the buffer is kept; a failed decode is an error and keeps the buffer; a success took exactly one whole frame off the front, whose payload decoded to the message, and keeps the later bytes in order |
| Stream.ParseFrame | src/stream.rs:62-91 | a buffer starting with a whole frame that decodes yields that message and keeps exactly the bytes after the frame |
| Stream.PartialFrame | src/stream.rs:64-72 | any proper prefix of a frame yields nothing and is kept whole |
| Stream.NextPid | src/stream.rs:43 | the pid after p is p + 1, wrapping at the `i16` bound |
| Stream.Written | src/stream.rs:47-60 | `Unknown` has no id and cannot be written; a written frame is the length followed by the encoded header (id and pid) and body, at most 65535 bytes |
| Stream.WriteThenParse | src/stream.rs:47-91 | under a codec that round-trips, parsing the bytes of a written frame, followed by anything, yields the same id, pid and body and keeps what follows |
| Stream.Connection.constructor | src/stream.rs:20-26 | a new connection has an empty buffer, nothing sent, and next pid 1 |
| Stream.Connection.ParsePacket | src/stream.rs:62-91 | the result and the buffer afterwards are those of `Parsed` on the buffer before |
| Stream.Connection.ReadPacket | src/stream.rs:28-39 | the loop parses after each chunk read: it stops at the first chunk after which a message parses, an error, or the end of input; every earlier attempt parsed nothing |
| Stream.Connection.WritePacketWithPid | src/stream.rs:47-60 | the frame for the given pid is appended to the bytes sent, or nothing is sent and the error is returned; the pid counter is untouched |
| Stream.Connection.WritePacket | src/stream.rs:41-45 | the message is written with the current pid and the counter moves to the next pid |
| Login.AuthenticateUser | src/login_server.rs:13-43 | the checks run in order: empty username is IDError, empty password PassError, version other than 956 VersionError, unknown account or lookup failure AccountNotError, wrong password PassError; OK exactly when all pass and the stored password matches |
| Login.Respond | src/login_server.rs:52-82 | SEND_IDPASS is answered only while unauthenticated, with its login result; REQ_GMSVLIST is answered only when authenticated, with the server entry then ACK_GMSVLIST; anything else gets nothing; the flag becomes set only by an accepted login |
| Login.Session | src/login_server.rs:52-83 | a session answers each incoming message with one (possibly empty) list of replies |
| Login.HandleConnection | src/login_server.rs:45-90 | the message loop gives the answers and the final flag of `Session` |
| Login.AuthenticatedIffAccepted | src/login_server.rs:54-61 | a session ends authenticated exactly when some login in it was accepted |
| Login.SessionPrefix | src/login_server.rs:52-83 | the answers to the first k messages do not depend on later messages |
| Login.GateAt | src/login_server.rs:54-78 | a server-list request is answered exactly when a login was accepted before it; a login message is answered exactly when none was |
| GameServers.MakeUData | src/gs2/mod.rs:56-83 | a player's user data carries their own cid, uid, name, default character, golf bag, hold box, element and rank |
| GameServers.MakeUList | src/gs2/mod.rs:85-118 | a listing carries the player's cid, uid, name, mode, lobby and room, the low 16 bits of their status, and the class whose value is their rank divided by four |
| GameServers.Roster | src/gs2/mod.rs:42-53 | the roster has one seat per connected player, in order, holding that player's cid, mode and lobby |
| GameServers.MemberIsConnected | src/gs2/lobby_mgmt.rs:278-284 | on a valid server, a member of a lobby is looked up to a player in that mode and lobby |
| GameServers.MembersConnected | src/gs2/lobby_mgmt.rs:308-313 | on a valid server, every member of a lobby is in the cid lookup, so the notify loops' `unwrap` cannot fail |
| GameServers.Deliver | src/gs2/mod.rs:120-122 | a write to one player changes nobody's seat |
| GameServers.DeliverAll | src/gs2/mod.rs:120-126 | several writes to one player change nobody's seat |
| GameServers.RosterUpdate | src/gs2/mod.rs:129-137 | changing one player changes only that player's seat in the roster |
| GameServers.SameSeat | src/gs2/mod.rs:129-137 | changing a player's account, room or outbox leaves the roster as it was |
| GameServers.Relayed | src/gs2/game_mgmt.rs:334-353 | a relay that completes changes nobody's seat |
| GameServers.RelayedSomeIff | src/gs2/lobby_mgmt.rs:278-284 | with a valid lookup, the relay completes exactly when every target other than the sender is connected; otherwise the source's `unwrap` panics |
| GameServers.HitsSnoc | src/gs2/lobby_mgmt.rs:278-284 | one more target adds one copy for its cid, unless it is the skipped sender |
| GameServers.DeliverCounts | src/gs2/lobby_mgmt.rs:278-284 | one more relayed write keeps every player at one copy per time their cid was targeted so far |
| GameServers.RelayedContents | src/gs2/game_mgmt.rs:334-353 | when the relay completes, each player receives one copy of the message per time their cid is a target (none for the sender) and is otherwise unchanged |
| GameServers.RelayedNoneExtends | src/gs2/lobby_mgmt.rs:278-284 | once a prefix of the targets fails, the whole relay fails |
| GameServers.SwapRemove | src/gs2/mod.rs:254 | `swap_remove` shortens the list by one, moves the last element into the gap and keeps every other position |
| GameServers.SwapRemoveValid | src/gs2/mod.rs:245-262 | removing a player who is in no lobby, and pointing the lookup entry of the moved player at its new index, keeps the lookup and lobby membership valid, and the removed cid is no longer looked up |
| GameServers.FreeCid | src/gs2/mod.rs:140-152 | a cid found is in 600..=999 and not already connected |
| GameServers.FreeCidNone | src/gs2/mod.rs:140-152 | the search finds nothing exactly when every cid it tries is taken |
| GameServers.FreeCidFullTurn | src/gs2/mod.rs:140-152 | one full turn of 400 tries finds a free cid unless all 400 cids of the pool are taken |
| GameServers.NewPlayer | src/gs2/mod.rs:200-236 | a new player has the fresh cid, the account's uid, data and characters, the stored name or `_` and the login name, no lobby, no room, no status, mode None, and an outbox of the profile followed by an empty colour result |
| GameServers.AddPlayerValid | src/gs2/mod.rs:238-239 | appending a seat with a fresh cid in no lobby, and looking it up at the old length, keeps the lookup and membership valid |
| GameServers.LoginKeepsValid | src/gs2/mod.rs:238-239 | appending a player with a fresh cid in no lobby keeps the server's invariant |
| GameServers.GameServer.Start | src/gs2/mod.rs:494-502 | a started server is valid, has next cid 600, nobody connected, an empty lookup, the initial lobbies and the given catalogues |
| GameServers.GameServer.Write | src/gs2/mod.rs:120-122 | the message is queued without a pid on the player's outbox; nothing else changes |
| GameServers.GameServer.WriteWithPid | src/gs2/mod.rs:124-126 | the message is queued with the pid on the player's outbox; nothing else changes |
| GameServers.GameServer.Relay | src/gs2/game_mgmt.rs:334-353 | the relay loop reports success exactly when `Relayed` completes, and then leaves every player as `Relayed` says; seats never change |
| GameServers.GameServer.GenerateCid | src/gs2/mod.rs:140-152 | the cid taken is the first free one from `next_cid` on, wrapping 999 to 600, and `next_cid` then follows it |
| GameServers.GameServer.UidConnected | src/gs2/mod.rs:194-198 | the scan answers true exactly when some connected player has the uid |
| GameServers.GameServer.Admit | src/gs2/mod.rs:200-241 | the server stays valid; with a free cid the new player is appended and looked up under it and the answer is success with that cid; with none nothing changes |
| GameServers.GameServer.HandleLogin | src/gs2/mod.rs:181-243 | a refused login answers IDError and a uid already connected MultiLoginError, both leaving the connections, the lookup and the next cid as they were; otherwise the player is admitted under a fresh cid; the lobbies and catalogues never change and the server stays valid |
| GameServers.Announce | src/gs2/lobby_mgmt.rs:306-313 | on a valid server a relay keeps it valid and completes exactly when every target is connected, with the players as `Relayed` gives |
| Rooms.LobbyList | src/gs2/lobby_mgmt.rs:29-35 | only VS and Competition have lobbies, each mode its own list |
| Rooms.LobbyAt | src/gs2/lobby_mgmt.rs:29-52 | a lobby is found exactly when the mode is VS or Competition and the number is neither negative nor past the end of that mode's list, and it is that list's entry |
| Rooms.WithLobby | src/gs2/lobby_mgmt.rs:37-61 | updating a lobby through `lobby_mut` gives that lobby at its place and leaves every other mode and number as it was |
| Rooms.Search | src/gs2/lobby_mgmt.rs:65-68 | an index the search returns is within the range searched and holds a room with the number sought |
| Rooms.SearchFinds | src/gs2/lobby_mgmt.rs:63-82 | on rooms sorted by number the binary search misses exactly when no room in the range has the number |
| Rooms.SearchMisses | src/gs2/lobby_mgmt.rs:63-82 | when the binary search misses on rooms sorted by number, each room of the range has another number |
| Rooms.RoomIndex | src/gs2/lobby_mgmt.rs:63-82 | a room found has the number sought; on sorted rooms, none is found exactly when no room has the number |
| Rooms.FirstFreeFrom | src/gs2/lobby_mgmt.rs:133-153 | the number given is unused, at most 127, and every number before it from the start is used; none exactly when every number up to 127 is used |
| Rooms.PickFreeRoomNum | src/gs2/lobby_mgmt.rs:133-153 | on sorted rooms numbered 0..=127 the loop answers the smallest unused room number, or none when all 128 are taken |
| Rooms.UsizeOfI8 | src/gs2/lobby_mgmt.rs:167 | an `i8` capacity becomes itself as a `usize` when not negative and sign-extends to a value near 2^64 when negative |
| Rooms.NewRoom | src/gs2/lobby_mgmt.rs:157-192 | a new room has the given number, no members and no current player, a password exactly when flag bit 4 is set and spectators exactly when bit 2 is set |
| Rooms.MakeRoomStat | src/gs2/lobby_mgmt.rs:194-225 | a room's description has its number, capacity and head count, and flag bit 2 exactly for spectators and bit 4 exactly for a password |
| Rooms.RoomPacket | src/gs2/lobby_mgmt.rs:398-406 | a room's `Packet19` has the player's mode and lobby and the room's description, and its name and password strings have the 33 and 17 units a request has; `Rooms.RoomRoundTrip` reads the room back from it |
| Rooms.MakeLobbyData | src/gs2/lobby_mgmt.rs:122-131 | a lobby's description has its number, mode, name, capacity and head count |
| Rooms.NewRoomStat | src/gs2/lobby_mgmt.rs:157-225 | a room made from a request with a non-negative capacity describes itself with the room number, the request's capacity and settings, no members and no watchers, and of the flags keeps exactly the spectator (2) and password (4) bits |
| Rooms.NegativeCapacityNeverFits | src/gs2/lobby_mgmt.rs:167 | a negative capacity in the request gives a room that never fills and whose description always fails the `try_into().unwrap()` |
| Rooms.RoomRoundTrip | src/gs2/lobby_mgmt.rs:157-225 | describing a well-formed room (its name and password fit, hold no NUL and are well-formed UTF-16) and making a room from that description gives back the same room, empty and with no current player |
| Rooms.InsertionPoint | src/gs2/lobby_mgmt.rs:377-378 | the insertion point lies after every room numbered no larger and before the first larger one |
| Rooms.InsertRoom | src/gs2/lobby_mgmt.rs:377-378 | push then sort leaves one more room in the list |
| Rooms.InsertRoomSorted | src/gs2/lobby_mgmt.rs:377-378 | inserting a room with an unused number keeps the list sorted and holds exactly the old rooms plus the new one |
| Rooms.InsertRoomContents | src/gs2/lobby_mgmt.rs:377-378 | the result is the old rooms before the insertion point, the new room, then the remaining old rooms in order |
| Rooms.InitialLobbiesWellFormed | src/gs2/lobby_mgmt.rs:538-557 | the starting lobbies (one VS lobby "Foo" and one Competition lobby "Bar", 10 places each, no rooms) are well formed |
| LobbyMgmt.WithLobbyWellFormed | src/gs2/lobby_mgmt.rs:54-61 | a well-formed lobby stored through `lobby_mut` keeps all lobbies well formed |
| LobbyMgmt.LobbyAtWellFormed | src/gs2/lobby_mgmt.rs:45-52 | every lobby found in well-formed lobbies is well formed |
| LobbyMgmt.SameMembersValid | src/gs2/lobby_mgmt.rs:54-61 | replacing a lobby with one that has the same members keeps the member lists in step with the players |
| LobbyMgmt.NotInLobbyNotMember | src/gs2/lobby_mgmt.rs:255-257 | a player whose `cur_lobby` is negative is in no lobby's member list |
| LobbyMgmt.JoinValid | src/gs2/lobby_mgmt.rs:270-272 | a player in no lobby joining a lobby of their mode that has space keeps the lookup valid, the lobbies well formed and membership in step |
| LobbyMgmt.Position | src/gs2/lobby_mgmt.rs:301 | the position found holds the cid and no earlier position does |
| LobbyMgmt.RemoveAt | src/gs2/lobby_mgmt.rs:302 | `Vec::remove` leaves one element fewer |
| LobbyMgmt.RemoveMember | src/gs2/lobby_mgmt.rs:300-302 | removing a member from a list without duplicates keeps it without duplicates and takes out exactly that cid |
| LobbyMgmt.LeaveValid | src/gs2/lobby_mgmt.rs:291-304 | a player in a lobby is among its members, and leaving it (removed from the members, `cur_lobby` -1) keeps the invariant |
| LobbyMgmt.LeaveMembership | src/gs2/lobby_mgmt.rs:300-304 | a lobby that loses exactly the leaving player, with their `cur_lobby` reset, keeps the lookup and membership valid |
| LobbyMgmt.HitsDistinct | src/gs2/lobby_mgmt.rs:278-284 | over a member list without duplicates, each player other than the sender gets exactly one copy if a member and none otherwise |
| LobbyMgmt.ListPacket | src/gs2/lobby_mgmt.rs:326-331 | a profile goes out as `SEND_ULIST` in a room and as `SEND_ULIST_L` in a lobby, unchanged |
| LobbyMgmt.Profiles | src/gs2/lobby_mgmt.rs:326-331 | the listing succeeds exactly when every cid is connected, and then holds one profile per cid, in order, for the player looked up, with the request's pid |
| LobbyMgmt.ProfilesStop | src/gs2/lobby_mgmt.rs:327-331 | once a prefix of the cids has one not connected, the listing of all of them stops there |
| LobbyMgmt.ProfilesStep | src/gs2/lobby_mgmt.rs:327-331 | one more connected cid adds its profile after those already written |
| LobbyMgmt.ProfilesMissing | src/gs2/lobby_mgmt.rs:328 | a cid that is not connected ends the listing as a failure, with the profiles written before it |
| LobbyMgmt.SendProfiles | src/gs2/lobby_mgmt.rs:326-331 | the loop writes exactly the profiles `Profiles` lists and reports whether every cid was connected |
| LobbyMgmt.FirstUnfit | src/gs2/lobby_mgmt.rs:397-411 | every room before the index can be described and the room at the index, if any, cannot |
| LobbyMgmt.Entries | src/gs2/lobby_mgmt.rs:397-411 | one `PKT_19` per room, in order, each the room's description with the request's pid |
| LobbyMgmt.EntriesStep | src/gs2/lobby_mgmt.rs:397-411 | one more room described is one more entry written after the earlier ones |
| LobbyMgmt.NothingDelivered | src/gs2/mod.rs:120-126 | writing no messages leaves the players unchanged |
| LobbyMgmt.RefusalCode | src/gs2/lobby_mgmt.rs:490-495 | every refusal code is negative, and it is -3 exactly for a wrong password |
| LobbyMgmt.EnterRoomCheck | src/gs2/lobby_mgmt.rs:423-443 | entry is allowed exactly when the player's room number is at most 0, the room exists in their lobby, any password matches, and the room has space, and it yields that room; a wrong password is reported exactly when the room exists, has a password and it does not match |
| LobbyMgmt.NewRoomWellFormed | src/gs2/lobby_mgmt.rs:157-192 | a room made from a request as the wire delivers it, under a non-negative number, is well formed whatever its members: the lossy decoding leaves its name and password well-formed UTF-16 |
| LobbyMgmt.AddRoomValid | src/gs2/lobby_mgmt.rs:377-378 | inserting a well-formed room under an unused number keeps the lobbies well formed and membership in step |
| LobbyMgmt.RoomAtWellFormed | src/gs2/lobby_mgmt.rs:63-69 | every room found in well-formed lobbies is well formed |
| LobbyMgmt.WithRoomValid | src/gs2/lobby_mgmt.rs:71-82 | storing a well-formed room through `room_mut` keeps the invariant and is then found under its number |
| LobbyMgmt.MadeRoomFound | src/gs2/lobby_mgmt.rs:377-378 | a room inserted under an unused number is found again under that number |
| LobbyMgmt.HandleGetLobbyNum | src/gs2/lobby_mgmt.rs:229-235 | for a mode with lobbies the player is sent their count, and the handler fails when it does not fit an `i8`; for other modes nothing is sent |
| LobbyMgmt.HandleGetLobbyData | src/gs2/lobby_mgmt.rs:237-252 | when the lobby exists the player gets its description with the request's pid; otherwise nothing is sent |
| LobbyMgmt.HandleEnterLobby | src/gs2/lobby_mgmt.rs:254-288 | a player already in a lobby or naming no lobby fails with no change; a full lobby answers -1; otherwise the player is appended to the members, has that lobby, gets the number, and every other member gets their profile |
| LobbyMgmt.EjectFromLobby | src/gs2/lobby_mgmt.rs:291-316 | fails exactly when the player is in no lobby; otherwise they are removed from the members, have lobby -1, and every remaining member gets their new profile |
| LobbyMgmt.HandleReqLobbyMembers | src/gs2/lobby_mgmt.rs:319-336 | an unknown lobby fails with nothing sent; otherwise every member is connected and the player gets each member's profile in order |
| LobbyMgmt.HandleGetRoomMembers | src/gs2/lobby_mgmt.rs:508-535 | an unknown room gets `ACK_ULIST_R(Err)`; otherwise each member's profile then `ACK_ULIST_R(OK)`, or a panic after the profiles of the members before the first one not connected |
| LobbyMgmt.AddRoom | src/gs2/lobby_mgmt.rs:371-378 | the new room with the player as its only member is inserted into the lobby in number order and the player is in it |
| LobbyMgmt.HandleMakeRoom | src/gs2/lobby_mgmt.rs:339-385 | a lobby that does not exist, a mode or lobby other than the player's, or a player already in a room fails with no change; with all 128 numbers taken the answer is -1; otherwise the room is added under the smallest free number and the answer is that number |
| LobbyMgmt.HandleGetRooms | src/gs2/lobby_mgmt.rs:388-414 | a player in no lobby fails; otherwise the player gets the description of each room in order, up to the first that cannot be described, where the source panics |
| LobbyMgmt.JoinRoom | src/gs2/lobby_mgmt.rs:446-447 | the player is appended to the room's members and is in the room; the invariant holds |
| LobbyMgmt.HandleEnterRoom | src/gs2/lobby_mgmt.rs:416-505 | a refused entry answers the error description with code -3 for a wrong password and -1 otherwise, changing nothing; an admitted player joins the room, gets its description, and every other member gets their profile |
| GameMgmt.AllHoles | src/gs2/game_mgmt.rs:15-52 | the hole list starts as the eighteen holes 0..17 in course order |
| GameMgmt.AllHolesDistinct | src/gs2/game_mgmt.rs:15-52 | each hole appears exactly once in the starting list |
| GameMgmt.HoleNumbers | src/gs2/game_mgmt.rs:20-21 | a game's hole list is eighteen long, begins with the first three holes of the order and has -1 in every later place |
| GameMgmt.HoleNumbersShape | src/gs2/game_mgmt.rs:20-58 | after a shuffle and the fill, a game's holes are three different holes of the course followed by fifteen -1 |
| GameMgmt.PaddedCids | src/gs2/game_mgmt.rs:60-63 | the cid array holds the players in order then -1 up to fifty places, and exists exactly when there are at most fifty players (more panics on the index) |
| GameMgmt.FillCidArray | src/gs2/game_mgmt.rs:60-63 | the loop writing each member at its index into a fifty-place array of -1 gives `PaddedCids` |
| GameMgmt.SingleGame | src/gs2/game_mgmt.rs:13-46 | a single-mode game plays three holes, lists the player first in a fifty-place cid array with -1 everywhere else, and its holes are those `HoleNumbers` gives |
| GameMgmt.SingleGameShape | src/gs2/game_mgmt.rs:13-46 | a single-mode game is mode Single, one player of one, three holes, the player alone in the cid array, and the shuffled holes |
| GameMgmt.VsGame | src/gs2/game_mgmt.rs:48-85 | a VS game can be built exactly when the room has at most fifty members and at most 127 places, and then lists the members in order with their count and the room's capacity |
| GameMgmt.GenerateVsGame | src/gs2/game_mgmt.rs:48-85 | the construction, loop included, gives `VsGame` |
| GameMgmt.SendToRoommates | src/gs2/game_mgmt.rs:334-353 | a player in no room is an error with nothing sent; otherwise every other member of the room gets the packet, and the call completes exactly when they are all connected |
| GameMgmt.HandleSendLoadStat | src/gs2/game_mgmt.rs:154-200 | the loading progress goes to every other member of the room; a player in no room only causes a warning |
| GameMgmt.MarkShooter | src/gs2/game_mgmt.rs:232-238 | the player becomes the current player of their room, if they are in one, and nothing else changes |
| GameMgmt.HandleShotInfo | src/gs2/game_mgmt.rs:220-251 | the player becomes the room's current player and the shot goes to every other member; a player in no room is an error with nothing changed |
| GameMgmt.HandleStopBallPos | src/gs2/game_mgmt.rs:275-308 | in a room, a player who is not the current player is ignored; otherwise the position is echoed to the player and relayed to the other members; a player in no room gets the echo and then the error |
| GameMgmt.HandleSendPCommand | src/gs2/game_mgmt.rs:311-332 | the command is echoed to the sender exactly when bit 15 of the flag word is clear, and is relayed to every other member of the room |
| GameMgmt.StartVsGame | src/gs2/game_mgmt.rs:124-144 | a player in no room gets `ACK_GAMESTART(Err)` and the call fails; a room that cannot build a game panics; otherwise every member, the starter included, gets the game, then the starter gets `ACK_GAMESTART(OK)` |
| GameMgmt.HandleStartGame | src/gs2/game_mgmt.rs:110-151 | single mode sends the single game then `ACK_GAMESTART(OK)` to the player; VS mode is as `StartVsGame`; any other mode fails with nothing sent |
| GameMgmt.SingleModeCarryItems | src/gs2/game_mgmt.rs:96-105 | eight carry items, a hundred of each |
| GameMgmt.HandleInitSingleMode | src/gs2/game_mgmt.rs:89-108 | the player gets `PKT_275` with count 8 and the eight carry items |
| UserMgmt.UStatSent | src/gs2/user_mgmt.rs:28-34 | the notification loop changes no player's seat and keeps the number of players |
| UserMgmt.UStatSentUpTo | src/gs2/user_mgmt.rs:28-34 | the loop over the first n players changes no seat and keeps the number of players |
| UserMgmt.UStatStep | src/gs2/user_mgmt.rs:28-34 | one more step of the loop writes to that player exactly when they hear the change, and does not touch them before |
| UserMgmt.UStatSilentOutsideLobby | src/gs2/user_mgmt.rs:30 | a status change from a player in no lobby reaches nobody |
| UserMgmt.UStatAudience | src/gs2/user_mgmt.rs:28-34 | on a valid server, the players who hear a status change from a player in a lobby are exactly the other members of that lobby |
| UserMgmt.BroadcastUStat | src/gs2/user_mgmt.rs:28-34 | the loop leaves the players as `UStatSent` gives and the server valid |
| UserMgmt.HandleSendUStat | src/gs2/user_mgmt.rs:11-42 | only when cid and uid are the sender's own is their status replaced and `SEND_USTAT` sent to every other player in the same mode and lobby; otherwise nothing changes |
| UserMgmt.LeadingSpace | src/gs2/user_mgmt.rs:51 | the count covers exactly the whitespace run at the start |
| UserMgmt.TrailingSpace | src/gs2/user_mgmt.rs:51 | the count covers exactly the whitespace run at the end |
| UserMgmt.Trim | src/gs2/user_mgmt.rs:51 | the trimmed name is a slice of the name that neither starts nor ends with whitespace, and everything cut off is whitespace |
| UserMgmt.TrimIdempotent | src/gs2/user_mgmt.rs:51 | trimming twice is trimming once |
| UserMgmt.HandleSetPlayerName | src/gs2/user_mgmt.rs:45-73 | when the store accepts it the trimmed name becomes the player's and the reply is OK; otherwise the name stays and the reply is Err |
| UserMgmt.UidIndex | src/gs2/user_mgmt.rs:80-86 | the index is that of the first player with the uid, or -1 exactly when nobody has it |
| UserMgmt.HandleReqUData | src/gs2/user_mgmt.rs:76-90 | the user data of the first player with the uid goes to the requester with the pid; nothing is sent when nobody has it |
| UserMgmt.HandleGetMoney | src/gs2/user_mgmt.rs:93-103 | the player gets their GP and SC balances with the pid |
| UserMgmt.HandleGetInventory | src/gs2/user_mgmt.rs:106-112 | the player gets their inventory with its length cast to `i32` |
| UserMgmt.HandleGetGolfbag | src/gs2/user_mgmt.rs:115-123 | the player gets their cid and golf bag |
| UserMgmt.HandleChgHoldbox | src/gs2/user_mgmt.rs:126-136 | the hold box becomes the eight given items and the reply is OK |
| ShopMgmt.HandleGetSellItems | src/gs2/shop_mgmt.rs:11-18 | the player gets the shop catalogue with its length cast to `i16` |
| ShopMgmt.HandleGetSalonItems | src/gs2/shop_mgmt.rs:21-28 | the player gets the salon catalogue with its length cast to `i16` |
| ShopMgmt.SellIndex | src/gs2/shop_mgmt.rs:34-37 | the index is that of the first catalogue entry selling the item, or -1 exactly when none does |
| ShopMgmt.FindSellIndex | src/gs2/shop_mgmt.rs:34-37 | the search loop gives the index of the first entry selling the item, or -1 |
| ShopMgmt.Limit | src/gs2/shop_mgmt.rs:41-46 | the amount one account may hold of an item is its category's maximum, at most 50 |
| ShopMgmt.CountAcceptedMeans | src/gs2/shop_mgmt.rs:40-48 | with counts that fit a count field, the two checks accept exactly a count of at least 1 whose sum with the amount held is within the maximum, and that sum then fits |
| ShopMgmt.PurchaseUnlisted | src/gs2/shop_mgmt.rs:34-37 | a purchase answers `InvalidItemType` exactly when no catalogue entry sells the item |
| ShopMgmt.PurchaseCountRefused | src/gs2/shop_mgmt.rs:40-48 | a purchase answers `InvalidCount` exactly when the item is sold and the count is 0 or takes the amount held past the maximum |
| ShopMgmt.PurchaseRefusedUnchanged | src/gs2/shop_mgmt.rs:30-63 | an item sold for tickets only is never bought, and a purchase that is not `OK` leaves the account data unchanged |
| ShopMgmt.ListedCount | src/gs2/shop_mgmt.rs:40-48 | for a sold item, `InvalidCount` exactly when the count checks fail, and never `InvalidItemType` |
| ShopMgmt.ListedUnchanged | src/gs2/shop_mgmt.rs:40-62 | for a sold item, tickets-only is never `OK`, and only `OK` changes the account data |
| ShopMgmt.CheckoutResults | src/gs2/shop_mgmt.rs:50-62 | the payment is `Err` exactly when the cost does not fit an `i32`, `Balance` exactly when it fits but the balance does not cover it (always for tickets only), `OK` otherwise; only `OK` changes the account data |
| ShopMgmt.CheckoutPays | src/gs2/shop_mgmt.rs:50-59 | a payment that goes through takes exactly the cost, which the balance covered, from the currency the item is sold for, and leaves the other balance and all other account data but the inventory as they were |
| ShopMgmt.CheckoutAdds | src/gs2/shop_mgmt.rs:60 | a payment that goes through raises the amount held of the item by the count, of no other item, and keeps the inventory free of duplicates |
| ShopMgmt.PurchaseOk | src/gs2/shop_mgmt.rs:30-63 | a purchase that goes through is the payment of the item's cost, and the amount held afterwards is within the maximum |
| ShopMgmt.PurchaseAccepted | src/gs2/shop_mgmt.rs:30-63 | once the item is found and the counts accepted, the purchase is the payment of the count times the price |
| ShopMgmt.ListedAccepted | src/gs2/shop_mgmt.rs:40-63 | once the counts are accepted they fit, and the purchase is the payment of the count times the price, wrapped to 32 bits |
| ShopMgmt.DoBuyItem | src/gs2/shop_mgmt.rs:30-63 | the method gives the answer and account data of `Purchase`, with `Err` where the cost does not fit an `i32` |
| ShopMgmt.BuyListed | src/gs2/shop_mgmt.rs:39-63 | the count checks then the payment give the answer and account data of `Listed` |
| ShopMgmt.Pay | src/gs2/shop_mgmt.rs:50-62 | the payment gives the answer and account data of `Checkout` |
| ShopMgmt.Buy | src/gs2/shop_mgmt.rs:66-72 | the answer and account data `handle_buy_item` takes from `do_buy_item` are exactly those of `Purchase`, an error counting as `Err` |
| ShopMgmt.HandleBuyItem | src/gs2/shop_mgmt.rs:66-83 | the buyer's account data become those `Purchase` gives, and the buyer gets the answer (`Err` for an internal error) then the balances afterwards with pid -1 |
| ShopMgmt.ReplyBuy | src/gs2/shop_mgmt.rs:75-78 | the player gets the answer, then their balances with pid -1 |
| CharaMgmt.ChrIndex | src/gs2/chara_mgmt.rs:58-66 | the index is that of the first character with the uid, or -1 exactly when none has it |
| CharaMgmt.FindChr | src/gs2/chara_mgmt.rs:58-66 | the search loop gives the index of the first character with the uid, or -1 |
| CharaMgmt.ChrIndexSnoc | src/gs2/chara_mgmt.rs:28 | appending a character keeps every earlier search result, and finds the new one only when no earlier character has its uid |
| CharaMgmt.FirstCharacterActive | src/gs2/chara_mgmt.rs:27-101 | after the first character is made under a fresh uid it is found at the end, its looks are the active looks, and the account counts as having a character exactly when the uid is not -1 |
| CharaMgmt.HandleCreateFirstCharacter | src/gs2/chara_mgmt.rs:13-44 | an account that already has a default character gets nothing; a storage error answers Err; otherwise the character is appended, becomes the default, and the answer is OK |
| CharaMgmt.ChrDataReplies | src/gs2/chara_mgmt.rs:82-87 | the listing holds one reply per character |
| CharaMgmt.ChrDataFromListing | src/gs2/chara_mgmt.rs:58-86 | the reply to a request for one character equals the full listing's entry for the first character with that uid, and carries that uid and the character's looks |
| CharaMgmt.HandleReqChrData | src/gs2/chara_mgmt.rs:47-76 | for a connected cid with a character of that uid, the requester gets that first character's data with the pid; otherwise nothing is sent |
| CharaMgmt.HandleGetChrData | src/gs2/chara_mgmt.rs:79-93 | for a connected cid, the requester gets the data of each of that player's characters in order; otherwise nothing |
| CharaMgmt.GetActiveAppearance | src/gs2/chara_mgmt.rs:96-112 | for a connected cid with an active character, the requester gets its looks with the pid; otherwise nothing |
| CharaMgmt.HandleGetCurrChrUid | src/gs2/chara_mgmt.rs:115-134 | for a connected cid, the requester gets that player's default character uid with the pid; otherwise nothing |
| CharaMgmt.AppearanceChanged | src/gs2/chara_mgmt.rs:151-159 | changing the looks of the first character with the uid changes only those looks, keeps every search result, and for the default character makes them the active looks |
| CharaMgmt.SameUids | src/gs2/chara_mgmt.rs:58-66 | character lists with the same uids in the same order give the same search results |
| CharaMgmt.HandleReqChgAppear | src/gs2/chara_mgmt.rs:137-166 | another player's cid, or an unknown character, answers Err with no change; otherwise the looks of the first character with the uid are replaced and the answer is OK |
| CharaMgmt.ParamsChanged | src/gs2/chara_mgmt.rs:187-200 | a parameter change replaces exactly the class cap, settings, club, ball and caddie of the first character with the uid, keeping its experience and looks, every other character and every search result |
| CharaMgmt.HandleReqChgChrParam | src/gs2/chara_mgmt.rs:169-211 | a packet of any other kind fails with no change; an unknown character answers Err; otherwise the parameters are replaced and the answer is OK |
| RecordMgmt.CRecordReply | src/gs2/record_mgmt.rs:21-40 | the reply echoes the uid, course, season and hole count; its status is OK exactly when storage found a record, which it then carries, and otherwise it carries the default record |
| RecordMgmt.CRecordReplyReadsBack | src/data/record.rs:58-118 | the record a reply carries reads back from its written fields, given that a stored record fits the codec's widths |
| RecordMgmt.HandleGetCRecord | src/gs2/record_mgmt.rs:12-44 | the reply goes to the asking player with the request's pid, nothing else changes, and the server stays valid |
| Dispatch.AfterEject | src/gs2/lobby_mgmt.rs:291-316 | after an ejection the player is in no lobby and otherwise unchanged but for their outbox, and every player keeps their cid and place |
| Dispatch.RelayedOnlyOutboxes | src/gs2/lobby_mgmt.rs:308-313 | a relay that completes changes nothing of any player but their outbox |
| Dispatch.EjectedAsStated | src/gs2/lobby_mgmt.rs:291-316 | what `EjectFromLobby` leaves behind is the ejection `AfterEject` describes |
| Dispatch.ModeChangeValid | src/gs2/mod.rs:166-172 | a player in no lobby changing mode keeps the server's invariant |
| Dispatch.HandleChangeMode | src/gs2/mod.rs:161-178 | the same mode only gets the acknowledgement; another mode first ejects the player from their lobby, then sets the mode, then acknowledges; the server stays valid |
| Dispatch.LeaveLobby | src/gs2/mod.rs:167-169 | the player is ejected from their lobby when `cur_lobby >= 0`, which on a valid server always succeeds |
| Dispatch.RemoveKeepsOthers | src/gs2/mod.rs:254-261 | after `swap_remove` every other player is reached through the fixed lookup at the same data, and the entry replaced for the moved player was the old last index, as the `assert_eq!` demands |
| Dispatch.RosterSwapRemove | src/gs2/mod.rs:254 | the roster of the swap-removed players is the swap-removed roster |
| Dispatch.DropPlayer | src/gs2/mod.rs:254-261 | a player in no lobby is swap-removed, their cid leaves the lookup, the moved player is looked up at their new index, and the server stays valid |
| Dispatch.SwapRemoveServerValid | src/gs2/mod.rs:254-261 | swap-removing a player who is in no lobby, with the lookup updated to match, keeps the whole server invariant (cid range, lookup, lobbies, membership) and drops the removed cid |
| Dispatch.RemovePlayer | src/gs2/mod.rs:245-273 | an unknown cid changes nothing; a known one is ejected from their lobby, swap-removed, and no longer looked up, and the server stays valid |
| Dispatch.HandlePlayerData | src/gs2/mod.rs:276-488 | a packet with no arm changes nothing; `GET_MODECTRL` answers every mode enabled; account, shop, character and course-record packets leave the lobbies alone; `REQ_CRECORD` is answered with the course-record reply and the request's pid; no packet changes who is connected, and the server stays valid |
| Dispatch.DispatchLobby | src/gs2/mod.rs:282-289 | the mode and lobby arms keep the server valid |
| Dispatch.DispatchRoom | src/gs2/mod.rs:290-303 | the room arms keep the server valid |
| Dispatch.DispatchGame | src/gs2/mod.rs:306-473 | the game arms keep the server valid |
| Dispatch.DispatchRelay | src/gs2/mod.rs:307-455 | the relay arms keep the server valid |
| Dispatch.DispatchUser | src/gs2/mod.rs:363-428 | the account arms keep the server valid |
| Dispatch.DispatchShop | src/gs2/mod.rs:361-417 | the shop arms keep the server valid |
| Dispatch.DispatchChara | src/gs2/mod.rs:356-407 | the character arms keep the server valid |
| Dispatch.HandleMessage | src/gs2/mod.rs:504-530 | a login and only a login gets a reply, and a successful one is then looked up; a logout leaves the cid unknown; a packet never changes who is connected, and one from an unknown cid changes nothing; the catalogues never change |
| Dispatch.Serve | src/gs2/mod.rs:490-535 | the loop keeps the server valid and handles the messages in order; it stops early exactly after a panic or at a login that finds every cid taken, where `generate_cid` never returns; the catalogues never change |

## Left out

- Concurrency and transport:
  - the per-connection task (`src/gs2/conn_task.rs`), the channels between tasks, TLS and `src/main.rs` are not part of this model;
  - a write to a player is an infallible append to their outbox, and a send failure on a channel is not modelled.
- Storage (`src/db_task/*`) is not part of this model. Its answers are parameters:
  - the account a login finds, or `Err`;
  - whether a name was saved;
  - the uid a new character gets, or `None`;
  - the course record storage finds, or `None` for a storage error.
- Storage writes whose results the source ignores are not modelled: `save_user` and `write_character`.
- The body layouts of the protocol's messages come from a serialisation library the source derives them with, so `Packets` is abstract:
  - `Stream` takes the body codec as a pair of functions;
  - `Packet` gives a constructor only to the messages the modelled handlers read or send, with only the fields they use; every other listed message is `Unmodelled`, carrying only its id;
  - the power and impact fields of `REQ_CHG_CHR_PARAM`, which the handler ignores, are absent.
- Floating-point payloads are opaque values (`F32`) that are relayed unchanged: shot direction and ball positions.
- The catalogues are parameters of `GameServers.GameServer.Start`. `build_sell_list` and `build_salon_list` build a constant table, and the table is not reproduced.
- Randomness: the shuffled hole order is a parameter, required to be a permutation of the eighteen holes.
- Logging and `Debug` formatting are left out.
- The game server's loop hands each login result back over a channel with `expect` (src/gs2/mod.rs:509-510). A dropped receiver is not modelled: `Dispatch.HandleMessage` returns the result.
- The contents of the login gate's server-list entry are left out.
- Users.AdjustBalance: requires that the new balance fits an `i32`. The source's `+=` would overflow there, which the model does not follow.
- Users.AddItem: requires that the raised count fits the count field, as the source's `with_count` asserts.
- GameServers.MakeUData and GameServers.MakeUList: a player's name is an unbounded string and always converts. The source's `name.parse().unwrap()` into a `WString<19>` (src/gs2/mod.rs:72, 99 and 116) panics on a name over 19 UTF-16 units. Every name the server stores fits, being "_" and a user name of at most 17 bytes or a name read from a `WString<19>`, but `Player` does not carry that bound.
- Stream.NextPid: wraps from 32767 to -32768, as a release build does. A debug build would panic.
- GameServers.GameServer.GenerateCid: the source loops for ever when all 400 cids are in use; the model stops after one full turn of the pool and answers `LoginHung`, at which `Dispatch.Serve` handles nothing more.
- ShopMgmt.DoBuyItem, ShopMgmt.BuyListed and ShopMgmt.Pay take the buyer's account data as a value and return the new data. `ShopMgmt.HandleBuyItem` stores the result back. The source updates the account in place; the resulting state is the same.
- Dispatch.RemovePlayer ejects the player from their lobby before dropping the cid from the lookup. The source drops it first. The result is the same, because the ejected player is no longer a lobby member to notify.
- Dispatch.DispatchRelay relays the packets of `handle_shot_club`, `handle_shot_dir` and `handle_ballpos` directly. Each of those handlers is a single call of `send_packet_to_roommates` (`GameMgmt.SendToRoommates`).
- Dispatch.HandlePlayerData and the `Dispatch.Dispatch*` methods state only the following:
  - the server's invariant;
  - which arms leave the lobbies and the lookup alone;
  - the `GET_MODECTRL` reply;
  - the `REQ_CRECORD` reply;
  - that a packet with no arm changes nothing.

  What each arm does is stated by the handler it calls.
- Dispatch.Serve: states the invariant, the catalogues, and that the loop stops early exactly at a panic or a hung login. What each message does is stated by `Dispatch.HandleMessage`.

## Findings

| source | as written | input that shows it | evidently intended | confidence | as-written member | corrected member |
|---|---|---|---|---|---|---|
| src/data/report.rs:106-107,164-165 | word 9 packs `num_pinshots` with mask 0x7F at bit 22 (bits 22..28) and `num_flag_wraps` at bit 27, so bits 27 and 28 are shared | a report with 32 pin shots and no flag wraps reads back with one flag wrap; one with a flag wrap and no pin shots reads back with 32 pin shots | mask 0x1F for pin shots, so the fields of word 9 (8+7+7+5+5 bits) tile the word | not executed | GameReports.PinshotsOverlapFlagWraps | GameReports.GameRoundTripFixed |
