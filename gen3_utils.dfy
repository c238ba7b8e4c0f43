// Game-version inference and the trainer-section decoder
// (src/save/gen3/gen3_utils.rs).
module Gen3Utils {
  import opened Utils
  import opened Gen3Save

  /** Offsets of the two key blocks inside the trainer section. */
  const KeyBlockAOffset: nat := 0x00AC
  const KeyBlockBOffset: nat := 0x0AF8

  /** Offsets of the trainer fields (see also `SectionDataLayout`). */
  const NameOffset: nat := 0x0000
  const GenderOffset: nat := 0x0008
  const TrainerIdOffset: nat := 0x000A
  const PlayedTimeOffset: nat := 0x000E

  // ---------------------------------------------------------------------
  // Game-version resolution

  /**
   * The key material that belongs to each game: Ruby/Sapphire has game code 0
   * and no key, FireRed/LeafGreen game code 1 and a key, Emerald no game code
   * and a key that is neither 0 nor 1.
   */
  predicate KeyFitsGame(g: Gen3Game, k: KeyCode)
  {
    match g
    case RubySapphire => k == KeyCode(Some(0), None)
    case FireRedLeafGreen => k.gameCode == Some(1) && k.securityKey.Some?
    case Emerald => k.gameCode.None? && k.securityKey.Some? && k.securityKey.value > 1
  }

  /** The game and key material that two key blocks stand for. */
  function Resolve(blockA: u32, blockB: u32): (r: (Gen3Game, KeyCode))
    ensures KeyFitsGame(r.0, r.1)
  {
    if blockA == 0 then (RubySapphire, KeyCode(Some(0), None))
    else if blockA == 1 then (FireRedLeafGreen, KeyCode(Some(1), Some(blockB)))
    else (Emerald, KeyCode(None, Some(blockA)))
  }

  /** Key material never leaves both fields empty. */
  lemma KeyFitsGameNotEmpty(g: Gen3Game, k: KeyCode)
    requires KeyFitsGame(g, k)
    ensures k.gameCode.Some? || k.securityKey.Some?
  {
  }

  /** The key material alone tells the games apart. */
  lemma KeyCodeIdentifiesGame(g: Gen3Game, h: Gen3Game, k: KeyCode)
    requires KeyFitsGame(g, k) && KeyFitsGame(h, k)
    ensures g == h
  {
  }

  /** The first key block as it can be read back from a game and its key material. */
  function BlockAOf(g: Gen3Game, k: KeyCode): u32
    requires KeyFitsGame(g, k)
  {
    match g
    case RubySapphire => 0
    case FireRedLeafGreen => 1
    case Emerald => k.securityKey.value
  }

  /**
   * Resolution loses nothing of the first block: it is the game code for 0
   * and 1 and the security key otherwise (in the Emerald case the key is
   * the first block, not the second).
   */
  lemma ResolveKeepsBlockA(blockA: u32, blockB: u32)
    ensures BlockAOf(Resolve(blockA, blockB).0, Resolve(blockA, blockB).1) == blockA
    ensures Resolve(blockA, blockB).0 == Emerald ==> Resolve(blockA, blockB).1.securityKey == Some(blockA)
  {
  }

  /** The second block matters only for FireRed/LeafGreen, where it is the key. */
  lemma ResolveUsesBlockBOnlyForFireRed(blockA: u32, blockB: u32, otherB: u32)
    ensures blockA != 1 ==> Resolve(blockA, blockB) == Resolve(blockA, otherB)
    ensures blockA == 1 ==> Resolve(blockA, blockB).1.securityKey == Some(blockB)
  {
  }

  /** `get_security_key_or_game_code`: records the game in `save` and returns the key material. */
  method GetSecurityKeyOrGameCode(blockA: u32, blockB: u32, save: SaveGen3) returns (k: KeyCode)
    modifies save`gameVer
    ensures (save.gameVer, k) == Resolve(blockA, blockB)
    ensures save.trainerSection == old(save.trainerSection)
  {
    if blockA == 0x0000_0000 {
      save.gameVer := RubySapphire;
      k := KeyCode(Some(0x0000_0000), None);
    } else if blockA == 0x0000_0001 {
      save.gameVer := FireRedLeafGreen;
      k := KeyCode(Some(0x0000_0001), Some(blockB));
    } else {
      save.gameVer := Emerald;
      k := KeyCode(None, Some(blockA));
    }
  }

  // ---------------------------------------------------------------------
  // The trainer record

  /** The game a trainer section was written by, from its two key blocks. */
  function TrainerGame(sectionBytes: seq<u8>): Gen3Game
    requires |sectionBytes| >= SectionSize
  {
    Resolve(GetU32LeOffset(sectionBytes, KeyBlockAOffset).value,
            GetU32LeOffset(sectionBytes, KeyBlockBOffset).value).0
  }

  /** The trainer record a trainer section decodes to. */
  function TrainerRecord(sectionBytes: seq<u8>): TrainerData
    requires |sectionBytes| >= SectionSize
  {
    var blockA := GetU32LeOffset(sectionBytes, KeyBlockAOffset).value;
    var blockB := GetU32LeOffset(sectionBytes, KeyBlockBOffset).value;
    TrainerData(
      Some(ReadSectionData(sectionBytes)),
      TryIntoArray(GetOffset(sectionBytes, NameOffset, 7), 7).value,
      sectionBytes[GenderOffset],
      TrainerId(
        GetU32LeOffset(sectionBytes, TrainerIdOffset).value,
        GetU16LeOffset(sectionBytes, TrainerIdOffset).value,
        GetU16LeOffset(sectionBytes, TrainerIdOffset + 2).value),
      PlayedTime(
        TryIntoArray(GetOffset(sectionBytes, PlayedTimeOffset, 5), 5).value,
        GetU16LeOffset(sectionBytes, PlayedTimeOffset).value,
        sectionBytes[PlayedTimeOffset + 2],
        sectionBytes[PlayedTimeOffset + 3],
        sectionBytes[PlayedTimeOffset + 4]),
      Resolve(blockA, blockB).1)
  }

  /**
   * What a decoded trainer record holds: the section trailer, the name and
   * gender bytes, a trainer id whose u32 view and u16 halves agree, a play
   * time whose raw bytes and decomposed fields agree, and key material that
   * fits the game resolved from the same section.
   */
  lemma TrainerRecordFields(sectionBytes: seq<u8>)
    requires |sectionBytes| >= SectionSize
    ensures var r := TrainerRecord(sectionBytes);
      && r.sectionInfo == Some(ReadSectionData(sectionBytes))
      && r.name == sectionBytes[0..7] && r.gender == sectionBytes[8]
      && r.id.trainerId == LeValue(sectionBytes[0x000A..0x000E])
      && r.id.trainerId == r.id.secretId + 0x1_0000 * r.id.publicId
      && r.time.time == sectionBytes[0x000E..0x0013]
      && r.time.hours == r.time.time[0] + 0x100 * (r.time.time[1] as int)
      && r.time.minutes == r.time.time[2]
      && r.time.seconds == r.time.time[3]
      && r.time.frames == r.time.time[4]
      && KeyFitsGame(TrainerGame(sectionBytes), r.security)
      && LeValue(sectionBytes[0x00AC..0x00B0]) < 0x1_0000_0000
      && LeValue(sectionBytes[0x0AF8..0x0AFC]) < 0x1_0000_0000
      && (TrainerGame(sectionBytes), r.security)
         == Resolve(LeValue(sectionBytes[0x00AC..0x00B0]), LeValue(sectionBytes[0x0AF8..0x0AFC]))
  {
    assert Pow256(4) == 0x1_0000_0000;
    LeValueBound(sectionBytes[0x00AC..0x00B0]);
    LeValueBound(sectionBytes[0x0AF8..0x0AFC]);
    U32ReaderIsLeValue(sectionBytes, TrainerIdOffset);
    U32IsTwoU16(sectionBytes, TrainerIdOffset);
    U32ReaderIsLeValue(sectionBytes, KeyBlockAOffset);
    U32ReaderIsLeValue(sectionBytes, KeyBlockBOffset);
  }

  /** A trainer id stored as the bytes 2A 00 00 00 decodes to 42 with halves 42 and 0. */
  lemma TrainerIdExample(sectionBytes: seq<u8>)
    requires |sectionBytes| >= SectionSize
    requires sectionBytes[TrainerIdOffset..TrainerIdOffset + 4] == [0x2A, 0, 0, 0]
    ensures TrainerRecord(sectionBytes).id == TrainerId(42, 42, 0)
  {
    var id := sectionBytes[TrainerIdOffset..TrainerIdOffset + 4];
    assert sectionBytes[0x000A] == id[0] && sectionBytes[0x000B] == id[1];
    assert sectionBytes[0x000C] == id[2] && sectionBytes[0x000D] == id[3];
  }

  /** Two byte strings with the same first 4096 bytes have the same slices inside them. */
  lemma SameSectionSameSlice(a: seq<u8>, b: seq<u8>, offset: nat, n: nat)
    requires |a| >= SectionSize && |b| >= SectionSize && offset + n <= SectionSize
    requires a[..SectionSize] == b[..SectionSize]
    ensures GetOffset(a, offset, n) == GetOffset(b, offset, n)
  {
    assert GetOffset(a, offset, n) == a[..SectionSize][offset..offset + n];
    assert GetOffset(b, offset, n) == b[..SectionSize][offset..offset + n];
  }

  /** Decoding looks at the first 4096 bytes only: what follows them does not matter. */
  lemma TrainerRecordReadsSectionOnly(a: seq<u8>, b: seq<u8>)
    requires |a| >= SectionSize && |b| >= SectionSize
    requires a[..SectionSize] == b[..SectionSize]
    ensures TrainerRecord(a) == TrainerRecord(b)
    ensures TrainerGame(a) == TrainerGame(b)
  {
    SameSectionSameSlice(a, b, NameOffset, 7);
    assert a[GenderOffset] == a[..SectionSize][GenderOffset];
    SameSectionSameSlice(a, b, TrainerIdOffset, 4);
    SameSectionSameSlice(a, b, TrainerIdOffset, 2);
    SameSectionSameSlice(a, b, TrainerIdOffset + 2, 2);
    SameSectionSameSlice(a, b, PlayedTimeOffset, 5);
    SameSectionSameSlice(a, b, PlayedTimeOffset, 2);
    assert a[PlayedTimeOffset + 2..PlayedTimeOffset + 5] == b[PlayedTimeOffset + 2..PlayedTimeOffset + 5] by {
      assert a[PlayedTimeOffset + 2..PlayedTimeOffset + 5] == a[..SectionSize][PlayedTimeOffset + 2..PlayedTimeOffset + 5];
      assert b[PlayedTimeOffset + 2..PlayedTimeOffset + 5] == b[..SectionSize][PlayedTimeOffset + 2..PlayedTimeOffset + 5];
    }
    SameSectionSameSlice(a, b, KeyBlockAOffset, 4);
    SameSectionSameSlice(a, b, KeyBlockBOffset, 4);
    SameSectionSameSlice(a, b, SectionIdField.offset, 2);
    SameSectionSameSlice(a, b, ChecksumField.offset, 2);
    SameSectionSameSlice(a, b, SignatureField.offset, 4);
    SameSectionSameSlice(a, b, SaveIndexField.offset, 4);
  }

  /**
   * `parse_trainer_data_from_byte_array`: decodes every trainer field and,
   * last of all, resolves the game from the key blocks and records it in `save`.
   */
  method ParseTrainerDataFromByteArray(sectionBytes: seq<u8>, save: SaveGen3) returns (r: Result<TrainerData>)
    requires |sectionBytes| >= SectionSize
    modifies save`gameVer
    ensures r == Ok(TrainerRecord(sectionBytes))
    ensures save.gameVer == TrainerGame(sectionBytes)
    ensures save.trainerSection == old(save.trainerSection)
  {
    // Each `?` of the source is `.value` here: the readers' contracts show
    // that none of them returns an error.
    var sectionInfo := SectionData(
      GetU16LeOffset(sectionBytes, SectionIdField.offset).value,
      GetU16LeOffset(sectionBytes, ChecksumField.offset).value,
      GetU32LeOffset(sectionBytes, SignatureField.offset).value,
      GetU32LeOffset(sectionBytes, SaveIndexField.offset).value);
    var name := TryIntoArray(GetOffset(sectionBytes, NameOffset, 7), 7).value;
    var gender := sectionBytes[GenderOffset];
    var id := TrainerId(
      GetU32LeOffset(sectionBytes, TrainerIdOffset).value,
      GetU16LeOffset(sectionBytes, TrainerIdOffset).value,
      GetU16LeOffset(sectionBytes, TrainerIdOffset + 2).value);
    var time := PlayedTime(
      TryIntoArray(GetOffset(sectionBytes, PlayedTimeOffset, 5), 5).value,
      GetU16LeOffset(sectionBytes, PlayedTimeOffset).value,
      sectionBytes[PlayedTimeOffset + 2],
      sectionBytes[PlayedTimeOffset + 3],
      sectionBytes[PlayedTimeOffset + 4]);
    var security := GetSecurityKeyOrGameCode(
      GetU32LeOffset(sectionBytes, KeyBlockAOffset).value,
      GetU32LeOffset(sectionBytes, KeyBlockBOffset).value, save);
    r := Ok(TrainerData(Some(sectionInfo), name, gender, id, time, security));
  }
}
