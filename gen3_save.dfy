// Data types of a Generation-III save (src/save/gen3/gen3_save.rs).
module Gen3Save {
  import opened Utils

  datatype Option<+T> = None | Some(value: T)

  /** The game that wrote the save. */
  datatype Gen3Game = RubySapphire | FireRedLeafGreen | Emerald

  /** The name `Display for Gen3Game` prints. */
  function GameName(g: Gen3Game): string
  {
    match g
    case RubySapphire => "Ruby/Sapphire"
    case FireRedLeafGreen => "FireRed/LeafGreen"
    case Emerald => "Emerald"
  }

  /** Distinct games are displayed under distinct names. */
  lemma GameNameInjective(g: Gen3Game, h: Gen3Game)
    ensures GameName(g) == GameName(h) <==> g == h
  {
    match g
    case RubySapphire => assert GameName(g)[0] == 'R';
    case FireRedLeafGreen => assert GameName(g)[0] == 'F';
    case Emerald => assert GameName(g)[0] == 'E';
  }

  /** Key material: a game code, a security key, or (FireRed/LeafGreen) both. */
  datatype KeyCode = KeyCode(gameCode: Option<u32>, securityKey: Option<u32>)

  /** Play time: the raw five bytes and their decomposition. */
  datatype PlayedTime = PlayedTime(time: Bytes5, hours: u16, minutes: u8, seconds: u8, frames: u8)

  /** The 32-bit trainer id and its two 16-bit halves. */
  datatype TrainerId = TrainerId(trainerId: u32, secretId: u16, publicId: u16)

  /** The trailer every 4096-byte section carries. */
  datatype SectionData = SectionData(sectionId: u16, checksum: u16, signature: u32, saveIndex: u32)

  datatype TrainerData = TrainerData(
    sectionInfo: Option<SectionData>,
    name: Bytes7,
    gender: u8,
    id: TrainerId,
    time: PlayedTime,
    security: KeyCode)

  /** What a save has decoded so far: the game, and the trainer section once found. */
  class SaveGen3 {
    var gameVer: Gen3Game
    var trainerSection: Option<TrainerData>

    constructor (gameVer: Gen3Game, trainerSection: Option<TrainerData>)
      ensures this.gameVer == gameVer && this.trainerSection == trainerSection
    {
      this.gameVer := gameVer;
      this.trainerSection := trainerSection;
    }
  }

  // ---------------------------------------------------------------------
  // Layout of a section and of its trailer

  const SectionSize: nat := 0x1000

  /** One field of a byte struct: where it starts and how many bytes it spans. */
  datatype FieldLayout = FieldLayout(offset: nat, width: nat)

  /** `SectionData`: section_id u16 @0x0FF4, checksum u16 @0x0FF6,
      signature u32 @0x0FF8, save_index u32 @0x0FFC, all little-endian. */
  const SectionIdField := FieldLayout(0x0FF4, 2)
  const ChecksumField := FieldLayout(0x0FF6, 2)
  const SignatureField := FieldLayout(0x0FF8, 4)
  const SaveIndexField := FieldLayout(0x0FFC, 4)
  const SectionDataLayout: seq<FieldLayout> := [SectionIdField, ChecksumField, SignatureField, SaveIndexField]

  /** The fields follow one another from `start` to `end` with neither gap nor overlap. */
  predicate Tiles(layout: seq<FieldLayout>, start: nat, end: nat)
  {
    if layout == [] then start == end
    else layout[0].offset == start && Tiles(layout[1..], start + layout[0].width, end)
  }

  /** A tiling layout covers every byte of [start, end) with exactly one field. */
  lemma {:induction false} TilesCoversOnce(layout: seq<FieldLayout>, start: nat, end: nat, b: nat)
    requires Tiles(layout, start, end)
    ensures start <= end
    ensures start <= b < end <==>
      exists i :: 0 <= i < |layout| && layout[i].offset <= b < layout[i].offset + layout[i].width
    ensures forall i, j :: 0 <= i < j < |layout| ==> layout[i].offset + layout[i].width <= layout[j].offset
  {
    if layout != [] {
      var rest := layout[1..];
      TilesCoversOnce(rest, start + layout[0].width, end, b);
      TilesWithinBounds(rest, start + layout[0].width, end);
      if start <= b < end {
        if b >= start + layout[0].width {
          var i :| 0 <= i < |rest| && rest[i].offset <= b < rest[i].offset + rest[i].width;
          assert layout[i + 1] == rest[i];
        } else {
          assert layout[0].offset <= b < layout[0].offset + layout[0].width;
        }
      }
      forall i, j | 0 <= i < j < |layout|
        ensures layout[i].offset + layout[i].width <= layout[j].offset
      {
        assert layout[j] == rest[j - 1];
        if i > 0 { assert layout[i] == rest[i - 1]; }
      }
    }
  }

  /** Every field of a tiling layout lies inside [start, end). */
  lemma {:induction false} TilesWithinBounds(layout: seq<FieldLayout>, start: nat, end: nat)
    requires Tiles(layout, start, end)
    ensures forall i :: 0 <= i < |layout| ==> start <= layout[i].offset && layout[i].offset + layout[i].width <= end
  {
    if layout != [] {
      TilesWithinBounds(layout[1..], start + layout[0].width, end);
      forall i | 0 <= i < |layout|
        ensures start <= layout[i].offset && layout[i].offset + layout[i].width <= end
      {
        if i > 0 { assert layout[i] == layout[1..][i - 1]; }
        else { TilesStartNotAfterEnd(layout[1..], start + layout[0].width, end); }
      }
    }
  }

  lemma {:induction false} TilesStartNotAfterEnd(layout: seq<FieldLayout>, start: nat, end: nat)
    requires Tiles(layout, start, end)
    ensures start <= end
  {
    if layout != [] {
      TilesStartNotAfterEnd(layout[1..], start + layout[0].width, end);
    }
  }

  /** The four trailer fields tile exactly the last 12 bytes of a section. */
  lemma SectionDataTilesTrailer()
    ensures Tiles(SectionDataLayout, SectionSize - 12, SectionSize)
  {
    var l := SectionDataLayout;
    assert l[1..][1..][1..][1..] == [];
    assert Tiles(l[1..][1..][1..], 0x0FFC, SectionSize);
    assert Tiles(l[1..][1..], 0x0FF8, SectionSize);
    assert Tiles(l[1..], 0x0FF6, SectionSize);
  }

  /** The bytes a field occupies. */
  function FieldBytes(bytes: seq<u8>, f: FieldLayout): seq<u8>
    requires f.offset + f.width <= |bytes|
  {
    bytes[f.offset..f.offset + f.width]
  }

  /** The trailer of a section, read at the offsets of `SectionDataLayout`. */
  function ReadSectionData(bytes: seq<u8>): (r: SectionData)
    requires |bytes| >= SectionSize
    ensures r.sectionId == LeValue(FieldBytes(bytes, SectionIdField))
    ensures r.checksum == LeValue(FieldBytes(bytes, ChecksumField))
    ensures r.signature == LeValue(FieldBytes(bytes, SignatureField))
    ensures r.saveIndex == LeValue(FieldBytes(bytes, SaveIndexField))
  {
    U16ReaderIsLeValue(bytes, SectionIdField.offset);
    U16ReaderIsLeValue(bytes, ChecksumField.offset);
    U32ReaderIsLeValue(bytes, SignatureField.offset);
    U32ReaderIsLeValue(bytes, SaveIndexField.offset);
    SectionData(
      GetU16LeOffset(bytes, SectionIdField.offset).value,
      GetU16LeOffset(bytes, ChecksumField.offset).value,
      GetU32LeOffset(bytes, SignatureField.offset).value,
      GetU32LeOffset(bytes, SaveIndexField.offset).value)
  }

  /** The trailer depends on the last 12 bytes of the section and on nothing else. */
  lemma ReadSectionDataReadsTrailer(a: seq<u8>, b: seq<u8>)
    requires |a| >= SectionSize && |b| >= SectionSize
    requires a[SectionSize - 12..SectionSize] == b[SectionSize - 12..SectionSize]
    ensures ReadSectionData(a) == ReadSectionData(b)
  {
    assert forall k :: SectionSize - 12 <= k < SectionSize ==> a[k] == a[SectionSize - 12..SectionSize][k - (SectionSize - 12)];
    assert forall k :: SectionSize - 12 <= k < SectionSize ==> b[k] == b[SectionSize - 12..SectionSize][k - (SectionSize - 12)];
  }
}
