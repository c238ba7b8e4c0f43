# Generation-III save decoder, modelled in Dafny

This project models the decoding core of a Pokémon Generation-III save reader.
It covers five pieces:

- the little-endian byte readers of the `SliceUtils` trait;
- the save data types;
- game-version inference from the two key blocks of the trainer section;
- the decoder of the trainer section;
- the scan of save slot B, whose fourteen 4096-byte sections are searched for the trainer section (section id 0).

Modules follow the source files:

| module | file | source |
|---|---|---|
| `Utils` | utils.dfy | src/utils.rs |
| `Gen3Save` | gen3_save.dfy | src/save/gen3/gen3_save.rs |
| `Gen3Utils` | gen3_utils.dfy | src/save/gen3/gen3_utils.rs |
| `SlotScan` | slot_scan.dfy | src/main.rs, lines 14-30 |

Bytes are the subset types `u8`, `u16` and `u32` over `int`. Rust arrays
`[u8; N]` are sequences of length N. The readers keep their Rust result type
`Result<_, TryFromSliceError>`. `<[u8; N]>::try_from` is `TryIntoArray`, which
fails exactly when the slice has the wrong length. Every reader's contract
says that it returns `Ok`, so each `?` of the source becomes `.value`, whose
precondition is proved at each use.

Slicing out of range panics in Rust, so it is a `requires` clause here. A
typed bounds error would be the alternative, but the code has none: it
panics, and the model follows the code.

`SaveGen3` is a class with the fields `gameVer` and `trainerSection`.
`GetSecurityKeyOrGameCode` and `ParseTrainerDataFromByteArray` are methods
that may change only `save.gameVer`. Each is proved against a pure
specification function:

- `Resolve` specifies `GetSecurityKeyOrGameCode`;
- `TrainerRecord` and `TrainerGame` specify `ParseTrainerDataFromByteArray`.

The scan loop `ScanSlotB` is proved against `ScanOutcome`, which is defined
through `LastTrainerWindow`: the last window whose section id is 0. That is
how the exhaustive loop, which never exits early and overwrites on each
match, behaves ("last write wins"). The file contents are a parameter,
because reading the file is I/O.

Generic reference definition: `LeValue(s)` is the integer whose little-endian
encoding is `s`. The fixed-width readers are tied to it by lemmas.

## Model

| member | source | states |
|---|---|---|
| `Utils.TryIntoArray` | src/save/gen3/gen3_utils.rs:35 | converting a slice to `[u8; n]` succeeds exactly when the slice has n bytes, and then yields those bytes unchanged |
| `Utils.GetOffset` | src/utils.rs:14-16 | requires `offset + n <= len`; returns exactly n bytes, byte k being `data[offset + k]` |
| `Utils.GetU16Le` | src/utils.rs:18-20 | requires at least 2 bytes; always `Ok`, with value `data[0] + 256*data[1]` (a u16 by its type) |
| `Utils.GetU32Le` | src/utils.rs:22-24 | requires at least 4 bytes; always `Ok`, with value `data[0] + 2^8*data[1] + 2^16*data[2] + 2^24*data[3]` (a u32 by its type) |
| `Utils.GetU16LeOffset` | src/utils.rs:26-28 | requires `offset + 2 <= len`; always `Ok`, with the little-endian value of bytes `offset` and `offset + 1` |
| `Utils.GetU32LeOffset` | src/utils.rs:30-32 | requires `offset + 4 <= len`; always `Ok`, with the little-endian value of bytes `offset .. offset + 3` |
| `Utils.LeValueBound` | src/utils.rs:18-24 | an n-byte little-endian string has a value below 256^n, so 2 bytes fit a u16 and 4 bytes a u32 (applied to the key blocks in `TrainerRecordFields`) |
| `Utils.LeValueAppend` | src/utils.rs:22-32 | the value of `a + b` is `LeValue(a) + 256^len(a) * LeValue(b)`: a longer field is built from its shorter low and high parts (applied in `LeValueFourIsTwoTwo`) |
| `Utils.LeValueFourIsTwoTwo` | src/utils.rs:26-32 | the reference value of the four bytes at `o` is the value of bytes `o..o+2` plus 65536 times the value of bytes `o+2..o+4` |
| `Utils.U16ReaderIsLeValue` | src/utils.rs:26-28 | requires `offset + 2 <= len`, as `get_u16_le_offset` does; the u16 read at an offset equals the reference little-endian value of the 2 bytes there |
| `Utils.U32ReaderIsLeValue` | src/utils.rs:30-32 | requires `offset + 4 <= len`, as `get_u32_le_offset` does; the u32 read at an offset equals the reference little-endian value of the 4 bytes there |
| `Utils.GetU16LeReadsTwoBytes` | src/utils.rs:18-20 | `get_u16_le` depends on the first two bytes only |
| `Utils.GetU32LeReadsFourBytes` | src/utils.rs:22-24 | `get_u32_le` depends on the first four bytes only |
| `Utils.U32IsTwoU16` | src/utils.rs:22-32 | the u32 at `o` equals the u16 at `o` plus 65536 times the u16 at `o + 2` (derived from `LeValueFourIsTwoTwo`) |
| `Utils.ToLeBytes32RoundTrip` | pkhex_rs-macros/src/lib.rs:48-50 | decoding `u32::to_le_bytes(x)` with the u32 reader gives x, and with the u16 reader gives `x mod 65536` |
| `Utils.GetU32LeEncodesBack` | pkhex_rs-macros/src/bytes_macro.rs:86-93 | encoding the u32 decoded from four bytes gives those four bytes back, so `u32::to_le_bytes` and the u32 reader invert each other on four bytes; the setter's write is not modelled |
| `Utils.DocExample` | pkhex_rs-macros/src/lib.rs:48-50 | the documented example: `0x2A` encoded and decoded by both readers is 42 |
| `Gen3Save.GameNameInjective` | src/save/gen3/gen3_save.rs:12-19 | the three game names "Ruby/Sapphire", "FireRed/LeafGreen" and "Emerald" are pairwise distinct, so the mapping is injective |
| `Gen3Save.SaveGen3.constructor` | src/save/gen3/gen3_save.rs:69-72 | a save holds exactly one game and an optional trainer section, as given |
| `Gen3Save.TilesCoversOnce` | src/save/gen3/gen3_save.rs:55 | a tiling layout covers every byte of its range exactly once, with its fields in increasing order and none overlapping |
| `Gen3Save.SectionDataTilesTrailer` | src/save/gen3/gen3_save.rs:55 | section id (u16 @0x0FF4), checksum (u16 @0x0FF6), signature (u32 @0x0FF8) and save index (u32 @0x0FFC) tile exactly the last 12 bytes of a 4096-byte section |
| `Gen3Save.ReadSectionData` | src/save/gen3/gen3_utils.rs:29-34 | each trailer field is the little-endian value of the bytes its `SectionDataLayout` entry occupies (`offset .. offset + width`: 0x0FF4, 0x0FF6, 0x0FF8 and 0x0FFC) |
| `Gen3Save.ReadSectionDataReadsTrailer` | src/save/gen3/gen3_save.rs:55 | the trailer depends on bytes 0x0FF4..0x1000 only |
| `Gen3Utils.Resolve` | src/save/gen3/gen3_utils.rs:5-25 | the resolved game and key material fit each other: Ruby/Sapphire with `{Some(0), None}`; FireRed/LeafGreen with game code 1 and a key; Emerald with no game code and a key above 1 |
| `Gen3Utils.KeyFitsGameNotEmpty` | src/save/gen3/gen3_utils.rs:5-25 | fitting key material never has both fields `None` |
| `Gen3Utils.KeyCodeIdentifiesGame` | src/save/gen3/gen3_utils.rs:5-25 | key material fits at most one game, so it alone determines which branch produced it |
| `Gen3Utils.ResolveKeepsBlockA` | src/save/gen3/gen3_utils.rs:6-24 | the first block can be recovered from the result: 0 and 1 become game codes, and any other value is the Emerald security key (block A, not block B) |
| `Gen3Utils.ResolveUsesBlockBOnlyForFireRed` | src/save/gen3/gen3_utils.rs:12-17 | a result whose block A is not 1 does not depend on block B; when block A is 1, block B is the security key |
| `Gen3Utils.GetSecurityKeyOrGameCode` | src/save/gen3/gen3_utils.rs:5-25 | writes `save.gameVer` and returns the key material, both as `Resolve` gives them; `save.trainerSection` is unchanged and nothing else may change |
| `Gen3Utils.TrainerRecordFields` | src/save/gen3/gen3_utils.rs:28-52 | `section_info` is `Some` of the trailer; name is bytes 0..7 and gender is byte 8 (byte 7 skipped); `trainer_id == secret_id + 65536 * public_id`; `hours == time[0] + 256*time[1]`; minutes, seconds and frames are `time[2..5]`; the key material fits the resolved game, and game and key material are `Resolve` of the little-endian values of bytes 0x00AC..0x00B0 and 0x0AF8..0x0AFC |
| `Gen3Utils.TrainerIdExample` | src/save/gen3/gen3_utils.rs:37-41 | id bytes `2A 00 00 00` decode to trainer id 42, secret id 42 and public id 0 |
| `Gen3Utils.TrainerRecordReadsSectionOnly` | src/save/gen3/gen3_utils.rs:27-53 | the record and the game depend on the first 0x1000 bytes only; nothing at or past index 0x1000 is read |
| `Gen3Utils.ParseTrainerDataFromByteArray` | src/save/gen3/gen3_utils.rs:27-53 | requires at least 0x1000 bytes (the highest read is 0x0FFC + 4); returns `Ok(TrainerRecord(bytes))`; sets `save.gameVer` to the game resolved from the u32s at 0x00AC and 0x0AF8 and leaves `trainerSection` alone |
| `SlotScan.Window` | src/main.rs:23 | window i of the slot is exactly 4096 bytes long |
| `SlotScan.WindowContents` | src/main.rs:23 | byte k of window i is byte `4096*i + k` of the slot, for every k below 4096 |
| `SlotScan.WindowSectionIdInTrailer` | src/main.rs:24 | the id the scan reads is the little-endian u16 at window offset 0x0FF4, the trailer's section id |
| `SlotScan.LastTrainerWindow` | src/main.rs:22-29 | the result is the largest index below n whose window has id 0, or `None` exactly when no window below n has id 0 |
| `SlotScan.ScanOutcomeStep` | src/main.rs:26-28 | a window with id 0 replaces both the trainer section and the game with its own; any other id leaves the save unchanged |
| `SlotScan.UniqueTrainerWindowFound` | src/main.rs:22-28 | if exactly one window k has id 0, the final trainer section and game are window k's, whatever k is |
| `SlotScan.NoTrainerWindowLeavesInitial` | src/main.rs:17-20 | if no window has id 0, the save stays `{RubySapphire, None}`, the state in which the `unwrap` at src/main.rs:32 panics |
| `SlotScan.LaterTrainerWindowWins` | src/main.rs:22-27 | of two windows with id 0, the later one wins |
| `SlotScan.ScanSlotB` | src/main.rs:14-30 | requires the file to hold at least 0x00E000 + 57344 bytes; visits windows 0..13 of slot B in order, with no early exit; the final game and trainer section are `ScanOutcome` of the slot |

## Left out

- The `Vec<u8>` implementation of `SliceUtils` (src/utils.rs:35-55) is the same text as the `&[u8]` one. Both are the same function on `seq<u8>` here, so the two agree by construction rather than by a lemma.
- `little_endian_u8_to_u16` is used at src/main.rs:24, but no definition of it appears in the repository's source files (src/utils.rs has none). It is modelled as the little-endian u16 read `GetU16Le`.
- The procedural macros (pkhex_rs-macros/src/*.rs) generate code from token streams; only the decode contract their getters follow is modelled. The setters are left out because the `write_into` they call does not exist in src/utils.rs. `ToLeBytes32` stands for `u32::to_le_bytes`, as used by the documented examples.
- Big-endian readers: the macro parser accepts `be`, but src/utils.rs has no big-endian reader.
- The macro `byte_struct_test!` is not part of this model. Only the field layout it declares for `SectionData` is modelled.
- File reading (src/main.rs:9) becomes the `fileBytes` parameter. The printing at src/main.rs:28 and 33-35 is output only.
- The `unwrap` of the trainer section at src/main.rs:32 is not modelled. `NoTrainerWindowLeavesInitial` states when it would panic.
- `Display for SectionData` is integer formatting and is left out. `Display for Gen3Game` is modelled as `GameName`, the string it prints, without the `Formatter`.
- Checksum validation: the checksum is read and never checked, so there is no algorithm to model.
- Slot A selection is commented out in the source (src/main.rs:14) and is left out.
- examples/main.rs repeats the scan loop of src/main.rs and is modelled once.
- Panics on short input: out-of-range slicing is a precondition (`requires`), not a modelled failure, because the code panics rather than returning an error.
- ParseTrainerDataFromByteArray: the method reads the fields in the source's order and calls the resolver last. No contract states that order, because every read is total and side-effect free.
