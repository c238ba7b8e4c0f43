// Slot selection and the scan of its fourteen sections (src/main.rs).
module SlotScan {
  import opened Utils
  import opened Gen3Save
  import opened Gen3Utils

  /** Save slot B starts at 0x00E000 in the file and spans 14 sections. */
  const SlotBOffset: nat := 0x00_E000
  const SectionCount: nat := 14
  const SlotSize: nat := 57344

  /** Section i of a slot: the 4096 bytes from 4096 * i on. */
  function Window(slot: seq<u8>, i: nat): (w: seq<u8>)
    requires |slot| == SlotSize && i < SectionCount
    ensures |w| == SectionSize
  {
    GetOffset(slot, 0x1000 * i, SectionSize)
  }

  /** Byte k of window i is byte 4096 * i + k of the slot. */
  lemma WindowContents(slot: seq<u8>, i: nat)
    requires |slot| == SlotSize && i < SectionCount
    ensures forall k :: 0 <= k < SectionSize ==> Window(slot, i)[k] == slot[0x1000 * i + k]
  {
  }

  /** The section id of a window, the little-endian u16 at 0x0FF4. */
  function WindowSectionId(window: seq<u8>): u16
    requires |window| == SectionSize
  {
    GetU16Le(GetOffset(window, SectionIdField.offset, 2)).value
  }

  /** The id the scan reads is the section id of the window's trailer. */
  lemma WindowSectionIdInTrailer(window: seq<u8>)
    requires |window| == SectionSize
    ensures WindowSectionId(window) == ReadSectionData(window).sectionId
    ensures WindowSectionId(window) == window[0x0FF4] + 0x100 * (window[0x0FF5] as int)
  {
  }

  predicate IsTrainerWindow(slot: seq<u8>, i: nat)
    requires |slot| == SlotSize && i < SectionCount
  {
    WindowSectionId(Window(slot, i)) == 0
  }

  /** The last of the first n windows whose section id is 0, if any. */
  function LastTrainerWindow(slot: seq<u8>, n: nat): (r: Option<nat>)
    requires |slot| == SlotSize && n <= SectionCount
    ensures r.Some? ==> r.value < n && IsTrainerWindow(slot, r.value)
    ensures r.Some? ==> forall j :: r.value < j < n ==> !IsTrainerWindow(slot, j)
    ensures r.None? <==> forall j :: 0 <= j < n ==> !IsTrainerWindow(slot, j)
  {
    if n == 0 then None
    else if IsTrainerWindow(slot, n - 1) then Some(n - 1)
    else LastTrainerWindow(slot, n - 1)
  }

  /** What the save holds after the first n windows: the game and the trainer section. */
  function ScanOutcome(slot: seq<u8>, n: nat): (Gen3Game, Option<TrainerData>)
    requires |slot| == SlotSize && n <= SectionCount
  {
    match LastTrainerWindow(slot, n)
    case None => (RubySapphire, None)
    case Some(k) => (TrainerGame(Window(slot, k)), Some(TrainerRecord(Window(slot, k))))
  }

  /** One more window: an id-0 window replaces the outcome, any other leaves it. */
  lemma ScanOutcomeStep(slot: seq<u8>, i: nat, window: seq<u8>)
    requires |slot| == SlotSize && i < SectionCount && window == GetOffset(slot, 0x1000 * i, SectionSize)
    ensures WindowSectionId(window) == 0 ==>
      ScanOutcome(slot, i + 1) == (TrainerGame(window), Some(TrainerRecord(window)))
    ensures WindowSectionId(window) != 0 ==> ScanOutcome(slot, i + 1) == ScanOutcome(slot, i)
  {
    assert window == Window(slot, i);
  }

  /** When exactly one window has id 0, its record and game are the outcome, wherever it lies. */
  lemma UniqueTrainerWindowFound(slot: seq<u8>, k: nat)
    requires |slot| == SlotSize && k < SectionCount
    requires IsTrainerWindow(slot, k)
    requires forall j :: 0 <= j < SectionCount && j != k ==> !IsTrainerWindow(slot, j)
    ensures ScanOutcome(slot, SectionCount) == (TrainerGame(Window(slot, k)), Some(TrainerRecord(Window(slot, k))))
  {
  }

  /** When no window has id 0, the save keeps its initial state. */
  lemma NoTrainerWindowLeavesInitial(slot: seq<u8>)
    requires |slot| == SlotSize
    requires forall j :: 0 <= j < SectionCount ==> !IsTrainerWindow(slot, j)
    ensures ScanOutcome(slot, SectionCount) == (RubySapphire, None)
  {
  }

  /** A later window with id 0 overrides an earlier one. */
  lemma LaterTrainerWindowWins(slot: seq<u8>, j: nat, k: nat)
    requires |slot| == SlotSize && j < k < SectionCount
    requires IsTrainerWindow(slot, j) && IsTrainerWindow(slot, k)
    ensures LastTrainerWindow(slot, SectionCount).Some?
    ensures LastTrainerWindow(slot, SectionCount).value >= k
  {
  }

  /**
   * The body of `main` up to the end of the scan: slot B is cut from the file,
   * every one of its 14 windows is visited in order, and each window with
   * section id 0 is decoded into the save (the game first, then the record).
   */
  method ScanSlotB(fileBytes: seq<u8>) returns (save: SaveGen3)
    requires |fileBytes| >= SlotBOffset + SlotSize
    ensures fresh(save)
    ensures (save.gameVer, save.trainerSection)
         == ScanOutcome(GetOffset(fileBytes, SlotBOffset, SlotSize), SectionCount)
  {
    var saveBBytes := GetOffset(fileBytes, SlotBOffset, SlotSize);
    save := new SaveGen3(RubySapphire, None);
    for i := 0 to SectionCount
      invariant save.gameVer == ScanOutcome(saveBBytes, i).0
      invariant save.trainerSection == ScanOutcome(saveBBytes, i).1
    {
      var currentSection := GetOffset(saveBBytes, 0x1000 * i, SectionSize);
      var sectionId := GetU16Le(GetOffset(currentSection, SectionIdField.offset, 2)).value;
      ScanOutcomeStep(saveBBytes, i, currentSection);
      assert sectionId == WindowSectionId(currentSection);
      if sectionId == 0 {
        var trainer := ParseTrainerDataFromByteArray(currentSection, save);
        save.trainerSection := Some(trainer.value);
      }
    }
  }
}
