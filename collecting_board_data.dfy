/**
 * The boards.txt line scanner and the first built-in-LED resolver
 * (pyScripts/helper/collecting_board_data.py).
 *
 * The scanner is a state machine over three pieces of state: the id of the
 * board being read, the record being filled and the list of sealed records.
 * `CollectLine` is that machine on values; the class `CollectingBoardData`
 * does the same step in place and is proved to agree with it.
 */
module CollectingBoards {
  import opened Wrappers
  import opened Text
  import opened LedPatterns
  import opened BoardRecords
  import opened Files
  import opened LedResolution

  // ---------------------------------------------------------------------
  // boards.txt line patterns.

  /**
   * `(.+)\.name=(.+)`: the board id and display name of a boundary line, or
   * `("", "")`. The id is everything before the last `.name=` that has text
   * on both sides.
   */
  function GetBoardName(line: string): (r: (string, string))
    ensures r.0 != "" <==> exists q | 1 <= q < |line| :: SplitsAt(line, ".name=", q)
    ensures r.0 != "" ==> line == r.0 + ".name=" + r.1 && |r.1| >= 1
    ensures r.0 != "" ==> forall q | |r.0| < q < |line| :: !SplitsAt(line, ".name=", q)
    ensures r.0 == "" ==> r.1 == ""
  {
    match LastSplit(line, ".name=")
    case Some(split) => split
    case None => ("", "")
  }

  /** esp8266 sizes are written `4M`; the scanner aligns them with esp32's `4MB`. */
  function WithUnitB(size: string): (r: string)
    requires |size| >= 1
    ensures |r| >= 1 && r[|r| - 1] == 'B'
    ensures r == size || r == size + "B"
    ensures size[|size| - 1] == 'B' ==> r == size
  {
    if size[|size| - 1] != 'B' then size + "B" else size
  }

  /** `<id>\.menu\.eesz\.(.+)\.build\.flash_size=(.+)`: the menu key and the size. */
  function EeszEntry(id: string, line: string): (r: Option<(string, string)>)
    ensures r.Some? ==> line == id + ".menu.eesz." + r.value.0 + ".build.flash_size=" + r.value.1
    ensures r.Some? ==> |r.value.0| >= 1 && |r.value.1| >= 1
  {
    var rest :- After(line, id + ".menu.eesz.");
    LastSplit(rest, ".build.flash_size=")
  }

  /** The flash size an esp8266 eesz line sets: none for the `autoflash` entry. */
  function Esp8266FlashSize(id: string, line: string): (r: Option<string>)
    ensures r.Some? <==> EeszEntry(id, line).Some? && EeszEntry(id, line).value.0 != "autoflash"
    ensures r.Some? ==> r.value == WithUnitB(EeszEntry(id, line).value.1)
  {
    var entry :- EeszEntry(id, line);
    if entry.0 == "autoflash" then None else Some(WithUnitB(entry.1))
  }

  /** The flash size a line sets for `core`: the eesz menu for esp8266, `build.flash_size` otherwise. */
  function FlashSizeOf(core: string, id: string, line: string): Option<string> {
    if core == "esp8266" then Esp8266FlashSize(id, line) else After(line, id + ".build.flash_size=")
  }

  /**
   * A non-boundary line: the variant, else the mcu, else the flash size of
   * board `id`. At most one field changes, and only for a line that starts
   * with `<id>.`.
   */
  function ApplyAttribute(core: string, id: string, b: Board, line: string): (r: Board)
    ensures After(line, id + ".build.variant=").Some? ==>
      r == b.(variant := After(line, id + ".build.variant=").value)
    ensures After(line, id + ".build.variant=").None? && After(line, id + ".build.mcu=").Some? ==>
      r == b.(mcu := After(line, id + ".build.mcu=").value)
    ensures After(line, id + ".build.variant=").None? && After(line, id + ".build.mcu=").None? ==>
      r == (if FlashSizeOf(core, id, line).Some? then b.(flashSize := FlashSizeOf(core, id, line).value) else b)
    ensures r != b ==> id + "." <= line
  {
    var variant := After(line, id + ".build.variant=");
    var mcu := After(line, id + ".build.mcu=");
    var flash := FlashSizeOf(core, id, line);
    if variant.Some? then
      DottedPrefix(line, id, ".build.variant=");
      b.(variant := variant.value)
    else if mcu.Some? then
      DottedPrefix(line, id, ".build.mcu=");
      b.(mcu := mcu.value)
    else if flash.Some? then
      if core == "esp8266" then
        DottedPrefix(line, id, ".menu.eesz.");
        b.(flashSize := flash.value)
      else
        DottedPrefix(line, id, ".build.flash_size=");
        b.(flashSize := flash.value)
    else b
  }

  /** A line that starts with `<id>.<key>` starts with `<id>.`. */
  lemma DottedPrefix(line: string, id: string, key: string)
    requires |key| >= 1 && key[0] == '.' && id + key <= line
    ensures id + "." <= line
  {
    assert (id + key)[..|id| + 1] == id + ".";
  }

  /** The `autoflash` entry of the esp8266 eesz menu changes nothing. */
  lemma AutoflashIgnored(id: string, b: Board, line: string)
    requires EeszEntry(id, line).Some? && EeszEntry(id, line).value.0 == "autoflash"
    ensures ApplyAttribute("esp8266", id, b, line) == b
  {
    var p := |id| + 1;
    assert line[p] == 'm' by {
      assert (id + ".menu.eesz.")[p] == 'm';
    }
    assert After(line, id + ".build.variant=").None? by {
      assert (id + ".build.variant=")[p] == 'b';
    }
    assert After(line, id + ".build.mcu=").None? by {
      assert (id + ".build.mcu=")[p] == 'b';
    }
  }

  // ---------------------------------------------------------------------
  // The scanner on values.

  /** The scanner's state: current id, record in progress, sealed records. */
  datatype ScanState = ScanState(name: string, current: Board, sealed: seq<Board>)

  const InitialScan := ScanState("", EmptyBoard, [])

  /** The record in progress when it is worth sealing: one with a name. */
  function Pending(st: ScanState): seq<Board> {
    if st.current.name != "" then [st.current] else []
  }

  /**
   * `collect_board_data`: the next state and the id it returns. A boundary
   * seals the record in progress (if it has a name) and opens a fresh one
   * holding only the name and id; any other line goes to `ApplyAttribute`.
   */
  function CollectLine(core: string, st: ScanState, line: string): (r: (ScanState, string))
    ensures r.1 != "" <==> GetBoardName(line).0 != ""
    ensures r.1 != "" ==> r.0 == ScanState(r.1, EmptyBoard.(name := GetBoardName(line).1, boardId := r.1), st.sealed + Pending(st))
    ensures r.1 == "" ==> r.0.name == st.name && r.0.sealed == st.sealed
  {
    var (id, fullName) := GetBoardName(line);
    if id != "" then
      (ScanState(id, EmptyBoard.(name := fullName, boardId := id), st.sealed + Pending(st)), id)
    else
      (st.(current := ApplyAttribute(core, st.name, st.current, line)), "")
  }

  /** The state after scanning `lines` from `st`. */
  function CollectAll(core: string, st: ScanState, lines: seq<string>): ScanState {
    if lines == [] then st else CollectLine(core, CollectAll(core, st, lines[..|lines| - 1]), lines[|lines| - 1]).0
  }

  /** `final_data` before LED resolution: the sealed records plus the last one, if named. */
  function Finalize(st: ScanState): seq<Board> {
    st.sealed + Pending(st)
  }

  /** The (id, display name) pairs of the boundary lines of `lines`, in file order. */
  function Boundaries(lines: seq<string>): (r: seq<(string, string)>)
    ensures |r| <= |lines|
  {
    if lines == [] then []
    else
      var last := GetBoardName(lines[|lines| - 1]);
      Boundaries(lines[..|lines| - 1]) + (if last.0 != "" then [last] else [])
  }

  /** The (id, display name) pair of each record. */
  function Heads(bs: seq<Board>): (r: seq<(string, string)>)
    ensures |r| == |bs|
    ensures forall i | 0 <= i < |bs| :: r[i] == (bs[i].boardId, bs[i].name)
  {
    if bs == [] then [] else Heads(bs[..|bs| - 1]) + [(bs[|bs| - 1].boardId, bs[|bs| - 1].name)]
  }

  lemma HeadsAppend(a: seq<Board>, b: seq<Board>)
    ensures Heads(a + b) == Heads(a) + Heads(b)
  {
  }

  /** One step adds the line's boundary, and nothing else, to the heads of the finalised list. */
  lemma CollectLineHeads(core: string, st: ScanState, line: string)
    ensures Heads(Finalize(CollectLine(core, st, line).0)) ==
      Heads(Finalize(st)) + (if GetBoardName(line).0 != "" then [GetBoardName(line)] else [])
  {
    var next := CollectLine(core, st, line).0;
    if GetBoardName(line).0 != "" {
      assert Finalize(next) == Finalize(st) + [next.current];
      HeadsAppend(Finalize(st), [next.current]);
    } else {
      HeadsAppend(st.sealed, Pending(st));
      HeadsAppend(next.sealed, Pending(next));
    }
  }

  /**
   * After the whole file and `final_data`, the list holds exactly one record
   * per boundary line, in file order, each with that line's id and name.
   */
  lemma {:induction false} BoardsFollowBoundaries(core: string, lines: seq<string>)
    ensures Heads(Finalize(CollectAll(core, InitialScan, lines))) == Boundaries(lines)
  {
    if lines != [] {
      var init := lines[..|lines| - 1];
      BoardsFollowBoundaries(core, init);
      CollectLineHeads(core, CollectAll(core, InitialScan, init), lines[|lines| - 1]);
    }
  }

  class CollectingBoardData {
    const coreName: string
    const corePath: string
    const boardsList: BoardList
    var boardData: BoardData
    var numOfBoardsWithoutLed: nat
    var name: string

    /** The record in progress is never one of the sealed records, and no record is sealed twice. */
    ghost predicate Valid()
      reads this, boardsList
    {
      boardData !in boardsList.items && Distinct(boardsList.items)
    }

    function State(): ScanState
      reads this, boardsList, boardData, boardsList.items
    {
      ScanState(name, boardData.Value(), Values(boardsList.items))
    }

    function Boards(): seq<Board>
      reads boardsList, boardsList.items
    {
      Values(boardsList.items)
    }

    constructor (coreName: string, corePath: string)
      ensures Valid() && fresh(boardsList) && fresh(boardData)
      ensures this.coreName == coreName && this.corePath == corePath
      ensures State() == InitialScan && numOfBoardsWithoutLed == 0 && boardsList.items == []
    {
      this.coreName := coreName;
      this.corePath := corePath;
      boardsList := new BoardList();
      boardData := new BoardData();
      numOfBoardsWithoutLed := 0;
      name := "";
    }

    /** `__get_variant`: set the variant of the record in progress from a `<name>.build.variant=` line. */
    method GetVariant(line: string) returns (matched: bool)
      modifies boardData
      ensures matched <==> After(line, name + ".build.variant=").Some?
      ensures boardData.Value() ==
        if matched then old(boardData.Value()).(variant := After(line, name + ".build.variant=").value)
        else old(boardData.Value())
    {
      var variant := After(line, name + ".build.variant=");
      matched := variant.Some?;
      if matched {
        boardData.SetVariant(variant.value);
      }
    }

    /** `__get_mcu`: set the mcu from a `<name>.build.mcu=` line. */
    method GetMcu(line: string) returns (matched: bool)
      modifies boardData
      ensures matched <==> After(line, name + ".build.mcu=").Some?
      ensures boardData.Value() ==
        if matched then old(boardData.Value()).(mcu := After(line, name + ".build.mcu=").value)
        else old(boardData.Value())
    {
      var mcu := After(line, name + ".build.mcu=");
      matched := mcu.Some?;
      if matched {
        boardData.SetMcu(mcu.value);
      }
    }

    /** `__get_flash_size`: the esp8266 eesz menu or `<name>.build.flash_size=`. */
    method GetFlashSize(line: string) returns (matched: bool)
      modifies boardData
      ensures matched <==> FlashSizeOf(coreName, name, line).Some?
      ensures boardData.Value() ==
        if matched then old(boardData.Value()).(flashSize := FlashSizeOf(coreName, name, line).value)
        else old(boardData.Value())
    {
      var flash := FlashSizeOf(coreName, name, line);
      matched := flash.Some?;
      if matched {
        boardData.SetFlashSize(flash.value);
      }
    }

    /** The fresh record a boundary line opens: only the display name and the id are set. */
    static method OpenRecord(nameFull: string, boardId: string) returns (record: BoardData)
      ensures fresh(record)
      ensures record.Value() == EmptyBoard.(name := nameFull, boardId := boardId)
    {
      record := new BoardData();
      record.SetName(nameFull);
      record.SetBoardId(boardId);
    }

    /** The boundary branch of `collect_board_data`: seal the named record and open a fresh one. */
    method StartBoard(boardId: string, nameFull: string)
      requires Valid()
      modifies this, boardsList
      ensures Valid()
      ensures State() == ScanState(boardId, EmptyBoard.(name := nameFull, boardId := boardId), old(State()).sealed + Pending(old(State())))
      ensures numOfBoardsWithoutLed == old(numOfBoardsWithoutLed)
      ensures fresh(boardData)
      ensures boardsList.items == old(boardsList.items) || boardsList.items == old(boardsList.items) + [old(boardData)]
    {
      ghost var items := boardsList.items;
      if boardData.name != "" {
        boardsList.Append(boardData);
        assert boardsList.items[..|items|] == items;
      }
      var record := OpenRecord(nameFull, boardId);
      name, boardData := boardId, record;
    }

    /** `collect_board_data`: one step of the scanner, in place. */
    method CollectBoardData(line: string) returns (id: string)
      requires Valid()
      modifies this, boardsList, boardData
      ensures Valid()
      ensures id == CollectLine(coreName, old(State()), line).1
      ensures State() == CollectLine(coreName, old(State()), line).0
      ensures numOfBoardsWithoutLed == old(numOfBoardsWithoutLed)
      ensures boardData == old(boardData) || fresh(boardData)
      ensures boardsList.items == old(boardsList.items) || boardsList.items == old(boardsList.items) + [old(boardData)]
    {
      var (boardId, nameFull) := GetBoardName(line);
      if boardId != "" {
        StartBoard(boardId, nameFull);
        return boardId;
      }
      var matched := GetVariant(line);
      if !matched {
        matched := GetMcu(line);
        if !matched {
          matched := GetFlashSize(line);
        }
      }
      return "";
    }

    /** `find_led_builtin`: resolve every sealed record's LED and count the unresolved ones. */
    method FindLedBuiltin(fs: FileSystem)
      requires Distinct(boardsList.items)
      modifies this, boardsList.items
      ensures Boards() == ResolveAll(ConstantOnly, coreName, corePath, fs, old(Boards()))
      ensures numOfBoardsWithoutLed == old(numOfBoardsWithoutLed) + CountUnresolved(ConstantOnly, coreName, corePath, fs, old(Boards()))
      ensures name == old(name) && boardData == old(boardData)
    {
      var items := boardsList.items;
      ghost var before := Values(items);
      var missing := ResolveList(ConstantOnly, coreName, corePath, fs, items, Resolver(ConstantOnly, coreName, corePath, fs), before);
      assert boardsList.items == items;
      numOfBoardsWithoutLed := numOfBoardsWithoutLed + missing;
    }

    /** `final_data`: seal the last record if it has a name, then resolve the LEDs. */
    method FinalData(fs: FileSystem)
      requires Valid()
      modifies this, boardsList, boardData, boardsList.items
      ensures Boards() == ResolveAll(ConstantOnly, coreName, corePath, fs, Finalize(old(State())))
      ensures numOfBoardsWithoutLed == old(numOfBoardsWithoutLed) + CountUnresolved(ConstantOnly, coreName, corePath, fs, Finalize(old(State())))
      ensures name == old(name) && boardData == old(boardData)
    {
      ghost var finalized := Finalize(State());
      ghost var sealed := boardsList.items;
      if boardData.name != "" {
        boardsList.Append(boardData);
        assert boardsList.items[..|sealed|] == sealed;
      }
      assert Boards() == finalized;
      FindLedBuiltin(fs);
    }
  }
}
