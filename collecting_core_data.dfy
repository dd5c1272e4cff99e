/**
 * The driver that reads a core's boards.txt once and feeds every line to both
 * scanners (pyScripts/helper/collecting_core_data.py): the board scanner
 * first, then, when the line opened a board, `add_partition` for its id, then
 * the partition scanner. After the last line the partition check runs, and
 * then the board list is finalised and its LEDs resolved.
 */
module CollectingCore {
  import opened Wrappers
  import opened Files
  import opened BoardRecords
  import opened PartitionRecords
  import opened LedResolution
  import B = CollectingBoards
  import P = CollectingPartitions

  /** What the constructor can raise: ValueError for a missing path, the open of a directory, a KeyError of the partition scanner. */
  datatype CoreError = ValueError(message: string) | NotAFile(path: string) | PartitionKeyError(key: string)

  /** What a successful run leaves on the object: the boards, the partition records and the LED count. */
  datatype CoreResult = CoreResult(boards: seq<Board>, partitions: map<string, Partition>, numOfBoardsWithoutLed: nat)

  /** Both scanners' states after a prefix of boards.txt. */
  datatype Scan = Scan(boards: B.ScanState, parts: P.Collector)

  const InitialScan := Scan(B.InitialScan, P.InitialCollector)

  /** `<core path>/boards.txt`. */
  function BoardsTxt(corePath: string): string {
    corePath + "/boards.txt"
  }

  /** One iteration of the driver loop. */
  function ScanStep(core: string, s: Scan, line: string): Result<Scan, P.KeyError> {
    var (boards, id) := B.CollectLine(core, s.boards, line);
    var current := if id != "" then P.AddPartitionStep(s.parts, id) else s.parts;
    var parts :- P.CollectLine(core, current, line);
    Success(Scan(boards, parts))
  }

  /** The driver loop over `lines`; the first KeyError ends it. */
  function ScanAll(core: string, lines: seq<string>): Result<Scan, P.KeyError> {
    if lines == [] then Success(InitialScan)
    else
      var s :- ScanAll(core, lines[..|lines| - 1]);
      ScanStep(core, s, lines[|lines| - 1])
  }

  /**
   * What the constructor keeps once the scan is over: the finalised boards
   * with their LEDs resolved, the checked partition records and the number
   * of boards whose LED stayed unresolved.
   */
  function Conclude(core: string, corePath: string, fs: FileSystem, s: Scan): CoreResult {
    var sealed := B.Finalize(s.boards);
    CoreResult(
      ResolveAll(ConstantOnly, core, corePath, fs, sealed),
      P.CheckStep(core, corePath, fs, s.parts).parts,
      CountUnresolved(ConstantOnly, core, corePath, fs, sealed))
  }

  /** The boards.txt part of the constructor: read, scan, check, finalise. */
  function ReadBoardsTxt(core: string, corePath: string, fs: FileSystem): Result<CoreResult, CoreError> {
    var path := BoardsTxt(corePath);
    if !fs.IsFile(path) then Failure(NotAFile(path))
    else
      match ScanAll(core, fs.files[path])
      case Failure(e) => Failure(PartitionKeyError(e.key))
      case Success(s) => Success(Conclude(core, corePath, fs, s))
  }

  /** The constructor: both existence checks, then `__get_data`. */
  function CollectCore(core: string, corePath: string, fs: FileSystem): (r: Result<CoreResult, CoreError>)
    ensures !fs.Exists(corePath) ==> r == Failure(ValueError("Error: could not found " + corePath))
    ensures fs.Exists(corePath) && !fs.Exists(BoardsTxt(corePath)) ==>
      r == Failure(ValueError("Error: could not found " + BoardsTxt(corePath)))
    ensures r.Success? ==> fs.Exists(corePath) && fs.IsFile(BoardsTxt(corePath))
  {
    if !fs.Exists(corePath) then Failure(ValueError("Error: could not found " + corePath))
    else if !fs.Exists(BoardsTxt(corePath)) then Failure(ValueError("Error: could not found " + BoardsTxt(corePath)))
    else ReadBoardsTxt(core, corePath, fs)
  }

  // ----- properties -----

  /**
   * A boundary line opens a fresh partition record for its id before the
   * partition scanner sees it, and the partition scanner then leaves it
   * alone: after `<id>.` the line continues with `name=`, which none of the
   * partition patterns (`build.`, `menu.`) can.
   */
  lemma BoundaryOpensRecord(core: string, s: Scan, line: string)
    requires B.GetBoardName(line).0 != ""
    ensures var id := B.GetBoardName(line).0;
      ScanStep(core, s, line) == Success(Scan(B.CollectLine(core, s.boards, line).0, P.AddPartitionStep(s.parts, id)))
  {
    var id := B.GetBoardName(line).0;
    var c := P.AddPartitionStep(s.parts, id);
    var i := |id| + 1;
    assert line[i] == 'n' by {
      var head := id + ".name=";
      assert line == head + B.GetBoardName(line).1;
      assert head[i] == 'n';
    }
    assert P.DefaultMatch(id, line).None? by {
      assert (id + P.PartitionsKey)[i] == 'b';
    }
    assert P.SchemeMatch(id, line).None? by {
      assert (id + P.SchemeKey)[i] == 'm';
    }
    assert P.BuildMatch(id, c.partitionName, line).None? by {
      assert (id + P.SchemeKey + c.partitionName + P.PartitionsKey)[i] == 'm';
    }
  }

  /** Scanning one more line is one more step of the loop. */
  lemma ScanAllSnoc(core: string, lines: seq<string>, i: nat, s: Scan)
    requires i < |lines| && ScanAll(core, lines[..i]) == Success(s)
    ensures ScanAll(core, lines[..i + 1]) == ScanStep(core, s, lines[i])
  {
    assert lines[..i + 1][..i] == lines[..i];
  }

  /** Once a prefix of the file raises, the whole scan raises the same KeyError. */
  lemma {:induction false} FailureIsFinal(core: string, lines: seq<string>, i: nat)
    requires i <= |lines| && ScanAll(core, lines[..i]).Failure?
    ensures ScanAll(core, lines) == ScanAll(core, lines[..i])
    decreases |lines|
  {
    if i < |lines| {
      var init := lines[..|lines| - 1];
      assert init[..i] == lines[..i];
      FailureIsFinal(core, init, i);
    } else {
      assert lines[..i] == lines;
    }
  }

  /** The board side of the driver is the board scanner run over the whole file. */
  lemma {:induction false} ScanAllBoards(core: string, lines: seq<string>)
    requires ScanAll(core, lines).Success?
    ensures ScanAll(core, lines).value.boards == B.CollectAll(core, B.InitialScan, lines)
  {
    if lines != [] {
      ScanAllBoards(core, lines[..|lines| - 1]);
    }
  }

  /**
   * The constructed object holds one board per boundary line of boards.txt,
   * in file order, with that line's id and display name: LED resolution
   * changes neither.
   */
  lemma CoreBoardsFollowBoundaries(core: string, corePath: string, fs: FileSystem)
    requires CollectCore(core, corePath, fs).Success?
    ensures B.Heads(CollectCore(core, corePath, fs).value.boards) == B.Boundaries(fs.files[BoardsTxt(corePath)])
  {
    var lines := fs.files[BoardsTxt(corePath)];
    ScanAllBoards(core, lines);
    B.BoardsFollowBoundaries(core, lines);
    var sealed := B.Finalize(ScanAll(core, lines).value.boards);
    assert B.Heads(ResolveAll(ConstantOnly, core, corePath, fs, sealed)) == B.Heads(sealed);
  }

  /** The ids of the boundary lines of `lines`. */
  function BoundaryIds(lines: seq<string>): set<string> {
    set h | h in B.Boundaries(lines) :: h.0
  }

  /**
   * For a core other than "esp32" the scan cannot fail, and every board gets
   * a partition record with no default and no schemes: `add_partition` runs
   * for each boundary while the partition scanner and the check do nothing.
   */
  lemma {:induction false} OtherCoresGetEmptyRecords(core: string, lines: seq<string>)
    requires core != "esp32"
    ensures ScanAll(core, lines).Success?
    ensures ScanAll(core, lines).value.parts.parts.Keys == BoundaryIds(lines)
    ensures forall b | b in ScanAll(core, lines).value.parts.parts :: ScanAll(core, lines).value.parts.parts[b] == EmptyPartition
  {
    if lines != [] {
      var init := lines[..|lines| - 1];
      var last := lines[|lines| - 1];
      OtherCoresGetEmptyRecords(core, init);
      var h := B.GetBoardName(last);
      assert B.Boundaries(lines) == B.Boundaries(init) + (if h.0 != "" then [h] else []);
      assert BoundaryIds(lines) == BoundaryIds(init) + (if h.0 != "" then {h.0} else {});
    }
  }

  /**
   * The driver object. A successful construction leaves the finalised board
   * list, the checked partition records and the number of boards without an
   * LED on it.
   */
  class CollectingCoreData {
    const coreName: string
    const coreVersion: string
    const corePath: string
    const boardsTxt: string := BoardsTxt(corePath)
    var numOfBoardsWithoutLed: nat
    var boards: BoardList
    var partitions: PartitionList

    /** What the object holds, as values. */
    function Data(): CoreResult
      reads this, boards, boards.items, partitions, partitions.parts.Values
    {
      CoreResult(Values(boards.items), partitions.Value(), numOfBoardsWithoutLed)
    }

    /** The field set-up of `__init__`, before any check. */
    constructor (coreName: string, coreVersion: string, corePath: string)
      ensures this.coreName == coreName && this.coreVersion == coreVersion && this.corePath == corePath
      ensures Data() == CoreResult([], map[], 0)
    {
      this.coreName, this.coreVersion, this.corePath := coreName, coreVersion, corePath;
      numOfBoardsWithoutLed := 0;
      boards := new BoardList();
      partitions := new PartitionList();
    }

    /** `CollectingCoreData(...)`: the two existence checks, then `__get_data`. */
    static method Create(coreName: string, coreVersion: string, corePath: string, fs: FileSystem)
      returns (r: Result<CollectingCoreData, CoreError>)
      ensures r.Success? <==> CollectCore(coreName, corePath, fs).Success?
      ensures r.Success? ==> fresh(r.value) && r.value.Data() == CollectCore(coreName, corePath, fs).value
      ensures r.Success? ==> r.value.coreName == coreName && r.value.coreVersion == coreVersion && r.value.corePath == corePath
      ensures r.Failure? ==> r.error == CollectCore(coreName, corePath, fs).error
    {
      if !fs.Exists(corePath) {
        return Failure(ValueError("Error: could not found " + corePath));
      }
      if !fs.Exists(BoardsTxt(corePath)) {
        return Failure(ValueError("Error: could not found " + BoardsTxt(corePath)));
      }
      var core := new CollectingCoreData(coreName, coreVersion, corePath);
      var error := core.GetData(fs);
      if error.Some? {
        return Failure(error.value);
      }
      return Success(core);
    }

    /**
     * The partition half of one pass of the loop of `__get_data`: a record
     * for `id` when the board scanner opened a board, then the partition
     * scanner on the line.
     */
    static method FeedPartitions(partitionData: P.CollectingPartitionData, id: string, line: string)
      returns (keyError: Option<P.KeyError>)
      requires partitionData.Valid()
      modifies partitionData, partitionData.partitionList, partitionData.partitionList.parts.Values
      ensures partitionData.Valid()
      ensures forall b | b in partitionData.partitionList.parts ::
        (b in old(partitionData.partitionList.parts) && partitionData.partitionList.parts[b] == old(partitionData.partitionList.parts)[b])
        || fresh(partitionData.partitionList.parts[b])
      ensures var current := if id != "" then P.AddPartitionStep(old(partitionData.State()), id) else old(partitionData.State());
        match P.CollectLine(partitionData.coreName, current, line)
        case Success(c) => keyError.None? && partitionData.State() == c
        case Failure(e) => keyError == Some(e)
    {
      if id != "" {
        partitionData.AddPartition(id);
      }
      keyError := partitionData.CollectPartitionData(line);
    }

    /**
     * One pass of the loop of `__get_data`: the board scanner reads the line;
     * when it opened a board, a partition record is added for its id; then
     * the partition scanner reads the line.
     */
    static method FeedLine(boardData: B.CollectingBoardData, partitionData: P.CollectingPartitionData, line: string)
      returns (keyError: Option<P.KeyError>)
      requires boardData.Valid() && partitionData.Valid() && boardData.coreName == partitionData.coreName
      modifies boardData, boardData.boardsList, boardData.boardData
      modifies partitionData, partitionData.partitionList, partitionData.partitionList.parts.Values
      ensures boardData.Valid() && partitionData.Valid()
      ensures boardData.numOfBoardsWithoutLed == old(boardData.numOfBoardsWithoutLed)
      ensures boardData.boardData == old(boardData.boardData) || fresh(boardData.boardData)
      ensures boardData.boardsList.items == old(boardData.boardsList.items)
        || boardData.boardsList.items == old(boardData.boardsList.items) + [old(boardData.boardData)]
      ensures forall b | b in partitionData.partitionList.parts ::
        (b in old(partitionData.partitionList.parts) && partitionData.partitionList.parts[b] == old(partitionData.partitionList.parts)[b])
        || fresh(partitionData.partitionList.parts[b])
      ensures match ScanStep(boardData.coreName, old(Scan(boardData.State(), partitionData.State())), line)
        case Success(s) => keyError.None? && s == Scan(boardData.State(), partitionData.State())
        case Failure(e) => keyError == Some(e)
    {
      ghost var before := Scan(boardData.State(), partitionData.State());
      var id := boardData.CollectBoardData(line);
      ghost var boards := boardData.State();
      assert (boards, id) == B.CollectLine(boardData.coreName, before.boards, line);
      keyError := FeedPartitions(partitionData, id, line);
      assert boardData.State() == boards;
    }

    /**
     * The loop of `__get_data` over the lines of boards.txt, on two fresh
     * scanner objects. A KeyError of the partition scanner ends it.
     */
    static method ScanLines(coreName: string, corePath: string, lines: seq<string>)
      returns (boardData: B.CollectingBoardData, partitionData: P.CollectingPartitionData, keyError: Option<P.KeyError>)
      ensures boardData.Valid() && partitionData.Valid()
      ensures boardData.coreName == coreName && boardData.corePath == corePath
      ensures partitionData.coreName == coreName && partitionData.corePath == corePath
      ensures boardData.numOfBoardsWithoutLed == 0
      ensures fresh(boardData) && fresh(boardData.boardsList) && fresh(boardData.boardData)
      ensures forall o | o in boardData.boardsList.items :: fresh(o)
      ensures fresh(partitionData) && fresh(partitionData.partitionList)
      ensures forall b | b in partitionData.partitionList.parts :: fresh(partitionData.partitionList.parts[b])
      ensures match ScanAll(coreName, lines)
        case Success(s) => keyError.None? && s == Scan(boardData.State(), partitionData.State())
        case Failure(e) => keyError == Some(e)
    {
      boardData := new B.CollectingBoardData(coreName, corePath);
      partitionData := new P.CollectingPartitionData(coreName, corePath);
      var i := 0;
      while i < |lines|
        invariant i <= |lines|
        invariant boardData.Valid() && partitionData.Valid()
        invariant boardData.coreName == coreName && boardData.corePath == corePath
        invariant partitionData.coreName == coreName && partitionData.corePath == corePath
        invariant boardData.numOfBoardsWithoutLed == 0
        invariant fresh(boardData) && fresh(boardData.boardsList) && fresh(boardData.boardData)
        invariant forall o | o in boardData.boardsList.items :: fresh(o)
        invariant fresh(partitionData) && fresh(partitionData.partitionList)
        invariant forall b | b in partitionData.partitionList.parts :: fresh(partitionData.partitionList.parts[b])
        invariant ScanAll(coreName, lines[..i]) == Success(Scan(boardData.State(), partitionData.State()))
      {
        ScanAllSnoc(coreName, lines, i, Scan(boardData.State(), partitionData.State()));
        keyError := FeedLine(boardData, partitionData, lines[i]);
        if keyError.Some? {
          FailureIsFinal(coreName, lines, i + 1);
          return;
        }
        i := i + 1;
      }
      assert lines[..i] == lines;
      keyError := None;
    }

    /** `final_data` on the board scanner: the finalised boards with their LEDs, and the count. */
    static method FinishBoards(boardData: B.CollectingBoardData, fs: FileSystem, ghost core: string, ghost corePath: string, ghost scanned: Scan)
      requires boardData.Valid() && boardData.numOfBoardsWithoutLed == 0 && scanned.boards == boardData.State()
      requires boardData.coreName == core && boardData.corePath == corePath
      modifies boardData, boardData.boardsList, boardData.boardData, boardData.boardsList.items
      ensures boardData.Boards() == Conclude(core, corePath, fs, scanned).boards
      ensures boardData.numOfBoardsWithoutLed == Conclude(core, corePath, fs, scanned).numOfBoardsWithoutLed
    {
      boardData.FinalData(fs);
    }

    /** `check_partitions` on the partition scanner, and the records it hands out. */
    static method FinishPartitions(partitionData: P.CollectingPartitionData, fs: FileSystem, ghost core: string, ghost corePath: string, ghost scanned: Scan)
      requires partitionData.Valid() && scanned.parts == partitionData.State()
      requires partitionData.coreName == core && partitionData.corePath == corePath
      modifies partitionData, partitionData.partitionList, partitionData.partitionList.parts.Values
      ensures partitionData.partitionList.Value() == Conclude(core, corePath, fs, scanned).partitions
    {
      partitionData.CheckPartitions(fs);
      partitionData.RecordsAreContents();
    }

    /**
     * The end of `__get_data`: `check_partitions` and `final_data`. The two
     * scanners share no object, so the order of the two calls does not
     * change either result; the model finalises the boards first.
     */
    static method Finish(boardData: B.CollectingBoardData, partitionData: P.CollectingPartitionData, fs: FileSystem,
                         ghost core: string, ghost corePath: string, ghost scanned: Scan)
      requires boardData.Valid() && partitionData.Valid() && boardData.numOfBoardsWithoutLed == 0
      requires boardData.coreName == partitionData.coreName == core && boardData.corePath == partitionData.corePath == corePath
      requires scanned == Scan(boardData.State(), partitionData.State())
      modifies partitionData, partitionData.partitionList, partitionData.partitionList.parts.Values
      modifies boardData, boardData.boardsList, boardData.boardData, boardData.boardsList.items
      ensures boardData.Boards() == Conclude(core, corePath, fs, scanned).boards
      ensures boardData.numOfBoardsWithoutLed == Conclude(core, corePath, fs, scanned).numOfBoardsWithoutLed
      ensures partitionData.partitionList.Value() == Conclude(core, corePath, fs, scanned).partitions
    {
      FinishBoards(boardData, fs, core, corePath, scanned);
      FinishPartitions(partitionData, fs, core, corePath, scanned);
    }

    /** The assignments at the end of `__get_data`: the object keeps the two lists and the count. */
    method Keep(boardsList: BoardList, partitionList: PartitionList, missing: nat)
      modifies this
      ensures Data() == old(CoreResult(Values(boardsList.items), partitionList.Value(), missing))
    {
      partitions, boards, numOfBoardsWithoutLed := partitionList, boardsList, missing;
    }

    /** `__get_data`: the scan, then the partition check and the board finalisation. */
    method GetData(fs: FileSystem) returns (error: Option<CoreError>)
      modifies this
      ensures match ReadBoardsTxt(coreName, corePath, fs)
        case Success(d) => error.None? && Data() == d
        case Failure(e) => error == Some(e)
    {
      if !fs.IsFile(boardsTxt) {
        return Some(NotAFile(boardsTxt));
      }
      var boardData, partitionData, keyError := ScanLines(coreName, corePath, fs.files[boardsTxt]);
      if keyError.Some? {
        return Some(PartitionKeyError(keyError.value.key));
      }
      ghost var scanned := ScanAll(coreName, fs.files[boardsTxt]).value;
      assert forall i | 0 <= i < |boardData.boardsList.items| :: boardData.boardsList.items[i] in boardData.boardsList.items;
      Finish(boardData, partitionData, fs, coreName, corePath, scanned);
      Keep(boardData.boardsList, partitionData.partitionList, boardData.numOfBoardsWithoutLed);
      return None;
    }
  }
}
