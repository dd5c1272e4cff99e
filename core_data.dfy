/**
 * The older dict-based core scanner (pyScripts/helper/core_data.py).
 *
 * One pass over boards.txt fills two dicts: `boards` (board id to a dict of
 * "name", "variant", "mcu", "flash_size" (a list), "flash_partitions" and
 * later "LED_BUILTIN") and, for every core but esp8266, `partitions` (board
 * id to a dict of "default" and "schemes"). A lookup of a missing key raises
 * KeyError; the model returns that error. Then the partition check prunes
 * `partitions`, the LED pass reads each variant's pins_arduino.h keeping the
 * LAST matching line, and every board still without an LED gets "N/A".
 *
 * The per-line helpers each do one dict update and are functions on values
 * here; the loops over lines, boards and schemes are methods proved against
 * them.
 */
module CoreDataScan {
  import opened Wrappers
  import opened Text
  import opened Files
  import opened LedPatterns
  import B = CollectingBoards
  import P = CollectingPartitions
  import LedResolution
  import C = CollectingCore

  /** A board's dict: "name" always, every other key once a line set it. */
  datatype BoardEntry = BoardEntry(
    name: string,
    variant: Option<string>,
    mcu: Option<string>,
    flashSize: Option<seq<string>>,
    flashPartitions: Option<seq<string>>,
    ledBuiltin: Option<string>)

  /** A scheme's dict: "full_name", and "build" once a build line set it. */
  datatype SchemeEntry = SchemeEntry(fullName: string, build: Option<string>)

  /** A board's partition dict: "default", and "schemes" once a scheme was declared. */
  datatype PartEntry = PartEntry(default: Option<string>, schemes: Option<map<string, SchemeEntry>>)

  /** The scan's state: both dicts, the current board id and the active scheme key. */
  datatype Scan = Scan(boards: map<string, BoardEntry>, partitions: map<string, PartEntry>, name: string, partitionsName: string)

  /** What the constructor can raise. */
  datatype CoreError = ValueError(message: string) | NotAFile(path: string) | KeyError(key: string)

  const InitialScan := Scan(map[], map[], "", "")

  /** The "512KB" entry that the flash-size list keeps in front. */
  const Size512KB := "512KB"

  /** The dict a boundary line stores: only the display name. */
  function Named(full: string): BoardEntry {
    BoardEntry(full, None, None, None, None, None)
  }

  // ----- one line, helper by helper -----

  /** `__get_board_name`: a boundary line replaces the board's whole dict and makes it current. */
  function BoardNameStep(s: Scan, line: string): Scan {
    var (id, full) := B.GetBoardName(line);
    if id == "" then s else s.(boards := s.boards[id := Named(full)], name := id)
  }

  /** `__get_variant`. */
  function VariantStep(s: Scan, line: string): (r: Result<Scan, CoreError>)
    ensures r.Success? && NoLedYet(s.boards) ==> NoLedYet(r.value.boards)
  {
    match After(line, s.name + ".build.variant=")
    case None => Success(s)
    case Some(v) =>
      if s.name !in s.boards then Failure(KeyError(s.name))
      else Success(s.(boards := s.boards[s.name := s.boards[s.name].(variant := Some(v))]))
  }

  /** `__get_mcu`. */
  function McuStep(s: Scan, line: string): (r: Result<Scan, CoreError>)
    ensures r.Success? && NoLedYet(s.boards) ==> NoLedYet(r.value.boards)
  {
    match After(line, s.name + ".build.mcu=")
    case None => Success(s)
    case Some(v) =>
      if s.name !in s.boards then Failure(KeyError(s.name))
      else Success(s.(boards := s.boards[s.name := s.boards[s.name].(mcu := Some(v))]))
  }

  /** `list.append` on a dict entry that may not exist yet. */
  function Appended(list: Option<seq<string>>, x: string): seq<string> {
    list.GetOr([]) + [x]
  }

  /**
   * `__special_pattern_esp8266`: an eesz line other than `autoflash` appends
   * its key to "flash_partitions" and yields its size with a "B" unit; the
   * `autoflash` line yields nothing and changes nothing.
   */
  function Esp8266Step(s: Scan, line: string): (r: Result<(Scan, Option<string>), CoreError>)
    ensures r.Success? && r.value.1.Some? ==> r.value.1 == B.Esp8266FlashSize(s.name, line)
    ensures r.Success? && NoLedYet(s.boards) ==> NoLedYet(r.value.0.boards)
  {
    match B.EeszEntry(s.name, line)
    case None => Success((s, None))
    case Some((key, size)) =>
      if key == "autoflash" then Success((s, None))
      else if s.name !in s.boards then Failure(KeyError(s.name))
      else
        var e := s.boards[s.name];
        Success((s.(boards := s.boards[s.name := e.(flashPartitions := Some(Appended(e.flashPartitions, key)))]),
                 Some(B.WithUnitB(size))))
  }

  /** `__get_default_partition`: the board's whole partition dict becomes `{"default": v}`. */
  function DefaultStep(s: Scan, line: string): (r: Scan)
    ensures r.boards == s.boards && r.name == s.name
  {
    match P.DefaultMatch(s.name, line)
    case None => s
    case Some(v) => s.(partitions := s.partitions[s.name := PartEntry(Some(v), None)])
  }

  /** `__get_partition_name`: a scheme `{"full_name": full}` under its key, which becomes active. */
  function SchemeStep(s: Scan, line: string): (r: Result<Scan, CoreError>)
    ensures r.Success? ==> r.value.boards == s.boards && r.value.name == s.name
  {
    match P.SchemeMatch(s.name, line)
    case None => Success(s)
    case Some((key, full)) =>
      if s.name !in s.partitions then Failure(KeyError(s.name))
      else
        var p := s.partitions[s.name];
        var schemes := p.schemes.GetOr(map[]);
        Success(s.(partitions := s.partitions[s.name := p.(schemes := Some(schemes[key := SchemeEntry(full, None)]))],
                   partitionsName := key))
  }

  /** `__get_patition_build`: only a scheme without "build" gets one, so the first build line wins. */
  function BuildStep(s: Scan, line: string): (r: Result<Scan, CoreError>)
    ensures r.Success? ==> r.value.boards == s.boards && r.value.name == s.name
  {
    match P.BuildMatch(s.name, s.partitionsName, line)
    case None => Success(s)
    case Some(v) =>
      if s.name !in s.partitions then Failure(KeyError(s.name))
      else
        var p := s.partitions[s.name];
        if p.schemes.None? then Failure(KeyError("schemes"))
        else if s.partitionsName !in p.schemes.value then Failure(KeyError(s.partitionsName))
        else
          var scheme := p.schemes.value[s.partitionsName];
          if scheme.build.Some? then Success(s)
          else
            var schemes := p.schemes.value[s.partitionsName := scheme.(build := Some(v))];
            Success(s.(partitions := s.partitions[s.name := p.(schemes := Some(schemes))]))
  }

  /** The esp32 branch of the loop: the flash size, then the three partition helpers. */
  function Esp32Step(s: Scan, line: string): (r: Result<(Scan, Option<string>), CoreError>)
    ensures r.Success? ==> r.value.0.boards == s.boards && r.value.0.name == s.name
  {
    var flash := After(line, s.name + ".build.flash_size=");
    var s1 := DefaultStep(s, line);
    var s2 :- SchemeStep(s1, line);
    var s3 :- BuildStep(s2, line);
    Success((s3, flash))
  }

  /**
   * The flash-size list rule: a size already listed is skipped, "512KB" goes
   * in front, any other size at the end.
   */
  function AddFlashSize(sizes: seq<string>, v: string): seq<string> {
    if v in sizes then sizes
    else if v == Size512KB then [v] + sizes
    else sizes + [v]
  }

  /** "store flash size": the size a line yielded joins the current board's list. */
  function StoreFlashSize(s: Scan, flash: Option<string>): (r: Result<Scan, CoreError>)
    ensures r.Success? && NoLedYet(s.boards) ==> NoLedYet(r.value.boards)
  {
    match flash
    case None => Success(s)
    case Some(v) =>
      if s.name !in s.boards then Failure(KeyError(s.name))
      else
        var e := s.boards[s.name];
        Success(s.(boards := s.boards[s.name := e.(flashSize := Some(AddFlashSize(e.flashSize.GetOr([]), v)))]))
  }

  /** The attribute helpers of one pass of the loop, after the board-name helper. */
  function AttributeStep(core: string, s: Scan, line: string): Result<Scan, CoreError> {
    var s1 :- VariantStep(s, line);
    var s2 :- McuStep(s1, line);
    var r :- if core == "esp8266" then Esp8266Step(s2, line) else Esp32Step(s2, line);
    StoreFlashSize(r.0, r.1)
  }

  /** One pass of the loop of `__get_data`. */
  function LineStep(core: string, s: Scan, line: string): Result<Scan, CoreError> {
    AttributeStep(core, BoardNameStep(s, line), line)
  }

  /** The loop of `__get_data` over `lines`; the first KeyError ends it. */
  function ScanAll(core: string, lines: seq<string>): Result<Scan, CoreError> {
    if lines == [] then Success(InitialScan)
    else
      var s :- ScanAll(core, lines[..|lines| - 1]);
      LineStep(core, s, lines[|lines| - 1])
  }

  // ----- the flash-size list -----

  /** The list the rule builds from the sizes of one board, in reading order. */
  function FlashList(vs: seq<string>): seq<string> {
    if vs == [] then [] else AddFlashSize(FlashList(vs[..|vs| - 1]), vs[|vs| - 1])
  }

  /** The first occurrence of each element, in order. */
  function Dedup(vs: seq<string>): seq<string> {
    if vs == [] then []
    else
      var init := vs[..|vs| - 1];
      if vs[|vs| - 1] in init then Dedup(init) else Dedup(init) + [vs[|vs| - 1]]
  }

  /** The sizes other than "512KB", in order. */
  function Others(vs: seq<string>): seq<string> {
    if vs == [] then []
    else Others(vs[..|vs| - 1]) + (if vs[|vs| - 1] == Size512KB then [] else [vs[|vs| - 1]])
  }

  lemma {:induction false} DedupMembers(vs: seq<string>)
    ensures forall x :: x in Dedup(vs) <==> x in vs
  {
    if vs != [] {
      DedupMembers(vs[..|vs| - 1]);
      assert vs == vs[..|vs| - 1] + [vs[|vs| - 1]];
    }
  }

  lemma {:induction false} OthersMembers(vs: seq<string>)
    ensures forall x :: x in Others(vs) <==> x in vs && x != Size512KB
  {
    if vs != [] {
      OthersMembers(vs[..|vs| - 1]);
      assert vs == vs[..|vs| - 1] + [vs[|vs| - 1]];
    }
  }

  /**
   * The rule as a reference definition: "512KB" first if it was ever read,
   * then every other size once, in the order first read.
   */
  function Reference(vs: seq<string>): seq<string> {
    (if Size512KB in vs then [Size512KB] else []) + Dedup(Others(vs))
  }

  /** Reading one more size moves the reference list as the rule does. */
  lemma ReferenceStep(init: seq<string>, x: string)
    ensures Reference(init + [x]) == AddFlashSize(Reference(init), x)
  {
    var vs := init + [x];
    assert vs[..|vs| - 1] == init && vs[|vs| - 1] == x;
    DedupMembers(Others(init));
    OthersMembers(init);
    assert x in Reference(init) <==> x in init;
    if x != Size512KB {
      assert Others(vs) == Others(init) + [x];
      var o := Others(init) + [x];
      assert o[..|o| - 1] == Others(init) && o[|o| - 1] == x;
    } else {
      assert Others(vs) == Others(init);
    }
  }

  /** The flash-size list is the reference list of the sizes read. */
  lemma {:induction false} FlashListOrder(vs: seq<string>)
    ensures FlashList(vs) == Reference(vs)
  {
    if vs != [] {
      var init := vs[..|vs| - 1];
      assert vs == init + [vs[|vs| - 1]];
      FlashListOrder(init);
      ReferenceStep(init, vs[|vs| - 1]);
    }
  }

  /** No size twice, and "512KB", when present, in front. */
  predicate FlashShape(sizes: seq<string>) {
    (forall i, j | 0 <= i < j < |sizes| :: sizes[i] != sizes[j])
    && (Size512KB in sizes ==> sizes[0] == Size512KB)
  }

  lemma AddFlashSizeShape(sizes: seq<string>, v: string)
    requires FlashShape(sizes)
    ensures FlashShape(AddFlashSize(sizes, v))
    ensures forall x :: x in AddFlashSize(sizes, v) <==> x in sizes || x == v
  {
  }

  /** The list built from any sizes has no duplicates, keeps "512KB" in front and holds exactly the sizes read. */
  lemma {:induction false} FlashListShape(vs: seq<string>)
    ensures FlashShape(FlashList(vs))
    ensures forall x :: x in FlashList(vs) <==> x in vs
  {
    if vs != [] {
      FlashListShape(vs[..|vs| - 1]);
      AddFlashSizeShape(FlashList(vs[..|vs| - 1]), vs[|vs| - 1]);
      assert vs == vs[..|vs| - 1] + [vs[|vs| - 1]];
    }
  }

  /** Every board's flash-size list has the shape of the rule. */
  predicate BoardsFlashShape(boards: map<string, BoardEntry>) {
    forall b | b in boards && boards[b].flashSize.Some? :: FlashShape(boards[b].flashSize.value)
  }

  lemma AttributeStepShape(core: string, s: Scan, line: string)
    requires BoardsFlashShape(s.boards) && AttributeStep(core, s, line).Success?
    ensures BoardsFlashShape(AttributeStep(core, s, line).value.boards)
  {
    var s1 := VariantStep(s, line).value;
    assert BoardsFlashShape(s1.boards);
    var s2 := McuStep(s1, line).value;
    assert BoardsFlashShape(s2.boards);
    var r := (if core == "esp8266" then Esp8266Step(s2, line) else Esp32Step(s2, line)).value;
    assert BoardsFlashShape(r.0.boards);
    StoreFlashSizeShape(r.0, r.1);
  }

  lemma StoreFlashSizeShape(s: Scan, flash: Option<string>)
    requires BoardsFlashShape(s.boards) && StoreFlashSize(s, flash).Success?
    ensures BoardsFlashShape(StoreFlashSize(s, flash).value.boards)
  {
    if flash.Some? {
      AddFlashSizeShape(s.boards[s.name].flashSize.GetOr([]), flash.value);
    }
  }

  /** After any scan every board's flash-size list has no duplicates and "512KB" in front. */
  lemma {:induction false} ScanFlashShape(core: string, lines: seq<string>)
    requires ScanAll(core, lines).Success?
    ensures BoardsFlashShape(ScanAll(core, lines).value.boards)
  {
    if lines != [] {
      ScanFlashShape(core, lines[..|lines| - 1]);
      var prev := ScanAll(core, lines[..|lines| - 1]).value;
      AttributeStepShape(core, BoardNameStep(prev, lines[|lines| - 1]), lines[|lines| - 1]);
    }
  }

  // ----- what one line does -----

  /** Two patterns that continue differently at position `i` never both match a line. */
  lemma Diverge(line: string, a: string, b: string, i: nat)
    requires i < |a| && i < |b| && a[i] != b[i] && a <= line
    ensures !(b <= line)
  {
  }

  /**
   * A boundary line replaces its board's whole dict with `{"name": …}`,
   * discarding what earlier lines set, and makes the board current; no
   * other helper matches it.
   */
  lemma NameLineStartsBoard(core: string, s: Scan, line: string)
    requires B.GetBoardName(line).0 != ""
    ensures var (id, full) := B.GetBoardName(line);
      LineStep(core, s, line) == Success(s.(boards := s.boards[id := Named(full)], name := id))
  {
    var (id, full) := B.GetBoardName(line);
    var a := id + ".name=";
    var i := |id| + 1;
    assert a <= line && a[i] == 'n';
    var t := BoardNameStep(s, line);
    assert t == s.(boards := s.boards[id := Named(full)], name := id);
    Diverge(line, a, id + ".build.variant=", i);
    assert VariantStep(t, line) == Success(t);
    Diverge(line, a, id + ".build.mcu=", i);
    assert McuStep(t, line) == Success(t);
    if core == "esp8266" {
      Diverge(line, a, id + ".menu.eesz.", i);
      assert Esp8266Step(t, line) == Success((t, None));
    } else {
      Diverge(line, a, id + ".build.flash_size=", i);
      Diverge(line, a, id + P.PartitionsKey, i);
      assert DefaultStep(t, line) == t;
      Diverge(line, a, id + P.SchemeKey, i);
      assert SchemeStep(t, line) == Success(t);
      Diverge(line, a, id + P.SchemeKey + s.partitionsName + P.PartitionsKey, i);
      assert BuildStep(t, line) == Success(t);
      assert Esp32Step(t, line) == Success((t, None));
    }
  }

  /** An eesz line of the current board is neither a boundary nor a variant or mcu line. */
  lemma EeszLineIsNoAttribute(s: Scan, line: string)
    requires B.GetBoardName(line).0 == "" && B.EeszEntry(s.name, line).Some?
    ensures BoardNameStep(s, line) == s && VariantStep(s, line) == Success(s) && McuStep(s, line) == Success(s)
  {
    var a := s.name + ".menu.eesz.";
    var i := |s.name| + 1;
    assert a <= line && a[i] == 'm';
    Diverge(line, a, s.name + ".build.variant=", i);
    Diverge(line, a, s.name + ".build.mcu=", i);
  }

  /** For esp8266 the `autoflash` eesz line of the current board changes nothing. */
  lemma AutoflashIgnored(s: Scan, line: string)
    requires B.GetBoardName(line).0 == ""
    requires B.EeszEntry(s.name, line).Some? && B.EeszEntry(s.name, line).value.0 == "autoflash"
    ensures LineStep("esp8266", s, line) == Success(s)
  {
    EeszLineIsNoAttribute(s, line);
  }

  /**
   * For esp8266 any other eesz line of the current board appends its key to
   * "flash_partitions" and its size, with a "B" unit, to the flash-size list.
   */
  lemma Esp8266SizeStored(s: Scan, line: string)
    requires B.GetBoardName(line).0 == "" && s.name in s.boards
    requires B.EeszEntry(s.name, line).Some? && B.EeszEntry(s.name, line).value.0 != "autoflash"
    ensures var (key, size) := B.EeszEntry(s.name, line).value;
      var e := s.boards[s.name];
      LineStep("esp8266", s, line) == Success(s.(boards := s.boards[s.name := e.(
        flashPartitions := Some(e.flashPartitions.GetOr([]) + [key]),
        flashSize := Some(AddFlashSize(e.flashSize.GetOr([]), B.WithUnitB(size))))]))
  {
    EeszLineIsNoAttribute(s, line);
    var (key, size) := B.EeszEntry(s.name, line).value;
    var e := s.boards[s.name];
    var s1 := s.(boards := s.boards[s.name := e.(flashPartitions := Some(Appended(e.flashPartitions, key)))]);
    assert Esp8266Step(s, line) == Success((s1, Some(B.WithUnitB(size))));
    assert LineStep("esp8266", s, line) == StoreFlashSize(s1, Some(B.WithUnitB(size)));
    var e2 := e.(flashPartitions := Some(Appended(e.flashPartitions, key)),
                 flashSize := Some(AddFlashSize(e.flashSize.GetOr([]), B.WithUnitB(size))));
    assert s1.boards[s.name := e2] == s.boards[s.name := e2];
  }

  /**
   * Outside esp8266 a `<id>.build.partitions=` line replaces the current
   * board's whole partition dict with `{"default": v}`, dropping any schemes.
   */
  lemma DefaultReplacesEntry(core: string, s: Scan, line: string)
    requires core != "esp8266" && B.GetBoardName(line).0 == ""
    requires P.DefaultMatch(s.name, line).Some?
    ensures LineStep(core, s, line)
      == Success(s.(partitions := s.partitions[s.name := PartEntry(Some(P.DefaultMatch(s.name, line).value), None)]))
  {
    var a := s.name + P.PartitionsKey;
    var i := |s.name| + 7;
    assert a <= line && a[i] == 'p' && a[|s.name| + 1] == 'b';
    Diverge(line, a, s.name + ".build.variant=", i);
    Diverge(line, a, s.name + ".build.mcu=", i);
    Diverge(line, a, s.name + ".build.flash_size=", i);
    Diverge(line, a, s.name + P.SchemeKey, |s.name| + 1);
    Diverge(line, a, s.name + P.SchemeKey + s.partitionsName + P.PartitionsKey, |s.name| + 1);
  }

  /** Outside esp8266 a scheme declaration for a board without a partition dict raises KeyError. */
  lemma SchemeWithoutEntryRaises(core: string, s: Scan, line: string)
    requires core != "esp8266" && B.GetBoardName(line).0 == ""
    requires P.SchemeMatch(s.name, line).Some? && s.name !in s.partitions
    ensures LineStep(core, s, line) == Failure(KeyError(s.name))
  {
    var a := s.name + P.SchemeKey;
    var i := |s.name| + 1;
    assert a <= line && a[i] == 'm';
    Diverge(line, a, s.name + ".build.variant=", i);
    Diverge(line, a, s.name + ".build.mcu=", i);
    Diverge(line, a, s.name + P.PartitionsKey, i);
  }

  /**
   * The first build line of a scheme wins: once the active scheme has a
   * "build", a later build line for it changes nothing (and only warns).
   */
  lemma BuildFirstWins(core: string, s: Scan, line: string)
    requires core != "esp8266" && B.GetBoardName(line).0 == ""
    requires P.BuildMatch(s.name, s.partitionsName, line).Some? && P.SchemeMatch(s.name, line).None?
    requires s.name in s.partitions && s.partitions[s.name].schemes.Some?
    requires s.partitionsName in s.partitions[s.name].schemes.value
    requires s.partitions[s.name].schemes.value[s.partitionsName].build.Some?
    ensures LineStep(core, s, line) == Success(s)
  {
    var a := s.name + P.SchemeKey + s.partitionsName + P.PartitionsKey;
    var i := |s.name| + 1;
    assert a <= line && a[i] == 'm';
    Diverge(line, a, s.name + ".build.variant=", i);
    Diverge(line, a, s.name + ".build.mcu=", i);
    Diverge(line, a, s.name + ".build.flash_size=", i);
    Diverge(line, a, s.name + P.PartitionsKey, i);
  }

  /** Every partition dict has a "default": each one is created as `{"default": v}`. */
  predicate EntriesHaveDefault(parts: map<string, PartEntry>) {
    forall b | b in parts :: parts[b].default.Some?
  }

  lemma Esp32StepPartitions(s: Scan, line: string)
    requires EntriesHaveDefault(s.partitions) && Esp32Step(s, line).Success?
    ensures EntriesHaveDefault(Esp32Step(s, line).value.0.partitions)
  {
    var s1 := DefaultStep(s, line);
    assert EntriesHaveDefault(s1.partitions);
    var s2 := SchemeStep(s1, line).value;
    assert EntriesHaveDefault(s2.partitions);
  }

  lemma AttributeStepEsp8266(s: Scan, line: string)
    requires AttributeStep("esp8266", s, line).Success?
    ensures AttributeStep("esp8266", s, line).value.partitions == s.partitions
  {
  }

  lemma AttributeStepDefaults(core: string, s: Scan, line: string)
    requires EntriesHaveDefault(s.partitions) && AttributeStep(core, s, line).Success?
    ensures EntriesHaveDefault(AttributeStep(core, s, line).value.partitions)
  {
    var s2 := McuStep(VariantStep(s, line).value, line).value;
    assert s2.partitions == s.partitions;
    if core != "esp8266" {
      Esp32StepPartitions(s2, line);
    }
  }

  /**
   * After any scan every partition dict has a "default", and an esp8266 scan
   * fills no partition dict at all: the partition helpers run only in the
   * branch every other core takes.
   */
  lemma {:induction false} ScanPartitions(core: string, lines: seq<string>)
    requires ScanAll(core, lines).Success?
    ensures EntriesHaveDefault(ScanAll(core, lines).value.partitions)
    ensures core == "esp8266" ==> ScanAll(core, lines).value.partitions == map[]
  {
    if lines != [] {
      ScanPartitions(core, lines[..|lines| - 1]);
      var prev := ScanAll(core, lines[..|lines| - 1]).value;
      AttributeStepDefaults(core, BoardNameStep(prev, lines[|lines| - 1]), lines[|lines| - 1]);
      if core == "esp8266" {
        AttributeStepEsp8266(BoardNameStep(prev, lines[|lines| - 1]), lines[|lines| - 1]);
      }
    }
  }

  // ----- the partition check -----

  /** `__check_partitions` on one board: `None` when the board is removed. */
  function CheckEntry(corePath: string, fs: FileSystem, e: PartEntry): Option<PartEntry> {
    match e.schemes
    case None =>
      if e.default.None? || !fs.Exists(P.SchemeCsvPath(corePath, e.default.value)) then None else Some(e)
    case Some(schemes) => Some(e.(schemes := Some(WithBuilds(schemes))))
  }

  /** The schemes that have a "build". */
  function WithBuilds(schemes: map<string, SchemeEntry>): map<string, SchemeEntry> {
    map k | k in schemes && schemes[k].build.Some? :: schemes[k]
  }

  /** `__check_partitions` on the whole dict. */
  function CheckAll(corePath: string, fs: FileSystem, parts: map<string, PartEntry>): map<string, PartEntry> {
    map b | b in parts && CheckEntry(corePath, fs, parts[b]).Some? :: CheckEntry(corePath, fs, parts[b]).value
  }

  /**
   * The check's rules: a board with schemes is kept, with exactly its schemes
   * that have a build; a board without schemes is kept unchanged exactly when
   * it has a default whose CSV exists.
   */
  lemma CheckRules(corePath: string, fs: FileSystem, parts: map<string, PartEntry>, b: string)
    requires b in parts
    ensures var r := CheckAll(corePath, fs, parts);
      parts[b].schemes.Some? ==> b in r && r[b].default == parts[b].default && r[b].schemes.Some?
    ensures var r := CheckAll(corePath, fs, parts);
      parts[b].schemes.Some? ==> forall k ::
        k in r[b].schemes.value <==> k in parts[b].schemes.value && parts[b].schemes.value[k].build.Some?
    ensures var r := CheckAll(corePath, fs, parts);
      parts[b].schemes.Some? ==> forall k | k in r[b].schemes.value :: r[b].schemes.value[k] == parts[b].schemes.value[k]
    ensures var r := CheckAll(corePath, fs, parts);
      parts[b].schemes.None? ==>
        (b in r <==> parts[b].default.Some? && fs.Exists(P.SchemeCsvPath(corePath, parts[b].default.value)))
    ensures var r := CheckAll(corePath, fs, parts);
      parts[b].schemes.None? && b in r ==> r[b] == parts[b]
  {
  }

  /** The check never adds a board, and leaves no scheme without a build. */
  lemma CheckLeavesBuilds(corePath: string, fs: FileSystem, parts: map<string, PartEntry>)
    ensures CheckAll(corePath, fs, parts).Keys <= parts.Keys
    ensures forall b, k | b in CheckAll(corePath, fs, parts) && CheckAll(corePath, fs, parts)[b].schemes.Some?
      && k in CheckAll(corePath, fs, parts)[b].schemes.value :: CheckAll(corePath, fs, parts)[b].schemes.value[k].build.Some?
  {
  }

  // ----- the LED pass -----

  /** The LED pattern of a core: `^.+ LED_BUILTIN +\(?(\d+)` for esp8266, `^.+ LED_BUILTIN = (\d+)` otherwise. */
  function LedPatternOf(core: string): LedPattern {
    if core == "esp8266" then Esp8266Digits else EqualsDigits
  }

  /** The digits line `i` of a header yields, if it matches (nothing past the end). */
  function LedHits(pat: LedPattern, lines: seq<string>): nat -> Option<string> {
    (i: nat) => if i < |lines| then MatchLine(pat, lines[i]) else None
  }

  /** The digits of the LAST line of the header that matches: the scan never stops early. */
  function LastLed(pat: LedPattern, lines: seq<string>): Option<string> {
    LastHit(LedHits(pat, lines), |lines|)
  }

  /** The last match wins: nothing exactly when no line matches, else the match of a line after which none matches. */
  lemma LastLedIsLast(pat: LedPattern, lines: seq<string>)
    ensures LastLed(pat, lines).None? <==> forall i | 0 <= i < |lines| :: MatchLine(pat, lines[i]).None?
    ensures LastLed(pat, lines).Some? ==> exists i | 0 <= i < |lines| ::
      LastLed(pat, lines) == MatchLine(pat, lines[i]) && forall k | i < k < |lines| :: MatchLine(pat, lines[k]).None?
  {
    var hits := LedHits(pat, lines);
    LastHitIsLast(hits, |lines|);
    assert forall i | 0 <= i < |lines| :: hits(i) == MatchLine(pat, lines[i]);
  }

  /** A found LED is a digit string. */
  lemma LastLedDigits(pat: LedPattern, lines: seq<string>)
    requires !pat.PinCount? && LastLed(pat, lines).Some?
    ensures |LastLed(pat, lines).value| >= 1 && AllDigits(LastLed(pat, lines).value)
  {
    LastLedIsLast(pat, lines);
  }

  /** After any scan, for any core, no board dict holds "LED_BUILTIN" yet. */
  predicate NoLedYet(boards: map<string, BoardEntry>) {
    forall b | b in boards :: boards[b].ledBuiltin.None?
  }

  lemma AttributeStepNoLed(core: string, s: Scan, line: string)
    requires NoLedYet(s.boards) && AttributeStep(core, s, line).Success?
    ensures NoLedYet(AttributeStep(core, s, line).value.boards)
  {
  }

  lemma {:induction false} ScanLeavesLedUnset(core: string, lines: seq<string>)
    requires ScanAll(core, lines).Success?
    ensures NoLedYet(ScanAll(core, lines).value.boards)
  {
    if lines != [] {
      ScanLeavesLedUnset(core, lines[..|lines| - 1]);
      var prev := ScanAll(core, lines[..|lines| - 1]).value;
      AttributeStepNoLed(core, BoardNameStep(prev, lines[|lines| - 1]), lines[|lines| - 1]);
    }
  }

  /** Once a prefix of the file raises, the whole scan raises the same KeyError. */
  lemma {:induction false} FailureIsFinal(core: string, lines: seq<string>, i: nat)
    requires i <= |lines| && ScanAll(core, lines[..i]).Failure?
    ensures ScanAll(core, lines) == ScanAll(core, lines[..i])
    decreases |lines|
  {
    if i < |lines| {
      var init := lines[..|lines| - 1];
      assert init[..i] == lines[..i];
      FailureIsFinal(core, init, i);
    } else {
      assert lines[..i] == lines;
    }
  }

  /** The placeholder of a board whose LED is unknown. */
  const NotAvailable := "N/A"

  /**
   * `__find_led_builtin` on one board: its new dict and whether an LED line
   * was found. No variant or no header gives "N/A"; a header without a
   * matching line leaves the dict as it was.
   */
  function ResolveEntry(core: string, corePath: string, fs: FileSystem, e: BoardEntry): (BoardEntry, bool) {
    match e.variant
    case None => (e.(ledBuiltin := Some(NotAvailable)), false)
    case Some(v) =>
      var path := LedResolution.VariantHeader(corePath, v);
      if !fs.IsFile(path) then (e.(ledBuiltin := Some(NotAvailable)), false)
      else
        match LastLed(LedPatternOf(core), fs.files[path])
        case Some(d) => (e.(ledBuiltin := Some(d)), true)
        case None => (e, false)
  }

  /** The boards dict after `__find_led_builtin`. */
  function WithLeds(core: string, corePath: string, fs: FileSystem, boards: map<string, BoardEntry>): map<string, BoardEntry> {
    map b | b in boards :: ResolveEntry(core, corePath, fs, boards[b]).0
  }

  /** The boards for which `__find_led_builtin` found no LED line. */
  function Unresolved(core: string, corePath: string, fs: FileSystem, boards: map<string, BoardEntry>): set<string> {
    set b | b in boards && !ResolveEntry(core, corePath, fs, boards[b]).1
  }

  /** A board on which `__set_boars_without_led` raises KeyError('variant'). */
  predicate LacksLedAndVariant(e: BoardEntry) {
    e.ledBuiltin.None? && e.variant.None?
  }

  /** `__set_boars_without_led` on one board that has a variant or an LED. */
  function FilledIn(e: BoardEntry): BoardEntry {
    if e.ledBuiltin.None? then e.(ledBuiltin := Some(NotAvailable)) else e
  }

  /** The boards dict after `__set_boars_without_led`. */
  function WithNA(boards: map<string, BoardEntry>): map<string, BoardEntry> {
    map b | b in boards :: FilledIn(boards[b])
  }

  /** The dicts `__get_data` returns: the scanned boards and the checked partitions. */
  function GetDataSpec(core: string, corePath: string, fs: FileSystem): Result<(map<string, BoardEntry>, map<string, PartEntry>), CoreError> {
    var path := C.BoardsTxt(corePath);
    if !fs.IsFile(path) then Failure(NotAFile(path))
    else
      var s :- ScanAll(core, fs.files[path]);
      Success((s.boards, CheckAll(corePath, fs, s.partitions)))
  }

  /** What a constructed object holds. */
  datatype CoreTables = CoreTables(boards: map<string, BoardEntry>, partitions: map<string, PartEntry>, numOfBoardsWithoutLed: nat)

  /** `CoreData(...)`: both existence checks, `__get_data`, `__find_led_builtin`, `__set_boars_without_led`. */
  function BuildCore(core: string, corePath: string, fs: FileSystem): Result<CoreTables, CoreError> {
    if !fs.Exists(corePath) then Failure(ValueError("Error: could not found " + corePath))
    else if !fs.Exists(C.BoardsTxt(corePath)) then Failure(ValueError("Error: could not found " + C.BoardsTxt(corePath)))
    else
      var data :- GetDataSpec(core, corePath, fs);
      var leds := WithLeds(core, corePath, fs, data.0);
      if exists b | b in leds :: LacksLedAndVariant(leds[b]) then Failure(KeyError("variant"))
      else Success(CoreTables(WithNA(leds), data.1, |Unresolved(core, corePath, fs, data.0)|))
  }

  /** The LED pass leaves every board with an LED or a variant, so the KeyError of `__set_boars_without_led` cannot follow it. */
  lemma LedPassLeavesVariantOrLed(core: string, corePath: string, fs: FileSystem, boards: map<string, BoardEntry>)
    ensures forall b | b in WithLeds(core, corePath, fs, boards) :: !LacksLedAndVariant(WithLeds(core, corePath, fs, boards)[b])
  {
  }

  /** The constructor fails only by the existence checks, a boards.txt that is no file, or a KeyError of the scan. */
  lemma BuildCoreOutcome(core: string, corePath: string, fs: FileSystem)
    ensures BuildCore(core, corePath, fs).Success? <==>
      fs.Exists(corePath) && fs.Exists(C.BoardsTxt(corePath)) && GetDataSpec(core, corePath, fs).Success?
  {
    if fs.Exists(corePath) && fs.Exists(C.BoardsTxt(corePath)) && GetDataSpec(core, corePath, fs).Success? {
      LedPassLeavesVariantOrLed(core, corePath, fs, GetDataSpec(core, corePath, fs).value.0);
    }
  }

  /** A found LED is digits, so never "N/A". */
  lemma FoundLedIsDigits(core: string, corePath: string, fs: FileSystem, e: BoardEntry)
    requires ResolveEntry(core, corePath, fs, e).1
    ensures var led := ResolveEntry(core, corePath, fs, e).0.ledBuiltin;
      led.Some? && |led.value| >= 1 && AllDigits(led.value) && led.value != NotAvailable
  {
    var path := LedResolution.VariantHeader(corePath, e.variant.value);
    LastLedDigits(LedPatternOf(core), fs.files[path]);
    assert !IsDigit(NotAvailable[0]);
  }

  /** The LED rules on one board that had no LED yet. */
  lemma LedBoardRules(core: string, corePath: string, fs: FileSystem, boards: map<string, BoardEntry>, b: string)
    requires b in boards && boards[b].ledBuiltin.None?
    ensures var t := WithNA(WithLeds(core, corePath, fs, boards));
      b in t && t[b] == boards[b].(ledBuiltin := t[b].ledBuiltin) && t[b].ledBuiltin.Some?
      && (boards[b].variant.None? ==> t[b].ledBuiltin == Some(NotAvailable))
      && (t[b].ledBuiltin != Some(NotAvailable) ==> |t[b].ledBuiltin.value| >= 1 && AllDigits(t[b].ledBuiltin.value))
      && (b in Unresolved(core, corePath, fs, boards) <==> t[b].ledBuiltin == Some(NotAvailable))
  {
    if ResolveEntry(core, corePath, fs, boards[b]).1 {
      FoundLedIsDigits(core, corePath, fs, boards[b]);
    }
  }

  /**
   * The LED rules over a scanned boards dict: the same boards, only
   * "LED_BUILTIN" changed, every board given one, "N/A" for a board without
   * variant, digits or "N/A" otherwise.
   */
  lemma LedRules(core: string, corePath: string, fs: FileSystem, boards: map<string, BoardEntry>)
    requires NoLedYet(boards)
    ensures var t := WithNA(WithLeds(core, corePath, fs, boards));
      t.Keys == boards.Keys && forall b | b in t :: t[b] == boards[b].(ledBuiltin := t[b].ledBuiltin)
    ensures var t := WithNA(WithLeds(core, corePath, fs, boards));
      forall b | b in t :: t[b].ledBuiltin.Some?
    ensures var t := WithNA(WithLeds(core, corePath, fs, boards));
      forall b | b in t && boards[b].variant.None? :: t[b].ledBuiltin == Some(NotAvailable)
    ensures var t := WithNA(WithLeds(core, corePath, fs, boards));
      forall b | b in t && t[b].ledBuiltin != Some(NotAvailable) :: |t[b].ledBuiltin.value| >= 1 && AllDigits(t[b].ledBuiltin.value)
  {
    forall b | b in boards {
      LedBoardRules(core, corePath, fs, boards, b);
    }
  }

  /** The counter of `__find_led_builtin` counts exactly the boards that end up at "N/A". */
  lemma LedCount(core: string, corePath: string, fs: FileSystem, boards: map<string, BoardEntry>)
    requires NoLedYet(boards)
    ensures var t := WithNA(WithLeds(core, corePath, fs, boards));
      Unresolved(core, corePath, fs, boards) == set b | b in t && t[b].ledBuiltin == Some(NotAvailable)
  {
    forall b | b in boards {
      LedBoardRules(core, corePath, fs, boards, b);
    }
  }

  /** What a constructed object holds: the scan's boards with LEDs set as above, and the checked partitions. */
  lemma BuildCoreTables(core: string, corePath: string, fs: FileSystem)
    requires BuildCore(core, corePath, fs).Success?
    ensures var t := BuildCore(core, corePath, fs).value;
      var lines := fs.files[C.BoardsTxt(corePath)];
      var s := ScanAll(core, lines).value;
      t.boards == WithNA(WithLeds(core, corePath, fs, s.boards)) && NoLedYet(s.boards)
      && t.partitions == CheckAll(corePath, fs, s.partitions)
      && t.numOfBoardsWithoutLed == |set b | b in t.boards && t.boards[b].ledBuiltin == Some(NotAvailable)|
  {
    var lines := fs.files[C.BoardsTxt(corePath)];
    ScanLeavesLedUnset(core, lines);
    LedCount(core, corePath, fs, ScanAll(core, lines).value.boards);
  }

  // ----- the class -----

  /**
   * `CoreData`: the constructor scans boards.txt into `boards` and
   * `partitions`, resolves the LEDs and fills in "N/A".
   */
  class CoreData {
    const coreName: string
    const coreVersion: string
    const corePath: string
    const boardsTxt: string := C.BoardsTxt(corePath)
    var numOfBoardsWithoutLed: nat
    var boards: map<string, BoardEntry>
    var partitions: map<string, PartEntry>

    /** What the object holds, as values. */
    function Tables(): CoreTables
      reads this
    {
      CoreTables(boards, partitions, numOfBoardsWithoutLed)
    }

    /** The field set-up of `__init__`, before any check. */
    constructor (coreName: string, coreVersion: string, corePath: string)
      ensures this.coreName == coreName && this.coreVersion == coreVersion && this.corePath == corePath
      ensures Tables() == CoreTables(map[], map[], 0)
    {
      this.coreName, this.coreVersion, this.corePath := coreName, coreVersion, corePath;
      numOfBoardsWithoutLed := 0;
      boards, partitions := map[], map[];
    }

    /** `CoreData(...)`: the two existence checks, `__get_data`, `__find_led_builtin`, `__set_boars_without_led`. */
    static method Create(coreName: string, coreVersion: string, corePath: string, fs: FileSystem)
      returns (r: Result<CoreData, CoreError>)
      ensures r.Success? <==> BuildCore(coreName, corePath, fs).Success?
      ensures r.Success? ==> fresh(r.value) && r.value.Tables() == BuildCore(coreName, corePath, fs).value
      ensures r.Success? ==> r.value.coreName == coreName && r.value.coreVersion == coreVersion && r.value.corePath == corePath
      ensures r.Failure? ==> r.error == BuildCore(coreName, corePath, fs).error
    {
      if !fs.Exists(corePath) {
        return Failure(ValueError("Error: could not found " + corePath));
      }
      if !fs.Exists(C.BoardsTxt(corePath)) {
        return Failure(ValueError("Error: could not found " + C.BoardsTxt(corePath)));
      }
      var core := new CoreData(coreName, coreVersion, corePath);
      var data := core.GetData(fs);
      if data.Failure? {
        return Failure(data.error);
      }
      core.boards, core.partitions := data.value.0, data.value.1;
      core.FindLedBuiltin(fs);
      var error := core.SetBoardsWithoutLed();
      if error.Some? {
        // The LED pass left every board an LED or its variant, so the lookup cannot raise.
        assert false;
      }
      return Success(core);
    }

    /** `__get_data`: read boards.txt line by line, then check the partitions. */
    method GetData(fs: FileSystem) returns (r: Result<(map<string, BoardEntry>, map<string, PartEntry>), CoreError>)
      ensures r == GetDataSpec(coreName, corePath, fs)
    {
      if !fs.IsFile(boardsTxt) {
        return Failure(NotAFile(boardsTxt));
      }
      var s :- ScanLines(coreName, fs.files[boardsTxt]);
      var checked := CheckPartitions(fs, s.partitions);
      return Success((s.boards, checked));
    }

    /** The loop of `__get_data`; a KeyError ends it. */
    static method ScanLines(core: string, lines: seq<string>) returns (r: Result<Scan, CoreError>)
      ensures r == ScanAll(core, lines)
    {
      var s := InitialScan;
      for i := 0 to |lines|
        invariant ScanAll(core, lines[..i]) == Success(s)
      {
        assert lines[..i + 1][..i] == lines[..i];
        var next := FeedLine(core, s, lines[i]);
        if next.Failure? {
          FailureIsFinal(core, lines, i + 1);
          return next;
        }
        s := next.value;
      }
      assert lines[..|lines|] == lines;
      return Success(s);
    }

    /** One pass of the loop of `__get_data`, helper by helper. */
    static method FeedLine(core: string, s: Scan, line: string) returns (r: Result<Scan, CoreError>)
      ensures r == LineStep(core, s, line)
    {
      var t := BoardNameStep(s, line);
      t :- VariantStep(t, line);
      t :- McuStep(t, line);
      var flash: Option<string>;
      if core == "esp8266" {
        var u :- Esp8266Step(t, line);
        t, flash := u.0, u.1;
      } else {
        flash := After(line, t.name + ".build.flash_size=");
        t := DefaultStep(t, line);
        t :- SchemeStep(t, line);
        t :- BuildStep(t, line);
      }
      r := StoreFlashSize(t, flash);
    }

    /**
     * `__check_partitions`: prune the schemes without a build in place, note
     * the boards without schemes whose default is missing, delete those last.
     */
    method CheckPartitions(fs: FileSystem, parts: map<string, PartEntry>) returns (r: map<string, PartEntry>)
      ensures r == CheckAll(corePath, fs, parts)
    {
      r := parts;
      var withoutPartition: set<string> := {};
      var todo := parts.Keys;
      while todo != {}
        invariant todo <= parts.Keys && r.Keys == parts.Keys && withoutPartition <= parts.Keys
        invariant forall b | b in todo :: r[b] == parts[b] && b !in withoutPartition
        invariant forall b | b in parts && b !in todo ::
          (b in withoutPartition <==> CheckEntry(corePath, fs, parts[b]).None?)
          && (b !in withoutPartition ==> r[b] == CheckEntry(corePath, fs, parts[b]).value)
        decreases todo
      {
        var b :| b in todo;
        var e := r[b];
        if e.schemes.None? {
          if e.default.None? || !fs.Exists(P.SchemeCsvPath(corePath, e.default.value)) {
            withoutPartition := withoutPartition + {b};
          }
        } else {
          var kept := DropSchemesWithoutBuild(e.schemes.value);
          r := r[b := e.(schemes := Some(kept))];
        }
        todo := todo - {b};
      }
      r := RemoveKeys(r, withoutPartition);
      assert r == CheckAll(corePath, fs, parts);
    }

    /** The inner loop of `__check_partitions`: delete every scheme without "build". */
    static method DropSchemesWithoutBuild(schemes: map<string, SchemeEntry>) returns (r: map<string, SchemeEntry>)
      ensures r == WithBuilds(schemes)
    {
      var withoutBuild: set<string> := {};
      var todo := schemes.Keys;
      while todo != {}
        invariant todo <= schemes.Keys
        invariant forall k | k in withoutBuild :: k in schemes && k !in todo
        invariant forall k | k in schemes && k !in todo :: k in withoutBuild <==> schemes[k].build.None?
        decreases todo
      {
        var k :| k in todo;
        if schemes[k].build.None? {
          withoutBuild := withoutBuild + {k};
        }
        todo := todo - {k};
      }
      r := RemoveKeys(schemes, withoutBuild);
      assert r == WithBuilds(schemes);
    }

    /** `__find_led_builtin`: every board resolved, the counter raised by the boards left unresolved. */
    method FindLedBuiltin(fs: FileSystem)
      modifies this
      ensures boards == WithLeds(coreName, corePath, fs, old(boards))
      ensures numOfBoardsWithoutLed == old(numOfBoardsWithoutLed) + |Unresolved(coreName, corePath, fs, old(boards))|
      ensures partitions == old(partitions)
    {
      var leds, missed := ResolveBoards(fs, boards);
      boards, numOfBoardsWithoutLed := leds, numOfBoardsWithoutLed + missed;
    }

    /** The loop of `__find_led_builtin`: resolve every board in turn, counting those without an LED line. */
    method ResolveBoards(fs: FileSystem, original: map<string, BoardEntry>) returns (leds: map<string, BoardEntry>, missed: nat)
      ensures leds == WithLeds(coreName, corePath, fs, original)
      ensures missed == |Unresolved(coreName, corePath, fs, original)|
    {
      ghost var misses: set<string> := {};
      leds, missed := original, 0;
      var todo := original.Keys;
      while todo != {}
        invariant todo <= original.Keys && leds.Keys == original.Keys && misses <= original.Keys - todo
        invariant forall b | b in original ::
          leds[b] == if b in todo then original[b] else ResolveEntry(coreName, corePath, fs, original[b]).0
        invariant forall b | b in original && b !in todo :: b in misses <==> !ResolveEntry(coreName, corePath, fs, original[b]).1
        invariant missed == |misses|
        decreases todo
      {
        var b :| b in todo;
        var entry, found := ResolveBoard(fs, leds[b]);
        leds := leds[b := entry];
        if !found {
          missed := missed + 1;
          misses := misses + {b};
        }
        todo := todo - {b};
      }
      assert misses == Unresolved(coreName, corePath, fs, original);
    }

    /** One board of `__find_led_builtin`: the header is read to the end, so its last LED line wins. */
    method ResolveBoard(fs: FileSystem, e: BoardEntry) returns (entry: BoardEntry, found: bool)
      ensures (entry, found) == ResolveEntry(coreName, corePath, fs, e)
    {
      entry, found := e, false;
      if e.variant.None? {
        entry := e.(ledBuiltin := Some(NotAvailable));
        return;
      }
      var path := LedResolution.VariantHeader(corePath, e.variant.value);
      if !fs.IsFile(path) {
        entry := e.(ledBuiltin := Some(NotAvailable));
        return;
      }
      var lines := fs.files[path];
      var led := ScanHeader(LedPatternOf(coreName), lines);
      if led.Some? {
        entry, found := e.(ledBuiltin := led), true;
      }
    }

    /** The read loop over one header: every matching line overwrites the LED found so far. */
    static method ScanHeader(pat: LedPattern, lines: seq<string>) returns (led: Option<string>)
      ensures led == LastLed(pat, lines)
    {
      led := None;
      for i := 0 to |lines|
        invariant led == LastHit(LedHits(pat, lines), i)
      {
        var m := MatchLine(pat, lines[i]);
        if m.Some? {
          led := m;
        }
      }
    }

    /**
     * `__set_boars_without_led`: every board without "LED_BUILTIN" gets
     * "N/A"; looking up the variant of such a board raises KeyError when it
     * has none.
     */
    method SetBoardsWithoutLed() returns (error: Option<CoreError>)
      modifies this
      ensures error.None? <==> forall b | b in old(boards) :: !LacksLedAndVariant(old(boards)[b])
      ensures error.Some? ==> error.value == KeyError("variant")
      ensures error.None? ==> boards == WithNA(old(boards))
      ensures numOfBoardsWithoutLed == old(numOfBoardsWithoutLed) && partitions == old(partitions)
    {
      var todo := boards.Keys;
      while todo != {}
        invariant todo <= old(boards).Keys && boards.Keys == old(boards).Keys
        invariant forall b | b in todo :: boards[b] == old(boards)[b]
        invariant forall b | b in old(boards) && b !in todo ::
          boards[b] == FilledIn(old(boards)[b]) && !LacksLedAndVariant(old(boards)[b])
        invariant numOfBoardsWithoutLed == old(numOfBoardsWithoutLed) && partitions == old(partitions)
        decreases todo
      {
        var b :| b in todo;
        if boards[b].ledBuiltin.None? {
          if boards[b].variant.None? {
            return Some(KeyError("variant"));
          }
          boards := boards[b := boards[b].(ledBuiltin := Some(NotAvailable))];
        }
        todo := todo - {b};
      }
      return None;
    }

    /** `del d[k]` for each noted key, after the loop that noted them. */
    static method RemoveKeys<V>(m: map<string, V>, keys: set<string>) returns (r: map<string, V>)
      ensures r == m - keys
    {
      r := m;
      var todo := keys;
      while todo != {}
        invariant todo <= keys && r == m - (keys - todo)
        decreases todo
      {
        var k :| k in todo;
        r := r - {k};
        todo := todo - {k};
        assert r == m - (keys - todo);
      }
    }
  }
}
