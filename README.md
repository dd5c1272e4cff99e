# ESP board overview — a Dafny model

This project models the core of *esp-board-overview*, which builds the board
and partition tables of the ESP8266 and ESP32 Arduino cores and shows them in
a web app. The model covers:

- **the boards.txt scanners** (`pyScripts/helper`):
  - the board-record classes (`BoardRecords`, `PartitionRecords`);
  - the line-by-line board scanner (`CollectingBoards`);
  - the partition-scheme scanner and its check pass (`CollectingPartitions`);
  - the driver that feeds one boards.txt to both (`CollectingCore`);
  - the older dict-based scanner (`CoreDataScan`).
- **the built-in-LED resolvers**, which read a variant's `pins_arduino.h`:
  - the line patterns and symbol tables (`LedPatterns`);
  - the shared header scan (`LedResolution`);
  - the stand-alone resolver classes (`FindLedBuiltinGpios`, `FindLedPinCount`).
- **the small script parsers**:
  - the partition-scheme CSV loader and the de-duplicating loop of both partition scripts (`PartitionCsv`);
  - the installed-core table reader (`InstalledCore`);
  - the archive name of a download URL (`EspData`).
- **the web app**:
  - the comparators, the "ignore N/A" switch, the filter and the sort of the board table (`BoardOverview`, over the stable sort of `StableSort`);
  - the board and scheme handlers of the partition page (`PartitionOverview`).

`Text` holds the Python and JavaScript string operations the sources use:
`strip`, `split`, `str(int)`, and the regular-expression building blocks.
`Files` is the file system the scripts read, given as a parameter. `Wrappers`
holds `Option` and `Result`.

Objects whose methods update fields in place are classes. Each class is proved
against a function on values that states the same step. For example,
`CollectingBoards.CollectingBoardData.CollectBoardData` is proved against
`CollectLine`, and `CoreDataScan.CoreData.ScanLines` against `ScanAll`. The
properties are lemmas about those functions.

A dict lookup that raises `KeyError` is an error value. So is the opening of
a path that is not a file, and a JavaScript `TypeError` (reported as
`thrown`). Each of these ends the operation as it does in the source.

## How the LED resolvers behave

- **Order of the LED rules.** For esp32 the resolvers test the
  `SOC_GPIO_PIN_COUNT + SYM` line first and the direct digits second, on each
  line of the header; the first line that resolves wins.
- **The LED forms that are read.** Only the pin-count form
  (`SOC_GPIO_PIN_COUNT + SYM`) and `LED_BUILTIN` followed by digits are read
  (`LedPatterns.Pieces` lists the four tails). A
  commuted `SYM + SOC_GPIO_PIN_COUNT` form, a `LED_BUILTIN = SYM` chain and a
  bare `SYM` resolve to nothing, and no variant is excluded by name.
- **A `#define` that holds a number.** `collecting_board_data.py` accepts the
  pin-count rule only when the define names a `static const uint8_t`
  constant. A number held by the define resolves only in
  `find_led_builtin_gpio.py` and `find_led_pin_count.py`
  (`LedResolution.PinRulesAgree` states the difference).
- **An unresolved LED in `collecting_board_data.py`.** When a header exists
  but no line resolves, the record keeps its LED field as it was: the empty
  string, not "N/A".
- **`core_data.py` reads LEDs differently.** It keeps the LAST matching line
  of a header, uses its own two patterns, and never uses the symbol tables.

## Model

| member | source | states |
|---|---|---|
| BoardRecords.BoardData.constructor | pyScripts/helper/board_data.py:6-12 | a new board record has all six fields empty |
| BoardRecords.BoardData.SetName | pyScripts/helper/board_data.py:14-16 | sets the name and leaves the other five fields as they were |
| BoardRecords.BoardData.SetMcu | pyScripts/helper/board_data.py:18-20 | sets the MCU and leaves the other fields as they were |
| BoardRecords.BoardData.SetVariant | pyScripts/helper/board_data.py:22-24 | sets the variant and leaves the other fields as they were |
| BoardRecords.BoardData.SetFlashSize | pyScripts/helper/board_data.py:26-28 | sets the flash size and leaves the other fields as they were |
| BoardRecords.BoardData.SetLedBuiltin | pyScripts/helper/board_data.py:30-32 | sets the built-in LED and leaves the other fields as they were |
| BoardRecords.BoardData.SetBoardId | pyScripts/helper/board_data.py:34-36 | sets the board id and leaves the other fields as they were |
| BoardRecords.BoardList.constructor | pyScripts/helper/board_data.py:42-43 | a new board list is empty |
| BoardRecords.BoardList.Append | pyScripts/helper/board_data.py:42 | appending (inherited from `list`) puts the record at the end and keeps the others in order |
| PartitionRecords.PartitionData.constructor | pyScripts/helper/partitions_data.py:17-19 | a new partition record has no default and no schemes |
| PartitionRecords.PartitionData.SetDefault | pyScripts/helper/partitions_data.py:21-23 | sets the default and leaves the schemes as they were |
| PartitionRecords.PartitionData.AddScheme | pyScripts/helper/partitions_data.py:25-27 | stores the scheme under its key, replacing any earlier one, and leaves the default and the other keys as they were |
| PartitionRecords.PartitionList.constructor | pyScripts/helper/partitions_data.py:29 | a new partition list is empty |
| PartitionRecords.PartitionList.AddPartition | pyScripts/helper/partitions_data.py:31-33 | stores the record under the board id, replacing any earlier one, and leaves the other ids as they were |
| CollectingBoards.GetBoardName | pyScripts/helper/collecting_board_data.py:26-33 | an id comes back exactly when some `.name=` in the line has text on both sides; the line is then id + `.name=` + name, and no later `.name=` splits it (the greedy first group); otherwise both parts are empty |
| CollectingBoards.WithUnitB | pyScripts/helper/collecting_board_data.py:56-59 | the aligned size ends in `B`; it is the size itself, or the size with `B` appended; a size already ending in `B` is unchanged |
| CollectingBoards.EeszEntry | pyScripts/helper/collecting_board_data.py:50-53 | a match splits the line into `<id>.menu.eesz.`, a non-empty menu key, `.build.flash_size=` and a non-empty size |
| CollectingBoards.Esp8266FlashSize | pyScripts/helper/collecting_board_data.py:49-62 | a size is set exactly when the eesz pattern matches with a key other than `autoflash`; the size is then the matched one with its unit aligned |
| CollectingBoards.ApplyAttribute | pyScripts/helper/collecting_board_data.py:89-95 | a line holding `<id>.build.variant=` sets exactly the variant to that value; otherwise one holding `<id>.build.mcu=` sets exactly the MCU; otherwise the flash size the core's pattern yields is set; a line matching none of the three leaves the record unchanged, and any change needs a line starting with `<id>.` |
| CollectingBoards.AutoflashIgnored | pyScripts/helper/collecting_board_data.py:54-55 | the `autoflash` entry of the esp8266 eesz menu leaves the record as it was |
| CollectingBoards.CollectLine | pyScripts/helper/collecting_board_data.py:76-95 | an id is returned exactly for a boundary line; a boundary seals the record in progress when it has a name and opens a fresh record holding only the display name and the id; any other line keeps the current id and the sealed list |
| CollectingBoards.CollectLineHeads | pyScripts/helper/collecting_board_data.py:79-88 | one line adds its own (id, name) pair, and nothing else, to the (id, name) pairs of the finalised list |
| CollectingBoards.BoardsFollowBoundaries | pyScripts/helper/collecting_board_data.py:163-167 | after the whole file and `final_data`, the list holds one record per boundary line, in file order, each with that line's id and name |
| CollectingBoards.CollectingBoardData.constructor | pyScripts/helper/collecting_board_data.py:18-24 | a new scanner has an empty list, an empty record in progress, no current id and a zero count |
| CollectingBoards.CollectingBoardData.GetVariant | pyScripts/helper/collecting_board_data.py:35-40 | reports a match exactly when the line is `<name>.build.variant=` followed by text, and then sets that text as the variant; otherwise the record is unchanged |
| CollectingBoards.CollectingBoardData.GetMcu | pyScripts/helper/collecting_board_data.py:42-47 | reports a match exactly for a `<name>.build.mcu=` line and then sets the MCU; otherwise the record is unchanged |
| CollectingBoards.CollectingBoardData.GetFlashSize | pyScripts/helper/collecting_board_data.py:64-74 | reports a match exactly when the core's flash-size rule gives a size (eesz menu for esp8266, `build.flash_size` otherwise) and then sets it |
| CollectingBoards.CollectingBoardData.OpenRecord | pyScripts/helper/collecting_board_data.py:85-87 | the record a boundary opens is new and holds only the display name and the id |
| CollectingBoards.CollectingBoardData.StartBoard | pyScripts/helper/collecting_board_data.py:80-88 | the boundary branch seals the record in progress when it has a name, opens a fresh one and makes the id current |
| CollectingBoards.CollectingBoardData.CollectBoardData | pyScripts/helper/collecting_board_data.py:76-95 | the in-place step returns the id and reaches the state that `CollectLine` gives |
| CollectingBoards.CollectingBoardData.FindLedBuiltin | pyScripts/helper/collecting_board_data.py:115-162 | each sealed record gets the LED the constant-only rule resolves for it, and the count grows by the number of records left unresolved |
| CollectingBoards.CollectingBoardData.FinalData | pyScripts/helper/collecting_board_data.py:163-168 | the named last record is sealed, then the LEDs of the finalised list are resolved and the misses counted |
| CollectingCore.CollectCore | pyScripts/helper/collecting_core_data.py:26-39 | a missing core path, or a missing boards.txt under it, raises ValueError with the source's message; a successful run needs both to exist and boards.txt to be a file |
| CollectingCore.BoundaryOpensRecord | pyScripts/helper/collecting_core_data.py:50-55 | a boundary line adds a fresh partition record for its id, and the partition scanner then leaves that line alone |
| CollectingCore.FailureIsFinal | pyScripts/helper/collecting_core_data.py:49-55 | once a line raises KeyError, the scan of the whole file raises that same error |
| CollectingCore.ScanAllBoards | pyScripts/helper/collecting_core_data.py:49-50 | the board side of the loop is the board scanner run alone over the whole file |
| CollectingCore.CoreBoardsFollowBoundaries | pyScripts/helper/collecting_core_data.py:43-62 | the constructed object holds one board per boundary line of boards.txt, in file order, with that line's id and display name |
| CollectingCore.OtherCoresGetEmptyRecords | pyScripts/helper/collecting_core_data.py:49-57 | for a core other than esp32 the scan never raises, and the partition records are exactly the boundary ids, each with no default and no schemes |
| CollectingCore.CollectingCoreData.constructor | pyScripts/helper/collecting_core_data.py:28-31 | the fields are set, with no boards, no partition records and a zero count |
| CollectingCore.CollectingCoreData.Create | pyScripts/helper/collecting_core_data.py:26-39 | construction succeeds exactly when `CollectCore` does, and the object then holds its result; otherwise it raises the same error |
| CollectingCore.CollectingCoreData.FeedPartitions | pyScripts/helper/collecting_core_data.py:51-55 | a record is added for the id when there is one, then the partition scanner reads the line; a KeyError is passed on |
| CollectingCore.CollectingCoreData.FeedLine | pyScripts/helper/collecting_core_data.py:50-55 | one pass of the loop reaches the state that `ScanStep` gives, or raises its KeyError |
| CollectingCore.CollectingCoreData.ScanLines | pyScripts/helper/collecting_core_data.py:44-55 | two new scanners read every line; the states at the end are those of `ScanAll`, or the first KeyError is raised |
| CollectingCore.CollectingCoreData.FinishBoards | pyScripts/helper/collecting_core_data.py:60-62 | `final_data` leaves the finalised boards with their LEDs resolved, and the count of misses |
| CollectingCore.CollectingCoreData.FinishPartitions | pyScripts/helper/collecting_core_data.py:57-58 | `check_partitions` leaves the checked partition records |
| CollectingCore.CollectingCoreData.Finish | pyScripts/helper/collecting_core_data.py:57-62 | the end of the scan leaves the boards, the count and the partition records that `Conclude` gives |
| CollectingCore.CollectingCoreData.Keep | pyScripts/helper/collecting_core_data.py:58-62 | the object keeps the two lists and the count |
| CollectingCore.CollectingCoreData.GetData | pyScripts/helper/collecting_core_data.py:43-62 | `__get_data` leaves what `ReadBoardsTxt` gives, or its error |
| CollectingPartitions.KeyValue | pyScripts/helper/collecting_partition_data.py:28-32 | `([^\.]+)=(.+)` matches exactly when some `=` has a non-empty key free of `.` before it and text after it; the match is the last such `=` (the greedy key), and the line is key + `=` + name |
| CollectingPartitions.Checked | pyScripts/helper/collecting_partition_data.py:59-93 | a board with schemes is kept; a board is removed exactly when it has no schemes and its default is empty or has no CSV; a kept board keeps its default; exactly the schemes with a build survive, unchanged |
| CollectingPartitions.DefaultExcludesBuild | pyScripts/helper/collecting_partition_data.py:22-40 | no line matches both the default pattern and the build pattern |
| CollectingPartitions.CollectLineFails | pyScripts/helper/collecting_partition_data.py:107-113 | `collect_partition_data` raises KeyError exactly when, before any board is current, a line matches one of the three patterns, or when afterwards a build line names a scheme key the board does not have |
| CollectingPartitions.FailureAfterNoChange | pyScripts/helper/collecting_partition_data.py:107-113 | when the build step raises, the default and name steps before it changed nothing, so a raising line leaves no partial update |
| CollectingPartitions.BuildFirstWins | pyScripts/helper/collecting_partition_data.py:44-48 | a scheme that has a build keeps it through any line except a new declaration of the same key on the same board |
| CollectingPartitions.DefaultLastWins | pyScripts/helper/collecting_partition_data.py:21-25 | over the lines of one board the last default line sets the default, and the board stays current and recorded |
| CollectingPartitions.CheckLeavesBuilds | pyScripts/helper/collecting_partition_data.py:95-100 | after the check no scheme lacks a build, and for a core other than esp32 nothing changes |
| CollectingPartitions.DropSchemesWithoutBuild | pyScripts/helper/collecting_partition_data.py:81-89 | the record loses exactly the schemes whose build is empty |
| CollectingPartitions.CheckedByRemoval | pyScripts/helper/collecting_partition_data.py:63-93 | pruning every record and then deleting the flagged boards gives the checked records |
| CollectingPartitions.CollectingPartitionData.constructor | pyScripts/helper/collecting_partition_data.py:14-19 | a new scanner has no current board, no scheme key and no records |
| CollectingPartitions.CollectingPartitionData.AddPartition | pyScripts/helper/collecting_partition_data.py:102-105 | the board becomes current and gets a fresh, empty record; the other records stay |
| CollectingPartitions.CollectingPartitionData.CollectPartitionData | pyScripts/helper/collecting_partition_data.py:107-113 | the in-place step reaches the state `CollectLine` gives, or raises its KeyError and leaves the state as it was |
| CollectingPartitions.CollectingPartitionData.GetDefaultPartition | pyScripts/helper/collecting_partition_data.py:21-25 | a default line sets the current board's default, or raises KeyError when the board has no record |
| CollectingPartitions.CollectingPartitionData.GetPartitionName | pyScripts/helper/collecting_partition_data.py:27-36 | a declaration stores a fresh scheme (full name, no build) under its key and makes the key active, or raises KeyError |
| CollectingPartitions.CollectingPartitionData.GetPartitionBuild | pyScripts/helper/collecting_partition_data.py:38-48 | a build line sets the active scheme's build only while it is empty, or raises KeyError for a missing board or scheme |
| CollectingPartitions.CollectingPartitionData.RecordsAreContents | pyScripts/helper/collecting_partition_data.py:115-117 | the records handed out are the scanner's state |
| CollectingPartitions.CollectingPartitionData.CheckPartitions | pyScripts/helper/collecting_partition_data.py:95-100 | the check runs for esp32 only and leaves the records `CheckStep` gives |
| CollectingPartitions.CollectingPartitionData.CheckEsp32Partitions | pyScripts/helper/collecting_partition_data.py:59-93 | one pass prunes schemes and flags boards, then the flagged boards are deleted; the result is `Checked` of the records before |
| CollectingPartitions.CollectingPartitionData.RemoveBoards | pyScripts/helper/collecting_partition_data.py:92-93 | exactly the flagged boards are deleted |
| CollectingPartitions.CollectingPartitionData.RemoveBoard | pyScripts/helper/collecting_partition_data.py:93 | exactly that one board is deleted |
| CollectingPartitions.CollectingPartitionData.CheckBoard | pyScripts/helper/collecting_partition_data.py:64-89 | a board is flagged exactly when it has no schemes and its default is empty or has no CSV; a board with schemes loses those without a build |
| CoreDataScan.VariantStep | pyScripts/helper/core_data.py:55-58 | a `<name>.build.variant=` line sets the current board's "variant", or raises KeyError when the board has no dict; no LED is set |
| CoreDataScan.McuStep | pyScripts/helper/core_data.py:60-63 | a `<name>.build.mcu=` line sets "mcu", or raises KeyError; no LED is set |
| CoreDataScan.Esp8266Step | pyScripts/helper/core_data.py:95-112 | an eesz line other than `autoflash` yields the size the board scanner's esp8266 rule gives (unit aligned to `B`); no LED is set |
| CoreDataScan.DefaultStep | pyScripts/helper/core_data.py:65-69 | a default line touches only the partition dict, never the boards or the current id |
| CoreDataScan.SchemeStep | pyScripts/helper/core_data.py:71-81 | a scheme declaration touches only the partition dict and the active scheme key |
| CoreDataScan.BuildStep | pyScripts/helper/core_data.py:83-93 | a build line touches only the partition dict |
| CoreDataScan.Esp32Step | pyScripts/helper/core_data.py:130-138 | the non-esp8266 branch leaves the boards and the current id alone and yields the `build.flash_size` value |
| CoreDataScan.StoreFlashSize | pyScripts/helper/core_data.py:140-154 | storing a size sets no LED |
| CoreDataScan.DedupMembers | pyScripts/helper/core_data.py:140-154 | the reference list's de-duplication keeps exactly the sizes read |
| CoreDataScan.OthersMembers | pyScripts/helper/core_data.py:148-152 | the sizes other than "512KB" are exactly those read, less "512KB" |
| CoreDataScan.ReferenceStep | pyScripts/helper/core_data.py:140-154 | reading one more size moves the reference list ("512KB" first, then each other size once, in reading order) as the source's list rule does |
| CoreDataScan.FlashListOrder | pyScripts/helper/core_data.py:140-154 | the flash-size list built line by line is "512KB" first if it was read, then every other size once, in the order first read |
| CoreDataScan.AddFlashSizeShape | pyScripts/helper/core_data.py:141-154 | adding a size keeps the list free of duplicates with "512KB" in front, and adds exactly that size |
| CoreDataScan.FlashListShape | pyScripts/helper/core_data.py:141-154 | the list has no duplicates, "512KB" in front when present, and holds exactly the sizes read |
| CoreDataScan.AttributeStepShape | pyScripts/helper/core_data.py:125-154 | one pass of the attribute helpers keeps every board's flash-size list in that shape |
| CoreDataScan.StoreFlashSizeShape | pyScripts/helper/core_data.py:140-154 | storing a size keeps every board's list in that shape |
| CoreDataScan.ScanFlashShape | pyScripts/helper/core_data.py:114-154 | after any scan every board's flash-size list has no duplicates and "512KB" in front |
| CoreDataScan.NameLineStartsBoard | pyScripts/helper/core_data.py:46-53 | a boundary line replaces its board's whole dict with the display name, discarding what earlier lines set, and makes the board current; no other helper matches it |
| CoreDataScan.EeszLineIsNoAttribute | pyScripts/helper/core_data.py:122-126 | an eesz line of the current board is neither a boundary nor a variant or MCU line |
| CoreDataScan.AutoflashIgnored | pyScripts/helper/core_data.py:99-106 | for esp8266 the `autoflash` eesz line changes nothing |
| CoreDataScan.Esp8266SizeStored | pyScripts/helper/core_data.py:95-154 | for esp8266 any other eesz line appends its key to "flash_partitions" and its size, with unit `B`, to the flash-size list |
| CoreDataScan.DefaultReplacesEntry | pyScripts/helper/core_data.py:65-69 | outside esp8266 a default line replaces the board's whole partition dict with the default alone, dropping any schemes |
| CoreDataScan.SchemeWithoutEntryRaises | pyScripts/helper/core_data.py:77 | outside esp8266 a scheme declaration for a board without a partition dict raises KeyError for that board |
| CoreDataScan.BuildFirstWins | pyScripts/helper/core_data.py:89-93 | once the active scheme has a build, a later build line for it changes nothing |
| CoreDataScan.Esp32StepPartitions | pyScripts/helper/core_data.py:134-138 | the partition helpers keep every partition dict with a "default" |
| CoreDataScan.AttributeStepEsp8266 | pyScripts/helper/core_data.py:127-128 | for esp8266 one pass leaves the partition dict alone |
| CoreDataScan.AttributeStepDefaults | pyScripts/helper/core_data.py:125-138 | one pass keeps every partition dict with a "default" |
| CoreDataScan.ScanPartitions | pyScripts/helper/core_data.py:114-138 | after any scan every partition dict has a "default", and an esp8266 scan fills no partition dict |
| CoreDataScan.CheckRules | pyScripts/helper/core_data.py:167-202 | a board with schemes is kept with its default and exactly its schemes that have a build, unchanged; a board without schemes is kept unchanged exactly when it has a default whose CSV exists |
| CoreDataScan.CheckLeavesBuilds | pyScripts/helper/core_data.py:167-202 | the check never adds a board and leaves no scheme without a build |
| CoreDataScan.LastLedIsLast | pyScripts/helper/core_data.py:233-245 | the LED found is none exactly when no header line matches, otherwise the match of a line after which no line matches (the last match wins) |
| CoreDataScan.LastLedDigits | pyScripts/helper/core_data.py:236-243 | a found LED is a non-empty digit string |
| CoreDataScan.AttributeStepNoLed | pyScripts/helper/core_data.py:125-154 | one pass of the attribute helpers sets no LED |
| CoreDataScan.ScanLeavesLedUnset | pyScripts/helper/core_data.py:114-156 | after any scan no board dict holds "LED_BUILTIN" |
| CoreDataScan.FailureIsFinal | pyScripts/helper/core_data.py:119-154 | once a line raises KeyError, the scan of the whole file raises that same error |
| CoreDataScan.LedPassLeavesVariantOrLed | pyScripts/helper/core_data.py:204-210 | after the LED pass every board has an LED or a variant, so the variant lookup of `__set_boars_without_led` cannot raise |
| CoreDataScan.BuildCoreOutcome | pyScripts/helper/core_data.py:30-44 | construction succeeds exactly when the core path and boards.txt exist and the scan does not raise |
| CoreDataScan.FoundLedIsDigits | pyScripts/helper/core_data.py:242-245 | an LED found in a header is digits, so never "N/A" |
| CoreDataScan.LedBoardRules | pyScripts/helper/core_data.py:204-249 | a board without an LED keeps every other key and gets an LED; a board without variant gets "N/A"; any other LED is digits; the board is counted exactly when it ends at "N/A" |
| CoreDataScan.LedRules | pyScripts/helper/core_data.py:204-249 | over the scanned dict the same boards remain, only "LED_BUILTIN" changes, every board gets one, "N/A" without a variant, digits or "N/A" otherwise |
| CoreDataScan.LedCount | pyScripts/helper/core_data.py:248-249 | the counter counts exactly the boards that end at "N/A" |
| CoreDataScan.BuildCoreTables | pyScripts/helper/core_data.py:30-44 | the object holds the scan's boards with their LEDs resolved and "N/A" filled in, the checked partitions, and the count of boards at "N/A" |
| CoreDataScan.CoreData.constructor | pyScripts/helper/core_data.py:32-35 | the fields are set, with empty dicts and a zero count |
| CoreDataScan.CoreData.Create | pyScripts/helper/core_data.py:30-44 | construction succeeds exactly when `BuildCore` does, and the object then holds its tables; otherwise it raises the same error |
| CoreDataScan.CoreData.GetData | pyScripts/helper/core_data.py:114-156 | `__get_data` returns the scanned boards and the checked partitions, or the error of the scan |
| CoreDataScan.CoreData.ScanLines | pyScripts/helper/core_data.py:119-154 | the loop over the lines gives `ScanAll`, stopping at the first KeyError |
| CoreDataScan.CoreData.FeedLine | pyScripts/helper/core_data.py:120-154 | one pass, helper by helper, gives `LineStep` |
| CoreDataScan.CoreData.CheckPartitions | pyScripts/helper/core_data.py:167-202 | the in-place check gives `CheckAll` of the partition dict |
| CoreDataScan.CoreData.DropSchemesWithoutBuild | pyScripts/helper/core_data.py:190-198 | the schemes left are exactly those with a build |
| CoreDataScan.CoreData.FindLedBuiltin | pyScripts/helper/core_data.py:221-249 | every board is resolved and the counter grows by the number of boards without an LED line; the partitions are untouched |
| CoreDataScan.CoreData.ResolveBoards | pyScripts/helper/core_data.py:222-249 | the loop over the boards gives `WithLeds` and counts the unresolved boards |
| CoreDataScan.CoreData.ResolveBoard | pyScripts/helper/core_data.py:224-247 | one board: "N/A" without a variant or a header; otherwise the last matching line's digits, or the dict unchanged |
| CoreDataScan.CoreData.ScanHeader | pyScripts/helper/core_data.py:233-245 | reading the whole header leaves the last match |
| CoreDataScan.CoreData.SetBoardsWithoutLed | pyScripts/helper/core_data.py:204-219 | every board without an LED gets "N/A"; it raises KeyError("variant") exactly when such a board also lacks a variant |
| CoreDataScan.CoreData.RemoveKeys | pyScripts/helper/core_data.py:201-202 | deleting the noted keys one by one removes exactly those keys |
| LedPatterns.Run | pyScripts/helper/find_led_builtin_gpio.py:26 | a `[class]+` group takes the whole run of class characters the text starts with: each is in the class and the next is not |
| LedPatterns.MatchFits | pyScripts/helper/find_led_builtin_gpio.py:26 | `re.match` of a pattern written as pieces: when it matches, the line begins with the parts it returns, in order, each what its piece reads there (a run taken whole, a `c?` taken when present) |
| LedPatterns.MatchOf | pyScripts/helper/find_led_builtin_gpio.py:26 | a line that begins with parts fitting the pieces is matched with exactly those parts; with `MatchFits` this makes matching and `Fits` the same thing |
| LedPatterns.DefineEntry | pyScripts/helper/find_led_builtin_gpio.py:26-30 | a matching line begins with `#define`, spaces, the name, spaces and the value token, each run taken whole; the result is that name and that value, a non-empty `[A-Z_]+` name and a non-empty `[A-Z_\d]+` value |
| LedPatterns.DefineRoundTrip | pyScripts/helper/find_led_builtin_gpio.py:26-30 | a line written that way is read back as exactly its name and value |
| LedPatterns.VarEntry | pyScripts/helper/find_led_builtin_gpio.py:35-40 | a matching line begins with `static`, `const`, `uint8_t`, the name, `=`, the digits and `;`, separated by the spaces the pattern allows; the result is that name and those digits |
| LedPatterns.VarRoundTrip | pyScripts/helper/find_led_builtin_gpio.py:35-40 | a line written that way is read back as exactly its name and digits |
| LedPatterns.Record | pyScripts/helper/find_led_builtin_gpio.py:27-30 | storing an entry adds its name with its value and leaves every other name as it was; no entry, no change |
| LedPatterns.FindDefines | pyScripts/helper/find_led_builtin_gpio.py:23-30 | `find_defines` adds or overwrites exactly the line's macro and keeps every other entry |
| LedPatterns.FindVarDefinitions | pyScripts/helper/find_led_builtin_gpio.py:32-40 | `find_var_definitions` adds or overwrites exactly the line's constant, keeps every other entry, and keeps every value a digit string and every key a name |
| LedPatterns.DefinesStep | pyScripts/helper/collecting_board_data.py:131-133 | reading the next header line updates the defines table by one `find_defines` call |
| LedPatterns.VarsStep | pyScripts/helper/collecting_board_data.py:131-134 | reading the next header line updates the constants table by one `find_var_definitions` call |
| LedPatterns.TableOfKeys | pyScripts/helper/find_led_builtin_gpio.py:64-71 | after reading a header a name is in a table exactly when some line declares it (tables start empty per header) |
| LedPatterns.TableOfLastWins | pyScripts/helper/find_led_builtin_gpio.py:27-30 | a name holds the value of the last line that declares it |
| LedPatterns.TableOfUntouched | pyScripts/helper/find_led_builtin_gpio.py:27-30 | a name no line declares keeps its earlier value |
| LedPatterns.VarsOfDigits | pyScripts/helper/find_led_builtin_gpio.py:35-40 | every value of a constants table is a digit string, so the `int()` of line 89 cannot fail |
| LedPatterns.TailAt | pyScripts/helper/find_led_builtin_gpio.py:73-78 | when a tail matches at a position, the text from there begins with parts fitting the tail's pieces and the result is the group's part: a non-empty `[A-Z_]+` symbol for the pin-count tail, non-empty digits for the others |
| LedPatterns.TailRoundTrip | pyScripts/helper/find_led_builtin_gpio.py:95-96 | parts fitting a tail, written at a position, match there with the group they hold |
| LedPatterns.LastMatch | pyScripts/helper/find_led_builtin_gpio.py:73-76 | the greedy `^.+` hands over at the rightmost position from 1 on where the tail matches; no position after it matches |
| LedPatterns.MatchLine | pyScripts/helper/find_led_builtin_gpio.py:73-76 | `re.match` of `^.+` and a tail matches exactly when the tail fits at some position from 1 on; the group is the tail's group at such a position after which the tail fits nowhere (the greedy `.+`); a non-empty symbol or non-empty digits |
| LedPatterns.MatchLineAt | pyScripts/helper/find_led_builtin_gpio.py:95-96 | the tail's group at the rightmost position from 1 on where it fits is the match |
| LedPatterns.MatchNeedsMarker | pyScripts/helper/find_led_builtin_gpio.py:95-96 | a tail matches only where its first literal (`LED_BUILTIN` or ` LED_BUILTIN`) stands |
| LedPatterns.LineRoundTrip | pyScripts/helper/core_data.py:236-240 | for each of the four tails: some text, then parts fitting the tail with no later start of its first literal, match with the group those parts hold |
| LedPatterns.BuiltinDigitsExample | pyScripts/helper/find_led_builtin_gpio.py:95-98 | `#define LED_BUILTIN 13` reads as GPIO 13 |
| LedPatterns.DigitStringIsNumber | pyScripts/helper/find_led_builtin_gpio.py:42-49 | `is_number` accepts a digit string and `int` reads it as its decimal value |
| LedPatterns.NameIsNotNumber | pyScripts/helper/find_led_builtin_gpio.py:42-49 | `is_number` rejects every `[A-Z_]+` name |
| LedResolution.PinCountRule | pyScripts/helper/find_led_builtin_gpio.py:77-94 | the pin-count line resolves exactly when its symbol is defined and the define names a constant (or, in this copy, holds a number); the GPIO is 40 plus that number, written canonically |
| LedResolution.PinRulesAgree | pyScripts/helper/collecting_board_data.py:140-148 | the board scanner's rule (constant only) and this copy's rule differ exactly on defines that hold a number, and agree wherever the former resolves |
| LedResolution.LineLed | pyScripts/helper/find_led_builtin_gpio.py:68-105 | outside esp32 a line resolves by the direct-digits pattern only; for esp32 a resolving pin-count line wins; the result is always digits |
| LedResolution.ScanResultFirstHit | pyScripts/helper/find_led_builtin_gpio.py:64-105 | a header scan yields nothing exactly when no line resolves, otherwise the first resolving line's value (the loop breaks there) |
| LedResolution.ResolveLed | pyScripts/helper/find_led_builtin_gpio.py:56-109 | a board without variant or without header gets "N/A" and is not counted found; it is found exactly when its header resolves; otherwise it keeps its LED |
| LedResolution.ResolveAll | pyScripts/helper/find_led_builtin_gpio.py:55-107 | resolving a list keeps its length |
| LedResolution.CountMissesSnoc | pyScripts/helper/find_led_builtin_gpio.py:108-109 | one more board adds one to the count exactly when it is not found |
| LedResolution.CountMissesExact | pyScripts/helper/find_led_builtin_gpio.py:108-109 | the count is zero exactly when every board is found and the whole list exactly when none is |
| LedResolution.CountUnresolvedExact | pyScripts/helper/find_led_builtin_gpio.py:55-110 | the same for the count of a core's resolver |
| LedResolution.ScanHeader | pyScripts/helper/find_led_builtin_gpio.py:64-105 | the in-place line loop with its two tables gives `ScanResult` |
| LedResolution.ScanLine | pyScripts/helper/find_led_builtin_gpio.py:68-105 | one iteration keeps the tables equal to those read from the lines so far (empty outside esp32) and yields the line's resolution |
| LedResolution.ResolveBoard | pyScripts/helper/find_led_builtin_gpio.py:56-109 | one board record changes only its LED, to what `ResolveLed` gives, and reports whether it was found |
| LedResolution.ResolveList | pyScripts/helper/find_led_builtin_gpio.py:55-109 | the loop over the shared records resolves each in place and counts the ones not found |
| FindLedBuiltinGpios.FindLedBuiltinGpio.constructor | pyScripts/helper/find_led_builtin_gpio.py:17-21 | the list is shared, not copied, and the counter starts at zero |
| FindLedBuiltinGpios.FindLedBuiltinGpio.FindLedBuiltin | pyScripts/helper/find_led_builtin_gpio.py:51-110 | every record gets its resolved LED, the list itself is unchanged, and the counter grows by the boards not found and is returned |
| FindLedPinCount.PinCountGpio | pyScripts/helper/find_led_pin_count.py:52-64 | the answer is -1 or at least 40; it is not -1 exactly when the symbol is defined and names a constant or holds a number; a named constant wins |
| FindLedPinCount.PinCountGpioAgrees | pyScripts/helper/find_led_pin_count.py:53-63 | with name-keyed constant tables, `find_gpio` gives exactly the number-or-constant header rule's GPIO, -1 for none |
| FindLedPinCount.FindLedBuiltinPinCount.constructor | pyScripts/helper/find_led_pin_count.py:9-11 | both tables start empty |
| FindLedPinCount.ResolvePinCount | pyScripts/helper/find_led_pin_count.py:46-64 | the branches of `find_gpio` after the tables are updated answer `PinCountGpio` |
| FindLedPinCount.FindLedBuiltinPinCount.FindGpio | pyScripts/helper/find_led_pin_count.py:41-64 | the line is recorded in both tables, which keep growing across calls, and the answer is `PinCountGpio` on the new tables |
| EspData.FileNameFromUrl | pyScripts/get_esp_data.py:49-55 | the archive name is a suffix of the URL with no `/`, preceded by `/` unless it is the whole URL |
| EspData.FileNameUnique | pyScripts/get_esp_data.py:55 | for any prefix empty or ending in `/` and any slash-free name, the name is what `rsplit('/', 1)[-1]` returns: the result is the only such split |
| EspData.NoSlashUnchanged | pyScripts/get_esp_data.py:55 | a URL without `/` is returned whole |
| EspData.TrailingSlashEmpty | pyScripts/get_esp_data.py:55 | a URL ending in `/` gives the empty name |
| EspData.FileNameIsLastPart | pyScripts/get_esp_data.py:55 | `rsplit('/', 1)[-1]` equals the last part of the full `split('/')`, an independent definition |
| InstalledCore.Munch | pyScripts/create_table_from_installed_core.py:29 | a `[class]+` group takes the longest non-empty run of the class and splits the text there |
| InstalledCore.MunchOver | pyScripts/create_table_from_installed_core.py:29 | a run of the class followed by a character outside it is taken exactly |
| InstalledCore.Column | pyScripts/create_table_from_installed_core.py:29 | ` +([class]+)` splits the text into spaces, a non-empty column and a rest that does not continue the column |
| InstalledCore.Columns | pyScripts/create_table_from_installed_core.py:29 | the three columns after the ID split the text into gaps of spaces, two version columns and a name column |
| InstalledCore.CoreIdAt | pyScripts/create_table_from_installed_core.py:29 | `[a-z\d]+:[a-z\d]+` at the start yields a core ID of that form and what follows it |
| InstalledCore.MatchCoreLine | pyScripts/create_table_from_installed_core.py:29-30 | a match has the four groups in their forms, separated by spaces, and the line is exactly those columns and gaps followed by a rest the name cannot continue |
| InstalledCore.MatchRoundTrip | pyScripts/create_table_from_installed_core.py:29-35 | a line written from well-formed columns with gaps of spaces matches and yields exactly those columns, gaps and rest |
| InstalledCore.ColumnsOver | pyScripts/create_table_from_installed_core.py:29 | the three columns written with gaps read back as written |
| InstalledCore.ColumnOver | pyScripts/create_table_from_installed_core.py:29 | one gap and column read back as written |
| InstalledCore.CoreIdOf | pyScripts/create_table_from_installed_core.py:29 | `x:y` of two lower-alphanumeric runs is a core ID whose `:` splits it back into them |
| InstalledCore.Rstrip | pyScripts/create_table_from_installed_core.py:30 | `rstrip()` gives a prefix followed only by whitespace, and ends in no whitespace |
| InstalledCore.RstripNothing | pyScripts/create_table_from_installed_core.py:30 | a line ending in no whitespace is unchanged by `rstrip()` |
| InstalledCore.RowEndsOnName | pyScripts/create_table_from_installed_core.py:29 | a table row ends with the last character of the core name |
| InstalledCore.HeaderIgnored | pyScripts/create_table_from_installed_core.py:26-28 | the first line never contributes a core, whatever it holds |
| InstalledCore.CoreInfosWellFormed | pyScripts/create_table_from_installed_core.py:28-36 | every record read has the four forms the pattern admits |
| InstalledCore.CoreInfosBound | pyScripts/create_table_from_installed_core.py:25-36 | there is at most one record per line after the header, none for a file of one line or less |
| InstalledCore.CoreListRoundTrip | pyScripts/create_table_from_installed_core.py:24-36 | any header followed by the rows of well-formed records reads back as exactly those records, in order |
| InstalledCore.TableLines | pyScripts/create_table_from_installed_core.py:29 | the printed table has one row per record |
| InstalledCore.EntryOfRow | pyScripts/create_table_from_installed_core.py:28-36 | the row of a well-formed record contributes exactly that record |
| InstalledCore.EntryOfLine | pyScripts/create_table_from_installed_core.py:28-30 | a line ending in no whitespace is not blank and is matched as it stands |
| InstalledCore.NotBlank | pyScripts/create_table_from_installed_core.py:28 | such a line passes the `strip() != ""` test |
| InstalledCore.ReadCoreInfos | pyScripts/create_table_from_installed_core.py:25-39 | the loop over the enumerated lines gives `CoreInfos`: the records of the lines after the first that are not blank and match, in order |
| InstalledCore.ReadLine | pyScripts/create_table_from_installed_core.py:27-39 | one line gives no record when blank or unmatched, else the record of its right-stripped text |
| InstalledCore.GetInstalledCoreInfo | pyScripts/create_table_from_installed_core.py:16-42 | a missing path gives no cores, a path that is not a readable file raises, otherwise the cores of its lines |
| PartitionCsv.StripTrimmed | pyScripts/create_partition_schemes.py:33-37 | `strip()` leaves a field without surrounding whitespace unchanged |
| PartitionCsv.StripAddsNothing | pyScripts/create_partition_schemes.py:33-37 | `strip()` never introduces a character |
| PartitionCsv.FieldsRowClean | pyScripts/create_partition_schemes.py:31-37 | the five stored fields are stripped and hold no comma |
| PartitionCsv.StripClean | pyScripts/create_partition_schemes.py:33-37 | a stripped comma-free field is trimmed and still comma-free |
| PartitionCsv.RowFieldsClean | pyScripts/create_partition_schemes.py:27-37 | every field of a row read from a line is stripped and comma-free |
| PartitionCsv.RowFields | pyScripts/create_partition_schemes.py:27-31 | a written row has its five fields, name first, then any extra fields |
| PartitionCsv.RowLineStart | pyScripts/create_partition_schemes.py:24 | a row's line begins with its name followed by a comma |
| PartitionCsv.RowLineKept | pyScripts/create_partition_schemes.py:24-25 | the line of a writable row is neither a comment nor blank, so it is not skipped |
| PartitionCsv.RowRoundTrip | pyScripts/create_partition_schemes.py:22-38 | the line of a writable row reads back as that row, whatever comma-free fields follow the fifth |
| PartitionCsv.FieldsRowOfRow | pyScripts/create_partition_schemes.py:31-37 | stripping the fields of a writable row gives the row back |
| PartitionCsv.RowLines | pyScripts/create_partition_schemes.py:22 | a table is written one line per row |
| PartitionCsv.RowLinesAt | pyScripts/create_partition_schemes.py:22 | line k is the line of row k |
| PartitionCsv.RowsRoundTrip | pyScripts/create_partition_schemes.py:21-38 | the lines of writable rows read back as those rows, in order |
| PartitionCsv.JoinLacks | pyScripts/create_partition_schemes.py:20 | joining lines introduces no character but the line break |
| PartitionCsv.JoinStart | pyScripts/create_partition_schemes.py:20 | the file text starts with its first line |
| PartitionCsv.JoinEnd | pyScripts/create_partition_schemes.py:20 | the file text ends with its last line, or with the line break when that is empty |
| PartitionCsv.RowLineShape | pyScripts/create_partition_schemes.py:20 | the line of a writable row survives `strip().split('\n')` unchanged |
| PartitionCsv.RowLinesGood | pyScripts/create_partition_schemes.py:20 | so does every line of a written table |
| PartitionCsv.CsvLinesOfText | pyScripts/create_partition_schemes.py:20 | `read().strip().split('\n')` of the text of such lines gives the lines back |
| PartitionCsv.SchemeRoundTrip | pyScripts/create_partition_schemes.py:8-43 | a scheme CSV written from one or more writable rows loads as exactly those rows, with either script's loader |
| PartitionCsv.SchemeRowsOfFile | pyScripts/create_partition_schemes.py:14-20 | a CSV that exists as a file is loaded from its lines |
| PartitionCsv.SchemeVisitsSnoc | pyScripts/create_partition_schemes.py:56-59 | one more scheme of a board is one more visit at the end |
| PartitionCsv.VisitStepKeepsLoadedOnce | pyScripts/create_partition_schemes.py:58-62 | a successful visit keeps every name loaded once with its rows, and adds the visited name |
| PartitionCsv.CollectLoadsOnce | pyScripts/create_partition_schemes.py:54-62 | when the loop completes, each wanted name is loaded exactly once, with its own rows, and nothing else is loaded |
| PartitionCsv.CollectFails | pyScripts/create_partition_schemes.py:54-62 | the loop raises exactly when some scheme lacks "build" or the load of some wanted name raises |
| PartitionCsv.FailureIsFinal | pyScripts/create_partition_schemes.py:54-62 | once the loop has raised, later boards do not change the outcome |
| PartitionCsv.FailureOnPrefix | pyScripts/create_partition_schemes.py:54-62 | a failure on a prefix of the visits is the failure of the whole loop |
| PartitionCsv.SchemeVisitsPrefix | pyScripts/create_partition_schemes.py:56-59 | the visits of a board's first schemes are a prefix of its visits |
| PartitionCsv.VisitsPrefix | pyScripts/create_partition_schemes.py:54-62 | the visits of the first boards are a prefix of all visits |
| PartitionCsv.CollectSnoc | pyScripts/create_partition_schemes.py:58-62 | one more visit is one more step of the loop, and a failure stays |
| PartitionCsv.LoadRows | pyScripts/create_partition_schemes.py:21-38 | the read loop appends exactly the rows of the kept lines, in order |
| PartitionCsv.LoadScheme | pyScripts/create_partition_schemes.py:8-43 | `load_scheme` of the current script gives `[]` for a missing CSV; the legacy one (create_partition_shemes.py:6-37) raises there; otherwise the rows of the file |
| PartitionCsv.LoadOnce | pyScripts/create_partition_schemes.py:57-62 | one visit loads a name only when it is not loaded yet, and raises on a scheme without "build" |
| PartitionCsv.LoadBuilds | pyScripts/create_partition_schemes.py:56-59 | the inner loop over a board's schemes gives the loop's result after their visits |
| PartitionCsv.LoadBoard | pyScripts/create_partition_schemes.py:55-62 | one board loads its schemes' builds, or its default when it has no schemes |
| PartitionCsv.CollectSchemes | pyScripts/create_partition_schemes.py:54-62 | the loop over the boards in file order gives `Collect` of all their visits, with either script |
| StableSort.FilterMembers | web-app/src/app/board-overview/board-overview.component.ts:54-58 | an element is kept exactly when it is in the list and passes |
| StableSort.FilterAppend | web-app/src/app/board-overview/board-overview.component.ts:54-58 | filtering works piece by piece, so the kept elements stay in list order |
| StableSort.FilterAllPass | web-app/src/app/board-overview/board-overview.component.ts:54-58 | nothing is dropped when every element passes |
| StableSort.InsertPermutes | web-app/src/app/board-overview/board-overview.component.ts:88 | inserting one element adds it and loses none |
| StableSort.SortPermutes | web-app/src/app/board-overview/board-overview.component.ts:88 | `sort` only rearranges the rows |
| StableSort.SortKeepsOrder | web-app/src/app/board-overview/board-overview.component.ts:103-104 | a comparator that always returns 0 leaves the rows in place, as a stable sort does |
| StableSort.InsertAtEnd | web-app/src/app/board-overview/board-overview.component.ts:88 | an element that comes before nothing goes to the end |
| StableSort.ConsOrdered | web-app/src/app/board-overview/board-overview.component.ts:88 | a head at most everything after it keeps an ordered list ordered |
| StableSort.InsertOrdered | web-app/src/app/board-overview/board-overview.component.ts:88 | inserting into an ordered list with a comparator that agrees with an order keeps it ordered |
| StableSort.InsertBehind | web-app/src/app/board-overview/board-overview.component.ts:88 | the same, for the step where the element goes behind the head |
| StableSort.SortOrdered | web-app/src/app/board-overview/board-overview.component.ts:88 | with a comparator that agrees with a total preorder on the rows, the sorted rows are ordered by it |
| BoardOverview.LexIrreflexive | web-app/src/app/board-overview/board-overview.component.ts:127 | no string is `<` itself in JavaScript's string order |
| BoardOverview.LexAsymmetric | web-app/src/app/board-overview/board-overview.component.ts:127 | `a < b` and `b < a` never both hold |
| BoardOverview.LexTransitive | web-app/src/app/board-overview/board-overview.component.ts:127 | string `<` is transitive |
| BoardOverview.LexTotal | web-app/src/app/board-overview/board-overview.component.ts:127 | two different strings are ordered one way or the other |
| BoardOverview.LexAtMostTransitive | web-app/src/app/board-overview/board-overview.component.ts:127 | "not greater" on strings is transitive, so text columns sort into a consistent order |
| BoardOverview.Order | web-app/src/app/board-overview/board-overview.component.ts:127 | `(less ? -1 : 1) * (isAsc ? 1 : -1)` is never 0, and is negative exactly when `less` matches the direction |
| BoardOverview.Compare | web-app/src/app/board-overview/board-overview.component.ts:126-128 | `compare` is -1 ascending exactly when `a < b`, and -1 descending exactly when not |
| BoardOverview.CompareEqualKeys | web-app/src/app/board-overview/board-overview.component.ts:126-128 | equal keys give 1 ascending and -1 descending, never 0 |
| BoardOverview.CompareAntisymmetric | web-app/src/app/board-overview/board-overview.component.ts:126-128 | for different keys, swapping them or the direction negates the result |
| BoardOverview.ParseInt | web-app/src/app/board-overview/board-overview.component.ts:141-142 | `parseInt` gives a number exactly when the text starts with a digit |
| BoardOverview.ParseIntPrefix | web-app/src/app/board-overview/board-overview.component.ts:141-142 | digits followed by a non-digit parse as the value of the digits |
| BoardOverview.LedValueNotAvailable | web-app/src/app/board-overview/board-overview.component.ts:131-139 | "N/A" is compared as pin 1000 |
| BoardOverview.CompareLed | web-app/src/app/board-overview/board-overview.component.ts:130-145 | `compareLed` is -1 ascending exactly when both values parse and the first is smaller ("N/A" as 1000), and -1 descending exactly when not |
| BoardOverview.LedValueOfPin | web-app/src/app/board-overview/board-overview.component.ts:141-142 | a pin written as a number is compared by that number |
| BoardOverview.NotAvailableSortsLast | web-app/src/app/board-overview/board-overview.component.ts:130-145 | "N/A" comes after every pin below 1000 ascending and before it descending |
| BoardOverview.DropLastTwo | web-app/src/app/board-overview/board-overview.component.ts:165 | `slice(0, -2)` is the prefix without the last two characters, or empty |
| BoardOverview.FlashSizeOf | web-app/src/app/board-overview/board-overview.component.ts:160-170 | "512KB" counts as 0; any other size counts as `parseInt` of all but its last two characters, and as 0 when that is NaN (two characters or fewer, or no leading digit) |
| BoardOverview.FlashSizeOfNumber | web-app/src/app/board-overview/board-overview.component.ts:160-170 | a size written as a number and a two-letter unit counts as that number |
| BoardOverview.FlashSizeValue | web-app/src/app/board-overview/board-overview.component.ts:147-171 | `get_flash_size_value` is 0 without sizes, else the value of the first size ascending and of the last descending |
| BoardOverview.CompareFlashSize | web-app/src/app/board-overview/board-overview.component.ts:173-177 | `compareFlashSize` is -1 ascending exactly when the first board's value is smaller, and -1 descending exactly when it is at least the second's |
| BoardOverview.NoFlashSizeFirst | web-app/src/app/board-overview/board-overview.component.spec.ts:198-205 | a board without sizes sorts before every board with a nonzero size, ascending |
| BoardOverview.Comparison | web-app/src/app/board-overview/board-overview.component.ts:88-106 | a text column compares its text with `compare`; an unknown column compares as 0 |
| BoardOverview.SortRows | web-app/src/app/board-overview/board-overview.component.ts:88-106 | sorting by any column is a permutation of the rows |
| BoardOverview.SortUnknownColumn | web-app/src/app/board-overview/board-overview.component.ts:103-104 | an unknown column leaves the rows in their order |
| BoardOverview.SortTextColumn | web-app/src/app/board-overview/board-overview.component.ts:90-98 | sorting a text column orders the rows by that text, ascending or descending |
| BoardOverview.TextAscendingAgrees | web-app/src/app/board-overview/board-overview.component.ts:126-128 | ascending `compare` agrees with the "not greater" order of the text |
| BoardOverview.TextDescendingAgrees | web-app/src/app/board-overview/board-overview.component.ts:126-128 | descending `compare` agrees with the reversed order |
| BoardOverview.SortLedColumn | web-app/src/app/board-overview/board-overview.component.ts:99-100 | when every LED value parses, sorting by LED orders the rows by pin number ("N/A" as 1000) in the chosen direction |
| BoardOverview.LedAgrees | web-app/src/app/board-overview/board-overview.component.ts:130-145 | `compareLed` agrees with the pin-number order when every value parses |
| BoardOverview.FlashAgrees | web-app/src/app/board-overview/board-overview.component.ts:173-177 | `compareFlashSize` agrees with the order of `get_flash_size_value` (first size ascending, last size descending): the row it puts first has a value no greater ascending, no smaller descending, and that order is transitive |
| BoardOverview.SortFlashColumn | web-app/src/app/board-overview/board-overview.component.ts:101-102 | sorting by flash size orders the rows ascending by their first size's value, descending by their last size's value |
| BoardOverview.WithLedExactly | web-app/src/app/board-overview/board-overview.component.ts:53-58 | the boards kept are exactly those whose LED is not "N/A", in table order |
| BoardOverview.WithLedAllKnown | web-app/src/app/board-overview/board-overview.component.ts:53-58 | a table without "N/A" LEDs is kept whole |
| BoardOverview.IgnoreNA | web-app/src/app/board-overview/board-overview.component.ts:53-58 | the `forEach` loop pushes exactly the boards with a known LED, in order |
| BoardOverview.AsciiLower | web-app/src/app/board-overview/board-overview.component.ts:65 | lower-casing leaves no ASCII capital |
| BoardOverview.NormalizeFilter | web-app/src/app/board-overview/board-overview.component.ts:65 | `trim().toLowerCase()` is empty exactly when the text is all whitespace, and leaves no ASCII capital |
| BoardOverview.NormalizeFilterTrims | web-app/src/app/board-overview/board-overview.component.ts:65 | the result is one stretch of the text, lowered, with only whitespace before and after it, and starts and ends with no whitespace |
| BoardOverview.BoardOverviewComponent.constructor | web-app/src/app/board-overview/board-overview.component.ts:18-33 | after the initialisers and `ngOnInit`, both counts are the number of boards, nothing is filtered and every board is shown |
| BoardOverview.BoardOverviewComponent.UpdateTable | web-app/src/app/board-overview/board-overview.component.ts:51-67 | the table holds the boards with a known LED when checked, else all, behind the normalised filter; the count is the number of rows the filter lets through |
| BoardOverview.BoardOverviewComponent.ApplyIgnoreNA | web-app/src/app/board-overview/board-overview.component.ts:69-72 | the checkbox state is stored and the table rebuilt from it |
| BoardOverview.BoardOverviewComponent.ApplyFilter | web-app/src/app/board-overview/board-overview.component.ts:74-77 | the typed text is stored and the table rebuilt behind it |
| BoardOverview.BoardOverviewComponent.SortData | web-app/src/app/board-overview/board-overview.component.ts:79-107 | the rows the filter lets through (all rows when no text was typed) are sorted into a new data source without a filter; the counts stay |
| PartitionOverview.Lookup | web-app/src/app/esp32-partition-overview/esp32-partition-overview.component.ts:33 | `object[key]` is defined exactly when some entry has the key, and is then the value of such an entry |
| PartitionOverview.Keys | web-app/src/app/esp32-partition-overview/esp32-partition-overview.component.ts:18 | `Object.keys` lists every key, in entry order |
| PartitionOverview.NoSchemesSelectsDefault | web-app/src/app/esp32-partition-overview/esp32-partition-overview.component.ts:33-36 | a board without schemes offers and selects its default |
| PartitionOverview.DefaultKeySelected | web-app/src/app/esp32-partition-overview/esp32-partition-overview.component.ts:38-48 | with the default among the scheme keys, that scheme's build is selected and every key offered |
| PartitionOverview.FirstSchemeFallback | web-app/src/app/esp32-partition-overview/esp32-partition-overview.component.ts:42-45 | without the default key the first scheme's build is selected; with an empty scheme object the handler throws after offering no schemes |
| PartitionOverview.BoardChangeShowsSelection | web-app/src/app/esp32-partition-overview/esp32-partition-overview.component.ts:30-55 | whenever `onBoardChange` completes, the board exists, the selection is its default or one of its builds, and the table shown is that build's (or none) |
| PartitionOverview.UnknownBoardThrows | web-app/src/app/esp32-partition-overview/esp32-partition-overview.component.ts:33 | an unknown board makes both handlers throw before assigning anything |
| PartitionOverview.UnknownSchemeShowsNothing | web-app/src/app/esp32-partition-overview/esp32-partition-overview.component.ts:59-66 | an unknown scheme key, or a board without schemes, shows an empty table |
| PartitionOverview.HandlersAgree | web-app/src/app/esp32-partition-overview/esp32-partition-overview.component.ts:30-68 | after `onBoardChange` on the selected board, choosing its default key shows the same table |
| PartitionOverview.Esp32PartitionOverviewComponent.constructor | web-app/src/app/esp32-partition-overview/esp32-partition-overview.component.ts:16-26 | the first board is selected with its default scheme, its scheme keys offered, and the default's table shown |
| PartitionOverview.Esp32PartitionOverviewComponent.OnBoardChange | web-app/src/app/esp32-partition-overview/esp32-partition-overview.component.ts:30-55 | the fields become `BoardChanged`'s, a throw included; the selected board is not changed |
| PartitionOverview.Esp32PartitionOverviewComponent.OnSchemeChange | web-app/src/app/esp32-partition-overview/esp32-partition-overview.component.ts:57-68 | the fields become `SchemeChanged`'s for the selected board |
| Text.NatToString | pyScripts/helper/find_led_builtin_gpio.py:83-84 | Python's `str` of a number is a canonical numeral of that value |
| Text.NumeralRoundTrip | pyScripts/helper/find_led_builtin_gpio.py:83-84 | a canonical numeral printed from its value gives it back |
| Text.LastSplit | pyScripts/helper/collecting_board_data.py:27-30 | `(.+)SEP(.+)` matches exactly when the separator occurs with text on both sides, and splits at its last such occurrence |
| Text.Strip | pyScripts/create_partition_schemes.py:24 | `strip()` is empty exactly when the text is all whitespace, else a middle part without whitespace at either end, with only whitespace around it |
| Text.IndexOf | pyScripts/create_partition_schemes.py:27 | the first occurrence of a character, or the length |
| Text.Split | pyScripts/create_partition_schemes.py:27 | `split(sep)` gives at least one part, none containing the separator |
| Text.SplitJoin | pyScripts/create_partition_schemes.py:27 | joining the parts of a split gives the text back |
| Text.JoinSplit | pyScripts/create_partition_schemes.py:27 | splitting joined separator-free parts gives the parts back |
| Text.SkippedLinesIgnored | pyScripts/create_partition_schemes.py:24-25 | a skipped line, wherever it stands, does not change the rows read |
| Text.KeptAtMostLines | pyScripts/create_partition_schemes.py:22-38 | the reader yields at most one row per line |

## Left out

- File contents, logging and `print`: files are a `FileSystem` value whose files are lists of lines, given without terminators. Log and print calls have no effect on results and are not modelled.
- Line terminators: a line read with its `\n`, and `.` in a pattern meeting one, are not modelled. `\d`, `[A-Z]` and `[a-z]` are the ASCII classes.
- JSON: reading the data files and writing `esp32_partition_schemes.json`, `core_list.json`, the board exports and `print_table` are not modelled. The JSON data is a parameter (`PartitionCsv.BoardJson`, the `PartitionOverview` association lists).
- Python dict order: Python dicts are maps, so the order of the exported boards is not modelled. The web app's JSON objects are association lists in key order, which is the order `Object.keys` gives.
- `get_core_list`, `read_json_file`, the download and unzip helpers of `get_esp_data.py`, and the `__main__` blocks beyond the partition loop are not modelled: they are I/O only.
- CollectingCore.Finish: the board list is finalised before the partition check; the source checks partitions first. The two touch disjoint objects, so the results are the same.
- BoardOverview.ParseInt: only leading decimal digits are read. JavaScript's `parseInt` also skips leading whitespace, accepts a sign, and reads a `0x` or `0X` prefix as hexadecimal (`parseInt("0x10")` is 16 where the model gives 0), but no LED value or flash size in the data has any of these.
- BoardOverview.NormalizeFilter: `toLowerCase` is modelled on ASCII capitals only.
- BoardOverview.Compare: strings are ordered by `LexLess`, which compares characters by Unicode scalar value. JavaScript's `<` compares UTF-16 code units, so the two orders differ when a character above U+FFFF meets one in U+E000 to U+FFFF. Board names, ids and the other text columns are ASCII.
- BoardOverview.SortRows: `Array.prototype.sort` is modelled as a stable insertion sort. The comparators never return 0 for equal keys, so another engine's algorithm may order equal rows differently. The ordering lemmas are proved for this sort.
- BoardOverview.FilteredData: the `MatTableDataSource` filter predicate belongs to Angular Material and is a parameter (`matches`).
- BoardOverview.BoardOverviewComponent.constructor: the `coreVersion` lookup of `ngOnInit` and `get_pins_arduino_link` only build a link; they are not modelled. The `coreName` input is not modelled.
- PartitionOverview.Esp32PartitionOverviewComponent.constructor: it requires a non-empty board list. The field initialisers would throw on an empty one, which the model does not represent.
- PartitionOverview: the `console.log` calls and `undefined` field values are not modelled. A handler that throws keeps what it assigned before the throw, as the source does.
- LedResolution.ResolveList: the records of the list are assumed to be distinct objects. Python's `BoardList` would accept the same `BoardData` twice, and resolving it would then update both entries.
- FindLedBuiltinGpios.FindLedBuiltinGpio.FindLedBuiltin: the same assumption of distinct records; the lists handed to `FindLedBuiltinGpio` come from callers that are not part of this model.
- CollectingBoards.CollectingBoardData.FindLedBuiltin: the same assumption of distinct records. The boards.txt scanner appends a freshly made record at each board boundary and once at the end (pyScripts/helper/collecting_board_data.py:84 and 167), and its class invariant `Valid` proves that list distinct.
- PartitionRecords: a scheme is a value stored in its record's map. In the source each `Scheme` object is created for one record and stored once, so `set_build` on the stored object is modelled as replacing the stored value; aliasing between records is not modelled.
