/**
 * The partition-table loaders of the two scheme scripts
 * (pyScripts/create_partition_schemes.py and its older twin
 * pyScripts/create_partition_shemes.py) and their "load each scheme once"
 * loops.
 *
 * A scheme CSV is read whole, stripped, split on '\n'; comment and blank
 * lines are skipped, lines with fewer than five comma-separated fields too,
 * and every other line becomes one row of its first five fields, each
 * stripped. The current loader returns `[]` for a missing file and takes the
 * core version into the path; the older one always opens the esp32 3.2.1
 * file, so a missing file raises.
 */
module PartitionCsv {
  import opened Wrappers
  import opened Text
  import opened Files

  /** One partition of a scheme: `{"name", "type", "subtype", "offset", "size"}`. */
  datatype PartitionRow = PartitionRow(name: string, partType: string, subtype: string, offset: string, size: string)

  /** What the loaders and the loop can raise. */
  datatype LoadError = NotAFile(path: string) | KeyError(key: string)

  /** Which of the two scripts' loaders: the current one reads the installed core's version. */
  datatype Loader = Current(version: string) | Legacy

  const EspDataPath := "./esp_data"

  // ----- one line -----

  /** A comment line (a '#' in column 0) or a blank line. */
  predicate Skipped(line: string) {
    (|line| > 0 && line[0] == '#') || Strip(line) == []
  }

  /** The row a line yields: none for a skipped line or one with fewer than five fields. */
  function RowOf(line: string): Option<PartitionRow> {
    if Skipped(line) then None
    else
      var fields := Split(line, ',');
      if |fields| < 5 then None else Some(FieldsRow(fields))
  }

  /** The first five fields of a line, each stripped. */
  function FieldsRow(fields: seq<string>): PartitionRow
    requires |fields| >= 5
  {
    PartitionRow(Strip(fields[0]), Strip(fields[1]), Strip(fields[2]), Strip(fields[3]), Strip(fields[4]))
  }

  /** The rows of the kept lines, in line order. */
  function Rows(lines: seq<string>): seq<PartitionRow> {
    Kept(RowOf, lines)
  }

  /** `read().strip().split('\n')`. */
  function CsvLines(text: string): seq<string> {
    Split(Strip(text), '\n')
  }

  /** The text of a file given as its lines. */
  function FileText(lines: seq<string>): string {
    if lines == [] then "" else Join(lines, '\n')
  }

  /** The CSV a loader opens for a scheme name. */
  function SchemeCsvPath(loader: Loader, schemeName: string): string {
    match loader
    case Current(version) => EspDataPath + "/esp32-" + version + "/tools/partitions/" + schemeName + ".csv"
    case Legacy => EspDataPath + "/esp32-3.2.1/tools/partitions/" + schemeName + ".csv"
  }

  /** `load_scheme`: `[]` for a missing file (current loader only), else the rows of the file. */
  function SchemeRows(fs: FileSystem, loader: Loader, schemeName: string): Result<seq<PartitionRow>, LoadError> {
    var path := SchemeCsvPath(loader, schemeName);
    if loader.Current? && !fs.Exists(path) then Success([])
    else if !fs.IsFile(path) then Failure(NotAFile(path))
    else Success(Rows(CsvLines(FileText(fs.files[path]))))
  }

  // ----- what the row rule promises -----

  /** A string without whitespace at either end. */
  predicate Trimmed(s: string) {
    s == [] || (!IsPyWhitespace(s[0]) && !IsPyWhitespace(s[|s| - 1]))
  }

  /** Stripping a string without whitespace at either end changes nothing. */
  lemma StripTrimmed(s: string)
    requires Trimmed(s)
    ensures Strip(s) == s
  {
    if s != [] {
      assert Span(s, 0, IsPyWhitespace) == 0;
      assert RunStart(s, |s|, IsPyWhitespace) == |s|;
      assert s[0..|s|] == s;
    }
  }

  /** Stripping removes characters and never adds one. */
  lemma StripAddsNothing(f: string, c: char)
    requires c !in f
    ensures c !in Strip(f)
  {
    var b := TrimBounds(f, IsPyWhitespace);
    assert Strip(f) == f[b.0..b.1];
  }

  /** The five fields a row is made of are stripped and keep no separator. */
  lemma FieldsRowClean(fields: seq<string>)
    requires |fields| >= 5 && forall k | 0 <= k < |fields| :: ',' !in fields[k]
    ensures var r := FieldsRow(fields);
      Trimmed(r.name) && Trimmed(r.partType) && Trimmed(r.subtype) && Trimmed(r.offset) && Trimmed(r.size)
    ensures var r := FieldsRow(fields);
      ',' !in r.name && ',' !in r.partType && ',' !in r.subtype && ',' !in r.offset && ',' !in r.size
  {
    StripClean(fields[0]);
    StripClean(fields[1]);
    StripClean(fields[2]);
    StripClean(fields[3]);
    StripClean(fields[4]);
  }

  lemma StripClean(f: string)
    requires ',' !in f
    ensures Trimmed(Strip(f)) && ',' !in Strip(f)
  {
    StripAddsNothing(f, ',');
  }

  /** Every field of a row read from a line is stripped and free of commas. */
  lemma RowFieldsClean(line: string)
    requires RowOf(line).Some?
    ensures var r := RowOf(line).value;
      Trimmed(r.name) && Trimmed(r.partType) && Trimmed(r.subtype) && Trimmed(r.offset) && Trimmed(r.size)
    ensures var r := RowOf(line).value;
      ',' !in r.name && ',' !in r.partType && ',' !in r.subtype && ',' !in r.offset && ',' !in r.size
  {
    FieldsRowClean(Split(line, ','));
  }

  /** A field a CSV writer can put in a row: stripped, no comma, no line break. */
  predicate CleanField(s: string) {
    Trimmed(s) && ',' !in s && '\n' !in s
  }

  /** A row whose line the loader does not skip: clean fields, and a name that does not start a comment. */
  predicate Writable(r: PartitionRow) {
    CleanField(r.name) && CleanField(r.partType) && CleanField(r.subtype) && CleanField(r.offset) && CleanField(r.size)
    && (r.name == [] || r.name[0] != '#')
  }

  /** The fields of a row as written, with any further comma-free fields after the five. */
  function RowFields(r: PartitionRow, extra: seq<string>): (fields: seq<string>)
    ensures |fields| == 5 + |extra| && fields[0] == r.name
  {
    [r.name, r.partType, r.subtype, r.offset, r.size] + extra
  }

  /** The CSV line of a row. */
  function RowLine(r: PartitionRow, extra: seq<string>): string {
    Join(RowFields(r, extra), ',')
  }

  /** The line of a row starts with its name and a comma. */
  lemma RowLineStart(r: PartitionRow, extra: seq<string>)
    ensures |RowLine(r, extra)| > |r.name| && RowLine(r, extra)[|r.name|] == ','
    ensures r.name != [] ==> RowLine(r, extra)[0] == r.name[0]
  {
    var fields := RowFields(r, extra);
    assert RowLine(r, extra) == r.name + [','] + Join(fields[1..], ',');
  }

  /** The line of a writable row is neither a comment nor blank. */
  lemma RowLineKept(r: PartitionRow, extra: seq<string>)
    requires Writable(r)
    ensures !Skipped(RowLine(r, extra))
  {
    var line := RowLine(r, extra);
    RowLineStart(r, extra);
    assert !IsPyWhitespace(line[|r.name|]);
  }

  /** The line a writable row is written as reads back as that row; fields past the fifth are ignored. */
  lemma RowRoundTrip(r: PartitionRow, extra: seq<string>)
    requires Writable(r) && forall k | 0 <= k < |extra| :: ',' !in extra[k]
    ensures RowOf(RowLine(r, extra)) == Some(r)
  {
    JoinSplit(RowFields(r, extra), ',');
    RowLineKept(r, extra);
    FieldsRowOfRow(r, extra);
  }

  /** Stripping the fields of a writable row gives the row back. */
  lemma FieldsRowOfRow(r: PartitionRow, extra: seq<string>)
    requires Writable(r)
    ensures FieldsRow(RowFields(r, extra)) == r
  {
    StripTrimmed(r.name);
    StripTrimmed(r.partType);
    StripTrimmed(r.subtype);
    StripTrimmed(r.offset);
    StripTrimmed(r.size);
  }

  /** The lines a table of rows is written as, one per row. */
  function RowLines(rows: seq<PartitionRow>): (lines: seq<string>)
    ensures |lines| == |rows|
  {
    if rows == [] then [] else RowLines(rows[..|rows| - 1]) + [RowLine(rows[|rows| - 1], [])]
  }

  lemma {:induction false} RowLinesAt(rows: seq<PartitionRow>, k: nat)
    requires k < |rows|
    ensures RowLines(rows)[k] == RowLine(rows[k], [])
  {
    if k < |rows| - 1 {
      RowLinesAt(rows[..|rows| - 1], k);
    }
  }

  /** The rows of lines written from writable rows are those rows, in order. */
  lemma RowsRoundTrip(rows: seq<PartitionRow>)
    requires forall k | 0 <= k < |rows| :: Writable(rows[k])
    ensures Rows(RowLines(rows)) == rows
  {
    forall k | 0 <= k < |rows|
      ensures RowOf(RowLines(rows)[k]) == Some(rows[k])
    {
      RowLinesAt(rows, k);
      RowRoundTrip(rows[k], []);
    }
    KeptAll(RowOf, RowLines(rows), rows);
  }

  /** A character in no part, other than the separator, is not in the joined text. */
  lemma {:induction false} JoinLacks(parts: seq<string>, sep: char, c: char)
    requires |parts| >= 1 && c != sep && forall k | 0 <= k < |parts| :: c !in parts[k]
    ensures c !in Join(parts, sep)
  {
    if |parts| > 1 {
      JoinLacks(parts[1..], sep, c);
      assert Join(parts, sep) == parts[0] + [sep] + Join(parts[1..], sep);
    }
  }

  /** Joined text starts with the first part, when that is not empty. */
  lemma JoinStart(parts: seq<string>, sep: char)
    requires |parts| >= 1 && parts[0] != []
    ensures |Join(parts, sep)| > 0 && Join(parts, sep)[0] == parts[0][0]
  {
    if |parts| > 1 {
      assert Join(parts, sep) == parts[0] + [sep] + Join(parts[1..], sep);
    }
  }

  /** Joined text of two or more parts ends with the last part, or with the separator when that is empty. */
  lemma {:induction false} JoinEnd(parts: seq<string>, sep: char)
    requires |parts| >= 2
    ensures var t := Join(parts, sep); var last := parts[|parts| - 1];
      |t| > 0 && t[|t| - 1] == if last == [] then sep else last[|last| - 1]
  {
    var t := Join(parts, sep);
    assert t == parts[0] + [sep] + Join(parts[1..], sep);
    if |parts| > 2 {
      JoinEnd(parts[1..], sep);
    } else {
      assert Join(parts[1..], sep) == parts[1];
    }
  }

  /** A line the file's `strip().split('\\n')` gives back unchanged, wherever it stands. */
  predicate GoodLine(line: string) {
    |line| > 0 && !IsPyWhitespace(line[0]) && !IsPyWhitespace(line[|line| - 1]) && '\n' !in line
  }

  /** The line of a writable row is such a line. */
  lemma RowLineShape(r: PartitionRow)
    requires Writable(r)
    ensures GoodLine(RowLine(r, []))
  {
    var fields := RowFields(r, []);
    RowLineStart(r, []);
    JoinEnd(fields, ',');
    assert fields[4] == r.size;
    JoinLacks(fields, ',', '\n');
  }

  lemma RowLinesGood(rows: seq<PartitionRow>)
    requires forall k | 0 <= k < |rows| :: Writable(rows[k])
    ensures forall k | 0 <= k < |rows| :: GoodLine(RowLines(rows)[k])
  {
    forall k | 0 <= k < |rows|
      ensures GoodLine(RowLines(rows)[k])
    {
      RowLinesAt(rows, k);
      RowLineShape(rows[k]);
    }
  }

  /** Reading back the text of such lines gives the lines. */
  lemma CsvLinesOfText(lines: seq<string>)
    requires |lines| >= 1 && forall k | 0 <= k < |lines| :: GoodLine(lines[k])
    ensures CsvLines(FileText(lines)) == lines
  {
    JoinStart(lines, '\n');
    if |lines| >= 2 {
      JoinEnd(lines, '\n');
    }
    StripTrimmed(FileText(lines));
    JoinSplit(lines, '\n');
  }

  /**
   * A scheme file written from writable rows, one line each, loads back as
   * those rows, with either loader.
   */
  lemma SchemeRoundTrip(fs: FileSystem, loader: Loader, schemeName: string, rows: seq<PartitionRow>)
    requires |rows| >= 1 && forall k | 0 <= k < |rows| :: Writable(rows[k])
    requires fs.IsFile(SchemeCsvPath(loader, schemeName)) && fs.files[SchemeCsvPath(loader, schemeName)] == RowLines(rows)
    ensures SchemeRows(fs, loader, schemeName) == Success(rows)
  {
    RowLinesGood(rows);
    CsvLinesOfText(RowLines(rows));
    RowsRoundTrip(rows);
    SchemeRowsOfFile(fs, loader, schemeName);
  }

  /** A scheme CSV that is a file is loaded from its lines, with either loader. */
  lemma SchemeRowsOfFile(fs: FileSystem, loader: Loader, schemeName: string)
    requires fs.IsFile(SchemeCsvPath(loader, schemeName))
    ensures var path := SchemeCsvPath(loader, schemeName);
      SchemeRows(fs, loader, schemeName) == Success(Rows(CsvLines(FileText(fs.files[path]))))
  {
  }

  // ----- the "load each scheme once" loop -----

  /** A scheme of the board-partitions JSON as the loop sees it: only "build" is read, and it may be missing. */
  datatype SchemeJson = SchemeJson(build: Option<string>)

  /** A board's entry of the board-partitions JSON, schemes in file order. */
  datatype BoardJson = BoardJson(default: Option<string>, schemes: Option<seq<(string, SchemeJson)>>)

  /** What the loop does at one scheme or default: load a name, or fail on a scheme without "build". */
  datatype Visit = LoadName(name: string) | MissingBuild

  /** A scheme loads its build; one without "build" raises. */
  function SchemeVisit(scheme: SchemeJson): Visit {
    if scheme.build.Some? then LoadName(scheme.build.value) else MissingBuild
  }

  function SchemeVisits(schemes: seq<(string, SchemeJson)>): seq<Visit> {
    if schemes == [] then [] else SchemeVisits(schemes[..|schemes| - 1]) + [SchemeVisit(schemes[|schemes| - 1].1)]
  }

  lemma SchemeVisitsSnoc(done: seq<Visit>, schemes: seq<(string, SchemeJson)>, j: nat)
    requires j < |schemes|
    ensures done + SchemeVisits(schemes[..j + 1]) == done + SchemeVisits(schemes[..j]) + [SchemeVisit(schemes[j].1)]
  {
    assert schemes[..j + 1][..j] == schemes[..j];
  }

  /** A board with schemes loads their builds; one without loads its default, if it has one. */
  function BoardVisits(b: BoardJson): seq<Visit> {
    match b.schemes
    case Some(schemes) => SchemeVisits(schemes)
    case None => if b.default.Some? then [LoadName(b.default.value)] else []
  }

  function Visits(boards: seq<(string, BoardJson)>): seq<Visit> {
    if boards == [] then []
    else Visits(boards[..|boards| - 1]) + BoardVisits(boards[|boards| - 1].1)
  }

  /** How the loop loads a scheme: `load_scheme` of one of the two scripts, over a fixed file system. */
  type SchemeLoad = string -> Result<seq<PartitionRow>, LoadError>

  function Loads(fs: FileSystem, loader: Loader): SchemeLoad {
    name => SchemeRows(fs, loader, name)
  }

  /** The loop's state: the schemes loaded so far and the names in the order they were loaded. */
  datatype Loaded = Loaded(schemes: map<string, seq<PartitionRow>>, loads: seq<string>)

  /** One visit: a name already loaded is skipped, a new one is loaded. */
  function VisitStep(load: SchemeLoad, s: Loaded, v: Visit): Result<Loaded, LoadError> {
    match v
    case MissingBuild => Failure(KeyError("build"))
    case LoadName(name) =>
      if name in s.schemes then Success(s)
      else
        var rows :- load(name);
        Success(Loaded(s.schemes[name := rows], s.loads + [name]))
  }

  /** The loop over the visits; the first exception ends it. */
  function Collect(load: SchemeLoad, visits: seq<Visit>): Result<Loaded, LoadError> {
    if visits == [] then Success(Loaded(map[], []))
    else
      var s :- Collect(load, visits[..|visits| - 1]);
      VisitStep(load, s, visits[|visits| - 1])
  }

  /** The names the visits ask for. */
  function Wanted(visits: seq<Visit>): set<string> {
    if visits == [] then {}
    else
      var v := visits[|visits| - 1];
      Wanted(visits[..|visits| - 1]) + if v.LoadName? then {v.name} else {}
  }

  /** No name twice. */
  predicate NoDuplicates(names: seq<string>) {
    forall i, j | 0 <= i < j < |names| :: names[i] != names[j]
  }

  /** The state the loop keeps: every name loaded exactly once, with the rows its load returned. */
  predicate LoadedOnce(load: SchemeLoad, s: Loaded) {
    NoDuplicates(s.loads)
    && (forall n | n in s.schemes :: n in s.loads)
    && (forall k | 0 <= k < |s.loads| :: s.loads[k] in s.schemes)
    && forall n | n in s.schemes :: load(n) == Success(s.schemes[n])
  }

  lemma VisitStepKeepsLoadedOnce(load: SchemeLoad, s: Loaded, v: Visit)
    requires LoadedOnce(load, s) && VisitStep(load, s, v).Success?
    ensures LoadedOnce(load, VisitStep(load, s, v).value)
    ensures v.LoadName? && VisitStep(load, s, v).value.schemes.Keys == s.schemes.Keys + {v.name}
  {
  }

  /**
   * After a successful loop every name asked for was loaded exactly once,
   * with the rows of its file, and nothing else was loaded.
   */
  lemma {:induction false} CollectLoadsOnce(load: SchemeLoad, visits: seq<Visit>)
    requires Collect(load, visits).Success?
    ensures LoadedOnce(load, Collect(load, visits).value)
    ensures Collect(load, visits).value.schemes.Keys == Wanted(visits)
  {
    if visits != [] {
      var init := visits[..|visits| - 1];
      var v := visits[|visits| - 1];
      CollectLoadsOnce(load, init);
      var s := Collect(load, init).value;
      VisitStepKeepsLoadedOnce(load, s, v);
    }
  }

  /** The loop fails exactly when a scheme lacks "build" or a name's load raises. */
  lemma {:induction false} CollectFails(load: SchemeLoad, visits: seq<Visit>)
    ensures Collect(load, visits).Failure? <==>
      MissingBuild in visits || exists n | n in Wanted(visits) :: load(n).Failure?
  {
    if visits != [] {
      var init := visits[..|visits| - 1];
      var v := visits[|visits| - 1];
      CollectFails(load, init);
      assert visits == init + [v];
      if v.LoadName? && Collect(load, init).Success? {
        CollectLoadsOnce(load, init);
      }
    }
  }

  /** Once the loop raised, later visits do not change the outcome. */
  lemma {:induction false} FailureIsFinal(load: SchemeLoad, visits: seq<Visit>, more: seq<Visit>)
    requires Collect(load, visits).Failure?
    ensures Collect(load, visits + more) == Collect(load, visits)
    decreases |more|
  {
    if more == [] {
      assert visits + more == visits;
    } else {
      var init := more[..|more| - 1];
      FailureIsFinal(load, visits, init);
      assert (visits + more)[..|visits + more| - 1] == visits + init;
    }
  }

  /** A loop that raised on a prefix of the visits raised the same on all of them. */
  lemma FailureOnPrefix(load: SchemeLoad, visits: seq<Visit>, all: seq<Visit>)
    requires Collect(load, visits).Failure? && visits <= all
    ensures Collect(load, all) == Collect(load, visits)
  {
    FailureIsFinal(load, visits, all[|visits|..]);
    assert all == visits + all[|visits|..];
  }

  lemma {:induction false} SchemeVisitsPrefix(schemes: seq<(string, SchemeJson)>, j: nat)
    requires j <= |schemes|
    ensures SchemeVisits(schemes[..j]) <= SchemeVisits(schemes)
    decreases |schemes|
  {
    if j < |schemes| {
      var init := schemes[..|schemes| - 1];
      SchemeVisitsPrefix(init, j);
      assert init[..j] == schemes[..j];
    } else {
      assert schemes[..j] == schemes;
    }
  }

  lemma {:induction false} VisitsPrefix(boards: seq<(string, BoardJson)>, i: nat)
    requires i <= |boards|
    ensures Visits(boards[..i]) <= Visits(boards)
    decreases |boards|
  {
    if i < |boards| {
      var init := boards[..|boards| - 1];
      VisitsPrefix(init, i);
      assert init[..i] == boards[..i];
    } else {
      assert boards[..i] == boards;
    }
  }

  /** One more visit at the end is one more step. */
  lemma CollectSnoc(load: SchemeLoad, visits: seq<Visit>, v: Visit)
    ensures Collect(load, visits).Success? ==>
      Collect(load, visits + [v]) == VisitStep(load, Collect(load, visits).value, v)
    ensures Collect(load, visits).Failure? ==>
      Collect(load, visits + [v]) == Collect(load, visits)
  {
    assert (visits + [v])[..|visits|] == visits;
  }

  // ----- the loops, as the scripts run them -----

  /** The read loop of `load_scheme`: every kept line appends its row. */
  method LoadRows(lines: seq<string>) returns (rows: seq<PartitionRow>)
    ensures rows == Rows(lines)
  {
    rows := [];
    for i := 0 to |lines|
      invariant rows == Rows(lines[..i])
    {
      assert lines[..i + 1][..i] == lines[..i];
      var row := RowOf(lines[i]);
      if row.Some? {
        rows := rows + [row.value];
      }
    }
    assert lines[..|lines|] == lines;
  }

  /** `load_scheme` of either script. */
  method LoadScheme(fs: FileSystem, loader: Loader, schemeName: string) returns (r: Result<seq<PartitionRow>, LoadError>)
    ensures r == SchemeRows(fs, loader, schemeName)
  {
    var path := SchemeCsvPath(loader, schemeName);
    if loader.Current? && !fs.Exists(path) {
      return Success([]);
    }
    if !fs.IsFile(path) {
      return Failure(NotAFile(path));
    }
    var rows := LoadRows(CsvLines(FileText(fs.files[path])));
    return Success(rows);
  }

  /** One visit of the loop of `__main__`: load a name unless it is already loaded. */
  method LoadOnce(fs: FileSystem, loader: Loader, s: Loaded, v: Visit) returns (r: Result<Loaded, LoadError>)
    ensures r == VisitStep(Loads(fs, loader), s, v)
  {
    if v.MissingBuild? {
      return Failure(KeyError("build"));
    }
    if v.name in s.schemes {
      return Success(s);
    }
    var rows := LoadScheme(fs, loader, v.name);
    if rows.Failure? {
      return Failure(rows.error);
    }
    return Success(Loaded(s.schemes[v.name := rows.value], s.loads + [v.name]));
  }

  /** The inner loop of `__main__` over a board's schemes, loading each scheme's build. */
  method LoadBuilds(fs: FileSystem, loader: Loader, s: Loaded, schemes: seq<(string, SchemeJson)>, ghost done: seq<Visit>)
    returns (r: Result<Loaded, LoadError>)
    requires Collect(Loads(fs, loader), done) == Success(s)
    ensures r == Collect(Loads(fs, loader), done + SchemeVisits(schemes))
  {
    ghost var all := done + SchemeVisits(schemes);
    var t := s;
    assert done + SchemeVisits(schemes[..0]) == done;
    for j := 0 to |schemes|
      invariant Collect(Loads(fs, loader), done + SchemeVisits(schemes[..j])) == Success(t)
    {
      var v := SchemeVisit(schemes[j].1);
      ghost var seen := done + SchemeVisits(schemes[..j + 1]);
      SchemeVisitsSnoc(done, schemes, j);
      CollectSnoc(Loads(fs, loader), done + SchemeVisits(schemes[..j]), v);
      var next := LoadOnce(fs, loader, t, v);
      if next.Failure? {
        SchemeVisitsPrefix(schemes, j + 1);
        FailureOnPrefix(Loads(fs, loader), seen, all);
        return next;
      }
      t := next.value;
    }
    assert schemes[..|schemes|] == schemes;
    return Success(t);
  }

  /** The body of the loop of `__main__` for one board: its schemes' builds, or its default. */
  method LoadBoard(fs: FileSystem, loader: Loader, s: Loaded, data: BoardJson, ghost done: seq<Visit>) returns (r: Result<Loaded, LoadError>)
    requires Collect(Loads(fs, loader), done) == Success(s)
    ensures r == Collect(Loads(fs, loader), done + BoardVisits(data))
  {
    if data.schemes.Some? {
      r := LoadBuilds(fs, loader, s, data.schemes.value, done);
    } else if data.default.Some? {
      var v := LoadName(data.default.value);
      CollectSnoc(Loads(fs, loader), done, v);
      r := LoadOnce(fs, loader, s, v);
    } else {
      assert done + BoardVisits(data) == done;
      r := Success(s);
    }
  }

  /** The loop of `__main__` over the boards of the board-partitions JSON, in file order. */
  method CollectSchemes(fs: FileSystem, loader: Loader, boards: seq<(string, BoardJson)>) returns (r: Result<Loaded, LoadError>)
    ensures r == Collect(Loads(fs, loader), Visits(boards))
  {
    var s := Loaded(map[], []);
    for i := 0 to |boards|
      invariant Collect(Loads(fs, loader), Visits(boards[..i])) == Success(s)
    {
      assert boards[..i + 1][..i] == boards[..i];
      var next := LoadBoard(fs, loader, s, boards[i].1, Visits(boards[..i]));
      if next.Failure? {
        VisitsPrefix(boards, i + 1);
        FailureOnPrefix(Loads(fs, loader), Visits(boards[..i + 1]), Visits(boards));
        return next;
      }
      s := next.value;
    }
    assert boards[..|boards|] == boards;
    return Success(s);
  }
}
