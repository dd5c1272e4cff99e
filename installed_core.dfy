/**
 * `get_installed_core_info` of pyScripts/create_table_from_installed_core.py:
 * the table the Arduino CLI prints for `core list` (a header line, then one
 * line per installed core: ID, installed version, latest version, name),
 * read back into one record per core.
 *
 * A line is matched with `^([a-z\d]+:[a-z\d]+) +([\.\d]+) +([\.\d]+) +([a-z\d]+)`
 * after trailing whitespace is cut; the first line and blank lines are
 * skipped, and so is any line the pattern does not match. A missing file
 * gives no cores.
 */
module InstalledCore {
  import opened Wrappers
  import opened Text
  import opened Files

  /** The record of one installed core: `core`, `installed_version`, `latest_version`, `core_name`. */
  datatype CoreInfo = CoreInfo(core: string, installedVersion: string, latestVersion: string, coreName: string)

  /** The only exception: the path names something `open` cannot read. */
  datatype ReadError = NotAFile(path: string)

  /** `[a-z\d]`. */
  predicate IsLowerAlnum(c: char) { 'a' <= c <= 'z' || IsDigit(c) }

  /** `[\.\d]`. */
  predicate IsVersionChar(c: char) { c == '.' || IsDigit(c) }

  /** Every character of `s` is of class `p`. */
  predicate AllOf(p: char -> bool, s: string) { forall k | 0 <= k < |s| :: p(s[k]) }

  /** An ID `[a-z\d]+:[a-z\d]+` such as `esp32:esp32`. */
  predicate IsCoreId(core: string) {
    var k := IndexOf(core, ':');
    0 < k < |core| - 1 && AllOf(IsLowerAlnum, core[..k]) && AllOf(IsLowerAlnum, core[k + 1..])
  }

  /** The four groups, each of the form its group admits. */
  predicate WellFormed(info: CoreInfo) {
    IsCoreId(info.core)
    && |info.installedVersion| > 0 && AllOf(IsVersionChar, info.installedVersion)
    && |info.latestVersion| > 0 && AllOf(IsVersionChar, info.latestVersion)
    && |info.coreName| > 0 && AllOf(IsLowerAlnum, info.coreName)
  }

  /** The runs of spaces between the four columns. */
  datatype Gaps = Gaps(g1: string, g2: string, g3: string)

  predicate GoodGaps(gaps: Gaps) {
    |gaps.g1| > 0 && AllOf(IsSpace, gaps.g1) && |gaps.g2| > 0 && AllOf(IsSpace, gaps.g2) && |gaps.g3| > 0 && AllOf(IsSpace, gaps.g3)
  }

  /** A line that starts with the four columns, the given gaps between them, and goes on with `rest`. */
  function Line(info: CoreInfo, gaps: Gaps, rest: string): string {
    info.core + (gaps.g1 + (info.installedVersion + (gaps.g2 + (info.latestVersion + (gaps.g3 + (info.coreName + rest))))))
  }

  /** The line of a record as the table prints it, with nothing after the name. */
  function Row(info: CoreInfo, gaps: Gaps): string {
    Line(info, gaps, [])
  }

  lemma LineIsRowThenRest(info: CoreInfo, gaps: Gaps, rest: string)
    ensures Line(info, gaps, rest) == Row(info, gaps) + rest
  {
    var cn := info.coreName;
    assert (cn + []) + rest == cn + rest;
    var t6 := gaps.g3 + (cn + []);
    assert t6 + rest == gaps.g3 + (cn + rest);
    var t5 := info.latestVersion + t6;
    assert t5 + rest == info.latestVersion + (t6 + rest);
    var t4 := gaps.g2 + t5;
    assert t4 + rest == gaps.g2 + (t5 + rest);
    var t3 := info.installedVersion + t4;
    assert t3 + rest == info.installedVersion + (t4 + rest);
    var t2 := gaps.g1 + t3;
    assert t2 + rest == gaps.g1 + (t3 + rest);
    assert (info.core + t2) + rest == info.core + (t2 + rest);
  }

  /** A successful match: the groups, the gaps between them, and the rest of the line. */
  datatype CoreMatch = CoreMatch(info: CoreInfo, gaps: Gaps, rest: string)

  /** `[class]+` at the start of `s`: the longest non-empty run and what follows it. */
  function Munch(s: string, p: char -> bool): (r: Option<(string, string)>)
    ensures r.Some? ==> s == r.value.0 + r.value.1 && |r.value.0| > 0 && AllOf(p, r.value.0)
    ensures r.Some? ==> r.value.1 == [] || !p(r.value.1[0])
  {
    var n := Span(s, 0, p);
    if n == 0 then None
    else
      assert s == s[..n] + s[n..];
      Some((s[..n], s[n..]))
  }

  /** `Munch` finds a run that is there: `seg` of class `p` followed by a character out of it, or by nothing. */
  lemma MunchOver(seg: string, t: string, p: char -> bool)
    requires |seg| > 0 && AllOf(p, seg) && (t == [] || !p(t[0]))
    ensures Munch(seg + t, p) == Some((seg, t))
  {
    var s := seg + t;
    assert forall k | 0 <= k < |seg| :: s[k] == seg[k];
    SpanOver(s, 0, |seg|, p);
    assert s[..|seg|] == seg && s[|seg|..] == t;
  }

  /** ` +([class]+)`: a gap of spaces, the column after it, and what follows. */
  function Column(t: string, p: char -> bool): (r: Option<(string, string, string)>)
    ensures r.Some? ==> t == r.value.0 + (r.value.1 + r.value.2)
    ensures r.Some? ==> |r.value.0| > 0 && AllOf(IsSpace, r.value.0) && |r.value.1| > 0 && AllOf(p, r.value.1)
    ensures r.Some? ==> r.value.2 == [] || !p(r.value.2[0])
  {
    var gap :- Munch(t, IsSpace);
    var value :- Munch(gap.1, p);
    Some((gap.0, value.0, value.1))
  }

  /** The three columns after the ID: installed version, latest version, name, with their gaps. */
  function Columns(t: string): (r: Option<(Gaps, CoreInfo, string)>)
    ensures r.Some? ==> var (gaps, cols, rest) := r.value;
      t == gaps.g1 + (cols.installedVersion + (gaps.g2 + (cols.latestVersion + (gaps.g3 + (cols.coreName + rest)))))
    ensures r.Some? ==> var (gaps, cols, rest) := r.value;
      GoodGaps(gaps)
      && |cols.installedVersion| > 0 && AllOf(IsVersionChar, cols.installedVersion)
      && |cols.latestVersion| > 0 && AllOf(IsVersionChar, cols.latestVersion)
      && |cols.coreName| > 0 && AllOf(IsLowerAlnum, cols.coreName)
      && (rest == [] || !IsLowerAlnum(rest[0]))
  {
    var installed :- Column(t, IsVersionChar);
    var latest :- Column(installed.2, IsVersionChar);
    var name :- Column(latest.2, IsLowerAlnum);
    Some((Gaps(installed.0, latest.0, name.0), CoreInfo([], installed.1, latest.1, name.1), name.2))
  }

  /** `[a-z0-9]+:[a-z0-9]+` at the start of `t`: the core ID and what follows it. */
  function CoreIdAt(t: string): (r: Option<(string, string)>)
    ensures r.Some? ==> IsCoreId(r.value.0) && t == r.value.0 + r.value.1
  {
    var vendor :- Munch(t, IsLowerAlnum);
    if vendor.1 == [] || vendor.1[0] != ':' then None
    else
      var arch :- Munch(vendor.1[1..], IsLowerAlnum);
      CoreIdOf(vendor.0, arch.0, arch.1);
      assert vendor.1 == [':'] + vendor.1[1..];
      Some((vendor.0 + [':'] + arch.0, arch.1))
  }

  /**
   * The pattern at the start of `s`. A match is a well-formed record written
   * with its gaps, followed by a rest the name column cannot go on into.
   */
  function MatchCoreLine(s: string): (r: Option<CoreMatch>)
    ensures r.Some? ==> WellFormed(r.value.info) && GoodGaps(r.value.gaps)
    ensures r.Some? ==> s == Line(r.value.info, r.value.gaps, r.value.rest)
    ensures r.Some? ==> r.value.rest == [] || !IsLowerAlnum(r.value.rest[0])
  {
    var id :- CoreIdAt(s);
    var columns :- Columns(id.1);
    Some(CoreMatch(columns.1.(core := id.0), columns.0, columns.2))
  }

  /** The ID `x:y` of two runs `[a-z\d]+`, and the line it starts. */
  lemma CoreIdOf(x: string, y: string, t: string)
    requires |x| > 0 && |y| > 0 && AllOf(IsLowerAlnum, x) && AllOf(IsLowerAlnum, y)
    ensures var core := x + [':'] + y;
      IsCoreId(core) && IndexOf(core, ':') == |x| && core[..|x|] == x && core[|x| + 1..] == y
    ensures (x + [':'] + y) + t == x + ([':'] + (y + t))
  {
    var core := x + [':'] + y;
    assert forall k | 0 <= k < |x| :: core[k] == x[k] && core[k] != ':';
    assert core[|x|] == ':';
    assert core[..|x|] == x && core[|x| + 1..] == y;
  }

  /** The record of a line, if the pattern matches it. */
  function CoreLine(s: string): Option<CoreInfo> {
    match MatchCoreLine(s)
    case Some(m) => Some(m.info)
    case None => None
  }

  /**
   * A line that starts with a well-formed record written with gaps of
   * spaces, and goes on with a character the name column cannot take or
   * ends, matches as that record.
   */
  lemma MatchRoundTrip(info: CoreInfo, gaps: Gaps, rest: string)
    requires WellFormed(info) && GoodGaps(gaps)
    requires rest == [] || !IsLowerAlnum(rest[0])
    ensures MatchCoreLine(Line(info, gaps, rest)) == Some(CoreMatch(info, gaps, rest))
  {
    var core := info.core;
    var k := IndexOf(core, ':');
    var x := core[..k];
    var y := core[k + 1..];
    var t2 := gaps.g1 + (info.installedVersion + (gaps.g2 + (info.latestVersion + (gaps.g3 + (info.coreName + rest)))));
    assert core == x + [':'] + y;
    CoreIdOf(x, y, t2);
    MunchOver(x, [':'] + (y + t2), IsLowerAlnum);
    assert ([':'] + (y + t2))[1..] == y + t2;
    MunchOver(y, t2, IsLowerAlnum);
    assert CoreIdAt(core + t2) == Some((core, t2));
    ColumnsOver(info, gaps, rest);
  }

  /** The columns after the ID, written with gaps of spaces, are read back as written. */
  lemma ColumnsOver(info: CoreInfo, gaps: Gaps, rest: string)
    requires WellFormed(info) && GoodGaps(gaps)
    requires rest == [] || !IsLowerAlnum(rest[0])
    ensures var t := gaps.g1 + (info.installedVersion + (gaps.g2 + (info.latestVersion + (gaps.g3 + (info.coreName + rest)))));
      Columns(t) == Some((gaps, info.(core := []), rest))
  {
    var t6 := gaps.g3 + (info.coreName + rest);
    var t4 := gaps.g2 + (info.latestVersion + t6);
    ColumnOver(gaps.g1, info.installedVersion, t4, IsVersionChar);
    ColumnOver(gaps.g2, info.latestVersion, t6, IsVersionChar);
    ColumnOver(gaps.g3, info.coreName, rest, IsLowerAlnum);
  }

  /** A gap of spaces and a column of class `p` are read back as written. */
  lemma ColumnOver(gap: string, value: string, rest: string, p: char -> bool)
    requires |gap| > 0 && AllOf(IsSpace, gap) && |value| > 0 && AllOf(p, value) && !p(' ')
    requires rest == [] || !p(rest[0])
    ensures Column(gap + (value + rest), p) == Some((gap, value, rest))
  {
    MunchOver(value, rest, p);
    assert (value + rest)[0] == value[0];
    MunchOver(gap, value + rest, IsSpace);
  }

  /** Python's `str.rstrip()`: trailing whitespace cut off. */
  function Rstrip(s: string): (r: string)
    ensures r <= s && AllWhitespace(s[|r|..])
    ensures r == [] || !IsPyWhitespace(r[|r| - 1])
  {
    s[..RunStart(s, |s|, IsPyWhitespace)]
  }

  /** A row ends with the last character of the name, which is not whitespace. */
  lemma RowEndsOnName(info: CoreInfo, gaps: Gaps)
    requires WellFormed(info)
    ensures |Row(info, gaps)| > 0 && IsLowerAlnum(Row(info, gaps)[|Row(info, gaps)| - 1])
  {
    var cn := info.coreName;
    var t6 := gaps.g3 + (cn + []);
    assert t6[|t6| - 1] == cn[|cn| - 1];
    var t5 := info.latestVersion + t6;
    assert t5[|t5| - 1] == cn[|cn| - 1];
    var t4 := gaps.g2 + t5;
    assert t4[|t4| - 1] == cn[|cn| - 1];
    var t3 := info.installedVersion + t4;
    assert t3[|t3| - 1] == cn[|cn| - 1];
    var t2 := gaps.g1 + t3;
    assert t2[|t2| - 1] == cn[|cn| - 1];
    var r := Row(info, gaps);
    assert r[|r| - 1] == cn[|cn| - 1];
  }

  /** A line that does not end in whitespace has nothing to cut. */
  lemma RstripNothing(s: string)
    requires s == [] || !IsPyWhitespace(s[|s| - 1])
    ensures Rstrip(s) == s
  {
    assert RunStart(s, |s|, IsPyWhitespace) == |s|;
  }

  /** What one line of the table contributes: nothing for a blank line or one the pattern misses. */
  function CoreEntry(line: string): Option<CoreInfo> {
    if Strip(line) == [] then None else CoreLine(Rstrip(line))
  }

  /** The records of the lines after the header, in order. */
  function CoreInfos(lines: seq<string>): seq<CoreInfo> {
    if |lines| > 1 then Kept(CoreEntry, lines[1..]) else []
  }

  /** `get_installed_core_info`: no cores for a missing file. */
  function InstalledCores(fs: FileSystem, path: string): Result<seq<CoreInfo>, ReadError> {
    if !fs.Exists(path) then Success([])
    else if !fs.IsFile(path) then Failure(NotAFile(path))
    else Success(CoreInfos(fs.files[path]))
  }

  // ----- what the reader promises -----

  /** The header line is never read as a core, whatever it says. */
  lemma HeaderIgnored(header: string, other: string, rest: seq<string>)
    ensures CoreInfos([header] + rest) == CoreInfos([other] + rest)
  {
    assert ([header] + rest)[1..] == rest == ([other] + rest)[1..];
  }

  /** Every record read comes from a well-formed line, so all four columns have their forms. */
  lemma CoreInfosWellFormed(lines: seq<string>)
    ensures forall k | 0 <= k < |CoreInfos(lines)| :: WellFormed(CoreInfos(lines)[k])
  {
    if |lines| > 1 {
      KeptSatisfy(CoreEntry, lines[1..], WellFormed);
    }
  }

  /** There is at most one record per line after the header. */
  lemma CoreInfosBound(lines: seq<string>)
    ensures |CoreInfos(lines)| <= if lines == [] then 0 else |lines| - 1
  {
    if |lines| > 1 {
      KeptAtMostLines(CoreEntry, lines[1..]);
    }
  }

  /** The lines of a core list written from well-formed records read back as those records. */
  lemma CoreListRoundTrip(header: string, infos: seq<CoreInfo>, gaps: Gaps)
    requires GoodGaps(gaps) && forall k | 0 <= k < |infos| :: WellFormed(infos[k])
    ensures CoreInfos([header] + TableLines(infos, gaps)) == infos
  {
    var lines := TableLines(infos, gaps);
    forall k | 0 <= k < |infos|
      ensures CoreEntry(lines[k]) == Some(infos[k])
    {
      EntryOfRow(infos[k], gaps);
    }
    KeptAll(CoreEntry, lines, infos);
    assert ([header] + lines)[1..] == lines;
  }

  /** The table lines of the records, one per record. */
  function TableLines(infos: seq<CoreInfo>, gaps: Gaps): (lines: seq<string>)
    ensures |lines| == |infos| && forall k | 0 <= k < |infos| :: lines[k] == Row(infos[k], gaps)
  {
    seq(|infos|, k requires 0 <= k < |infos| => Row(infos[k], gaps))
  }

  /** The line of a well-formed record is one entry, that record. */
  lemma EntryOfRow(info: CoreInfo, gaps: Gaps)
    requires WellFormed(info) && GoodGaps(gaps)
    ensures CoreEntry(Row(info, gaps)) == Some(info)
  {
    MatchRoundTrip(info, gaps, []);
    RowEndsOnName(info, gaps);
    var line := Row(info, gaps);
    assert !IsPyWhitespace(line[|line| - 1]);
    EntryOfLine(line);
  }

  /** A line that ends in no whitespace is read as the record the pattern gives it. */
  lemma EntryOfLine(line: string)
    requires |line| > 0 && !IsPyWhitespace(line[|line| - 1])
    ensures CoreEntry(line) == CoreLine(line)
  {
    NotBlank(line);
    RstripNothing(line);
  }

  /** A line whose last character is not whitespace is not blank. */
  lemma NotBlank(line: string)
    requires |line| > 0 && !IsPyWhitespace(line[|line| - 1])
    ensures Strip(line) != []
  {
    assert !AllWhitespace(line);
  }

  // ----- the reader, as the script runs it -----

  /** The loop of `get_installed_core_info` over the enumerated lines. */
  method ReadCoreInfos(lines: seq<string>) returns (cores: seq<CoreInfo>)
    ensures cores == CoreInfos(lines)
  {
    cores := [];
    if |lines| > 1 {
      ghost var body := lines[1..];
      for index := 0 to |lines|
        invariant cores == if index == 0 then [] else Kept(CoreEntry, body[..index - 1])
      {
        var line := lines[index];
        if index > 0 {
          var entry := ReadLine(line);
          KeptStep(CoreEntry, body, index - 1, entry);
          if entry.Some? {
            cores := cores + [entry.value];
          }
        }
      }
      assert body[..|lines| - 1] == body;
    }
  }

  /** One line after the header: skipped when blank, else matched once trailing whitespace is cut. */
  method ReadLine(line: string) returns (entry: Option<CoreInfo>)
    ensures entry == CoreEntry(line)
  {
    entry := None;
    if Strip(line) != [] {
      var matches := MatchCoreLine(Rstrip(line));
      if matches.Some? {
        entry := Some(matches.value.info);
      }
    }
  }

  /** `get_installed_core_info` itself. */
  method GetInstalledCoreInfo(fs: FileSystem, path: string) returns (r: Result<seq<CoreInfo>, ReadError>)
    ensures r == InstalledCores(fs, path)
  {
    if !fs.Exists(path) {
      return Success([]);
    }
    if !fs.IsFile(path) {
      return Failure(NotAFile(path));
    }
    var cores := ReadCoreInfos(fs.files[path]);
    return Success(cores);
  }
}
