/**
 * The partition scheme scanner (pyScripts/helper/collecting_partition_data.py).
 * For core "esp32" it reads three kinds of boards.txt lines for the current
 * board:
 *   <id>.build.partitions=<default>                  the default scheme
 *   <id>.menu.PartitionScheme.<key>=<full name>      a scheme declaration
 *   <id>.menu.PartitionScheme.<key>.build.partitions=<build>
 * and a check pass afterwards drops boards without a usable partition and
 * schemes without a build. A dict lookup of a missing board or scheme raises
 * KeyError; the model returns that error.
 */
module CollectingPartitions {
  import opened Wrappers
  import opened Text
  import opened Files
  import opened PartitionRecords

  const PartitionsKey := ".build.partitions="
  const SchemeKey := ".menu.PartitionScheme."

  /** The scanner's state as a value: current board, active scheme key, records. */
  datatype Collector = Collector(boardId: string, partitionName: string, parts: map<string, Partition>)

  /** Python's KeyError for the dict key that was looked up. */
  datatype KeyError = KeyError(key: string)

  const InitialCollector := Collector("", "", map[])

  // ----- line patterns -----

  /** `<id>\.build\.partitions=(.+)`: the default scheme. */
  function DefaultMatch(boardId: string, line: string): Option<string> {
    After(line, boardId + PartitionsKey)
  }

  /** `([^\.]+)=(.+)` splits `s` at `q`: a key free of '.', '=', and a non-empty rest. */
  predicate KeySplitAt(s: string, q: nat) {
    1 <= q && q + 1 < |s| && s[q] == '=' && '.' !in s[..q]
  }

  /**
   * `([^\.]+)=(.+)` matched at the start of `s`. The greedy key backtracks to
   * the last '=' that still leaves a non-empty rest, so the key may itself
   * contain '='.
   */
  function KeyValue(s: string): (r: Option<(string, string)>)
    ensures r.None? <==> forall q: nat | q < |s| :: !KeySplitAt(s, q)
    ensures r.Some? ==> s == r.value.0 + "=" + r.value.1 && KeySplitAt(s, |r.value.0|)
    ensures r.Some? ==> forall q: nat | |r.value.0| < q < |s| :: !KeySplitAt(s, q)
  {
    var m := (q: nat) => KeySplitAt(s, q);
    match RightmostAt(m, |s| - 2)
    case None =>
      assert forall q: nat | q < |s| :: !KeySplitAt(s, q) by {
        forall q: nat | q < |s| ensures !KeySplitAt(s, q) {
          assert !m(q);
        }
      }
      None
    case Some(q) =>
      assert forall p: nat | q < p < |s| :: !KeySplitAt(s, p) by {
        forall p: nat | q < p < |s| ensures !KeySplitAt(s, p) {
          assert !m(p);
        }
      }
      assert s == s[..q] + "=" + s[q + 1..];
      Some((s[..q], s[q + 1..]))
  }

  /** `<id>\.menu\.PartitionScheme\.([^\.]+)=(.+)`: a scheme key and its full name. */
  function SchemeMatch(boardId: string, line: string): Option<(string, string)> {
    var prefix := boardId + SchemeKey;
    if prefix <= line then KeyValue(line[|prefix|..]) else None
  }

  /** `<id>\.menu\.PartitionScheme\.<key>\.build\.partitions=(.+)`: the build of scheme `key`. */
  function BuildMatch(boardId: string, key: string, line: string): Option<string> {
    After(line, boardId + SchemeKey + key + PartitionsKey)
  }

  // ----- one line, step by step -----

  /** `add_partition`: the board becomes current and gets a fresh record. */
  function AddPartitionStep(c: Collector, boardName: string): Collector {
    c.(boardId := boardName, parts := c.parts[boardName := EmptyPartition])
  }

  /** `__get_default_partition`. */
  function DefaultStep(c: Collector, line: string): Result<Collector, KeyError> {
    match DefaultMatch(c.boardId, line)
    case None => Success(c)
    case Some(v) =>
      if c.boardId !in c.parts then Failure(KeyError(c.boardId))
      else Success(c.(parts := c.parts[c.boardId := c.parts[c.boardId].(default := v)]))
  }

  /** `__get_partition_name`: a fresh scheme replaces any scheme under the same key. */
  function NameStep(c: Collector, line: string): Result<Collector, KeyError> {
    match SchemeMatch(c.boardId, line)
    case None => Success(c)
    case Some((key, full)) =>
      if c.boardId !in c.parts then Failure(KeyError(c.boardId))
      else
        var p := c.parts[c.boardId];
        Success(c.(parts := c.parts[c.boardId := p.(schemes := p.schemes[key := Scheme(full, "")])],
                   partitionName := key))
  }

  /** `__get_partition_build`: only an empty build is set, so the first build line wins. */
  function BuildStep(c: Collector, line: string): Result<Collector, KeyError> {
    match BuildMatch(c.boardId, c.partitionName, line)
    case None => Success(c)
    case Some(v) =>
      if c.boardId !in c.parts then Failure(KeyError(c.boardId))
      else
        var p := c.parts[c.boardId];
        if c.partitionName !in p.schemes then Failure(KeyError(c.partitionName))
        else if p.schemes[c.partitionName].build != "" then Success(c)
        else
          var s := p.schemes[c.partitionName];
          Success(c.(parts := c.parts[c.boardId := p.(schemes := p.schemes[c.partitionName := s.(build := v)])]))
  }

  /** `collect_partition_data`: the three steps in order for "esp32", nothing for other cores. */
  function CollectLine(coreName: string, c: Collector, line: string): Result<Collector, KeyError> {
    if coreName != "esp32" then Success(c)
    else
      var c1 :- DefaultStep(c, line);
      var c2 :- NameStep(c1, line);
      BuildStep(c2, line)
  }

  /** The scanner fed a run of lines of one board (no `add_partition` in between). */
  function CollectLines(coreName: string, c: Collector, lines: seq<string>): Result<Collector, KeyError>
    decreases |lines|
  {
    if lines == [] then Success(c)
    else
      var c1 :- CollectLine(coreName, c, lines[0]);
      CollectLines(coreName, c1, lines[1..])
  }

  /** The default a run of lines leaves for `boardId`: the value of the last default line, if any. */
  function LastDefault(boardId: string, lines: seq<string>, default: string): string
    decreases |lines|
  {
    if lines == [] then default
    else
      match DefaultMatch(boardId, lines[|lines| - 1])
      case Some(v) => v
      case None => LastDefault(boardId, lines[..|lines| - 1], default)
  }

  // ----- the check pass -----

  /** `__partition_scheme_exists`: the scheme's CSV under the core's partitions directory. */
  function SchemeCsvPath(corePath: string, name: string): string {
    corePath + "/tools/partitions/" + name + ".csv"
  }

  /** A record without schemes whose default is empty or has no CSV: the board is removed. */
  predicate WithoutPartition(corePath: string, fs: FileSystem, p: Partition) {
    |p.schemes| == 0 && (p.default == "" || !fs.Exists(SchemeCsvPath(corePath, p.default)))
  }

  /** The record with every scheme lacking a build deleted. */
  function WithBuild(p: Partition): Partition {
    p.(schemes := map k | k in p.schemes && p.schemes[k].build != "" :: p.schemes[k])
  }

  /** `__check_esp32_partitions` on the records. */
  function Checked(corePath: string, fs: FileSystem, parts: map<string, Partition>): (r: map<string, Partition>)
    ensures forall b | b in parts && |parts[b].schemes| > 0 :: b in r
    ensures forall b | b in parts ::
      b !in r <==> |parts[b].schemes| == 0 && (parts[b].default == "" || !fs.Exists(SchemeCsvPath(corePath, parts[b].default)))
    ensures forall b | b in r :: b in parts && r[b].default == parts[b].default
    ensures forall b, k | b in r && k in r[b].schemes ::
      r[b].schemes[k].build != "" && k in parts[b].schemes && r[b].schemes[k] == parts[b].schemes[k]
    ensures forall b, k | b in r && k in parts[b].schemes && parts[b].schemes[k].build != "" :: k in r[b].schemes
  {
    map b | b in parts && !WithoutPartition(corePath, fs, parts[b]) :: WithBuild(parts[b])
  }

  /** `check_partitions`: the check pass runs for "esp32" only. */
  function CheckStep(coreName: string, corePath: string, fs: FileSystem, c: Collector): Collector {
    if coreName == "esp32" then c.(parts := Checked(corePath, fs, c.parts)) else c
  }

  // ----- properties -----

  /** A default line and a build line never match the same line: ".b" against ".m" after the id. */
  lemma DefaultExcludesBuild(boardId: string, key: string, line: string)
    ensures !(DefaultMatch(boardId, line).Some? && BuildMatch(boardId, key, line).Some?)
  {
    if DefaultMatch(boardId, line).Some? {
      var i := |boardId| + 1;
      assert line[i] == (boardId + PartitionsKey)[i] == 'b';
      assert (boardId + SchemeKey + key + PartitionsKey)[i] == 'm';
    }
  }

  /**
   * When `collect_partition_data` raises KeyError. Before any board is current
   * every matching line raises; afterwards only a build line for a scheme key
   * the board does not have does.
   */
  lemma CollectLineFails(c: Collector, line: string)
    ensures CollectLine("esp32", c, line).Failure? <==>
      if c.boardId !in c.parts then
        DefaultMatch(c.boardId, line).Some? || SchemeMatch(c.boardId, line).Some?
        || BuildMatch(c.boardId, c.partitionName, line).Some?
      else
        SchemeMatch(c.boardId, line).None? && BuildMatch(c.boardId, c.partitionName, line).Some?
        && c.partitionName !in c.parts[c.boardId].schemes
  {
    DefaultExcludesBuild(c.boardId, c.partitionName, line);
  }

  /**
   * A failing line leaves nothing half done: each step that can raise runs
   * only after the earlier steps matched nothing.
   */
  lemma FailureAfterNoChange(c: Collector, line: string)
    requires DefaultStep(c, line).Success?
    requires NameStep(DefaultStep(c, line).value, line).Success?
    requires BuildStep(NameStep(DefaultStep(c, line).value, line).value, line).Failure?
    ensures NameStep(DefaultStep(c, line).value, line).value == c
  {
    DefaultExcludesBuild(c.boardId, c.partitionName, line);
  }

  /**
   * The first build line wins: a scheme that has a build keeps it through any
   * line except a new declaration of the same key on the same board.
   */
  lemma BuildFirstWins(c: Collector, line: string, b: string, k: string)
    requires b in c.parts && k in c.parts[b].schemes && c.parts[b].schemes[k].build != ""
    requires CollectLine("esp32", c, line).Success?
    requires !(b == c.boardId && SchemeMatch(c.boardId, line).Some? && SchemeMatch(c.boardId, line).value.0 == k)
    ensures var c' := CollectLine("esp32", c, line).value;
      b in c'.parts && k in c'.parts[b].schemes && c'.parts[b].schemes[k].build == c.parts[b].schemes[k].build
  {
    var c1 := DefaultStep(c, line).value;
    assert b in c1.parts && c1.parts[b].schemes == c.parts[b].schemes;
    var c2 := NameStep(c1, line).value;
    assert b in c2.parts && k in c2.parts[b].schemes && c2.parts[b].schemes[k] == c.parts[b].schemes[k];
  }

  /**
   * Over a run of lines of the current board the last default line wins, and
   * the board stays current and recorded.
   */
  lemma {:induction false} DefaultLastWins(c: Collector, lines: seq<string>)
    requires c.boardId in c.parts
    requires CollectLines("esp32", c, lines).Success?
    ensures var c' := CollectLines("esp32", c, lines).value;
      c'.boardId == c.boardId && c.boardId in c'.parts
      && c'.parts[c.boardId].default == LastDefault(c.boardId, lines, c.parts[c.boardId].default)
    decreases |lines|
  {
    if lines != [] {
      var c1 := CollectLine("esp32", c, lines[0]).value;
      DefaultLastWins(c1, lines[1..]);
      LastDefaultSplit(c.boardId, lines, c.parts[c.boardId].default);
      DefaultExcludesBuild(c.boardId, c.partitionName, lines[0]);
    }
  }

  /** `LastDefault` read from the front: the first line sets the starting default of the rest. */
  lemma {:induction false} LastDefaultSplit(boardId: string, lines: seq<string>, default: string)
    requires lines != []
    ensures LastDefault(boardId, lines, default)
      == LastDefault(boardId, lines[1..], DefaultMatch(boardId, lines[0]).GetOr(default))
    decreases |lines|
  {
    if |lines| > 1 {
      var init := lines[..|lines| - 1];
      assert init[1..] == lines[1..][..|lines[1..]| - 1];
      assert init[0] == lines[0];
      LastDefaultSplit(boardId, init, default);
    }
  }

  /** The check pass never leaves a scheme without a build, and never touches other cores. */
  lemma CheckLeavesBuilds(coreName: string, corePath: string, fs: FileSystem, c: Collector)
    ensures var c' := CheckStep(coreName, corePath, fs, c);
      coreName == "esp32" ==> forall b, k | b in c'.parts && k in c'.parts[b].schemes :: c'.parts[b].schemes[k].build != ""
    ensures coreName != "esp32" ==> CheckStep(coreName, corePath, fs, c) == c
  {
  }

  // ----- the scanner object -----

  /** Deletes the schemes of `p` whose build is empty (the inner loops of the check pass). */
  method DropSchemesWithoutBuild(p: PartitionData)
    modifies p
    ensures p.Value() == WithBuild(old(p.Value()))
    ensures p.owner == old(p.owner)
  {
    var withoutBuild: set<string> := {};
    var keys := p.schemes.Keys;
    while keys != {}
      invariant keys <= p.schemes.Keys
      invariant withoutBuild == set k | k in p.schemes && k !in keys && p.schemes[k].build == ""
      decreases keys
    {
      var k :| k in keys;
      if p.schemes[k].build == "" {
        withoutBuild := withoutBuild + {k};
      }
      keys := keys - {k};
    }
    ghost var all := p.schemes;
    var doomed := withoutBuild;
    while doomed != {}
      invariant doomed <= withoutBuild
      invariant p.schemes == map k | k in all && k !in withoutBuild - doomed :: all[k]
      invariant p.default == old(p.default) && p.owner == old(p.owner)
      decreases doomed
    {
      var k :| k in doomed;
      p.schemes := p.schemes - {k};
      doomed := doomed - {k};
    }
  }

  class CollectingPartitionData {
    const coreName: string
    const corePath: string
    var boardId: string
    var partitionName: string
    const partitionList: PartitionList
    /** The records as values. */
    ghost var contents: map<string, Partition>

    /** `contents` mirrors the records, and each record object is stored under one board only. */
    ghost predicate Valid()
      reads this, partitionList, partitionList.parts.Values
    {
      (forall b :: b in partitionList.parts <==> b in contents)
      && forall b | b in partitionList.parts ::
           partitionList.parts[b].owner == b && partitionList.parts[b].Value() == contents[b]
    }

    ghost function State(): Collector
      reads this
    {
      Collector(boardId, partitionName, contents)
    }

    constructor (coreName: string, corePath: string)
      ensures this.coreName == coreName && this.corePath == corePath
      ensures Valid() && State() == InitialCollector
      ensures fresh(partitionList) && partitionList.parts == map[]
    {
      this.coreName, this.corePath := coreName, corePath;
      boardId, partitionName := "", "";
      partitionList := new PartitionList();
      contents := map[];
    }

    /** `add_partition`. */
    method AddPartition(boardName: string)
      requires Valid()
      modifies this, partitionList
      ensures Valid()
      ensures State() == AddPartitionStep(old(State()), boardName)
      ensures boardName in partitionList.parts && fresh(partitionList.parts[boardName])
      ensures partitionList.parts == old(partitionList.parts)[boardName := partitionList.parts[boardName]]
    {
      boardId := boardName;
      var p := new PartitionData();
      p.owner := boardName;
      partitionList.AddPartition(boardName, p);
      contents := contents[boardName := EmptyPartition];
    }

    /** `collect_partition_data`; a raised KeyError leaves the state as it was. */
    method CollectPartitionData(line: string) returns (error: Option<KeyError>)
      requires Valid()
      modifies this, partitionList.parts.Values
      ensures Valid()
      ensures match CollectLine(coreName, old(State()), line)
        case Success(c) => error.None? && State() == c
        case Failure(e) => error == Some(e) && State() == old(State())
    {
      error := None;
      if coreName == "esp32" {
        ghost var c0 := State();
        error := GetDefaultPartition(line);
        if error.None? {
          error := GetPartitionName(line);
          if error.None? {
            error := GetPartitionBuild(line);
            if error.Some? {
              FailureAfterNoChange(c0, line);
            }
          }
        }
      }
    }

    /** `__get_default_partition`. */
    method GetDefaultPartition(line: string) returns (error: Option<KeyError>)
      requires Valid()
      modifies this, partitionList.parts.Values
      ensures Valid()
      ensures match DefaultStep(old(State()), line)
        case Success(c) => error.None? && State() == c
        case Failure(e) => error == Some(e) && State() == old(State())
    {
      var m := DefaultMatch(boardId, line);
      if m.Some? {
        if boardId !in partitionList.parts {
          return Some(KeyError(boardId));
        }
        var p := partitionList.parts[boardId];
        p.SetDefault(m.value);
        contents := contents[boardId := contents[boardId].(default := m.value)];
      }
      return None;
    }

    /** `__get_partition_name`. */
    method GetPartitionName(line: string) returns (error: Option<KeyError>)
      requires Valid()
      modifies this, partitionList.parts.Values
      ensures Valid()
      ensures match NameStep(old(State()), line)
        case Success(c) => error.None? && State() == c
        case Failure(e) => error == Some(e) && State() == old(State())
    {
      var m := SchemeMatch(boardId, line);
      if m.Some? {
        var (key, full) := m.value;
        var scheme := Scheme(full, "");
        if boardId !in partitionList.parts {
          return Some(KeyError(boardId));
        }
        var p := partitionList.parts[boardId];
        p.AddScheme(key, scheme);
        contents := contents[boardId := contents[boardId].(schemes := contents[boardId].schemes[key := scheme])];
        partitionName := key;
      }
      return None;
    }

    /** `__get_partition_build`. */
    method GetPartitionBuild(line: string) returns (error: Option<KeyError>)
      requires Valid()
      modifies this, partitionList.parts.Values
      ensures Valid()
      ensures match BuildStep(old(State()), line)
        case Success(c) => error.None? && State() == c
        case Failure(e) => error == Some(e) && State() == old(State())
    {
      var m := BuildMatch(boardId, partitionName, line);
      if m.Some? {
        if boardId !in partitionList.parts {
          return Some(KeyError(boardId));
        }
        var p := partitionList.parts[boardId];
        if partitionName !in p.schemes {
          return Some(KeyError(partitionName));
        }
        if p.schemes[partitionName].build == "" {
          var s := p.schemes[partitionName].(build := m.value);
          p.schemes := p.schemes[partitionName := s];
          contents := contents[boardId := p.Value()];
        }
        // otherwise a warning is logged and the first build stays
      }
      return None;
    }

    /** What `get_partitions_data` hands out: the records' values are `contents`. */
    lemma RecordsAreContents()
      requires Valid()
      ensures partitionList.Value() == contents
    {
    }

    /** `check_partitions`. */
    method CheckPartitions(fs: FileSystem)
      requires Valid()
      modifies this, partitionList, partitionList.parts.Values
      ensures Valid()
      ensures State() == CheckStep(coreName, corePath, fs, old(State()))
    {
      if coreName == "esp32" {
        CheckEsp32Partitions(fs);
      }
      assert State() == CheckStep(coreName, corePath, fs, old(State()));
    }

    /** `__check_esp32_partitions`: flag boards in one pass, then delete them. */
    method CheckEsp32Partitions(fs: FileSystem)
      requires Valid()
      modifies this, partitionList, partitionList.parts.Values
      ensures Valid()
      ensures boardId == old(boardId) && partitionName == old(partitionName)
      ensures contents == Checked(corePath, fs, old(contents))
    {
      ghost var before := contents;
      var boardsWithoutPartition: set<string> := {};
      var todo := partitionList.parts.Keys;
      while todo != {}
        invariant Valid()
        invariant partitionList.parts == old(partitionList.parts)
        invariant boardId == old(boardId) && partitionName == old(partitionName)
        invariant todo <= before.Keys
        invariant contents == PrunedExcept(before, todo)
        invariant boardsWithoutPartition == FlaggedExcept(corePath, fs, before, todo)
        decreases todo
      {
        var b :| b in todo;
        var remove := CheckBoard(b, fs);
        if remove {
          boardsWithoutPartition := boardsWithoutPartition + {b};
        }
        CheckStepDone(corePath, fs, before, todo, b);
        todo := todo - {b};
      }
      ghost var pruned := contents;
      RemoveBoards(boardsWithoutPartition);
      CheckedByRemoval(corePath, fs, before, pruned, boardsWithoutPartition);
    }

    /** The deletion loop of the check pass: `del` each flagged board. */
    method RemoveBoards(boards: set<string>)
      requires Valid()
      modifies this, partitionList
      ensures Valid()
      ensures boardId == old(boardId) && partitionName == old(partitionName)
      ensures contents == old(contents) - boards
    {
      var doomed := boards;
      ghost var removed: set<string> := {};
      while doomed != {}
        invariant Valid()
        invariant boardId == old(boardId) && partitionName == old(partitionName)
        invariant doomed + removed == boards
        invariant contents == old(contents) - removed
        decreases doomed
      {
        var b :| b in doomed;
        RemoveBoard(b);
        RemoveStep(old(contents), removed, b);
        doomed := doomed - {b};
        removed := removed + {b};
      }
    }

    /** `del self.partition_list[board_name]`. */
    method RemoveBoard(b: string)
      requires Valid()
      modifies this, partitionList
      ensures Valid()
      ensures boardId == old(boardId) && partitionName == old(partitionName)
      ensures contents == old(contents) - {b}
    {
      partitionList.parts := partitionList.parts - {b};
      contents := contents - {b};
    }

    /**
     * One board of the check pass: a record without schemes is flagged when
     * its default is empty or has no CSV; a record with schemes loses those
     * without a build.
     */
    method CheckBoard(b: string, fs: FileSystem) returns (remove: bool)
      requires Valid() && b in partitionList.parts
      modifies this, partitionList.parts[b]
      ensures Valid()
      ensures boardId == old(boardId) && partitionName == old(partitionName)
      ensures partitionList.parts == old(partitionList.parts)
      ensures contents == old(contents)[b := WithBuild(old(contents)[b])]
      ensures remove == WithoutPartition(corePath, fs, old(contents)[b])
    {
      var p := partitionList.parts[b];
      remove := false;
      if |p.schemes| == 0 {
        assert WithBuild(contents[b]) == contents[b];
        if p.default == "" {
          remove := true;
        } else if !fs.Exists(SchemeCsvPath(corePath, p.default)) {
          remove := true;
        }
        // otherwise only the default scheme exists: a warning is logged
      } else {
        DropSchemesWithoutBuild(p);
        contents := contents[b := p.Value()];
      }
    }
  }

  /** The records once every board outside `todo` has been pruned. */
  ghost function PrunedExcept(before: map<string, Partition>, todo: set<string>): map<string, Partition> {
    map b | b in before :: if b in todo then before[b] else WithBuild(before[b])
  }

  /** The boards outside `todo` that have no usable partition. */
  ghost function FlaggedExcept(corePath: string, fs: FileSystem, before: map<string, Partition>, todo: set<string>): set<string> {
    set b | b in before && b !in todo && WithoutPartition(corePath, fs, before[b])
  }

  /** Checking board `b` moves it out of `todo`. */
  lemma CheckStepDone(corePath: string, fs: FileSystem, before: map<string, Partition>, todo: set<string>, b: string)
    requires b in todo && todo <= before.Keys
    ensures PrunedExcept(before, todo)[b := WithBuild(before[b])] == PrunedExcept(before, todo - {b})
    ensures WithoutPartition(corePath, fs, before[b]) ==>
      FlaggedExcept(corePath, fs, before, todo - {b}) == FlaggedExcept(corePath, fs, before, todo) + {b}
    ensures !WithoutPartition(corePath, fs, before[b]) ==>
      FlaggedExcept(corePath, fs, before, todo - {b}) == FlaggedExcept(corePath, fs, before, todo)
  {
  }

  /** Deleting one more board from a map. */
  lemma RemoveStep<V>(m: map<string, V>, removed: set<string>, b: string)
    ensures (m - removed) - {b} == m - (removed + {b})
  {
  }

  /** Pruning every record and then deleting the flagged boards is the check pass. */
  lemma CheckedByRemoval(corePath: string, fs: FileSystem, before: map<string, Partition>,
                         pruned: map<string, Partition>, flagged: set<string>)
    requires pruned == PrunedExcept(before, {})
    requires flagged == FlaggedExcept(corePath, fs, before, {})
    ensures pruned - flagged == Checked(corePath, fs, before)
  {
  }
}
