/**
 * The partition page of the web app
 * (web-app/src/app/esp32-partition-overview/esp32-partition-overview.component.ts):
 * choosing a board shows its default partition scheme (or its first one),
 * choosing a scheme shows that scheme's partition table.
 *
 * JSON objects are association lists in key order, which is the order
 * `Object.keys` and `Object.values` list them in. A property access that
 * throws a `TypeError` ends the handler: the handler reports it, and the
 * fields it assigned before the throw keep their new values.
 */
module PartitionOverview {
  import opened Wrappers
  import opened PartitionCsv

  /** A scheme of a board, as the board data lists it. */
  datatype SchemeInfo = SchemeInfo(fullName: string, build: string)

  /** A board's partition data: its default scheme and, if the data has them, its schemes by key. */
  datatype BoardPartitions = BoardPartitions(default: string, schemes: Option<seq<(string, SchemeInfo)>>)

  /** `object[key]`: the value under `key`, or `undefined`. */
  function Lookup<V>(entries: seq<(string, V)>, key: string): (r: Option<V>)
    ensures r.Some? <==> exists k | 0 <= k < |entries| :: entries[k].0 == key
    ensures r.Some? ==> exists k | 0 <= k < |entries| :: entries[k] == (key, r.value)
  {
    if entries == [] then None
    else if entries[0].0 == key then Some(entries[0].1)
    else
      var r := Lookup(entries[1..], key);
      assert forall k | 1 <= k < |entries| :: entries[k] == entries[1..][k - 1];
      r
  }

  /** `Object.keys(object)`. */
  function Keys<V>(entries: seq<(string, V)>): (keys: seq<string>)
    ensures |keys| == |entries| && forall k | 0 <= k < |entries| :: keys[k] == entries[k].0
  {
    seq(|entries|, k requires 0 <= k < |entries| => entries[k].0)
  }

  /** `defaultSchemes[build] || []`: the partition table of a build, or none. */
  function EntriesOf(defaultSchemes: map<string, seq<PartitionRow>>, build: string): seq<PartitionRow> {
    if build in defaultSchemes then defaultSchemes[build] else []
  }

  /** The fields the handlers assign. */
  datatype View = View(schemes: seq<string>, selectedScheme: string, selectedSchemeEntry: seq<PartitionRow>, dataSource: seq<PartitionRow>)

  /** The schemes offered, the scheme selected, and its table shown. */
  function Shown(defaultSchemes: map<string, seq<PartitionRow>>, schemes: seq<string>, selected: string): View {
    View(schemes, selected, EntriesOf(defaultSchemes, selected), EntriesOf(defaultSchemes, selected))
  }

  /**
   * `onBoardChange(event)`: the new fields and whether it threw. A board
   * without schemes offers its default; otherwise its scheme keys are
   * offered and the build of the default key is selected, or of the first
   * scheme when the default is not a key. An unknown board, or an empty
   * scheme list without the default key, throws.
   */
  function BoardChanged(data: seq<(string, BoardPartitions)>, defaultSchemes: map<string, seq<PartitionRow>>, v: View, event: string): (View, bool) {
    match Lookup(data, event)
    case None => (v, true)
    case Some(board) =>
      match board.schemes
      case None => (Shown(defaultSchemes, [board.default], board.default), false)
      case Some(entries) =>
        match Lookup(entries, board.default)
        case Some(scheme) => (Shown(defaultSchemes, Keys(entries), scheme.build), false)
        case None =>
          if entries == [] then (v.(schemes := []), true)
          else (Shown(defaultSchemes, Keys(entries), entries[0].1.build), false)
  }

  /**
   * `onSchemeChange(event)` with `selectedBoard` as the board: the table of
   * the build of scheme `event`, or nothing when the board has no schemes or
   * no scheme `event`. An unknown board throws.
   */
  function SchemeChanged(data: seq<(string, BoardPartitions)>, defaultSchemes: map<string, seq<PartitionRow>>, v: View, selectedBoard: string, event: string): (View, bool) {
    match Lookup(data, selectedBoard)
    case None => (v, true)
    case Some(board) =>
      var scheme := if board.schemes.Some? then Lookup(board.schemes.value, event) else None;
      var entry := if scheme.Some? then EntriesOf(defaultSchemes, scheme.value.build) else [];
      (v.(selectedSchemeEntry := entry, dataSource := entry), false)
  }

  // ----- what the handlers promise -----

  /** A board without schemes offers and selects its default. */
  lemma NoSchemesSelectsDefault(data: seq<(string, BoardPartitions)>, defaultSchemes: map<string, seq<PartitionRow>>, v: View, event: string, board: BoardPartitions)
    requires Lookup(data, event) == Some(board) && board.schemes.None?
    ensures var (w, thrown) := BoardChanged(data, defaultSchemes, v, event);
      !thrown && w.schemes == [board.default] && w.selectedScheme == board.default
  {
  }

  /** With schemes that include the default key, that scheme's build is selected and every key offered. */
  lemma DefaultKeySelected(data: seq<(string, BoardPartitions)>, defaultSchemes: map<string, seq<PartitionRow>>, v: View, event: string, board: BoardPartitions, scheme: SchemeInfo)
    requires Lookup(data, event) == Some(board) && board.schemes.Some?
    requires Lookup(board.schemes.value, board.default) == Some(scheme)
    ensures var (w, thrown) := BoardChanged(data, defaultSchemes, v, event);
      !thrown && w.selectedScheme == scheme.build && w.schemes == Keys(board.schemes.value)
  {
  }

  /** Without the default key the first scheme's build is selected; with no schemes at all the handler throws. */
  lemma FirstSchemeFallback(data: seq<(string, BoardPartitions)>, defaultSchemes: map<string, seq<PartitionRow>>, v: View, event: string, board: BoardPartitions)
    requires Lookup(data, event) == Some(board) && board.schemes.Some?
    requires forall k | 0 <= k < |board.schemes.value| :: board.schemes.value[k].0 != board.default
    ensures var (w, thrown) := BoardChanged(data, defaultSchemes, v, event);
      if board.schemes.value == [] then thrown && w == v.(schemes := [])
      else !thrown && w.selectedScheme == board.schemes.value[0].1.build
  {
  }

  /**
   * Whenever `onBoardChange` completes, the scheme selected is the default
   * or the build of one of the board's schemes, and the table shown is the
   * selected build's (or none).
   */
  lemma BoardChangeShowsSelection(data: seq<(string, BoardPartitions)>, defaultSchemes: map<string, seq<PartitionRow>>, v: View, event: string)
    ensures var (w, thrown) := BoardChanged(data, defaultSchemes, v, event);
      !thrown ==>
        (exists k | 0 <= k < |data| :: data[k].0 == event
          && (w.selectedScheme == data[k].1.default
              || (data[k].1.schemes.Some? && exists j | 0 <= j < |data[k].1.schemes.value| :: data[k].1.schemes.value[j].1.build == w.selectedScheme)))
        && w.selectedSchemeEntry == w.dataSource == EntriesOf(defaultSchemes, w.selectedScheme)
  {
    var (w, thrown) := BoardChanged(data, defaultSchemes, v, event);
    var board := Lookup(data, event);
    if board.Some? {
      var k :| 0 <= k < |data| && data[k] == (event, board.value);
      var b := board.value;
      if b.schemes.Some? && Lookup(b.schemes.value, b.default).Some? {
        var s := Lookup(b.schemes.value, b.default).value;
        var j :| 0 <= j < |b.schemes.value| && b.schemes.value[j] == (b.default, s);
        assert b.schemes.value[j].1.build == w.selectedScheme;
      } else if b.schemes.Some? && b.schemes.value != [] {
        assert b.schemes.value[0].1.build == w.selectedScheme;
      }
    }
  }

  /** An unknown board throws before anything is assigned. */
  lemma UnknownBoardThrows(data: seq<(string, BoardPartitions)>, defaultSchemes: map<string, seq<PartitionRow>>, v: View, event: string)
    requires forall k | 0 <= k < |data| :: data[k].0 != event
    ensures BoardChanged(data, defaultSchemes, v, event) == (v, true)
    ensures forall b :: SchemeChanged(data, defaultSchemes, v, event, b) == (v, true)
  {
  }

  /** A scheme key the selected board does not have, or a board without schemes, shows no table. */
  lemma UnknownSchemeShowsNothing(data: seq<(string, BoardPartitions)>, defaultSchemes: map<string, seq<PartitionRow>>, v: View, selectedBoard: string, event: string, board: BoardPartitions)
    requires Lookup(data, selectedBoard) == Some(board)
    requires board.schemes.None? || forall k | 0 <= k < |board.schemes.value| :: board.schemes.value[k].0 != event
    ensures SchemeChanged(data, defaultSchemes, v, selectedBoard, event) == (v.(selectedSchemeEntry := [], dataSource := []), false)
  {
  }

  /**
   * The two handlers agree: after `onBoardChange` on the selected board,
   * choosing its default key shows the table `onBoardChange` showed.
   */
  lemma HandlersAgree(data: seq<(string, BoardPartitions)>, defaultSchemes: map<string, seq<PartitionRow>>, v: View, selectedBoard: string, board: BoardPartitions)
    requires Lookup(data, selectedBoard) == Some(board) && board.schemes.Some?
    requires exists k | 0 <= k < |board.schemes.value| :: board.schemes.value[k].0 == board.default
    ensures var (w, _) := BoardChanged(data, defaultSchemes, v, selectedBoard);
      var (u, thrown) := SchemeChanged(data, defaultSchemes, w, selectedBoard, board.default);
      !thrown && u == w
  {
  }

  // ----- the component -----

  class Esp32PartitionOverviewComponent {
    /** The board data and the partition tables by build, as the data files give them. */
    const partitionsData: seq<(string, BoardPartitions)>
    const defaultSchemes: map<string, seq<PartitionRow>>
    const boardNames: seq<string>
    var selectedBoard: string
    var defaultScheme: string
    var schemes: seq<string>
    var selectedScheme: string
    var selectedSchemeEntry: seq<PartitionRow>
    var dataSource: seq<PartitionRow>

    function Fields(): View
      reads this
    {
      View(schemes, selectedScheme, selectedSchemeEntry, dataSource)
    }

    /**
     * The field initialisers: the first board is selected with its default
     * scheme and that scheme's table. The first board is read from the data,
     * so an empty board list would throw.
     */
    constructor (partitionsData: seq<(string, BoardPartitions)>, defaultSchemes: map<string, seq<PartitionRow>>)
      requires |partitionsData| > 0
      ensures this.partitionsData == partitionsData && this.defaultSchemes == defaultSchemes
      ensures boardNames == Keys(partitionsData) && selectedBoard == partitionsData[0].0
      ensures defaultScheme == partitionsData[0].1.default
      ensures schemes == Keys(partitionsData[0].1.schemes.GetOr([]))
      ensures Fields() == Shown(defaultSchemes, schemes, defaultScheme)
    {
      this.partitionsData := partitionsData;
      this.defaultSchemes := defaultSchemes;
      var names := Keys(partitionsData);
      boardNames := names;
      selectedBoard := names[0];
      var board := Lookup(partitionsData, names[0]).value;
      defaultScheme := board.default;
      schemes := Keys(board.schemes.GetOr([]));
      selectedScheme := board.default;
      selectedSchemeEntry := EntriesOf(defaultSchemes, board.default);
      dataSource := selectedSchemeEntry;
    }

    /** `onBoardChange(event)`; `thrown` reports a `TypeError`. The selected board is not changed. */
    method OnBoardChange(event: string) returns (thrown: bool)
      modifies this
      ensures (Fields(), thrown) == BoardChanged(partitionsData, defaultSchemes, old(Fields()), event)
      ensures selectedBoard == old(selectedBoard) && defaultScheme == old(defaultScheme)
    {
      var board := Lookup(partitionsData, event);
      if board.None? {
        return true;
      }
      if board.value.schemes.None? {
        schemes := [board.value.default];
        selectedScheme := board.value.default;
      } else {
        var defaultKey := board.value.default;
        var entries := board.value.schemes.value;
        schemes := Keys(entries);
        var selected := Lookup(entries, defaultKey);
        if selected.None? {
          if entries == [] {
            return true;
          }
          selectedScheme := entries[0].1.build;
        } else {
          selectedScheme := selected.value.build;
        }
      }
      selectedSchemeEntry := EntriesOf(defaultSchemes, selectedScheme);
      dataSource := selectedSchemeEntry;
      return false;
    }

    /** `onSchemeChange(event)`: the table of scheme `event` of the selected board. */
    method OnSchemeChange(event: string) returns (thrown: bool)
      modifies this
      ensures (Fields(), thrown) == SchemeChanged(partitionsData, defaultSchemes, old(Fields()), selectedBoard, event)
      ensures selectedBoard == old(selectedBoard) && defaultScheme == old(defaultScheme)
    {
      var board := Lookup(partitionsData, selectedBoard);
      if board.None? {
        return true;
      }
      var selected: Option<SchemeInfo> := None;
      if board.value.schemes.Some? {
        selected := Lookup(board.value.schemes.value, event);
      }
      if selected.Some? {
        selectedSchemeEntry := EntriesOf(defaultSchemes, selected.value.build);
      } else {
        selectedSchemeEntry := [];
      }
      dataSource := selectedSchemeEntry;
      return false;
    }
  }
}
