/**
 * The board table of the web app
 * (web-app/src/app/board-overview/board-overview.component.ts): the
 * comparators behind its sortable columns, the "ignore N/A" switch that
 * hides boards without a known LED pin, and the component state those
 * handlers update.
 *
 * JavaScript semantics written out here: string `<` compares character by
 * character; `parseInt` reads the leading decimal digits and gives NaN when
 * there are none; every `<` with a NaN operand is false.
 */
module BoardOverview {
  import opened Wrappers
  import opened Text
  import opened StableSort

  /** A row of the table: a board as the data files describe it. */
  datatype BoardInfo = BoardInfo(name: string, board: string, variant: string, ledBuiltin: string, mcu: string, flashSize: seq<string>)

  /** The LED value of a board whose pin is unknown. */
  const NotAvailable := "N/A"

  // ---------------------------------------------------------------------
  // JavaScript string order.

  /** JavaScript's `a < b` on strings: at the first difference, or `a` a proper prefix of `b`. */
  predicate LexLess(a: string, b: string)
    decreases |a|
  {
    if a == [] then b != []
    else if b == [] then false
    else if a[0] != b[0] then a[0] < b[0]
    else LexLess(a[1..], b[1..])
  }

  lemma {:induction false} LexIrreflexive(a: string)
    ensures !LexLess(a, a)
    decreases |a|
  {
    if a != [] {
      LexIrreflexive(a[1..]);
    }
  }

  lemma {:induction false} LexAsymmetric(a: string, b: string)
    ensures LexLess(a, b) ==> !LexLess(b, a)
    decreases |a|
  {
    if a != [] && b != [] && a[0] == b[0] {
      LexAsymmetric(a[1..], b[1..]);
    }
  }

  lemma {:induction false} LexTransitive(a: string, b: string, c: string)
    ensures LexLess(a, b) && LexLess(b, c) ==> LexLess(a, c)
    decreases |a|
  {
    if a != [] && b != [] && c != [] && a[0] == b[0] == c[0] {
      LexTransitive(a[1..], b[1..], c[1..]);
    }
  }

  /** Two different strings are always ordered one way or the other. */
  lemma {:induction false} LexTotal(a: string, b: string)
    ensures a == b || LexLess(a, b) || LexLess(b, a)
    decreases |a|
  {
    if a != [] && b != [] && a[0] == b[0] {
      LexTotal(a[1..], b[1..]);
      assert a == [a[0]] + a[1..] && b == [b[0]] + b[1..];
    }
  }

  /** `!(b < a)`, "a is at most b", is transitive. */
  lemma LexAtMostTransitive(a: string, b: string, c: string)
    ensures !LexLess(b, a) && !LexLess(c, b) ==> !LexLess(c, a)
  {
    LexTotal(a, b);
    LexTotal(b, c);
    LexTransitive(a, b, c);
    LexAsymmetric(a, c);
    LexIrreflexive(a);
  }

  // ---------------------------------------------------------------------
  // Comparators.

  /**
   * `(less ? -1 : 1) * (isAsc ? 1 : -1)`, the shape all three comparators
   * share: never 0, and negative exactly when `less` agrees with the
   * direction.
   */
  function Order(less: bool, isAsc: bool): (r: int)
    ensures r == 1 || r == -1
    ensures r < 0 <==> less == isAsc
  {
    (if less then -1 else 1) * (if isAsc then 1 else -1)
  }

  /** `compare`: -1 ascending when `a < b`, 1 otherwise; descending the opposite. */
  function Compare(a: string, b: string, isAsc: bool): (r: int)
    ensures r == 1 || r == -1
    ensures isAsc ==> (r == -1 <==> LexLess(a, b))
    ensures !isAsc ==> (r == -1 <==> !LexLess(a, b))
  {
    Order(LexLess(a, b), isAsc)
  }

  /** Equal keys never compare as 0: 1 ascending, -1 descending. */
  lemma CompareEqualKeys(a: string)
    ensures Compare(a, a, true) == 1 && Compare(a, a, false) == -1
  {
    LexIrreflexive(a);
  }

  /** Different keys compare oppositely when swapped, and descending is ascending negated. */
  lemma CompareAntisymmetric(a: string, b: string, isAsc: bool)
    requires a != b
    ensures Compare(b, a, isAsc) == -Compare(a, b, isAsc)
    ensures Compare(a, b, false) == -Compare(a, b, true)
  {
    LexTotal(a, b);
    LexAsymmetric(a, b);
  }

  /**
   * JavaScript's `parseInt` on decimal text: the value of the leading
   * digits, or NaN (`None`) when the text does not start with one.
   */
  function ParseInt(s: string): (r: Option<nat>)
    ensures r.Some? <==> |s| > 0 && IsDigit(s[0])
  {
    var n := Span(s, 0, IsDigit);
    if n == 0 then None
    else
      assert AllDigits(s[..n]) by {
        assert forall k | 0 <= k < n :: s[..n][k] == s[k];
      }
      Some(DigitsValue(s[..n]))
  }

  /** Digits followed by a non-digit, or by nothing, parse as the digits. */
  lemma ParseIntPrefix(digits: string, rest: string)
    requires |digits| > 0 && AllDigits(digits) && (rest == [] || !IsDigit(rest[0]))
    ensures ParseInt(digits + rest) == Some(DigitsValue(digits))
  {
    var s := digits + rest;
    assert forall k | 0 <= k < |digits| :: s[k] == digits[k];
    SpanOver(s, 0, |digits|, IsDigit);
    assert s[..|digits|] == digits;
  }

  /** JavaScript's `<` on two `parseInt` results: false when either is NaN. */
  predicate NumLess(a: Option<nat>, b: Option<nat>) {
    a.Some? && b.Some? && a.value < b.value
  }

  /** The number a LED value sorts by: "N/A" counts as pin 1000. */
  function LedValue(led: string): Option<nat> {
    ParseInt(if led == NotAvailable then "1000" else led)
  }

  /** "N/A" sorts as pin 1000. */
  lemma LedValueNotAvailable()
    ensures LedValue(NotAvailable) == Some(1000)
  {
    var s := "1000";
    assert AllDigits(s);
    assert s[..1] == "1" && s[..2] == "10" && s[..3] == "100" && s[..4] == s;
    assert DigitsValue("1") == 1 && DigitsValue("10") == 10 && DigitsValue("100") == 100;
    ParseIntPrefix(s, []);
    assert s + [] == s;
  }

  /** `compareLed`. */
  function CompareLed(a: string, b: string, isAsc: bool): (r: int)
    ensures r == 1 || r == -1
    ensures isAsc ==> (r == -1 <==> NumLess(LedValue(a), LedValue(b)))
    ensures !isAsc ==> (r == -1 <==> !NumLess(LedValue(a), LedValue(b)))
  {
    Order(NumLess(LedValue(a), LedValue(b)), isAsc)
  }

  /** A pin written as its number sorts by that number. */
  lemma LedValueOfPin(pin: nat)
    ensures LedValue(NatToString(pin)) == Some(pin)
  {
    var s := NatToString(pin);
    assert s != NotAvailable by {
      assert IsDigit(s[0]);
    }
    ParseIntPrefix(s, []);
    assert s + [] == s;
  }

  /** "N/A" sorts after every pin below 1000 ascending, and before it descending. */
  lemma NotAvailableSortsLast(led: string)
    requires exists pin: nat | pin < 1000 :: LedValue(led) == Some(pin)
    ensures CompareLed(led, NotAvailable, true) == -1 && CompareLed(NotAvailable, led, true) == 1
    ensures CompareLed(led, NotAvailable, false) == 1 && CompareLed(NotAvailable, led, false) == -1
  {
    LedValueNotAvailable();
  }

  /** JavaScript's `s.slice(0, -2)`: all but the last two characters, or nothing. */
  function DropLastTwo(s: string): (r: string)
    ensures |r| == if |s| < 2 then 0 else |s| - 2
    ensures r <= s
  {
    if |s| < 2 then [] else s[..|s| - 2]
  }

  /** The number a single flash size sorts by: "512KB" is 0, otherwise its leading number, NaN as 0. */
  function FlashSizeOf(size: string): (r: nat)
    ensures size == "512KB" ==> r == 0
    ensures size != "512KB" && (|size| <= 2 || !IsDigit(size[0])) ==> r == 0
    ensures size != "512KB" && |size| > 2 && IsDigit(size[0]) ==> ParseInt(size[..|size| - 2]) == Some(r)
  {
    if size == "512KB" then 0 else ParseInt(DropLastTwo(size)).GetOr(0)
  }

  /** A size written as a number and a two-letter unit sorts by the number (except "512KB"). */
  lemma FlashSizeOfNumber(n: nat, unit: string)
    requires |unit| == 2 && NatToString(n) + unit != "512KB"
    ensures FlashSizeOf(NatToString(n) + unit) == n
  {
    var s := NatToString(n);
    assert DropLastTwo(s + unit) == s;
    ParseIntPrefix(s, []);
    assert s + [] == s;
  }

  /**
   * `get_flash_size_value`: 0 for a board without sizes; otherwise the first
   * size when ascending and the last when descending.
   */
  function FlashSizeValue(sizes: seq<string>, isAsc: bool): (r: nat)
    ensures sizes == [] ==> r == 0
    ensures sizes != [] ==> r == FlashSizeOf(if isAsc then sizes[0] else sizes[|sizes| - 1])
  {
    if |sizes| == 0 then 0
    else
      var size := if |sizes| > 1 && !isAsc then sizes[|sizes| - 1] else sizes[0];
      FlashSizeOf(size)
  }

  /** `compareFlashSize`. */
  function CompareFlashSize(a: seq<string>, b: seq<string>, isAsc: bool): (r: int)
    ensures r == 1 || r == -1
    ensures isAsc ==> (r == -1 <==> FlashSizeValue(a, true) < FlashSizeValue(b, true))
    ensures !isAsc ==> (r == -1 <==> FlashSizeValue(a, false) >= FlashSizeValue(b, false))
  {
    Order(FlashSizeValue(a, isAsc) < FlashSizeValue(b, isAsc), isAsc)
  }

  /** A board without sizes sorts before every board with a nonzero size, ascending. */
  lemma NoFlashSizeFirst(sizes: seq<string>)
    requires FlashSizeValue(sizes, true) > 0
    ensures CompareFlashSize([], sizes, true) == -1 && CompareFlashSize(sizes, [], true) == 1
  {
  }

  // ---------------------------------------------------------------------
  // The comparator of `sortData`.

  /** The columns compared as text. */
  predicate IsTextColumn(active: string) {
    active == "name" || active == "board" || active == "variant" || active == "mcu"
  }

  /** The text a text column shows for a board. */
  function TextKey(active: string, b: BoardInfo): string {
    if active == "name" then b.name
    else if active == "board" then b.board
    else if active == "variant" then b.variant
    else b.mcu
  }

  /** The comparator `sortData` hands to `sort` for column `active`; 0 for an unknown column. */
  function Comparison(active: string, isAsc: bool, a: BoardInfo, b: BoardInfo): (r: int)
    ensures IsTextColumn(active) ==> r == Compare(TextKey(active, a), TextKey(active, b), isAsc)
    ensures !IsTextColumn(active) && active != "led" && active != "flash_size" ==> r == 0
  {
    if active == "name" then Compare(a.name, b.name, isAsc)
    else if active == "board" then Compare(a.board, b.board, isAsc)
    else if active == "variant" then Compare(a.variant, b.variant, isAsc)
    else if active == "mcu" then Compare(a.mcu, b.mcu, isAsc)
    else if active == "led" then CompareLed(a.ledBuiltin, b.ledBuiltin, isAsc)
    else if active == "flash_size" then CompareFlashSize(a.flashSize, b.flashSize, isAsc)
    else 0
  }

  /** Where the sort puts one row before another: where the comparator is negative. */
  function Before(active: string, isAsc: bool): (BoardInfo, BoardInfo) -> bool {
    (a, b) => Comparison(active, isAsc, a, b) < 0
  }

  /** The rows sorted by column `active`, in direction `direction` ("asc" or anything else). */
  function SortRows(rows: seq<BoardInfo>, active: string, direction: string): (r: seq<BoardInfo>)
    ensures multiset(r) == multiset(rows)
  {
    SortPermutes(rows, Before(active, direction == "asc"));
    Sort(rows, Before(active, direction == "asc"))
  }

  /** An unknown column leaves the rows in their order. */
  lemma SortUnknownColumn(rows: seq<BoardInfo>, active: string, direction: string)
    requires !IsTextColumn(active) && active != "led" && active != "flash_size"
    ensures SortRows(rows, active, direction) == rows
  {
    SortKeepsOrder(rows, Before(active, direction == "asc"));
  }

  /** Sorting a text column orders the rows by that text, ascending or descending. */
  lemma SortTextColumn(rows: seq<BoardInfo>, active: string, direction: string)
    requires IsTextColumn(active)
    ensures var r := SortRows(rows, active, direction);
      forall i, j | 0 <= i < j < |r| ::
        if direction == "asc" then !LexLess(TextKey(active, r[j]), TextKey(active, r[i]))
        else !LexLess(TextKey(active, r[i]), TextKey(active, r[j]))
  {
    var dom := set k | 0 <= k < |rows| :: rows[k];
    if direction == "asc" {
      TextAscendingAgrees(active, dom);
      SortOrdered(rows, Before(active, true), (a, b) => TextAtMost(active, a, b), dom);
    } else {
      TextDescendingAgrees(active, dom);
      SortOrdered(rows, Before(active, false), (a, b) => TextAtMost(active, b, a), dom);
    }
  }

  /** The text of `a` in column `active` is at most that of `b`. */
  predicate TextAtMost(active: string, a: BoardInfo, b: BoardInfo) {
    !LexLess(TextKey(active, b), TextKey(active, a))
  }

  lemma TextAscendingAgrees(active: string, dom: set<BoardInfo>)
    requires IsTextColumn(active)
    ensures Agrees(Before(active, true), (a, b) => TextAtMost(active, a, b), dom)
  {
    forall x, y, z | x in dom && y in dom && z in dom
      ensures TextAtMost(active, x, y) && TextAtMost(active, y, z) ==> TextAtMost(active, x, z)
    {
      LexAtMostTransitive(TextKey(active, x), TextKey(active, y), TextKey(active, z));
    }
    forall x, y | x in dom && y in dom
      ensures LexLess(TextKey(active, x), TextKey(active, y)) ==> TextAtMost(active, x, y)
    {
      LexAsymmetric(TextKey(active, x), TextKey(active, y));
    }
  }

  lemma TextDescendingAgrees(active: string, dom: set<BoardInfo>)
    requires IsTextColumn(active)
    ensures Agrees(Before(active, false), (a, b) => TextAtMost(active, b, a), dom)
  {
    forall x, y, z | x in dom && y in dom && z in dom
      ensures TextAtMost(active, y, x) && TextAtMost(active, z, y) ==> TextAtMost(active, z, x)
    {
      LexAtMostTransitive(TextKey(active, z), TextKey(active, y), TextKey(active, x));
    }
    forall x, y | x in dom && y in dom
      ensures LexLess(TextKey(active, x), TextKey(active, y)) ==> TextAtMost(active, x, y)
    {
      LexAsymmetric(TextKey(active, x), TextKey(active, y));
    }
  }

  /** The LED number of a board whose LED value parses. */
  function LedNumber(b: BoardInfo): nat
    requires LedValue(b.ledBuiltin).Some?
  {
    LedValue(b.ledBuiltin).value
  }

  /** Sorting by LED orders the rows by LED number ("N/A" as 1000), when every LED value parses. */
  lemma SortLedColumn(rows: seq<BoardInfo>, direction: string)
    requires forall k | 0 <= k < |rows| :: LedValue(rows[k].ledBuiltin).Some?
    ensures var r := SortRows(rows, "led", direction);
      forall i, j | 0 <= i < j < |r| :: LedAtMost(direction == "asc", r[i], r[j])
  {
    var isAsc := direction == "asc";
    var dom := set k | 0 <= k < |rows| :: rows[k];
    LedAgrees(isAsc, dom);
    SortOrdered(rows, Before("led", isAsc), LedOrder(isAsc), dom);
    var r := SortRows(rows, "led", direction);
    forall i, j | 0 <= i < j < |r|
      ensures LedAtMost(isAsc, r[i], r[j])
    {
      assert LedOrder(isAsc)(r[i], r[j]);
    }
  }

  function LedOrder(isAsc: bool): (BoardInfo, BoardInfo) -> bool {
    (a, b) => LedAtMost(isAsc, a, b)
  }

  /** Both LED values parse, and the first is at most the second in the direction's order. */
  predicate LedAtMost(isAsc: bool, a: BoardInfo, b: BoardInfo) {
    LedValue(a.ledBuiltin).Some? && LedValue(b.ledBuiltin).Some?
    && if isAsc then LedNumber(a) <= LedNumber(b) else LedNumber(a) >= LedNumber(b)
  }

  lemma LedAgrees(isAsc: bool, dom: set<BoardInfo>)
    requires forall b | b in dom :: LedValue(b.ledBuiltin).Some?
    ensures Agrees(Before("led", isAsc), LedOrder(isAsc), dom)
  {
    forall x, y | x in dom && y in dom
      ensures (Before("led", isAsc)(x, y) ==> LedAtMost(isAsc, x, y)) && (!Before("led", isAsc)(x, y) ==> LedAtMost(isAsc, y, x))
    {
      assert Before("led", isAsc)(x, y) == (CompareLed(x.ledBuiltin, y.ledBuiltin, isAsc) < 0);
    }
  }

  /**
   * Sorting by flash size orders the rows by `get_flash_size_value`:
   * ascending by the first size, descending by the last.
   */
  lemma SortFlashColumn(rows: seq<BoardInfo>, direction: string)
    ensures var r := SortRows(rows, "flash_size", direction);
      forall i, j | 0 <= i < j < |r| ::
        if direction == "asc" then FlashSizeValue(r[i].flashSize, true) <= FlashSizeValue(r[j].flashSize, true)
        else FlashSizeValue(r[i].flashSize, false) >= FlashSizeValue(r[j].flashSize, false)
  {
    var isAsc := direction == "asc";
    var dom := set k | 0 <= k < |rows| :: rows[k];
    FlashAgrees(isAsc, dom);
    SortOrdered(rows, Before("flash_size", isAsc), FlashOrder(isAsc), dom);
    var r := SortRows(rows, "flash_size", direction);
    forall i, j | 0 <= i < j < |r|
      ensures FlashAtMost(isAsc, r[i], r[j])
    {
      assert FlashOrder(isAsc)(r[i], r[j]);
    }
  }

  function FlashOrder(isAsc: bool): (BoardInfo, BoardInfo) -> bool {
    (a, b) => FlashAtMost(isAsc, a, b)
  }

  /** The first board's size value is at most the second's in the direction's order. */
  predicate FlashAtMost(isAsc: bool, a: BoardInfo, b: BoardInfo) {
    if isAsc then FlashSizeValue(a.flashSize, true) <= FlashSizeValue(b.flashSize, true)
    else FlashSizeValue(a.flashSize, false) >= FlashSizeValue(b.flashSize, false)
  }

  lemma FlashAgrees(isAsc: bool, dom: set<BoardInfo>)
    ensures Agrees(Before("flash_size", isAsc), FlashOrder(isAsc), dom)
  {
    forall x, y | x in dom && y in dom
      ensures (Before("flash_size", isAsc)(x, y) ==> FlashAtMost(isAsc, x, y))
        && (!Before("flash_size", isAsc)(x, y) ==> FlashAtMost(isAsc, y, x))
    {
      assert Before("flash_size", isAsc)(x, y) == (CompareFlashSize(x.flashSize, y.flashSize, isAsc) < 0);
    }
  }

  // ---------------------------------------------------------------------
  // "Ignore N/A" and the text filter.

  predicate HasLed(b: BoardInfo) { b.ledBuiltin != NotAvailable }

  /** The boards with a known LED pin, in table order. */
  function WithLed(rows: seq<BoardInfo>): seq<BoardInfo> {
    Filter(rows, HasLed)
  }

  /** Exactly the boards whose LED is not "N/A" are kept, and the order is that of the table. */
  lemma WithLedExactly(rows: seq<BoardInfo>, more: seq<BoardInfo>, b: BoardInfo)
    ensures b in WithLed(rows) <==> b in rows && b.ledBuiltin != NotAvailable
    ensures WithLed(rows + more) == WithLed(rows) + WithLed(more)
  {
    FilterMembers(rows, HasLed, b);
    FilterAppend(rows, more, HasLed);
  }

  /** A table without "N/A" boards is left whole. */
  lemma WithLedAllKnown(rows: seq<BoardInfo>)
    requires forall k | 0 <= k < |rows| :: rows[k].ledBuiltin != NotAvailable
    ensures WithLed(rows) == rows
  {
    FilterAllPass(rows, HasLed);
  }

  /** The `forEach` of `updateTable` that pushes every board with a known LED. */
  method IgnoreNA(rows: seq<BoardInfo>) returns (ignoreNA: seq<BoardInfo>)
    ensures ignoreNA == WithLed(rows)
  {
    ignoreNA := [];
    for k := 0 to |rows|
      invariant ignoreNA == WithLed(rows[..k])
    {
      assert rows[..k + 1][..k] == rows[..k];
      if rows[k].ledBuiltin != NotAvailable {
        ignoreNA := ignoreNA + [rows[k]];
      }
    }
    assert rows[..|rows|] == rows;
  }

  /** The characters JavaScript's `String.prototype.trim` removes. */
  predicate IsJsWhitespace(c: char) {
    c == '\t' || c == '\n' || c == '\U{B}' || c == '\U{C}' || c == '\r' || c == ' '
    || c == '\U{A0}' || c == '\U{1680}' || ('\U{2000}' <= c <= '\U{200A}') || c == '\U{2028}'
    || c == '\U{2029}' || c == '\U{202F}' || c == '\U{205F}' || c == '\U{3000}' || c == '\U{FEFF}'
  }

  function AsciiLower(c: char): (r: char)
    ensures !('A' <= r <= 'Z')
    ensures !IsJsWhitespace(c) ==> !IsJsWhitespace(r)
  {
    if 'A' <= c <= 'Z' then (c as int + 32) as char else c
  }

  /** `filterValue.trim().toLowerCase()`. */
  function NormalizeFilter(value: string): (r: string)
    ensures r == [] <==> forall k | 0 <= k < |value| :: IsJsWhitespace(value[k])
    ensures forall k | 0 <= k < |r| :: !('A' <= r[k] <= 'Z')
  {
    var (i, j) := TrimBounds(value, IsJsWhitespace);
    assert i == j ==> i == |value|;
    var r := seq(j - i, k requires 0 <= k < j - i => AsciiLower(value[i + k]));
    assert forall k | 0 <= k < |r| :: r[k] == AsciiLower(value[i + k]);
    r
  }

  /** `r` is `value[i..i + |r|]` lowered, with only whitespace before and after that stretch. */
  predicate LoweredStretch(value: string, r: string, i: nat) {
    && i + |r| <= |value|
    && (forall k | 0 <= k < |r| :: r[k] == AsciiLower(value[i + k]))
    && (forall k | 0 <= k < i :: IsJsWhitespace(value[k]))
    && (forall k | i + |r| <= k < |value| :: IsJsWhitespace(value[k]))
  }

  /**
   * The normalised filter is a stretch of the text, lowered: only whitespace
   * lies before and after it, and it neither starts nor ends with whitespace.
   */
  lemma NormalizeFilterTrims(value: string)
    ensures var r := NormalizeFilter(value);
      && (r != [] ==> !IsJsWhitespace(r[0]) && !IsJsWhitespace(r[|r| - 1]))
      && exists i :: LoweredStretch(value, r, i)
  {
    var (i, j) := TrimBounds(value, IsJsWhitespace);
    var r := NormalizeFilter(value);
    assert i == j ==> i == |value|;
    assert |r| == j - i;
    assert LoweredStretch(value, r, i);
    if r != [] {
      assert !IsJsWhitespace(value[i]) && !IsJsWhitespace(value[j - 1]);
    }
  }

  /** What a `MatTableDataSource` holds: its rows and its filter string. */
  datatype TableData = TableData(data: seq<BoardInfo>, filter: string)

  /**
   * `filteredData`: every row when the filter is empty, otherwise the rows the
   * table's filter predicate `matches` accepts, in order.
   */
  function FilteredData(t: TableData, matches: (BoardInfo, string) -> bool): seq<BoardInfo> {
    if t.filter == [] then t.data else Filter(t.data, b => matches(b, t.filter))
  }

  // ---------------------------------------------------------------------
  // The component.

  class BoardOverviewComponent {
    var checked: bool
    /** The `dataSource` input: the boards of one core. */
    const dataSource: seq<BoardInfo>
    /** The filter predicate of the table data source (Angular Material's, not modelled). */
    const matches: (BoardInfo, string) -> bool
    var totalBoardCount: nat
    var filteredBoardCount: nat
    var sortedData: TableData
    var filterValue: string

    /** The field initialisers followed by `ngOnInit`: every board shown, no filter. */
    constructor (dataSource: seq<BoardInfo>, matches: (BoardInfo, string) -> bool)
      ensures this.dataSource == dataSource && this.matches == matches
      ensures !checked && filterValue == []
      ensures totalBoardCount == |dataSource| && filteredBoardCount == |dataSource|
      ensures sortedData == TableData(dataSource, [])
    {
      this.dataSource := dataSource;
      this.matches := matches;
      checked := false;
      filterValue := [];
      totalBoardCount := |dataSource|;
      filteredBoardCount := |dataSource|;
      sortedData := TableData(dataSource, []);
    }

    /**
     * `updateTable`: the boards with a known LED when `checked`, else all of
     * them, behind the normalised filter; the count is of the rows it lets
     * through.
     */
    method UpdateTable()
      modifies this
      ensures sortedData == TableData(if checked then WithLed(dataSource) else dataSource, NormalizeFilter(filterValue))
      ensures filteredBoardCount == |FilteredData(sortedData, matches)|
      ensures checked == old(checked) && filterValue == old(filterValue) && totalBoardCount == old(totalBoardCount)
    {
      var rows: seq<BoardInfo>;
      if checked {
        rows := IgnoreNA(dataSource);
      } else {
        rows := dataSource;
      }
      sortedData := TableData(rows, NormalizeFilter(filterValue));
      filteredBoardCount := |FilteredData(sortedData, matches)|;
    }

    /** `applyIgnoreNA`: the checkbox state, then `updateTable`. */
    method ApplyIgnoreNA(eventChecked: bool)
      modifies this
      ensures checked == eventChecked && filterValue == old(filterValue) && totalBoardCount == old(totalBoardCount)
      ensures sortedData == TableData(if eventChecked then WithLed(dataSource) else dataSource, NormalizeFilter(filterValue))
      ensures filteredBoardCount == |FilteredData(sortedData, matches)|
    {
      checked := eventChecked;
      UpdateTable();
    }

    /** `applyFilter`: the typed text, then `updateTable`. */
    method ApplyFilter(value: string)
      modifies this
      ensures filterValue == value && checked == old(checked) && totalBoardCount == old(totalBoardCount)
      ensures sortedData == TableData(if checked then WithLed(dataSource) else dataSource, NormalizeFilter(value))
      ensures filteredBoardCount == |FilteredData(sortedData, matches)|
    {
      filterValue := value;
      UpdateTable();
    }

    /**
     * `sortData`: the rows the filter lets through when a filter was typed,
     * else all rows, sorted into a fresh data source whose filter is empty.
     * The count is not updated.
     */
    method SortData(active: string, direction: string)
      modifies this
      ensures var rows := if old(filterValue) != [] then FilteredData(old(sortedData), matches) else old(sortedData).data;
        sortedData == TableData(SortRows(rows, active, direction), [])
      ensures checked == old(checked) && filterValue == old(filterValue)
      ensures filteredBoardCount == old(filteredBoardCount) && totalBoardCount == old(totalBoardCount)
    {
      var data: seq<BoardInfo>;
      if filterValue != [] {
        data := FilteredData(sortedData, matches);
      } else {
        data := sortedData.data;
      }
      sortedData := TableData(SortRows(data, active, direction), []);
    }
  }
}
