/**
 * Resolving a board's built-in LED from its variant's pins_arduino.h, as
 * `find_led_builtin` does in pyScripts/helper/collecting_board_data.py and
 * in pyScripts/helper/find_led_builtin_gpio.py. The two copies differ only
 * in the pin-count rule, which `PinRule` selects.
 *
 * Each header is scanned from fresh symbol tables; for esp32 every line is
 * recorded into them first and then tested; the first line that resolves
 * ends the scan.
 */
module LedResolution {
  import opened Wrappers
  import opened Text
  import opened LedPatterns
  import opened BoardRecords
  import opened Files

  /**
   * How `SOC_GPIO_PIN_COUNT + SYM` is resolved.
   * ConstantOnly: `SYM` must be `#define`d as the name of a `static const
   * uint8_t` constant (collecting_board_data.py).
   * NumberOrConstant: a `#define`d number is used directly, else as above
   * (find_led_builtin_gpio.py).
   */
  datatype PinRule = ConstantOnly | NumberOrConstant

  /** `<core>/variants/<variant>/pins_arduino.h`. */
  function VariantHeader(corePath: string, variant: string): string {
    corePath + "/variants/" + variant + "/pins_arduino.h"
  }

  /** The `#define` value the pin-count line of `line` refers to, if any. */
  function PinDefine(line: string, defines: map<string, string>): Option<string> {
    var sym :- MatchLine(PinCount, line);
    if sym in defines then Some(defines[sym]) else None
  }

  /**
   * The pin-count rule: the GPIO is SOC_GPIO_PIN_COUNT plus the number the
   * referenced define holds (NumberOrConstant only) or else plus the
   * constant it names.
   */
  function PinCountRule(rule: PinRule, line: string, defines: map<string, string>, vars: map<string, string>): (r: Option<string>)
    requires DigitTable(vars)
    ensures r.Some? <==>
      PinDefine(line, defines).Some?
      && (PinDefine(line, defines).value in vars || (rule == NumberOrConstant && IsNumber(PinDefine(line, defines).value)))
    ensures r.Some? ==> IsCanonicalNumeral(r.value) && DigitsValue(r.value) >= SocGpioPinCount
    ensures r.Some? && rule == NumberOrConstant && IsNumber(PinDefine(line, defines).value) ==>
      DigitsValue(r.value) == IntValue(PinDefine(line, defines).value) + SocGpioPinCount
    ensures r.Some? && !(rule == NumberOrConstant && IsNumber(PinDefine(line, defines).value)) ==>
      DigitsValue(r.value) == DigitsValue(vars[PinDefine(line, defines).value]) + SocGpioPinCount
  {
    match PinDefine(line, defines)
    case None => None
    case Some(value) =>
      if rule == NumberOrConstant && IsNumber(value) then
        Some(NatToString(IntValue(value) + SocGpioPinCount))
      else if value in vars then
        Some(NatToString(DigitsValue(vars[value]) + SocGpioPinCount))
      else None
  }

  /**
   * The two rules agree except where the define holds a number, which only
   * NumberOrConstant accepts: a constant's name is never a number, so a
   * define that names a constant resolves alike under both.
   */
  lemma PinRulesAgree(line: string, defines: map<string, string>, vars: map<string, string>)
    requires DigitTable(vars) && NameKeys(vars)
    ensures PinCountRule(ConstantOnly, line, defines, vars).Some? ==>
      PinCountRule(NumberOrConstant, line, defines, vars) == PinCountRule(ConstantOnly, line, defines, vars)
    ensures PinCountRule(ConstantOnly, line, defines, vars) != PinCountRule(NumberOrConstant, line, defines, vars) <==>
      PinDefine(line, defines).Some? && IsNumber(PinDefine(line, defines).value)
  {
    var d := PinDefine(line, defines);
    if d.Some? && d.value in vars {
      NameIsNotNumber(d.value);
    }
  }

  /**
   * What one header line resolves to, given the tables after the line has
   * been recorded: the pin-count rule (esp32 only), else the direct digits
   * of ` LED_BUILTIN[\(\= ]+(\d+)`.
   */
  function LineLed(rule: PinRule, core: string, line: string, defines: map<string, string>, vars: map<string, string>): (r: Option<string>)
    requires DigitTable(vars)
    ensures r.Some? ==> |r.value| >= 1 && AllDigits(r.value)
    ensures core != "esp32" ==> r == MatchLine(BuiltinDigits, line)
    ensures core == "esp32" && PinCountRule(rule, line, defines, vars).Some? ==> r == PinCountRule(rule, line, defines, vars)
  {
    var pin := if core == "esp32" then PinCountRule(rule, line, defines, vars) else None;
    if pin.Some? then pin else MatchLine(BuiltinDigits, line)
  }

  /** The result of line `i` of a header, with the symbol tables read from the lines up to it. */
  function LineHit(rule: PinRule, core: string, lines: seq<string>, i: nat): Option<string>
    requires i < |lines|
  {
    if core == "esp32" then
      VarsOfDigits(map[], lines[..i + 1]);
      LineLed(rule, core, lines[i], DefinesOf(map[], lines[..i + 1]), VarsOf(map[], lines[..i + 1]))
    else LineLed(rule, core, lines[i], map[], map[])
  }

  /** The result of each line of a header, as a function of the line number (nothing past the end). */
  function LineHits(rule: PinRule, core: string, lines: seq<string>): nat -> Option<string> {
    (i: nat) => if i < |lines| then LineHit(rule, core, lines, i) else None
  }

  /** What scanning a header from line `i` on yields. */
  function ScanFrom(rule: PinRule, core: string, lines: seq<string>, i: nat): Option<string>
    requires i <= |lines|
  {
    FirstHit(LineHits(rule, core, lines), |lines|, i)
  }

  /** What scanning a whole header yields. */
  function ScanResult(rule: PinRule, core: string, lines: seq<string>): Option<string> {
    ScanFrom(rule, core, lines, 0)
  }

  /**
   * Headers are read one at a time from empty tables, so what one board's
   * header defines never leaks into another's: the result is that of the
   * first resolving line of the header, and nothing when no line resolves.
   */
  lemma ScanResultFirstHit(rule: PinRule, core: string, lines: seq<string>)
    ensures ScanResult(rule, core, lines).None? <==> forall i | 0 <= i < |lines| :: LineHit(rule, core, lines, i).None?
    ensures ScanResult(rule, core, lines).Some? ==>
      exists i | 0 <= i < |lines| ::
        ScanResult(rule, core, lines) == LineHit(rule, core, lines, i)
        && forall j | 0 <= j < i :: LineHit(rule, core, lines, j).None?
  {
    var hits := LineHits(rule, core, lines);
    FirstHitIsFirst(hits, |lines|, 0);
    assert forall i | 0 <= i < |lines| :: hits(i) == LineHit(rule, core, lines, i);
  }

  /** The LED a board ends with, and whether this counts as found. */
  function ResolveLed(rule: PinRule, core: string, corePath: string, fs: FileSystem, b: Board): (r: (string, bool))
    ensures b.variant == "N/A" ==> r == ("N/A", false)
    ensures b.variant != "N/A" && !fs.IsFile(VariantHeader(corePath, b.variant)) ==> r == ("N/A", false)
    ensures r.1 <==>
      b.variant != "N/A" && fs.IsFile(VariantHeader(corePath, b.variant))
      && ScanResult(rule, core, fs.files[VariantHeader(corePath, b.variant)]).Some?
    ensures !r.1 && r.0 != "N/A" ==> r.0 == b.ledBuiltin
  {
    var path := VariantHeader(corePath, b.variant);
    if b.variant == "N/A" || !fs.IsFile(path) then ("N/A", false)
    else
      var hit := ScanResult(rule, core, fs.files[path]);
      if hit.Some? then (hit.value, true) else (b.ledBuiltin, false)
  }

  /** The resolver of a core: the resolution of a single record. */
  function Resolver(rule: PinRule, core: string, corePath: string, fs: FileSystem): Board -> (string, bool) {
    b => ResolveLed(rule, core, corePath, fs, b)
  }

  /** Every record with its LED resolved; nothing but the LED changes. */
  function ResolveAll(rule: PinRule, core: string, corePath: string, fs: FileSystem, bs: seq<Board>): (r: seq<Board>)
    ensures |r| == |bs|
  {
    seq(|bs|, i requires 0 <= i < |bs| => bs[i].(ledBuiltin := ResolveLed(rule, core, corePath, fs, bs[i]).0))
  }

  /** The number of records `resolve` reports as not found. */
  function CountMisses(resolve: Board -> (string, bool), bs: seq<Board>): (n: nat)
    ensures n <= |bs|
  {
    if bs == [] then 0 else CountMisses(resolve, bs[..|bs| - 1]) + (if resolve(bs[|bs| - 1]).1 then 0 else 1)
  }

  /** Counting one more record adds one exactly when it is not found. */
  lemma CountMissesSnoc(resolve: Board -> (string, bool), bs: seq<Board>, i: nat)
    requires i < |bs|
    ensures CountMisses(resolve, bs[..i + 1]) == CountMisses(resolve, bs[..i]) + (if resolve(bs[i]).1 then 0 else 1)
  {
    assert bs[..i + 1][..i] == bs[..i];
  }

  /** No record is missed exactly when all are found, and all are missed exactly when none is. */
  lemma {:induction false} CountMissesExact(resolve: Board -> (string, bool), bs: seq<Board>)
    ensures CountMisses(resolve, bs) == 0 <==> forall i | 0 <= i < |bs| :: resolve(bs[i]).1
    ensures CountMisses(resolve, bs) == |bs| <==> forall i | 0 <= i < |bs| :: !resolve(bs[i]).1
  {
    if bs != [] {
      var init := bs[..|bs| - 1];
      CountMissesExact(resolve, init);
      assert forall i | 0 <= i < |init| :: init[i] == bs[i];
    }
  }

  /** The number of records left unresolved. */
  function CountUnresolved(rule: PinRule, core: string, corePath: string, fs: FileSystem, bs: seq<Board>): (n: nat)
    ensures n <= |bs|
  {
    CountMisses(Resolver(rule, core, corePath, fs), bs)
  }

  /** The count is zero exactly when every record resolves, and the whole list exactly when none does. */
  lemma CountUnresolvedExact(rule: PinRule, core: string, corePath: string, fs: FileSystem, bs: seq<Board>)
    ensures CountUnresolved(rule, core, corePath, fs, bs) == 0 <==>
      forall i | 0 <= i < |bs| :: ResolveLed(rule, core, corePath, fs, bs[i]).1
    ensures CountUnresolved(rule, core, corePath, fs, bs) == |bs| <==>
      forall i | 0 <= i < |bs| :: !ResolveLed(rule, core, corePath, fs, bs[i]).1
  {
    CountMissesExact(Resolver(rule, core, corePath, fs), bs);
  }

  // ---------------------------------------------------------------------
  // The scan in place.

  /**
   * The header scan of `find_led_builtin` for one board: tables are emptied,
   * each line is recorded (esp32 only) and then tested, and the first hit
   * ends the scan.
   */
  method ScanHeader(rule: PinRule, core: string, lines: seq<string>) returns (led: Option<string>)
    ensures led == ScanResult(rule, core, lines)
  {
    var defines: map<string, string> := map[];
    var vars: map<string, string> := map[];
    var i := 0;
    while i < |lines|
      invariant i <= |lines|
      invariant core == "esp32" ==> defines == DefinesOf(map[], lines[..i]) && vars == VarsOf(map[], lines[..i])
      invariant core != "esp32" ==> defines == map[] && vars == map[]
      invariant ScanFrom(rule, core, lines, i) == ScanResult(rule, core, lines)
    {
      var hit;
      hit, defines, vars := ScanLine(rule, core, lines, i, defines, vars);
      if hit.Some? {
        led := hit;
        return;
      }
      i := i + 1;
    }
    led := None;
  }

  /**
   * One iteration of the header scan: record line `i` in the tables (esp32
   * only), then try the pin-count rule and the direct digits.
   */
  method ScanLine(rule: PinRule, core: string, lines: seq<string>, i: nat, defines: map<string, string>, vars: map<string, string>)
    returns (hit: Option<string>, defines': map<string, string>, vars': map<string, string>)
    requires i < |lines|
    requires core == "esp32" ==> defines == DefinesOf(map[], lines[..i]) && vars == VarsOf(map[], lines[..i])
    requires core != "esp32" ==> defines == map[] && vars == map[]
    ensures core == "esp32" ==> defines' == DefinesOf(map[], lines[..i + 1]) && vars' == VarsOf(map[], lines[..i + 1])
    ensures core != "esp32" ==> defines' == map[] && vars' == map[]
    ensures hit == LineHit(rule, core, lines, i)
  {
    var line := lines[i];
    defines', vars' := defines, vars;
    if core == "esp32" {
      defines' := FindDefines(line, defines);
      vars' := FindVarDefinitions(line, vars);
      DefinesStep(lines, i);
      VarsStep(lines, i);
      VarsOfDigits(map[], lines[..i + 1]);
      hit := PinCountRule(rule, line, defines', vars');
      if hit.Some? {
        return;
      }
    }
    hit := MatchLine(BuiltinDigits, line);
  }

  /** The body of `find_led_builtin`'s loop for one record. */
  method ResolveBoard(rule: PinRule, core: string, corePath: string, fs: FileSystem, board: BoardData, ghost resolve: Board -> (string, bool))
    returns (found: bool)
    requires forall b {:trigger ResolveLed(rule, core, corePath, fs, b)} :: resolve(b) == ResolveLed(rule, core, corePath, fs, b)
    modifies board
    ensures board.Value() == old(board.Value()).(ledBuiltin := resolve(old(board.Value())).0)
    ensures found == resolve(old(board.Value())).1
  {
    ghost var r := ResolveLed(rule, core, corePath, fs, board.Value());
    found := false;
    if board.variant != "N/A" {
      var path := VariantHeader(corePath, board.variant);
      if !fs.IsFile(path) {
        board.SetLedBuiltin("N/A");
      } else {
        var led := ScanHeader(rule, core, fs.files[path]);
        if led.Some? {
          board.SetLedBuiltin(led.value);
          found := true;
        }
      }
    } else {
      board.SetLedBuiltin("N/A");
    }
  }

  /**
   * The loop of `find_led_builtin` over a list of records: each record's LED
   * is resolved in place, and the count of unresolved ones is returned.
   * `resolve` is the core's resolver (see `Resolver`), `before` the records' contents.
   */
  method ResolveList(rule: PinRule, core: string, corePath: string, fs: FileSystem, items: seq<BoardData>,
                     ghost resolve: Board -> (string, bool), ghost before: seq<Board>)
    returns (missing: nat)
    requires forall b {:trigger ResolveLed(rule, core, corePath, fs, b)} :: resolve(b) == ResolveLed(rule, core, corePath, fs, b)
    requires Distinct(items) && Values(items) == before
    modifies items
    ensures Values(items) == ResolveAll(rule, core, corePath, fs, before)
    ensures missing == CountMisses(resolve, before)
  {
    ValuesAt(items);
    missing := 0;
    var i := 0;
    while i < |items|
      invariant i <= |items|
      invariant forall j | 0 <= j < |items| :: items[j].Value() == if j < i then before[j].(ledBuiltin := resolve(before[j]).0) else before[j]
      invariant missing == CountMisses(resolve, before[..i])
    {
      var found := ResolveBoard(rule, core, corePath, fs, items[i], resolve);
      assert forall j | 0 <= j < |items| && j != i :: items[j] != items[i];
      if !found {
        missing := missing + 1;
      }
      CountMissesSnoc(resolve, before, i);
      i := i + 1;
    }
    assert before[..|items|] == before;
    ValuesAt(items);
  }
}
