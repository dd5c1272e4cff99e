/**
 * The incremental pin-count resolver (pyScripts/helper/find_led_pin_count.py).
 * Unlike the header scans, its symbol tables live in the object and keep
 * growing over every line it is shown; `FindGpio` records the line first and
 * then resolves `SOC_GPIO_PIN_COUNT + SYM`, answering -1 when it cannot.
 */
module FindLedPinCount {
  import opened Wrappers
  import opened Text
  import opened LedPatterns
  import opened LedResolution

  /**
   * The GPIO `find_gpio` returns for `line` given the tables after recording
   * it: a constant the define names wins over a number the define holds
   * (its check comes second and overwrites); -1 when neither applies.
   */
  function PinCountGpio(line: string, defines: map<string, string>, vars: map<string, string>): (g: int)
    requires DigitTable(vars)
    ensures g == -1 || g >= SocGpioPinCount
    ensures g != -1 <==>
      PinDefine(line, defines).Some?
      && (PinDefine(line, defines).value in vars || IsNumber(PinDefine(line, defines).value))
    ensures PinDefine(line, defines).Some? && PinDefine(line, defines).value in vars ==>
      g == DigitsValue(vars[PinDefine(line, defines).value]) + SocGpioPinCount
  {
    match PinDefine(line, defines)
    case None => -1
    case Some(value) =>
      if value in vars then DigitsValue(vars[value]) + SocGpioPinCount
      else if IsNumber(value) then IntValue(value) + SocGpioPinCount
      else -1
  }

  /**
   * With tables whose constant names are `[A-Z_]+` (as `find_var_definitions`
   * builds them), `find_gpio` answers exactly what the number-or-constant
   * header rule resolves, with -1 for no resolution: a name is never a
   * number, so the order of the two checks cannot matter.
   */
  lemma PinCountGpioAgrees(line: string, defines: map<string, string>, vars: map<string, string>)
    requires DigitTable(vars) && NameKeys(vars)
    ensures PinCountGpio(line, defines, vars) ==
      match PinCountRule(NumberOrConstant, line, defines, vars)
      case Some(s) => DigitsValue(s)
      case None => -1
  {
    var d := PinDefine(line, defines);
    if d.Some? && d.value in vars {
      NameIsNotNumber(d.value);
    }
  }

  /**
   * The second half of `find_gpio`, on the tables it has just updated:
   * match the pin-count line, then try the number the define holds and,
   * after it, the constant the define names.
   */
  method ResolvePinCount(line: string, defines: map<string, string>, vars: map<string, string>) returns (gpio: int)
    requires DigitTable(vars)
    ensures gpio == PinCountGpio(line, defines, vars)
  {
    var foundLedEntry := false;
    var builtinLedGpio := -1;
    var matchPinCount := MatchLine(PinCount, line);
    if matchPinCount.Some? {
      var rgbName := matchPinCount.value;
      if rgbName in defines {
        if IsNumber(defines[rgbName]) {
          builtinLedGpio := IntValue(defines[rgbName]) + SocGpioPinCount;
          foundLedEntry := true;
        }
        var rgbValue := defines[rgbName];
        if rgbValue in vars {
          builtinLedGpio := DigitsValue(vars[rgbValue]) + SocGpioPinCount;
          foundLedEntry := true;
        }
        if foundLedEntry {
          return builtinLedGpio;
        }
      }
    }
    return -1;
  }

  class FindLedBuiltinPinCount {
    var defines: map<string, string>
    var varDefinitions: map<string, string>

    /** Constant values are digit strings and constant names are `[A-Z_]+`. */
    ghost predicate Valid()
      reads this
    {
      DigitTable(varDefinitions) && NameKeys(varDefinitions)
    }

    constructor ()
      ensures Valid() && defines == map[] && varDefinitions == map[]
    {
      defines := map[];
      varDefinitions := map[];
    }

    /** `find_gpio`: record the line in both tables, then resolve its pin-count reference. */
    method FindGpio(line: string) returns (gpio: int)
      requires Valid()
      modifies this
      ensures Valid()
      ensures defines == FindDefines(line, old(defines))
      ensures varDefinitions == FindVarDefinitions(line, old(varDefinitions))
      ensures gpio == PinCountGpio(line, defines, varDefinitions)
    {
      defines := FindDefines(line, defines);
      varDefinitions := FindVarDefinitions(line, varDefinitions);
      gpio := ResolvePinCount(line, defines, varDefinitions);
    }
  }
}
