/**
 * The line patterns that the built-in-LED resolvers apply to a
 * pins_arduino.h header, the two symbol-table line parsers, and Python's
 * `int()` on the tokens these produce.
 *
 * Each pattern is written as a sequence of pieces (`Piece`); `Match` reads
 * them in order, and a text is read as `parts` exactly when it begins with
 * those parts and each is what its piece reads there (`Fits`).
 *
 * The patterns that begin with `^.+` let the greedy `.+` run as far as it
 * can, so the match is the one whose tail starts at the rightmost position
 * p >= 1 where the rest of the pattern fits (`LastMatch`).
 */
module LedPatterns {
  import opened Wrappers
  import opened Text

  /** SOC_GPIO_PIN_COUNT of the ESP32: pins above it are RGB-LED pseudo pins. */
  const SocGpioPinCount: nat := 40

  // ---------------------------------------------------------------------
  // Patterns as pieces.

  /**
   * One element of the patterns below. Every pattern here reads each piece
   * as far as it goes and never has to give characters back: the piece
   * after a run can never start with a character of the run, and an
   * optional character is always followed by something it cannot be.
   */
  datatype Piece =
    | Word(text: string)      // a literal
    | Many(cls: CharClass)    // `[class]+`, as long as it runs
    | Maybe(c: char)          // `c?`, taken when present

  /** The character classes of the patterns: ` `, `[A-Z_]`, `[A-Z_\d]`, `\d` and `[\(\= ]`. */
  datatype CharClass = Spaces | NameChars | TokenChars | Digits | LedSeparators

  predicate InClass(cls: CharClass, c: char) {
    match cls
    case Spaces => IsSpace(c)
    case NameChars => IsNameChar(c)
    case TokenChars => IsTokenChar(c)
    case Digits => IsDigit(c)
    case LedSeparators => IsLedSeparator(c)
  }

  /** The length of the run of `cls` characters that `t` starts with. */
  function Run(t: string, cls: CharClass): (n: nat)
    ensures n <= |t| && forall k | 0 <= k < n :: InClass(cls, t[k])
    ensures n == |t| || !InClass(cls, t[n])
    decreases |t|
  {
    if t != [] && InClass(cls, t[0]) then
      var n := 1 + Run(t[1..], cls);
      assert forall k | 1 <= k < n :: t[k] == t[1..][k - 1];
      n
    else
      0
  }

  /** What follows a `[class]+` group cannot continue it. */
  predicate Stops(after: string, cls: CharClass) {
    after == [] || !InClass(cls, after[0])
  }

  /** `part` has the shape of `piece`. */
  predicate Shape(piece: Piece, part: string) {
    match piece
    case Word(text) => part == text
    case Many(cls) => |part| >= 1 && forall k | 0 <= k < |part| :: InClass(cls, part[k])
    case Maybe(c) => part == [c] || part == []
  }

  /** `part` is what `piece` reads when the text `after` follows it: a run stops, an absent `c?` is not skipping a `c`. */
  predicate Reads(piece: Piece, part: string, after: string) {
    && Shape(piece, part)
    && (piece.Many? ==> Stops(after, piece.cls))
    && (piece.Maybe? && part == [] ==> after == [] || after[0] != piece.c)
  }

  /** `t` begins with `parts`, one after another, and each part is what its piece reads there. */
  predicate Fits(pieces: seq<Piece>, parts: seq<string>, t: string)
    decreases |pieces|
  {
    && |parts| == |pieces|
    && (pieces != [] ==>
         && parts[0] <= t
         && Reads(pieces[0], parts[0], t[|parts[0]|..])
         && Fits(pieces[1..], parts[1..], t[|parts[0]|..]))
  }

  /** Each part of a fitting text has the shape of its piece. */
  lemma {:induction false} FitsShape(pieces: seq<Piece>, parts: seq<string>, t: string, k: nat)
    requires Fits(pieces, parts, t) && k < |pieces|
    ensures Shape(pieces[k], parts[k])
    decreases k
  {
    if k > 0 {
      FitsShape(pieces[1..], parts[1..], t[|parts[0]|..], k - 1);
    }
  }

  /** One piece read at the start of `t`: the length of what it reads, if it fits there. */
  function Step(t: string, piece: Piece): (r: Option<nat>)
    ensures r.Some? ==> r.value <= |t| && Reads(piece, t[..r.value], t[r.value..])
  {
    match piece
    case Word(text) => Lit(t, 0, text)
    case Many(cls) =>
      var n := Run(t, cls);
      if n == 0 then None
      else
        assert Stops(t[n..], cls) by {
          if n < |t| {
            assert t[n..][0] == t[n];
          }
        }
        Some(n)
    case Maybe(c) =>
      var j := Opt(t, 0, c);
      assert j < |t| ==> t[j..][0] == t[j];
      Some(j)
  }

  /** A part at the start of `t` that its piece reads there is read whole. */
  lemma StepAt(t: string, piece: Piece, part: string)
    requires part <= t && Reads(piece, part, t[|part|..])
    ensures Step(t, piece) == Some(|part|)
  {
    var j := |part|;
    assert t[..j] == part;
    match piece
    case Word(text) =>
    case Many(cls) =>
      assert forall k | 0 <= k < j :: t[k] == part[k];
      if j < |t| {
        assert t[j..][0] == t[j];
      }
    case Maybe(c) =>
      if j < |t| {
        assert t[j] == t[j..][0];
      }
  }

  /** The pieces read one after another from the start of `t`: the part each one reads, if all of them fit. */
  function Match(t: string, pieces: seq<Piece>): Option<seq<string>>
    decreases |pieces|
  {
    if pieces == [] then
      Some([])
    else
      var j :- Step(t, pieces[0]);
      var tail :- Match(t[j..], pieces[1..]);
      Some([t[..j]] + tail)
  }

  /** What `Match` reads fits: the text begins with those parts, each read whole by its piece. */
  lemma {:induction false} MatchFits(t: string, pieces: seq<Piece>)
    ensures Match(t, pieces).Some? ==> Fits(pieces, Match(t, pieces).value, t)
    decreases |pieces|
  {
    if pieces != [] && Match(t, pieces).Some? {
      var j := Step(t, pieces[0]).value;
      MatchFits(t[j..], pieces[1..]);
      var tail := Match(t[j..], pieces[1..]).value;
      var parts := [t[..j]] + tail;
      assert parts[0] == t[..j] && parts[1..] == tail;
    }
  }

  /** A text the parts fit is read back as exactly those parts. */
  lemma {:induction false} MatchOf(t: string, pieces: seq<Piece>, parts: seq<string>)
    requires Fits(pieces, parts, t)
    ensures Match(t, pieces) == Some(parts)
    decreases |pieces|
  {
    if pieces != [] {
      var j := |parts[0]|;
      StepAt(t, pieces[0], parts[0]);
      MatchOf(t[j..], pieces[1..], parts[1..]);
      assert t[..j] == parts[0];
      assert [parts[0]] + parts[1..] == parts;
    }
  }

  // ---------------------------------------------------------------------
  // Symbol-table lines.

  /** `#define +([A-Z_]+) +([A-Z_\d]+)`: the groups are parts 2 and 4. */
  const DefinePattern: seq<Piece> :=
    [Word("#define"), Many(Spaces), Many(NameChars), Many(Spaces), Many(TokenChars)]

  /** `re.match` of the `#define` pattern: the macro name and its value token. */
  function DefineEntry(line: string): (r: Option<(string, string)>)
    ensures r.Some? ==> exists parts | Fits(DefinePattern, parts, line) :: r.value == (parts[2], parts[4])
    ensures r.Some? ==> |r.value.0| >= 1 && AllNameChars(r.value.0)
    ensures r.Some? ==> |r.value.1| >= 1 && AllTokenChars(r.value.1)
  {
    MatchFits(line, DefinePattern);
    var parts :- Match(line, DefinePattern);
    FitsShape(DefinePattern, parts, line, 2);
    FitsShape(DefinePattern, parts, line, 4);
    Some((parts[2], parts[4]))
  }

  /** A line that begins with parts fitting the `#define` pattern reads back as their name and value. */
  lemma DefineRoundTrip(line: string, parts: seq<string>)
    requires Fits(DefinePattern, parts, line)
    ensures DefineEntry(line) == Some((parts[2], parts[4]))
  {
    MatchOf(line, DefinePattern, parts);
  }

  /** `static +const +uint8_t +([A-Z_]+) += +(\d+);`: the groups are parts 6 and 10. */
  const VarPattern: seq<Piece> :=
    [Word("static"), Many(Spaces), Word("const"), Many(Spaces), Word("uint8_t"), Many(Spaces),
     Many(NameChars), Many(Spaces), Word("="), Many(Spaces), Many(Digits), Word(";")]

  /** `re.match` of the `static const uint8_t` pattern: the constant name and its digits. */
  function VarEntry(line: string): (r: Option<(string, string)>)
    ensures r.Some? ==> exists parts | Fits(VarPattern, parts, line) :: r.value == (parts[6], parts[10])
    ensures r.Some? ==> |r.value.0| >= 1 && AllNameChars(r.value.0)
    ensures r.Some? ==> |r.value.1| >= 1 && AllDigits(r.value.1)
  {
    MatchFits(line, VarPattern);
    var parts :- Match(line, VarPattern);
    FitsShape(VarPattern, parts, line, 6);
    FitsShape(VarPattern, parts, line, 10);
    Some((parts[6], parts[10]))
  }

  /** A line that begins with parts fitting the `static const uint8_t` pattern reads back as their name and digits. */
  lemma VarRoundTrip(line: string, parts: seq<string>)
    requires Fits(VarPattern, parts, line)
    ensures VarEntry(line) == Some((parts[6], parts[10]))
  {
    MatchOf(line, VarPattern, parts);
  }

  /** Every value of a `var_definitions` table is a digit string, as its pattern guarantees. */
  predicate DigitTable(t: map<string, string>) {
    forall k | k in t :: AllDigits(t[k])
  }

  /** Store a parsed entry in a symbol table, overwriting an earlier entry of the same name. */
  function Record(t: map<string, string>, e: Option<(string, string)>): (r: map<string, string>)
    ensures e.None? ==> r == t
    ensures e.Some? ==> r.Keys == t.Keys + {e.value.0} && r[e.value.0] == e.value.1
    ensures forall k | k in t && (e.None? || k != e.value.0) :: r[k] == t[k]
  {
    match e
    case Some((name, value)) => t[name := value]
    case None => t
  }

  /** `find_defines`: record the line's `#define`, overwriting an earlier one of the same name. */
  function FindDefines(line: string, defines: map<string, string>): (r: map<string, string>)
    ensures DefineEntry(line).None? ==> r == defines
    ensures DefineEntry(line).Some? ==> r.Keys == defines.Keys + {DefineEntry(line).value.0}
    ensures DefineEntry(line).Some? ==> r[DefineEntry(line).value.0] == DefineEntry(line).value.1
    ensures forall k | k in defines && (DefineEntry(line).None? || k != DefineEntry(line).value.0) :: r[k] == defines[k]
  {
    Record(defines, DefineEntry(line))
  }

  /** `find_var_definitions`: record the line's `static const uint8_t` constant. */
  function FindVarDefinitions(line: string, vars: map<string, string>): (r: map<string, string>)
    ensures DigitTable(vars) ==> DigitTable(r)
    ensures NameKeys(vars) ==> NameKeys(r)
    ensures VarEntry(line).None? ==> r == vars
    ensures VarEntry(line).Some? ==> r.Keys == vars.Keys + {VarEntry(line).value.0}
    ensures VarEntry(line).Some? ==> r[VarEntry(line).value.0] == VarEntry(line).value.1
    ensures forall k | k in vars && (VarEntry(line).None? || k != VarEntry(line).value.0) :: r[k] == vars[k]
  {
    Record(vars, VarEntry(line))
  }

  /** The table that a line parser `entry` builds from `lines`, starting from `t`. */
  function TableOf(entry: string -> Option<(string, string)>, t: map<string, string>, lines: seq<string>): map<string, string>
  {
    if lines == [] then t else Record(TableOf(entry, t, lines[..|lines| - 1]), entry(lines[|lines| - 1]))
  }

  /** The `defines` table after reading `lines` into `t`. */
  function DefinesOf(t: map<string, string>, lines: seq<string>): map<string, string> {
    TableOf(DefineEntry, t, lines)
  }

  /** The `var_definitions` table after reading `lines` into `t`. */
  function VarsOf(t: map<string, string>, lines: seq<string>): map<string, string> {
    TableOf(VarEntry, t, lines)
  }

  /** Line `i` declares `name` (with any value). */
  predicate Declares(entry: string -> Option<(string, string)>, lines: seq<string>, i: nat, name: string)
    requires i < |lines|
  {
    entry(lines[i]).Some? && entry(lines[i]).value.0 == name
  }

  /** Reading one more line is one more `Record`. */
  lemma TableOfSnoc(entry: string -> Option<(string, string)>, t: map<string, string>, lines: seq<string>, line: string)
    ensures TableOf(entry, t, lines + [line]) == Record(TableOf(entry, t, lines), entry(line))
  {
    assert (lines + [line])[..|lines|] == lines;
  }

  /** Reading line `i` of a header updates `defines` by one `find_defines` call. */
  lemma DefinesStep(lines: seq<string>, i: nat)
    requires i < |lines|
    ensures DefinesOf(map[], lines[..i + 1]) == FindDefines(lines[i], DefinesOf(map[], lines[..i]))
  {
    assert lines[..i + 1][..i] == lines[..i];
  }

  /** Reading line `i` of a header updates `var_definitions` by one `find_var_definitions` call. */
  lemma VarsStep(lines: seq<string>, i: nat)
    requires i < |lines|
    ensures VarsOf(map[], lines[..i + 1]) == FindVarDefinitions(lines[i], VarsOf(map[], lines[..i]))
  {
    assert lines[..i + 1][..i] == lines[..i];
  }

  /** A name is in the table exactly when it was there already or some line declares it. */
  lemma {:induction false} TableOfKeys(entry: string -> Option<(string, string)>, t: map<string, string>, lines: seq<string>, name: string)
    ensures name in TableOf(entry, t, lines) <==>
      name in t || exists i | 0 <= i < |lines| :: Declares(entry, lines, i, name)
  {
    if lines != [] {
      var init, last := lines[..|lines| - 1], |lines| - 1;
      TableOfKeys(entry, t, init, name);
      assert forall i | 0 <= i < |init| :: Declares(entry, init, i, name) == Declares(entry, lines, i, name);
      assert TableOf(entry, t, lines) == Record(TableOf(entry, t, init), entry(lines[last]));
      if Declares(entry, lines, last, name) {
        assert name in TableOf(entry, t, lines);
      } else if name in TableOf(entry, t, lines) {
        assert name in TableOf(entry, t, init);
      }
    }
  }

  /**
   * A name that some line declares holds the value of the LAST such line:
   * later entries overwrite earlier ones, and a line that declares nothing
   * or another name leaves it alone.
   */
  lemma {:induction false} TableOfLastWins(entry: string -> Option<(string, string)>, t: map<string, string>, lines: seq<string>, name: string, i: nat)
    requires i < |lines| && Declares(entry, lines, i, name)
    requires forall j | i < j < |lines| :: !Declares(entry, lines, j, name)
    ensures name in TableOf(entry, t, lines) && TableOf(entry, t, lines)[name] == entry(lines[i]).value.1
  {
    var init, last := lines[..|lines| - 1], |lines| - 1;
    assert TableOf(entry, t, lines) == Record(TableOf(entry, t, init), entry(lines[last]));
    if i < last {
      assert forall j | i < j < |init| :: Declares(entry, init, j, name) == Declares(entry, lines, j, name);
      assert Declares(entry, init, i, name);
      TableOfLastWins(entry, t, init, name, i);
      assert !Declares(entry, lines, last, name);
    }
  }

  /** A name no line declares keeps its value from the starting table. */
  lemma {:induction false} TableOfUntouched(entry: string -> Option<(string, string)>, t: map<string, string>, lines: seq<string>, name: string)
    requires name in t
    requires forall j | 0 <= j < |lines| :: !Declares(entry, lines, j, name)
    ensures name in TableOf(entry, t, lines) && TableOf(entry, t, lines)[name] == t[name]
  {
    if lines != [] {
      var init := lines[..|lines| - 1];
      assert forall j | 0 <= j < |init| :: Declares(entry, init, j, name) == Declares(entry, lines, j, name);
      assert !Declares(entry, lines, |lines| - 1, name);
      TableOfUntouched(entry, t, init, name);
    }
  }

  /** Every value a `var_definitions` table holds is a digit string. */
  lemma {:induction false} VarsOfDigits(t: map<string, string>, lines: seq<string>)
    requires DigitTable(t)
    ensures DigitTable(VarsOf(t, lines))
  {
    if lines != [] {
      VarsOfDigits(t, lines[..|lines| - 1]);
      assert FindVarDefinitions(lines[|lines| - 1], VarsOf(t, lines[..|lines| - 1])) == VarsOf(t, lines);
    }
  }

  /** Every key of a table is a `[A-Z_]+` name. */
  predicate NameKeys(t: map<string, string>) {
    forall k | k in t :: |k| >= 1 && AllNameChars(k)
  }

  // ---------------------------------------------------------------------
  // LED_BUILTIN lines.

  /** `[\(\= ]`, the separators allowed between LED_BUILTIN and its digits. */
  predicate IsLedSeparator(c: char) { c == '(' || c == '=' || c == ' ' }

  /** The tails (what follows `^.+`) of the four LED_BUILTIN patterns. */
  datatype LedPattern =
    | PinCount       // LED_BUILTIN += +\(?SOC_GPIO_PIN_COUNT +\+ +([A-Z_]+)\)?;
    | BuiltinDigits  //  LED_BUILTIN[\(\= ]+(\d+)\)?
    | Esp8266Digits  //  LED_BUILTIN +\(?(\d+)\)?
    | EqualsDigits   //  LED_BUILTIN = (\d+)

  /**
   * The pieces of a tail. A `\)?` after the last group is left out: an
   * optional character at the end of a pattern never changes whether it
   * matches or what its group holds.
   */
  function Pieces(pat: LedPattern): seq<Piece> {
    match pat
    case PinCount =>
      [Word("LED_BUILTIN"), Many(Spaces), Word("="), Many(Spaces), Maybe('('), Word("SOC_GPIO_PIN_COUNT"),
       Many(Spaces), Word("+"), Many(Spaces), Many(NameChars), Maybe(')'), Word(";")]
    case BuiltinDigits => [Word(" LED_BUILTIN"), Many(LedSeparators), Many(Digits)]
    case Esp8266Digits => [Word(" LED_BUILTIN"), Many(Spaces), Maybe('('), Many(Digits)]
    case EqualsDigits => [Word(" LED_BUILTIN = "), Many(Digits)]
  }

  /** The part that is the tail's group. */
  function Group(pat: LedPattern): nat {
    match pat
    case PinCount => 9
    case BuiltinDigits => 2
    case Esp8266Digits => 3
    case EqualsDigits => 1
  }

  /** The literal a tail starts with. */
  function Marker(pat: LedPattern): string {
    match pat
    case PinCount => "LED_BUILTIN"
    case BuiltinDigits => " LED_BUILTIN"
    case Esp8266Digits => " LED_BUILTIN"
    case EqualsDigits => " LED_BUILTIN = "
  }

  /** The group when the pattern's tail matches at position `p`. */
  function TailAt(pat: LedPattern, s: string, p: nat): (r: Option<string>)
    requires p <= |s|
    ensures r.Some? ==> exists parts | Fits(Pieces(pat), parts, s[p..]) :: r.value == parts[Group(pat)]
    ensures r.Some? ==> |r.value| >= 1
    ensures r.Some? && pat.PinCount? ==> AllNameChars(r.value)
    ensures r.Some? && !pat.PinCount? ==> AllDigits(r.value)
  {
    MatchFits(s[p..], Pieces(pat));
    var parts :- Match(s[p..], Pieces(pat));
    var g := Group(pat);
    FitsShape(Pieces(pat), parts, s[p..], g);
    Some(parts[g])
  }

  /** Parts that fit a tail, written at `p`, match there with the group they put in place. */
  lemma TailRoundTrip(pat: LedPattern, s: string, p: nat, parts: seq<string>)
    requires p <= |s| && Fits(Pieces(pat), parts, s[p..])
    ensures TailAt(pat, s, p) == Some(parts[Group(pat)])
  {
    MatchOf(s[p..], Pieces(pat), parts);
  }

  /** The tail of `pat` matches at position `p` of `s`. */
  predicate MatchesAt(pat: LedPattern, s: string, p: nat) {
    p <= |s| && TailAt(pat, s, p).Some?
  }

  /** `s` holds the tail's first literal at `q`. */
  predicate MarkerAt(pat: LedPattern, s: string, q: nat) {
    q + |Marker(pat)| <= |s| && s[q..q + |Marker(pat)|] == Marker(pat)
  }

  /** A text that parts of a tail fit begins with the tail's first literal. */
  lemma FitsMarker(pat: LedPattern, parts: seq<string>, t: string)
    requires Fits(Pieces(pat), parts, t)
    ensures |Marker(pat)| <= |t| && t[..|Marker(pat)|] == Marker(pat)
  {
    FitsShape(Pieces(pat), parts, t, 0);
    assert Pieces(pat)[0] == Word(Marker(pat));
  }

  /** A tail matches only where its first literal is. */
  lemma MatchNeedsMarker(pat: LedPattern, s: string, q: nat)
    ensures MatchesAt(pat, s, q) ==> MarkerAt(pat, s, q)
  {
    if MatchesAt(pat, s, q) {
      var t := s[q..];
      var parts :| Fits(Pieces(pat), parts, t);
      FitsMarker(pat, parts, t);
      assert s[q..q + |Marker(pat)|] == t[..|Marker(pat)|];
    }
  }

  /** The rightmost position in [1, q] where the tail matches. */
  function LastMatch(pat: LedPattern, line: string, q: int): (r: Option<nat>)
    requires q < |line|
    ensures r.Some? ==> 1 <= r.value <= q && MatchesAt(pat, line, r.value)
    ensures forall p | (if r.Some? then r.value else 0) < p <= q :: !MatchesAt(pat, line, p)
    decreases q
  {
    if q < 1 then None
    else if MatchesAt(pat, line, q) then Some(q)
    else LastMatch(pat, line, q - 1)
  }

  /** `re.match(r"^.+" + tail, line)`: the group of the match, if any. */
  function MatchLine(pat: LedPattern, line: string): (r: Option<string>)
    ensures r.Some? ==> |r.value| >= 1
    ensures r.Some? && pat.PinCount? ==> AllNameChars(r.value)
    ensures r.Some? && !pat.PinCount? ==> AllDigits(r.value)
    ensures r.Some? <==> exists p | 1 <= p < |line| :: MatchesAt(pat, line, p)
    ensures r.Some? ==> exists p | 1 <= p < |line| ::
      r == TailAt(pat, line, p) && forall q | p < q < |line| :: !MatchesAt(pat, line, q)
  {
    var found := LastMatch(pat, line, |line| - 1);
    if found.None? then None else TailAt(pat, line, found.value)
  }

  /** The match is the one at the rightmost position from 1 on where the tail fits. */
  lemma MatchLineAt(pat: LedPattern, line: string, p: nat)
    requires 1 <= p < |line| && MatchesAt(pat, line, p)
    requires forall q | p < q < |line| :: !MatchesAt(pat, line, q)
    ensures MatchLine(pat, line) == TailAt(pat, line, p)
  {
    var r := MatchLine(pat, line);
    var p' :| 1 <= p' < |line| && r == TailAt(pat, line, p') && forall q | p' < q < |line| :: !MatchesAt(pat, line, q);
    assert MatchesAt(pat, line, p');
    assert p' == p;
  }

  /** Shifting a text by a prefix shifts where its literals are. */
  lemma MarkerShift(pat: LedPattern, pre: string, t: string, q: nat)
    requires |pre| <= q
    ensures MarkerAt(pat, pre + t, q) == MarkerAt(pat, t, q - |pre|)
  {
    var n := |Marker(pat)|;
    if q + n <= |pre + t| {
      assert (pre + t)[q..q + n] == t[q - |pre|..q - |pre| + n];
    }
  }

  /**
   * A line made of some non-empty text and then a text `t` that begins with
   * parts fitting a tail, where the tail's first literal does not start
   * again later in `t`, matches with the group those parts put in place.
   */
  lemma LineRoundTrip(pat: LedPattern, pre: string, t: string, parts: seq<string>)
    requires |pre| >= 1 && Fits(Pieces(pat), parts, t)
    requires forall q | 0 < q < |t| :: !MarkerAt(pat, t, q)
    ensures MatchLine(pat, pre + t) == Some(parts[Group(pat)])
  {
    var line := pre + t;
    assert line[|pre|..] == t;
    TailRoundTrip(pat, line, |pre|, parts);
    forall q | |pre| < q < |line|
      ensures !MatchesAt(pat, line, q)
    {
      MatchNeedsMarker(pat, line, q);
      MarkerShift(pat, pre, t, q);
    }
    MatchLineAt(pat, line, |pre|);
  }

  /** `#define LED_BUILTIN 13` reads as GPIO 13. */
  lemma BuiltinDigitsExample()
    ensures MatchLine(BuiltinDigits, "#define LED_BUILTIN 13") == Some("13")
  {
    var t := " LED_BUILTIN 13";
    var parts := [" LED_BUILTIN", " ", "13"];
    assert Fits([Many(Digits)], ["13"], "13");
    assert Fits([Many(LedSeparators), Many(Digits)], [" ", "13"], " 13");
    assert Fits(Pieces(BuiltinDigits), parts, t);
    forall q | 0 < q < |t|
      ensures !MarkerAt(BuiltinDigits, t, q)
    {
      if q + 12 <= |t| {
        assert t[q..q + 12][0] == t[q] != ' ';
      }
    }
    assert "#define" + t == "#define LED_BUILTIN 13";
    LineRoundTrip(BuiltinDigits, "#define", t, parts);
  }

  // ---------------------------------------------------------------------
  // Python's int() on the `[A-Z_\d]+` tokens of a `#define`.

  /**
   * `int(s)` succeeds on a token of `[A-Z_\d]+` exactly when it is digit
   * groups joined by single underscores (`\d+(_\d+)*`).
   */
  predicate IsNumber(s: string) {
    && |s| >= 1
    && IsDigit(s[0]) && IsDigit(s[|s| - 1])
    && (forall i | 0 <= i < |s| :: IsDigit(s[i]) || s[i] == '_')
    && (forall i | 0 <= i < |s| - 1 :: s[i] == '_' ==> s[i + 1] != '_')
  }

  function DropUnderscores(s: string): (r: string)
    ensures (forall i | 0 <= i < |s| :: IsDigit(s[i]) || s[i] == '_') ==> AllDigits(r)
    ensures '_' !in s ==> r == s
  {
    if s == [] then []
    else (if s[0] == '_' then [] else [s[0]]) + DropUnderscores(s[1..])
  }

  /** The value `int(s)` gives for a number token. */
  function IntValue(s: string): nat
    requires IsNumber(s)
  {
    DigitsValue(DropUnderscores(s))
  }

  /** A plain digit string is a number and `int` reads it as its decimal value. */
  lemma DigitStringIsNumber(s: string)
    requires |s| >= 1 && AllDigits(s)
    ensures IsNumber(s) && IntValue(s) == DigitsValue(s)
  {
    assert forall i | 0 <= i < |s| :: s[i] != '_';
  }

  /** A `[A-Z_]+` name is never a number: `int` rejects its first character. */
  lemma NameIsNotNumber(s: string)
    requires |s| >= 1 && AllNameChars(s)
    ensures !IsNumber(s)
  {
    assert IsNameChar(s[0]);
  }
}
