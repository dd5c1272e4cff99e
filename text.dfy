/**
 * Character classes, decimal numerals, and the small matching primitives
 * out of which every hand-written pattern matcher of the model is built.
 *
 * A Python `re.match` pattern is anchored at the start of the line and not at
 * its end. Each pattern of the scanners is a chain of literals and runs
 * (`x+` over one character class); since every run is followed by a literal
 * or class it cannot start, the backtracking engine always ends with the
 * longest run, so a run is modelled by its longest stretch (`Span`).
 * `\d` and `[A-Z]` are taken as ASCII classes.
 */
module Text {
  import opened Wrappers

  predicate IsDigit(c: char) { '0' <= c <= '9' }

  /** `[A-Z_]`, the class of macro and constant names in pins_arduino.h. */
  predicate IsNameChar(c: char) { 'A' <= c <= 'Z' || c == '_' }

  /** `[A-Z_\d]`, the class of a `#define` value token. */
  predicate IsTokenChar(c: char) { IsNameChar(c) || IsDigit(c) }

  predicate AllDigits(s: string) {
    forall i | 0 <= i < |s| :: IsDigit(s[i])
  }

  predicate AllNameChars(s: string) {
    forall i | 0 <= i < |s| :: IsNameChar(s[i])
  }

  predicate AllTokenChars(s: string) {
    forall i | 0 <= i < |s| :: IsTokenChar(s[i])
  }

  /** A decimal numeral as Python's `str` prints a natural number: no leading zero. */
  predicate IsCanonicalNumeral(s: string) {
    |s| >= 1 && AllDigits(s) && (|s| > 1 ==> s[0] != '0')
  }

  function DigitValue(c: char): nat
    requires IsDigit(c)
  {
    (c as int - '0' as int) as nat
  }

  function DigitChar(d: nat): (c: char)
    requires d < 10
    ensures IsDigit(c) && DigitValue(c) == d
  {
    ('0' as int + d) as char
  }

  /** The value of a string of decimal digits (leading zeros allowed, as in Python's `int`). */
  function DigitsValue(s: string): nat
    requires AllDigits(s)
  {
    if s == [] then 0 else DigitsValue(s[..|s| - 1]) * 10 + DigitValue(s[|s| - 1])
  }

  /** Python's `str(n)` for a natural number. */
  function NatToString(n: nat): (s: string)
    ensures IsCanonicalNumeral(s)
    ensures DigitsValue(s) == n
  {
    if n < 10 then [DigitChar(n)]
    else
      var init := NatToString(n / 10);
      var s := init + [DigitChar(n % 10)];
      assert s[..|s| - 1] == init;
      s
  }

  /** The other half of the round trip: printing a canonical numeral's value gives it back. */
  lemma {:induction false} NumeralRoundTrip(s: string)
    requires IsCanonicalNumeral(s)
    ensures NatToString(DigitsValue(s)) == s
  {
    var init := s[..|s| - 1];
    var last := s[|s| - 1];
    if |s| == 1 {
      assert DigitChar(DigitValue(last)) == last;
    } else {
      assert |init| > 1 ==> init[0] == s[0];
      if |init| == 1 {
        assert DigitsValue(init) == DigitValue(init[0]);
      }
      assert DigitsValue(init) > 0 by {
        DigitsValuePositive(init);
      }
      NumeralRoundTrip(init);
      var n := DigitsValue(s);
      assert n == DigitsValue(init) * 10 + DigitValue(last);
      DivModDigit(DigitsValue(init), DigitValue(last));
      assert DigitChar(DigitValue(last)) == last;
      assert NatToString(n) == NatToString(n / 10) + [DigitChar(n % 10)];
      assert s == init + [last];
    }
  }

  /** Dividing `10 * a + d` by ten takes the last digit `d` off. */
  lemma DivModDigit(a: nat, d: nat)
    requires d < 10
    ensures (a * 10 + d) / 10 == a && (a * 10 + d) % 10 == d
  {
  }

  lemma {:induction false} DigitsValuePositive(s: string)
    requires IsCanonicalNumeral(s) && s[0] != '0'
    ensures DigitsValue(s) > 0
  {
    if |s| > 1 {
      var init := s[..|s| - 1];
      assert init[0] == s[0];
      DigitsValuePositive(init);
    }
  }

  // ---------------------------------------------------------------------
  // Matching primitives. Positions are indices into the line.

  /** End of the longest run of `p`-characters starting at `i`. */
  function Span(s: string, i: nat, p: char -> bool): (j: nat)
    requires i <= |s|
    ensures i <= j <= |s|
    ensures forall k | i <= k < j :: p(s[k])
    ensures j < |s| ==> !p(s[j])
    decreases |s| - i
  {
    if i < |s| && p(s[i]) then Span(s, i + 1, p) else i
  }

  /** The longest run of class `p` from `i` ends at `j` when `s[i..j]` is of the class and `s[j]` is not. */
  lemma {:induction false} SpanOver(s: string, i: nat, j: nat, p: char -> bool)
    requires i <= j <= |s| && (forall k | i <= k < j :: p(s[k])) && (j == |s| || !p(s[j]))
    ensures Span(s, i, p) == j
    decreases j - i
  {
    if i < j {
      SpanOver(s, i + 1, j, p);
    }
  }

  /** A literal at `i`: the position just after it, if it is there. */
  function Lit(s: string, i: nat, lit: string): (r: Option<nat>)
    requires i <= |s|
    ensures r.Some? <==> i + |lit| <= |s| && s[i..i + |lit|] == lit
    ensures r.Some? ==> r.value == i + |lit|
  {
    if i + |lit| <= |s| && s[i..i + |lit|] == lit then Some(i + |lit|) else None
  }

  /** An optional single character (`\(?`): skipped when present. */
  function Opt(s: string, i: nat, c: char): (j: nat)
    requires i <= |s|
    ensures j == (if i < |s| && s[i] == c then i + 1 else i)
  {
    if i < |s| && s[i] == c then i + 1 else i
  }

  /**
   * `prefix(.+)` anchored at the start: the non-empty remainder after a
   * literal prefix. The board id that the source splices into its patterns
   * is treated as this literal prefix.
   */
  function After(s: string, prefix: string): (r: Option<string>)
    ensures r.Some? <==> prefix <= s && |s| > |prefix|
    ensures r.Some? ==> s == prefix + r.value && |r.value| >= 1
  {
    if prefix <= s && |s| > |prefix| then Some(s[|prefix|..]) else None
  }

  predicate IsSpace(c: char) { c == ' ' }

  /**
   * The rightmost position in [1, p] that satisfies `m`: where a greedy
   * `^.+` hands over to the rest of a pattern.
   */
  function RightmostAt(m: nat -> bool, p: int): (r: Option<nat>)
    ensures r.Some? ==> 1 <= r.value <= p && m(r.value)
    ensures r.Some? ==> forall q | r.value < q <= p :: !m(q)
    ensures r.None? ==> forall q | 1 <= q <= p :: !m(q)
    decreases p
  {
    if p < 1 then None
    else if m(p) then Some(p)
    else RightmostAt(m, p - 1)
  }

  /** `sep` occurs in `s` at `q` with at least one character after it. */
  predicate SplitsAt(s: string, sep: string, q: nat) {
    q + |sep| < |s| && s[q..q + |sep|] == sep
  }

  /**
   * `(.+)SEP(.+)` anchored at the start of `s` (and running to its end): the
   * greedy first group ends at the LAST occurrence of `sep` that has at
   * least one character before it and one after it.
   */
  function LastSplit(s: string, sep: string): (r: Option<(string, string)>)
    ensures r.Some? <==> exists q | 1 <= q < |s| :: SplitsAt(s, sep, q)
    ensures r.Some? ==> s == r.value.0 + sep + r.value.1 && |r.value.0| >= 1 && |r.value.1| >= 1
    ensures r.Some? ==> SplitsAt(s, sep, |r.value.0|)
    ensures r.Some? ==> forall q | |r.value.0| < q < |s| :: !SplitsAt(s, sep, q)
  {
    var m := (q: nat) => SplitsAt(s, sep, q);
    var found := RightmostAt(m, |s| - 1);
    if found.None? then
      assert forall q | 1 <= q < |s| :: !SplitsAt(s, sep, q) by {
        forall q | 1 <= q < |s| ensures !SplitsAt(s, sep, q) {
          assert !m(q);
        }
      }
      None
    else
      var p := found.value;
      assert forall q | p < q < |s| :: !SplitsAt(s, sep, q) by {
        forall q | p < q < |s| ensures !SplitsAt(s, sep, q) {
          assert !m(q);
        }
      }
      assert s == s[..p] + s[p..p + |sep|] + s[p + |sep|..];
      Some((s[..p], s[p + |sep|..]))
  }

  // ---------------------------------------------------------------------
  // Python `str.strip` and `str.split(sep)`.

  /** The characters for which Python's `str.isspace` holds. */
  predicate IsPyWhitespace(c: char) {
    c == ' ' || ('\t' <= c <= '\U{D}') || ('\U{1C}' <= c <= '\U{1F}') || c == '\U{85}'
    || c == '\U{A0}' || c == '\U{1680}' || ('\U{2000}' <= c <= '\U{200A}')
    || c == '\U{2028}' || c == '\U{2029}' || c == '\U{202F}' || c == '\U{205F}' || c == '\U{3000}'
  }

  predicate AllWhitespace(s: string) {
    forall i | 0 <= i < |s| :: IsPyWhitespace(s[i])
  }

  /** Start of the run of `p` characters that ends at `j`. */
  function RunStart(s: string, j: nat, p: char -> bool): (r: nat)
    requires j <= |s|
    ensures r <= j
    ensures forall k | r <= k < j :: p(s[k])
    ensures r > 0 ==> !p(s[r - 1])
  {
    if j > 0 && p(s[j - 1]) then RunStart(s, j - 1, p) else j
  }

  /** The run of `p` characters ending at `j` starts at `i` when `s[i..j]` is of the class and `s[i - 1]` is not. */
  lemma {:induction false} RunStartOver(s: string, i: nat, j: nat, p: char -> bool)
    requires i <= j <= |s| && (forall k | i <= k < j :: p(s[k])) && (i == 0 || !p(s[i - 1]))
    ensures RunStart(s, j, p) == i
    decreases j - i
  {
    if i < j {
      RunStartOver(s, i, j - 1, p);
    }
  }

  /**
   * The bounds of `s` with the leading and trailing `p` characters cut off;
   * `(|s|, |s|)` when every character is one.
   */
  function TrimBounds(s: string, p: char -> bool): (r: (nat, nat))
    ensures r.0 <= r.1 <= |s|
    ensures forall k | 0 <= k < r.0 :: p(s[k])
    ensures forall k | r.1 <= k < |s| :: p(s[k])
    ensures r.0 < r.1 ==> !p(s[r.0]) && !p(s[r.1 - 1])
  {
    var i := Span(s, 0, p);
    var j := RunStart(s, |s|, p);
    if i == |s| then (i, i) else (i, j)
  }

  /** Python's `str.strip()`. */
  function Strip(s: string): (r: string)
    ensures r == [] <==> AllWhitespace(s)
    ensures r != [] ==> !IsPyWhitespace(r[0]) && !IsPyWhitespace(r[|r| - 1])
    ensures exists i | 0 <= i <= |s| - |r| :: s[i..i + |r|] == r && AllWhitespace(s[..i]) && AllWhitespace(s[i + |r|..])
  {
    var (i, j) := TrimBounds(s, IsPyWhitespace);
    assert i == j ==> i == |s| && s[..i] == s;
    assert AllWhitespace(s[..i]) && AllWhitespace(s[j..]);
    s[i..j]
  }

  /** Index of the first `c` in `s`, or `|s|` when there is none. */
  function IndexOf(s: string, c: char): (i: nat)
    ensures i <= |s|
    ensures forall k | 0 <= k < i :: s[k] != c
    ensures i < |s| ==> s[i] == c
  {
    Span(s, 0, x => x != c)
  }

  /** Python's `s.split(sep)` for a one-character separator. */
  function Split(s: string, sep: char): (parts: seq<string>)
    ensures |parts| >= 1
    ensures forall k | 0 <= k < |parts| :: sep !in parts[k]
    decreases |s|
  {
    var i := IndexOf(s, sep);
    if i == |s| then [s] else [s[..i]] + Split(s[i + 1..], sep)
  }

  /** `sep.join(parts)`, the inverse of `Split`. */
  function Join(parts: seq<string>, sep: char): string
    requires |parts| >= 1
  {
    if |parts| == 1 then parts[0] else parts[0] + [sep] + Join(parts[1..], sep)
  }

  lemma {:induction false} SplitJoin(s: string, sep: char)
    ensures Join(Split(s, sep), sep) == s
    decreases |s|
  {
    var i := IndexOf(s, sep);
    if i < |s| {
      SplitJoin(s[i + 1..], sep);
      assert s == s[..i] + [sep] + s[i + 1..];
    }
  }

  lemma {:induction false} JoinSplit(parts: seq<string>, sep: char)
    requires |parts| >= 1
    requires forall k | 0 <= k < |parts| :: sep !in parts[k]
    ensures Split(Join(parts, sep), sep) == parts
  {
    if |parts| > 1 {
      var s := Join(parts, sep);
      var p := parts[0];
      assert s == p + [sep] + Join(parts[1..], sep);
      assert s[..|p|] == p;
      assert s[|p|] == sep;
      assert forall k | 0 <= k < |p| :: s[k] == p[k] && p[k] in p;
      assert IndexOf(s, sep) == |p|;
      assert s[|p| + 1..] == Join(parts[1..], sep);
      JoinSplit(parts[1..], sep);
    } else {
      assert forall k | 0 <= k < |parts[0]| :: parts[0][k] in parts[0];
      assert IndexOf(parts[0], sep) == |parts[0]|;
    }
  }

  // ---------------------------------------------------------------------
  // Line-by-line readers: a parser applied to every line, skips dropped.

  /** What `parse` makes of the lines it does not skip, in line order. */
  function Kept<T>(parse: string -> Option<T>, lines: seq<string>): seq<T> {
    if lines == [] then []
    else
      Kept(parse, lines[..|lines| - 1]) + match parse(lines[|lines| - 1]) case Some(x) => [x] case None => []
  }

  /** Reading one more line adds what the parser made of it, if anything. */
  lemma KeptStep<T>(parse: string -> Option<T>, lines: seq<string>, i: nat, x: Option<T>)
    requires i < |lines| && parse(lines[i]) == x
    ensures Kept(parse, lines[..i + 1]) == Kept(parse, lines[..i]) + if x.Some? then [x.value] else []
  {
    assert lines[..i + 1][..i] == lines[..i];
  }

  /** When everything the parser makes has property `ok`, so has everything it keeps. */
  lemma {:induction false} KeptSatisfy<T>(parse: string -> Option<T>, lines: seq<string>, ok: T -> bool)
    requires forall line :: parse(line).Some? ==> ok(parse(line).value)
    ensures forall k | 0 <= k < |Kept(parse, lines)| :: ok(Kept(parse, lines)[k])
  {
    if lines != [] {
      KeptSatisfy(parse, lines[..|lines| - 1], ok);
    }
  }

  /** Lines the parser skips leave what it keeps alone, wherever they stand. */
  lemma {:induction false} SkippedLinesIgnored<T>(parse: string -> Option<T>, before: seq<string>, after: seq<string>, line: string)
    requires parse(line).None?
    ensures Kept(parse, before + [line] + after) == Kept(parse, before + after)
    decreases |after|
  {
    if after == [] {
      assert (before + [line])[..|before|] == before;
      assert before + [line] + after == before + [line];
      assert before + after == before;
    } else {
      var init := after[..|after| - 1];
      SkippedLinesIgnored(parse, before, init, line);
      assert (before + [line] + after)[..|before + [line] + after| - 1] == before + [line] + init;
      assert (before + after)[..|before + after| - 1] == before + init;
    }
  }

  /** Lines the parser accepts one by one give exactly what it made of them, in order. */
  lemma {:induction false} KeptAll<T>(parse: string -> Option<T>, lines: seq<string>, xs: seq<T>)
    requires |lines| == |xs| && forall k | 0 <= k < |lines| :: parse(lines[k]) == Some(xs[k])
    ensures Kept(parse, lines) == xs
  {
    if lines != [] {
      var n := |lines| - 1;
      assert forall k | 0 <= k < n :: lines[..n][k] == lines[k] && xs[..n][k] == xs[k];
      KeptAll(parse, lines[..n], xs[..n]);
      assert xs == xs[..n] + [xs[n]];
    }
  }

  /** Each line yields at most one result, so there are never more results than lines. */
  lemma {:induction false} KeptAtMostLines<T>(parse: string -> Option<T>, lines: seq<string>)
    ensures |Kept(parse, lines)| <= |lines|
  {
    if lines != [] {
      KeptAtMostLines(parse, lines[..|lines| - 1]);
    }
  }
}
