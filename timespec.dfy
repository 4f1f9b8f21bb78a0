/**
 * The duration parser and formatter shared by the captcha and purgepins cogs
 * (`UNIT_TABLE`, `_find_unit`, `_parse_time`, `_timespec_sec`,
 * `_generate_timespec`; both files carry the same copy).
 *
 * `_parse_time` lower-cases its text, returns `int(text)` for an all-digit
 * text, and otherwise splits it with the regular expression
 * `\s*([\d.]+\s*[^\d\s,;]*)(?:[,;\s]|and)*`, hands every non-empty piece to
 * `_timespec_sec`, sums the results and truncates to an integer.
 * `_timespec_sec` splits its piece once more with `([\d.]+)\s*([^\d\s]*)`
 * into a number and a unit word. The two splits are modelled as scanners
 * (SplitTime, SplitAtoms) that walk the text as `re.split` searches it; the
 * floating-point values are exact reals, with infinities and NaN kept apart
 * because `float()` accepts their spellings.
 */
module TimeSpec {
  import opened Wrappers
  import opened Text

  /** One row of `UNIT_TABLE`: the long, short and micro names and the length in seconds. */
  datatype UnitRow = UnitRow(long: string, short: string, micro: string, length: nat)

  const UnitTable: seq<UnitRow> := [
    UnitRow("weeks", "wks", "w", 60 * 60 * 24 * 7),
    UnitRow("days", "dys", "d", 60 * 60 * 24),
    UnitRow("hours", "hrs", "h", 60 * 60),
    UnitRow("minutes", "mins", "m", 60),
    UnitRow("seconds", "secs", "s", 1)
  ]

  /** The exceptions the parser and the formatter can raise. */
  datatype TimeError =
    | InvalidUnit(unit: string)          // BadTimeExpr("Invalid unit: ...")
    | NotANumber(number: string)         // BadTimeExpr("Not a number: ...")
    | InvalidExpression(expr: string)    // BadTimeExpr("invalid expression: ...")
    | NotAFloat(text: string)            // ValueError raised by float()
    | MissingAtom                        // IndexError: atoms[0] of an empty split
    | InfiniteTotal                      // OverflowError: int() of an infinite sum
    | NaNTotal                           // ValueError: int() of a NaN sum
    | NoComponents                       // IndexError: timespec[0] when sec == 0
  {
    /** The errors raised as `BadTimeExpr`, the only ones purgepins catches. */
    predicate IsBadTimeExpr() {
      InvalidUnit? || NotANumber? || InvalidExpression?
    }
  }

  predicate RowMatches(row: UnitRow, unit: string) {
    StartsWith(row.long, unit) || StartsWith(row.short, unit) || StartsWith(row.micro, unit)
  }

  function FindUnitFrom(unit: string, i: nat): Result<nat, TimeError>
    requires i <= |UnitTable|
    decreases |UnitTable| - i
  {
    if i == |UnitTable| then Err(InvalidUnit(unit))
    else if RowMatches(UnitTable[i], unit) then Ok(i)
    else FindUnitFrom(unit, i + 1)
  }

  /** The search from row `i` finds the first matching row at or after `i`, or reports the unit. */
  lemma {:induction false} FindUnitFromSpec(unit: string, i: nat)
    requires i <= |UnitTable|
    ensures FindUnitFrom(unit, i).Ok? ==>
              i <= FindUnitFrom(unit, i).value < |UnitTable|
              && RowMatches(UnitTable[FindUnitFrom(unit, i).value], unit)
              && forall k :: i <= k < FindUnitFrom(unit, i).value ==> !RowMatches(UnitTable[k], unit)
    ensures FindUnitFrom(unit, i).Err? ==>
              FindUnitFrom(unit, i).error == InvalidUnit(unit)
              && forall k :: i <= k < |UnitTable| ==> !RowMatches(UnitTable[k], unit)
    decreases |UnitTable| - i
  {
    if i < |UnitTable| && !RowMatches(UnitTable[i], unit) {
      FindUnitFromSpec(unit, i + 1);
    }
  }

  /**
   * `_find_unit`: the index of the first row, weeks first, with a name that
   * starts with `unit`; `InvalidUnit` when there is none.
   */
  function FindUnit(unit: string): Result<nat, TimeError> {
    FindUnitFrom(unit, 0)
  }

  /** `_find_unit` returns the first row with a name that starts with `unit`, and fails exactly when no row has one. */
  lemma FindUnitSpec(unit: string)
    ensures FindUnit(unit).Ok? ==>
              FindUnit(unit).value < |UnitTable| && RowMatches(UnitTable[FindUnit(unit).value], unit)
              && forall k :: 0 <= k < FindUnit(unit).value ==> !RowMatches(UnitTable[k], unit)
    ensures FindUnit(unit).Err? <==> forall k :: 0 <= k < |UnitTable| ==> !RowMatches(UnitTable[k], unit)
    ensures FindUnit(unit).Err? ==> FindUnit(unit).error == InvalidUnit(unit)
  {
    FindUnitFromSpec(unit, 0);
  }

  // ---------------------------------------------------------------------------
  // Character classes of the two regular expressions

  predicate IsNumChar(c: char) { IsDigit(c) || c == '.' }

  /** `[^\d\s,;]`: a character of a unit word in the outer split. */
  predicate IsUnitChar(c: char) { !IsDigit(c) && !IsSpace(c) && c != ',' && c != ';' }

  /** `[^\d\s]`: a character of a unit word in the inner split. */
  predicate IsAtomUnitChar(c: char) { !IsDigit(c) && !IsSpace(c) }

  predicate IsSepChar(c: char) { c == ',' || c == ';' || IsSpace(c) }

  /** The end of the match of `(?:[,;\s]|and)*` that starts at index `i` of `s`. */
  function SepEnd(s: string, i: nat): (j: nat)
    requires i <= |s|
    ensures i <= j <= |s|
    decreases |s| - i
  {
    if i < |s| && IsSepChar(s[i]) then SepEnd(s, i + 1)
    else if i + 3 <= |s| && s[i] == 'a' && s[i + 1] == 'n' && s[i + 2] == 'd' then SepEnd(s, i + 3)
    else i
  }

  /** `filter(None, ...)` applied to one piece of a split. */
  function Keep(s: string): seq<string> {
    if s == [] then [] else [s]
  }

  /**
   * A match of the outer pattern: `s[start..end]` is the captured group and
   * the search goes on at `next`.
   */
  datatype Match = Match(start: nat, end: nat, next: nat)

  /**
   * The match of `\s*([\d.]+\s*[^\d\s,;]*)(?:[,;\s]|and)*` that starts at
   * index `i`, if any: white space leading to a digit or a dot, then the
   * number, white space, the unit word and the separators.
   */
  function MatchAt(s: string, i: nat): (m: Option<Match>)
    requires i <= |s|
    ensures m.Some? ==> i <= m.value.start < m.value.end <= m.value.next <= |s|
  {
    var w := Span(s, i, IsSpace);
    if w < |s| && IsNumChar(s[w]) then
      var d := Span(s, w, IsNumChar);
      var g := Span(s, d, IsSpace);
      var u := Span(s, g, IsUnitChar);
      Some(Match(w, u, SepEnd(s, u)))
    else None
  }

  /**
   * `filter(None, re.split(r'\s*([\d.]+\s*[^\d\s,;]*)(?:[,;\s]|and)*', s[start..]))`
   * where the search has passed over `s[start..i]` without a match: at each
   * index either a match begins, and the text before it and its group are
   * pieces, or the search moves one character on.
   */
  function SplitTimeFrom(s: string, i: nat, start: nat): seq<string>
    requires start <= i <= |s|
    decreases |s| - i
  {
    if i == |s| then Keep(s[start..])
    else
      match MatchAt(s, i)
      case Some(m) => Keep(s[start..i]) + [s[m.start..m.end]] + SplitTimeFrom(s, m.next, m.next)
      case None => SplitTimeFrom(s, i + 1, start)
  }

  /** `filter(None, ...)` leaves no empty piece. */
  lemma {:induction false} SplitTimeFromNonEmpty(s: string, i: nat, start: nat)
    requires start <= i <= |s|
    ensures forall k :: 0 <= k < |SplitTimeFrom(s, i, start)| ==> SplitTimeFrom(s, i, start)[k] != []
    decreases |s| - i
  {
    if i < |s| {
      match MatchAt(s, i)
      case Some(m) => SplitTimeFromNonEmpty(s, m.next, m.next);
      case None => SplitTimeFromNonEmpty(s, i + 1, start);
    }
  }

  function SplitTime(s: string): seq<string> {
    SplitTimeFrom(s, 0, 0)
  }

  /**
   * `filter(None, re.split(r'([\d.]+)\s*([^\d\s]*)', s[start..]))` where
   * the search has passed over `s[start..i]`: every match yields its number
   * and its unit word as two pieces.
   */
  function AtomsFrom(s: string, i: nat, start: nat): seq<string>
    requires start <= i <= |s|
    decreases |s| - i
  {
    if i == |s| then Keep(s[start..])
    else if IsNumChar(s[i]) then
      var d := Span(s, i, IsNumChar);
      var g := Span(s, d, IsSpace);
      var u := Span(s, g, IsAtomUnitChar);
      Keep(s[start..i]) + [s[i..d]] + Keep(s[g..u]) + AtomsFrom(s, u, u)
    else AtomsFrom(s, i + 1, start)
  }

  /** `filter(None, ...)` leaves no empty atom. */
  lemma {:induction false} AtomsFromNonEmpty(s: string, i: nat, start: nat)
    requires start <= i <= |s|
    ensures forall k :: 0 <= k < |AtomsFrom(s, i, start)| ==> AtomsFrom(s, i, start)[k] != []
    decreases |s| - i
  {
    if i < |s| {
      if IsNumChar(s[i]) {
        var d := Span(s, i, IsNumChar);
        var g := Span(s, d, IsSpace);
        var u := Span(s, g, IsAtomUnitChar);
        AtomsFromNonEmpty(s, u, u);
      } else {
        AtomsFromNonEmpty(s, i + 1, start);
      }
    }
  }

  function SplitAtoms(s: string): seq<string> {
    AtomsFrom(s, 0, 0)
  }

  // ---------------------------------------------------------------------------
  // float() and the arithmetic on its results

  /** A Python float, with its finite values as exact reals. */
  datatype FloatVal = Finite(r: real) | PosInf | NegInf | NaN

  function Add(a: FloatVal, b: FloatVal): FloatVal {
    match (a, b)
    case (NaN, _) => NaN
    case (_, NaN) => NaN
    case (PosInf, NegInf) => NaN
    case (NegInf, PosInf) => NaN
    case (PosInf, _) => PosInf
    case (_, PosInf) => PosInf
    case (NegInf, _) => NegInf
    case (_, NegInf) => NegInf
    case (Finite(x), Finite(y)) => Finite(x + y)
  }

  /** `v * length` for a positive unit length. */
  function Scale(v: FloatVal, length: nat): FloatVal
    requires length > 0
  {
    match v
    case Finite(x) => Finite(x * length as real)
    case _ => v
  }

  /** A run of digits and dots with at most one dot and at least one digit. */
  predicate IsDecimal(s: string) {
    (forall k :: 0 <= k < |s| ==> IsNumChar(s[k])) && Count(s, '.') <= 1
    && exists k :: 0 <= k < |s| && IsDigit(s[k])
  }

  function Pow10(n: nat): (p: nat)
    ensures p > 0
  {
    if n == 0 then 1 else 10 * Pow10(n - 1)
  }

  function IndexOfDot(s: string): (i: nat)
    ensures i <= |s| && forall k :: 0 <= k < i ==> s[k] != '.'
    ensures i < |s| ==> s[i] == '.'
  {
    if s == [] || s[0] == '.' then 0 else 1 + IndexOfDot(s[1..])
  }

  lemma {:induction false} NoDotAfterOnlyDot(s: string)
    requires Count(s, '.') <= 1
    ensures forall k :: IndexOfDot(s) < k < |s| ==> s[k] != '.'
  {
    if s != [] && s[0] != '.' {
      NoDotAfterOnlyDot(s[1..]);
    } else if s != [] {
      CountZero(s[1..], '.');
    }
  }

  lemma {:induction false} CountZero(s: string, c: char)
    requires Count(s, c) == 0
    ensures forall k :: 0 <= k < |s| ==> s[k] != c
  {
    if s != [] {
      CountZero(s[1..], c);
    }
  }

  /** The value of a decimal literal such as `12`, `1.5`, `.5` or `3.`. */
  function DecimalValue(s: string): real
    requires IsDecimal(s)
  {
    var i := IndexOfDot(s);
    NoDotAfterOnlyDot(s);
    if i == |s| then DigitsValue(s) as real
    else DigitsValue(s[..i]) as real + DigitsValue(s[i + 1..]) as real / Pow10(|s| - i - 1) as real
  }

  /**
   * `float(t)` for the texts that can reach it here: runs of digits and dots
   * (a sign never precedes them), and texts without any digit or dot, of
   * which only the spellings of infinity and NaN convert. Exponents and
   * underscores cannot reach `float()`: the splits cut the text at every
   * character that is not a digit or a dot.
   */
  function FloatOf(t: string): Option<FloatVal> {
    var s := Strip(t);
    var signed := s != [] && (s[0] == '-' || s[0] == '+');
    var negative := s != [] && s[0] == '-';
    var body := if signed then s[1..] else s;
    if IsDecimal(body) then Some(Finite(if negative then -DecimalValue(body) else DecimalValue(body)))
    else if LowerIs(body, "inf") || LowerIs(body, "infinity") then Some(if negative then NegInf else PosInf)
    else if LowerIs(body, "nan") then Some(NaN)
    else None
  }

  /** `float(text) * length`, the value `_timespec_sec` returns, given `f`, the result of `float(text)`. */
  function Scaled(f: Option<FloatVal>, text: string, row: nat): Result<FloatVal, TimeError>
    requires row < |UnitTable|
  {
    match f
    case None => Err(NotAFloat(text))
    case Some(v) => Ok(Scale(v, UnitTable[row].length))
  }

  /**
   * `_timespec_sec`: the seconds of one number+unit expression. More than
   * two atoms is an invalid expression; with two, the unit is looked up
   * first and then the number must have at most one dot and some digit;
   * a lone atom is a number of seconds.
   */
  function TimespecSec(expr: string): Result<FloatVal, TimeError> {
    var atoms := SplitAtoms(expr);
    if |atoms| > 2 then Err(InvalidExpression(expr))
    else if |atoms| == 2 then
      match FindUnit(atoms[1])
      case Err(e) => Err(e)
      case Ok(row) =>
        if Count(atoms[0], '.') > 1 || !IsDigitString(Remove(atoms[0], '.')) then Err(NotANumber(atoms[0]))
        else Scaled(FloatOf(atoms[0]), atoms[0], row)
    else
      match FindUnit("seconds")
      case Err(e) => Err(e)
      case Ok(row) => if |atoms| == 0 then Err(MissingAtom) else Scaled(FloatOf(atoms[0]), atoms[0], row)
  }

  /**
   * `sum(map(convert, pieces))` started from `acc`, stopping at the first
   * exception; `_parse_time` maps `_timespec_sec`.
   */
  function SumPieces(pieces: seq<string>, acc: FloatVal, convert: string -> Result<FloatVal, TimeError>)
    : Result<FloatVal, TimeError>
    decreases |pieces|
  {
    if pieces == [] then Ok(acc)
    else
      match convert(pieces[0])
      case Err(e) => Err(e)
      case Ok(v) => SumPieces(pieces[1..], Add(acc, v), convert)
  }

  /** Truncation toward zero, as `int()` does to a float. */
  function Trunc(r: real): int {
    if r >= 0.0 then r.Floor else -((-r).Floor)
  }

  /** `int(v)` of a float. */
  function ToInt(v: FloatVal): Result<int, TimeError> {
    match v
    case Finite(r) => Ok(Trunc(r))
    case NaN => Err(NaNTotal)
    case _ => Err(InfiniteTotal)
  }

  /** The general branch of `_parse_time`, for an already lower-cased text. */
  function ParseSplit(t: string): Result<int, TimeError> {
    match SumPieces(SplitTime(t), Finite(0.0), TimespecSec)
    case Err(e) => Err(e)
    case Ok(total) => ToInt(total)
  }

  /**
   * `_parse_time`: lower-case the text; an all-digit text is its own value;
   * anything else goes through the split, the sum and the truncation.
   */
  function ParseTime(time: string): Result<int, TimeError> {
    var t := Lower(time);
    if IsDigitString(t) then Ok(DigitsValue(t)) else ParseSplit(t)
  }

  // ---------------------------------------------------------------------------
  // The formatter


  /** `short` and `micro` pick the name column; `micro` wins over `short`. */
  datatype Style = Long | Short | Micro

  function StyleOf(short: bool, micro: bool): Style {
    if micro then Micro else if short then Short else Long
  }

  function UnitName(unit: UnitRow, style: Style): string {
    match style
    case Long => unit.long
    case Short => unit.short
    case Micro => unit.micro
  }

  /**
   * One entry of the `timespec` list: `'%d %s'` in the long style and
   * `'%d%s'` otherwise, with trailing `s` characters stripped when the
   * count is at most 1.
   */
  function RenderComponent(n: int, unit: UnitRow, style: Style): string {
    var s := if style == Long then IntToString(n) + " " + UnitName(unit, style)
             else IntToString(n) + UnitName(unit, style);
    if n <= 1 then RStrip(s, 's') else s
  }

  predicate PositiveLengths(table: seq<UnitRow>) {
    forall k :: 0 <= k < |table| ==> table[k].length > 0
  }

  /** The entry formatting of one style, as the loop applies it. */
  function Renderer(style: Style): (int, UnitRow) -> string {
    (n: int, unit: UnitRow) => RenderComponent(n, unit, style)
  }

  /**
   * The entries the `divmod` loop renders for rows `i..` of `table`, with
   * `sec` the seconds not yet accounted for: an entry for every non-zero
   * quotient, the remainder passed on to the next row.
   */
  function RenderFrom(table: seq<UnitRow>, sec: int, i: nat, render: (int, UnitRow) -> string): seq<string>
    requires PositiveLengths(table) && i <= |table|
    decreases |table| - i
  {
    if i == |table| then []
    else
      var n := sec / table[i].length;
      (if n != 0 then [render(n, table[i])] else [])
      + RenderFrom(table, sec % table[i].length, i + 1, render)
  }

  /** A non-zero quotient `count` of the unit in row `row`, as the `divmod` loop finds it. */
  datatype Component = Component(count: int, row: nat)

  /** The non-zero quotients the loop finds at rows `i..` of `table` for the remaining `sec`. */
  function ComponentsFrom(table: seq<UnitRow>, sec: int, i: nat): seq<Component>
    requires PositiveLengths(table) && i <= |table|
    decreases |table| - i
  {
    if i == |table| then []
    else
      var n := sec / table[i].length;
      (if n != 0 then [Component(n, i)] else []) + ComponentsFrom(table, sec % table[i].length, i + 1)
  }

  /** The breakdown of `sec` into weeks, days, hours, minutes and seconds. */
  function Components(sec: int): seq<Component> {
    ComponentsFrom(UnitTable, sec, 0)
  }

  /**
   * The final step of `_generate_timespec`: several entries are concatenated
   * (micro) or joined as `a, b and c`; a single entry is returned as it is;
   * no entry at all fails on `timespec[0]`.
   */
  function JoinTimespec(ts: seq<string>, style: Style): Result<string, TimeError> {
    if |ts| > 1 then
      if style == Micro then Ok(JoinWith(ts, ""))
      else Ok(JoinWith(ts[..|ts| - 1], ", ") + " and " + ts[|ts| - 1])
    else if |ts| == 1 then Ok(ts[0])
    else Err(NoComponents)
  }

  /** What `_generate_timespec(sec, short, micro)` returns, for the style the flags pick. */
  function Timespec(sec: int, style: Style): Result<string, TimeError> {
    JoinTimespec(RenderFrom(UnitTable, sec, 0, Renderer(style)), style)
  }

  /** Python's `divmod` for a positive divisor, which floors like Dafny's `/` and `%`. */
  method DivMod(a: int, b: int) returns (q: int, r: int)
    requires b > 0
    ensures q == a / b && r == a % b
  {
    q, r := a / b, a % b;
  }

  /**
   * The loop of `_generate_timespec`: walks the table from its first row,
   * `divmod`s the remaining seconds by each unit length and appends
   * `render(n, row)` for every non-zero quotient `n`.
   */
  method RenderUnits(table: seq<UnitRow>, sec: int, render: (int, UnitRow) -> string) returns (timespec: seq<string>)
    requires PositiveLengths(table)
    ensures timespec == RenderFrom(table, sec, 0, render)
  {
    timespec := [];
    var rest := sec;
    var i := 0;
    while i < |table|
      invariant 0 <= i <= |table|
      invariant timespec + RenderFrom(table, rest, i, render) == RenderFrom(table, sec, 0, render)
    {
      var n, r := DivMod(rest, table[i].length);
      if n != 0 {
        var entry := render(n, table[i]);
        timespec := timespec + [entry];
      }
      rest := r;
      i := i + 1;
    }
  }

  /** `_generate_timespec(sec, short, micro)`: the loop over `UNIT_TABLE`, then the join. */
  method GenerateTimespec(sec: int, short: bool, micro: bool) returns (r: Result<string, TimeError>)
    ensures r == Timespec(sec, StyleOf(short, micro))
  {
    var style := StyleOf(short, micro);
    var timespec := RenderUnits(UnitTable, sec, Renderer(style));
    r := JoinTimespec(timespec, style);
  }
}
