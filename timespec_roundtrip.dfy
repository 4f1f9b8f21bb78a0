/**
 * The round trip between the formatter and the parser: for every positive
 * whole number of seconds `sec` and every style,
 * `_parse_time(_generate_timespec(sec, ...)) == sec`.
 *
 * The proof follows the text the formatter writes: every entry is the
 * count's digits, an optional space and a unit word, and the entries are
 * joined by `, `, ` and ` or nothing. The outer split cuts that text back
 * into exactly the entries, the inner split cuts an entry into its digits
 * and its word, the word leads `_find_unit` back to the entry's row, and
 * the sum of the entries is the breakdown's value, which is `sec`.
 */
module TimeSpecRoundTrip {
  import opened Wrappers
  import opened Text
  import opened TimeSpec
  import opened TimeSpecProofs

  // ---------------------------------------------------------------------------
  // The unit names

  predicate IsLowerLetter(c: char) { 'a' <= c <= 'z' }

  predicate IsWord(w: string) { forall k :: 0 <= k < |w| ==> IsLowerLetter(w[k]) }

  /**
   * The names in `UNIT_TABLE`: lower-case words, the three names of a row
   * sharing their initial, the initials of different rows distinct, and
   * only the seconds row spelt with an initial `s`.
   */
  lemma TableNames(k: nat)
    requires k < |UnitTable|
    ensures |UnitTable[k].long| > 1 && |UnitTable[k].short| > 1 && UnitTable[k].micro != []
    ensures UnitTable[k].short[0] == UnitTable[k].long[0] && UnitTable[k].micro[0] == UnitTable[k].long[0]
    ensures IsWord(UnitTable[k].long) && IsWord(UnitTable[k].short) && IsWord(UnitTable[k].micro)
    ensures UnitTable[k].long[0] == 's' ==>
              UnitTable[k].long[1] != 's' && UnitTable[k].short[1] != 's' && UnitTable[k].micro == "s"
              && k == |UnitTable| - 1
  {
    var u := UnitTable[k];
    if k == 0 {
      assert u == UnitRow("weeks", "wks", "w", 604800);
    } else if k == 1 {
      assert u == UnitRow("days", "dys", "d", 86400);
    } else if k == 2 {
      assert u == UnitRow("hours", "hrs", "h", 3600);
    } else if k == 3 {
      assert u == UnitRow("minutes", "mins", "m", 60);
    } else {
      assert u == UnitRow("seconds", "secs", "s", 1);
    }
  }

  /** The long names of different rows start with different letters. */
  lemma InitialsDistinct(j: nat, k: nat)
    requires j < |UnitTable| && k < |UnitTable| && j != k
    ensures UnitTable[j].long[0] != UnitTable[k].long[0]
  {
    var initials := "wdhms";
    assert forall r :: 0 <= r < |UnitTable| ==> UnitTable[r].long[0] == initials[r];
  }

  /** `_find_unit` returns a row that matches when no earlier row does. */
  lemma FindsRow(unit: string, row: nat)
    requires row < |UnitTable| && RowMatches(UnitTable[row], unit)
    requires forall k :: 0 <= k < row ==> !RowMatches(UnitTable[k], unit)
    ensures FindUnit(unit) == Ok(row)
  {
    FindUnitSpec(unit);
  }

  /** The text between the count and the unit name: a space in the long style only. */
  function Gap(style: Style): string {
    if style == Long then " " else ""
  }

  /** The unit name of an entry: as in the table for a plural count, trailing `s` stripped otherwise. */
  function Word(unit: UnitRow, style: Style, plural: bool): string {
    if plural then UnitName(unit, style) else RStrip(UnitName(unit, style), 's')
  }

  /** An entry with a positive count is its digits, the gap and the unit word. */
  lemma RenderShape(n: int, unit: UnitRow, style: Style)
    requires n >= 1
    ensures RenderComponent(n, unit, style) == NatToString(n) + Gap(style) + Word(unit, style, n > 1)
  {
    var digits := NatToString(n);
    var name := UnitName(unit, style);
    assert IntToString(n) == digits;
    if style == Long {
      assert IntToString(n) + " " + name == (digits + Gap(style)) + name;
    } else {
      assert IntToString(n) + name == (digits + Gap(style)) + name;
    }
    if n <= 1 {
      var a := digits + Gap(style);
      assert a[|a| - 1] == ' ' || IsDigit(a[|a| - 1]);
      RStripAppend(a, name, 's');
    }
  }

  /**
   * Every unit word the formatter writes is lower-case letters; only the
   * singular micro seconds word is empty.
   */
  lemma WordFacts(row: nat, style: Style, plural: bool)
    requires row < |UnitTable|
    ensures IsWord(Word(UnitTable[row], style, plural))
    ensures Word(UnitTable[row], style, plural) == [] <==> row == |UnitTable| - 1 && style == Micro && !plural
  {
    var unit := UnitTable[row];
    TableNames(row);
    var name := UnitName(unit, style);
    var w := Word(unit, style, plural);
    assert |w| <= |name| && w == name[..|w|];
    if row == |UnitTable| - 1 && style == Micro && !plural {
      assert name == "s";
    }
  }

  /** A non-empty unit word leads `_find_unit` back to its own row. */
  lemma WordFindsRow(row: nat, style: Style, plural: bool)
    requires row < |UnitTable| && Word(UnitTable[row], style, plural) != []
    ensures FindUnit(Word(UnitTable[row], style, plural)) == Ok(row)
  {
    var unit := UnitTable[row];
    TableNames(row);
    var name := UnitName(unit, style);
    var w := Word(unit, style, plural);
    assert |w| <= |name| && w == name[..|w|];
    assert StartsWith(name, w);
    assert RowMatches(unit, w);
    assert w[0] == unit.long[0];
    forall k | 0 <= k < row
      ensures !RowMatches(UnitTable[k], w)
    {
      TableNames(k);
      InitialsDistinct(k, row);
    }
    FindsRow(w, row);
  }

  // ---------------------------------------------------------------------------
  // One entry through the outer split

  predicate IsSeparator(sep: string) { sep == ", " || sep == " and " || sep == "" }

  /**
   * The layout of an entry and its separator from index `p` of `s`: digits
   * up to `d`, an optional space up to `g`, a lower-case word up to `u`, a
   * separator up to `e`, then a digit or the end. Without a word there is
   * neither a space nor a separator, and nothing follows.
   */
  predicate EntryLayout(s: string, p: nat, d: nat, g: nat, u: nat, e: nat) {
    p < d <= g <= u <= e <= |s|
    && (forall k :: p <= k < d ==> IsDigit(s[k]))
    && (forall k :: d <= k < g ==> s[k] == ' ')
    && (forall k :: g <= k < u ==> IsLowerLetter(s[k]))
    && (e == u
        || (e == u + 2 && s[u] == ',' && s[u + 1] == ' ')
        || (e == u + 5 && s[u] == ' ' && s[u + 1] == 'a' && s[u + 2] == 'n' && s[u + 3] == 'd' && s[u + 4] == ' '))
    && (e == |s| || IsDigit(s[e]))
    && g <= d + 1
    && (u == g ==> g == d && e == u && e == |s|)
  }

  /** The layout of `s[o..]` is a layout of `s`, moved by `o`. */
  lemma LayoutInSuffix(s: string, o: nat, d: nat, g: nat, u: nat, e: nat)
    requires o <= |s| && EntryLayout(s[o..], 0, d, g, u, e)
    ensures EntryLayout(s, o, o + d, o + g, o + u, o + e)
  {
    var y := s[o..];
    assert forall k :: 0 <= k < |y| ==> s[o + k] == y[k];
    forall k | o <= k < o + d
      ensures IsDigit(s[k])
    {
      assert s[k] == y[k - o];
    }
    forall k | o + d <= k < o + g
      ensures s[k] == ' '
    {
      assert s[k] == y[k - o];
    }
    forall k | o + g <= k < o + u
      ensures IsLowerLetter(s[k])
    {
      assert s[k] == y[k - o];
    }
  }

  /** The match of `(?:[,;\s]|and)*` ends with the separator of a layout. */
  lemma LayoutSepEnd(s: string, u: nat, e: nat)
    requires u <= e <= |s| && (e == |s| || IsDigit(s[e]))
    requires e == u
        || (e == u + 2 && s[u] == ',' && s[u + 1] == ' ')
        || (e == u + 5 && s[u] == ' ' && s[u + 1] == 'a' && s[u + 2] == 'n' && s[u + 3] == 'd' && s[u + 4] == ' ')
    ensures SepEnd(s, u) == e
  {
    assert SepEnd(s, e) == e;
    if e == u + 2 {
      assert SepEnd(s, u + 1) == e;
    } else if e == u + 5 {
      assert SepEnd(s, u + 4) == e;
      assert SepEnd(s, u + 1) == e;
    }
  }

  /** The match at `i` from the ends of its runs. */
  lemma MatchAtIs(s: string, i: nat, w: nat, d: nat, g: nat, u: nat, e: nat)
    requires i <= w < |s| && IsNumChar(s[w])
    requires Span(s, i, IsSpace) == w && Span(s, w, IsNumChar) == d
    requires Span(s, d, IsSpace) == g && Span(s, g, IsUnitChar) == u && SepEnd(s, u) == e
    ensures MatchAt(s, i) == Some(Match(w, u, e))
  {
  }

  /** The outer pattern matches the entry laid out from `p`. */
  lemma LayoutMatch(s: string, p: nat, d: nat, g: nat, u: nat, e: nat)
    requires EntryLayout(s, p, d, g, u, e)
    ensures MatchAt(s, p) == Some(Match(p, u, e))
  {
    assert IsDigit(s[p]);
    assert Span(s, p, IsSpace) == p;
    SpanIs(s, p, IsNumChar, d);
    SpanIs(s, d, IsSpace, g);
    SpanIs(s, g, IsUnitChar, u);
    LayoutSepEnd(s, u, e);
    MatchAtIs(s, p, p, d, g, u, e);
  }

  /** The text the formatter writes for an entry and its separator has the entry layout. */
  lemma EntryHasLayout(digits: string, gap: string, word: string, sep: string, rest: string)
    requires IsDigitString(digits)
    requires gap == "" || gap == " "
    requires IsWord(word) && IsSeparator(sep)
    requires rest == [] || IsDigit(rest[0])
    requires word == [] ==> gap == [] && sep == [] && rest == []
    ensures EntryLayout(digits + gap + word + sep + rest, 0, |digits|, |digits| + |gap|,
                        |digits| + |gap| + |word|, |digits| + |gap| + |word| + |sep|)
  {
    var s := digits + gap + word + sep + rest;
    var d := |digits|;
    var g := d + |gap|;
    var u := g + |word|;
    var e := u + |sep|;
    assert forall k :: 0 <= k < d ==> s[k] == digits[k];
    assert forall k :: d <= k < g ==> s[k] == gap[k - d];
    assert forall k :: g <= k < u ==> s[k] == word[k - g];
    assert forall k :: u <= k < e ==> s[k] == sep[k - u];
    assert e < |s| ==> s[e] == rest[0];
  }

  /** One step of the outer split at a match. */
  lemma SplitTimeStep(s: string, i: nat, m: Match)
    requires i <= |s| && MatchAt(s, i) == Some(m)
    ensures SplitTimeFrom(s, i, i) == [s[m.start..m.end]] + SplitTimeFrom(s, m.next, m.next)
  {
    assert s[i..i] == [];
  }

  /** SplitTimeStep, with the piece and the next position named. */
  lemma SplitTimeStepTo(s: string, i: nat, m: Match, piece: string, n: nat)
    requires i <= |s| && MatchAt(s, i) == Some(m)
    requires m.end <= |s| && s[m.start..m.end] == piece && m.next == n
    ensures SplitTimeFrom(s, i, i) == [piece] + SplitTimeFrom(s, n, n)
  {
    SplitTimeStep(s, i, m);
  }

  /** Slicing an entry written at offset `p` of `t` back out of `t`. */
  lemma EntrySlices(t: string, p: nat, piece: string, sep: string, rest: string)
    requires p <= |t| && t[p..] == piece + sep + rest
    ensures p + |piece| + |sep| <= |t|
    ensures t[p..p + |piece|] == piece && t[p + |piece| + |sep|..] == rest
  {
    assert t[p..][..|piece|] == piece;
    assert t[p..][|piece| + |sep|..] == rest;
  }

  /** The outer pattern matches an entry written with its separator at offset `p` of `t`. */
  lemma PieceMatch(t: string, p: nat, digits: string, gap: string, word: string, sep: string, rest: string)
    requires IsDigitString(digits)
    requires gap == "" || gap == " "
    requires IsWord(word) && IsSeparator(sep)
    requires rest == [] || IsDigit(rest[0])
    requires word == [] ==> gap == [] && sep == [] && rest == []
    requires p <= |t| && t[p..] == digits + gap + word + sep + rest
    ensures MatchAt(t, p) == Some(Match(p, p + |digits| + |gap| + |word|, p + |digits| + |gap| + |word| + |sep|))
  {
    var d := |digits|;
    var g := d + |gap|;
    var u := g + |word|;
    var e := u + |sep|;
    PieceLayout(t, p, digits, gap, word, sep, rest);
    LayoutMatch(t, p, p + d, p + g, p + u, p + e);
  }

  /** An entry written with its separator at offset `p` of `t` has the entry layout there. */
  lemma PieceLayout(t: string, p: nat, digits: string, gap: string, word: string, sep: string, rest: string)
    requires IsDigitString(digits)
    requires gap == "" || gap == " "
    requires IsWord(word) && IsSeparator(sep)
    requires rest == [] || IsDigit(rest[0])
    requires word == [] ==> gap == [] && sep == [] && rest == []
    requires p <= |t| && t[p..] == digits + gap + word + sep + rest
    ensures EntryLayout(t, p, p + |digits|, p + |digits| + |gap|, p + |digits| + |gap| + |word|,
                        p + |digits| + |gap| + |word| + |sep|)
  {
    EntryHasLayout(digits, gap, word, sep, rest);
    LayoutInSuffix(t, p, |digits|, |digits| + |gap|, |digits| + |gap| + |word|, |digits| + |gap| + |word| + |sep|);
  }

  /**
   * From the start `p` of an entry written with its separator, the outer
   * split takes the entry, `digits + gap + word`, and goes on after the
   * separator, at `n`.
   */
  lemma SplitPiece(t: string, p: nat, digits: string, gap: string, word: string, sep: string, rest: string)
      returns (n: nat)
    requires IsDigitString(digits)
    requires gap == "" || gap == " "
    requires IsWord(word) && IsSeparator(sep)
    requires rest == [] || IsDigit(rest[0])
    requires word == [] ==> gap == [] && sep == [] && rest == []
    requires p <= |t| && t[p..] == digits + gap + word + sep + rest
    ensures n == p + |digits + gap + word| + |sep| && n <= |t| && t[n..] == rest
    ensures SplitTimeFrom(t, p, p) == [digits + gap + word] + SplitTimeFrom(t, n, n)
  {
    var piece := digits + gap + word;
    PieceMatch(t, p, digits, gap, word, sep, rest);
    assert digits + gap + word + sep + rest == piece + sep + rest;
    EntrySlices(t, p, piece, sep, rest);
    n := p + |piece| + |sep|;
    SplitTimeStepTo(t, p, Match(p, p + |piece|, n), piece, n);
  }

  /** One match of the inner pattern that runs to the end of the text. */
  lemma AtomsStep(s: string, d: nat, g: nat)
    requires 0 < |s| && IsNumChar(s[0])
    requires Span(s, 0, IsNumChar) == d && d <= |s|
    requires Span(s, d, IsSpace) == g && g <= |s|
    requires Span(s, g, IsAtomUnitChar) == |s|
    ensures AtomsFrom(s, 0, 0) == [s[..d]] + Keep(s[g..])
  {
    assert AtomsFrom(s, 0, 0) == Keep(s[0..0]) + [s[0..d]] + Keep(s[g..|s|]) + AtomsFrom(s, |s|, |s|);
    assert s[0..0] == [] && s[|s|..] == [];
    assert s[0..d] == s[..d] && s[g..|s|] == s[g..];
  }

  /** The inner split cuts an entry into its digits and, when there is one, its unit word. */
  lemma AtomsOfEntry(digits: string, gap: string, word: string)
    requires IsDigitString(digits)
    requires gap == "" || gap == " "
    requires IsWord(word) && (gap == " " ==> word != [])
    ensures SplitAtoms(digits + gap + word) == [digits] + Keep(word)
  {
    var s := digits + gap + word;
    var d := |digits|;
    var g := d + |gap|;
    assert forall k :: 0 <= k < d ==> s[k] == digits[k];
    assert forall k :: d <= k < g ==> s[k] == gap[k - d];
    assert forall k :: g <= k < |s| ==> s[k] == word[k - g];
    SpanIs(s, 0, IsNumChar, d);
    SpanIs(s, d, IsSpace, g);
    SpanIs(s, g, IsAtomUnitChar, |s|);
    AtomsStep(s, d, g);
    assert s[..d] == digits && s[g..] == word;
  }

  /** `float()` of the digits `str(n)` writes is `n`. */
  lemma FloatOfDigits(n: nat)
    ensures FloatOf(NatToString(n)) == Some(Finite(n as real))
  {
    FloatOfDigitString(NatToString(n));
    DigitsValueOfNatToString(n);
  }

  /** `float()` of a run of decimal digits is their value. */
  lemma FloatOfDigitString(s: string)
    requires IsDigitString(s)
    ensures FloatOf(s) == Some(Finite(DigitsValue(s) as real))
  {
    StripNoSpace(s);
    CountAbsent(s, '.');
    assert IsDigit(s[0]);
    assert IsDecimal(s);
    assert IndexOfDot(s) == |s|;
  }

  lemma MulReal(a: nat, b: nat)
    ensures (a * b) as real == a as real * b as real
  {
  }

  /** A count `n` that `float()` read, times the length of the unit. */
  lemma ScaledCount(f: Option<FloatVal>, text: string, n: nat, row: nat)
    requires row < |UnitTable| && f == Some(Finite(n as real))
    ensures Scaled(f, text, row) == Ok(Finite((n * UnitTable[row].length) as real))
  {
    MulReal(n, UnitTable[row].length);
  }

  /** `_timespec_sec` of a number followed by a unit word it knows. */
  lemma TimespecSecPair(expr: string, digits: string, word: string, row: nat)
    requires SplitAtoms(expr) == [digits, word]
    requires IsDigitString(digits) && FindUnit(word) == Ok(row)
    ensures row < |UnitTable| && TimespecSec(expr) == Scaled(FloatOf(digits), digits, row)
  {
    FindUnitSpec(word);
    CountAbsent(digits, '.');
  }

  /** `_timespec_sec` of a bare number: seconds. */
  lemma TimespecSecSingle(expr: string, digits: string)
    requires SplitAtoms(expr) == [digits]
    ensures TimespecSec(expr) == Scaled(FloatOf(digits), digits, |UnitTable| - 1)
  {
    TableNames(|UnitTable| - 1);
    FindsRow("seconds", |UnitTable| - 1);
  }

  /** `_timespec_sec` of an entry is its count times its unit length. */
  lemma TimespecSecEntry(n: nat, row: nat, style: Style)
    requires n >= 1 && row < |UnitTable|
    ensures TimespecSec(RenderComponent(n, UnitTable[row], style))
         == Ok(Finite((n * UnitTable[row].length) as real))
  {
    var unit := UnitTable[row];
    var digits := NatToString(n);
    var word := Word(unit, style, n > 1);
    var expr := RenderComponent(n, unit, style);
    RenderShape(n, unit, style);
    WordFacts(row, style, n > 1);
    AtomsOfEntry(digits, Gap(style), word);
    FloatOfDigits(n);
    ScaledCount(FloatOf(digits), digits, n, row);
    assert SplitAtoms(expr) == [digits] + Keep(word);
    if word != [] {
      WordFindsRow(row, style, n > 1);
      assert SplitAtoms(expr) == [digits, word];
      TimespecSecPair(expr, digits, word, row);
    } else {
      assert SplitAtoms(expr) == [digits];
      TimespecSecSingle(expr, digits);
    }
  }

  // ---------------------------------------------------------------------------
  // The joined text

  /** What follows an entry when `m` entries, that one included, remain. */
  function SepAfter(m: nat, style: Style): (sep: string)
    ensures IsSeparator(sep)
  {
    if m <= 1 || style == Micro then "" else if m == 2 then " and " else ", "
  }

  /** The entries written one after the other, each followed by its separator. */
  function Layout(ts: seq<string>, style: Style): string
    decreases |ts|
  {
    if ts == [] then [] else ts[0] + SepAfter(|ts|, style) + Layout(ts[1..], style)
  }

  /** `', '.join(ts[:-1]) + ' and ' + ts[-1]` is the layout of two or more entries. */
  lemma {:induction false} JoinAndLayout(ts: seq<string>, style: Style)
    requires |ts| >= 2 && style != Micro
    ensures JoinWith(ts[..|ts| - 1], ", ") + " and " + ts[|ts| - 1] == Layout(ts, style)
    decreases |ts|
  {
    if |ts| == 2 {
      JoinAndLayoutTwo(ts, style);
    } else {
      var last := ts[|ts| - 1];
      var tail := ts[1..];
      JoinAndLayout(tail, style);
      var joined := JoinWith(tail[..|tail| - 1], ", ");
      assert ts[..|ts| - 1][1..] == tail[..|tail| - 1];
      assert tail[|tail| - 1] == last;
      assert JoinWith(ts[..|ts| - 1], ", ") == ts[0] + ", " + joined;
      assert Layout(ts, style) == ts[0] + ", " + Layout(tail, style);
      assert (ts[0] + ", " + joined) + " and " + last == ts[0] + ", " + (joined + " and " + last);
    }
  }

  lemma JoinAndLayoutTwo(ts: seq<string>, style: Style)
    requires |ts| == 2 && style != Micro
    ensures JoinWith(ts[..1], ", ") + " and " + ts[1] == Layout(ts, style)
  {
    assert ts[..1] == [ts[0]];
    assert ts[1..] == [ts[1]] && ts[1..][1..] == [];
    assert Layout(ts[1..], style) == ts[1];
    assert Layout(ts, style) == ts[0] + " and " + ts[1];
  }

  /** `''.join(ts)` is the micro layout. */
  lemma {:induction false} JoinMicroLayout(ts: seq<string>)
    requires |ts| >= 1
    ensures JoinWith(ts, "") == Layout(ts, Micro)
    decreases |ts|
  {
    if |ts| == 1 {
      assert ts[1..] == [];
    } else {
      JoinMicroLayout(ts[1..]);
    }
  }

  /** The join succeeds on any non-empty list of entries and writes their layout. */
  lemma JoinLayout(ts: seq<string>, style: Style)
    requires |ts| >= 1
    ensures JoinTimespec(ts, style) == Ok(Layout(ts, style))
  {
    if |ts| == 1 {
      assert ts[1..] == [];
      assert Layout(ts, style) == ts[0] + "" + [] == ts[0];
    } else if style == Micro {
      JoinMicroLayout(ts);
    } else {
      JoinAndLayout(ts, style);
    }
  }

  // ---------------------------------------------------------------------------
  // Splitting the joined text back into its entries

  /**
   * A breakdown the formatter can produce: known rows, positive counts, and
   * the seconds row, whose singular micro word is empty, only ever last.
   */
  predicate Renderable(cs: seq<Component>) {
    ValidRows(UnitTable, cs)
    && (forall k :: 0 <= k < |cs| ==> cs[k].count > 0)
    && (forall k :: 0 <= k < |cs| - 1 ==> cs[k].row < |UnitTable| - 1)
  }

  /** The entries of a breakdown in one style. */
  function EntriesOf(cs: seq<Component>, style: Style): (ts: seq<string>)
    requires ValidRows(UnitTable, cs)
    ensures |ts| == |cs|
  {
    Entries(UnitTable, cs, Renderer(style))
  }

  /** The first entry, and the entries after it. */
  lemma EntriesOfCons(cs: seq<Component>, style: Style)
    requires cs != [] && ValidRows(UnitTable, cs)
    ensures ValidRows(UnitTable, cs[1..])
    ensures EntriesOf(cs, style)[0] == RenderComponent(cs[0].count, UnitTable[cs[0].row], style)
    ensures EntriesOf(cs, style)[1..] == EntriesOf(cs[1..], style)
  {
  }

  /** The joined text of a breakdown starts with a digit, unless there is no entry at all. */
  lemma LayoutHead(cs: seq<Component>, style: Style)
    requires Renderable(cs)
    ensures cs == [] <==> Layout(EntriesOf(cs, style), style) == []
    ensures cs != [] ==> IsDigit(Layout(EntriesOf(cs, style), style)[0])
  {
    if cs != [] {
      var ts := EntriesOf(cs, style);
      EntriesOfCons(cs, style);
      RenderShape(cs[0].count, UnitTable[cs[0].row], style);
      var digits := NatToString(cs[0].count);
      assert ts[0][0] == digits[0];
      assert Layout(ts, style)[0] == ts[0][0];
    }
  }

  /** The pieces SplitPiece needs for the first entry of a breakdown. */
  lemma FirstEntry(cs: seq<Component>, style: Style)
    requires cs != [] && Renderable(cs)
    ensures Renderable(cs[1..])
    ensures EntriesOf(cs, style)[0]
            == NatToString(cs[0].count) + Gap(style) + Word(UnitTable[cs[0].row], style, cs[0].count > 1)
    ensures IsWord(Word(UnitTable[cs[0].row], style, cs[0].count > 1))
    ensures Word(UnitTable[cs[0].row], style, cs[0].count > 1) == []
            ==> Gap(style) == [] && SepAfter(|cs|, style) == [] && cs[1..] == []
  {
    var c := cs[0];
    EntriesOfCons(cs, style);
    RenderShape(c.count, UnitTable[c.row], style);
    NoWordIsLast(cs, style);
  }

  /** Only the last entry can lack a unit word, and then it is a micro entry. */
  lemma NoWordIsLast(cs: seq<Component>, style: Style)
    requires cs != [] && Renderable(cs)
    ensures IsWord(Word(UnitTable[cs[0].row], style, cs[0].count > 1))
    ensures Word(UnitTable[cs[0].row], style, cs[0].count > 1) == []
            ==> style == Micro && |cs| == 1
  {
    WordFacts(cs[0].row, style, cs[0].count > 1);
  }

  /** The joined text of a breakdown: its first entry, a separator, and the text of the rest. */
  lemma LayoutOfEntries(cs: seq<Component>, style: Style)
    requires cs != [] && ValidRows(UnitTable, cs)
    ensures ValidRows(UnitTable, cs[1..])
    ensures Layout(EntriesOf(cs, style), style)
            == EntriesOf(cs, style)[0] + SepAfter(|cs|, style) + Layout(EntriesOf(cs[1..], style), style)
  {
    EntriesOfCons(cs, style);
  }

  /**
   * From an index `p` where the joined text of a breakdown starts, the outer
   * split of `_parse_time` yields exactly the breakdown's entries.
   */
  lemma {:induction false} SplitFromLayout(t: string, p: nat, cs: seq<Component>, style: Style)
    requires Renderable(cs)
    requires p <= |t| && t[p..] == Layout(EntriesOf(cs, style), style)
    ensures SplitTimeFrom(t, p, p) == EntriesOf(cs, style)
    decreases |cs|
  {
    if cs == [] {
      LayoutHead(cs, style);
      assert p == |t| && t[p..] == [];
    } else {
      var c := cs[0];
      var ts := EntriesOf(cs, style);
      FirstEntry(cs, style);
      LayoutOfEntries(cs, style);
      LayoutHead(cs[1..], style);
      EntriesOfCons(cs, style);
      var digits := NatToString(c.count);
      var word := Word(UnitTable[c.row], style, c.count > 1);
      var rest := Layout(EntriesOf(cs[1..], style), style);
      var n := SplitPiece(t, p, digits, Gap(style), word, SepAfter(|cs|, style), rest);
      SplitFromLayout(t, n, cs[1..], style);
      assert ts == [ts[0]] + EntriesOf(cs[1..], style);
    }
  }

  // ---------------------------------------------------------------------------
  // Summing the entries and reading the text back

  /** The seconds each component of a breakdown stands for, as the reals `float()` yields. */
  function EntryValues(cs: seq<Component>): (vs: seq<real>)
    requires ValidRows(UnitTable, cs)
    ensures |vs| == |cs|
  {
    seq(|cs|, k requires 0 <= k < |cs| => (cs[k].count * UnitTable[cs[k].row].length) as real)
  }

  function RealSum(vs: seq<real>): real {
    if vs == [] then 0.0 else vs[0] + RealSum(vs[1..])
  }

  lemma {:induction false} RealSumValues(cs: seq<Component>)
    requires ValidRows(UnitTable, cs)
    ensures RealSum(EntryValues(cs)) == Value(UnitTable, cs) as real
    decreases |cs|
  {
    if cs != [] {
      var vs := EntryValues(cs);
      assert vs[1..] == EntryValues(cs[1..]);
      RealSumValues(cs[1..]);
      AddReal(0.0, cs[0].count * UnitTable[cs[0].row].length, Value(UnitTable, cs[1..]));
    }
  }

  /** Entry `k` is the rendering of component `k`, for any table and rendering. */
  lemma {:induction false} EntriesIndex(table: seq<UnitRow>, cs: seq<Component>, render: (int, UnitRow) -> string, k: nat)
    requires ValidRows(table, cs) && k < |cs|
    ensures Entries(table, cs, render)[k] == render(cs[k].count, table[cs[k].row])
    decreases k
  {
    if k > 0 {
      EntriesIndex(table, cs[1..], render, k - 1);
    }
  }

  /** Entry `k` is the rendering of component `k`. */
  lemma EntriesAt(cs: seq<Component>, style: Style, k: nat)
    requires ValidRows(UnitTable, cs) && k < |cs|
    ensures EntriesOf(cs, style)[k] == RenderComponent(cs[k].count, UnitTable[cs[k].row], style)
  {
    EntriesIndex(UnitTable, cs, Renderer(style), k);
  }

  /** Every entry converts to its component's seconds. */
  lemma EntriesConvert(cs: seq<Component>, style: Style)
    requires Renderable(cs)
    ensures forall k :: 0 <= k < |cs| ==> TimespecSec(EntriesOf(cs, style)[k]) == Ok(Finite(EntryValues(cs)[k]))
  {
    forall k | 0 <= k < |cs|
      ensures TimespecSec(EntriesOf(cs, style)[k]) == Ok(Finite(EntryValues(cs)[k]))
    {
      EntriesAt(cs, style, k);
      TimespecSecEntry(cs[k].count, cs[k].row, style);
    }
  }

  /** `sum` over pieces that all convert is the sum of their values. */
  lemma {:induction false} SumConverted(pieces: seq<string>, vals: seq<real>, acc: real,
                                        convert: string -> Result<FloatVal, TimeError>)
    requires |vals| == |pieces|
    requires forall k :: 0 <= k < |pieces| ==> convert(pieces[k]) == Ok(Finite(vals[k]))
    ensures SumPieces(pieces, Finite(acc), convert) == Ok(Finite(acc + RealSum(vals)))
    decreases |pieces|
  {
    if pieces != [] {
      AddFinite(acc, vals[0]);
      SumConverted(pieces[1..], vals[1..], acc + vals[0], convert);
    }
  }

  /**
   * The sum `_parse_time` forms over the entries of a breakdown is the
   * breakdown's value, for any conversion that reads every entry as its
   * seconds, as EntriesConvert shows `_timespec_sec` does.
   */
  lemma SumEntries(entries: seq<string>, cs: seq<Component>, convert: string -> Result<FloatVal, TimeError>)
    requires ValidRows(UnitTable, cs) && |entries| == |cs|
    requires forall k :: 0 <= k < |cs| ==> convert(entries[k]) == Ok(Finite(EntryValues(cs)[k]))
    ensures SumPieces(entries, Finite(0.0), convert) == Ok(Finite(Value(UnitTable, cs) as real))
  {
    var vs := EntryValues(cs);
    SumConverted(entries, vs, 0.0, convert);
    RealSumValues(cs);
    assert 0.0 + RealSum(vs) == Value(UnitTable, cs) as real;
  }

  lemma AddFinite(a: real, b: real)
    ensures Add(Finite(a), Finite(b)) == Finite(a + b)
  {
  }

  lemma AddReal(acc: real, a: int, b: int)
    ensures acc + a as real + b as real == acc + (a + b) as real
  {
  }

  lemma NoUpperAppend(a: string, b: string)
    requires NoUpper(a) && NoUpper(b)
    ensures NoUpper(a + b)
  {
    assert forall k :: 0 <= k < |a + b| ==> (a + b)[k] == if k < |a| then a[k] else b[k - |a|];
  }

  /** The layout of entries without upper-case letters has none either. */
  lemma {:induction false} LayoutNoUpper(ts: seq<string>, style: Style)
    requires forall k :: 0 <= k < |ts| ==> NoUpper(ts[k])
    ensures NoUpper(Layout(ts, style))
    decreases |ts|
  {
    if ts != [] {
      LayoutNoUpper(ts[1..], style);
      NoUpperAppend(ts[0], SepAfter(|ts|, style));
      NoUpperAppend(ts[0] + SepAfter(|ts|, style), Layout(ts[1..], style));
    }
  }

  /** The formatter writes no upper-case letter, so `str.lower` leaves its text alone. */
  lemma EntriesNoUpper(cs: seq<Component>, style: Style)
    requires Renderable(cs)
    ensures forall k :: 0 <= k < |cs| ==> NoUpper(EntriesOf(cs, style)[k])
  {
    forall k | 0 <= k < |cs|
      ensures NoUpper(EntriesOf(cs, style)[k])
    {
      EntriesAt(cs, style, k);
      EntryNoUpper(cs[k].count, cs[k].row, style);
    }
  }

  lemma EntryNoUpper(n: nat, row: nat, style: Style)
    requires n >= 1 && row < |UnitTable|
    ensures NoUpper(RenderComponent(n, UnitTable[row], style))
  {
    var digits := NatToString(n);
    RenderShape(n, UnitTable[row], style);
    WordFacts(row, style, n > 1);
    NoUpperAppend(digits, Gap(style));
    NoUpperAppend(digits + Gap(style), Word(UnitTable[row], style, n > 1));
  }

  /** When the first entry has a unit word, a letter follows the first count and its gap. */
  lemma FirstWordAt(cs: seq<Component>, style: Style)
    requires Renderable(cs) && cs != []
    ensures Word(UnitTable[cs[0].row], style, cs[0].count > 1) != []
            ==> |NatToString(cs[0].count)| + |Gap(style)| < |Layout(EntriesOf(cs, style), style)|
                && !IsDigit(Layout(EntriesOf(cs, style), style)[|NatToString(cs[0].count)| + |Gap(style)|])
  {
    var c := cs[0];
    var ts := EntriesOf(cs, style);
    var word := Word(UnitTable[c.row], style, c.count > 1);
    var i := |NatToString(c.count)| + |Gap(style)|;
    FirstEntry(cs, style);
    LayoutOfEntries(cs, style);
    if word != [] {
      assert ts[0][i] == word[0];
      assert Layout(ts, style)[i] == ts[0][i];
    }
  }

  /**
   * The only text of the formatter that is all digits, and so takes the
   * `isdigit` shortcut of `_parse_time`, is the micro `1` for one second.
   */
  lemma DigitOnlyLayout(cs: seq<Component>, style: Style)
    requires Renderable(cs) && cs != []
    requires IsDigitString(Layout(EntriesOf(cs, style), style))
    ensures DigitsValue(Layout(EntriesOf(cs, style), style)) == Value(UnitTable, cs)
  {
    var ts := EntriesOf(cs, style);
    var c := cs[0];
    var digits := NatToString(c.count);
    var word := Word(UnitTable[c.row], style, c.count > 1);
    FirstEntry(cs, style);
    LayoutOfEntries(cs, style);
    WordFacts(c.row, style, c.count > 1);
    FirstWordAt(cs, style);
    assert word == [];
    assert c.count == 1 && c.row == |UnitTable| - 1 && cs == [c];
    assert Layout(EntriesOf(cs[1..], style), style) == [];
    assert Layout(ts, style) == "1";
    assert Value(UnitTable, cs[1..]) == 0;
  }

  /** `_parse_time` reads the joined text of a breakdown back as the breakdown's value. */
  lemma ParseLayout(cs: seq<Component>, style: Style)
    requires Renderable(cs) && cs != []
    ensures ParseTime(Layout(EntriesOf(cs, style), style)) == Ok(Value(UnitTable, cs))
  {
    var text := Layout(EntriesOf(cs, style), style);
    EntriesNoUpper(cs, style);
    LayoutNoUpper(EntriesOf(cs, style), style);
    LowerOfLowerCase(text);
    if IsDigitString(text) {
      DigitOnlyLayout(cs, style);
    } else {
      assert text[0..] == text;
      SplitFromLayout(text, 0, cs, style);
      EntriesConvert(cs, style);
      SumEntries(EntriesOf(cs, style), cs, TimespecSec);
      PositiveValue(cs);
    }
  }

  lemma {:induction false} PositiveValue(cs: seq<Component>)
    requires Renderable(cs)
    ensures Value(UnitTable, cs) >= 0
    decreases |cs|
  {
    if cs != [] {
      assert Renderable(cs[1..]);
      PositiveValue(cs[1..]);
    }
  }

  /**
   * The round trip: for every positive `sec` and every style,
   * `_generate_timespec` succeeds and `_parse_time` of its text is `sec`.
   */
  lemma RoundTrip(sec: int, style: Style)
    requires sec > 0
    ensures Timespec(sec, style).Ok?
    ensures ParseTime(Timespec(sec, style).value) == Ok(sec)
  {
    var cs := Components(sec);
    ComponentsSum(sec);
    assert Renderable(cs) by {
      forall k | 0 <= k < |cs| - 1
        ensures cs[k].row < |UnitTable| - 1
      {
        assert cs[k].row < cs[k + 1].row < |UnitTable|;
      }
    }
    RenderFromEntries(UnitTable, sec, 0, Renderer(style));
    NoEntriesOnlyOnZero(sec, style);
    JoinLayout(EntriesOf(cs, style), style);
    ParseLayout(cs, style);
  }

  /** The text of `_generate_timespec` for a positive number starts with a digit. */
  lemma TimespecStartsWithDigit(sec: int, style: Style)
    requires sec > 0
    ensures Timespec(sec, style).Ok?
    ensures Timespec(sec, style).value != [] && IsDigit(Timespec(sec, style).value[0])
  {
    var cs := Components(sec);
    ComponentsSum(sec);
    assert Renderable(cs) by {
      forall k | 0 <= k < |cs| - 1
        ensures cs[k].row < |UnitTable| - 1
      {
        assert cs[k].row < cs[k + 1].row < |UnitTable|;
      }
    }
    RenderFromEntries(UnitTable, sec, 0, Renderer(style));
    NoEntriesOnlyOnZero(sec, style);
    JoinLayout(EntriesOf(cs, style), style);
    LayoutHead(cs, style);
  }
}
