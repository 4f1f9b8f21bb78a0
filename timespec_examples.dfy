/**
 * Worked cases of the parser and the formatter, and the two general facts
 * about `_parse_time`'s first steps: case does not matter, and an all-digit
 * text is read as a whole number of seconds.
 */
module TimeSpecExamples {
  import opened Wrappers
  import opened Text
  import opened TimeSpec
  import opened TimeSpecProofs
  import opened TimeSpecRoundTrip

  /** The initial of a unit's long name finds that unit: no earlier row shares it. */
  lemma FindUnitInitial(row: nat)
    requires row < |UnitTable|
    ensures FindUnit([UnitTable[row].long[0]]) == Ok(row)
  {
    var unit := [UnitTable[row].long[0]];
    TableNames(row);
    forall k | 0 <= k < row
      ensures !RowMatches(UnitTable[k], unit)
    {
      TableNames(k);
      InitialsDistinct(k, row);
    }
    FindsRow(unit, row);
  }

  /** `m` is minutes and `s` is seconds. */
  lemma FindUnitInitials()
    ensures FindUnit("m") == Ok(3) && FindUnit("s") == Ok(4)
  {
    FindUnitInitial(3);
    FindUnitInitial(4);
    assert UnitTable[3].long == "minutes" && UnitTable[4].long == "seconds";
  }

  /** `mo` is not a unit: only the minutes row starts with `m`, and its names go on with `i`. */
  lemma FindUnitMo()
    ensures FindUnit("mo") == Err(InvalidUnit("mo"))
  {
    forall k | 0 <= k < |UnitTable|
      ensures !RowMatches(UnitTable[k], "mo")
    {
      if k == 3 {
        MinutesNotMo();
      } else {
        OtherInitial(k, "mo");
      }
    }
    FindUnitSpec("mo");
  }

  lemma MinutesNotMo()
    ensures !RowMatches(UnitTable[3], "mo")
  {
    var minutes := UnitTable[3];
    assert minutes == UnitRow("minutes", "mins", "m", 60);
    assert minutes.long[1] == 'i' && minutes.short[1] == 'i' && |minutes.micro| == 1;
  }

  /** A unit starting with `m` matches no row but the minutes row. */
  lemma OtherInitial(k: nat, unit: string)
    requires k < |UnitTable| && k != 3 && unit != [] && unit[0] == 'm'
    ensures !RowMatches(UnitTable[k], unit)
  {
    TableNames(k);
    InitialsDistinct(k, 3);
    assert UnitTable[3].long[0] == 'm';
  }

  /** `_parse_time` lower-cases first, so the case of the text does not matter. */
  lemma ParseTimeIgnoresCase(time: string)
    ensures ParseTime(time) == ParseTime(Lower(time))
  {
    LowerIdempotent(time);
  }

  /** An all-digit text is its own value. */
  lemma ParseTimeDigits(time: string)
    requires IsDigitString(time)
    ensures ParseTime(time) == Ok(DigitsValue(time))
  {
    assert NoUpper(time);
    LowerOfLowerCase(time);
  }

  /** The empty text has no piece; the sum is 0. */
  lemma ParseTimeEmpty()
    ensures ParseTime("") == Ok(0)
  {
  }

  /** A row longer than the remaining seconds adds no entry. */
  lemma SkipRow(table: seq<UnitRow>, sec: int, i: nat, render: (int, UnitRow) -> string)
    requires PositiveLengths(table) && i < |table| && 0 <= sec < table[i].length
    ensures RenderFrom(table, sec, i, render) == RenderFrom(table, sec, i + 1, render)
  {
    var len := table[i].length;
    SmallQuotient(sec, len);
    assert RenderFrom(table, sec, i, render) == [] + RenderFrom(table, sec % len, i + 1, render);
  }

  lemma SmallQuotient(a: int, b: int)
    requires 0 <= a < b
    ensures a / b == 0 && a % b == a
  {
  }

  /** Rows `i..j`, all longer than the remaining seconds, add no entry. */
  lemma {:induction false} SkipRows(table: seq<UnitRow>, sec: int, i: nat, j: nat, render: (int, UnitRow) -> string)
    requires PositiveLengths(table) && i <= j <= |table| && 0 <= sec
    requires forall k :: i <= k < j ==> sec < table[k].length
    ensures RenderFrom(table, sec, i, render) == RenderFrom(table, sec, j, render)
    decreases j - i
  {
    if i < j {
      SkipRow(table, sec, i, render);
      SkipRows(table, sec, i + 1, j, render);
    }
  }

  /** The rows of weeks, days and hours add nothing to less than an hour. */
  lemma UnderAnHour(sec: int, render: (int, UnitRow) -> string)
    requires 0 <= sec < 3600
    ensures RenderFrom(UnitTable, sec, 0, render) == RenderFrom(UnitTable, sec, 3, render)
  {
    UnitTableShape();
    assert forall k :: 0 <= k < 3 ==> UnitTable[k].length >= 3600;
    SkipRows(UnitTable, sec, 0, 3, render);
  }

  /** The micro entries of one minute and one second: `1m` and `1`, the `s` stripped. */
  lemma MicroOnes()
    ensures Renderer(Micro)(1, UnitTable[3]) == "1m"
    ensures Renderer(Micro)(1, UnitTable[4]) == "1"
  {
    assert UnitTable[3].micro == "m" && UnitTable[4].micro == "s";
    assert IntToString(1) == "1";
    assert RStrip("1s", 's') == RStrip("1", 's');
  }

  /** The minutes and seconds rows render 61 seconds as two entries and 1 second as one. */
  lemma LastRows(render: (int, UnitRow) -> string)
    ensures RenderFrom(UnitTable, 61, 3, render) == [render(1, UnitTable[3]), render(1, UnitTable[4])]
    ensures RenderFrom(UnitTable, 1, 3, render) == [render(1, UnitTable[4])]
  {
    UnitTableShape();
    assert UnitTable[3].length == 60 && UnitTable[4].length == 1 && |UnitTable| == 5;
    assert RenderFrom(UnitTable, 0, 5, render) == [];
    assert RenderFrom(UnitTable, 1, 4, render) == [render(1, UnitTable[4])];
  }

  /** Micro entries are concatenated. */
  lemma JoinMicroExample()
    ensures JoinTimespec(["1m", "1"], Micro) == Ok("1m1")
  {
    var ts := ["1m", "1"];
    assert ts[1..] == ["1"];
    assert JoinWith(ts, "") == "1m" + "" + "1";
    assert "1m" + "" + "1" == "1m1";
  }

  /** `_generate_timespec(61, micro=True)` is `1m1`. */
  lemma TimespecMicro61()
    ensures Timespec(61, Micro) == Ok("1m1")
  {
    var render := Renderer(Micro);
    UnderAnHour(61, render);
    LastRows(render);
    MicroOnes();
    JoinMicroExample();
  }

  /** `_generate_timespec(1, micro=True)` is `1`: the `s` of `1s` is stripped. */
  lemma TimespecMicro1()
    ensures Timespec(1, Micro) == Ok("1")
  {
    var render := Renderer(Micro);
    UnderAnHour(1, render);
    LastRows(render);
    MicroOnes();
  }
  /** A run of digits and dots followed by a unit word splits into those two atoms. */
  lemma NumberAndUnit(s: string, d: nat)
    requires 0 < d < |s|
    requires forall k :: 0 <= k < d ==> IsNumChar(s[k])
    requires forall k :: d <= k < |s| ==> IsAtomUnitChar(s[k])
    requires !IsNumChar(s[d])
    ensures SplitAtoms(s) == [s[..d], s[d..]]
  {
    SpanIs(s, 0, IsNumChar, d);
    SpanIs(s, d, IsSpace, d);
    SpanIs(s, d, IsAtomUnitChar, |s|);
    AtomsStep(s, d, d);
  }

  /** A number with two dots is refused: `_timespec_sec('1.2.3m')` raises "Not a number". */
  lemma TwoDotsExample()
    ensures TimespecSec("1.2.3m") == Err(NotANumber("1.2.3"))
  {
    var s := "1.2.3m";
    NumberAndUnit(s, 5);
    assert s[..5] == "1.2.3" && s[5..] == "m";
    FindUnitInitials();
    assert Count("1.2.3", '.') == 2;
  }

  /** A number without a digit is refused: `_timespec_sec('.m')` raises "Not a number". */
  lemma NoDigitExample()
    ensures TimespecSec(".m") == Err(NotANumber("."))
  {
    var s := ".m";
    NumberAndUnit(s, 1);
    assert s[..1] == "." && s[1..] == "m";
    FindUnitInitials();
    assert Remove(".", '.') == [];
  }

  /** The unit is looked up before the number is read: `_timespec_sec('5mo')` raises "Invalid unit". */
  lemma UnknownUnitExample()
    ensures TimespecSec("5mo") == Err(InvalidUnit("mo"))
  {
    var s := "5mo";
    NumberAndUnit(s, 1);
    assert s[..1] == "5" && s[1..] == "mo";
    FindUnitMo();
  }
  /** A bare number is a number of seconds. */
  lemma BareNumberExample(n: nat)
    ensures TimespecSec(NatToString(n)) == Ok(Finite(n as real))
  {
    var digits := NatToString(n);
    AtomsOfEntry(digits, "", "");
    assert digits + "" + "" == digits;
    TimespecSecSingle(digits, digits);
    FloatOfDigits(n);
    UnitTableShape();
    ScaledCount(FloatOf(digits), digits, n, |UnitTable| - 1);
  }
}
