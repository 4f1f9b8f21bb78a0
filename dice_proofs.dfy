/**
 * Properties of the dice result text: the number and the list read back
 * from it, the total appears exactly for lists of two or more, and every
 * message that joins the breakdown and the result stays under the limit.
 */
module DiceProofs {
  import opened Text
  import opened Dice

  /** `s.split(c)` for a single character. */
  function Split(s: string, c: char): (r: seq<string>)
    ensures |r| >= 1
  {
    if s == [] then [[]]
    else
      var rest := Split(s[1..], c);
      if s[0] == c then [[]] + rest else [[s[0]] + rest[0]] + rest[1..]
  }

  /** Reading a list back: `s.replace(' ', '').split(',')`. */
  function Fields(s: string): seq<string> {
    Split(Remove(s, ' '), ',')
  }

  predicate Free(strs: seq<string>, c: char) {
    forall k :: 0 <= k < |strs| ==> c !in strs[k]
  }

  lemma {:induction false} SplitFree(s: string, c: char)
    requires c !in s
    ensures Split(s, c) == [s]
  {
    if s != [] {
      SplitFree(s[1..], c);
      assert [s[0]] + s[1..] == s;
    }
  }

  lemma {:induction false} SplitAppend(a: string, b: string, c: char)
    requires c !in a
    ensures Split(a + [c] + b, c) == [a] + Split(b, c)
    decreases |a|
  {
    if a == [] {
      assert a + [c] + b == [c] + b;
      assert ([c] + b)[1..] == b;
    } else {
      assert (a + [c] + b)[1..] == a[1..] + [c] + b;
      SplitAppend(a[1..], b, c);
      assert [a[0]] + a[1..] == a;
    }
  }

  /** Splitting a `c`-joined list of `c`-free texts gives the texts back. */
  lemma {:induction false} SplitJoin(strs: seq<string>, c: char)
    requires strs != [] && Free(strs, c)
    ensures Split(JoinWith(strs, [c]), c) == strs
    decreases |strs|
  {
    if |strs| == 1 {
      SplitFree(strs[0], c);
    } else {
      SplitJoin(strs[1..], c);
      SplitAppend(strs[0], JoinWith(strs[1..], [c]), c);
      assert [strs[0]] + strs[1..] == strs;
    }
  }

  lemma {:induction false} RemoveAppend(a: string, b: string, c: char)
    ensures Remove(a + b, c) == Remove(a, c) + Remove(b, c)
    decreases |a|
  {
    if a == [] {
      assert a + b == b;
    } else {
      assert (a + b)[0] == a[0];
      assert (a + b)[1..] == a[1..] + b;
      RemoveAppend(a[1..], b, c);
    }
  }

  lemma RemoveFree(s: string, c: char)
    requires c !in s
    ensures Remove(s, c) == s
  {
    CountAbsent(s, c);
  }

  /** Taking the spaces out of a `", "`-joined list of space-free texts leaves the `","`-joined one. */
  lemma {:induction false} RemoveJoin(strs: seq<string>)
    requires Free(strs, ' ')
    ensures Remove(JoinWith(strs, ", "), ' ') == JoinWith(strs, ",")
    decreases |strs|
  {
    if |strs| == 1 {
      RemoveFree(strs[0], ' ');
    } else if |strs| > 1 {
      RemoveJoin(strs[1..]);
      RemoveAppend(strs[0] + ", ", JoinWith(strs[1..], ", "), ' ');
      RemoveAppend(strs[0], ", ", ' ');
      RemoveFree(strs[0], ' ');
      assert Remove(", ", ' ') == ",";
    }
  }

  /** `str(n)` holds digits and perhaps a leading minus sign, nothing else. */
  lemma NumeralChars(n: int)
    ensures ' ' !in IntToString(n) && ',' !in IntToString(n) && ')' !in IntToString(n)
    ensures forall k :: 0 <= k < |IntToString(n)| ==> IsDigit(IntToString(n)[k]) || IntToString(n)[k] == '-'
  {
    var s := IntToString(n);
    if n < 0 {
      assert forall k :: 1 <= k < |s| ==> s[k] == NatToString(-n)[k - 1];
    }
  }

  /**
   * The joined list reads back as the numbers' texts, and each of those
   * as its number.
   */
  lemma JoinedReadsBack(xs: seq<int>)
    requires xs != []
    ensures Fields(Joined(xs)) == Numerals(xs)
    ensures forall k :: 0 <= k < |xs| ==> IntValue(Fields(Joined(xs))[k]) == xs[k]
  {
    var strs := Numerals(xs);
    forall k | 0 <= k < |xs|
      ensures ' ' !in strs[k] && ',' !in strs[k]
    {
      NumeralChars(xs[k]);
    }
    RemoveJoin(strs);
    SplitJoin(strs, ',');
    assert [','] == ",";
    forall k | 0 <= k < |xs|
      ensures IntValue(strs[k]) == xs[k]
    {
      IntValueOfIntToString(xs[k]);
    }
  }

  /** An integer result is shown as its decimal text, which reads back as the number. */
  lemma SingleReadsBack(n: int)
    ensures ResultText(Single(n)) == DiePrefix + IntToString(n)
    ensures IntValue(ResultText(Single(n))[|DiePrefix|..]) == n
  {
    IntValueOfIntToString(n);
    assert ResultText(Single(n))[|DiePrefix|..] == IntToString(n);
  }

  lemma EmptyList()
    ensures ResultText(Many([])) == ":game_die: Empty result!"
  {
  }

  lemma {:induction false} JoinedChars(strs: seq<string>, c: char)
    requires Free(strs, c) && c != ',' && c != ' '
    ensures c !in JoinWith(strs, ", ")
    decreases |strs|
  {
    if |strs| > 1 {
      JoinedChars(strs[1..], c);
      assert JoinWith(strs, ", ") == strs[0] + ", " + JoinWith(strs[1..], ", ");
    }
  }

  /** The shown list never holds a closing parenthesis. */
  lemma ShownNoParen(xs: seq<int>)
    ensures ')' !in Shown(xs)
  {
    var strs := Numerals(xs);
    forall k | 0 <= k < |xs|
      ensures ')' !in strs[k]
    {
      NumeralChars(xs[k]);
    }
    JoinedChars(strs, ')');
    assert ')' !in TooLong;
  }

  /**
   * A non-empty list shows at most 1970 characters of numbers (the notice
   * replaces anything longer), and ends with the total, ` (total: <sum>)`,
   * exactly when it has more than one element.
   */
  lemma ListShape(xs: seq<int>)
    requires xs != []
    ensures |Shown(xs)| <= MaxListText
    ensures Shown(xs) == Joined(xs) <==> |Joined(xs)| <= MaxListText
    ensures |Joined(xs)| > MaxListText ==> Shown(xs) == TooLong
    ensures |xs| > 1 ==> ResultBody(Many(xs)) == Shown(xs) + TotalSuffix(xs)
    ensures ResultBody(Many(xs))[|ResultBody(Many(xs))| - 1] == ')' <==> |xs| > 1
  {
    ShownNoParen(xs);
    if |Joined(xs)| > MaxListText {
      assert 'r' in TooLong;
      var strs := Numerals(xs);
      forall k | 0 <= k < |xs|
        ensures 'r' !in strs[k]
      {
        NumeralChars(xs[k]);
      }
      JoinedChars(strs, 'r');
    }
    if |xs| == 1 {
      var s := ResultBody(Many(xs));
      assert Joined(xs) == IntToString(xs[0]);
      assert s == Shown(xs) && s != [];
      assert s[|s| - 1] in Shown(xs);
    }
  }

  /**
   * The messages: every breakdown page is sent, in order, and the result
   * last; the last page and the result share a message exactly when
   * together they stay under the 2000-character limit.
   */
  lemma MessagesSpec(pages: seq<string>, res: string, verbose: bool)
    requires verbose ==> pages != []
    ensures !verbose ==> Messages(pages, res, verbose) == [res]
    ensures verbose ==> |Messages(pages, res, verbose)| in {|pages|, |pages| + 1}
    ensures verbose ==>
              (|Messages(pages, res, verbose)| == |pages| <==> |res| + |pages[|pages| - 1]| < MessageLimit - 1)
    ensures verbose ==> Messages(pages, res, verbose)[..|pages| - 1] == pages[..|pages| - 1]
    ensures verbose && |Messages(pages, res, verbose)| == |pages| ==>
              Messages(pages, res, verbose)[|pages| - 1] == pages[|pages| - 1] + "\n" + res &&
              |Messages(pages, res, verbose)[|pages| - 1]| < MessageLimit
    ensures verbose && |Messages(pages, res, verbose)| == |pages| + 1 ==>
              Messages(pages, res, verbose)[|pages| - 1..] == [pages[|pages| - 1], res]
  {
    if verbose {
      var last := pages[|pages| - 1];
      if |res| + |last| >= MessageLimit - 1 {
        assert pages == pages[..|pages| - 1] + [last];
      }
    }
  }
}
