/**
 * The text `roll_common` of the dice cog sends for a roll: the result of
 * the dice library, an integer or a list of integers, becomes one line
 * after the die emoji, and the verbose breakdown's last page shares that
 * message when both fit.
 *
 * The dice library (parsing and evaluating the expression, and the
 * breakdown text) is an input: the result and the breakdown's pages.
 */
module Dice {
  import opened Text

  /** A joined list longer than this is not shown. */
  const MaxListText := 1970

  /** Discord's message length limit. */
  const MessageLimit := 2000

  const DiePrefix := ":game_die: "
  const TooLong := "[result set too long to display]"
  const EmptyResult := "Empty result!"

  /** What the dice library returns: one integer, or a list of them. */
  datatype Roll = Single(value: int) | Many(values: seq<int>)

  /** `sum(result)`. */
  function Sum(xs: seq<int>): int {
    if xs == [] then 0 else Sum(xs[..|xs| - 1]) + xs[|xs| - 1]
  }

  /** `map(str, result)`. */
  function Numerals(xs: seq<int>): (r: seq<string>)
    ensures |r| == |xs|
  {
    seq(|xs|, k requires 0 <= k < |xs| => IntToString(xs[k]))
  }

  /** `', '.join(map(str, result))`. */
  function Joined(xs: seq<int>): string {
    JoinWith(Numerals(xs), ", ")
  }

  /** The list as shown: the joined text, or a notice when it is too long. */
  function Shown(xs: seq<int>): string {
    if |Joined(xs)| > MaxListText then TooLong else Joined(xs)
  }

  /** ` (total: <sum>)`. */
  function TotalSuffix(xs: seq<int>): string {
    " (total: " + IntToString(Sum(xs)) + ")"
  }

  /** `res` before the emoji: the number, the list with its total, or the empty notice. */
  function ResultBody(r: Roll): string {
    match r
    case Single(n) => IntToString(n)
    case Many(xs) =>
      if |xs| == 0 then EmptyResult
      else if |xs| > 1 then Shown(xs) + TotalSuffix(xs)
      else Shown(xs)
  }

  function ResultText(r: Roll): string {
    DiePrefix + ResultBody(r)
  }

  /**
   * The messages sent, in order. Without a breakdown, the result alone;
   * with one, every page but the last, then the last page and the result,
   * together when they fit (with a newline between) and apart otherwise.
   * A breakdown has at least one page: the source indexes its last one.
   */
  function Messages(pages: seq<string>, res: string, verbose: bool): seq<string>
    requires verbose ==> pages != []
  {
    if !verbose then [res]
    else
      var last := pages[|pages| - 1];
      if |res| + |last| >= MessageLimit - 1 then pages + [res]
      else pages[..|pages| - 1] + [last + "\n" + res]
  }
}
