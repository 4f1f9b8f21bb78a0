/**
 * Properties of the pin-purge cog: the settings upgrade is idempotent and
 * keeps every delay, `purgepins` and `rotatepins` write one key of one
 * channel, the reply's duration reads back as the stored delay, and the
 * scheduling and rotation rules.
 */
module PurgePinsProofs {
  import opened Wrappers
  import opened Text
  import opened TimeSpec
  import TimeSpecRoundTrip
  import opened PurgePins

  /**
   * `upgrade_settings` turns every channel's settings into a dict, keeps
   * the channels and every delay, and a second run changes nothing.
   */
  lemma UpgradedSpec(settings: map<Id, Entry>)
    ensures AllDicts(Upgraded(settings)) && Upgraded(settings).Keys == settings.Keys
    ensures forall id :: id in settings && settings[id].Dict? ==> Upgraded(settings)[id] == settings[id]
    ensures forall id :: id in settings && settings[id].Legacy? ==>
              StoredDelay(Upgraded(settings), id) == settings[id].delay &&
              StoredRotate(Upgraded(settings), id) == None
    ensures Upgraded(Upgraded(settings)) == Upgraded(settings)
    ensures AllDicts(settings) ==> Upgraded(settings) == settings
  {
  }

  /** `purgepins <wait>` writes only `PURGE_DELAY` of the one channel. */
  lemma WithDelaySpec(settings: map<Id, Entry>, channel: Id, d: Delay)
    requires AllDicts(settings)
    ensures AllDicts(WithDelay(settings, channel, d))
    ensures WithDelay(settings, channel, d).Keys == settings.Keys + {channel}
    ensures StoredDelay(WithDelay(settings, channel, d), channel) == d
    ensures StoredRotate(WithDelay(settings, channel, d), channel) == StoredRotate(settings, channel)
    ensures forall id :: id in settings && id != channel ==> WithDelay(settings, channel, d)[id] == settings[id]
  {
  }

  /** `rotatepins <on_off>` writes only `ROTATE_PINS` of the one channel. */
  lemma WithRotateSpec(settings: map<Id, Entry>, channel: Id, on: bool)
    requires AllDicts(settings)
    ensures AllDicts(WithRotate(settings, channel, on))
    ensures WithRotate(settings, channel, on).Keys == settings.Keys + {channel}
    ensures StoredRotate(WithRotate(settings, channel, on), channel) == Some(on)
    ensures StoredDelay(WithRotate(settings, channel, on), channel) == StoredDelay(settings, channel)
    ensures forall id :: id in settings && id != channel ==> WithRotate(settings, channel, on)[id] == settings[id]
  {
  }

  /**
   * The reply of `purgepins`: "not automatically deleted" exactly for
   * `False`, "immediately" exactly for a delay of at most zero, and
   * otherwise "after <timespec>", where the timespec parses back to the
   * delay and, given back to `purgepins`, sets the same delay again.
   */
  lemma StatusOfSpec(d: Delay)
    ensures StatusOf(d) == NotDeleted <==> d == Off
    ensures StatusOf(d) == DeletedImmediately <==> d.After? && d.seconds <= 0
    ensures StatusOf(d).DeletedAfter? ==>
              d.After? && d.seconds > 0 &&
              ParseTime(StatusOf(d).timespec) == Ok(d.seconds) &&
              WaitSetting(StatusOf(d).timespec) == Ok(d)
  {
    if d.After? && d.seconds > 0 {
      TimeSpecRoundTrip.RoundTrip(d.seconds, Long);
      WaitRoundTrip(d.seconds);
    }
  }

  /** A generated duration is never read as `none` or `off`. */
  lemma WaitRoundTrip(n: int)
    requires n > 0
    ensures Timespec(n, Long).Ok? && WaitSetting(Timespec(n, Long).value) == Ok(After(n))
  {
    TimeSpecRoundTrip.RoundTrip(n, Long);
    TimeSpecRoundTrip.TimespecStartsWithDigit(n, Long);
    var t := Timespec(n, Long).value;
    StripKeepsFirst(t);
    var word := Lower(Strip(t));
    assert word[0] == t[0];
    assert "none"[0] == 'n' && "off"[0] == 'o';
  }

  /** `none` and `off` switch deletion off in any case and with surrounding spaces. */
  lemma WaitOff(wait: string)
    requires Lower(Strip(wait)) == "off" || Lower(Strip(wait)) == "none"
    ensures WaitSetting(wait) == Ok(Off)
  {
  }

  /**
   * A delete task is scheduled exactly for a pin notification in a public
   * configured channel with permission and a delay that is not `False`;
   * its delay is the stored one, zero included.
   */
  lemma ScheduleSpec(settings: map<Id, Entry>, channel: Id, isPrivate: bool, canManage: bool, isPinsAdd: bool)
    requires AllDicts(settings)
    ensures Schedule(settings, channel, isPrivate, canManage, isPinsAdd).Some? <==>
              !isPrivate && channel in settings && canManage && isPinsAdd && StoredDelay(settings, channel) != Off
    ensures Schedule(settings, channel, isPrivate, canManage, isPinsAdd).Some? ==>
              StoredDelay(settings, channel) == After(Schedule(settings, channel, isPrivate, canManage, isPinsAdd).value)
  {
  }

  /** A delay of zero still schedules a (zero-second) delete task. */
  lemma ZeroDelaySchedules(channel: Id)
    ensures Schedule(map[channel := Dict(Some(After(0)), None)], channel, false, true, true) == Some(0)
  {
  }

  /**
   * After `rotatepins` stores a new value, asking again with the same
   * value is "was already", and the rotation then runs only on a full
   * channel with the rotation on.
   */
  lemma RotateAfterSet(settings: map<Id, Entry>, channel: Id, on: bool, canManage: bool, pins: seq<Id>)
    requires AllDicts(settings)
    ensures Some(on) == StoredRotate(WithRotate(settings, channel, on), channel)
    ensures PinRotate(WithRotate(settings, channel, on)[channel], canManage, pins).Some? <==>
              on && canManage && |pins| >= MaxPins
  {
  }

  /** A newly pinned message rotates the pins of a full channel with rotation on, and nothing else does. */
  lemma EditRotationSpec(settings: map<Id, Entry>, channel: Id, isPrivate: bool, wasPinned: bool, isPinned: bool,
                         canManage: bool, pins: seq<Id>)
    requires AllDicts(settings)
    ensures EditRotation(settings, channel, isPrivate, wasPinned, isPinned, canManage, pins).Some? <==>
              !isPrivate && channel in settings && isPinned && !wasPinned && canManage &&
              StoredRotate(settings, channel) == Some(true) && |pins| >= MaxPins
    ensures EditRotation(settings, channel, isPrivate, wasPinned, isPinned, canManage, pins).Some? ==>
              EditRotation(settings, channel, isPrivate, wasPinned, isPinned, canManage, pins).value == pins[|pins| - 1]
  {
  }

  /**
   * Not every parse error is answered: `float("abc")` raises `ValueError`,
   * which is not a `BadTimeExpr`, so `purgepins abc` ends without a reply.
   */
  lemma UncaughtValueError()
    ensures WaitSetting("abc") == Err(NotAFloat("abc")) && !NotAFloat("abc").IsBadTimeExpr()
  {
    NotAFloatAbc();
    LetterWord("abc");
    WordWait("abc");
  }

  /** `int(float("inf"))` raises `OverflowError`, so `purgepins inf` ends without a reply too. */
  lemma UncaughtOverflow()
    ensures WaitSetting("inf") == Err(InfiniteTotal) && !InfiniteTotal.IsBadTimeExpr()
  {
    InfFloat();
    LetterWord("inf");
    WordWait("inf");
  }

  /** A word of lower-case ASCII letters has no upper-case letter, digit, dot or white space. */
  lemma LetterWord(t: string)
    requires forall k :: 0 <= k < |t| ==> 'a' <= t[k] <= 'z'
    ensures NoUpper(t) && forall k :: 0 <= k < |t| ==> !IsNumChar(t[k]) && !IsSpace(t[k])
  {
  }

  lemma NotAFloatAbc()
    ensures FloatOf("abc") == None
  {
    StripNoSpace("abc");
    assert !IsDecimal("abc") by {
      assert !IsDigit("abc"[0]) && !IsDigit("abc"[1]) && !IsDigit("abc"[2]);
    }
  }

  lemma InfFloat()
    ensures FloatOf("inf") == Some(PosInf)
  {
    var t := "inf";
    StripNoSpace(t);
    LowerOfLowerCase(t);
    LowerIsLower(t, "inf");
    InfinityWord(t);
  }

  /** `float(t)` of an unsigned, unpadded spelling of infinity. */
  lemma InfinityWord(t: string)
    requires t != [] && Strip(t) == t && !IsNumChar(t[0]) && t[0] != '-' && t[0] != '+'
    requires LowerIs(t, "inf")
    ensures FloatOf(t) == Some(PosInf)
  {
    assert !IsDecimal(t);
  }

  /**
   * `purgepins <word>` for such a word other than `none` and `off`: the
   * word is `float()`-converted as a number of seconds, and what `float()`
   * makes of it decides the error.
   */
  lemma WordWait(t: string)
    requires t != [] && NoUpper(t) && t != "none" && t != "off"
    requires forall k :: 0 <= k < |t| ==> !IsNumChar(t[k]) && !IsSpace(t[k])
    ensures FloatOf(t).None? ==> WaitSetting(t) == Err(NotAFloat(t))
    ensures FloatOf(t) == Some(PosInf) ==> WaitSetting(t) == Err(InfiniteTotal)
  {
    WordPiece(t);
    assert !IsDigitString(t) by {
      assert !IsDigit(t[0]);
    }
    TimeSpecRoundTrip.TimespecSecSingle(t, t);
    assert SplitTime(t)[1..] == [];
    if FloatOf(t) == Some(PosInf) {
      assert TimespecSec(t) == Ok(PosInf);
      assert SumPieces(SplitTime(t), Finite(0.0), TimespecSec) == Ok(PosInf);
    }
  }

  /**
   * A non-empty lower-case text without a digit, a dot or white space is one
   * piece of the outer split and one atom of the inner one, so
   * `_parse_time` converts it with `float()` as a number of seconds.
   */
  lemma WordPiece(t: string)
    requires t != [] && NoUpper(t)
    requires forall k :: 0 <= k < |t| ==> !IsNumChar(t[k]) && !IsSpace(t[k])
    ensures Lower(t) == t && Strip(t) == t
    ensures SplitTime(t) == [t] && SplitAtoms(t) == [t]
  {
    LowerOfLowerCase(t);
    StripNoSpace(t);
    NoNumberSplits(t, 0, 0);
  }

  lemma {:induction false} NoNumberSplits(t: string, i: nat, start: nat)
    requires start <= i <= |t|
    requires forall k :: 0 <= k < |t| ==> !IsNumChar(t[k]) && !IsSpace(t[k])
    ensures SplitTimeFrom(t, i, start) == Keep(t[start..])
    ensures AtomsFrom(t, i, start) == Keep(t[start..])
    decreases |t| - i
  {
    if i < |t| {
      assert Span(t, i, IsSpace) == i;
      NoNumberSplits(t, i + 1, start);
    }
  }
}
