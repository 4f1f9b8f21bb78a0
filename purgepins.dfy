/**
 * The pin-purge cog: per-channel settings (how long a "pinned a message"
 * notification lives, and whether the oldest pin is dropped at the pin
 * limit), the upgrade of settings saved by older versions, the map of
 * scheduled delete tasks, and the pin-rotation decision.
 *
 * Discord events arrive as parameters: the channel's id, whether it is
 * private, whether the bot may manage messages there, the message kind and
 * the channel's current pins.
 */
module PurgePins {
  import opened Wrappers
  import opened Text
  import opened TimeSpec
  import TimeSpecProofs

  type Id = nat

  /** A channel holds at most this many pins. */
  const MaxPins := 50

  /** `PURGE_DELAY`: `False`, or the seconds a notification lives. */
  datatype Delay = Off | After(seconds: int)

  /**
   * A channel's saved settings: older versions saved the delay alone, the
   * current one a dict with optional `PURGE_DELAY` and `ROTATE_PINS` keys.
   */
  datatype Entry =
    | Legacy(delay: Delay)
    | Dict(purgeDelay: Option<Delay>, rotatePins: Option<bool>)

  predicate AllDicts(settings: map<Id, Entry>) {
    forall id :: id in settings ==> settings[id].Dict?
  }

  /** One entry after `upgrade_settings`: a bare value `v` becomes `{'PURGE_DELAY': v}`. */
  function UpgradeEntry(e: Entry): Entry {
    match e
    case Legacy(d) => Dict(Some(d), None)
    case Dict(_, _) => e
  }

  function Upgraded(settings: map<Id, Entry>): map<Id, Entry> {
    map id | id in settings :: UpgradeEntry(settings[id])
  }

  /** `settings.get(channel, {})`, for settings made of dicts. */
  function EntryOf(settings: map<Id, Entry>, channel: Id): (e: Entry)
    requires AllDicts(settings)
    ensures e.Dict?
  {
    if channel in settings then settings[channel] else Dict(None, None)
  }

  /** `.get('PURGE_DELAY', False)`. */
  function StoredDelay(settings: map<Id, Entry>, channel: Id): Delay
    requires AllDicts(settings)
  {
    match EntryOf(settings, channel).purgeDelay
    case Some(d) => d
    case None => Off
  }

  /** `.get('ROTATE_PINS')`. */
  function StoredRotate(settings: map<Id, Entry>, channel: Id): Option<bool>
    requires AllDicts(settings)
  {
    EntryOf(settings, channel).rotatePins
  }

  /** Writes one key of the channel's dict, creating the dict if needed. */
  function WithDelay(settings: map<Id, Entry>, channel: Id, d: Delay): map<Id, Entry>
    requires AllDicts(settings)
  {
    settings[channel := Dict(Some(d), EntryOf(settings, channel).rotatePins)]
  }

  function WithRotate(settings: map<Id, Entry>, channel: Id, on: bool): map<Id, Entry>
    requires AllDicts(settings)
  {
    settings[channel := Dict(EntryOf(settings, channel).purgeDelay, Some(on))]
  }

  /**
   * The `wait` argument of `purgepins`: `none` or `off`, in any case and
   * with surrounding spaces, switches deletion off; anything else is a
   * duration.
   */
  function WaitSetting(wait: string): Result<Delay, TimeError> {
    var word := Lower(Strip(wait));
    if word == "none" || word == "off" then Ok(Off)
    else match ParseTime(wait)
      case Ok(n) => Ok(After(n))
      case Err(e) => Err(e)
  }

  /** What the reply of `purgepins` says about the delay. */
  datatype PurgeStatus = NotDeleted | DeletedAfter(timespec: string) | DeletedImmediately

  datatype PurgeReply =
    | ParseFailed(error: TimeError)                          // "Error parsing duration: ..."
    | Raised(error: TimeError)                               // not a `BadTimeExpr`: escapes the command unanswered
    | PurgeMessage(status: PurgeStatus, noPermission: bool)  // with the permission warning when set

  function StatusOf(d: Delay): PurgeStatus {
    match d
    case Off => NotDeleted
    case After(n) =>
      if n > 0 then
        TimeSpecProofs.TimespecFailsOnlyOnZero(n, Long);
        DeletedAfter(Timespec(n, Long).value)
      else DeletedImmediately
  }

  /** The three forms of `rotatepins`'s reply. */
  datatype RotateStatus = Currently | AlreadySo | NowSo

  datatype RotateReply = RotateMessage(status: RotateStatus, enabled: bool, noPermission: bool)

  /**
   * `do_pin_rotate`: with permission and rotation switched on, a channel
   * at the pin limit loses its last pin (the oldest one).
   */
  function PinRotate(entry: Entry, canManage: bool, pins: seq<Id>): (unpin: Option<Id>)
    requires entry.Dict?
    ensures unpin.Some? <==> canManage && entry.rotatePins == Some(true) && |pins| >= MaxPins
    ensures unpin.Some? ==> unpin.value == pins[|pins| - 1]
  {
    if !canManage then None
    else if entry.rotatePins == Some(true) && |pins| >= MaxPins then Some(pins[|pins| - 1])
    else None
  }

  /**
   * `on_message`: the delay of the delete task scheduled for a message,
   * if any. Only a "pinned a message" notification in a public channel
   * with settings, where the bot may manage messages and the delay is not
   * `False`, is scheduled.
   */
  function Schedule(settings: map<Id, Entry>, channel: Id, isPrivate: bool, canManage: bool, isPinsAdd: bool): Option<int>
    requires AllDicts(settings)
  {
    if isPrivate || channel !in settings || !canManage || !isPinsAdd then None
    else match StoredDelay(settings, channel)
      case Off => None
      case After(n) => Some(n)
  }

  /** `on_message_edit`: a newly pinned message in a channel with settings triggers the rotation. */
  function EditRotation(settings: map<Id, Entry>, channel: Id, isPrivate: bool, wasPinned: bool, isPinned: bool,
                        canManage: bool, pins: seq<Id>): Option<Id>
    requires AllDicts(settings)
  {
    if isPrivate || channel !in settings || !(isPinned && !wasPinned) then None
    else PinRotate(settings[channel], canManage, pins)
  }

  class PurgePinsCog {
    var settings: map<Id, Entry>
    /** The scheduled delete tasks, by message id, with the delay each waits. */
    var handles: map<Id, int>

    /**
     * Loads the saved settings and upgrades them when any value is not a
     * list; no saved value is a list, so any non-empty table is upgraded.
     */
    constructor(saved: map<Id, Entry>)
      ensures settings == Upgraded(saved) && handles == map[]
      ensures AllDicts(settings)
    {
      settings := saved;
      handles := map[];
      new;
      if settings != map[] {
        UpgradeSettings();
      }
      assert settings == Upgraded(saved);
    }

    /** `upgrade_settings`: rewrites each bare value in place. */
    method UpgradeSettings()
      modifies this
      ensures settings == Upgraded(old(settings)) && handles == old(handles)
      ensures AllDicts(settings)
    {
      ghost var saved := settings;
      var todo := settings.Keys;
      while todo != {}
        invariant todo <= saved.Keys && settings.Keys == saved.Keys
        invariant forall id :: id in saved && id !in todo ==> settings[id] == UpgradeEntry(saved[id])
        invariant forall id :: id in todo ==> settings[id] == saved[id]
        invariant handles == old(handles)
        decreases |todo|
      {
        var id :| id in todo;
        if settings[id].Legacy? {
          settings := settings[id := Dict(Some(settings[id].delay), None)];
        }
        todo := todo - {id};
      }
    }

    /**
     * `purgepins [wait]`: with an argument, stores the delay; without one,
     * reads it back. The reply describes the delay in force. A parse error
     * saves nothing: a `BadTimeExpr` is answered with "Error parsing
     * duration", while any other exception (`float()`'s `ValueError`,
     * `int()` of an infinite or NaN total, `atoms[0]` of an empty split)
     * escapes the command without a reply.
     */
    method Purgepins(channel: Id, wait: Option<string>, canManage: bool) returns (reply: PurgeReply)
      requires AllDicts(settings)
      modifies this
      ensures AllDicts(settings) && handles == old(handles)
      ensures wait.None? ==>
                settings == old(settings) &&
                reply == PurgeMessage(StatusOf(StoredDelay(old(settings), channel)), !canManage)
      ensures wait.Some? && WaitSetting(wait.value).Err? && WaitSetting(wait.value).error.IsBadTimeExpr() ==>
                settings == old(settings) && reply == ParseFailed(WaitSetting(wait.value).error)
      ensures wait.Some? && WaitSetting(wait.value).Err? && !WaitSetting(wait.value).error.IsBadTimeExpr() ==>
                settings == old(settings) && reply == Raised(WaitSetting(wait.value).error)
      ensures wait.Some? && WaitSetting(wait.value).Ok? ==>
                settings == WithDelay(old(settings), channel, WaitSetting(wait.value).value) &&
                reply == PurgeMessage(StatusOf(WaitSetting(wait.value).value), !canManage)
    {
      var delay: Delay;
      if wait.Some? {
        var word := Lower(Strip(wait.value));
        if word == "none" || word == "off" {
          delay := Off;
        } else {
          var parsed := ParseTime(wait.value);
          if parsed.Err? {
            if parsed.error.IsBadTimeExpr() {
              return ParseFailed(parsed.error);
            }
            return Raised(parsed.error);
          }
          delay := After(parsed.value);
        }
        var entry := if channel in settings then settings[channel] else Dict(None, None);
        settings := settings[channel := entry.(purgeDelay := Some(delay))];
      } else {
        delay := StoredDelay(settings, channel);
      }
      var status: PurgeStatus;
      if delay == Off {
        status := NotDeleted;
      } else if delay.seconds > 0 {
        TimeSpecProofs.TimespecFailsOnlyOnZero(delay.seconds, Long);
        var text := GenerateTimespec(delay.seconds, false, false);
        status := DeletedAfter(text.value);
      } else {
        status := DeletedImmediately;
      }
      reply := PurgeMessage(status, !canManage);
    }

    /**
     * `rotatepins [on_off]`: without an argument, or with the value already
     * set, changes nothing; otherwise stores it and runs the rotation on
     * the channel's pins. Returns the reply and the pin to remove, if any.
     */
    method Rotatepins(channel: Id, onOff: Option<bool>, canManage: bool, pins: seq<Id>)
        returns (reply: RotateReply, unpin: Option<Id>)
      requires AllDicts(settings)
      modifies this
      ensures AllDicts(settings) && handles == old(handles)
      ensures onOff.None? ==>
                settings == old(settings) && unpin == None &&
                reply == RotateMessage(Currently, StoredRotate(old(settings), channel) == Some(true), !canManage)
      ensures onOff.Some? && onOff == StoredRotate(old(settings), channel) ==>
                settings == old(settings) && unpin == None &&
                reply == RotateMessage(AlreadySo, onOff.value, !canManage)
      ensures onOff.Some? && onOff != StoredRotate(old(settings), channel) ==>
                settings == WithRotate(old(settings), channel, onOff.value) &&
                unpin == PinRotate(settings[channel], canManage, pins) &&
                reply == RotateMessage(NowSo, onOff.value, !canManage)
    {
      var current := StoredRotate(settings, channel);
      var shown := onOff;
      var status: RotateStatus;
      unpin := None;
      if onOff.None? {
        shown := current;
        status := Currently;
      } else if onOff == current {
        status := AlreadySo;
      } else {
        var entry := if channel in settings then settings[channel] else Dict(None, None);
        settings := settings[channel := entry.(rotatePins := onOff)];
        status := NowSo;
        unpin := PinRotate(settings[channel], canManage, pins);
      }
      reply := RotateMessage(status, shown == Some(true), !canManage);
    }

    /** `on_message`: schedules the delete task of a pin notification. */
    method OnMessage(channel: Id, isPrivate: bool, canManage: bool, isPinsAdd: bool, message: Id)
      requires AllDicts(settings)
      modifies this
      ensures settings == old(settings)
      ensures Schedule(settings, channel, isPrivate, canManage, isPinsAdd).None? ==> handles == old(handles)
      ensures Schedule(settings, channel, isPrivate, canManage, isPinsAdd).Some? ==>
                handles == old(handles)[message := Schedule(settings, channel, isPrivate, canManage, isPinsAdd).value]
    {
      if isPrivate || channel !in settings {
        return;
      }
      if !canManage {
        return;
      }
      var entry := settings[channel];
      if isPinsAdd {
        var timeout := if entry.purgeDelay.Some? then entry.purgeDelay.value else Off;
        if timeout != Off {
          handles := handles[message := timeout.seconds];
        }
      }
    }

    /** `on_message_delete`: a deleted message's task is cancelled and forgotten. */
    method OnMessageDelete(message: Id)
      modifies this
      ensures handles == old(handles) - {message} && settings == old(settings)
    {
      if message in handles {
        handles := handles - {message};
      }
    }

    /** The end of `delete_task`: the finished task is forgotten. */
    method DeleteTaskDone(message: Id)
      modifies this
      ensures handles == old(handles) - {message} && settings == old(settings)
    {
      if message in handles {
        handles := map id | id in handles && id != message :: handles[id];
      }
    }
  }
}
