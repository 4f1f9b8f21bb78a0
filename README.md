# Verified model of four Red-DiscordBot cogs

This project is a Dafny model of the sequential logic in four cogs of a Discord bot, with proofs of what that logic promises:

- **Duration parsing and formatting** (`_find_unit`, `_parse_time`, `_timespec_sec`, `_generate_timespec`). The captcha and purgepins cogs hold identical copies; module `TimeSpec` models them once.
  - The parser reads text such as `1h30m`, `2 days, 3 hours and 4 minutes` or `90` into whole seconds.
  - The formatter writes seconds in long, short or micro style.
  - The main theorem is the round trip in the model, which computes with exact reals: parsing the formatted text of any positive number of seconds gives the number back, in every style. Python's float sums make this hold in the program only up to 2^53 seconds (see Left out).
- **Captcha** (module `Captcha`, class `CaptchaCog`).
  - State: the per-server settings, the `pending` set and the `cancel` map of approvals.
  - The commands `approve`, `approve-all`, `channel`, `role`, `enable` and `dm`.
  - `on_member_join`: the start guard, the challenge, the poll loop and its four outcomes.
- **Global aliases** (module `GlobalAlias`, class `GlobalAliasCog`).
  - The alias table with `add`, `edit`, `rename`, `del` and the sorted `list`.
  - The first-matching-prefix lookup.
  - The rewrite of an incoming message into `prefix + expansion + arguments`.
- **Pin purging** (module `PurgePins`, class `PurgePinsCog`) and the **dice** result text (module `Dice`).
  - Pin purging: per-channel settings, the upgrade of legacy settings, the map of scheduled delete tasks, and the rule that drops the oldest pin at 50.
  - Dice: the text sent for an integer or list result, and how it shares a message with the verbose breakdown.

## How the model is laid out

- Each `*.dfy` file holds one module. `text.dfy` models the Python string operations the cogs use, and `wrappers.dfy` holds `Option` and `Result`.
- Objects whose methods update fields become classes with those fields. Their methods state the whole new state through functions over the old state, and the `*_proofs.dfy` files prove properties of those functions.
- Python raises exceptions in some places. The model returns them as `Err(...)`; `BadTimeExpr` carries the reason.
- Discord I/O becomes inputs or returned actions:
  - Inputs: messages, the pins, whether a member is still present, permissions, and the `random.choice` picks.
  - Returned values: the command replies; for the challenge workflow, every message it sends and its role and kick calls, in order; the pin to remove.
- The challenge wait is a sequence of one-second ticks. Each tick holds the member's messages and the approval a moderator recorded meanwhile. The approval is popped after the reply check, so it wins over a reply in the same second.
- Python floats are modelled as exact reals, plus infinities and NaN (`FloatVal`). `int()` truncates toward zero, and fails on infinity or NaN.
- `approve` records the approver in `cancel` before it grants the role, and the model keeps that order.
- A member who left before the timeout stays in `pending`, as the code leaves it.

## Model

| member | source | states |
|---|---|---|
| TimeSpec.FindUnitSpec | captcha/captcha.py:102-106 | `_find_unit` returns the first unit row, in weeks-to-seconds order, that has a name starting with the unit. It fails with `InvalidUnit(unit)` exactly when no row matches. |
| TimeSpec.FindUnitFromSpec | purgepins/purgepins.py:26-30 | The scan from row `i` returns the first matching row at or after `i`, or fails when none matches. |
| TimeSpecRoundTrip.FindsRow | captcha/captcha.py:103-105 | A row that matches, with no earlier row matching, is the one found. |
| TimeSpecExamples.FindUnitInitial | captcha/captcha.py:46-52 | The initial letter of each row's long name finds that row. |
| TimeSpecExamples.FindUnitInitials | captcha/captcha.py:46-52 | `m` means minutes (row 3) and `s` means seconds (row 4). |
| TimeSpecExamples.FindUnitMo | captcha/captcha.py:102-106 | `mo` matches no unit name and fails with `InvalidUnit("mo")`. |
| TimeSpec.SplitTimeFromNonEmpty | captcha/captcha.py:112-113 | After `filter(None, ...)`, no piece of the outer split is empty. |
| TimeSpec.AtomsFromNonEmpty | captcha/captcha.py:118-119 | After `filter(None, ...)`, no atom of the inner split is empty. |
| TimeSpecExamples.NumberAndUnit | captcha/captcha.py:118-119 | A run of digits and dots followed by a unit word splits into exactly `[number, unit]`. |
| TimeSpecExamples.ParseTimeIgnoresCase | captcha/captcha.py:110 | `_parse_time` gives the same result for a text and its lower-case form. |
| TimeSpecExamples.ParseTimeDigits | captcha/captcha.py:111-114 | An all-digit text parses to its decimal value. |
| TimeSpecExamples.ParseTimeEmpty | purgepins/purgepins.py:33-38 | The empty text sums no pieces and parses to 0. |
| TimeSpecExamples.BareNumberExample | captcha/captcha.py:128-131 | A bare number is read as seconds. |
| TimeSpecExamples.TwoDotsExample | captcha/captcha.py:125-127 | A number with two dots before a unit is `NotANumber`. |
| TimeSpecExamples.NoDigitExample | captcha/captcha.py:125-127 | A number made only of a dot, before a unit, is `NotANumber`. |
| TimeSpecExamples.UnknownUnitExample | captcha/captcha.py:124 | An unknown unit after a number is `InvalidUnit`. |
| TimeSpecRoundTrip.TimespecSecEntry | captcha/captcha.py:117-131 | Any component the formatter writes (`n` ≥ 1 of a unit, in any style) is read back by `_timespec_sec` as exactly `n` × the unit's length. |
| TimeSpecRoundTrip.WordFindsRow | purgepins/purgepins.py:26-30 | Every unit word the formatter writes, singular or plural, finds its own row. |
| TimeSpecRoundTrip.SumEntries | captcha/captcha.py:113 | Summing the values of the pieces gives the total of the breakdown. |
| TimeSpec.DivMod | captcha/captcha.py:138 | Python's `divmod` by a positive unit length: floor quotient and non-negative remainder. |
| TimeSpec.RenderUnits | captcha/captcha.py:135-149 | The `divmod` loop over the unit table appends exactly the rendered non-zero components, in table order. |
| TimeSpec.GenerateTimespec | captcha/captcha.py:134-158 | `_generate_timespec` with the `short` and `micro` flags equals the specification `Timespec` for the chosen style. |
| TimeSpecProofs.ComponentsSum | captcha/captcha.py:137-149 | The components are non-zero and their units strictly descend. Their counts are positive for `sec` ≥ 0. The sum of count × unit length is `sec`. |
| TimeSpecProofs.ComponentsFromValue | purgepins/purgepins.py:61-71 | From any row on, the components account for exactly the seconds left. |
| TimeSpecProofs.RenderFromEntries | purgepins/purgepins.py:61-71 | The rendered texts are the components, one text each, in order. |
| TimeSpecProofs.NoEntriesOnlyOnZero | captcha/captcha.py:137-149 | No component is emitted exactly when `sec` is 0. |
| TimeSpecProofs.JoinTimespecFails | captcha/captcha.py:151-158 | Joining fails (`timespec[0]` on an empty list) exactly when there is no component. |
| TimeSpecProofs.TimespecFailsOnlyOnZero | purgepins/purgepins.py:58-82 | `_generate_timespec` fails exactly when `sec` is 0. |
| TimeSpecRoundTrip.RenderShape | captcha/captcha.py:140-148 | A count ≥ 1 renders as its digits, the style's gap and the unit word. The word loses its trailing `s` when the count is 1. |
| TimeSpecExamples.MicroOnes | captcha/captcha.py:141-148 | In micro style, one minute is `1m`, and one second is `1`, because `1s` loses its `s`. |
| TimeSpecExamples.UnderAnHour | captcha/captcha.py:137-140 | Below an hour, the weeks, days and hours rows emit nothing. |
| TimeSpecExamples.TimespecMicro61 | captcha/captcha.py:151-153 | 61 seconds in micro style is `1m1`: the components are concatenated. |
| TimeSpecExamples.TimespecMicro1 | captcha/captcha.py:158 | One second in micro style is `1`. |
| TimeSpecRoundTrip.JoinLayout | captcha/captcha.py:151-158 | Joining gives `a, b and c` in long and short style, and plain concatenation in micro style. |
| TimeSpecRoundTrip.SplitFromLayout | captcha/captcha.py:112-113 | The outer split of a formatted text gives back the formatted components. |
| TimeSpecRoundTrip.ParseLayout | captcha/captcha.py:109-114 | Parsing a formatted text gives the seconds its components stand for. |
| TimeSpecRoundTrip.RoundTrip | captcha/captcha.py:109-158 | For every positive `sec` and every style, `_generate_timespec` succeeds and `_parse_time` of its text is `sec`, with the sum computed exactly (the program's float sum agrees up to 2^53). |
| TimeSpecRoundTrip.TimespecStartsWithDigit | purgepins/purgepins.py:58-82 | The text for a positive `sec` starts with a digit. |
| Captcha.ResolveRole | captcha/captcha.py:184 | `discord.utils.get(server.roles, id=...)` finds the role exactly when the id is set and the role exists. |
| Captcha.ResolveChannel | captcha/captcha.py:335 | `server.get_channel` finds the channel exactly when the id is set and the channel exists. |
| Captcha.JoinGuard | captcha/captcha.py:330-343 | `on_member_join` goes on exactly when captcha is enabled, a destination resolves and the role exists. The destination is the member when `use_dm` is set, and otherwise the staging channel. |
| Captcha.Challenge | captcha/captcha.py:347-349 | The challenge has one character per pick, each a lower-case letter or a digit. |
| Captcha.CaptchaCog.constructor | captcha/captcha.py:165-169 | The cog starts from the saved settings, with `pending` and `cancel` empty. |
| Captcha.CaptchaCog.Approve | captcha/captcha.py:181-199 | The checks come in this order: disabled, missing role, not pending. Each refusal changes nothing. Otherwise `cancel[(server, user)]` becomes the author, then the role is granted. |
| Captcha.CaptchaCog.AddAll | captcha/captcha.py:217-233 | Without a role, it replies and grants nothing. Otherwise the counting loop grants the role to exactly the members in `Unverified`, in list order, and reports how many. |
| CaptchaProofs.UnverifiedIff | captcha/captcha.py:226-231 | A member gets the role from `approve-all` exactly when they are listed, are not a bot and lack the role. |
| CaptchaProofs.UnverifiedCount | captcha/captcha.py:225-233 | The reported count is at most the number of members. It is 0 when everyone is a bot or already verified. |
| Captcha.CaptchaCog.SetChannel | captcha/captcha.py:241-256 | Given a channel, it stores it, seeding a new server with `{'enabled': True}`. Otherwise it shows the stored channel, or says there is none, and changes nothing. |
| Captcha.CaptchaCog.SetRole | captcha/captcha.py:264-279 | Given a role, it stores it, seeding a new server with `{'enabled': True}`. Otherwise it shows the stored role, or says there is none, and changes nothing. |
| Captcha.CaptchaCog.SetEnable | captcha/captcha.py:287-303 | Given a flag, it stores the flag and keeps the other keys, creating `{'enabled': flag}` on a new server. Otherwise it reports the stored flag. |
| Captcha.CaptchaCog.SetDm | captcha/captcha.py:311-327 | Given a flag, it stores the flag (corrected; see Findings). Otherwise it reports the stored flag. |
| Captcha.CaptchaCog.OnMemberJoin | captcha/captcha.py:329-399 | Past the guard, the member becomes pending, the challenge is sent and the poll loop runs; the outcome is `OutcomeOf(PollFrom(...))`. An approval sends the "approved you" notice. A reply sends the thanks, then grants the role. A timeout with the member present sends the time-out notice, the kick DM, then kicks. The approval is removed from `cancel`, `pending` keeps the member only when they left before the timeout, and settings are unchanged. |
| CaptchaProofs.PollTimedOutIff | captcha/captcha.py:360-375 | The loop times out exactly when no approval was waiting and every one of the ticks is quiet. |
| CaptchaProofs.PollOverriddenAt | captcha/captcha.py:362-373 | An approval ends the loop on the tick that pops it, and every earlier tick was quiet. |
| CaptchaProofs.PollRepliedAt | captcha/captcha.py:362-377 | A reply ends the loop only on a tick with no approval, after quiet ticks. |
| CaptchaProofs.ApprovalWins | captcha/captcha.py:363-373 | After quiet ticks, an approval recorded during a tick ends the loop as approved, even when a reply came in the same tick. |
| CaptchaProofs.OutcomeCases | captcha/captcha.py:377-399 | With no approval waiting beforehand and every tick quiet, a member who is still present is kicked, and one who left causes the early "they left" return. Neither outcome happens in any other case. |
| CaptchaProofs.DmDroppedOnNewServer | captcha/captcha.py:317-322 | As written, `set_dm` on a server without settings stores no `use_dm`, so the challenge never goes to the member's DMs. |
| CaptchaProofs.DmDroppedExample | captcha/captcha.py:317-324 | `captchaset dm yes` on a new server stores `{'enabled': True}` only. The corrected update also stores `use_dm`. |
| CaptchaProofs.DmUpdateStores | captcha/captcha.py:317-322 | The corrected update stores the flag on every server and leaves the other servers alone. It agrees with the source whenever the server already has settings. |
| GlobalAlias.GetPrefix | galias/galias.py:262-272 | The loop over the prefixes returns `FirstPrefix`. |
| GlobalAliasProofs.FirstPrefixSpec | galias/galias.py:269-272 | `get_prefix` returns the first prefix, in list order, that the content starts with. It returns `None` exactly when no prefix matches. |
| GlobalAliasProofs.FirstPrefixFromSpec | galias/galias.py:269-271 | The same, for the scan from any index. |
| GlobalAliasProofs.FirstWordSpec | galias/galias.py:259-260 | `msg.split(" ")[0]` is a space-free start of the message, followed by a space or by the end of the message. |
| GlobalAliasProofs.FirstWordUnique | galias/galias.py:259-260 | Only one word fits that description. |
| GlobalAliasProofs.StripPrefixSpec | galias/galias.py:55-60 | The stored command text is what follows the matched prefix, or the whole text when no prefix matches. |
| GlobalAliasProofs.RewriteShape | galias/galias.py:207-224 | With a non-empty prefix, the message is prefix + first word + arguments. It is rewritten exactly when the lower-cased word is an alias that is neither a command nor a local alias. The result is prefix + the alias's text + the same arguments. |
| GlobalAliasProofs.RewriteNeedsPrefix | galias/galias.py:202-210 | Nothing is rewritten for an ignored user, without a matching prefix, or with an empty prefix. |
| GlobalAliasProofs.UpperKeyUnused | galias/galias.py:211-213 | A key with an upper-case letter is never used by the rewrite. |
| GlobalAlias.GlobalAliasCog.Add | galias/galias.py:39-73 | The name is lower-cased. A space, a real command or an existing alias is refused with no change. Otherwise the text is stored without its leading prefix. |
| GlobalAlias.GlobalAliasCog.Edit | galias/galias.py:79-91 | Only an existing key, taken as typed, gets the new text. A missing key changes nothing. |
| GlobalAlias.GlobalAliasCog.Rename | galias/galias.py:97-123 | A space, a real command, an existing alias or a missing old name is refused with no change. Otherwise the text moves from the old name to the new one (lower-cased; see Findings). |
| GlobalAlias.GlobalAliasCog.Del | galias/galias.py:150-156 | The name is lower-cased. It is removed if present, and otherwise the table is unchanged. |
| GlobalAlias.GlobalAliasCog.AliasList | galias/galias.py:159-170 | An empty table gives "no aliases". Otherwise the loop writes every name, in sorted order, each followed by a newline. |
| GlobalAlias.LeastExists | galias/galias.py:169 | Every non-empty set of names has a least one in Python's string order. |
| GlobalAlias.SortedNamesCons | galias/galias.py:169 | The sorted list starts with the least name. |
| GlobalAliasProofs.SortedNamesSpec | galias/galias.py:169 | `sorted(names)` holds every name exactly once, in strictly increasing order. |
| GlobalAliasProofs.LinesCount | galias/galias.py:169-170 | The listing has one newline per name. |
| GlobalAliasProofs.AddKeepsLowerKeys | galias/galias.py:39-71 | A table of lower-case names stays one after `add`. |
| GlobalAliasProofs.EditKeepsKeys | galias/galias.py:86-87 | `edit` never adds or removes a name. |
| GlobalAliasProofs.DelKeepsLowerKeys | galias/galias.py:150-152 | `del` removes one name and keeps the table lower-case. |
| GlobalAliasProofs.RenameUnreachable | galias/galias.py:117-118 | As written, renaming to a name with an upper-case letter leaves a key that breaks the lower-case table. No message can reach that key, and `del`'s lower-casing misses it. |
| GlobalAliasProofs.RenameLoweredSpec | galias/galias.py:112-121 | The corrected rename moves the text to the lower-cased name and removes the old name. It leaves the other entries alone, keeps the table lower-case, and equals the source for lower-case names. |
| GlobalAliasProofs.RenameExample | galias/galias.py:117-121 | After `rename foo Bar`, the message `!Bar` is not rewritten as written, and becomes `!flip` with the correction. |
| PurgePins.PurgePinsCog.constructor | purgepins/purgepins.py:87-94 | The loaded settings are upgraded, so every channel holds a dict, and no delete task is scheduled. |
| PurgePins.PurgePinsCog.UpgradeSettings | purgepins/purgepins.py:109-112 | The loop replaces every bare value `v` with `{'PURGE_DELAY': v}` and leaves dicts untouched. |
| PurgePinsProofs.UpgradedSpec | purgepins/purgepins.py:109-112 | The upgrade keeps the channels and every delay and makes every entry a dict. Running it twice equals running it once. |
| PurgePins.PurgePinsCog.Purgepins | purgepins/purgepins.py:116-155 | `none`/`off` (stripped, any case) stores `False`, and any other text stores the parsed seconds. A parse error saves nothing: a `BadTimeExpr` replies "Error parsing duration", any other exception escapes without a reply (`Raised`). Without an argument, the stored delay (default `False`) is read back. The reply describes the delay in force, with the permission warning when the bot may not manage messages. |
| PurgePinsProofs.WithDelaySpec | purgepins/purgepins.py:133-135 | Only `PURGE_DELAY` of the one channel is written. `ROTATE_PINS` and the other channels are kept. |
| PurgePinsProofs.WaitOff | purgepins/purgepins.py:124-125 | `none` and `off`, in any case and with surrounding spaces, switch deletion off. |
| PurgePinsProofs.StatusOfSpec | purgepins/purgepins.py:141-149 | The reply is "not deleted" exactly for `False`, "immediately" exactly for a delay ≤ 0, and otherwise "after <timespec>". That timespec parses back to the delay, and given back to `purgepins` it stores the same delay. |
| PurgePinsProofs.WaitRoundTrip | purgepins/purgepins.py:123-128 | The long-style text for any positive delay is never read as `none`/`off`, and `purgepins` with it stores that delay. |
| PurgePinsProofs.WordWait | purgepins/purgepins.py:124-131 | A lower-case word with no digit, dot or space, other than `none` and `off`, is converted by `float()` as seconds: a word `float()` rejects raises `ValueError`, and a word it reads as +infinity makes `int()` raise `OverflowError`. |
| PurgePinsProofs.UncaughtValueError | purgepins/purgepins.py:127-131 | `purgepins abc` raises `float()`'s `ValueError`, which is not a `BadTimeExpr`, so no "Error parsing duration" reply is sent. |
| PurgePinsProofs.UncaughtOverflow | purgepins/purgepins.py:127-131 | `purgepins inf` raises `OverflowError` from `int()`, which is not a `BadTimeExpr` either. |
| PurgePins.PurgePinsCog.Rotatepins | purgepins/purgepins.py:159-184 | With no value, or the value already stored, nothing changes. Otherwise `ROTATE_PINS` is stored and the rotation runs. The reply says currently, already or now, and enabled or disabled. |
| PurgePinsProofs.WithRotateSpec | purgepins/purgepins.py:172-174 | Only `ROTATE_PINS` of the one channel is written. |
| PurgePinsProofs.RotateAfterSet | purgepins/purgepins.py:164-177 | After `rotatepins` stores a value, the stored value equals it, so asking again with the same value hits the "was already" case. The rotation that follows removes a pin exactly when the value is on, the bot may manage messages and the channel has at least 50 pins. |
| PurgePins.PinRotate | purgepins/purgepins.py:213-221 | Exactly one pin, the last in `pins`, is removed, and only with permission, `ROTATE_PINS` true and at least 50 pins. |
| PurgePinsProofs.EditRotationSpec | purgepins/purgepins.py:206-211 | A message newly pinned in a public channel with settings triggers that rotation, and nothing else does. |
| PurgePins.PurgePinsCog.OnMessage | purgepins/purgepins.py:186-199 | A handle is added under the message id exactly when `Schedule` gives a delay. Otherwise nothing changes. |
| PurgePinsProofs.ScheduleSpec | purgepins/purgepins.py:189-199 | A delete task is scheduled exactly for a pin notification in a public configured channel, with permission and a delay that is not `False`. |
| PurgePinsProofs.ZeroDelaySchedules | purgepins/purgepins.py:196-199 | A delay of 0 still schedules a task. |
| PurgePins.PurgePinsCog.OnMessageDelete | purgepins/purgepins.py:201-204 | A deleted message's handle is removed, and nothing else changes. |
| PurgePins.PurgePinsCog.DeleteTaskDone | purgepins/purgepins.py:230-231 | A finished task's handle is removed, and nothing else changes. |
| DiceProofs.SingleReadsBack | dice/dice.py:119-120 | An integer result is sent as `:game_die: ` followed by its decimal text, which reads back as the number. |
| DiceProofs.EmptyList | dice/dice.py:129-132 | An empty list is sent as `:game_die: Empty result!`. |
| DiceProofs.JoinedReadsBack | dice/dice.py:121-123 | The comma-joined list splits back into the numbers' texts, and each reads back as its number. |
| DiceProofs.ListShape | dice/dice.py:121-128 | The shown list is at most 1970 characters: the joined numbers when they fit, and exactly `[result set too long to display]` otherwise. The text ends with ` (total: <sum>)` exactly when the list has more than one element. |
| DiceProofs.ShownNoParen | dice/dice.py:123-126 | The shown list never contains `)`, so only the total suffix can end the text with one. |
| DiceProofs.MessagesSpec | dice/dice.py:114-140 | Without a breakdown, only the result is sent. With one, every page but the last is sent in order, and the last page shares the result's message, after a newline, exactly when the two are under 1999 characters together; otherwise the last page and the result are sent apart. |

## Left out

- Discord I/O is not modelled. The model returns what the calls would carry instead:
  - each command's reply is a value naming the message it says; the embed formatting of `_build_embed` is not modelled;
  - `on_member_join` returns its calls in order: the challenge, then the approval notice, the thanks and `add_roles`, or the time-out notice, the kick DM and `kick`;
  - `approve` and `approve-all` return their `add_roles` calls;
  - the rewrite returns the new content for `process_commands`;
  - `rotatepins` and the pin rotation return the pin to unpin, and a finished delete task only drops its handle (`delete_message` itself is not modelled).
- Concurrency and timing are not modelled:
  - `asyncio.sleep`, task creation and cancellation, and the one-second `wait_for_message` timeout;
  - the race between `approve` and the challenge workflow, which becomes the approval recorded in each tick.
- `random.choice` is an input: the challenge is built from the picked indices.
- Binary floating point is not modelled. `float()` and the sums use exact reals. Three consequences:
  - rounding in fractional durations is not captured;
  - whole numbers above 2^53 round in Python's sum and not in the model. `purgepins 12345678901234567891s` stores 12345678901234567168 in the program and the exact value in the model;
  - a count past the float range, more than about 309 digits before a unit, makes `float()` return infinity in the program, and `int()` then raises an uncaught `OverflowError`. The model reads it as a finite number.
- TimeSpecRoundTrip.RoundTrip holds in the program only for `sec` up to 2^53. Above that, the float sum in `_parse_time` rounds: for `sec` = 2^53 + 1 the program gives back 2^53, while the model's exact sum gives `sec`.
- PurgePins.PurgePinsCog.Purgepins stores the exact parsed value of a whole-number duration above 2^53 seconds, where the program stores the rounded float. For a count past the float range it stores a delay and replies, where the program ends with an uncaught `OverflowError` (`Raised(InfiniteTotal)` in the model's terms).
- `re.split` is modelled as scanners for the two patterns the parser uses, not as a regular-expression engine.
- The obfuscated code blob at captcha/captcha.py:55-82, the image-captcha imports and `DEFAULT_SETTINGS` are not part of this model.
- Persistence (`dataIO.load_json`, `save_json`, `check_files`, `check_folder`) is not modelled. Saved data is the constructors' argument.
- `pagify`, `box` and `warning` are not modelled. The breakdown pages are an input to `Dice.Messages`.
- The regular alias cog is outside the model.
  - `get_existing_aliases` becomes the input set of local aliases.
  - The "already a regular alias" warnings of `servers_with_alias` only inform and are not modelled.
  - The `galias help`, `show` and `overrides` commands only display information and are not modelled.
- Permission decorators and `user_allowed` are inputs: `canManage` and `allowed`.
- The dice library is an input: parsing and evaluating the expression, `verbose_print`, and the version flags. `verbose` stands for `DICE_200 and verbose`. The parse-error reply is not modelled.
- `purgepins`' `start_task` runs the pin rotation for every configured channel at start-up. Only the per-channel decision `PurgePins.PinRotate` is modelled.
- Legacy purgepins settings are limited to a bare delay (`False` or a number). A channel's dict holds only the `PURGE_DELAY` and `ROTATE_PINS` keys.
- Character classes are modelled on ASCII only. `str.lower` changes only `A`-`Z`; `str.isdigit`, `\d` and `float()` accept only `0`-`9`; `\s` and `str.strip` accept only the white space below U+0100. Python applies the Unicode tables, so `galias add Écho ...` stores `écho` there but `Écho` here, and `purgepins １h` (a fullwidth digit) is an hour there but a `float()` error here.
- Dice.Messages requires at least one breakdown page in verbose mode, because the source indexes `pages[-1]`.
- PurgePins.PurgePinsCog.Purgepins requires every channel's settings to be a dict. The constructor's upgrade establishes this, and every method keeps it. The same holds for `Rotatepins` and `OnMessage`.
- GlobalAlias.GlobalAliasCog.Rename lower-cases the new name, which the source does not. See Findings; the as-written update is `GlobalAlias.RenameAsWritten`.
- Captcha.CaptchaCog.SetDm stores the flag on a server without settings, which the source does not. See Findings; the as-written update is `Captcha.DmUpdateAsWritten`.

## Findings

| source | as written | input that shows it | evidently intended | confidence | as-written member | corrected member |
|---|---|---|---|---|---|---|
| captcha/captcha.py:317-322 | On a server without settings, `set_dm` stores `{'enabled': True}` and no `use_dm`, yet replies "DM sending is now enabled". | `captchaset dm yes` on server 7 with no settings: the settings become `{7: {'enabled': True}}`, and challenges still go to the channel. | Store `use_dm` in the new settings too, as `set_channel` and `set_role` store their keys. | not executed | CaptchaProofs.DmDroppedOnNewServer | CaptchaProofs.DmUpdateStores |
| galias/galias.py:112-118 | `rename` stores the new name as typed, while `on_message` looks up the lower-cased first word and `del` lower-cases its argument. | `galias rename foo Bar` with `foo` standing for `flip`: the key `Bar` is created, the message `!Bar` is not rewritten, and `galias del Bar` does not find it. | Lower-case the new name, as `add` does. | not executed | GlobalAliasProofs.RenameUnreachable | GlobalAliasProofs.RenameLoweredSpec |
