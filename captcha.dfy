/**
 * The bookkeeping of the captcha cog: the per-server settings, the set of
 * members with a challenge in progress (`pending`) and the approvals that
 * moderators recorded for them (`cancel`).
 *
 * Discord calls become actions the methods return. The challenge workflow
 * of `on_member_join` runs one second per tick: a tick holds the messages
 * the member sent during that second and the approval, if any, that a
 * moderator recorded meanwhile with `approve`.
 */
module Captcha {
  import opened Wrappers
  import opened Text

  /** Discord ids of servers, members, roles and channels. */
  type Id = nat

  const ChallengeLength: nat := 8

  /** The number of one-second polls before a challenge times out. */
  const ChallengeTimeout: nat := 60 * 5

  /** The `n` consecutive characters from `first` on. */
  function CharRange(first: char, n: nat): (r: string)
    requires first as int + n <= 128
    ensures |r| == n && forall k :: 0 <= k < n ==> r[k] as int == first as int + k
  {
    seq(n, k requires 0 <= k < n => (first as int + k) as char)
  }

  /** `string.ascii_lowercase`: `a` to `z`. */
  const Lowercase: string := CharRange('a', 26)

  /** `string.digits`: `0` to `9`. */
  const Digits: string := CharRange('0', 10)

  /** `string.ascii_lowercase + string.digits`, the challenge alphabet. */
  const ChallengeChars: string := Lowercase + Digits

  /** The keys of one server's settings dict; a missing key is `None`. */
  datatype ServerConfig = ServerConfig(enabled: Option<bool>, role: Option<Id>, channel: Option<Id>, useDm: Option<bool>)

  const NoConfig := ServerConfig(None, None, None, None)

  datatype Member = Member(id: Id, bot: bool, roles: set<Id>)

  /** What the cog sees of a server: its roles, its channels and its members in list order. */
  datatype Server = Server(id: Id, roles: set<Id>, channels: set<Id>, members: seq<Member>)

  /** Where the challenge is sent: the member (a DM) or the staging channel. */
  datatype Dest = ToMember(member: Id) | ToChannel(channel: Id)

  /** The replies of the commands, one per message the source can say. */
  datatype Reply =
    | NotEnabled                  // 'Captcha approval is not enabled in this server.'
    | NoApprovalRole              // 'The approval role has not been set or does not exist anymore.'
    | NotPending(user: Id)        // '%s is not pending approval.'
    | MemberApproved              // 'Member approved.'
    | NoVerifiedRole              // 'There is currently no verified role set.'
    | VerifiedCount(count: nat)   // 'Verified role added to %i member(s).'
    | ChannelSet(channel: Id)     // 'Channel set to #%s.'
    | ChannelIs(channel: Id)      // 'Channel currently set to #%s.'
    | NoChannel                   // 'There is no channel set for captcha.'
    | RoleSet(role: Id)           // 'Role set to %s.'
    | RoleIs(role: Id)            // 'Role is currently set to %s.'
    | EnabledNow(on: bool)        // 'Captcha is now %s.'
    | EnabledIs(on: bool)         // 'Captcha is currently %s.'
    | DmNow(on: bool)             // 'DM sending is now %s.'
    | DmIs(on: bool)              // 'DM sending is currently %s.'
    | StaleId                     // AttributeError: the stored channel or role no longer exists

  /** The Discord calls of the challenge workflow, messages included, in the order they are made. */
  datatype Action =
    | SendChallenge(dest: Dest, challenge: string)
    | SayApprovedBy(dest: Dest, member: Id, approver: Id)  // 'Nevermind, <approver> approved you.'
    | SayThanks(dest: Dest, member: Id)                   // 'Thanks! Just a sec while I approve you...'
    | SayTimedOut(dest: Dest, member: Id)                 // 'your challenge timed out. Buh-bye!'
    | DmKicked(member: Id, server: Id)                    // 'You were kicked from <server> because ...'
    | GrantRole(member: Id, role: Id)
    | KickMember(member: Id)

  /** One second of a challenge: the member's messages, and a moderator's approval recorded meanwhile. */
  datatype Tick = Tick(messages: seq<string>, approval: Option<Id>)

  /** How the poll loop ends, and at which tick. */
  datatype PollResult = Overridden(approver: Id, tick: nat) | Replied(tick: nat) | TimedOut

  datatype JoinOutcome = Ignored | Approved(approver: Id) | Verified | Kicked | Left

  /** Python truthiness of a stored flag: a missing key and `False` are both false. */
  predicate Truthy(b: Option<bool>) { b == Some(true) }

  /** `discord.utils.get(server.roles, id=role_id)`. */
  function ResolveRole(server: Server, id: Option<Id>): (r: Option<Id>)
    ensures r.Some? <==> id.Some? && id.value in server.roles
    ensures r.Some? ==> r == id
  {
    if id.Some? && id.value in server.roles then id else None
  }

  /** `server.get_channel(channel_id)`. */
  function ResolveChannel(server: Server, id: Option<Id>): (r: Option<Id>)
    ensures r.Some? <==> id.Some? && id.value in server.channels
    ensures r.Some? ==> r == id
  {
    if id.Some? && id.value in server.channels then id else None
  }

  /** The settings a server starts from when a command creates them: `{'enabled': True}`. */
  function Seed(settings: map<Id, ServerConfig>, id: Id): ServerConfig {
    if id in settings then settings[id] else NoConfig.(enabled := Some(true))
  }

  /**
   * The start guard of `on_member_join`: captcha enabled, a destination
   * (the member when `use_dm` is set, else an existing channel) and an
   * existing role. Gives the destination and the role.
   */
  function JoinGuard(config: ServerConfig, server: Server, member: Id): (g: Option<(Dest, Id)>)
    ensures g.Some? <==>
              Truthy(config.enabled)
              && (Truthy(config.useDm) || ResolveChannel(server, config.channel).Some?)
              && ResolveRole(server, config.role).Some?
    ensures g.Some? ==> g.value.1 == config.role.value && g.value.1 in server.roles
    ensures g.Some? ==> (g.value.0 == ToMember(member) <==> Truthy(config.useDm))
  {
    var dest := if Truthy(config.useDm) then Some(ToMember(member))
                else match ResolveChannel(server, config.channel)
                  case Some(c) => Some(ToChannel(c))
                  case None => None;
    var role := ResolveRole(server, config.role);
    if Truthy(config.enabled) && dest.Some? && role.Some? then Some((dest.value, role.value)) else None
  }

  /** The challenge from the indices `random.choice` picked, one per character. */
  function Challenge(picks: seq<nat>): (chal: string)
    requires forall k :: 0 <= k < |picks| ==> picks[k] < |ChallengeChars|
    ensures |chal| == |picks|
    ensures forall k :: 0 <= k < |chal| ==> chal[k] in ChallengeChars
    ensures forall k :: 0 <= k < |chal| ==> ('a' <= chal[k] <= 'z' || IsDigit(chal[k]))
  {
    AlphabetChars();
    seq(|picks|, k requires 0 <= k < |picks| => ChallengeChars[picks[k]])
  }

  /** The alphabet holds lower-case letters and digits only. */
  lemma AlphabetChars()
    ensures |ChallengeChars| == 36
    ensures forall j :: 0 <= j < |ChallengeChars| ==> ('a' <= ChallengeChars[j] <= 'z' || IsDigit(ChallengeChars[j]))
  {
    assert forall j :: 0 <= j < 26 ==> ChallengeChars[j] == Lowercase[j];
    assert forall j :: 26 <= j < 36 ==> ChallengeChars[j] == Digits[j - 26];
  }

  /** `check`: some message of the tick contains the challenge. */
  predicate Replies(tick: Tick, chal: string) {
    exists k :: 0 <= k < |tick.messages| && Contains(tick.messages[k], chal)
  }

  /** A tick in which nothing ends the loop. */
  predicate Quiet(tick: Tick, chal: string) {
    tick.approval.None? && !Replies(tick, chal)
  }

  /**
   * The poll loop from tick `i` on, with `held` the approval already waiting
   * in `cancel`: each tick first waits for a reply, then pops the approval;
   * an approval ends the loop even when a reply came in the same tick.
   */
  function PollFrom(ticks: seq<Tick>, i: nat, chal: string, held: Option<Id>): PollResult
    requires i <= |ticks|
    decreases |ticks| - i
  {
    if i == |ticks| then TimedOut
    else
      var approver := if ticks[i].approval.Some? then ticks[i].approval else held;
      if approver.Some? then Overridden(approver.value, i)
      else if Replies(ticks[i], chal) then Replied(i)
      else PollFrom(ticks, i + 1, chal, None)
  }

  /** The outcome of a challenge once the loop is over. */
  function OutcomeOf(poll: PollResult, stillPresent: bool): JoinOutcome {
    match poll
    case Overridden(a, _) => Approved(a)
    case Replied(_) => Verified
    case TimedOut => if stillPresent then Kicked else Left
  }

  /**
   * The calls that follow the loop: the approval notice; the thanks and the
   * role; or the time-out notice, the DM and the kick. A member who left
   * gets nothing.
   */
  function OutcomeActions(outcome: JoinOutcome, dest: Dest, member: Id, server: Id, role: Id): seq<Action> {
    match outcome
    case Approved(approver) => [SayApprovedBy(dest, member, approver)]
    case Verified => [SayThanks(dest, member), GrantRole(member, role)]
    case Kicked => [SayTimedOut(dest, member), DmKicked(member, server), KickMember(member)]
    case _ => []
  }

  /** `approve`'s checks, in the order the source makes them. */
  function ApproveCheck(config: ServerConfig, server: Server, pending: set<(Id, Id)>, user: Id): Reply {
    if !Truthy(config.enabled) then NotEnabled
    else if ResolveRole(server, config.role).None? then NoApprovalRole
    else if (server.id, user) !in pending then NotPending(user)
    else MemberApproved
  }

  /** The ids of the members `approve-all` gives the role to: not bots, not holding it yet, in list order. */
  function Unverified(members: seq<Member>, role: Id): seq<Id> {
    if members == [] then []
    else
      var last := members[|members| - 1];
      Unverified(members[..|members| - 1], role) + (if last.bot || role in last.roles then [] else [last.id])
  }

  /** The settings after `set_dm` with a value, as the source writes them. */
  function DmUpdateAsWritten(settings: map<Id, ServerConfig>, id: Id, on: bool): map<Id, ServerConfig> {
    if id !in settings then settings[id := NoConfig.(enabled := Some(true))]
    else settings[id := settings[id].(useDm := Some(on))]
  }

  /** The settings after `set_dm` with a value, storing the flag on a new server too. */
  function DmUpdate(settings: map<Id, ServerConfig>, id: Id, on: bool): map<Id, ServerConfig> {
    settings[id := Seed(settings, id).(useDm := Some(on))]
  }

  class CaptchaCog {
    var settings: map<Id, ServerConfig>
    var pending: set<(Id, Id)>
    var cancel: map<(Id, Id), Id>

    /** The cog starts from the saved settings, with no challenge in progress. */
    constructor(saved: map<Id, ServerConfig>)
      ensures settings == saved && pending == {} && cancel == map[]
    {
      settings := saved;
      pending := {};
      cancel := map[];
    }

    /** `self.settings.get(server.id, {})`. */
    function Config(server: Id): ServerConfig
      reads this
    {
      if server in settings then settings[server] else NoConfig
    }

    /** The approval waiting in `cancel` for `key`, if any. */
    function Held(key: (Id, Id)): Option<Id>
      reads this
    {
      if key in cancel then Some(cancel[key]) else None
    }

    /**
     * `approve`: refuses, changing nothing, unless captcha is enabled, the
     * role exists and the user is pending; then records the author in
     * `cancel` and grants the role.
     */
    method Approve(server: Server, user: Id, author: Id) returns (reply: Reply, actions: seq<Action>)
      modifies this
      ensures reply == ApproveCheck(old(Config(server.id)), server, old(pending), user)
      ensures reply != MemberApproved ==> actions == [] && unchanged(this)
      ensures reply == MemberApproved ==>
                cancel == old(cancel)[(server.id, user) := author]
                && pending == old(pending) && settings == old(settings)
                && actions == [GrantRole(user, old(Config(server.id)).role.value)]
    {
      var config := Config(server.id);
      var role := ResolveRole(server, config.role);
      if !Truthy(config.enabled) {
        return NotEnabled, [];
      }
      if role.None? {
        return NoApprovalRole, [];
      }
      if (server.id, user) !in pending {
        return NotPending(user), [];
      }
      cancel := cancel[(server.id, user) := author];
      actions := [GrantRole(user, role.value)];
      reply := MemberApproved;
    }

    /** `captchaset approve-all`: the role goes to every member who is not a bot and lacks it. */
    method AddAll(server: Server) returns (reply: Reply, granted: seq<Id>)
      ensures ResolveRole(server, Config(server.id).role).None? ==> reply == NoVerifiedRole && granted == []
      ensures ResolveRole(server, Config(server.id).role).Some? ==>
                granted == Unverified(server.members, Config(server.id).role.value)
                && reply == VerifiedCount(|granted|)
    {
      var role := ResolveRole(server, Config(server.id).role);
      if role.None? {
        return NoVerifiedRole, [];
      }
      var count := 0;
      granted := [];
      var i := 0;
      while i < |server.members|
        invariant 0 <= i <= |server.members|
        invariant granted == Unverified(server.members[..i], role.value)
        invariant count == |granted|
      {
        var member := server.members[i];
        assert server.members[..i + 1][..i] == server.members[..i];
        if !(member.bot || role.value in member.roles) {
          count := count + 1;
          granted := granted + [member.id];
        }
        i := i + 1;
      }
      assert server.members[..i] == server.members;
      reply := VerifiedCount(count);
    }

    /** `captchaset channel`: stores a given channel, creating the server's settings if needed, or shows the stored one. */
    method SetChannel(server: Server, channel: Option<Id>) returns (reply: Reply)
      modifies this
      ensures channel.Some? ==>
                settings == old(settings)[server.id := Seed(old(settings), server.id).(channel := channel)]
                && reply == ChannelSet(channel.value)
      ensures channel.None? ==> unchanged(this)
      ensures channel.None? && old(Config(server.id)).channel.Some? ==>
                reply == if old(Config(server.id)).channel.value in server.channels
                         then ChannelIs(old(Config(server.id)).channel.value) else StaleId
      ensures channel.None? && old(Config(server.id)).channel.None? ==> reply == NoChannel
      ensures pending == old(pending) && cancel == old(cancel)
    {
      var existing := Config(server.id).channel;
      if channel.Some? {
        settings := settings[server.id := Seed(settings, server.id).(channel := channel)];
        reply := ChannelSet(channel.value);
      } else if existing.Some? {
        reply := if existing.value in server.channels then ChannelIs(existing.value) else StaleId;
      } else {
        reply := NoChannel;
      }
    }

    /** `captchaset role`: stores a given role, creating the server's settings if needed, or shows the stored one. */
    method SetRole(server: Server, role: Option<Id>) returns (reply: Reply)
      modifies this
      ensures role.Some? ==>
                settings == old(settings)[server.id := Seed(old(settings), server.id).(role := role)]
                && reply == RoleSet(role.value)
      ensures role.None? ==> unchanged(this)
      ensures role.None? && old(Config(server.id)).role.Some? ==>
                reply == if old(Config(server.id)).role.value in server.roles
                         then RoleIs(old(Config(server.id)).role.value) else StaleId
      ensures role.None? && old(Config(server.id)).role.None? ==> reply == NoVerifiedRole
      ensures pending == old(pending) && cancel == old(cancel)
    {
      var existing := Config(server.id).role;
      if role.Some? {
        settings := settings[server.id := Seed(settings, server.id).(role := role)];
        reply := RoleSet(role.value);
      } else if existing.Some? {
        reply := if existing.value in server.roles then RoleIs(existing.value) else StaleId;
      } else {
        reply := NoVerifiedRole;
      }
    }

    /** `captchaset enable`: stores a given flag, keeping the server's other settings, or shows the stored one. */
    method SetEnable(server: Server, yesNo: Option<bool>) returns (reply: Reply)
      modifies this
      ensures yesNo.Some? ==>
                settings == old(settings)[server.id := old(Config(server.id)).(enabled := yesNo)]
                && reply == EnabledNow(yesNo.value)
      ensures yesNo.None? ==> unchanged(this) && reply == EnabledIs(Truthy(old(Config(server.id)).enabled))
      ensures pending == old(pending) && cancel == old(cancel)
    {
      var existing := Config(server.id).enabled;
      if yesNo.Some? {
        if server.id !in settings {
          settings := settings[server.id := NoConfig.(enabled := yesNo)];
        } else {
          settings := settings[server.id := settings[server.id].(enabled := yesNo)];
        }
        reply := EnabledNow(yesNo.value);
      } else {
        reply := EnabledIs(Truthy(existing));
      }
    }

    /**
     * `captchaset dm`: stores a given flag, creating the server's settings
     * if needed, or shows the stored one. The source drops the flag on a
     * server without settings (`DmUpdateAsWritten`); this stores it, as the
     * reply says.
     */
    method SetDm(server: Server, yesNo: Option<bool>) returns (reply: Reply)
      modifies this
      ensures yesNo.Some? ==>
                settings == DmUpdate(old(settings), server.id, yesNo.value)
                && reply == DmNow(yesNo.value)
      ensures yesNo.None? ==> unchanged(this) && reply == DmIs(Truthy(old(Config(server.id)).useDm))
      ensures pending == old(pending) && cancel == old(cancel)
    {
      var existing := Config(server.id).useDm;
      if yesNo.Some? {
        if server.id !in settings {
          settings := settings[server.id := NoConfig.(enabled := Some(true), useDm := yesNo)];
        } else {
          settings := settings[server.id := settings[server.id].(useDm := yesNo)];
        }
        reply := DmNow(yesNo.value);
      } else {
        reply := DmIs(Truthy(existing));
      }
    }

    /**
     * `on_member_join`: past the guard, marks the member pending, sends the
     * challenge and polls at most `CHALLENGE_TIMEOUT` ticks. An approval
     * ends the challenge at once; a reply grants the role; a timeout kicks
     * the member, or returns early, leaving the pending entry, when the
     * member has already left.
     */
    method OnMemberJoin(server: Server, member: Id, picks: seq<nat>, ticks: seq<Tick>, stillPresent: bool)
        returns (outcome: JoinOutcome, actions: seq<Action>)
      requires |picks| == ChallengeLength && forall k :: 0 <= k < |picks| ==> picks[k] < |ChallengeChars|
      requires |ticks| == ChallengeTimeout
      modifies this
      ensures JoinGuard(old(Config(server.id)), server, member).None? ==>
                outcome == Ignored && actions == [] && unchanged(this)
      ensures JoinGuard(old(Config(server.id)), server, member).Some? ==>
                outcome == OutcomeOf(PollFrom(ticks, 0, Challenge(picks), old(Held((server.id, member)))), stillPresent)
                && actions == [SendChallenge(JoinGuard(old(Config(server.id)), server, member).value.0, Challenge(picks))]
                              + OutcomeActions(outcome, JoinGuard(old(Config(server.id)), server, member).value.0,
                                               member, server.id, JoinGuard(old(Config(server.id)), server, member).value.1)
                && cancel == old(cancel) - {(server.id, member)}
                && pending == (if outcome == Left then old(pending) + {(server.id, member)}
                               else old(pending) - {(server.id, member)})
      ensures settings == old(settings)
    {
      var key := (server.id, member);
      var guard := JoinGuard(Config(server.id), server, member);
      if guard.None? {
        return Ignored, [];
      }
      var (dest, role) := guard.value;
      pending := pending + {key};
      var chal := Challenge(picks);
      actions := [SendChallenge(dest, chal)];
      ghost var held := Held(key);
      ghost var poll := PollFrom(ticks, 0, chal, held);
      var remaining := ChallengeTimeout;
      var replied := false;
      var i := 0;
      while remaining > 0 && !replied
        invariant 0 <= i <= |ticks| && remaining == |ticks| - i
        invariant i == 0 ==> cancel == old(cancel) && !replied
        invariant i > 0 ==> cancel == old(cancel) - {key}
        invariant replied ==> i > 0 && poll == Replied(i - 1)
        invariant !replied ==> poll == PollFrom(ticks, i, chal, if i == 0 then held else None)
        invariant pending == old(pending) + {key} && settings == old(settings)
        invariant actions == [SendChallenge(dest, chal)]
      {
        var tick := ticks[i];
        replied := Replies(tick, chal);
        if tick.approval.Some? {
          cancel := cancel[key := tick.approval.value];
        }
        var approver := if key in cancel then Some(cancel[key]) else None;
        cancel := cancel - {key};
        if approver.Some? {
          pending := pending - {key};
          actions := actions + [SayApprovedBy(dest, member, approver.value)];
          return Approved(approver.value), actions;
        }
        remaining := remaining - 1;
        i := i + 1;
      }
      if replied {
        outcome := Verified;
        actions := actions + [SayThanks(dest, member), GrantRole(member, role)];
      } else if !stillPresent {
        return Left, actions;
      } else {
        outcome := Kicked;
        actions := actions + [SayTimedOut(dest, member), DmKicked(member, server.id), KickMember(member)];
      }
      pending := pending - {key};
    }
  }
}
