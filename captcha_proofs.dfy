/**
 * Properties of the captcha workflow: how the poll loop can end, that an
 * approval wins over a reply in the same second, which members
 * `approve-all` reaches, and the settings `set_dm` leaves behind.
 */
module CaptchaProofs {
  import opened Wrappers
  import opened Captcha

  /** The loop times out exactly when no approval is waiting and every tick is quiet. */
  lemma {:induction false} PollTimedOutIff(ticks: seq<Tick>, i: nat, chal: string, held: Option<Id>)
    requires i < |ticks|
    ensures PollFrom(ticks, i, chal, held) == TimedOut <==>
              held.None? && forall k :: i <= k < |ticks| ==> Quiet(ticks[k], chal)
    decreases |ticks| - i
  {
    if held.None? && Quiet(ticks[i], chal) {
      if i + 1 < |ticks| {
        PollTimedOutIff(ticks, i + 1, chal, None);
      }
    }
  }

  /**
   * An approval ends the loop on the tick that pops it: the one recorded
   * during that tick, else the one already waiting; every earlier tick was
   * quiet.
   */
  lemma {:induction false} PollOverriddenAt(ticks: seq<Tick>, i: nat, chal: string, held: Option<Id>, a: Id, t: nat)
    requires i <= |ticks| && PollFrom(ticks, i, chal, held) == Overridden(a, t)
    ensures i <= t < |ticks|
    ensures ticks[t].approval == Some(a) || (t == i && ticks[t].approval.None? && held == Some(a))
    ensures t > i ==> held.None?
    ensures forall k :: i <= k < t ==> Quiet(ticks[k], chal)
    decreases |ticks| - i
  {
    if ticks[i].approval.None? && held.None? && !Replies(ticks[i], chal) {
      PollOverriddenAt(ticks, i + 1, chal, None, a, t);
    }
  }

  /** A reply ends the loop only on a tick with no approval, after quiet ticks. */
  lemma {:induction false} PollRepliedAt(ticks: seq<Tick>, i: nat, chal: string, held: Option<Id>, t: nat)
    requires i <= |ticks| && PollFrom(ticks, i, chal, held) == Replied(t)
    ensures i <= t < |ticks|
    ensures Replies(ticks[t], chal) && ticks[t].approval.None? && held.None?
    ensures forall k :: i <= k < t ==> Quiet(ticks[k], chal)
    decreases |ticks| - i
  {
    if ticks[i].approval.None? && held.None? && !Replies(ticks[i], chal) {
      PollRepliedAt(ticks, i + 1, chal, None, t);
    }
  }

  /**
   * After quiet ticks, an approval recorded during tick `t` ends the loop
   * there as approved, whether or not a reply came in the same tick.
   */
  lemma {:induction false} ApprovalWins(ticks: seq<Tick>, i: nat, chal: string, held: Option<Id>, t: nat)
    requires i <= t < |ticks| && ticks[t].approval.Some?
    requires t > i ==> held.None?
    requires forall k :: i <= k < t ==> Quiet(ticks[k], chal)
    ensures PollFrom(ticks, i, chal, held) == Overridden(ticks[t].approval.value, t)
    decreases t - i
  {
    if i < t {
      ApprovalWins(ticks, i + 1, chal, None, t);
    }
  }

  /** The outcome of a challenge that got past the guard, read off the ticks. */
  lemma OutcomeCases(ticks: seq<Tick>, chal: string, held: Option<Id>, stillPresent: bool)
    requires |ticks| == ChallengeTimeout
    ensures OutcomeOf(PollFrom(ticks, 0, chal, held), stillPresent) == Left <==>
              !stillPresent && held.None? && forall k :: 0 <= k < |ticks| ==> Quiet(ticks[k], chal)
    ensures OutcomeOf(PollFrom(ticks, 0, chal, held), stillPresent) == Kicked <==>
              stillPresent && held.None? && forall k :: 0 <= k < |ticks| ==> Quiet(ticks[k], chal)
  {
    PollTimedOutIff(ticks, 0, chal, held);
  }

  /** `approve-all` reaches exactly the members that are not bots and lack the role. */
  lemma {:induction false} UnverifiedIff(members: seq<Member>, role: Id, x: Id)
    ensures x in Unverified(members, role) <==>
              exists k :: 0 <= k < |members| && members[k].id == x && !members[k].bot && role !in members[k].roles
    decreases |members|
  {
    if members != [] {
      var init := members[..|members| - 1];
      UnverifiedIff(init, role, x);
      if x in Unverified(init, role) {
        var k :| 0 <= k < |init| && init[k].id == x && !init[k].bot && role !in init[k].roles;
        assert members[k] == init[k];
      }
      if exists k :: 0 <= k < |members| && members[k].id == x && !members[k].bot && role !in members[k].roles {
        var k :| 0 <= k < |members| && members[k].id == x && !members[k].bot && role !in members[k].roles;
        if k < |init| {
          assert init[k] == members[k];
        }
      }
    }
  }

  /** The count `approve-all` reports never exceeds the number of members. */
  lemma {:induction false} UnverifiedCount(members: seq<Member>, role: Id)
    ensures |Unverified(members, role)| <= |members|
    ensures (forall k :: 0 <= k < |members| ==> members[k].bot || role in members[k].roles)
              ==> Unverified(members, role) == []
    decreases |members|
  {
    if members != [] {
      var init := members[..|members| - 1];
      UnverifiedCount(init, role);
      assert forall k :: 0 <= k < |init| ==> init[k] == members[k];
    }
  }

  /** As written, `set_dm` on a server without settings keeps no flag: the member is not sent a DM. */
  lemma DmDroppedOnNewServer(settings: map<Id, ServerConfig>, id: Id, on: bool, server: Server, member: Id)
    requires id !in settings && server.id == id
    ensures DmUpdateAsWritten(settings, id, on)[id].useDm == None
    ensures var g := JoinGuard(DmUpdateAsWritten(settings, id, on)[id], server, member);
              g.Some? ==> g.value.0 != ToMember(member)
  {
  }

  /** The concrete case: `[p]captchaset dm yes` on a new server replies "enabled" but stores no flag. */
  lemma DmDroppedExample()
    ensures DmUpdateAsWritten(map[], 7, true) == map[7 := ServerConfig(Some(true), None, None, None)]
    ensures DmUpdate(map[], 7, true) == map[7 := ServerConfig(Some(true), None, None, Some(true))]
  {
  }

  /**
   * The corrected update stores the flag on every server, starting a new
   * server from `{'enabled': True}`, and agrees with the source whenever
   * the server already has settings.
   */
  lemma DmUpdateStores(settings: map<Id, ServerConfig>, id: Id, on: bool)
    ensures id in DmUpdate(settings, id, on) && DmUpdate(settings, id, on)[id].useDm == Some(on)
    ensures DmUpdate(settings, id, on)[id] == Seed(settings, id).(useDm := Some(on))
    ensures forall other :: other in settings && other != id ==>
              other in DmUpdate(settings, id, on) && DmUpdate(settings, id, on)[other] == settings[other]
    ensures DmUpdate(settings, id, on).Keys == settings.Keys + {id}
    ensures id in settings ==> DmUpdate(settings, id, on) == DmUpdateAsWritten(settings, id, on)
  {
  }
}
