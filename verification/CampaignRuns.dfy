/** Lives of a campaign on which follow-ups go wrong, and which keywords of updates by hand
    let them. */
module CampaignRuns {
  import opened Basics
  import opened Campaigns
  import opened Wrappers

  function Last(ls: seq<Life>): Life
    requires ls != []
  {
    ls[|ls| - 1]
  }

  ghost predicate Conforms(ls: seq<Life>, es: seq<Event>, policy: Policy)
    requires |ls| == |es| + 1
  {
    forall i :: 0 <= i < |es| ==> Permits(policy, ls[i], es[i])
  }

  /** A run with a client, under a policy, on which timestamps are the engine's. */
  ghost predicate Allowed(ls: seq<Life>, es: seq<Event>, pace: Pace, policy: Policy) {
    IsLife(ls, es, true, pace) && Proper(ls, es) && Conforms(ls, es, policy)
  }

  // ----- building runs -----

  lemma GoOn(ls: seq<Life>, es: seq<Event>, pace: Pace, e: Event, l': Life)
    requires IsLife(ls, es, true, pace) && Steps(Last(ls), e, l', true, pace)
    ensures IsLife(ls + [l'], es + [e], true, pace)
  {
    var ls', es' := ls + [l'], es + [e];
    forall i | 0 <= i < |es'| ensures Steps(ls'[i], es'[i], ls'[i + 1], true, pace) {
      assert i < |es| ==> Steps(ls[i], es[i], ls[i + 1], true, pace);
    }
  }

  lemma AllowedOn(ls: seq<Life>, es: seq<Event>, policy: Policy, e: Event, l': Life)
    requires |ls| == |es| + 1 && Proper(ls, es) && Conforms(ls, es, policy)
    requires EngineStamps(Last(ls), e) && Permits(policy, Last(ls), e)
    ensures Proper(ls + [l'], es + [e]) && Conforms(ls + [l'], es + [e], policy)
  {
    var ls', es' := ls + [l'], es + [e];
    forall i | 0 <= i < |es'| ensures EngineStamps(ls'[i], es'[i]) && Permits(policy, ls'[i], es'[i]) {
      assert i < |es| ==> EngineStamps(ls[i], es[i]) && Permits(policy, ls[i], es[i]);
    }
  }

  lemma Go(ls: seq<Life>, es: seq<Event>, pace: Pace, policy: Policy, e: Event, l: Life, l': Life)
    returns (ls': seq<Life>, es': seq<Event>)
    requires Allowed(ls, es, pace, policy) && l == Last(ls) && Steps(l, e, l', true, pace)
    requires EngineStamps(l, e) && Permits(policy, l, e)
    ensures Allowed(ls', es', pace, policy) && Last(ls') == l' && |es'| == |es| + 1
  {
    ls', es' := ls + [l'], es + [e];
    GoOn(ls, es, pace, e, l');
    AllowedOn(ls, es, policy, e, l');
  }

  /** The pass n comes to send the campaign a follow-up. */
  lemma Decides(ls: seq<Life>, es: seq<Event>, pace: Pace, policy: Policy, l: Life, n: nat, now: Instant, to: Status)
    returns (ls': seq<Life>, es': seq<Event>)
    requires Allowed(ls, es, pace, policy) && l == Last(ls) && l.stored && !l.c.hasThread && n !in l.stages
    requires l.stages == map[] || policy.overlaps
    requires Needs(l.c, now) && Act(l.c, pace, now) == (if to == FollowUp1 then SendsFirst else SendsSecond)
    requires to == FollowUp1 || to == FollowUp2
    ensures Allowed(ls', es', pace, policy) && Last(ls') == l.To(n, Sending(to, now))
  {
    var l1, l2 := l.To(n, Listed), l.To(n, Sending(to, now));
    assert l1.stages[n := Sending(to, now)] == l2.stages;
    ls', es' := Go(ls, es, pace, policy, List(n, now), l, l1);
    ls', es' := Go(ls', es', pace, policy, Look(n, now), l1, l2);
  }

  /** A pass at `now` sends the campaign a follow-up. */
  lemma Sends(ls: seq<Life>, es: seq<Event>, pace: Pace, policy: Policy, l: Life, now: Instant, to: Status, l': Life)
    returns (ls': seq<Life>, es': seq<Event>)
    requires Allowed(ls, es, pace, policy) && l == Last(ls) && l.stages == map[] && l.stored && !l.c.hasThread
    requires Needs(l.c, now) && Act(l.c, pace, now) == (if to == FollowUp1 then SendsFirst else SendsSecond)
    requires to == FollowUp1 || to == FollowUp2
    requires l' == l.(c := SentTo(l.c, l.Home(), pace, to, now), sends := l.sends + [now])
    ensures Allowed(ls', es', pace, policy) && Last(ls') == l'
  {
    ls', es' := Decides(ls, es, pace, policy, l, 0, now, to);
    var l1 := l.To(0, Sending(to, now));
    assert l1.stages - {0} == map[];
    ls', es' := Go(ls', es', pace, policy, Finish(0, true, now, now), l1, l');
  }

  // ----- three follow-ups -----

  const KEY := Name("campaign")

  const FIRST := Campaign(KEY, Prospecting, false, None, None, None, None, None, 0, 0, NoReason)

  /** Longer than any wait of the pace. */
  function Long(pace: Pace): (d: int)
    ensures d >= DAY && d >= pace.first * DAY && d >= pace.second * DAY && d >= pace.last * DAY
  {
    DAY * (1 + Max(0, pace.first) + Max(0, pace.second) + Max(0, pace.last))
  }

  lemma LongEnough(pace: Pace, since: Instant, now: Instant)
    requires now - since >= Long(pace)
    ensures Days(now - since) >= pace.first && Days(now - since) >= pace.second
  {
    DaysAtLeast(now - since, pace.first);
    DaysAtLeast(now - since, pace.second);
  }

  /** The outreach at instant 0, the campaign perhaps renamed with it. */
  lemma Outreach(pace: Pace, policy: Policy, id: Name) returns (ls: seq<Life>, es: seq<Event>)
    requires id == KEY || policy.renames
    ensures Allowed(ls, es, pace, policy)
    ensures Last(ls) ==
      Life(KEY, FIRST.(id := id, status := OutreachSent, sentAt := Some(0), nextFollowUpAt := Some(0)), true, map[], [],
           false)
  {
    var l := Life(KEY, FIRST, true, map[], [], false);
    var stamps := NO_STAMPS.(id := Some(id), sentAt := Write(Some(0)), nextFollowUpAt := Write(Some(0)));
    ls, es := Go([l], [], pace, policy, Manual(OutreachSent, stamps, 0), l,
                 l.(c := FIRST.(id := id, status := OutreachSent, sentAt := Some(0), nextFollowUpAt := Some(0))));
  }

  /** Once renamed, the campaign is sent its first follow-up again in every pass: the status
      and the instant of none of them is recorded. */
  lemma SentAgain(pace: Pace, policy: Policy, n: nat) returns (ls: seq<Life>, es: seq<Event>)
    requires policy.renames
    ensures Allowed(ls, es, pace, policy) && |Last(ls).sends| == n
    ensures forall i :: 0 <= i < n ==> Last(ls).sends[i] == Long(pace)
    ensures Last(ls).stages == map[] && Last(ls).stored && !Last(ls).Home()
    ensures Last(ls).c == FIRST.(id := Name(""), status := OutreachSent, sentAt := Some(0), nextFollowUpAt := Some(0))
  {
    if n == 0 {
      ls, es := Outreach(pace, policy, Name(""));
    } else {
      ls, es := SentAgain(pace, policy, n - 1);
      LongEnough(pace, 0, Long(pace));
      var l := Last(ls);
      ls, es := Sends(ls, es, pace, policy, l, Long(pace), FollowUp1, l.(sends := l.sends + [Long(pace)]));
    }
  }

  /** The campaign after its two follow-ups. */
  function TwiceFollowed(pace: Pace): Campaign {
    var t := Long(pace);
    FIRST.(status := FollowUp2, sentAt := Some(0), lastEmailAt := Some(2 * t),
           nextFollowUpAt := Some(2 * t + pace.last * DAY), updatedAt := 2 * t)
  }

  lemma BothSent(pace: Pace, policy: Policy) returns (ls: seq<Life>, es: seq<Event>)
    ensures Allowed(ls, es, pace, policy)
    ensures Last(ls) == Life(KEY, TwiceFollowed(pace), true, map[], [Long(pace), 2 * Long(pace)], false)
  {
    var t := Long(pace);
    ls, es := Outreach(pace, policy, KEY);
    var l := Last(ls);
    LongEnough(pace, 0, t);
    var l1 := l.(c := SentTo(l.c, true, pace, FollowUp1, t), sends := [t]);
    ls, es := Sends(ls, es, pace, policy, l, t, FollowUp1, l1);
    LongEnough(pace, t, 2 * t);
    var l2 := l1.(c := SentTo(l1.c, true, pace, FollowUp2, 2 * t), sends := [t, 2 * t]);
    ls, es := Sends(ls, es, pace, policy, l1, 2 * t, FollowUp2, l2);
  }

  /** A keyword takes the campaign back to `back` as it is marked dead. */
  lemma TakenBack(pace: Pace, policy: Policy, back: Status) returns (ls: seq<Life>, es: seq<Event>)
    requires back in policy.lowersTo && Early(back)
    ensures Allowed(ls, es, pace, policy) && var t := Long(pace);
      Last(ls) == Life(KEY, TwiceFollowed(pace).(status := back), true, map[], [t, 2 * t], false)
  {
    ls, es := BothSent(pace, policy);
    var l := Last(ls);
    ls, es := Go(ls, es, pace, policy, Manual(Dead, NO_STAMPS.(status := Some(back)), 2 * Long(pace)), l,
                 l.(c := TwiceFollowed(pace).(status := back)));
  }

  lemma BackInSequence(pace: Pace, policy: Policy, back: Status) returns (ls: seq<Life>, es: seq<Event>, to: Status)
    requires back in policy.lowersTo && Early(back)
    ensures to == OutreachSent || to == FollowUp1
    ensures Allowed(ls, es, pace, policy) && var t := Long(pace);
      Last(ls) == Life(KEY, TwiceFollowed(pace).(status := to), true, map[], [t, 2 * t], false)
  {
    ls, es := TakenBack(pace, policy, back);
    to := back;
    if back == Prospecting {
      var l := Last(ls);
      to := OutreachSent;
      ls, es := Go(ls, es, pace, policy, Manual(OutreachSent, NO_STAMPS, 2 * Long(pace)), l,
                   l.(c := l.c.(status := OutreachSent)));
    }
  }

  /** From any early status a third follow-up goes out. */
  lemma ThirdFollowUp(pace: Pace, policy: Policy, back: Status) returns (ls: seq<Life>, es: seq<Event>)
    requires back in policy.lowersTo && Early(back)
    ensures Allowed(ls, es, pace, policy) && |Last(ls).sends| == 3
  {
    var t, from := Long(pace), back;
    ls, es, from := BackInSequence(pace, policy, back);
    var l, to := Last(ls), if from == OutreachSent then FollowUp1 else FollowUp2;
    LongEnough(pace, 0, 3 * t);
    LongEnough(pace, 2 * t, 3 * t);
    ls, es := Sends(ls, es, pace, policy, l, 3 * t, to,
                    l.(c := SentTo(l.c, true, pace, to, 3 * t), sends := [t, 2 * t] + [3 * t]));
  }

  lemma BothSending(pace: Pace, policy: Policy) returns (ls: seq<Life>, es: seq<Event>)
    requires policy.overlaps
    ensures Allowed(ls, es, pace, policy) && var send := Sending(FollowUp1, Long(pace));
      Last(ls) == Life(KEY, FIRST.(status := OutreachSent, sentAt := Some(0), nextFollowUpAt := Some(0)), true,
                       map[0 := send, 1 := send], [], false)
  {
    var t := Long(pace);
    ls, es := Outreach(pace, policy, KEY);
    var l := Last(ls);
    LongEnough(pace, 0, t);
    ls, es := Decides(ls, es, pace, policy, l, 0, t, FollowUp1);
    ls, es := Decides(ls, es, pace, policy, l.To(0, Sending(FollowUp1, t)), 1, t, FollowUp1);
  }

  /** Two passes that overlap both send the first follow-up. */
  lemma FirstTwice(pace: Pace, policy: Policy) returns (ls: seq<Life>, es: seq<Event>)
    requires policy.overlaps
    ensures Allowed(ls, es, pace, policy) && var t := Long(pace);
      Last(ls) == Life(KEY, FIRST.(status := FollowUp1, sentAt := Some(0), lastEmailAt := Some(t),
                                   nextFollowUpAt := Some(t + pace.second * DAY), updatedAt := t),
                       true, map[], [t, t], false)
  {
    var t := Long(pace);
    ls, es := BothSending(pace, policy);
    var l := Last(ls);
    var l1 := l.(c := SentTo(l.c, true, pace, FollowUp1, t), stages := map[1 := Sending(FollowUp1, t)], sends := [t]);
    assert l.stages - {0} == l1.stages;
    ls, es := Go(ls, es, pace, policy, Finish(0, true, t, t), l, l1);
    assert l1.stages - {1} == map[];
    ls, es := Go(ls, es, pace, policy, Finish(1, true, t, t), l1, l1.(stages := map[], sends := [t, t]));
  }

  /** And then the second one goes out as well. */
  lemma OverlappingSends(pace: Pace, policy: Policy) returns (ls: seq<Life>, es: seq<Event>)
    requires policy.overlaps
    ensures Allowed(ls, es, pace, policy) && |Last(ls).sends| == 3
  {
    var t := Long(pace);
    ls, es := FirstTwice(pace, policy);
    var l := Last(ls);
    LongEnough(pace, t, 2 * t);
    ls, es := Sends(ls, es, pace, policy, l, 2 * t, FollowUp2,
                    l.(c := SentTo(l.c, true, pace, FollowUp2, 2 * t), sends := [t, t] + [2 * t]));
  }

  // ----- the policies under which follow-ups are kept in order -----

  /** No keyword may rename a campaign or take it back to where a follow-up is still due, and
      passes may not overlap. */
  ghost predicate Safe(policy: Policy) {
    !policy.renames && !policy.overlaps && forall s :: s in policy.lowersTo ==> !Early(s)
  }

  lemma SafeIsHarmless(ls: seq<Life>, es: seq<Event>, policy: Policy)
    requires |ls| == |es| + 1 && Conforms(ls, es, policy) && Safe(policy)
    ensures AllHarmless(ls, es)
  {
    forall i | 0 <= i < |es| ensures Harmless(ls[i], es[i]) {
      assert Permits(policy, ls[i], es[i]);
    }
  }

  lemma UnsafeSendsThree(pace: Pace, policy: Policy) returns (ls: seq<Life>, es: seq<Event>)
    requires !Safe(policy)
    ensures Allowed(ls, es, pace, policy) && |Last(ls).sends| == 3
  {
    if policy.renames {
      ls, es := SentAgain(pace, policy, 3);
    } else if policy.overlaps {
      ls, es := OverlappingSends(pace, policy);
    } else {
      var back :| back in policy.lowersTo && Early(back);
      ls, es := ThirdFollowUp(pace, policy, back);
    }
  }

  ghost predicate AlwaysAtMostTwo(pace: Pace, policy: Policy) {
    forall ls: seq<Life>, es: seq<Event> {:trigger IsLife(ls, es, true, pace)} ::
      IsLife(ls, es, true, pace) && Conforms(ls, es, policy) ==> |Last(ls).sends| <= 2
  }

  /** At any pace, at most two follow-ups go out on every run just when no permitted update
      renames the campaign or takes it back to where a follow-up is still due, and passes may
      not overlap. */
  lemma AtMostTwoIff(pace: Pace, policy: Policy)
    ensures AlwaysAtMostTwo(pace, policy) <==> Safe(policy)
  {
    if Safe(policy) {
      forall ls: seq<Life>, es: seq<Event> {:trigger IsLife(ls, es, true, pace)} |
          IsLife(ls, es, true, pace) && Conforms(ls, es, policy)
        ensures |Last(ls).sends| <= 2
      {
        SafeIsHarmless(ls, es, policy);
        AtMostTwo(ls, es, true, pace, 0, |es|);
      }
    } else {
      var ls, es := UnsafeSendsThree(pace, policy);
      assert IsLife(ls, es, true, pace) && Conforms(ls, es, policy);
    }
  }

  /** At most two, and the waits between them kept. */
  predicate Orderly(l: Life, pace: Pace) {
    |l.sends| <= 2 && Apart(l, pace)
  }

  ghost predicate AlwaysOrderly(pace: Pace, policy: Policy) {
    forall ls: seq<Life>, es: seq<Event> {:trigger Allowed(ls, es, pace, policy)} ::
      Allowed(ls, es, pace, policy) ==> Orderly(Last(ls), pace)
  }

  /** The same policies, and no others, keep the waits between the stages too, where
      timestamps are written only by the engine. */
  lemma OrderlyIff(pace: Pace, policy: Policy)
    ensures AlwaysOrderly(pace, policy) <==> Safe(policy)
  {
    if Safe(policy) {
      forall ls: seq<Life>, es: seq<Event> {:trigger Allowed(ls, es, pace, policy)} | Allowed(ls, es, pace, policy)
        ensures Orderly(Last(ls), pace)
      {
        SafeIsHarmless(ls, es, policy);
        AtMostTwo(ls, es, true, pace, 0, |es|);
        StagesApart(ls, es, true, pace, |es|);
      }
    } else {
      var ls, es := UnsafeSendsThree(pace, policy);
      assert Allowed(ls, es, pace, policy);
    }
  }

  // ----- the policies under which the dead stay dead -----

  ghost predicate DeadStays(ls: seq<Life>) {
    forall i, j :: 0 <= i < j < |ls| && ls[i].c.status == Dead ==> ls[j].c.status == Dead
  }

  ghost predicate AlwaysDeadStays(pace: Pace, policy: Policy) {
    forall ls: seq<Life>, es: seq<Event> {:trigger Allowed(ls, es, pace, policy)} ::
      Allowed(ls, es, pace, policy) ==> DeadStays(ls)
  }

  lemma Revived(pace: Pace, policy: Policy, back: Status) returns (ls: seq<Life>, es: seq<Event>)
    requires back in policy.lowersTo && back != Dead
    ensures Allowed(ls, es, pace, policy) && !DeadStays(ls)
  {
    var l := Life(KEY, FIRST, true, map[], [], false);
    var dead := l.(c := FIRST.(status := Dead));
    ls, es := [l, dead], [Manual(Dead, NO_STAMPS, 0)];
    var revive := Manual(Dead, NO_STAMPS.(status := Some(back)), 0);
    var l' := dead.(c := FIRST.(status := back));
    GoOn(ls, es, pace, revive, l');
    AllowedOn(ls, es, policy, revive, l');
    ls, es := ls + [l'], es + [revive];
    assert ls[1].c.status == Dead && ls[2].c.status == back;
  }

  /** A dead campaign stays dead on every run just when no permitted keyword lowers a
      status to any but `Dead`. */
  lemma DeadStaysIff(pace: Pace, policy: Policy)
    ensures AlwaysDeadStays(pace, policy) <==> forall s :: s in policy.lowersTo ==> s == Dead
  {
    if forall s :: s in policy.lowersTo ==> s == Dead {
      forall ls: seq<Life>, es: seq<Event> {:trigger Allowed(ls, es, pace, policy)} | Allowed(ls, es, pace, policy)
        ensures DeadStays(ls)
      {
        forall i | 0 <= i < |es| ensures !Lowers(ls[i], es[i]) {
          assert Permits(policy, ls[i], es[i]);
        }
        forall i, j | 0 <= i < j < |ls| && ls[i].c.status == Dead ensures ls[j].c.status == Dead {
          NeverEarlier(ls, es, true, pace, i, j);
        }
      }
    } else {
      var back :| back in policy.lowersTo && back != Dead;
      var ls, es := Revived(pace, policy, back);
    }
  }

  // ----- giving up early -----

  const PACE := Pace(3, 5, 7)

  const STRICT := Policy({}, false, false)

  function On(day: int): Instant {
    day * DAY
  }

  const FOLLOWED := FIRST.(status := FollowUp1, sentAt := Some(0), lastEmailAt := Some(On(3)),
                           nextFollowUpAt := Some(On(8)), updatedAt := On(3))

  lemma OnceFollowed() returns (ls: seq<Life>, es: seq<Event>)
    ensures Allowed(ls, es, PACE, STRICT) && Last(ls) == Life(KEY, FOLLOWED, true, map[], [On(3)], false)
  {
    ls, es := Outreach(PACE, STRICT, KEY);
    var l := Last(ls);
    ls, es := Sends(ls, es, PACE, STRICT, l, On(3), FollowUp1, Life(KEY, FOLLOWED, true, map[], [On(3)], false));
  }

  /** An update by hand to the second follow-up's status while that mail is on its way has
      its own record refused: the engine gives up a day after it, instead of seven. */
  lemma GivesUpEarly() returns (ls: seq<Life>, es: seq<Event>)
    ensures Allowed(ls, es, PACE, STRICT) && Last(ls).sends == [On(3), On(9)] && Last(ls).c.status == FollowUp2
    ensures Needs(Last(ls).c, On(10)) && TooSoon(Last(ls), PACE, On(10))
  {
    ls, es := OnceFollowed();
    var l := Last(ls);
    ls, es := Decides(ls, es, PACE, STRICT, l, 0, On(8), FollowUp2);
    var l1 := l.To(0, Sending(FollowUp2, On(8)));
    var l2 := l1.(c := FOLLOWED.(status := FollowUp2, updatedAt := On(8)));
    ls, es := Go(ls, es, PACE, STRICT, Manual(FollowUp2, NO_STAMPS, On(8)), l1, l2);
    assert l2.stages - {0} == map[];
    ls, es := Go(ls, es, PACE, STRICT, Finish(0, true, On(9), On(9)), l2, l2.(stages := map[], sends := [On(3), On(9)]));
  }
}
