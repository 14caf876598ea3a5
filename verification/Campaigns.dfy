/** Outreach campaigns, their follow-ups and link checks (source_agents/backlink.py).
    Instants are in microseconds. */
module Campaigns {
  import opened Basics
  import opened Wrappers

  type Instant = int

  const DAY := 86_400_000_000

  // ----- status -----

  datatype Status = Prospecting | OutreachSent | FollowUp1 | FollowUp2 | Negotiating | Acquired | Dead

  function Successors(from: Status): set<Status> {
    match from
    case Prospecting => {OutreachSent, Dead}
    case OutreachSent => {FollowUp1, Negotiating, Dead}
    case FollowUp1 => {FollowUp2, Negotiating, Dead}
    case FollowUp2 => {Negotiating, Dead}
    case Negotiating => {Acquired, Dead}
    case Acquired => {}
    case Dead => {}
  }

  predicate Accepts(from: Status, to: Status) {
    to in Successors(from) || to == Dead
  }

  function Rank(s: Status): nat {
    match s
    case Prospecting => 0
    case OutreachSent => 1
    case FollowUp1 => 2
    case FollowUp2 => 3
    case Negotiating => 4
    case Acquired => 5
    case Dead => 6
  }

  /** A campaign goes one status on, from the sequence straight to negotiating, or dies. */
  lemma AcceptsIff(from: Status, to: Status)
    ensures Accepts(from, to) <==>
      to == Dead || Rank(to) == Rank(from) + 1 || (to == Negotiating && (from == OutreachSent || from == FollowUp1))
  {
  }

  datatype Reason = NoReason | NoResponse | LinkNotPlaced

  /** `id` is the campaign's own; the tracker's key for it is the one it was created with. */
  datatype Campaign = Campaign(id: Name, status: Status, hasThread: bool, sentAt: Option<Instant>,
                               lastEmailAt: Option<Instant>, lastReplyAt: Option<Instant>,
                               nextFollowUpAt: Option<Instant>, verifiedAt: Option<Instant>, failures: int,
                               updatedAt: Instant, reason: Reason)

  /** A timestamp that an update writes or leaves alone. */
  datatype Change = Keep | Write(value: Option<Instant>)
  {
    function Apply(before: Option<Instant>): Option<Instant> {
      if Keep? then before else value
    }
  }

  function Else<T>(set': Option<T>, before: T): T {
    if set'.Some? then set'.value else before
  }

  /** The attributes that an update's keywords set after the transition, the status and the
      id among them. */
  datatype Stamps = Stamps(id: Option<Name>, status: Option<Status>, hasThread: Option<bool>, sentAt: Change,
                           lastEmailAt: Change, lastReplyAt: Change, nextFollowUpAt: Change, verifiedAt: Change,
                           failures: Option<int>, updatedAt: Option<Instant>, reason: Option<Reason>)

  const NO_STAMPS := Stamps(None, None, None, Keep, Keep, Keep, Keep, Keep, None, None, None)

  function Stamped(c: Campaign, s: Stamps): Campaign {
    Campaign(Else(s.id, c.id), Else(s.status, c.status), Else(s.hasThread, c.hasThread), s.sentAt.Apply(c.sentAt),
             s.lastEmailAt.Apply(c.lastEmailAt), s.lastReplyAt.Apply(c.lastReplyAt),
             s.nextFollowUpAt.Apply(c.nextFollowUpAt), s.verifiedAt.Apply(c.verifiedAt),
             Else(s.failures, c.failures), Else(s.updatedAt, c.updatedAt), Else(s.reason, c.reason))
  }

  /** A timestamp is what its keyword gives, if there is one. */
  predicate Follows(change: Change, before: Option<Instant>, after: Option<Instant>) {
    if change.Write? then after == change.value else after == before
  }

  predicate Becomes<T(==)>(keyword: Option<T>, before: T, after: T) {
    match keyword
    case None => after == before
    case Some(x) => after == x
  }

  /** Each attribute has the value of its own keyword after an update, and stays as it was
      without one. */
  lemma KeywordsWrite(c: Campaign, s: Stamps)
    ensures var c' := Stamped(c, s);
      && Becomes(s.id, c.id, c'.id) && Becomes(s.status, c.status, c'.status)
      && Becomes(s.hasThread, c.hasThread, c'.hasThread) && Becomes(s.failures, c.failures, c'.failures)
      && Becomes(s.updatedAt, c.updatedAt, c'.updatedAt) && Becomes(s.reason, c.reason, c'.reason)
      && Follows(s.sentAt, c.sentAt, c'.sentAt) && Follows(s.lastEmailAt, c.lastEmailAt, c'.lastEmailAt)
      && Follows(s.lastReplyAt, c.lastReplyAt, c'.lastReplyAt) && Follows(s.verifiedAt, c.verifiedAt, c'.verifiedAt)
      && Follows(s.nextFollowUpAt, c.nextFollowUpAt, c'.nextFollowUpAt)
  {
  }

  /** The tracker's update: None if the transition is refused. */
  function Updated(c: Campaign, to: Status, s: Stamps, at: Instant): Option<Campaign> {
    if Accepts(c.status, to) then Some(Stamped(c.(status := to, updatedAt := at), s)) else None
  }

  /** The update, or the campaign as it was. */
  function Update(c: Campaign, to: Status, s: Stamps, at: Instant): Campaign {
    match Updated(c, to, s, at)
    case None => c
    case Some(c') => c'
  }

  /** A keyword that overwrites the status with an earlier one. */
  predicate Lowering(c: Campaign, s: Stamps) {
    s.status.Some? && Rank(s.status.value) < Rank(c.status)
  }

  /** An accepted update lowers the rank just when a keyword overwrites the status with a
      lower one; without such a keyword it strictly raises it, but for the dead dying again. */
  lemma UpdateRaises(c: Campaign, to: Status, s: Stamps, at: Instant)
    requires Updated(c, to, s, at).Some?
    ensures Rank(Updated(c, to, s, at).value.status) < Rank(c.status) <==> Lowering(c, s)
    ensures s.status.None? ==>
      Updated(c, to, s, at).value.status == to && (Rank(c.status) < Rank(to) || c.status == to == Dead)
  {
  }

  /** Neither of the two statuses called terminal refuses everything. */
  lemma TerminalAccepts(c: Campaign, to: Status, s: Stamps, at: Instant)
    requires c.status == Acquired || c.status == Dead
    ensures Updated(c, to, s, at).Some? <==> to == Dead
  {
  }

  // ----- a follow-up visit -----

  datatype Pace = Pace(first: int, second: int, last: int)

  function Days(d: int): int {
    d / DAY
  }

  lemma DaysAtLeast(d: int, n: int)
    ensures Days(d) >= n <==> d >= n * DAY
  {
  }

  predicate InSequence(s: Status) {
    s == OutreachSent || s == FollowUp1 || s == FollowUp2
  }

  predicate Needs(c: Campaign, now: Instant) {
    InSequence(c.status) && c.nextFollowUpAt.Some? && c.nextFollowUpAt.value <= now
  }

  datatype Replies = Found | NoneYet | CheckFailed

  /** What the world does to one visit: what the reply check says, whether a send works,
      and the clock when replies are recorded, when the wait is measured, when the mail
      leaves and when its sending is recorded. */
  datatype Visit = Visit(replies: Replies, delivers: bool, replyAt: Instant, now: Instant, leavesAt: Instant,
                         doneAt: Instant)

  predicate HasReply(c: Campaign, gmail: bool, v: Visit) {
    c.hasThread && gmail && v.replies == Found
  }

  predicate Waited(since: Option<Instant>, now: Instant, days: int) {
    since.Some? && Days(now - since.value) >= days
  }

  /** What a visit comes to. */
  datatype Action = Replied | SendsFirst | SendsSecond | GivesUp | Waits

  /** What the engine does when no reply has been found. */
  function Act(c: Campaign, pace: Pace, now: Instant): Action {
    if c.status == OutreachSent && Waited(c.sentAt, now, pace.first) then SendsFirst
    else if c.status == FollowUp1 && Waited(c.lastEmailAt, now, pace.second) then SendsSecond
    else if c.status == FollowUp2 && Waited(c.lastEmailAt, now, pace.last) then GivesUp
    else Waits
  }

  function Decide(c: Campaign, gmail: bool, pace: Pace, v: Visit): Action {
    if HasReply(c, gmail, v) then Replied else Act(c, pace, v.now)
  }

  function Tries(a: Action): bool {
    a == SendsFirst || a == SendsSecond
  }

  /** A mail goes out only if there is a client and it does not fail. */
  predicate Delivers(c: Campaign, gmail: bool, pace: Pace, v: Visit) {
    Tries(Decide(c, gmail, pace, v)) && gmail && v.delivers
  }

  /** The status after a follow-up and the days to wait from there. */
  function DaysAfter(pace: Pace, to: Status): int {
    if to == FollowUp2 then pace.last else pace.second
  }

  function SendStamps(pace: Pace, to: Status, doneAt: Instant): Stamps {
    NO_STAMPS.(lastEmailAt := Write(Some(doneAt)), nextFollowUpAt := Write(Some(doneAt + DaysAfter(pace, to) * DAY)))
  }

  /** The engine's updates go by the campaign's own id: they miss it if it is not stored
      under that id. */
  function Landed(c: Campaign, home: bool, to: Status, s: Stamps, at: Instant): Campaign {
    if home then Update(c, to, s, at) else c
  }

  function SentTo(c: Campaign, home: bool, pace: Pace, to: Status, doneAt: Instant): Campaign {
    Landed(c, home, to, SendStamps(pace, to, doneAt), doneAt)
  }

  /** The reply is also recorded on the campaign itself. */
  function RepliedTo(c: Campaign, home: bool, replyAt: Instant): Campaign {
    Landed(c.(lastReplyAt := Some(replyAt)), home, Negotiating, NO_STAMPS.(lastReplyAt := Write(Some(replyAt))), replyAt)
  }

  function GivenUp(c: Campaign, home: bool, now: Instant): Campaign {
    Landed(c, home, Dead, NO_STAMPS.(reason := Some(NoResponse)), now)
  }

  /** The campaign after a visit that nothing interrupts. */
  function Visited(c: Campaign, home: bool, gmail: bool, pace: Pace, v: Visit): Campaign {
    match Decide(c, gmail, pace, v)
    case Replied => RepliedTo(c, home, v.replyAt)
    case SendsFirst => if gmail && v.delivers then SentTo(c, home, pace, FollowUp1, v.doneAt) else c
    case SendsSecond => if gmail && v.delivers then SentTo(c, home, pace, FollowUp2, v.doneAt) else c
    case GivesUp => GivenUp(c, home, v.now)
    case Waits => c
  }

  /** What the engine does without a reply, in instants: a first follow-up when `first` days
      have passed since the outreach, a second one and giving up so many days after the
      last mail. */
  lemma ActsInTime(c: Campaign, pace: Pace, now: Instant)
    ensures Act(c, pace, now) == SendsFirst <==>
      c.status == OutreachSent && c.sentAt.Some? && now >= c.sentAt.value + pace.first * 86_400_000_000
    ensures Act(c, pace, now) == SendsSecond <==>
      c.status == FollowUp1 && c.lastEmailAt.Some? && now >= c.lastEmailAt.value + pace.second * 86_400_000_000
    ensures Act(c, pace, now) == GivesUp <==>
      c.status == FollowUp2 && c.lastEmailAt.Some? && now >= c.lastEmailAt.value + pace.last * 86_400_000_000
  {
    if c.sentAt.Some? {
      DaysAtLeast(now - c.sentAt.value, pace.first);
    }
    if c.lastEmailAt.Some? {
      DaysAtLeast(now - c.lastEmailAt.value, pace.second);
      DaysAtLeast(now - c.lastEmailAt.value, pace.last);
    }
  }

  /** Once a follow-up has been recorded, the campaign is due just when the engine acts on
      it again: the next pass that lists it does not wait in vain. */
  lemma DueWhenItActs(c: Campaign, pace: Pace, to: Status, doneAt: Instant, now: Instant, c': Campaign)
    requires to == FollowUp1 || to == FollowUp2
    requires Accepts(c.status, to) && c' == SentTo(c, true, pace, to, doneAt)
    ensures c'.status == to && c'.lastEmailAt == Some(doneAt)
    ensures Needs(c', now) <==> Act(c', pace, now) == if to == FollowUp1 then SendsSecond else GivesUp
  {
    ActsInTime(c', pace, now);
  }

  /** A reply leads to negotiating, at its own instant, from anywhere in the sequence; a
      campaign given up is dead for want of one. */
  lemma RepliesAndEnds(c: Campaign, replyAt: Instant, now: Instant)
    requires InSequence(c.status)
    ensures RepliedTo(c, true, replyAt).status == Negotiating && RepliedTo(c, true, replyAt).lastReplyAt == Some(replyAt)
    ensures GivenUp(c, true, now).status == Dead && GivenUp(c, true, now).reason == NoResponse
  {
  }

  // ----- a link check -----

  function Checked(c: Campaign, live: bool, at: Instant): Campaign {
    if live then Update(c, Acquired, NO_STAMPS.(verifiedAt := Write(Some(at))), at)
    else
      var c' := c.(failures := c.failures + 1);
      if c'.failures >= 3 then Update(c', Dead, NO_STAMPS.(reason := Some(LinkNotPlaced)), at) else c'
  }

  /** What a check does to the campaign: a live link acquires one that is negotiating, and
      changes no other status; a dead link is counted, and kills from the third time on. */
  lemma ChecksCount(c: Campaign, live: bool, at: Instant, c': Campaign)
    requires c' == Checked(c, live, at)
    ensures live ==> c'.failures == c.failures && c'.status == (if c.status == Negotiating then Acquired else c.status)
    ensures live && c.status == Negotiating ==> c'.verifiedAt == Some(at)
    ensures !live ==> c'.failures == c.failures + 1
    ensures !live ==> c'.status == if c.failures >= 2 then Dead else c.status
    ensures !live && c.failures >= 2 ==> c'.reason == LinkNotPlaced
  {
  }

  // ----- the life of a campaign -----

  /** How far a pass of the engine has come with the campaign: at each of these points other
      requests may run, and other passes. */
  datatype Stage = Listed | Asking | Sending(to: Status, decided: Instant)

  /** `n` names the pass. */
  datatype Event =
    | Manual(to: Status, stamps: Stamps, at: Instant)                     // any other update under the campaign's key
    | Check(live: bool, at: Instant)                                      // a link check
    | Delete
    | List(n: nat, now: Instant)                                          // a pass starts
    | Look(n: nat, now: Instant)                                          // it comes to the campaign
    | Answer(n: nat, replies: Replies, replyAt: Instant, now: Instant)    // the reply check returns
    | Finish(n: nat, delivers: bool, leavesAt: Instant, doneAt: Instant)  // the send returns

  /** A campaign, the key it is stored under while it is, how far each pass that has listed
      it has come, and what became of it: the follow-ups that went out, and whether the
      engine has met a reply. */
  datatype Life = Life(key: Name, c: Campaign, stored: bool, stages: map<nat, Stage>, sends: seq<Instant>, replied: bool)
  {
    predicate Home() {
      stored && c.id == key
    }

    predicate Sends(n: nat) {
      n in stages && stages[n].Sending?
    }

    /** The pass n may act on the campaign. */
    predicate Acts(n: nat) {
      n in stages && !stages[n].Sending?
    }

    function Over(n: nat): Life {
      this.(stages := stages - {n})
    }

    function To(n: nat, stage: Stage): Life {
      this.(stages := stages[n := stage])
    }
  }

  /** What the pass n does after the reply check, up to its next await. */
  function Turn(l: Life, n: nat, gmail: bool, pace: Pace, now: Instant): Life {
    match Act(l.c, pace, now)
    case SendsFirst => if gmail then l.To(n, Sending(FollowUp1, now)) else l.Over(n)
    case SendsSecond => if gmail then l.To(n, Sending(FollowUp2, now)) else l.Over(n)
    case GivesUp => l.Over(n).(c := GivenUp(l.c, l.Home(), now))
    case _ => l.Over(n)
  }

  /** One atomic step; the engine's steps wait for their stage. */
  function Next(l: Life, e: Event, gmail: bool, pace: Pace): Life {
    match e
    case Manual(to, stamps, at) => if l.stored then l.(c := Update(l.c, to, stamps, at)) else l
    case Check(live, at) => if l.stored then l.(c := Checked(l.c, live, at)) else l
    case Delete => l.(stored := false)
    case List(n, now) => if l.stored && n !in l.stages && Needs(l.c, now) then l.To(n, Listed) else l
    case Look(n, now) =>
      if n !in l.stages || l.stages[n] != Listed then l
      else if l.c.hasThread && gmail then l.To(n, Asking)
      else Turn(l, n, gmail, pace, now)
    case Answer(n, replies, replyAt, now) =>
      if n !in l.stages || l.stages[n] != Asking then l
      else if replies == Found then l.Over(n).(c := RepliedTo(l.c, l.Home(), replyAt), replied := true)
      else Turn(l, n, gmail, pace, now)
    case Finish(n, delivers, leavesAt, doneAt) =>
      if !l.Sends(n) then l
      else if !delivers then l.Over(n)
      else l.Over(n).(c := SentTo(l.c, l.Home(), pace, l.stages[n].to, doneAt), sends := l.sends + [leavesAt])
  }

  /** The event is the turn of a pass. */
  predicate TakesTurn(l: Life, e: Event) {
    (e.Look? && e.n in l.stages && l.stages[e.n] == Listed) || (e.Answer? && e.n in l.stages && l.stages[e.n] == Asking)
  }

  lemma TurnThenFinish(l: Life, n: nat, gmail: bool, pace: Pace, v: Visit, l1: Life, l2: Life)
    requires l.Acts(n) && !HasReply(l.c, gmail, v) && l1 == Turn(l, n, gmail, pace, v.now)
    requires l2 == Next(l1, Finish(n, v.delivers, v.leavesAt, v.doneAt), gmail, pace)
    ensures l2.stages == l.stages - {n} && l2.c == Visited(l.c, l.Home(), gmail, pace, v) && l2.replied == l.replied
    ensures l2.sends == if Delivers(l.c, gmail, pace, v) then l.sends + [v.leavesAt] else l.sends
  {
    var to := if Act(l.c, pace, v.now) == SendsFirst then FollowUp1 else FollowUp2;
    if Tries(Act(l.c, pace, v.now)) && gmail {
      assert l1 == l.To(n, Sending(to, v.now)) && l1.Over(n) == l.Over(n);
    } else {
      assert n !in l1.stages && l2 == l1;
    }
  }

  /** A visit that nothing interrupts is the pass's steps one after another. */
  lemma VisitIsSteps(l: Life, n: nat, gmail: bool, pace: Pace, v: Visit, l1: Life, l2: Life, l3: Life)
    requires n in l.stages && l.stages[n] == Listed && l1 == Next(l, Look(n, v.now), gmail, pace)
    requires l2 == Next(l1, Answer(n, v.replies, v.replyAt, v.now), gmail, pace)
    requires l3 == Next(l2, Finish(n, v.delivers, v.leavesAt, v.doneAt), gmail, pace)
    ensures l3.stages == l.stages - {n} && l3.c == Visited(l.c, l.Home(), gmail, pace, v)
    ensures l3.sends == if Delivers(l.c, gmail, pace, v) then l.sends + [v.leavesAt] else l.sends
    ensures l3.replied <==> l.replied || Decide(l.c, gmail, pace, v) == Replied
  {
    var asked := l.c.hasThread && gmail;
    assert asked ==> l1 == l.To(n, Asking);
    if HasReply(l.c, gmail, v) {
      assert l2.stages == l.stages - {n} && l3 == l2;
    } else {
      assert l2 == Turn(if asked then l1 else l, n, gmail, pace, v.now);
      TurnThenFinish(if asked then l1 else l, n, gmail, pace, v, l2, l3);
    }
  }

  // ----- what other requests may do -----

  predicate Takes(l: Life, e: Event) {
    e.Manual? && l.stored && Accepts(l.c.status, e.to)
  }

  /** An accepted update that overwrites the status with a lower one. */
  predicate Lowers(l: Life, e: Event) {
    Takes(l, e) && Lowering(l.c, e.stamps)
  }

  /** An accepted update that takes the campaign's own id from the key it is stored under. */
  predicate Renames(l: Life, e: Event) {
    Takes(l, e) && e.stamps.id.Some? && e.stamps.id.value != l.key
  }

  /** A pass lists the campaign while another is not through with it. */
  predicate Overlaps(l: Life, e: Event) {
    e.List? && l.stages != map[]
  }

  lemma TurnNeverBack(l: Life, n: nat, gmail: bool, pace: Pace, now: Instant)
    ensures Rank(l.c.status) <= Rank(Turn(l, n, gmail, pace, now).c.status)
  {
  }

  lemma FinishNeverBack(l: Life, e: Event, gmail: bool, pace: Pace)
    requires e.Finish? || e.Check?
    ensures Rank(l.c.status) <= Rank(Next(l, e, gmail, pace).c.status)
  {
  }

  /** No other event lowers the rank. */
  lemma NeverBack(l: Life, e: Event, gmail: bool, pace: Pace)
    ensures Rank(Next(l, e, gmail, pace).c.status) < Rank(l.c.status) <==> Lowers(l, e)
  {
    if Takes(l, e) {
      UpdateRaises(l.c, e.to, e.stamps, e.at);
    } else if TakesTurn(l, e) {
      TurnNeverBack(l, e.n, gmail, pace, e.now);
    } else if e.Finish? || e.Check? {
      FinishNeverBack(l, e, gmail, pace);
    }
  }

  /** What other requests may do: the statuses that keywords may lower the status to, whether
      they may rename the campaign, and whether passes may overlap. */
  datatype Policy = Policy(lowersTo: set<Status>, renames: bool, overlaps: bool)

  predicate Permits(p: Policy, l: Life, e: Event) {
    && (Lowers(l, e) ==> e.stamps.status.value in p.lowersTo)
    && (Renames(l, e) ==> p.renames)
    && (Overlaps(l, e) ==> p.overlaps)
  }

  // ----- counting follow-ups -----

  /** Statuses from which the engine has a first or a second follow-up still to send. */
  predicate Early(s: Status) {
    Rank(s) <= 2
  }

  /** Neither an update by hand that takes the campaign back to such a status or renames it,
      nor an overlapping pass. */
  predicate Harmless(l: Life, e: Event) {
    !(Lowers(l, e) && Early(e.stamps.status.value)) && !Renames(l, e) && !Overlaps(l, e)
  }

  predicate StageFits(l: Life, stage: Stage) {
    match stage
    case Sending(to, _) =>
      if to == FollowUp1 then Rank(l.c.status) >= 1 && |l.sends| == 0
      else to == FollowUp2 && Rank(l.c.status) >= 2 && |l.sends| <= 1
    case _ => Rank(l.c.status) >= 1
  }

  /** Nothing is on its way, and nothing more will be sent: the status is past the
      follow-ups, or the campaign deleted and no pass at work on it. */
  predicate Silent(l: Life) {
    (!Early(l.c.status) && forall n :: n in l.stages ==> !l.stages[n].Sending?) || (!l.stored && l.stages == map[])
  }

  predicate SendsFit(l: Life) {
    && |l.sends| <= 2
    && (l.stored || l.stages != map[] ==>
          (Rank(l.c.status) <= 1 ==> |l.sends| == 0) && (Rank(l.c.status) == 2 ==> |l.sends| <= 1))
  }

  predicate Counted(l: Life) {
    && l.c.id == l.key && SendsFit(l) && (l.replied ==> Silent(l))
    && (forall m, n :: m in l.stages && n in l.stages ==> m == n)
    && (forall n :: n in l.stages ==> StageFits(l, l.stages[n]))
  }

  /** l' may come after l: no mail is taken back, no reply forgotten, and nothing sent once
      the engine is silent. */
  predicate Onward(l: Life, l': Life) {
    l.sends <= l'.sends && (l.replied ==> l'.replied) && (Silent(l) ==> Silent(l') && l'.sends == l.sends)
  }

  lemma OnwardOnward(l: Life, l1: Life, l2: Life)
    requires Onward(l, l1) && Onward(l1, l2)
    ensures Onward(l, l2)
  {
  }

  lemma OnlyPass(l: Life, n: nat)
    requires Counted(l) && n in l.stages
    ensures l.stages == map[n := l.stages[n]] && l.stages - {n} == map[]
  {
  }

  lemma TurnCounted(l: Life, n: nat, gmail: bool, pace: Pace, now: Instant)
    requires Counted(l) && l.Acts(n)
    ensures Counted(Turn(l, n, gmail, pace, now)) && Onward(l, Turn(l, n, gmail, pace, now))
  {
    OnlyPass(l, n);
  }

  lemma FinishCounted(l: Life, e: Event, gmail: bool, pace: Pace)
    requires Counted(l) && e.Finish?
    ensures Counted(Next(l, e, gmail, pace)) && Onward(l, Next(l, e, gmail, pace))
  {
    if l.Sends(e.n) {
      OnlyPass(l, e.n);
    }
  }

  lemma AnsweredCounted(l: Life, n: nat, replyAt: Instant)
    requires Counted(l) && l.Acts(n)
    ensures var l' := l.Over(n).(c := RepliedTo(l.c, l.Home(), replyAt), replied := true); Counted(l') && Onward(l, l')
  {
    OnlyPass(l, n);
  }

  lemma ManualCounted(l: Life, e: Event, gmail: bool, pace: Pace)
    requires Counted(l) && Harmless(l, e) && e.Manual?
    ensures Counted(Next(l, e, gmail, pace)) && Onward(l, Next(l, e, gmail, pace))
  {
    assert forall n :: n in l.stages ==> StageFits(l, l.stages[n]);
  }

  lemma NextKeepsCounted(l: Life, e: Event, gmail: bool, pace: Pace)
    requires Counted(l) && Harmless(l, e)
    ensures Counted(Next(l, e, gmail, pace)) && Onward(l, Next(l, e, gmail, pace))
  {
    if TakesTurn(l, e) {
      OnlyPass(l, e.n);
      TurnCounted(l, e.n, gmail, pace, e.now);
      if e.Answer? {
        AnsweredCounted(l, e.n, e.replyAt);
      }
    } else if e.Finish? {
      FinishCounted(l, e, gmail, pace);
    } else if e.Manual? {
      ManualCounted(l, e, gmail, pace);
    }
  }

  // ----- runs -----

  predicate Steps(l: Life, e: Event, l': Life, gmail: bool, pace: Pace) {
    l' == Next(l, e, gmail, pace)
  }

  /** A campaign as it is created, under its own id. */
  predicate Fresh(l: Life) {
    && l.c.id == l.key && l.c.status == Prospecting && l.c.lastEmailAt == None && l.c.failures == 0
    && l == Life(l.key, l.c, true, map[], [], false)
  }

  ghost predicate IsLife(ls: seq<Life>, es: seq<Event>, gmail: bool, pace: Pace) {
    && |ls| == |es| + 1 && Fresh(ls[0])
    && (forall i :: 0 <= i < |es| ==> Steps(ls[i], es[i], ls[i + 1], gmail, pace))
  }

  ghost predicate AllHarmless(ls: seq<Life>, es: seq<Event>)
    requires |ls| == |es| + 1
  {
    forall i :: 0 <= i < |es| ==> Harmless(ls[i], es[i])
  }

  lemma StepCounted(l: Life, e: Event, l': Life, gmail: bool, pace: Pace)
    requires Counted(l) && Harmless(l, e) && Steps(l, e, l', gmail, pace)
    ensures Counted(l') && Onward(l, l')
  {
    NextKeepsCounted(l, e, gmail, pace);
  }

  lemma FreshCounted(l: Life)
    requires Fresh(l)
    ensures Counted(l)
  {
  }

  lemma {:induction false} LifeCounted(ls: seq<Life>, es: seq<Event>, gmail: bool, pace: Pace, k: nat)
    requires IsLife(ls, es, gmail, pace) && AllHarmless(ls, es) && k < |ls|
    ensures Counted(ls[k])
  {
    if k == 0 {
      FreshCounted(ls[0]);
    } else {
      LifeCounted(ls, es, gmail, pace, k - 1);
      StepCounted(ls[k - 1], es[k - 1], ls[k], gmail, pace);
    }
  }

  lemma LifeOnward(ls: seq<Life>, es: seq<Event>, gmail: bool, pace: Pace, k: nat)
    requires IsLife(ls, es, gmail, pace) && AllHarmless(ls, es) && 0 < k < |ls|
    ensures Onward(ls[k - 1], ls[k])
  {
    LifeCounted(ls, es, gmail, pace, k - 1);
    StepCounted(ls[k - 1], es[k - 1], ls[k], gmail, pace);
  }

  lemma OnwardSame(l: Life)
    ensures Onward(l, l)
  {
  }

  lemma {:induction false} OnwardBetween(ls: seq<Life>, es: seq<Event>, gmail: bool, pace: Pace, i: nat, j: nat)
    requires IsLife(ls, es, gmail, pace) && AllHarmless(ls, es) && i <= j < |ls|
    ensures Onward(ls[i], ls[j])
    decreases j
  {
    if i == j {
      OnwardSame(ls[i]);
    } else {
      OnwardBetween(ls, es, gmail, pace, i, j - 1);
      LifeOnward(ls, es, gmail, pace, j);
      OnwardOnward(ls[i], ls[j - 1], ls[j]);
    }
  }

  /** However passes, replies, failed sends, link checks, deletion and updates by hand mix,
      between the engine's awaits too: unless an update takes the campaign back to an early
      status or renames it, or passes overlap, at most two follow-ups go out, and none once
      the engine is silent, which it is from a reply on. */
  lemma AtMostTwo(ls: seq<Life>, es: seq<Event>, gmail: bool, pace: Pace, i: nat, j: nat)
    requires IsLife(ls, es, gmail, pace) && AllHarmless(ls, es) && i <= j < |ls|
    ensures |ls[j].sends| <= 2 && Onward(ls[i], ls[j]) && (ls[j].replied ==> Silent(ls[j]))
  {
    LifeCounted(ls, es, gmail, pace, j);
    OnwardBetween(ls, es, gmail, pace, i, j);
  }

  ghost predicate NeverLowered(ls: seq<Life>, es: seq<Event>)
    requires |ls| == |es| + 1
  {
    forall i :: 0 <= i < |es| ==> !Lowers(ls[i], es[i])
  }

  /** The status of l' is no earlier than that of l. */
  predicate NoEarlier(l: Life, l': Life) {
    Rank(l.c.status) <= Rank(l'.c.status)
  }

  lemma NoEarlierSame(l: Life)
    ensures NoEarlier(l, l)
  {
  }

  lemma NoEarlierOn(l: Life, l1: Life, l2: Life)
    requires NoEarlier(l, l1) && NoEarlier(l1, l2)
    ensures NoEarlier(l, l2)
  {
  }

  lemma StepNoEarlier(l: Life, e: Event, l': Life, gmail: bool, pace: Pace)
    requires Steps(l, e, l', gmail, pace) && !Lowers(l, e)
    ensures NoEarlier(l, l')
  {
    NeverBack(l, e, gmail, pace);
  }

  lemma LifeNoEarlier(ls: seq<Life>, es: seq<Event>, gmail: bool, pace: Pace, k: nat)
    requires IsLife(ls, es, gmail, pace) && NeverLowered(ls, es) && 0 < k < |ls|
    ensures NoEarlier(ls[k - 1], ls[k])
  {
    StepNoEarlier(ls[k - 1], es[k - 1], ls[k], gmail, pace);
  }

  /** If no update lowers the status, none is ever left for an earlier one: what is dead
      stays dead, and what is acquired stays so or dies. */
  lemma {:induction false} NeverEarlier(ls: seq<Life>, es: seq<Event>, gmail: bool, pace: Pace, i: nat, j: nat)
    requires IsLife(ls, es, gmail, pace) && NeverLowered(ls, es) && i <= j < |ls|
    ensures NoEarlier(ls[i], ls[j])
    decreases j
  {
    if i == j {
      NoEarlierSame(ls[i]);
    } else {
      NeverEarlier(ls, es, gmail, pace, i, j - 1);
      LifeNoEarlier(ls, es, gmail, pace, j);
      NoEarlierOn(ls[i], ls[j - 1], ls[j]);
    }
  }

  // ----- failed checks -----

  /** Failed checks among the first k events, made while the campaign was stored. */
  ghost function FailedChecks(ls: seq<Life>, es: seq<Event>, k: nat): nat
    requires |ls| == |es| + 1 && k <= |es|
  {
    if k == 0 then 0
    else FailedChecks(ls, es, k - 1) + (if ls[k - 1].stored && es[k - 1].Check? && !es[k - 1].live then 1 else 0)
  }

  /** No update by hand writes the count. */
  predicate CountKept(l: Life, e: Event) {
    e.Manual? ==> e.stamps.failures == None
  }

  lemma StepChecks(l: Life, e: Event, l': Life, gmail: bool, pace: Pace)
    requires Steps(l, e, l', gmail, pace) && CountKept(l, e)
    ensures l'.c.failures == l.c.failures + if l.stored && e.Check? && !e.live then 1 else 0
  {
    if e.Check? && l.stored {
      ChecksCount(l.c, e.live, e.at, l'.c);
    }
  }

  lemma {:induction false} ChecksCounted(ls: seq<Life>, es: seq<Event>, gmail: bool, pace: Pace, k: nat)
    requires IsLife(ls, es, gmail, pace) && k <= |es|
    requires forall i :: 0 <= i < |es| ==> CountKept(ls[i], es[i])
    ensures ls[k].c.failures == FailedChecks(ls, es, k)
  {
    if k > 0 {
      ChecksCounted(ls, es, gmail, pace, k - 1);
      StepChecks(ls[k - 1], es[k - 1], ls[k], gmail, pace);
    }
  }

  /** On every run a failed check kills the campaign if it is the third or a later one, and
      leaves the status alone before; a live one acquires a campaign that is negotiating. */
  lemma ThirdCheckKills(ls: seq<Life>, es: seq<Event>, gmail: bool, pace: Pace, k: nat)
    requires IsLife(ls, es, gmail, pace) && k < |es| && es[k].Check? && ls[k].stored
    requires forall i :: 0 <= i < |es| ==> CountKept(ls[i], es[i])
    ensures !es[k].live ==>
      ls[k + 1].c.status == if FailedChecks(ls, es, k + 1) >= 3 then Dead else ls[k].c.status
    ensures es[k].live ==> ls[k + 1].c.status == if ls[k].c.status == Negotiating then Acquired else ls[k].c.status
  {
    ChecksCounted(ls, es, gmail, pace, k);
    assert Steps(ls[k], es[k], ls[k + 1], gmail, pace);
    ChecksCount(ls[k].c, es[k].live, es[k].at, ls[k + 1].c);
  }

  // ----- the waits between stages -----

  /** Updates by hand record when the outreach went out, and nothing else that the engine
      measures from; a mail does not leave before it is decided on. */
  predicate EngineStamps(l: Life, e: Event) {
    match e
    case Manual(to, stamps, at) => stamps.lastEmailAt == Keep && (stamps.sentAt == Keep || to == OutreachSent)
    case Finish(n, _, leavesAt, doneAt) => l.Sends(n) ==> l.stages[n].decided <= leavesAt <= doneAt
    case _ => true
  }

  /** The first follow-up went out at least `first` days after the outreach, the second at
      least `second` days after it. */
  predicate Apart(l: Life, pace: Pace) {
    && (l.sends != [] ==> l.c.sentAt.Some? && l.sends[0] >= l.c.sentAt.value + pace.first * DAY)
    && (|l.sends| >= 2 ==> l.sends[1] >= l.sends[0] + pace.second * DAY)
  }

  /** So it will be for a mail on its way. */
  predicate LeavesInTime(l: Life, stage: Stage, pace: Pace) {
    && (stage.Sending? && stage.to == FollowUp1 ==>
          l.c.sentAt.Some? && stage.decided >= l.c.sentAt.value + pace.first * DAY)
    && (stage.Sending? && stage.to == FollowUp2 ==> l.sends != [] && stage.decided >= l.sends[0] + pace.second * DAY)
  }

  predicate Spaced(l: Life, pace: Pace) {
    && Apart(l, pace)
    && (l.c.lastEmailAt.Some? ==> l.sends != [] && (|l.sends| == 1 ==> l.sends[0] <= l.c.lastEmailAt.value))
    && (forall n :: n in l.stages ==> LeavesInTime(l, l.stages[n], pace))
  }

  lemma TurnKeepsSpaced(l: Life, n: nat, gmail: bool, pace: Pace, now: Instant)
    requires Counted(l) && Spaced(l, pace) && l.Acts(n)
    ensures Spaced(Turn(l, n, gmail, pace, now), pace)
  {
    OnlyPass(l, n);
    match Act(l.c, pace, now)
    case SendsFirst => DaysAtLeast(now - l.c.sentAt.value, pace.first);
    case SendsSecond => DaysAtLeast(now - l.c.lastEmailAt.value, pace.second);
    case _ =>
  }

  lemma FinishKeepsSpaced(l: Life, e: Event, gmail: bool, pace: Pace)
    requires Counted(l) && Spaced(l, pace) && EngineStamps(l, e) && e.Finish?
    ensures Spaced(Next(l, e, gmail, pace), pace)
  {
    if l.Sends(e.n) {
      OnlyPass(l, e.n);
    }
  }

  lemma OthersKeepSpaced(l: Life, e: Event, l': Life, gmail: bool, pace: Pace)
    requires Counted(l) && Spaced(l, pace) && EngineStamps(l, e) && Harmless(l, e) && Steps(l, e, l', gmail, pace)
    requires e.Manual? || e.Check? || e.Delete? || e.List?
    ensures Spaced(l', pace)
  {
    assert l'.sends == l.sends && l'.c.lastEmailAt == l.c.lastEmailAt;
  }

  lemma NextKeepsSpaced(l: Life, e: Event, l': Life, gmail: bool, pace: Pace)
    requires Counted(l) && Spaced(l, pace) && EngineStamps(l, e) && Harmless(l, e) && Steps(l, e, l', gmail, pace)
    ensures Spaced(l', pace)
  {
    if TakesTurn(l, e) {
      OnlyPass(l, e.n);
      TurnKeepsSpaced(l, e.n, gmail, pace, e.now);
    } else if e.Finish? {
      FinishKeepsSpaced(l, e, gmail, pace);
    } else if !e.Look? && !e.Answer? {
      OthersKeepSpaced(l, e, l', gmail, pace);
    }
  }

  ghost predicate Proper(ls: seq<Life>, es: seq<Event>)
    requires |ls| == |es| + 1
  {
    forall i :: 0 <= i < |es| ==> EngineStamps(ls[i], es[i])
  }

  /** With timestamps written only by the engine, the first follow-up goes out at least
      `first` days after the outreach and the second at least `second` days after it. */
  lemma {:induction false} StagesApart(ls: seq<Life>, es: seq<Event>, gmail: bool, pace: Pace, k: nat)
    requires IsLife(ls, es, gmail, pace) && AllHarmless(ls, es) && Proper(ls, es) && k < |ls|
    ensures Spaced(ls[k], pace)
  {
    if k > 0 {
      StagesApart(ls, es, gmail, pace, k - 1);
      LifeCounted(ls, es, gmail, pace, k - 1);
      NextKeepsSpaced(ls[k - 1], es[k - 1], ls[k], gmail, pace);
    }
  }

  // ----- giving up -----

  /** A mail goes out ... */
  predicate Mails(l: Life, e: Event) {
    e.Finish? && e.delivers && l.Sends(e.n)
  }

  /** ... and the update that records it is accepted. */
  predicate Records(l: Life, n: nat) {
    l.Sends(n) && l.Home() && Accepts(l.c.status, l.stages[n].to)
  }

  /** The record of this mail is refused, while that of an earlier one stays. */
  predicate Refused(l: Life, e: Event) {
    Mails(l, e) && !Records(l, e.n) && l.c.lastEmailAt.Some? && l.c.lastEmailAt.value < e.leavesAt
  }

  /** The last mail of the first k events was refused so. */
  ghost predicate LastRefused(ls: seq<Life>, es: seq<Event>, k: nat)
    requires |ls| == |es| + 1 && k <= |es|
    decreases k
  {
    k > 0 && if Mails(ls[k - 1], es[k - 1]) then Refused(ls[k - 1], es[k - 1]) else LastRefused(ls, es, k - 1)
  }

  /** The last mail has no record that is as late. */
  predicate Outdated(l: Life) {
    l.sends != [] && l.c.lastEmailAt.Some? && l.c.lastEmailAt.value < l.sends[|l.sends| - 1]
  }

  lemma UnmailedKeeps(l: Life, e: Event, l': Life, gmail: bool, pace: Pace)
    requires Steps(l, e, l', gmail, pace) && EngineStamps(l, e) && !Mails(l, e)
    ensures l'.sends == l.sends && l'.c.lastEmailAt == l.c.lastEmailAt
  {
  }

  lemma StepOutdated(l: Life, e: Event, l': Life, gmail: bool, pace: Pace)
    requires Steps(l, e, l', gmail, pace) && EngineStamps(l, e)
    ensures Outdated(l') <==> if Mails(l, e) then Refused(l, e) else Outdated(l)
  {
    if !Mails(l, e) {
      UnmailedKeeps(l, e, l', gmail, pace);
    }
  }

  lemma {:induction false} OutdatedIffRefused(ls: seq<Life>, es: seq<Event>, gmail: bool, pace: Pace, k: nat)
    requires IsLife(ls, es, gmail, pace) && Proper(ls, es) && k < |ls|
    ensures Outdated(ls[k]) <==> LastRefused(ls, es, k)
  {
    if k > 0 {
      OutdatedIffRefused(ls, es, gmail, pace, k - 1);
      StepOutdated(ls[k - 1], es[k - 1], ls[k], gmail, pace);
    }
  }

  /** The engine gives up too soon, should its turn come at `now`. */
  predicate TooSoon(l: Life, pace: Pace, now: Instant) {
    Act(l.c, pace, now) == GivesUp && l.sends != [] && now < l.sends[|l.sends| - 1] + pace.last * DAY
  }

  ghost predicate MayGiveUpTooSoon(l: Life, pace: Pace) {
    exists now :: TooSoon(l, pace, now)
  }

  lemma TooSoonIffOutdated(l: Life, pace: Pace)
    requires l.c.status == FollowUp2
    ensures MayGiveUpTooSoon(l, pace) <==> Outdated(l)
  {
    if Outdated(l) {
      var now := l.c.lastEmailAt.value + pace.last * DAY;
      DaysAtLeast(pace.last * DAY, pace.last);
      assert TooSoon(l, pace, now);
    }
    if now :| TooSoon(l, pace, now) {
      DaysAtLeast(now - l.c.lastEmailAt.value, pace.last);
    }
  }

  /** On every run with timestamps written only by the engine, whatever other requests do and
      whether or not passes overlap: the engine may give up sooner than `last` days after its
      last mail if and only if the record of that mail was refused while an earlier one
      stayed. */
  lemma GivesUpTooSoonIff(ls: seq<Life>, es: seq<Event>, gmail: bool, pace: Pace, k: nat)
    requires IsLife(ls, es, gmail, pace) && Proper(ls, es) && k < |ls| && ls[k].c.status == FollowUp2
    ensures MayGiveUpTooSoon(ls[k], pace) <==> LastRefused(ls, es, k)
  {
    OutdatedIffRefused(ls, es, gmail, pace, k);
    TooSoonIffOutdated(ls[k], pace);
  }

  lemma StepMailed(l: Life, e: Event, l': Life, gmail: bool, pace: Pace)
    requires Steps(l, e, l', gmail, pace) && EngineStamps(l, e) && (l.c.lastEmailAt.Some? ==> l.sends != [])
    ensures l'.c.lastEmailAt.Some? ==> l'.sends != []
  {
    if !Mails(l, e) {
      UnmailedKeeps(l, e, l', gmail, pace);
    }
  }

  /** And it never gives up before it has sent something. */
  lemma {:induction false} GivesUpAfterMail(ls: seq<Life>, es: seq<Event>, gmail: bool, pace: Pace, k: nat)
    requires IsLife(ls, es, gmail, pace) && Proper(ls, es) && k < |ls|
    ensures ls[k].c.lastEmailAt.Some? ==> ls[k].sends != []
    ensures forall now :: Act(ls[k].c, pace, now) == GivesUp ==> ls[k].sends != []
  {
    if k > 0 {
      GivesUpAfterMail(ls, es, gmail, pace, k - 1);
      StepMailed(ls[k - 1], es[k - 1], ls[k], gmail, pace);
    }
  }
}
