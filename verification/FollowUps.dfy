/** The tracker, the follow-up engine and the link check of source_agents/backlink.py. */
module FollowUps {
  import opened Basics
  import opened Campaigns
  import opened Wrappers

  /** Campaigns under the keys they were created with. */
  type Book = map<Name, Campaign>

  /** The tracker's update of whatever is stored under the id. */
  function Posted(book: Book, id: Name, to: Status, stamps: Stamps, at: Instant): Book {
    if id in book then book[id := Update(book[id], to, stamps, at)] else book
  }

  function Due(book: Book, now: Instant): set<Name> {
    set id | id in book && Needs(book[id], now)
  }

  /** Due are the campaigns in one of the three statuses of the sequence whose next follow-up
      is not in the future. */
  lemma DueIff(book: Book, now: Instant, id: Name)
    requires id in book
    ensures id in Due(book, now) <==>
      && (book[id].status == OutreachSent || book[id].status == FollowUp1 || book[id].status == FollowUp2)
      && book[id].nextFollowUpAt.Some? && book[id].nextFollowUpAt.value <= now
  {
  }

  class CampaignTracker {
    var campaigns: Book

    constructor ()
      ensures campaigns == map[]
    {
      campaigns := map[];
    }

    /** None if there is no such campaign or it refuses the transition. */
    method UpdateStatus(id: Name, to: Status, stamps: Stamps, at: Instant) returns (r: Option<Campaign>)
      modifies this
      ensures r == if id in old(campaigns) then Updated(old(campaigns)[id], to, stamps, at) else None
      ensures campaigns == if r.Some? then old(campaigns)[id := r.value] else old(campaigns)
      ensures campaigns == Posted(old(campaigns), id, to, stamps, at)
    {
      if id !in campaigns {
        return None;
      }
      var c := campaigns[id];
      if to !in Successors(c.status) && to != Dead {
        return None;
      }
      c := c.(status := to, updatedAt := at);
      c := Stamped(c, stamps);
      campaigns := campaigns[id := c];
      return Some(c);
    }

    /** The campaigns due, each once. */
    method NeedingFollowUp(now: Instant) returns (ids: seq<Name>)
      ensures forall id :: id in ids <==> id in Due(campaigns, now)
      ensures forall i, j :: 0 <= i < j < |ids| ==> ids[i] != ids[j]
    {
      ids := [];
      var left := campaigns.Keys;
      while left != {}
        invariant left <= campaigns.Keys
        invariant forall id :: id in ids <==> id in Due(campaigns, now) && id !in left
        invariant forall i, j :: 0 <= i < j < |ids| ==> ids[i] != ids[j]
        decreases left
      {
        var id :| id in left;
        left := left - {id};
        if Needs(campaigns[id], now) {
          ids := ids + [id];
        }
      }
    }
  }

  // ----- a pass -----

  function WithReply(book: Book, key: Name, at: Instant): Book {
    if key in book then book[key := book[key].(lastReplyAt := Some(at))] else book
  }

  /** The book after an uninterrupted visit to the campaign c, stored under `key` if it has
      not been deleted.  Its updates go by its own id. */
  function VisitedIn(book: Book, key: Name, c: Campaign, gmail: bool, pace: Pace, v: Visit): Book {
    match Decide(c, gmail, pace, v)
    case Replied =>
      Posted(WithReply(book, key, v.replyAt), c.id, Negotiating, NO_STAMPS.(lastReplyAt := Write(Some(v.replyAt))),
             v.replyAt)
    case SendsFirst =>
      if gmail && v.delivers then Posted(book, c.id, FollowUp1, SendStamps(pace, FollowUp1, v.doneAt), v.doneAt) else book
    case SendsSecond =>
      if gmail && v.delivers then Posted(book, c.id, FollowUp2, SendStamps(pace, FollowUp2, v.doneAt), v.doneAt) else book
    case GivesUp => Posted(book, c.id, Dead, NO_STAMPS.(reason := Some(NoResponse)), v.now)
    case Waits => book
  }

  /** A campaign becomes what its own life says, wherever the updates go; and if it is
      stored under its own id, no other campaign changes. */
  lemma VisitedLands(book: Book, key: Name, gmail: bool, pace: Pace, v: Visit)
    requires key in book
    ensures var c := book[key]; var after := VisitedIn(book, key, c, gmail, pace, v);
      && key in after && after[key] == Visited(c, c.id == key, gmail, pace, v)
      && (c.id == key ==> after == book[key := after[key]])
  {
  }

  /** What a pass does to each campaign; what other requests do to the book before its n-th
      visit, and the campaign of that visit if they have deleted it. */
  datatype Setting = Setting(decide: (Name, Campaign) -> Action, visited: (Name, Campaign, Book) -> Book,
                             alone: (Name, Campaign) -> Campaign, delivers: (Name, Campaign) -> bool,
                             meanwhile: (nat, Book) -> Book, deleted: nat -> Campaign)

  function SettingOf(gmail: bool, pace: Pace, world: Name -> Visit, meanwhile: (nat, Book) -> Book,
                     deleted: nat -> Campaign): Setting {
    Setting((id, c) => Decide(c, gmail, pace, world(id)),
            (id, c, book) => VisitedIn(book, id, c, gmail, pace, world(id)),
            (id, c) => Visited(c, true, gmail, pace, world(id)),
            (id, c) => Delivers(c, gmail, pace, world(id)),
            meanwhile, deleted)
  }

  function ActionOn(book: Book, s: Setting, id: Name): Action
    requires id in book
  {
    s.decide(id, book[id])
  }

  /** The campaigns in a set on which the engine takes an action that satisfies `which`. */
  ghost function Acting(book: Book, s: Setting, ids: set<Name>, which: Action -> bool): set<Name>
    requires ids <= book.Keys
  {
    set id | id in ids && which(ActionOn(book, s, id))
  }

  function After(book: Book, s: Setting, ids: set<Name>): Book
    requires ids <= book.Keys
  {
    map id | id in book :: if id in ids then s.alone(id, book[id]) else book[id]
  }

  datatype Results = Results(processed: nat, followUpsSent: nat, repliesDetected: nat, markedDead: nat)

  /** The counts a pass over these campaigns reports. */
  ghost predicate Reports(r: Results, book: Book, s: Setting, ids: set<Name>)
    requires ids <= book.Keys
  {
    && r.processed == |ids|
    && r.followUpsSent == |Acting(book, s, ids, Tries)|
    && r.repliesDetected == |Acting(book, s, ids, a => a == Replied)|
    && r.markedDead == |Acting(book, s, ids, a => a == GivesUp)|
  }

  function Tally(r: Results, a: Action): Results {
    Results(r.processed + 1,
            if Tries(a) then r.followUpsSent + 1 else r.followUpsSent,
            if a == Replied then r.repliesDetected + 1 else r.repliesDetected,
            if a == GivesUp then r.markedDead + 1 else r.markedDead)
  }

  lemma OneMoreActing(book: Book, s: Setting, ids: set<Name>, id: Name, which: Action -> bool)
    requires ids + {id} <= book.Keys && id !in ids
    ensures |Acting(book, s, ids + {id}, which)| ==
      |Acting(book, s, ids, which)| + (if which(ActionOn(book, s, id)) then 1 else 0)
  {
    var before, after := Acting(book, s, ids, which), Acting(book, s, ids + {id}, which);
    assert after == if which(ActionOn(book, s, id)) then before + {id} else before;
  }

  lemma TallyReports(r: Results, book: Book, s: Setting, ids: set<Name>, id: Name)
    requires ids + {id} <= book.Keys && id !in ids && Reports(r, book, s, ids)
    ensures Reports(Tally(r, ActionOn(book, s, id)), book, s, ids + {id})
  {
    OneMoreActing(book, s, ids, id, Tries);
    OneMoreActing(book, s, ids, id, a => a == Replied);
    OneMoreActing(book, s, ids, id, a => a == GivesUp);
  }

  /** The mails that really went out. */
  ghost function Delivered(book: Book, s: Setting, ids: set<Name>): set<Name>
    requires ids <= book.Keys
  {
    set id | id in ids && s.delivers(id, book[id])
  }

  /** The count of follow-ups sent also counts failures: it is the number that went out just
      when every one that was tried did. */
  lemma SentCountsTries(r: Results, book: Book, gmail: bool, pace: Pace, world: Name -> Visit, s: Setting, ids: set<Name>)
    requires ids <= book.Keys && s == SettingOf(gmail, pace, world, s.meanwhile, s.deleted) && Reports(r, book, s, ids)
    ensures |Delivered(book, s, ids)| <= r.followUpsSent
    ensures |Delivered(book, s, ids)| == r.followUpsSent <==>
      forall id :: id in ids && Tries(ActionOn(book, s, id)) ==> gmail && world(id).delivers
  {
    var delivered, tried := Delivered(book, s, ids), Acting(book, s, ids, Tries);
    Subset(delivered, tried);
    if |delivered| == |tried| {
      forall id | id in ids && Tries(ActionOn(book, s, id)) ensures gmail && world(id).delivers {
        assert id in tried && id in delivered;
      }
    } else {
      var id :| id in tried && id !in delivered;
      assert Tries(ActionOn(book, s, id));
    }
  }

  lemma Subset(small: set<Name>, large: set<Name>)
    requires small <= large
    ensures |small| <= |large|
    ensures |small| == |large| <==> forall id :: id in large ==> id in small
  {
    var rest := large - small;
    assert large == small + rest;
    assert rest == {} <==> forall id :: id in large ==> id in small;
  }

  /** One visit: other requests first, then the engine on the campaign as it then is. */
  function VisitedNext(s: Setting, n: nat, id: Name, book: Book, r: Results): (Book, Results) {
    var now := s.meanwhile(n, book);
    var c := if id in now then now[id] else s.deleted(n);
    (s.visited(id, c, now), Tally(r, s.decide(id, c)))
  }

  /** The book and the counts after n visits of a pass over these campaigns. */
  function Passed(s: Setting, ids: seq<Name>, n: nat, book: Book): (Book, Results)
    requires n <= |ids|
  {
    if n == 0 then (book, Results(0, 0, 0, 0))
    else
      var (before, r) := Passed(s, ids, n - 1, book);
      VisitedNext(s, n - 1, ids[n - 1], before, r)
  }

  lemma NextVisit(s: Setting, gmail: bool, pace: Pace, world: Name -> Visit, meanwhile: (nat, Book) -> Book,
                  deleted: nat -> Campaign, ids: seq<Name>, n: nat, book: Book, before: Book, r: Results)
    requires s == SettingOf(gmail, pace, world, meanwhile, deleted) && n < |ids| && (before, r) == Passed(s, ids, n, book)
    ensures var now, id := meanwhile(n, before), ids[n];
      var c := if id in now then now[id] else deleted(n);
      Passed(s, ids, n + 1, book) ==
        (VisitedIn(now, id, c, gmail, pace, world(id)), Tally(r, Decide(c, gmail, pace, world(id))))
  {
  }

  /** These are the campaigns due, each once. */
  ghost predicate Lists(ids: seq<Name>, due: set<Name>) {
    (forall id :: id in ids <==> id in due) && forall i, j :: 0 <= i < j < |ids| ==> ids[i] != ids[j]
  }

  // ----- a pass that nothing disturbs -----

  /** The book and the counts when the campaigns in `done` have been visited. */
  ghost predicate Progress(book: Book, s: Setting, done: set<Name>, campaigns: Book, r: Results)
    requires done <= book.Keys
  {
    campaigns == After(book, s, done) && Reports(r, book, s, done)
  }

  lemma AfterOneMore(book: Book, s: Setting, done: set<Name>, id: Name, campaigns: Book, r: Results, campaigns': Book,
                     a: Action)
    requires done <= book.Keys && id in book && id !in done && Progress(book, s, done, campaigns, r)
    requires campaigns' == campaigns[id := s.alone(id, book[id])] && a == ActionOn(book, s, id)
    ensures Progress(book, s, done + {id}, campaigns', Tally(r, a))
  {
    TallyReports(r, book, s, done, id);
    assert campaigns' == After(book, s, done + {id});
  }

  function Members(ids: seq<Name>, n: nat): set<Name>
    requires n <= |ids|
  {
    set i | 0 <= i < n :: ids[i]
  }

  lemma MembersGrow(ids: seq<Name>, n: nat)
    requires n < |ids| && forall i, j :: 0 <= i < j < |ids| ==> ids[i] != ids[j]
    ensures Members(ids, n + 1) == Members(ids, n) + {ids[n]} && ids[n] !in Members(ids, n)
  {
  }

  /** No other request changes a campaign meanwhile. */
  ghost predicate Undisturbed(s: Setting) {
    forall k: nat, b: Book {:trigger s.meanwhile(k, b)} :: s.meanwhile(k, b) == b
  }

  /** A visit to a campaign stored under its own id changes that campaign alone. */
  ghost predicate Lands(s: Setting, id: Name) {
    forall b: Book {:trigger s.visited(id, b[id], b)} ::
      id in b && b[id].id == id ==> s.visited(id, b[id], b) == b[id := s.alone(id, b[id])]
  }

  lemma SettingLands(gmail: bool, pace: Pace, world: Name -> Visit, s: Setting, id: Name)
    requires s == SettingOf(gmail, pace, world, s.meanwhile, s.deleted)
    ensures Lands(s, id)
  {
    forall b: Book {:trigger s.visited(id, b[id], b)} | id in b && b[id].id == id
      ensures s.visited(id, b[id], b) == b[id := s.alone(id, b[id])]
    {
      VisitedLands(b, id, gmail, pace, world(id));
    }
  }

  lemma PassedOneMore(s: Setting, n: nat, id: Name, book: Book, done: set<Name>, before: Book, r: Results,
                      after: (Book, Results))
    requires Undisturbed(s) && Lands(s, id) && done <= book.Keys && Progress(book, s, done, before, r)
    requires id in book && book[id].id == id && id !in done
    requires after == VisitedNext(s, n, id, before, r)
    ensures Progress(book, s, done + {id}, after.0, after.1)
  {
    assert before[id] == book[id];
    AfterOneMore(book, s, done, id, before, r, after.0, s.decide(id, book[id]));
  }

  lemma NoProgress(book: Book, s: Setting, ids: seq<Name>)
    ensures Members(ids, 0) == {} && Progress(book, s, {}, book, Results(0, 0, 0, 0))
  {
    assert After(book, s, {}) == book;
  }

  lemma {:induction false} PassedProgress(s: Setting, ids: seq<Name>, n: nat, book: Book)
    requires n <= |ids| && Undisturbed(s) && forall i, j :: 0 <= i < j < |ids| ==> ids[i] != ids[j]
    requires forall id :: id in ids ==> id in book && book[id].id == id && Lands(s, id)
    ensures Members(ids, n) <= book.Keys
    ensures Progress(book, s, Members(ids, n), Passed(s, ids, n, book).0, Passed(s, ids, n, book).1)
  {
    if n == 0 {
      NoProgress(book, s, ids);
    } else {
      var before := Passed(s, ids, n - 1, book);
      PassedProgress(s, ids, n - 1, book);
      MembersGrow(ids, n - 1);
      assert ids[n - 1] in ids;
      PassedOneMore(s, n - 1, ids[n - 1], book, Members(ids, n - 1), before.0, before.1, Passed(s, ids, n, book));
    }
  }

  /** If no other request changes a campaign meanwhile and those due are stored under their
      own ids, a pass visits exactly these, leaves the others alone and counts its actions. */
  lemma UndisturbedPass(gmail: bool, pace: Pace, world: Name -> Visit, s: Setting, ids: seq<Name>, book: Book,
                        due: set<Name>)
    requires s == SettingOf(gmail, pace, world, s.meanwhile, s.deleted)
    requires Lists(ids, due) && due <= book.Keys && Undisturbed(s) && forall id :: id in due ==> book[id].id == id
    ensures Progress(book, s, due, Passed(s, ids, |ids|, book).0, Passed(s, ids, |ids|, book).1)
  {
    assert Members(ids, |ids|) == due by {
      assert forall id :: id in due ==> id in ids;
    }
    forall id | id in ids ensures Lands(s, id) {
      SettingLands(gmail, pace, world, s, id);
    }
    PassedProgress(s, ids, |ids|, book);
  }

  class FollowUpEngine {
    const tracker: CampaignTracker
    const gmail: bool
    const pace: Pace

    constructor (tracker: CampaignTracker, gmail: bool, pace: Pace)
      ensures this.tracker == tracker && this.gmail == gmail && this.pace == pace
    {
      this.tracker, this.gmail, this.pace := tracker, gmail, pace;
    }

    /** A failed send, or none for want of a client, changes nothing. */
    method SendFollowUp(c: Campaign, to: Status, v: Visit)
      modifies tracker
      ensures tracker.campaigns ==
        if gmail && v.delivers then Posted(old(tracker.campaigns), c.id, to, SendStamps(pace, to, v.doneAt), v.doneAt)
        else old(tracker.campaigns)
    {
      if !gmail || !v.delivers {
        return;
      }
      var _ := tracker.UpdateStatus(c.id, to, SendStamps(pace, to, v.doneAt), v.doneAt);
    }

    /** A visit to the campaign c, stored under `key` if it has not been deleted. */
    method VisitOne(key: Name, c: Campaign, v: Visit) returns (a: Action)
      requires key in tracker.campaigns ==> c == tracker.campaigns[key]
      modifies tracker
      ensures a == Decide(c, gmail, pace, v)
      ensures tracker.campaigns == VisitedIn(old(tracker.campaigns), key, c, gmail, pace, v)
    {
      a := Waits;
      if c.hasThread && gmail && v.replies == Found {
        if key in tracker.campaigns {
          tracker.campaigns := tracker.campaigns[key := c.(lastReplyAt := Some(v.replyAt))];
        }
        var _ := tracker.UpdateStatus(c.id, Negotiating, NO_STAMPS.(lastReplyAt := Write(Some(v.replyAt))), v.replyAt);
        return Replied;
      }
      match c.status
      case OutreachSent =>
        if Waited(c.sentAt, v.now, pace.first) {
          SendFollowUp(c, FollowUp1, v);
          return SendsFirst;
        }
      case FollowUp1 =>
        if Waited(c.lastEmailAt, v.now, pace.second) {
          SendFollowUp(c, FollowUp2, v);
          return SendsSecond;
        }
      case FollowUp2 =>
        if Waited(c.lastEmailAt, v.now, pace.last) {
          var _ := tracker.UpdateStatus(c.id, Dead, NO_STAMPS.(reason := Some(NoResponse)), v.now);
          return GivesUp;
        }
      case _ =>
    }

    /** One pass over the campaigns due at its start; `meanwhile` is what other requests do
        to the book before each visit, `deleted` the campaign of a visit that they delete. */
    method ProcessFollowUps(start: Instant, world: Name -> Visit, meanwhile: (nat, Book) -> Book, deleted: nat -> Campaign)
      returns (results: Results, ghost ids: seq<Name>)
      modifies tracker
      ensures Lists(ids, Due(old(tracker.campaigns), start))
      ensures (tracker.campaigns, results) ==
        Passed(SettingOf(gmail, pace, world, meanwhile, deleted), ids, |ids|, old(tracker.campaigns))
    {
      ghost var book, s := tracker.campaigns, SettingOf(gmail, pace, world, meanwhile, deleted);
      var due := tracker.NeedingFollowUp(start);
      ids := due;
      results := Results(0, 0, 0, 0);
      for i := 0 to |due|
        invariant (tracker.campaigns, results) == Passed(s, due, i, book)
      {
        NextVisit(s, gmail, pace, world, meanwhile, deleted, due, i, book, tracker.campaigns, results);
        tracker.campaigns := meanwhile(i, tracker.campaigns);
        var c := if due[i] in tracker.campaigns then tracker.campaigns[due[i]] else deleted(i);
        var a := VisitOne(due[i], c, world(due[i]));
        results := Tally(results, a);
      }
    }
  }

  class OutreachAgent {
    const tracker: CampaignTracker

    constructor (tracker: CampaignTracker)
      ensures this.tracker == tracker
    {
      this.tracker := tracker;
    }

    /** `live` is what fetching the page found. */
    method VerifyLink(id: Name, live: bool, at: Instant) returns (found: bool)
      modifies tracker
      ensures found == (id in old(tracker.campaigns))
      ensures tracker.campaigns ==
        if found then old(tracker.campaigns)[id := Checked(old(tracker.campaigns)[id], live, at)] else old(tracker.campaigns)
    {
      if id !in tracker.campaigns {
        return false;
      }
      if live {
        var _ := tracker.UpdateStatus(id, Acquired, NO_STAMPS.(verifiedAt := Write(Some(at))), at);
      } else {
        var c := tracker.campaigns[id];
        c := c.(failures := c.failures + 1);
        tracker.campaigns := tracker.campaigns[id := c];
        if c.failures >= 3 {
          var _ := tracker.UpdateStatus(id, Dead, NO_STAMPS.(reason := Some(LinkNotPlaced)), at);
        }
      }
      return true;
    }
  }
}
