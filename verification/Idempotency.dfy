/** Idempotent commands (`_idempotency_get`, `_idempotency_put` and the command branch
    of `_generic_handler` in api/app.py), with the awaits between their store accesses
    as points where other requests may run. */
module Idempotency {
  import opened Wrappers

  // ----- the key -----

  /** The text that is hashed; SHA-256 is taken to be collision-free. */
  datatype Digest = Digest(text: string)

  function Framed(org: string, operation: string, key: string): Digest {
    Digest(org + ":" + operation + ":" + key)
  }

  /** A prefix without colons ends at the first colon. */
  lemma FirstColon(a: string, b: string, s: string, t: string)
    requires ':' !in a && ':' !in b && a + ":" + s == b + ":" + t
    ensures a == b && s == t
  {
    var x, y := a + ":" + s, b + ":" + t;
    assert x[|a|] == ':' && y[|b|] == ':';
    assert forall i :: 0 <= i < |a| ==> x[i] == a[i];
    assert forall i :: 0 <= i < |b| ==> y[i] == b[i];
    assert a == x[..|a|] && b == y[..|b|];
    assert s == x[|a| + 1..] && t == y[|b| + 1..];
  }

  /** Requests share a stored entry only if organisation, operation and key are the
      same: no organisation id or operation name has a colon, keys may. */
  lemma FramingIsInjective(org: string, op: string, key: string, org': string, op': string, key': string)
    requires ':' !in org && ':' !in op && ':' !in org' && ':' !in op'
    requires Framed(org, op, key) == Framed(org', op', key')
    ensures org == org' && op == op' && key == key'
  {
    var rest, rest' := op + ":" + key, op' + ":" + key';
    assert org + ":" + op + ":" + key == org + ":" + rest;
    assert org' + ":" + op' + ":" + key' == org' + ":" + rest';
    FirstColon(org, org', rest, rest');
    FirstColon(op, op', key, key');
  }

  // ----- the store -----

  /** A task is named by the request that drew its identifiers. */
  type Task = nat

  /** `until` is None in the in-process dictionary, which keeps entries for ever. */
  datatype Entry = Entry(task: Task, until: Option<int>)

  type Store = map<Digest, Entry>

  const REDIS_TTL := Some(86400)

  predicate Live(store: Store, d: Digest, now: int) {
    d in store && (store[d].until.None? || now < store[d].until.value)
  }

  function Until(ttl: Option<nat>, now: int): Option<int> {
    if ttl.None? then None else Some(now + ttl.value)
  }

  // ----- requests -----

  /** Where a command is: not yet looked up, looked up in vain, its insertion refused by an
      entry, its own entry inserted but its task not sent yet, failed without an answer, or
      answered with a task. */
  datatype Phase = Arrived | Missed | Refused | Inserted(at: int) | Failed | Answered(task: Task)

  datatype Req = Req(digest: Digest, phase: Phase)

  /** An entry inserted, at the instant of the server. */
  datatype Claim = Claim(digest: Digest, task: Task, at: int)

  /** The claimed task sent to the workers. */
  datatype Dispatch = Dispatch(claim: Claim, at: int)

  datatype Sys = Sys(store: Store, reqs: seq<Req>, claims: seq<Claim>, sent: seq<Dispatch>)

  datatype Step =
    | Arrive(digest: Digest)  // a keyed command comes in
    | Read(r: nat)            // _idempotency_get
    | Insert(r: nat)          // SET NX
    | Reread(r: nat)          // the GET after a refused SET NX
    | Send(r: nat)            // send_task, once the reply to SET NX is there
    | Fail(r: nat)            // the connection or send_task raises, or the client is gone

  function Move(s: Sys, r: nat, phase: Phase): seq<Req>
    requires r < |s.reqs|
  {
    s.reqs[r := s.reqs[r].(phase := phase)]
  }

  predicate Ready(s: Sys, step: Step) {
    match step
    case Arrive(_) => true
    case Read(r) => r < |s.reqs| && s.reqs[r].phase.Arrived?
    case Insert(r) => r < |s.reqs| && s.reqs[r].phase.Missed?
    case Reread(r) => r < |s.reqs| && s.reqs[r].phase.Refused?
    case Send(r) => r < |s.reqs| && s.reqs[r].phase.Inserted?
    case Fail(r) => r < |s.reqs| && !s.reqs[r].phase.Answered?
  }

  /** One atomic step; a step that the request is not ready for changes nothing. */
  function Next(s: Sys, step: Step, now: int, ttl: Option<nat>): Sys {
    if !Ready(s, step) then s
    else
      match step
      case Arrive(d) => s.(reqs := s.reqs + [Req(d, Arrived)])
      case Read(r) =>
        var d := s.reqs[r].digest;
        s.(reqs := Move(s, r, if Live(s.store, d, now) then Answered(s.store[d].task) else Missed))
      case Insert(r) =>
        var d := s.reqs[r].digest;
        if Live(s.store, d, now) then s.(reqs := Move(s, r, Refused))
        else Sys(s.store[d := Entry(r, Until(ttl, now))], Move(s, r, Inserted(now)), s.claims + [Claim(d, r, now)], s.sent)
      case Reread(r) =>
        var d := s.reqs[r].digest;
        s.(reqs := Move(s, r, Answered(if Live(s.store, d, now) then s.store[d].task else r)))
      case Send(r) =>
        var claim := Claim(s.reqs[r].digest, r, s.reqs[r].phase.at);
        s.(reqs := Move(s, r, Answered(r)), sent := s.sent + [Dispatch(claim, now)])
      case Fail(r) => s.(reqs := Move(s, r, Failed))
  }

  // ----- what every step keeps -----

  ghost predicate Claimed(s: Sys, t: Task) {
    exists i :: 0 <= i < |s.claims| && s.claims[i].task == t
  }

  ghost predicate Dispatched(s: Sys, t: Task) {
    exists i :: 0 <= i < |s.sent| && s.sent[i].claim.task == t
  }

  /** b is at least a time-to-live after a; entries that never expire admit no b. */
  ghost predicate Apart(ttl: Option<nat>, a: int, b: int) {
    ttl.Some? && a + ttl.value <= b
  }

  ghost predicate Outlives(ttl: Option<nat>, at: int, e: Entry) {
    e.until.Some? ==> Apart(ttl, at, e.until.value)
  }

  /** Claims for one digest are a time-to-live apart, and the entry outlives the last of
      them by that much. */
  ghost predicate Spaced(s: Sys, ttl: Option<nat>) {
    && (forall i, j :: 0 <= i < j < |s.claims| && s.claims[i].digest == s.claims[j].digest ==>
          Apart(ttl, s.claims[i].at, s.claims[j].at))
    && (forall i :: 0 <= i < |s.claims| ==>
          s.claims[i].digest in s.store && Outlives(ttl, s.claims[i].at, s.store[s.claims[i].digest]))
  }

  lemma NextKeepsSpaced(s: Sys, step: Step, now: int, ttl: Option<nat>)
    requires Spaced(s, ttl)
    ensures Spaced(Next(s, step, now, ttl), ttl)
  {
  }

  /** The task t is one for the digest d, and was claimed. */
  ghost predicate Names(s: Sys, d: Digest, t: Task) {
    t < |s.reqs| && s.reqs[t].digest == d && Claimed(s, t)
  }

  /** The request that claims c is past its insertion. */
  ghost predicate Past(s: Sys, c: Claim) {
    && c.task < |s.reqs| && s.reqs[c.task].digest == c.digest
    && match s.reqs[c.task].phase
       case Inserted(at) => at == c.at
       case Failed => true
       case Answered(t) => t == c.task && Dispatched(s, t)
       case _ => false
  }

  /** A request that has inserted has claimed; one that is answered names a claimed task,
      or its own. */
  ghost predicate Honest(s: Sys, r: nat)
    requires r < |s.reqs|
  {
    match s.reqs[r].phase
    case Inserted(at) => Claim(s.reqs[r].digest, r, at) in s.claims
    case Answered(t) => t == r || Names(s, s.reqs[r].digest, t)
    case _ => true
  }

  /** A dispatch carries out a claim of a request it answers. */
  ghost predicate Carries(s: Sys, x: Dispatch) {
    x.claim in s.claims && x.claim.task < |s.reqs| && s.reqs[x.claim.task].phase == Answered(x.claim.task)
  }

  /** Entries and answers name claimed tasks, but for answers with a request's own task;
      claimed tasks are sent by their claimants, once, or not at all. */
  ghost predicate Truthful(s: Sys) {
    && (forall d :: d in s.store ==> Names(s, d, s.store[d].task))
    && (forall i :: 0 <= i < |s.claims| ==> Past(s, s.claims[i]))
    && (forall i, j :: 0 <= i < j < |s.claims| ==> s.claims[i].task != s.claims[j].task)
    && (forall r :: 0 <= r < |s.reqs| ==> Honest(s, r))
    && (forall i :: 0 <= i < |s.sent| ==> Carries(s, s.sent[i]))
    && (forall i, j :: 0 <= i < j < |s.sent| ==> s.sent[i].claim.task != s.sent[j].claim.task)
  }

  /** Claims and dispatches are never taken back. */
  lemma StillNamed(s: Sys, step: Step, now: int, ttl: Option<nat>)
    ensures var s' := Next(s, step, now, ttl);
      && (forall t :: Claimed(s, t) ==> Claimed(s', t)) && (forall t :: Dispatched(s, t) ==> Dispatched(s', t))
      && (forall d, t :: Names(s, d, t) ==> Names(s', d, t))
  {
    var s' := Next(s, step, now, ttl);
    forall t | Claimed(s, t) ensures Claimed(s', t) {
      var i :| 0 <= i < |s.claims| && s.claims[i].task == t;
      assert s'.claims[i] == s.claims[i];
    }
    forall t | Dispatched(s, t) ensures Dispatched(s', t) {
      var i :| 0 <= i < |s.sent| && s.sent[i].claim.task == t;
      assert s'.sent[i] == s.sent[i];
    }
  }

  lemma InsertKeepsTruthful(s: Sys, r: nat, now: int, ttl: Option<nat>)
    requires Truthful(s) && Ready(s, Insert(r))
    ensures Truthful(Next(s, Insert(r), now, ttl))
  {
    var s' := Next(s, Insert(r), now, ttl);
    StillNamed(s, Insert(r), now, ttl);
    if |s'.claims| > |s.claims| {
      assert s'.claims[|s.claims|].task == r;
    }
    forall q | 0 <= q < |s'.reqs| ensures Honest(s', q) {
      assert Honest(s, q);
    }
    forall i | 0 <= i < |s.claims| ensures s.claims[i].task != r && Past(s', s.claims[i]) {
      assert Past(s, s.claims[i]);
    }
    forall i | 0 <= i < |s.sent| ensures Carries(s', s.sent[i]) {
      assert Carries(s, s.sent[i]);
    }
  }

  lemma SendKeepsTruthful(s: Sys, r: nat, now: int, ttl: Option<nat>)
    requires Truthful(s) && Ready(s, Send(r))
    ensures Truthful(Next(s, Send(r), now, ttl))
  {
    var s' := Next(s, Send(r), now, ttl);
    StillNamed(s, Send(r), now, ttl);
    assert Honest(s, r) && s'.sent[|s.sent|].claim.task == r;
    forall q | 0 <= q < |s'.reqs| ensures Honest(s', q) {
      assert Honest(s, q);
    }
    forall i | 0 <= i < |s.claims| ensures Past(s', s.claims[i]) {
      assert Past(s, s.claims[i]);
    }
    forall i | 0 <= i < |s.sent| ensures s.sent[i].claim.task != r && Carries(s', s.sent[i]) {
      assert Carries(s, s.sent[i]);
    }
  }

  lemma NextKeepsTruthful(s: Sys, step: Step, now: int, ttl: Option<nat>)
    requires Truthful(s)
    ensures Truthful(Next(s, step, now, ttl))
  {
    var s' := Next(s, step, now, ttl);
    if step.Insert? && Ready(s, step) {
      InsertKeepsTruthful(s, step.r, now, ttl);
    } else if step.Send? && Ready(s, step) {
      SendKeepsTruthful(s, step.r, now, ttl);
    } else {
      StillNamed(s, step, now, ttl);
      forall q | 0 <= q < |s'.reqs| ensures Honest(s', q) {
        assert q < |s.reqs| ==> Honest(s, q);
      }
      forall i | 0 <= i < |s.claims| ensures Past(s', s.claims[i]) {
        assert Past(s, s.claims[i]);
      }
      forall i | 0 <= i < |s.sent| ensures Carries(s', s.sent[i]) {
        assert Carries(s, s.sent[i]);
      }
    }
  }

  /** Whose task was claimed, and is not sent: its claimant waits, or failed. */
  ghost predicate Unsent(s: Sys, t: Task) {
    t < |s.reqs| && (s.reqs[t].phase.Inserted? || s.reqs[t].phase.Failed?)
  }

  /** An answer names a task that was not dispatched just when the task was never claimed,
      and then it is the request's own, or its claimant has not sent it. */
  lemma UndispatchedIff(s: Sys, r: nat)
    requires Truthful(s) && r < |s.reqs| && s.reqs[r].phase.Answered?
    ensures var t := s.reqs[r].phase.task;
      && (!Dispatched(s, t) <==> !Claimed(s, t) || Unsent(s, t))
      && (!Claimed(s, t) ==> t == r)
  {
    var t := s.reqs[r].phase.task;
    assert Honest(s, r);
    if Claimed(s, t) {
      var i :| 0 <= i < |s.claims| && s.claims[i].task == t;
      assert Past(s, s.claims[i]);
    }
    if Dispatched(s, t) {
      var i :| 0 <= i < |s.sent| && s.sent[i].claim.task == t;
      assert Carries(s, s.sent[i]);
    }
  }

  /** While no entry has expired: each digest has one claim, which its entry names, and
      every dispatch for it and every answer to it is that task. */
  ghost predicate Once(s: Sys) {
    && (forall i, j :: 0 <= i < j < |s.claims| ==> s.claims[i].digest != s.claims[j].digest)
    && (forall i :: 0 <= i < |s.claims| ==>
          s.claims[i].digest in s.store && s.store[s.claims[i].digest].task == s.claims[i].task)
    && (forall r :: 0 <= r < |s.reqs| ==> Settled(s, r))
    && (forall i, j :: 0 <= i < j < |s.sent| ==> s.sent[i].claim.digest != s.sent[j].claim.digest)
  }

  ghost predicate Settled(s: Sys, r: nat)
    requires r < |s.reqs|
  {
    var d := s.reqs[r].digest;
    match s.reqs[r].phase
    case Refused => d in s.store
    case Inserted(at) => d in s.store && s.store[d].task == r
    case Answered(t) => d in s.store && s.store[d].task == t
    case _ => true
  }

  ghost predicate AllLive(s: Sys, now: int) {
    forall d :: d in s.store ==> Live(s.store, d, now)
  }

  lemma NewlySent(s: Sys, r: nat)
    requires Truthful(s) && Once(s) && Ready(s, Send(r))
    ensures forall i :: 0 <= i < |s.sent| ==> s.sent[i].claim.digest != s.reqs[r].digest
  {
    forall i | 0 <= i < |s.sent| ensures s.sent[i].claim.digest != s.reqs[r].digest {
      assert Carries(s, s.sent[i]) && Settled(s, r);
      assert Past(s, s.sent[i].claim);
    }
  }

  lemma InsertKeepsOnce(s: Sys, r: nat, now: int, ttl: Option<nat>)
    requires Truthful(s) && Once(s) && AllLive(s, now) && Ready(s, Insert(r))
    ensures Once(Next(s, Insert(r), now, ttl))
  {
    var s' := Next(s, Insert(r), now, ttl);
    forall q | 0 <= q < |s'.reqs| ensures Settled(s', q) {
      assert Settled(s, q);
    }
  }

  lemma NextKeepsOnce(s: Sys, step: Step, now: int, ttl: Option<nat>)
    requires Truthful(s) && Once(s) && AllLive(s, now)
    ensures Once(Next(s, step, now, ttl))
  {
    var s' := Next(s, step, now, ttl);
    if step.Insert? && Ready(s, step) {
      InsertKeepsOnce(s, step.r, now, ttl);
    } else {
      forall r | 0 <= r < |s'.reqs| ensures Settled(s', r) {
        assert r < |s.reqs| ==> Settled(s, r);
      }
      if step.Send? && Ready(s, step) {
        NewlySent(s, step.r);
      }
    }
  }

  // ----- runs -----

  datatype Event = Event(step: Step, now: int)

  ghost function After(es: seq<Event>, ttl: Option<nat>): Sys {
    if es == [] then Sys(map[], [], [], [])
    else
      var last := es[|es| - 1];
      Next(After(es[..|es| - 1], ttl), last.step, last.now, ttl)
  }

  /** On every interleaving, two claims for one key are a time-to-live apart, and tasks
      are sent once, by their claimants. */
  lemma {:induction false} ClaimsApart(es: seq<Event>, ttl: Option<nat>)
    ensures Spaced(After(es, ttl), ttl) && Truthful(After(es, ttl))
  {
    if es != [] {
      var before, last := After(es[..|es| - 1], ttl), es[|es| - 1];
      ClaimsApart(es[..|es| - 1], ttl);
      NextKeepsSpaced(before, last.step, last.now, ttl);
      NextKeepsTruthful(before, last.step, last.now, ttl);
    }
  }

  lemma RedisClaimsADayApart(es: seq<Event>, i: nat, j: nat)
    requires i < j < |After(es, REDIS_TTL).claims|
    requires After(es, REDIS_TTL).claims[i].digest == After(es, REDIS_TTL).claims[j].digest
    ensures After(es, REDIS_TTL).claims[i].at + 86400 <= After(es, REDIS_TTL).claims[j].at
  {
    ClaimsApart(es, REDIS_TTL);
  }

  /** A task is dispatched at most once, whatever fails or expires. */
  lemma TaskSentOnce(es: seq<Event>, ttl: Option<nat>, i: nat, j: nat)
    requires i < |After(es, ttl).sent| && j < |After(es, ttl).sent|
    requires After(es, ttl).sent[i].claim.task == After(es, ttl).sent[j].claim.task
    ensures i == j
  {
    ClaimsApart(es, ttl);
  }

  ghost predicate Monotone(es: seq<Event>) {
    forall i, j :: 0 <= i < j < |es| ==> es[i].now <= es[j].now
  }

  /** Nothing is recorded later than `now`, and no task is sent before it is claimed. */
  ghost predicate Dated(s: Sys, now: int) {
    && (forall r :: 0 <= r < |s.reqs| && s.reqs[r].phase.Inserted? ==> s.reqs[r].phase.at <= now)
    && (forall i :: 0 <= i < |s.sent| ==> s.sent[i].claim.at <= s.sent[i].at)
  }

  lemma {:induction false} AlwaysDated(es: seq<Event>, ttl: Option<nat>, now: int)
    requires Monotone(es) && (es != [] ==> es[|es| - 1].now <= now)
    ensures Dated(After(es, ttl), now)
  {
    if es != [] {
      AlwaysDated(es[..|es| - 1], ttl, es[|es| - 1].now);
    }
  }

  /** Each task was sent within `delay` of its claim. */
  ghost predicate Prompt(s: Sys, delay: nat) {
    forall i :: 0 <= i < |s.sent| ==> s.sent[i].at <= s.sent[i].claim.at + delay
  }

  lemma EitherApart(s: Sys, ttl: Option<nat>, a: Claim, b: Claim)
    requires Spaced(s, ttl) && a in s.claims && b in s.claims && a != b && a.digest == b.digest && a.at <= b.at
    ensures Apart(ttl, a.at, b.at)
  {
    var x, y :| 0 <= x < |s.claims| && 0 <= y < |s.claims| && s.claims[x] == a && s.claims[y] == b;
    assert Apart(ttl, s.claims[x].at, s.claims[y].at) || Apart(ttl, s.claims[y].at, s.claims[x].at);
  }

  lemma BothCarry(s: Sys, i: nat, j: nat)
    requires Truthful(s) && i < |s.sent| && j < |s.sent| && i != j
    ensures s.sent[i].claim in s.claims && s.sent[j].claim in s.claims && s.sent[i].claim != s.sent[j].claim
  {
    assert Carries(s, s.sent[i]) && Carries(s, s.sent[j]);
  }

  lemma SentApart(s: Sys, ttl: Option<nat>, delay: nat, i: nat, j: nat)
    requires Spaced(s, ttl) && Truthful(s) && Prompt(s, delay) && i < |s.sent| && j < |s.sent| && i != j
    requires forall k :: 0 <= k < |s.sent| ==> s.sent[k].claim.at <= s.sent[k].at
    requires s.sent[i].claim.digest == s.sent[j].claim.digest && s.sent[i].claim.at <= s.sent[j].claim.at
    ensures ttl.Some? && s.sent[i].at + ttl.value - delay <= s.sent[j].at
  {
    BothCarry(s, i, j);
    EitherApart(s, ttl, s.sent[i].claim, s.sent[j].claim);
  }

  /** Dispatches for one key are a time-to-live apart, less what a dispatch waits for the
      reply to its insertion. */
  lemma DispatchesApart(es: seq<Event>, ttl: Option<nat>, delay: nat, i: nat, j: nat)
    requires Monotone(es) && Prompt(After(es, ttl), delay)
    requires i < |After(es, ttl).sent| && j < |After(es, ttl).sent| && i != j
    requires After(es, ttl).sent[i].claim.digest == After(es, ttl).sent[j].claim.digest
    requires After(es, ttl).sent[i].claim.at <= After(es, ttl).sent[j].claim.at
    ensures ttl.Some? && After(es, ttl).sent[i].at + ttl.value - delay <= After(es, ttl).sent[j].at
  {
    ClaimsApart(es, ttl);
    AlwaysDated(es, ttl, if es == [] then 0 else es[|es| - 1].now);
    SentApart(After(es, ttl), ttl, delay, i, j);
  }

  // ----- where an undispatched answer comes from -----

  /** Event k is the second look of request r, and the entry that refused it is gone. */
  ghost predicate FoundGone(es: seq<Event>, ttl: Option<nat>, r: nat, k: nat)
    requires k < |es|
  {
    var s := After(es[..k], ttl);
    es[k].step == Reread(r) && Ready(s, Reread(r)) && !Live(s.store, s.reqs[r].digest, es[k].now)
  }

  ghost predicate EverGone(es: seq<Event>, ttl: Option<nat>, r: nat) {
    exists k :: 0 <= k < |es| && FoundGone(es, ttl, r, k)
  }

  lemma GoneBefore(es: seq<Event>, ttl: Option<nat>, r: nat)
    requires es != []
    ensures EverGone(es, ttl, r) <==> EverGone(es[..|es| - 1], ttl, r) || FoundGone(es, ttl, r, |es| - 1)
  {
    var n := |es| - 1;
    forall k | 0 <= k < n ensures FoundGone(es, ttl, r, k) <==> FoundGone(es[..n], ttl, r, k) {
      assert es[..n][..k] == es[..k];
    }
    if EverGone(es[..n], ttl, r) {
      var k :| 0 <= k < n && FoundGone(es[..n], ttl, r, k);
      assert FoundGone(es, ttl, r, k);
    }
  }

  lemma WaitingClaimed(s: Sys, r: nat)
    requires Truthful(s) && r < |s.reqs| && s.reqs[r].phase.Inserted?
    ensures Claimed(s, r)
  {
    assert Honest(s, r);
    var i :| 0 <= i < |s.claims| && s.claims[i] == Claim(s.reqs[r].digest, r, s.reqs[r].phase.at);
  }

  lemma UnclaimedYet(s: Sys, r: nat)
    requires Truthful(s) && r < |s.reqs|
    requires s.reqs[r].phase.Arrived? || s.reqs[r].phase.Missed? || s.reqs[r].phase.Refused?
    ensures !Claimed(s, r) && forall d :: d in s.store ==> s.store[d].task != r
  {
    forall i | 0 <= i < |s.claims| ensures s.claims[i].task != r {
      assert Past(s, s.claims[i]);
    }
  }

  /** Only an insertion claims, and for the request that makes it. */
  lemma ClaimedBefore(s: Sys, step: Step, now: int, ttl: Option<nat>, t: Task)
    requires Claimed(Next(s, step, now, ttl), t) && !Claimed(s, t)
    ensures step == Insert(t) && Ready(s, step)
  {
    var s' := Next(s, step, now, ttl);
    forall i | 0 <= i < |s.claims| ensures s'.claims[i].task != t {
      assert s'.claims[i] == s.claims[i];
    }
  }

  ghost predicate Orphan(s: Sys, r: nat) {
    r < |s.reqs| && s.reqs[r].phase == Answered(r) && !Claimed(s, r)
  }

  /** A step makes an orphan of a request just by its finding the entry gone. */
  lemma StepOrphans(s: Sys, step: Step, now: int, ttl: Option<nat>, r: nat)
    requires Truthful(s)
    ensures Orphan(Next(s, step, now, ttl), r) <==>
      Orphan(s, r) || (step == Reread(r) && Ready(s, step) && !Live(s.store, s.reqs[r].digest, now))
  {
    StillNamed(s, step, now, ttl);
    if Claimed(Next(s, step, now, ttl), r) && !Claimed(s, r) {
      ClaimedBefore(s, step, now, ttl, r);
    }
    if r < |s.reqs| && !s.reqs[r].phase.Answered? {
      if s.reqs[r].phase.Inserted? {
        WaitingClaimed(s, r);
      } else if !s.reqs[r].phase.Failed? {
        UnclaimedYet(s, r);
      }
    }
  }

  /** The answers that name a task nobody claimed are those of requests that found the
      entry that had refused them gone. */
  lemma {:induction false} OrphanIffGone(es: seq<Event>, ttl: Option<nat>, r: nat)
    ensures Orphan(After(es, ttl), r) <==> EverGone(es, ttl, r)
  {
    if es != [] {
      OrphanIffGone(es[..|es| - 1], ttl, r);
      ClaimsApart(es[..|es| - 1], ttl);
      StepOrphans(After(es[..|es| - 1], ttl), es[|es| - 1].step, es[|es| - 1].now, ttl, r);
      GoneBefore(es, ttl, r);
    }
  }

  /** On every interleaving: an answer names a task that was not dispatched if and only if
      the request found the entry that had refused it gone, or the request that claimed the
      task has not sent it, or failed before it did. */
  lemma UndispatchedIffOrphaned(es: seq<Event>, ttl: Option<nat>, r: nat)
    requires r < |After(es, ttl).reqs| && After(es, ttl).reqs[r].phase.Answered?
    ensures var s := After(es, ttl); var t := s.reqs[r].phase.task;
      !Dispatched(s, t) <==> EverGone(es, ttl, r) || Unsent(s, t)
  {
    var s := After(es, ttl);
    ClaimsApart(es, ttl);
    OrphanIffGone(es, ttl, r);
    UndispatchedIff(s, r);
    assert s.reqs[r].phase.task != r ==> Honest(s, r);
  }

  // ----- within one time-to-live -----

  /** All that a run does, it does within one time-to-live. */
  ghost predicate Brief(es: seq<Event>, ttl: Option<nat>, start: int) {
    forall i :: 0 <= i < |es| ==> start <= es[i].now && (ttl.Some? ==> es[i].now < start + ttl.value)
  }

  /** On every interleaving of commands that no entry's expiry falls in, each key is
      claimed once, dispatched at most once, and every answer to it carries that task. */
  lemma {:induction false} DispatchedOnce(es: seq<Event>, ttl: Option<nat>, start: int)
    requires Brief(es, ttl, start)
    ensures Once(After(es, ttl))
    ensures forall d :: d in After(es, ttl).store ==>
      var until := After(es, ttl).store[d].until; until.Some? ==> ttl.Some? && start + ttl.value <= until.value
  {
    if es != [] {
      var before, last := After(es[..|es| - 1], ttl), es[|es| - 1];
      DispatchedOnce(es[..|es| - 1], ttl, start);
      ClaimsApart(es[..|es| - 1], ttl);
      assert AllLive(before, last.now);
      NextKeepsOnce(before, last.step, last.now, ttl);
    }
  }

  /** The in-process dictionary dispatches a key at most once, however long the run. */
  lemma InProcessDispatchesOnce(es: seq<Event>)
    ensures Once(After(es, None))
  {
    var start := Earliest(es);
    DispatchedOnce(es, None, start);
  }

  lemma {:induction false} Earliest(es: seq<Event>) returns (start: int)
    ensures forall i :: 0 <= i < |es| ==> start <= es[i].now
  {
    if es == [] {
      start := 0;
    } else {
      var rest := Earliest(es[..|es| - 1]);
      var last := es[|es| - 1].now;
      start := if last < rest then last else rest;
    }
  }

  // ----- how long a key is valid -----

  /** The i-th claim is the last one for its digest, and the entry is what it inserted. */
  ghost predicate IsLatest(s: Sys, ttl: Option<nat>, d: Digest, i: nat) {
    && i < |s.claims| && s.claims[i].digest == d && (forall j :: i < j < |s.claims| ==> s.claims[j].digest != d)
    && d in s.store && s.store[d] == Entry(s.claims[i].task, Until(ttl, s.claims[i].at))
  }

  ghost predicate HasLatest(s: Sys, ttl: Option<nat>, d: Digest) {
    exists i :: IsLatest(s, ttl, d, i)
  }

  /** Entries are what the last claims for their digests inserted. */
  ghost predicate AllLatest(s: Sys, ttl: Option<nat>) {
    && (forall d :: d in s.store ==> HasLatest(s, ttl, d))
    && (forall i :: 0 <= i < |s.claims| ==> s.claims[i].digest in s.store)
  }

  lemma NextKeepsLatest(s: Sys, step: Step, now: int, ttl: Option<nat>)
    requires AllLatest(s, ttl)
    ensures AllLatest(Next(s, step, now, ttl), ttl)
  {
    var s' := Next(s, step, now, ttl);
    forall d | d in s'.store ensures HasLatest(s', ttl, d) {
      if |s'.claims| > |s.claims| && s'.claims[|s.claims|].digest == d {
        assert IsLatest(s', ttl, d, |s.claims|);
      } else {
        var i :| IsLatest(s, ttl, d, i);
        assert IsLatest(s', ttl, d, i);
      }
    }
  }

  lemma {:induction false} LatestHold(es: seq<Event>, ttl: Option<nat>)
    ensures AllLatest(After(es, ttl), ttl)
  {
    if es != [] {
      LatestHold(es[..|es| - 1], ttl);
      NextKeepsLatest(After(es[..|es| - 1], ttl), es[|es| - 1].step, es[|es| - 1].now, ttl);
    }
  }

  /** Claim i was made for the digest, less than a day before `now`. */
  ghost predicate Recent(s: Sys, d: Digest, now: int, i: nat) {
    i < |s.claims| && s.claims[i].digest == d && now < s.claims[i].at + 86400
  }

  /** Of two claims for a digest, the later one is the younger. */
  lemma LatestIsYoungest(s: Sys, d: Digest, i: nat, j: nat)
    requires Spaced(s, REDIS_TTL) && IsLatest(s, REDIS_TTL, d, i) && j < |s.claims| && s.claims[j].digest == d
    ensures j != i ==> s.claims[j].at + 86400 <= s.claims[i].at
  {
  }

  /** A command with a key that comes in and is looked up now. */
  ghost function LookedUp(es: seq<Event>, d: Digest, now: int): Phase {
    var s := After(es, REDIS_TTL);
    Next(Next(s, Arrive(d), now, REDIS_TTL), Read(|s.reqs|), now, REDIS_TTL).reqs[|s.reqs|].phase
  }

  /** On every interleaving over Redis a key is valid for 24 hours from its insertion: a
      command looked up before then is answered with the task claimed, and nothing new is
      inserted or sent; one looked up later is not answered from the store. */
  lemma ValidForADay(es: seq<Event>, d: Digest, now: int, i: nat)
    requires i < |After(es, REDIS_TTL).claims| && After(es, REDIS_TTL).claims[i].digest == d
    requires forall j :: 0 <= j < |After(es, REDIS_TTL).claims| ==> After(es, REDIS_TTL).claims[j].at <= now
    ensures Recent(After(es, REDIS_TTL), d, now, i) ==>
      LookedUp(es, d, now) == Answered(After(es, REDIS_TTL).claims[i].task)
    ensures LookedUp(es, d, now) == Missed <==> forall j :: !Recent(After(es, REDIS_TTL), d, now, j)
  {
    var s := After(es, REDIS_TTL);
    LatestHold(es, REDIS_TTL);
    ClaimsApart(es, REDIS_TTL);
    var l :| IsLatest(s, REDIS_TTL, d, l);
    LatestIsYoungest(s, d, l, i);
    forall j | Recent(s, d, now, j) ensures j == l {
      LatestIsYoungest(s, d, l, j);
    }
    assert Live(s.store, d, now) <==> Recent(s, d, now, l);
  }

  /** And a key never inserted is not answered from the store either. */
  lemma NewKeyMissed(es: seq<Event>, d: Digest, now: int)
    requires forall i :: 0 <= i < |After(es, REDIS_TTL).claims| ==> After(es, REDIS_TTL).claims[i].digest != d
    ensures LookedUp(es, d, now) == Missed
  {
    LatestHold(es, REDIS_TTL);
    assert forall i :: !IsLatest(After(es, REDIS_TTL), REDIS_TTL, d, i);
  }

  // ----- runs that reach the limits -----

  lemma AfterOneMore(es: seq<Event>, e: Event, ttl: Option<nat>)
    ensures After(es + [e], ttl) == Next(After(es, ttl), e.step, e.now, ttl)
  {
    assert (es + [e])[..|es|] == es;
  }

  lemma AfterTwoMore(es: seq<Event>, e: Event, e': Event, ttl: Option<nat>)
    ensures After(es + [e, e'], ttl) == Next(Next(After(es, ttl), e.step, e.now, ttl), e'.step, e'.now, ttl)
  {
    var all := es + [e, e'];
    assert all[..|es| + 1] == es + [e] && all[..|es| + 1][..|es|] == es;
  }

  /** A command that finds no entry comes in, and inserts its own. */
  lemma Inserts(es: seq<Event>, d: Digest, now: int, ttl: Option<nat>) returns (es': seq<Event>)
    requires !Live(After(es, ttl).store, d, now)
    ensures es <= es' && |es'| == |es| + 3 && forall i :: |es| <= i < |es'| ==> es'[i].now == now
    ensures var s := After(es, ttl); var n := |s.reqs|;
      After(es', ttl) == Sys(s.store[d := Entry(n, Until(ttl, now))], s.reqs + [Req(d, Inserted(now))],
                             s.claims + [Claim(d, n, now)], s.sent)
  {
    var s := After(es, ttl);
    var n := |s.reqs|;
    AfterTwoMore(es, Event(Arrive(d), now), Event(Read(n), now), ttl);
    var mid := es + [Event(Arrive(d), now), Event(Read(n), now)];
    assert After(mid, ttl).reqs == s.reqs + [Req(d, Missed)];
    AfterOneMore(mid, Event(Insert(n), now), ttl);
    es' := mid + [Event(Insert(n), now)];
    assert After(es', ttl).reqs == s.reqs + [Req(d, Inserted(now))];
  }

  /** An answer read between the insertion and the dispatch names a task that is never
      sent if its claimant then fails. */
  lemma AnsweredTooSoon(d: Digest) returns (es: seq<Event>)
    ensures var s := After(es, REDIS_TTL);
      |s.reqs| == 2 && s.reqs[0].phase == Failed && s.reqs[1].phase == Answered(0) && s.sent == []
  {
    es := Inserts([], d, 0, REDIS_TTL);
    AfterTwoMore(es, Event(Arrive(d), 1), Event(Read(1), 1), REDIS_TTL);
    es := es + [Event(Arrive(d), 1), Event(Read(1), 1)];
    AfterOneMore(es, Event(Fail(0), 2), REDIS_TTL);
    es := es + [Event(Fail(0), 2)];
  }

  lemma BothMissed(d: Digest) returns (es: seq<Event>)
    ensures After(es, REDIS_TTL) == Sys(map[], [Req(d, Missed), Req(d, Missed)], [], [])
  {
    AfterTwoMore([], Event(Arrive(d), 0), Event(Read(0), 0), REDIS_TTL);
    es := [] + [Event(Arrive(d), 0), Event(Read(0), 0)];
    assert After(es, REDIS_TTL).reqs == [Req(d, Missed)];
    AfterTwoMore(es, Event(Arrive(d), 0), Event(Read(1), 0), REDIS_TTL);
    es := es + [Event(Arrive(d), 0), Event(Read(1), 0)];
    assert After(es, REDIS_TTL).reqs == [Req(d, Missed), Req(d, Missed)];
  }

  /** Two racing commands, the loser rereading a day later, answer with two tasks of which
      only one was dispatched. */
  lemma OrphanedAnswer(d: Digest) returns (es: seq<Event>)
    ensures var s := After(es, REDIS_TTL);
      && |s.reqs| == 2 && s.reqs[0].phase == Answered(0) && s.reqs[1].phase == Answered(1)
      && Dispatched(s, 0) && !Dispatched(s, 1) && !Claimed(s, 1)
  {
    es := BothMissed(d);
    AfterTwoMore(es, Event(Insert(0), 0), Event(Send(0), 0), REDIS_TTL);
    es := es + [Event(Insert(0), 0), Event(Send(0), 0)];
    assert After(es, REDIS_TTL).sent[0].claim.task == 0;
    AfterTwoMore(es, Event(Insert(1), 0), Event(Reread(1), 86400), REDIS_TTL);
    es := es + [Event(Insert(1), 0), Event(Reread(1), 86400)];
  }

  /** The distance proved for dispatches is reached, for every delay up to a day. */
  lemma LateDispatch(d: Digest, delay: nat) returns (es: seq<Event>)
    requires delay <= 86400
    ensures Monotone(es) && Prompt(After(es, REDIS_TTL), delay)
    ensures var sent := After(es, REDIS_TTL).sent;
      |sent| == 2 && sent[0].claim.digest == sent[1].claim.digest && sent[0].at + 86400 - delay == sent[1].at
  {
    es := Inserts([], d, 0, REDIS_TTL);
    AfterOneMore(es, Event(Send(0), delay), REDIS_TTL);
    es := es + [Event(Send(0), delay)];
    es := Inserts(es, d, 86400, REDIS_TTL);
    AfterOneMore(es, Event(Send(1), 86400), REDIS_TTL);
    es := es + [Event(Send(1), 86400)];
  }

  // ----- the stores as objects -----

  /** The idempotency entries of the Redis server, or of the process when ttl is None. */
  class IdempotencyStore {
    var entries: Store
    const ttl: Option<nat>

    constructor (ttl: Option<nat>)
      ensures entries == map[] && this.ttl == ttl
    {
      entries := map[];
      this.ttl := ttl;
    }

    method Get(d: Digest, now: int) returns (task: Option<Task>)
      ensures task == if Live(entries, d, now) then Some(entries[d].task) else None
    {
      if d in entries && (entries[d].until.None? || now < entries[d].until.value) {
        task := Some(entries[d].task);
      } else {
        task := None;
      }
    }

    /** SET NX EX, or the dictionary's get and insert, which no await separates. */
    method SetIfAbsent(d: Digest, task: Task, now: int) returns (inserted: bool)
      modifies this
      ensures inserted == !old(Live(entries, d, now))
      ensures entries == if inserted then old(entries)[d := Entry(task, Until(ttl, now))] else old(entries)
    {
      var held := Get(d, now);
      inserted := held == None;
      if inserted {
        entries := entries[d := Entry(task, if ttl.None? then None else Some(now + ttl.value))];
      }
    }

    /** _idempotency_put when nothing runs between its store accesses. */
    method Put(d: Digest, task: Task, now: int) returns (answer: Task, inserted: bool)
      modifies this
      ensures inserted == !old(Live(entries, d, now))
      ensures inserted ==> answer == task && entries == old(entries)[d := Entry(task, Until(ttl, now))]
      ensures !inserted ==> entries == old(entries) && answer == entries[d].task
    {
      inserted := SetIfAbsent(d, task, now);
      answer := task;
      if !inserted {
        var held := Get(d, now);
        if held.Some? {
          answer := held.value;
        }
      }
    }
  }
}
