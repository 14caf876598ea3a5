/** The retry loop of `ResilientHttpClient.request` in integrations/base.py. */
module HttpClient {
  import opened Breaker
  import opened LocalLimiter
  import opened Wrappers

  // ----- replies -----

  /** A response body: none, a JSON object, another JSON value, or no JSON. */
  datatype Body = Empty | Object(text: string) | Value(text: string) | Malformed

  /** What a send comes to: a response, a timeout or network failure, or any other
      exception. */
  datatype Reply = Response(status: int, body: Body) | Unreachable | Exception

  datatype Code = Http(status: int) | Network | Unknown

  datatype ProviderError = ProviderError(code: Code, retryable: bool)

  const UNKNOWN := ProviderError(Unknown, false)

  datatype Judged = Good(body: Body) | Bad(error: ProviderError) | Ugly

  function Judge(reply: Reply): Judged {
    match reply
    case Exception => Ugly
    case Unreachable => Bad(ProviderError(Network, true))
    case Response(status, body) =>
      if status in {408, 425, 429} || status >= 500 then Bad(ProviderError(Http(status), true))
      else if status >= 400 then Bad(ProviderError(Http(status), false))
      else Good(body)
  }

  /** An object is returned as it is; another value in a field of a new one. */
  datatype Payload = EmptyObject | Same(text: string) | Items(text: string)

  datatype Outcome =
    | Returned(payload: Payload)
    | Raised(error: ProviderError)
    | CircuitOpen
    | OtherException

  function Parse(body: Body): Outcome {
    match body
    case Empty => Returned(EmptyObject)
    case Object(text) => Returned(Same(text))
    case Value(text) => Returned(Items(text))
    case Malformed => OtherException
  }

  predicate Retries(reply: Reply) {
    Judge(reply).Bad? && Judge(reply).error.retryable
  }

  // ----- one attempt -----

  /** What the world does to an attempt: how late the limiter wakes, how long the send
      takes and what comes back, the jitter of the pause after it, and how late that ends. */
  datatype Turn = Turn(late: real, latency: real, reply: Reply, jitter: real, oversleep: real)
  {
    predicate Proper() {
      late >= 0.0 && latency >= 0.0 && 0.0 <= jitter <= 0.5 && oversleep >= 0.0
    }
  }

  /** min(8, 2 ^ attempt + jitter) */
  function Pause(attempt: nat, jitter: real): real {
    var doubled := Doubled(attempt) + jitter;
    if doubled < 8.0 then doubled else 8.0
  }

  function Doubled(attempt: nat): real {
    if attempt == 0 then 1.0 else 2.0 * Doubled(attempt - 1)
  }

  lemma {:induction false} PauseAtLeast(attempt: nat, jitter: real)
    requires jitter >= 0.0
    ensures Pause(attempt, jitter) >= Pause(attempt, 0.0) >= 1.0
  {
    DoubledAtLeast(attempt);
  }

  /** One, two and four seconds with their jitter, and eight from then on. */
  lemma {:induction false} PauseGrows(attempt: nat, jitter: real)
    requires 0.0 <= jitter <= 0.5
    ensures Pause(0, jitter) == 1.0 + jitter && Pause(1, jitter) == 2.0 + jitter && Pause(2, jitter) == 4.0 + jitter
    ensures attempt >= 3 ==> Pause(attempt, jitter) == 8.0
  {
    assert Doubled(1) == 2.0 && Doubled(2) == 4.0 && Doubled(3) == 8.0;
    if attempt > 3 {
      PauseGrows(attempt - 1, jitter);
    }
  }

  lemma {:induction false} DoubledAtLeast(attempt: nat)
    ensures Doubled(attempt) >= 1.0
  {
    if attempt > 0 {
      DoubledAtLeast(attempt - 1);
    }
  }

  /** The clock after the pause. */
  function Resumed(answered: real, attempt: nat, turn: Turn): real {
    answered + Pause(attempt, turn.jitter) + turn.oversleep
  }

  datatype Try = Refused | NoSlot | Sent(judged: Judged)

  function VerdictOf(r: Try): Verdict {
    match r
    case Sent(Good(_)) => Success
    case Sent(Bad(_)) => Failure
    case _ => Neither
  }

  /** The breaker event that an attempt leaves. */
  ghost function Recorded(r: Try, at: real): seq<Event> {
    match VerdictOf(r)
    case Success => [Event(at, false)]
    case Failure => [Event(at, true)]
    case Neither => []
  }

  // ----- what a request comes to -----

  /** Every send before the last came back with an error worth retrying; the last one, if
      there was any, decides.  Only a budget of no attempts leads past the loop. */
  ghost predicate Ended(outcome: Outcome, sends: nat, maxAttempts: int, slots: int, world: nat -> Turn) {
    && sends <= (if maxAttempts > 0 then maxAttempts else 0)
    && (forall i: nat :: i + 1 < sends ==> Retries(world(i).reply))
    && if maxAttempts <= 0 then outcome == Raised(UNKNOWN)
       else if sends == 0 then outcome.CircuitOpen? || (outcome.OtherException? && slots < 1)
       else
         match Judge(world(sends - 1).reply)
         case Ugly => outcome == OtherException
         case Good(body) => outcome == Parse(body)
         case Bad(error) =>
           if error.retryable && sends < maxAttempts then outcome == CircuitOpen else outcome == Raised(error)
  }

  /** One event for each of the first n sends, each failed, with a pause between them. */
  ghost predicate Failed(events: seq<Event>, n: nat, t: real, slots: int, world: nat -> Turn) {
    && |events| == n && (n > 0 ==> slots >= 1)
    && (forall i: nat :: i < n ==> Retries(world(i).reply))
    && (forall i: nat :: i < n ==> events[i].failed)
    && (forall i: nat :: i + 1 < n ==> Paused(events, i))
    && (n > 0 ==> events[n - 1].at <= t)
  }

  /** The loop has waited since the last of them. */
  ghost predicate Continues(events: seq<Event>, n: nat, t: real, slots: int, world: nat -> Turn) {
    && Failed(events, n, t, slots, world)
    && (n > 0 ==> events[n - 1].at + Pause(n - 1, 0.0) <= t)
  }

  ghost predicate Paused(events: seq<Event>, i: nat)
    requires i + 1 < |events|
  {
    events[i].at + Pause(i, 0.0) <= events[i + 1].at
  }

  /** The breaker hears of every send, but for a last one that ended in another exception;
      after each failure the loop waits. */
  ghost predicate Records(events: seq<Event>, sends: nat, world: nat -> Turn) {
    && |events| == (if sends > 0 && Judge(world(sends - 1).reply).Ugly? then sends - 1 else sends)
    && (forall i: nat :: i < |events| ==> events[i].failed == Judge(world(i).reply).Bad?)
    && (forall i: nat :: i + 1 < |events| ==> Paused(events, i))
  }

  // ----- the same in status numbers -----

  /** Unreachable, or a response that may be different next time. */
  predicate MayPass(reply: Reply) {
    reply.Unreachable? || (reply.Response? && (reply.status >= 500 || reply.status in {408, 425, 429}))
  }

  /** How the last of n sends settles a request of at most m. */
  ghost predicate Settles(reply: Reply, n: nat, m: int, outcome: Outcome) {
    match reply
    case Exception => outcome == OtherException
    case Unreachable => outcome == if n < m then CircuitOpen else Raised(ProviderError(Network, true))
    case Response(status, body) =>
      if MayPass(reply) then outcome == if n < m then CircuitOpen else Raised(ProviderError(Http(status), true))
      else if status >= 400 then outcome == Raised(ProviderError(Http(status), false))
      else
        match body
        case Empty => outcome == Returned(EmptyObject)
        case Object(text) => outcome == Returned(Same(text))
        case Value(text) => outcome == Returned(Items(text))
        case Malformed => outcome == OtherException
  }

  /** Every send before the last came back with what may pass, and the last settles the
      request; without a send there is no slot, an open circuit, or no attempt allowed. */
  ghost predicate SettledBy(world: nat -> Turn, sends: nat, maxAttempts: int, outcome: Outcome) {
    && (forall i: nat :: i + 1 < sends ==> MayPass(world(i).reply))
    && (sends > 0 ==> Settles(world(sends - 1).reply, sends, maxAttempts, outcome))
    && (sends == 0 ==>
          if maxAttempts <= 0 then outcome == Raised(ProviderError(Unknown, false))
          else outcome == CircuitOpen || outcome == OtherException)
  }

  lemma EndedSettles(outcome: Outcome, sends: nat, maxAttempts: int, slots: int, world: nat -> Turn)
    requires Ended(outcome, sends, maxAttempts, slots, world)
    ensures SettledBy(world, sends, maxAttempts, outcome)
  {
    forall i: nat | i + 1 < sends ensures MayPass(world(i).reply) {
      assert Retries(world(i).reply);
    }
  }

  /** What the breaker hears of a send: a failure from 400 on or without a response, and a
      success below, whatever the body. */
  lemma RecordsOutcomes(events: seq<Event>, sends: nat, world: nat -> Turn, i: nat)
    requires Records(events, sends, world) && i < |events|
    ensures events[i].failed <==> world(i).reply.Unreachable? || (world(i).reply.Response? && world(i).reply.status >= 400)
  {
  }

  class ResilientHttpClient {
    const breaker: CircuitBreaker
    const limiter: LocalRateLimiter
    ghost var log: seq<Event>
    ghost var clock: real

    /** The breaker with its history. */
    ghost function Watched(): Watch
      reads this, breaker
    {
      Watch(breaker.Snapshot(), log, clock)
    }

    ghost predicate Valid()
      reads this, breaker, limiter
    {
      && limiter.Valid() && limiter.clock <= clock
      && WellWatched(Watched(), breaker.threshold, breaker.recovery)
    }

    constructor (perMinute: int, start: real)
      ensures Valid() && fresh(breaker) && fresh(limiter) && log == [] && clock == start
      ensures limiter.requests == perMinute && limiter.period == 60.0
      ensures breaker.threshold == 5 && breaker.recovery == 30.0
    {
      breaker := new CircuitBreaker(5, 30.0);
      limiter := new LocalRateLimiter(perMinute, 60.0, start);
      log, clock := [], start;
    }

    /** Wait for a slot and send. */
    method Send(now: real, turn: Turn) returns (r: Try, t: real)
      requires limiter.Valid() && limiter.clock <= now && turn.Proper()
      modifies limiter
      ensures limiter.Valid() && now <= limiter.clock <= t
      ensures r == if limiter.requests < 1 then NoSlot else Sent(Judge(turn.reply))
      ensures |limiter.log| == |old(limiter.log)| + (if r.Sent? then 1 else 0)
    {
      var acquired;
      acquired, t := limiter.Acquire(now, turn.late);
      if !acquired {
        return NoSlot, t;
      }
      return Sent(Judge(turn.reply)), t + turn.latency;
    }

    /** One turn of the loop up to its pause: ask, send, record. */
    method Attempt(now: real, turn: Turn) returns (r: Try, t: real)
      requires Valid() && clock <= now && turn.Proper()
      modifies this, breaker, limiter
      ensures Valid() && clock == t >= now
      ensures r == if Refuses(old(breaker.Snapshot()), breaker.recovery, now) then Refused
                   else if limiter.requests < 1 then NoSlot
                   else Sent(Judge(turn.reply))
      ensures r.Refused? ==> Refuses(breaker.Snapshot(), breaker.recovery, t)
      ensures log == old(log) + Recorded(r, t)
      ensures |limiter.log| == |old(limiter.log)| + (if r.Sent? then 1 else 0)
    {
      ghost var w := Watched();
      r, t := Refused, now;
      var allowed := breaker.BeforeRequest(now);
      if allowed {
        r, t := Send(now, turn);
        match VerdictOf(r) {
          case Success =>
            breaker.Success();
            log := log + [Event(t, false)];
          case Failure =>
            breaker.Failure(t);
            log := log + [Event(t, true)];
          case Neither =>
        }
      }
      clock := t;
      NextKeepsWatch(w, Breaker.Attempt(now, t, VerdictOf(r)), breaker.threshold, breaker.recovery);
    }

    /** The loop's body: the outcome if it ends the request, else the error to go on with. */
    method Iterate(attempt: nat, maxAttempts: int, t: real, world: nat -> Turn, ghost before: seq<Event>,
                   ghost events: seq<Event>)
      returns (end: Option<Outcome>, sent: bool, error: Option<ProviderError>, t': real, ghost events': seq<Event>)
      requires Valid() && clock <= t && attempt < maxAttempts && world(attempt).Proper()
      requires log == before + events && Continues(events, attempt, t, limiter.requests, world)
      modifies this, breaker, limiter
      ensures Valid() && clock <= t' && t <= t' && log == before + events'
      ensures |limiter.log| == |old(limiter.log)| + (if sent then 1 else 0)
      ensures end.Some? ==> Concludes(end.value, attempt, sent, maxAttempts, limiter.requests, world, events')
      ensures end == Some(CircuitOpen) ==> Refuses(breaker.Snapshot(), breaker.recovery, t')
      ensures end.None? ==> sent && attempt + 1 < maxAttempts && error.Some?
      ensures end.None? ==> Continues(events', attempt + 1, t', limiter.requests, world)
      ensures end.None? ==> t' == clock + Pause(attempt, world(attempt).jitter) + world(attempt).oversleep
    {
      var turn := world(attempt);
      var r, answered := Attempt(t, turn);
      end, sent, error, t' := Decide(r, attempt, maxAttempts), r.Sent?, None, answered;
      events' := events + Recorded(r, answered);
      TurnEnds(r, attempt, maxAttempts, events, t, answered, limiter.requests, world, end, sent, events');
      assert before + events' == (before + events) + Recorded(r, answered);
      if end.None? {
        error := Some(r.judged.error);
        t' := Resumed(answered, attempt, turn);
        Waited(events', attempt, answered, turn, t', limiter.requests, world);
      }
    }

    /** The retry loop.  `t` is the clock at its end. */
    method Request(maxAttempts: int, now: real, world: nat -> Turn)
      returns (outcome: Outcome, sends: nat, t: real, ghost events: seq<Event>)
      requires Valid() && clock <= now && forall i: nat :: world(i).Proper()
      modifies this, breaker, limiter
      ensures Valid() && clock <= t && now <= t
      ensures |limiter.log| == |old(limiter.log)| + sends
      ensures sends <= (if maxAttempts > 0 then maxAttempts else 0)
      ensures Ended(outcome, sends, maxAttempts, limiter.requests, world)
      ensures SettledBy(world, sends, maxAttempts, outcome)
      ensures outcome.CircuitOpen? ==> Refuses(breaker.Snapshot(), breaker.recovery, t)
      ensures log == old(log) + events && Records(events, sends, world)
    {
      var lastError: Option<ProviderError> := None;
      var attempt := 0;
      ghost var before := log;
      events, sends, t := [], 0, now;
      while attempt < maxAttempts
        invariant Valid() && clock <= t && now <= t
        invariant sends == attempt && (attempt < maxAttempts || maxAttempts <= 0 == attempt)
        invariant attempt == 0 ==> lastError == None
        invariant |limiter.log| == |old(limiter.log)| + sends
        invariant log == before + events && Continues(events, attempt, t, limiter.requests, world)
      {
        var end, sent;
        end, sent, lastError, t, events := Iterate(attempt, maxAttempts, t, world, before, events);
        sends := if sent then sends + 1 else sends;
        if end.Some? {
          return end.value, sends, t, events;
        }
        attempt := attempt + 1;
      }
      NoneAllowed(maxAttempts, limiter.requests, world, events, t);
      match lastError {
        case None => outcome := Raised(UNKNOWN);
        case Some(error) => outcome := Raised(error);
      }
    }
  }

  /** The code after the loop: nothing was sent, none being allowed. */
  lemma NoneAllowed(maxAttempts: int, slots: int, world: nat -> Turn, events: seq<Event>, t: real)
    requires maxAttempts <= 0 && Continues(events, 0, t, slots, world)
    ensures Ended(Raised(UNKNOWN), 0, maxAttempts, slots, world) && Records(events, 0, world)
    ensures SettledBy(world, 0, maxAttempts, Raised(UNKNOWN))
  {
  }

  /** A request whose loop ends in this turn. */
  ghost predicate Concludes(outcome: Outcome, attempt: nat, sent: bool, maxAttempts: int, slots: int, world: nat -> Turn,
                            events: seq<Event>) {
    var sends := if sent then attempt + 1 else attempt;
    && Ended(outcome, sends, maxAttempts, slots, world) && Records(events, sends, world)
    && SettledBy(world, sends, maxAttempts, outcome)
  }

  /** How one turn of the loop leaves it, if it does. */
  function Decide(r: Try, attempt: nat, maxAttempts: int): Option<Outcome> {
    match r
    case Refused => Some(CircuitOpen)
    case NoSlot => Some(OtherException)
    case Sent(Ugly) => Some(OtherException)
    case Sent(Good(body)) => Some(Parse(body))
    case Sent(Bad(error)) => if !error.retryable || attempt == maxAttempts - 1 then Some(Raised(error)) else None
  }

  lemma TurnEnds(r: Try, attempt: nat, maxAttempts: int, events: seq<Event>, t: real, answered: real, slots: int,
                 world: nat -> Turn, end: Option<Outcome>, sent: bool, events': seq<Event>)
    requires Continues(events, attempt, t, slots, world) && attempt < maxAttempts && t <= answered
    requires r.NoSlot? ==> slots < 1
    requires r.Sent? ==> slots >= 1 && r.judged == Judge(world(attempt).reply)
    requires end == Decide(r, attempt, maxAttempts) && sent == r.Sent? && events' == events + Recorded(r, answered)
    ensures end.Some? ==> Concludes(end.value, attempt, sent, maxAttempts, slots, world, events')
    ensures end.None? ==> sent && r.judged.Bad? && attempt + 1 < maxAttempts
    ensures end.None? ==> Failed(events', attempt + 1, answered, slots, world)
  {
    forall i: nat | i + 1 < |events'| ensures Paused(events', i) {
      assert i + 1 < attempt ==> Paused(events, i);
    }
    if end.Some? {
      EndedSettles(end.value, if sent then attempt + 1 else attempt, maxAttempts, slots, world);
    }
  }

  lemma Waited(events: seq<Event>, attempt: nat, answered: real, turn: Turn, t: real, slots: int, world: nat -> Turn)
    requires Failed(events, attempt + 1, answered, slots, world) && turn.Proper()
    requires t == Resumed(answered, attempt, turn)
    ensures Continues(events, attempt + 1, t, slots, world) && answered <= t
  {
    PauseAtLeast(attempt, turn.jitter);
  }
}
