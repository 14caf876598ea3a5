/** Rotations that overlap: `rotate`, `issue` and `revoke_family` over the Redis store, each
    await of theirs a point where other requests may run. */
module Rotations {
  import opened RedisSafety
  import opened SessionAgreement
  import opened Sessions
  import opened Wrappers

  /** Where a rotation is: its token not yet read; let through, holding the consumed copy of
      its session; that copy written; found to be a replay; revoking, the members in `rest`
      still to be met; holding a revoked copy of one of them; over. */
  datatype Phase =
    | Arrived
    | Holding(copy: Session)
    | Consumed(copy: Session)
    | Replayed(family: FamilyId)
    | Revoking(family: FamilyId, rest: set<TokenHash>)
    | Storing(family: FamilyId, rest: set<TokenHash>, copy: Session)
    | Done(outcome: Outcome)
    | Failed

  datatype Req = Req(presented: TokenHash, phase: Phase)

  datatype Sys = Sys(server: Redis, reqs: seq<Req>)

  /** `read` is the clock when a put works out its expiry, `checked` the one of the check. */
  datatype Step =
    | Enter(identity: Identity, family: FamilyId, drawn: Drawn, issued: int, read: int)  // a login
    | Arrive(presented: TokenHash)
    | Get(r: nat, checked: int)
    | Consume(r: nat, read: int)
    | Issue(r: nat, drawn: Drawn, issued: int, read: int)
    | List(r: nat)
    | Fetch(r: nat, hash: TokenHash)
    | Store(r: nat, read: int)
    | Fail(r: nat)

  datatype Event = Event(step: Step, now: int)

  predicate In(s: Sys, r: nat) {
    r < |s.reqs|
  }

  ghost predicate Ready(s: Sys, step: Step) {
    match step
    case Enter(_, f, drawn, _, _) =>
      drawn.hash !in s.server.tokens && forall h :: h in s.server.tokens ==> s.server.tokens[h].session.family != f
    case Arrive(_) => true
    case Get(r, _) => In(s, r) && s.reqs[r].phase.Arrived?
    case Consume(r, _) => In(s, r) && s.reqs[r].phase.Holding?
    case Issue(r, drawn, _, _) => In(s, r) && s.reqs[r].phase.Consumed? && drawn.hash !in s.server.tokens
    case List(r) => In(s, r) && s.reqs[r].phase.Replayed?
    case Fetch(r, h) => In(s, r) && s.reqs[r].phase.Revoking? && h in s.reqs[r].phase.rest
    case Store(r, _) => In(s, r) && s.reqs[r].phase.Storing?
    case Fail(r) => In(s, r) && !s.reqs[r].phase.Done?
  }

  function Met(f: FamilyId, rest: set<TokenHash>): Phase {
    if rest == {} then Done(ReuseDetected) else Revoking(f, rest)
  }

  /** What the check makes of the session read. */
  function Judged(got: Option<Session>, checked: int): Phase {
    match got
    case None => Done(Invalid)
    case Some(x) =>
      if x.revoked || x.expiresAt <= checked then Done(Invalid)
      else if x.used then Replayed(x.family)
      else Holding(x.(used := true))
  }

  function PhaseAfter(s: Sys, r: nat, step: Step, now: int): Phase
    requires In(s, r)
  {
    var p := s.reqs[r].phase;
    match step
    case Get(_, checked) => Judged(s.server.Get(s.reqs[r].presented, now), checked)
    case Consume(_, _) => if p.Holding? then Consumed(p.copy) else p
    case Issue(_, drawn, _, _) => Done(Issued(drawn.hash))
    case List(_) => if p.Replayed? then Met(p.family, s.server.Members(p.family, now)) else p
    case Fetch(_, h) =>
      if p.Revoking? then
        match s.server.Get(h, now)
        case None => Met(p.family, p.rest - {h})
        case Some(x) => Storing(p.family, p.rest - {h}, x.(revoked := true))
      else p
    case Store(_, _) => if p.Storing? then Met(p.family, p.rest) else p
    case Fail(_) => Failed
    case _ => p
  }

  /** What a step writes, if anything. */
  function Written(s: Sys, step: Step, cfg: Settings): Option<(Session, int)> {
    match step
    case Enter(identity, f, drawn, issued, read) => Some((NewSession(identity, f, drawn, issued, cfg), read))
    case Consume(r, read) => if In(s, r) && s.reqs[r].phase.Holding? then Some((s.reqs[r].phase.copy, read)) else None
    case Issue(r, drawn, issued, read) =>
      if In(s, r) && s.reqs[r].phase.Consumed? then
        var x := s.reqs[r].phase.copy;
        Some((NewSession(x.identity, x.family, drawn, issued, cfg), read))
      else None
    case Store(r, read) => if In(s, r) && s.reqs[r].phase.Storing? then Some((s.reqs[r].phase.copy, read)) else None
    case _ => None
  }

  function ServerAfter(s: Sys, step: Step, now: int, cfg: Settings): Redis {
    match Written(s, step, cfg)
    case None => s.server
    case Some((x, read)) => s.server.Put(x, Write(read, now), cfg)
  }

  function ReqsAfter(s: Sys, step: Step, now: int): seq<Req> {
    match step
    case Enter(_, _, _, _, _) => s.reqs
    case Arrive(h) => s.reqs + [Req(h, Arrived)]
    case _ => if In(s, step.r) then s.reqs[step.r := s.reqs[step.r].(phase := PhaseAfter(s, step.r, step, now))] else s.reqs
  }

  /** One atomic step; a step that its request is not ready for changes nothing. */
  ghost function Next(s: Sys, e: Event, cfg: Settings): Sys {
    if Ready(s, e.step) then Sys(ServerAfter(s, e.step, e.now, cfg), ReqsAfter(s, e.step, e.now)) else s
  }

  /** The readings of the clock that a step makes lie in order. */
  predicate InTime(e: Event) {
    match e.step
    case Enter(_, _, _, issued, read) => issued <= read <= e.now
    case Get(_, checked) => e.now <= checked
    case Consume(_, read) => read <= e.now
    case Issue(_, _, issued, read) => issued <= read <= e.now
    case Store(_, read) => read <= e.now
    case _ => true
  }

  // ----- what holds on every interleaving -----

  /** A copy to be written back is of a session of this family, and no longer active. */
  predicate Stale(r: Redis, f: FamilyId, copy: Session) {
    copy.hash in r.tokens && copy.family == f && r.tokens[copy.hash].session.family == f && !copy.Active()
  }

  predicate Members(r: Redis, f: FamilyId, rest: set<TokenHash>) {
    forall h :: h in rest ==> h in r.tokens && r.tokens[h].session.family == f
  }

  /** The family that a request is about to write in, or may be. */
  function Busy(p: Phase): Option<FamilyId> {
    match p
    case Holding(copy) => Some(copy.family)
    case Consumed(copy) => Some(copy.family)
    case Replayed(f) => Some(f)
    case Revoking(f, _) => Some(f)
    case Storing(f, _, _) => Some(f)
    case _ => None
  }

  /** That family is the presented token's. */
  predicate AtHome(r: Redis, q: Req) {
    Busy(q.phase).Some? ==> q.presented in r.tokens && r.tokens[q.presented].session.family == Busy(q.phase).value
  }

  predicate Held(r: Redis, q: Req) {
    AtHome(r, q) && match q.phase
    case Holding(copy) => Stale(r, copy.family, copy) && copy.hash == q.presented
    case Consumed(copy) => Stale(r, copy.family, copy) && copy.hash == q.presented && !r.tokens[copy.hash].session.Active()
    case Revoking(f, rest) => Members(r, f, rest)
    case Storing(f, rest, copy) => Members(r, f, rest) && Stale(r, f, copy)
    case Done(o) => o.Issued? ==> q.presented in r.tokens && !r.tokens[q.presented].session.Active()
    case _ => true
  }

  ghost predicate AllHeld(s: Sys) {
    WellKeyed(s.server) && forall r :: 0 <= r < |s.reqs| ==> Held(s.server, s.reqs[r])
  }

  /** Sessions stay in their families, and inactive once they are. */
  predicate Keeps(r: Redis, r': Redis, h: TokenHash) {
    h in r.tokens ==>
      && h in r'.tokens && r'.tokens[h].session.family == r.tokens[h].session.family
      && (!r.tokens[h].session.Active() ==> !r'.tokens[h].session.Active())
  }

  ghost predicate AllKeep(r: Redis, r': Redis) {
    forall h {:trigger Keeps(r, r', h)} :: Keeps(r, r', h)
  }

  lemma HeldLater(r: Redis, r': Redis, q: Req)
    requires AllKeep(r, r') && Held(r, q)
    ensures Held(r', q)
  {
    assert Keeps(r, r', q.presented);
    match q.phase
    case Holding(copy) => assert Keeps(r, r', copy.hash);
    case Consumed(copy) => assert Keeps(r, r', copy.hash);
    case Revoking(f, rest) =>
      forall h | h in rest ensures h in r'.tokens && r'.tokens[h].session.family == f {
        assert Keeps(r, r', h);
      }
    case Storing(f, rest, copy) =>
      assert Keeps(r, r', copy.hash);
      forall h | h in rest ensures h in r'.tokens && r'.tokens[h].session.family == f {
        assert Keeps(r, r', h);
      }
    case _ =>
  }

  /** What a ready step writes is a new session, or an inactive copy of an old one. */
  lemma WrittenFits(s: Sys, step: Step, cfg: Settings)
    requires AllHeld(s) && Ready(s, step) && Written(s, step, cfg).Some?
    ensures var x := Written(s, step, cfg).value.0;
      if x.hash in s.server.tokens then !x.Active() && x.family == s.server.tokens[x.hash].session.family else true
  {
    if !step.Enter? {
      assert Held(s.server, s.reqs[step.r]);
    }
  }

  lemma PutKeepsAll(r: Redis, x: Session, w: Write, cfg: Settings)
    requires WellKeyed(r)
    requires x.hash in r.tokens ==> !x.Active() && x.family == r.tokens[x.hash].session.family
    ensures WellKeyed(r.Put(x, w, cfg)) && AllKeep(r, r.Put(x, w, cfg))
  {
  }

  lemma ServerKeeps(s: Sys, e: Event, cfg: Settings)
    requires AllHeld(s) && Ready(s, e.step)
    ensures var r' := ServerAfter(s, e.step, e.now, cfg); WellKeyed(r') && AllKeep(s.server, r')
  {
    var w := Written(s, e.step, cfg);
    if w.Some? {
      WrittenFits(s, e.step, cfg);
      PutKeepsAll(s.server, w.value.0, Write(w.value.1, e.now), cfg);
    }
  }

  lemma MovedHeld(s: Sys, e: Event, cfg: Settings)
    requires AllHeld(s) && Ready(s, e.step) && !e.step.Enter? && !e.step.Arrive?
    ensures Held(ServerAfter(s, e.step, e.now, cfg), Next(s, e, cfg).reqs[e.step.r])
  {
    var r := e.step.r;
    ServerKeeps(s, e, cfg);
    assert Held(s.server, s.reqs[r]);
    var r' := ServerAfter(s, e.step, e.now, cfg);
    assert Keeps(s.server, r', s.reqs[r].presented);
  }

  lemma NextKeepsHeld(s: Sys, e: Event, cfg: Settings)
    requires AllHeld(s)
    ensures AllHeld(Next(s, e, cfg)) && AllKeep(s.server, Next(s, e, cfg).server)
  {
    if Ready(s, e.step) {
      var s' := Next(s, e, cfg);
      ServerKeeps(s, e, cfg);
      forall q | 0 <= q < |s'.reqs| ensures Held(s'.server, s'.reqs[q]) {
        if q < |s.reqs| && s'.reqs[q] == s.reqs[q] {
          HeldLater(s.server, s'.server, s.reqs[q]);
        } else if !e.step.Enter? && !e.step.Arrive? {
          MovedHeld(s, e, cfg);
        }
      }
    }
  }

  // ----- runs -----

  predicate Monotone(es: seq<Event>) {
    forall i, j :: 0 <= i < j < |es| ==> es[i].now <= es[j].now
  }

  ghost predicate Moves(s: Sys, e: Event, s': Sys, cfg: Settings) {
    s' == Next(s, e, cfg) && InTime(e)
  }

  /** ss are the states before and after each of the events, from an empty server. */
  ghost predicate IsRun(ss: seq<Sys>, es: seq<Event>, cfg: Settings) {
    && |ss| == |es| + 1 && ss[0] == Sys(Redis(map[], map[]), []) && Monotone(es)
    && (forall i :: 0 <= i < |es| ==> Moves(ss[i], es[i], ss[i + 1], cfg))
  }

  lemma {:induction false} HeldAt(ss: seq<Sys>, es: seq<Event>, cfg: Settings, k: nat)
    requires IsRun(ss, es, cfg) && k < |ss|
    ensures AllHeld(ss[k])
  {
    if k > 0 {
      HeldAt(ss, es, cfg, k - 1);
      assert Moves(ss[k - 1], es[k - 1], ss[k], cfg);
      NextKeepsHeld(ss[k - 1], es[k - 1], cfg);
    }
  }

  lemma {:induction false} KeptBetween(ss: seq<Sys>, es: seq<Event>, cfg: Settings, i: nat, j: nat, h: TokenHash)
    requires IsRun(ss, es, cfg) && i <= j < |ss|
    ensures Keeps(ss[i].server, ss[j].server, h)
    decreases j
  {
    if i < j {
      KeptBetween(ss, es, cfg, i, j - 1, h);
      HeldAt(ss, es, cfg, j - 1);
      assert Moves(ss[j - 1], es[j - 1], ss[j], cfg);
      NextKeepsHeld(ss[j - 1], es[j - 1], cfg);
      assert Keeps(ss[j - 1].server, ss[j].server, h);
    }
  }

  /** On every interleaving: once any request has written a token's session back, consumed
      or revoked, no rotation that reads it afterwards is let through.  So rotations that
      exchange one token have all read it before the first of them wrote. */
  lemma LateGetRefused(ss: seq<Sys>, es: seq<Event>, cfg: Settings, i: nat, j: nat, q: nat, checked: int)
    requires IsRun(ss, es, cfg) && i < j < |es| && Ready(ss[i], es[i].step) && Written(ss[i], es[i].step, cfg).Some?
    requires es[j].step == Get(q, checked) && Ready(ss[j], es[j].step)
    requires var h := ss[j].reqs[q].presented; h in ss[i].server.tokens && Written(ss[i], es[i].step, cfg).value.0.hash == h
    ensures !ss[j + 1].reqs[q].phase.Holding?
  {
    var h := ss[j].reqs[q].presented;
    HeldAt(ss, es, cfg, i);
    WrittenFits(ss[i], es[i].step, cfg);
    assert Moves(ss[i], es[i], ss[i + 1], cfg) && Moves(ss[j], es[j], ss[j + 1], cfg);
    KeptBetween(ss, es, cfg, i + 1, j, h);
  }

  // ----- requests of one family, one after another -----

  /** A rotation reads its token while another request is busy in the family. */
  ghost predicate Overlaps(s: Sys, step: Step) {
    && step.Get? && Ready(s, step) && s.reqs[step.r].presented in s.server.tokens
    && exists q: nat :: In(s, q) && Busy(s.reqs[q].phase) == Some(s.server.tokens[s.reqs[step.r].presented].session.family)
  }

  /** A revocation fails after its first member. */
  ghost predicate Breaks(s: Sys, step: Step) {
    step.Fail? && Ready(s, step) && (s.reqs[step.r].phase.Revoking? || s.reqs[step.r].phase.Storing?)
  }

  ghost predicate Serial(s: Sys) {
    forall q: nat, r: nat ::
      In(s, q) && In(s, r) && Busy(s.reqs[q].phase).Some? && Busy(s.reqs[q].phase) == Busy(s.reqs[r].phase) ==> q == r
  }

  lemma PhaseStays(s: Sys, e: Event)
    requires AllHeld(s) && Ready(s, e.step) && !e.step.Enter? && !e.step.Arrive?
    ensures var p, p' := s.reqs[e.step.r].phase, PhaseAfter(s, e.step.r, e.step, e.now);
      Busy(p') == None || Busy(p') == Busy(p) || (e.step.Get? && s.reqs[e.step.r].presented in s.server.tokens
        && Busy(p') == Some(s.server.tokens[s.reqs[e.step.r].presented].session.family))
  {
  }

  lemma NextKeepsSerial(s: Sys, e: Event, cfg: Settings)
    requires AllHeld(s) && Serial(s) && !Overlaps(s, e.step)
    ensures Serial(Next(s, e, cfg))
  {
    if Ready(s, e.step) && !e.step.Enter? && !e.step.Arrive? {
      PhaseStays(s, e);
      var s' := Next(s, e, cfg);
      forall q: nat, r: nat |
          In(s', q) && In(s', r) && Busy(s'.reqs[q].phase).Some? && Busy(s'.reqs[q].phase) == Busy(s'.reqs[r].phase)
        ensures q == r
      {
      }
    }
  }

  // ----- usable tokens -----

  /** A usable token of the family p is busy in. */
  predicate Fits(p: Phase, h: TokenHash) {
    match p
    case Holding(copy) => h == copy.hash
    case Consumed(_) => false
    case Revoking(_, rest) => h in rest
    case Storing(_, rest, copy) => h in rest || h == copy.hash
    case _ => true
  }

  ghost predicate Watched(s: Sys, now: int) {
    forall q: nat, h {:trigger Fits(s.reqs[q].phase, h)} ::
      In(s, q) && Usable(s.server, h, now) && Busy(s.reqs[q].phase) == Some(s.server.tokens[h].session.family) ==>
        Fits(s.reqs[q].phase, h)
  }

  predicate Listing(r: Redis, h: TokenHash)
    requires h in r.tokens
  {
    var f := r.tokens[h].session.family;
    f in r.families && h in r.families[f].hashes && r.tokens[h].expiry <= r.families[f].expiry
  }

  ghost predicate BeingRevoked(s: Sys, f: FamilyId) {
    exists q: nat :: In(s, q) && (s.reqs[q].phase.Revoking? || s.reqs[q].phase.Storing?) && s.reqs[q].phase.family == f
  }

  ghost predicate AllListed(s: Sys, now: int) {
    forall h {:trigger Usable(s.server, h, now)} :: Usable(s.server, h, now) ==>
      Listing(s.server, h) || BeingRevoked(s, s.server.tokens[h].session.family)
  }

  ghost predicate Orderly(s: Sys, now: int) {
    AllHeld(s) && Serial(s) && OneUsable(s.server, now) && Watched(s, now) && AllListed(s, now)
  }

  /** A token usable after a step was so before it, or is what the step issues. */
  lemma UsableComes(s: Sys, e: Event, cfg: Settings, before: int, h: TokenHash)
    requires AllHeld(s) && Ready(s, e.step) && before <= e.now
    requires Usable(ServerAfter(s, e.step, e.now, cfg), h, e.now)
    ensures var w := Written(s, e.step, cfg);
      if w.Some? && w.value.0.hash == h then (e.step.Enter? || e.step.Issue?) && h !in s.server.tokens
      else
        && h in s.server.tokens && Usable(s.server, h, before)
        && ServerAfter(s, e.step, e.now, cfg).tokens[h] == s.server.tokens[h]
  {
    var w := Written(s, e.step, cfg);
    if w.Some? {
      WrittenFits(s, e.step, cfg);
    }
  }

  /** What the step writes for a session not seen before. */
  ghost predicate Issues(s: Sys, e: Event, cfg: Settings, h: TokenHash) {
    var w := Written(s, e.step, cfg); w.Some? && w.value.0.hash == h && h !in s.server.tokens
  }

  /** Nothing is usable in the family of a token just issued, and the request that issues it
      is the only one busy there. */
  lemma IssuedAlone(s: Sys, e: Event, cfg: Settings, before: int, h: TokenHash)
    requires Orderly(s, before) && before <= e.now && Ready(s, e.step) && Issues(s, e, cfg, h)
    ensures var f := Written(s, e.step, cfg).value.0.family;
      && (forall g :: Usable(s.server, g, before) ==> s.server.tokens[g].session.family != f)
      && (forall q: nat :: In(s, q) && Busy(s.reqs[q].phase) == Some(f) ==> e.step.Issue? && q == e.step.r)
  {
    var f := Written(s, e.step, cfg).value.0.family;
    forall q: nat | In(s, q) && Busy(s.reqs[q].phase) == Some(f) ensures e.step.Issue? && q == e.step.r {
      assert Held(s.server, s.reqs[q]);
      if !e.step.Enter? {
        assert Held(s.server, s.reqs[e.step.r]);
      }
    }
    forall g | Usable(s.server, g, before) ensures s.server.tokens[g].session.family != f {
      if !e.step.Enter? {
        assert Held(s.server, s.reqs[e.step.r]);
        assert s.server.tokens[g].session.family == f ==> Fits(s.reqs[e.step.r].phase, g);
      }
    }
  }

  lemma NextOneUsable(s: Sys, e: Event, cfg: Settings, before: int)
    requires Orderly(s, before) && before <= e.now && Ready(s, e.step)
    ensures OneUsable(Next(s, e, cfg).server, e.now)
  {
    var r' := Next(s, e, cfg).server;
    forall g, h | Usable(r', g, e.now) && Usable(r', h, e.now) && r'.tokens[g].session.family == r'.tokens[h].session.family
      ensures g == h
    {
      UsableComes(s, e, cfg, before, g);
      UsableComes(s, e, cfg, before, h);
      if Issues(s, e, cfg, g) {
        IssuedAlone(s, e, cfg, before, g);
      } else if Issues(s, e, cfg, h) {
        IssuedAlone(s, e, cfg, before, h);
      }
    }
  }

  /** The members that a revocation lists include the usable token. */
  lemma ListedIsMember(s: Sys, r: nat, f: FamilyId, before: int, now: int, h: TokenHash)
    requires Orderly(s, before) && before <= now && In(s, r) && s.reqs[r].phase == Replayed(f)
    requires Usable(s.server, h, now) && s.server.tokens[h].session.family == f
    ensures h in s.server.Members(f, now)
  {
    UsableBefore(s.server, before, now, h);
    forall q: nat | In(s, q) && (s.reqs[q].phase.Revoking? || s.reqs[q].phase.Storing?)
      ensures s.reqs[q].phase.family != f
    {
      assert Busy(s.reqs[r].phase) == Some(f);
    }
  }

  /** The request that steps keeps an eye on the usable token of its family, if there is one. */
  lemma StepperFits(s: Sys, e: Event, cfg: Settings, before: int, h: TokenHash)
    requires Orderly(s, before) && before <= e.now && Ready(s, e.step) && !e.step.Enter? && !e.step.Arrive?
    requires Usable(s.server, h, before) && Usable(Next(s, e, cfg).server, h, e.now)
    requires Next(s, e, cfg).server.tokens[h] == s.server.tokens[h] && !Issues(s, e, cfg, h)
    requires Busy(PhaseAfter(s, e.step.r, e.step, e.now)) == Some(s.server.tokens[h].session.family)
    ensures Fits(PhaseAfter(s, e.step.r, e.step, e.now), h)
  {
    var r, p := e.step.r, s.reqs[e.step.r].phase;
    assert Held(s.server, s.reqs[r]);
    assert Busy(p) == Some(s.server.tokens[h].session.family) ==> Fits(p, h);
    match e.step
    case Get(_, checked) =>
      if PhaseAfter(s, r, e.step, e.now).Holding? {
        assert Usable(s.server, s.reqs[r].presented, before);
      }
    case List(_) => ListedIsMember(s, r, p.family, before, e.now, h);
    case _ =>
  }

  lemma NextWatched(s: Sys, e: Event, cfg: Settings, before: int)
    requires Orderly(s, before) && before <= e.now && Ready(s, e.step)
    ensures Watched(Next(s, e, cfg), e.now)
  {
    var s' := Next(s, e, cfg);
    forall q: nat, h |
        In(s', q) && Usable(s'.server, h, e.now) && Busy(s'.reqs[q].phase) == Some(s'.server.tokens[h].session.family)
      ensures Fits(s'.reqs[q].phase, h)
    {
      UsableComes(s, e, cfg, before, h);
      if Issues(s, e, cfg, h) {
        IssuedAlone(s, e, cfg, before, h);
      } else if In(s, q) && s'.reqs[q] == s.reqs[q] {
        assert Fits(s.reqs[q].phase, h);
      } else {
        StepperFits(s, e, cfg, before, h);
      }
    }
  }

  lemma RevokesOn(s: Sys, e: Event, cfg: Settings, q: nat, h: TokenHash)
    requires AllHeld(s) && Ready(s, e.step) && !Breaks(s, e.step) && !e.step.Enter? && !e.step.Arrive? && e.step.r == q
    requires s.reqs[q].phase.Revoking? || s.reqs[q].phase.Storing?
    requires Fits(s.reqs[q].phase, h) && Usable(s.server, h, e.now) && Usable(Next(s, e, cfg).server, h, e.now)
    ensures var p := PhaseAfter(s, q, e.step, e.now);
      (p.Revoking? || p.Storing?) && p.family == s.reqs[q].phase.family
  {
    assert Held(s.server, s.reqs[q]);
    var p := s.reqs[q].phase;
    match e.step
    case Fetch(_, g) => assert s.server.Get(g, e.now).None? ==> h in p.rest - {g};
    case Store(_, _) => assert p.copy.hash != h && h in p.rest;
    case _ =>
  }

  /** A revocation that goes on keeps its family being revoked; one that ends has left no
      token usable. */
  lemma StillRevoked(s: Sys, e: Event, cfg: Settings, before: int, h: TokenHash)
    requires Orderly(s, before) && before <= e.now && Ready(s, e.step) && !Breaks(s, e.step) && !Issues(s, e, cfg, h)
    requires Usable(s.server, h, before) && Usable(Next(s, e, cfg).server, h, e.now)
    requires Usable(s.server, h, e.now)
    requires Next(s, e, cfg).server.tokens[h] == s.server.tokens[h] && BeingRevoked(s, s.server.tokens[h].session.family)
    ensures BeingRevoked(Next(s, e, cfg), s.server.tokens[h].session.family)
  {
    var f, s' := s.server.tokens[h].session.family, Next(s, e, cfg);
    var q: nat :| In(s, q) && (s.reqs[q].phase.Revoking? || s.reqs[q].phase.Storing?) && s.reqs[q].phase.family == f;
    assert Held(s.server, s.reqs[q]) && Fits(s.reqs[q].phase, h);
    if !e.step.Enter? && !e.step.Arrive? && e.step.r == q {
      RevokesOn(s, e, cfg, q, h);
      assert s'.reqs[q].phase == PhaseAfter(s, q, e.step, e.now);
    } else {
      assert s'.reqs[q] == s.reqs[q];
    }
    assert In(s', q);
  }

  /** While no revocation is under way, nothing is written beside a usable token of a family
      that stays usable. */
  lemma WritesNothing(s: Sys, e: Event, cfg: Settings, before: int, h: TokenHash)
    requires Orderly(s, before) && before <= e.now && Ready(s, e.step) && !Issues(s, e, cfg, h)
    requires Usable(s.server, h, before) && Usable(Next(s, e, cfg).server, h, e.now)
    requires Next(s, e, cfg).server.tokens[h] == s.server.tokens[h] && !BeingRevoked(s, s.server.tokens[h].session.family)
    ensures Written(s, e.step, cfg).Some? ==> Written(s, e.step, cfg).value.0.family != s.server.tokens[h].session.family
  {
    var f := s.server.tokens[h].session.family;
    if e.step.Consume? || e.step.Issue? {
      assert Held(s.server, s.reqs[e.step.r]);
      assert Busy(s.reqs[e.step.r].phase) == Some(f) ==> Fits(s.reqs[e.step.r].phase, h);
    } else if e.step.Store? {
      assert Held(s.server, s.reqs[e.step.r]) && In(s, e.step.r);
    }
  }

  /** A family set that lists a usable token goes on doing so, but for the writes of a
      revocation. */
  lemma StillListed(s: Sys, e: Event, cfg: Settings, before: int, h: TokenHash)
    requires Orderly(s, before) && before <= e.now && Ready(s, e.step) && InTime(e) && !Issues(s, e, cfg, h)
    requires Usable(s.server, h, before) && Usable(Next(s, e, cfg).server, h, e.now)
    requires Next(s, e, cfg).server.tokens[h] == s.server.tokens[h] && !BeingRevoked(s, s.server.tokens[h].session.family)
    ensures Listing(Next(s, e, cfg).server, h)
  {
    var f := s.server.tokens[h].session.family;
    var w := Written(s, e.step, cfg);
    if w.Some? && w.value.0.family == f {
      WritesNothing(s, e, cfg, before, h);
    }
  }

  lemma IssuedListed(s: Sys, e: Event, cfg: Settings, h: TokenHash)
    requires Ready(s, e.step) && Issues(s, e, cfg, h)
    ensures Listing(Next(s, e, cfg).server, h)
  {
  }

  lemma NextListed(s: Sys, e: Event, cfg: Settings, before: int)
    requires Orderly(s, before) && before <= e.now && Ready(s, e.step) && InTime(e) && !Breaks(s, e.step)
    ensures AllListed(Next(s, e, cfg), e.now)
  {
    var s' := Next(s, e, cfg);
    forall h | Usable(s'.server, h, e.now)
      ensures Listing(s'.server, h) || BeingRevoked(s', s'.server.tokens[h].session.family)
    {
      UsableComes(s, e, cfg, before, h);
      if Issues(s, e, cfg, h) {
        IssuedListed(s, e, cfg, h);
      } else if BeingRevoked(s, s.server.tokens[h].session.family) {
        StillRevoked(s, e, cfg, before, h);
      } else {
        StillListed(s, e, cfg, before, h);
      }
    }
  }

  lemma OrderlyLater(s: Sys, before: int, now: int)
    requires Orderly(s, before) && before <= now
    ensures Orderly(s, now)
  {
    forall h | Usable(s.server, h, now) ensures Usable(s.server, h, before) {
      UsableBefore(s.server, before, now, h);
    }
  }

  /** Requests that do not overlap in a family, and revocations that do not break off, keep
      at most one usable token in it, and an eye on that one. */
  lemma NextKeepsOrderly(s: Sys, e: Event, cfg: Settings, before: int)
    requires Orderly(s, before) && before <= e.now && InTime(e) && !Overlaps(s, e.step) && !Breaks(s, e.step)
    ensures Orderly(Next(s, e, cfg), e.now)
  {
    if Ready(s, e.step) {
      NextKeepsHeld(s, e, cfg);
      NextKeepsSerial(s, e, cfg);
      NextOneUsable(s, e, cfg, before);
      NextWatched(s, e, cfg, before);
      NextListed(s, e, cfg, before);
    } else {
      OrderlyLater(s, before, e.now);
    }
  }

  // ----- exchanged once -----

  /** A request that was let through, and has not failed. */
  predicate Took(q: Req) {
    q.phase.Holding? || q.phase.Consumed? || (q.phase.Done? && q.phase.outcome.Issued?)
  }

  predicate BothTook(s: Sys, q: nat, r: nat) {
    In(s, q) && In(s, r) && Took(s.reqs[q]) && Took(s.reqs[r]) && s.reqs[q].presented == s.reqs[r].presented
  }

  ghost predicate TakenOnce(s: Sys) {
    forall q, r :: BothTook(s, q, r) ==> q == r
  }

  lemma GetTakesOnce(s: Sys, e: Event, q: nat)
    requires AllHeld(s) && Ready(s, e.step) && e.step.Get? && !Overlaps(s, e.step)
    requires Judged(s.server.Get(s.reqs[e.step.r].presented, e.now), e.step.checked).Holding?
    requires In(s, q) && Took(s.reqs[q])
    ensures s.reqs[q].presented != s.reqs[e.step.r].presented
  {
    assert Held(s.server, s.reqs[q]);
  }

  lemma NextTakesOnce(s: Sys, e: Event, cfg: Settings)
    requires AllHeld(s) && TakenOnce(s) && !Overlaps(s, e.step)
    ensures TakenOnce(Next(s, e, cfg))
  {
    var s' := Next(s, e, cfg);
    forall q, r | BothTook(s', q, r) ensures q == r {
      assert BothTook(s, q, r) ==> q == r;
      if Ready(s, e.step) && e.step.Get? && s'.reqs[e.step.r].phase.Holding? {
        if q == e.step.r && r != q {
          GetTakesOnce(s, e, r);
        } else if r == e.step.r && r != q {
          GetTakesOnce(s, e, q);
        }
      }
    }
  }

  // ----- final after a replay -----

  /** No token of the family will be exchanged any more. */
  ghost predicate Final(s: Sys, f: FamilyId, now: int) {
    && (exists g :: g in s.server.tokens && s.server.tokens[g].session.family == f)
    && Spent(s.server, f, now)
    && (forall q: nat ::
          In(s, q) && (s.reqs[q].phase.Holding? || s.reqs[q].phase.Consumed?) ==> s.reqs[q].phase.copy.family != f)
  }

  /** A request ends having detected a replay and revoked the family. */
  predicate Ends(s: Sys, e: Event, f: FamilyId) {
    && !e.step.Enter? && !e.step.Arrive? && In(s, e.step.r) && Busy(s.reqs[e.step.r].phase) == Some(f)
    && PhaseAfter(s, e.step.r, e.step, e.now) == Done(ReuseDetected)
  }

  lemma LastOne(rest: set<TokenHash>, g: TokenHash, h: TokenHash)
    requires rest - {g} == {}
    ensures h in rest ==> h == g
  {
    assert h in rest && h != g ==> h in rest - {g};
  }

  lemma EndsSpent(s: Sys, e: Event, cfg: Settings, before: int, f: FamilyId, h: TokenHash)
    requires Orderly(s, before) && before <= e.now && Ready(s, e.step) && Ends(s, e, f)
    requires Usable(Next(s, e, cfg).server, h, e.now)
    ensures Next(s, e, cfg).server.tokens[h].session.family != f
  {
    var r := e.step.r;
    UsableComes(s, e, cfg, before, h);
    assert Held(s.server, s.reqs[r]);
    assert s.server.tokens[h].session.family == f ==> Fits(s.reqs[r].phase, h);
    if e.step.List? {
      if s.server.tokens[h].session.family == f {
        ListedIsMember(s, r, f, before, e.now, h);
      }
    } else if e.step.Fetch? {
      LastOne(s.reqs[r].phase.rest, e.step.hash, h);
    }
  }

  lemma EndsFinal(s: Sys, e: Event, cfg: Settings, before: int, f: FamilyId)
    requires Orderly(s, before) && before <= e.now && Ready(s, e.step) && Ends(s, e, f)
    ensures Final(Next(s, e, cfg), f, e.now)
  {
    var s', r := Next(s, e, cfg), e.step.r;
    NextKeepsHeld(s, e, cfg);
    assert Held(s.server, s.reqs[r]) && Keeps(s.server, s'.server, s.reqs[r].presented);
    forall h | Usable(s'.server, h, e.now) ensures s'.server.tokens[h].session.family != f {
      EndsSpent(s, e, cfg, before, f, h);
    }
    forall q: nat | In(s', q) && (s'.reqs[q].phase.Holding? || s'.reqs[q].phase.Consumed?)
      ensures s'.reqs[q].phase.copy.family != f
    {
      assert s'.reqs[q] == s.reqs[q];
      assert Busy(s.reqs[q].phase) == Some(f) ==> q == r;
    }
  }

  /** Whatever overlaps from then on, and whatever fails. */
  lemma NextKeepsFinal(s: Sys, e: Event, cfg: Settings, f: FamilyId, before: int)
    requires AllHeld(s) && Final(s, f, before) && before <= e.now
    ensures Final(Next(s, e, cfg), f, e.now)
  {
    var s' := Next(s, e, cfg);
    var g :| g in s.server.tokens && s.server.tokens[g].session.family == f;
    NextKeepsHeld(s, e, cfg);
    assert Keeps(s.server, s'.server, g);
    if Ready(s, e.step) {
      forall h | Usable(s'.server, h, e.now) ensures s'.server.tokens[h].session.family != f {
        UsableComes(s, e, cfg, before, h);
        if Issues(s, e, cfg, h) && e.step.Issue? {
          assert Held(s.server, s.reqs[e.step.r]);
        }
      }
      forall q: nat | In(s', q) && (s'.reqs[q].phase.Holding? || s'.reqs[q].phase.Consumed?)
        ensures s'.reqs[q].phase.copy.family != f
      {
        if !(In(s, q) && s'.reqs[q] == s.reqs[q]) && e.step.Get? {
          assert Usable(s.server, s.reqs[q].presented, e.now) && Usable(s.server, s.reqs[q].presented, before);
        }
      }
    } else {
      SpentLater(s.server, f, before, e.now);
    }
  }

  // ----- the policies under which rotation is safe -----

  /** Whether rotations of a family may overlap, and revocations break off. */
  datatype Policy = Policy(overlaps: bool, breaks: bool)

  ghost predicate Permits(p: Policy, s: Sys, step: Step) {
    (Overlaps(s, step) ==> p.overlaps) && (Breaks(s, step) ==> p.breaks)
  }

  ghost predicate Allowed(ss: seq<Sys>, es: seq<Event>, cfg: Settings, p: Policy) {
    IsRun(ss, es, cfg) && forall i :: 0 <= i < |es| ==> Permits(p, ss[i], es[i].step)
  }

  lemma StartsOrderly(now: int)
    ensures Orderly(Sys(Redis(map[], map[]), []), now) && TakenOnce(Sys(Redis(map[], map[]), []))
  {
  }

  lemma {:induction false} OrderlyAt(ss: seq<Sys>, es: seq<Event>, cfg: Settings, p: Policy, k: nat, now: int)
    requires Allowed(ss, es, cfg, p) && !p.overlaps && !p.breaks && k < |ss| && (k > 0 ==> es[k - 1].now <= now)
    ensures Orderly(ss[k], now)
    decreases k
  {
    if k == 0 {
      StartsOrderly(now);
    } else {
      var e := es[k - 1];
      OrderlyAt(ss, es, cfg, p, k - 1, e.now);
      assert Moves(ss[k - 1], e, ss[k], cfg) && Permits(p, ss[k - 1], e.step);
      NextKeepsOrderly(ss[k - 1], e, cfg, e.now);
      OrderlyLater(ss[k], e.now, now);
    }
  }

  /** If the rotations of a family do not overlap, no token is exchanged twice, whatever
      fails. */
  lemma {:induction false} TakenOnceAt(ss: seq<Sys>, es: seq<Event>, cfg: Settings, p: Policy, k: nat)
    requires Allowed(ss, es, cfg, p) && !p.overlaps && k < |ss|
    ensures TakenOnce(ss[k])
  {
    if k == 0 {
      StartsOrderly(0);
    } else {
      TakenOnceAt(ss, es, cfg, p, k - 1);
      HeldAt(ss, es, cfg, k - 1);
      assert Moves(ss[k - 1], es[k - 1], ss[k], cfg) && Permits(p, ss[k - 1], es[k - 1].step);
      NextTakesOnce(ss[k - 1], es[k - 1], cfg);
    }
  }

  lemma {:induction false} FinalFrom(ss: seq<Sys>, es: seq<Event>, cfg: Settings, i: nat, j: nat, f: FamilyId)
    requires IsRun(ss, es, cfg) && i < j < |ss| && Final(ss[i + 1], f, es[i].now)
    ensures Final(ss[j], f, es[j - 1].now)
    decreases j
  {
    if i + 1 < j {
      FinalFrom(ss, es, cfg, i, j - 1, f);
      HeldAt(ss, es, cfg, j - 1);
      assert Moves(ss[j - 1], es[j - 1], ss[j], cfg);
      NextKeepsFinal(ss[j - 1], es[j - 1], cfg, f, es[j - 2].now);
    }
  }

  /** The step exchanges a token of the family f. */
  predicate Exchanges(s: Sys, e: Event, f: FamilyId) {
    e.step.Issue? && In(s, e.step.r) && s.reqs[e.step.r].phase.Consumed? && s.reqs[e.step.r].phase.copy.family == f
  }

  /** If they do not overlap, and revocations do not break off: once a replay has been
      detected and its revocation is over, no token of the family is exchanged. */
  lemma NoneAfterReplay(ss: seq<Sys>, es: seq<Event>, cfg: Settings, p: Policy, i: nat, j: nat, f: FamilyId)
    requires Allowed(ss, es, cfg, p) && !p.overlaps && !p.breaks && i < j < |es|
    requires Ready(ss[i], es[i].step) && Ends(ss[i], es[i], f)
    ensures !Exchanges(ss[j], es[j], f)
  {
    OrderlyAt(ss, es, cfg, p, i, es[i].now);
    assert Moves(ss[i], es[i], ss[i + 1], cfg);
    EndsFinal(ss[i], es[i], cfg, es[i].now, f);
    FinalFrom(ss, es, cfg, i, j, f);
  }
}
