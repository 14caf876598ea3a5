/** Which overlaps and failures rotation over Redis survives: the runs that break it, and the
    policies that admit none of them. */
module RotationRuns {
  import opened RedisSafety
  import opened Rotations
  import opened SessionAgreement
  import opened Sessions
  import opened Wrappers

  function Last(ss: seq<Sys>): Sys
    requires ss != []
  {
    ss[|ss| - 1]
  }

  predicate Before(es: seq<Event>, now: int) {
    es == [] || es[|es| - 1].now <= now
  }

  // ----- tokens without life -----

  /** No session outlives the moment, and nobody has been let through. */
  ghost predicate Lifeless(s: Sys, now: int) {
    && (forall h :: h in s.server.tokens ==> s.server.tokens[h].session.expiresAt <= now)
    && (forall q: nat :: In(s, q) ==>
          s.reqs[q].phase.Arrived? || s.reqs[q].phase.Failed? || s.reqs[q].phase == Done(Invalid))
  }

  lemma NextLifeless(s: Sys, e: Event, cfg: Settings, before: int)
    requires Lifeless(s, before) && before <= e.now && InTime(e) && cfg.days == 0
    ensures Lifeless(Next(s, e, cfg), e.now)
  {
  }

  lemma {:induction false} LifelessAt(ss: seq<Sys>, es: seq<Event>, cfg: Settings, k: nat, now: int)
    requires IsRun(ss, es, cfg) && cfg.days == 0 && k < |ss| && (k > 0 ==> es[k - 1].now <= now)
    ensures Lifeless(ss[k], now)
    decreases k
  {
    if k > 0 {
      LifelessAt(ss, es, cfg, k - 1, es[k - 1].now);
      assert Moves(ss[k - 1], es[k - 1], ss[k], cfg);
      NextLifeless(ss[k - 1], es[k - 1], cfg, es[k - 1].now);
    }
  }

  // ----- building runs -----

  lemma Go(ss: seq<Sys>, es: seq<Event>, cfg: Settings, p: Policy, e: Event, s: Sys, s': Sys)
    returns (ss': seq<Sys>, es': seq<Event>)
    requires Allowed(ss, es, cfg, p) && s == Last(ss) && Moves(s, e, s', cfg) && Before(es, e.now) && Permits(p, s, e.step)
    ensures Allowed(ss', es', cfg, p) && ss' == ss + [s'] && es' == es + [e]
  {
    ss', es' := ss + [s'], es + [e];
    forall i | 0 <= i < |es'| ensures Moves(ss'[i], es'[i], ss'[i + 1], cfg) && Permits(p, ss'[i], es'[i].step) {
      assert i < |es| ==> Moves(ss[i], es[i], ss[i + 1], cfg) && Permits(p, ss[i], es[i].step);
    }
  }

  /** Nobody is busy in the family of h, or overlapping is permitted. */
  ghost predicate MayRead(p: Policy, s: Sys, h: TokenHash) {
    && h in s.server.tokens
    && (p.overlaps ||
        forall q: nat :: In(s, q) ==> Busy(s.reqs[q].phase) != Some(s.server.tokens[h].session.family))
  }

  /** A rotation arrives and reads its token. */
  lemma Reads(ss: seq<Sys>, es: seq<Event>, cfg: Settings, p: Policy, s: Sys, h: TokenHash, t: int, s': Sys)
    returns (ss': seq<Sys>, es': seq<Event>)
    requires Allowed(ss, es, cfg, p) && s == Last(ss) && Before(es, t) && MayRead(p, s, h)
    requires s' == Sys(s.server, s.reqs + [Req(h, Judged(s.server.Get(h, t), t))])
    ensures Allowed(ss', es', cfg, p) && Last(ss') == s' && Before(es', t) && ss <= ss' && es <= es' && |es'| == |es| + 2
  {
    var n := |s.reqs|;
    var s1 := Sys(s.server, s.reqs + [Req(h, Arrived)]);
    var arrive, get := Event(Arrive(h), t), Event(Get(n, t), t);
    ss', es' := Go(ss, es, cfg, p, arrive, s, s1);
    if !p.overlaps {
      forall q: nat | In(s1, q) ensures Busy(s1.reqs[q].phase) != Some(s.server.tokens[h].session.family) {
        assert q < n ==> In(s, q) && s1.reqs[q] == s.reqs[q];
      }
    }
    ss', es' := Go(ss', es', cfg, p, get, s1, s');
  }

  function Copy(s: Sys, h: TokenHash): Session
    requires h in s.server.tokens
  {
    s.server.tokens[h].session.(used := true)
  }

  function Exchanged(r: Redis, copy: Session, drawn: Drawn, t: int, cfg: Settings): Redis {
    r.Put(copy, Write(t, t), cfg).Put(NewSession(copy.identity, copy.family, drawn, t, cfg), Write(t, t), cfg)
  }

  /** A rotation that holds its copy writes it, and issues the successor. */
  lemma Finishes(ss: seq<Sys>, es: seq<Event>, cfg: Settings, p: Policy, s: Sys, q: nat, drawn: Drawn, t: int, s': Sys)
    returns (ss': seq<Sys>, es': seq<Event>)
    requires Allowed(ss, es, cfg, p) && s == Last(ss) && Before(es, t) && In(s, q) && s.reqs[q].phase.Holding?
    requires drawn.hash !in s.server.tokens && drawn.hash != s.reqs[q].phase.copy.hash
    requires s' == Sys(Exchanged(s.server, s.reqs[q].phase.copy, drawn, t, cfg),
                       s.reqs[q := s.reqs[q].(phase := Done(Issued(drawn.hash)))])
    ensures Allowed(ss', es', cfg, p) && Last(ss') == s' && Before(es', t) && ss <= ss' && es <= es' && |es'| == |es| + 2
    ensures Exchanges(ss'[|es| + 1], es'[|es| + 1], s.reqs[q].phase.copy.family)
  {
    var copy := s.reqs[q].phase.copy;
    var s1 := Sys(s.server.Put(copy, Write(t, t), cfg), s.reqs[q := s.reqs[q].(phase := Consumed(copy))]);
    ss', es' := Go(ss, es, cfg, p, Event(Consume(q, t), t), s, s1);
    ss', es' := Go(ss', es', cfg, p, Event(Issue(q, drawn, t, t), t), s1, s');
  }

  /** A rotation from beginning to end. */
  lemma Rotates(ss: seq<Sys>, es: seq<Event>, cfg: Settings, p: Policy, s: Sys, h: TokenHash, drawn: Drawn, t: int, s': Sys)
    returns (ss': seq<Sys>, es': seq<Event>)
    requires Allowed(ss, es, cfg, p) && s == Last(ss) && Before(es, t) && MayRead(p, s, h) && drawn.hash !in s.server.tokens
    requires Usable(s.server, h, t) && t < s.server.tokens[h].session.expiresAt && s.server.tokens[h].session.hash == h
    requires s' == Sys(Exchanged(s.server, Copy(s, h), drawn, t, cfg), s.reqs + [Req(h, Done(Issued(drawn.hash)))])
    ensures Allowed(ss', es', cfg, p) && Last(ss') == s' && Before(es', t) && ss <= ss' && es <= es' && |es'| == |es| + 4
    ensures Exchanges(ss'[|es| + 3], es'[|es| + 3], s.server.tokens[h].session.family)
  {
    var n := |s.reqs|;
    var s1 := Sys(s.server, s.reqs + [Req(h, Holding(Copy(s, h)))]);
    ss', es' := Reads(ss, es, cfg, p, s, h, t, s1);
    assert s1.reqs[n := s1.reqs[n].(phase := Done(Issued(drawn.hash)))] == s'.reqs;
    ss', es' := Finishes(ss', es', cfg, p, s1, n, drawn, t, s');
  }

  // ----- a token exchanged twice -----

  const WHO := Identity(0, 0, "viewer")

  function FirstSession(cfg: Settings): Session {
    NewSession(WHO, 0, Drawn(0, 10), 0, cfg)
  }

  function LoggedIn(cfg: Settings): Redis {
    Redis(map[], map[]).Put(FirstSession(cfg), Write(0, 0), cfg)
  }

  lemma LifeLong(cfg: Settings)
    requires cfg.days >= 1
    ensures cfg.Life() >= 3 * cfg.second && cfg.Life() % cfg.second == 0
  {
    AtLeastOnce(3, 86400 * cfg.days, cfg.second);
    Multiple(86400 * cfg.days, cfg.second);
  }

  lemma Multiple(q: int, second: Positive)
    ensures (q * second) % second == 0
  {
    var d := (q * second) / second;
    Rounded(q * second, second);
    if d > q {
      AtLeastOnce(q + 1, d, second);
    } else if d < q {
      AtLeastOnce(d + 1, q, second);
    }
  }

  lemma Enters(cfg: Settings, p: Policy) returns (ss: seq<Sys>, es: seq<Event>)
    ensures Allowed(ss, es, cfg, p) && Last(ss) == Sys(LoggedIn(cfg), []) && Before(es, 0)
  {
    var s := Sys(Redis(map[], map[]), []);
    ss, es := Go([s], [], cfg, p, Event(Enter(WHO, 0, Drawn(0, 10), 0, 0), 0), s, Sys(LoggedIn(cfg), []));
  }

  /** Two rotations that read one token before either wrote both exchange it. */
  lemma TwoExchange(cfg: Settings, p: Policy) returns (ss: seq<Sys>, es: seq<Event>)
    requires cfg.days >= 1 && p.overlaps
    ensures Allowed(ss, es, cfg, p) && !TakenOnce(Last(ss))
  {
    LifeLong(cfg);
    KeyExpiryBounds(cfg.Life(), Write(0, 0), cfg);
    ss, es := Enters(cfg, p);
    var s0, copy := Sys(LoggedIn(cfg), []), FirstSession(cfg).(used := true);
    var s1 := Sys(LoggedIn(cfg), [Req(10, Holding(copy))]);
    ss, es := Reads(ss, es, cfg, p, s0, 10, 0, s1);
    var r2 := Exchanged(LoggedIn(cfg), copy, Drawn(1, 11), 0, cfg);
    var s2 := Sys(r2, [Req(10, Holding(copy)), Req(10, Done(Issued(11)))]);
    assert s2.reqs == s1.reqs + [Req(10, Done(Issued(11)))];
    ss, es := Rotates(ss, es, cfg, p, s1, 10, Drawn(1, 11), 0, s2);
    var s3 := Sys(Exchanged(r2, copy, Drawn(2, 12), 0, cfg), [Req(10, Done(Issued(12))), Req(10, Done(Issued(11)))]);
    assert s3.reqs == s2.reqs[0 := s2.reqs[0].(phase := Done(Issued(12)))];
    ss, es := Finishes(ss, es, cfg, p, s2, 0, Drawn(2, 12), 0, s3);
    assert BothTook(s3, 0, 1);
  }

  ghost predicate AlwaysOnce(cfg: Settings, p: Policy) {
    forall ss: seq<Sys>, es: seq<Event> {:trigger Allowed(ss, es, cfg, p)} ::
      Allowed(ss, es, cfg, p) ==> TakenOnce(Last(ss))
  }

  /** No token is exchanged twice on any interleaving just when rotations of a family may not
      overlap, or tokens have no life. */
  lemma AlwaysOnceIff(cfg: Settings, p: Policy)
    ensures AlwaysOnce(cfg, p) <==> !p.overlaps || cfg.days == 0
  {
    if !p.overlaps || cfg.days == 0 {
      forall ss: seq<Sys>, es: seq<Event> {:trigger Allowed(ss, es, cfg, p)} | Allowed(ss, es, cfg, p)
        ensures TakenOnce(Last(ss))
      {
        if !p.overlaps {
          TakenOnceAt(ss, es, cfg, p, |es|);
        } else {
          LifelessAt(ss, es, cfg, |es|, if es == [] then 0 else es[|es| - 1].now);
        }
      }
    } else {
      var ss, es := TwoExchange(cfg, p);
    }
  }

  // ----- a family that survives its revocation -----

  /** Some step at j exchanges a token of the family f after a replay in it has ended at i. */
  ghost predicate Survives(ss: seq<Sys>, es: seq<Event>, i: nat, j: nat, f: FamilyId)
    requires |ss| == |es| + 1
  {
    i < j < |es| && Ready(ss[i], es[i].step) && Ends(ss[i], es[i], f) && Exchanges(ss[j], es[j], f)
  }

  ghost predicate AlwaysFinal(cfg: Settings, p: Policy) {
    forall ss: seq<Sys>, es: seq<Event>, i: nat, j: nat, f: FamilyId
        {:trigger Allowed(ss, es, cfg, p), Survives(ss, es, i, j, f)} ::
      Allowed(ss, es, cfg, p) ==> !Survives(ss, es, i, j, f)
  }

  lemma SurvivesLater(ss: seq<Sys>, es: seq<Event>, i: nat, ss': seq<Sys>, es': seq<Event>, j: nat, f: FamilyId)
    requires |ss| == |es| + 1 && |ss'| == |es'| + 1 && ss <= ss' && es <= es' && i < |es| <= j < |es'|
    requires Ready(ss[i], es[i].step) && Ends(ss[i], es[i], f) && Exchanges(ss'[j], es'[j], f)
    ensures Survives(ss', es', i, j, f)
  {
    assert ss'[i] == ss[i] && es'[i] == es[i];
  }

  /** A revocation meets one more of its members, and revokes it. */
  lemma RevokesOne(ss: seq<Sys>, es: seq<Event>, cfg: Settings, p: Policy, s: Sys, q: nat, f: FamilyId,
                   rest: set<TokenHash>, a: Session, t: int, s': Sys) returns (ss': seq<Sys>, es': seq<Event>)
    requires Allowed(ss, es, cfg, p) && s == Last(ss) && Before(es, t) && In(s, q) && s.reqs[q].phase == Revoking(f, rest)
    requires a.hash in rest && s.server.Get(a.hash, t) == Some(a)
    requires s' == Sys(s.server.Put(a.(revoked := true), Write(t, t), cfg),
                       s.reqs[q := s.reqs[q].(phase := Met(f, rest - {a.hash}))])
    ensures Allowed(ss', es', cfg, p) && Last(ss') == s' && Before(es', t) && ss <= ss' && es <= es' && |es'| == |es| + 2
    ensures rest == {a.hash} ==> Ready(ss'[|es| + 1], es'[|es| + 1].step) && Ends(ss'[|es| + 1], es'[|es| + 1], f)
  {
    var s1 := Sys(s.server, s.reqs[q := s.reqs[q].(phase := Storing(f, rest - {a.hash}, a.(revoked := true)))]);
    ss', es' := Go(ss, es, cfg, p, Event(Fetch(q, a.hash), t), s, s1);
    ss', es' := Go(ss', es', cfg, p, Event(Store(q, t), t), s1, s');
  }

  /** The server holds this session under its hash, to this instant. */
  predicate Has(r: Redis, x: Session, expiry: int) {
    x.hash in r.tokens && r.tokens[x.hash] == Keyed(x, expiry)
  }

  /** And the set of the first family has these members. */
  predicate Lists(r: Redis, hashes: set<TokenHash>, expiry: int) {
    0 in r.families && r.families[0] == Index(hashes, expiry)
  }

  predicate Only(r: Redis, hashes: set<TokenHash>) {
    r.tokens.Keys == hashes
  }

  function Second(cfg: Settings, t: int): Session {
    NewSession(WHO, 0, Drawn(1, 11), t, cfg)
  }

  function Third(cfg: Settings, t: int): Session {
    NewSession(WHO, 0, Drawn(2, 12), t, cfg)
  }

  lemma LoggedInHas(cfg: Settings, r: Redis)
    requires r == LoggedIn(cfg) && cfg.KeyExpiry(cfg.Life(), Write(0, 0)) == cfg.Life()
    ensures Has(r, FirstSession(cfg), cfg.Life()) && Lists(r, {10}, cfg.Life()) && Only(r, {10})
  {
  }

  lemma PutHas(r: Redis, x: Session, t: int, cfg: Settings, hashes: set<TokenHash>, until: int, expiry: int, r': Redis)
    requires x.family == 0 && Lists(r, hashes, until) && t < until && r' == r.Put(x, Write(t, t), cfg)
    requires expiry == cfg.KeyExpiry(x.expiresAt, Write(t, t))
    ensures Has(r', x, expiry) && Lists(r', hashes + {x.hash}, expiry) && r'.tokens.Keys == r.tokens.Keys + {x.hash}
    ensures forall y: Session, e: int {:trigger Has(r, y, e)} :: Has(r, y, e) && y.hash != x.hash ==> Has(r', y, e)
  {
  }

  /** The server after a rotation of its only active token at instant t. */
  lemma ExchangedHas(r: Redis, x: Session, drawn: Drawn, t: int, cfg: Settings, hashes: set<TokenHash>, until: int,
                     expiry: int, r': Redis)
    requires x.family == 0 && x.identity == WHO && x.hash in hashes && drawn.hash != x.hash
    requires Lists(r, hashes, until) && t < until && t < expiry && r' == Exchanged(r, x, drawn, t, cfg)
    requires expiry == cfg.KeyExpiry(x.expiresAt, Write(t, t))
    requires cfg.KeyExpiry(t + cfg.Life(), Write(t, t)) == t + cfg.Life()
    ensures Has(r', x, expiry) && Has(r', NewSession(WHO, 0, drawn, t, cfg), t + cfg.Life())
    ensures Lists(r', hashes + {drawn.hash}, t + cfg.Life())
    ensures r'.tokens.Keys == r.tokens.Keys + {x.hash, drawn.hash}
    ensures forall y: Session, e: int {:trigger Has(r, y, e)} ::
      Has(r, y, e) && y.hash != x.hash && y.hash != drawn.hash ==> Has(r', y, e)
  {
    var mid, next := r.Put(x, Write(t, t), cfg), NewSession(WHO, 0, drawn, t, cfg);
    PutHas(r, x, t, cfg, hashes, until, expiry, mid);
    assert hashes + {x.hash} == hashes;
    PutHas(mid, next, t, cfg, hashes, expiry, t + cfg.Life(), r');
    assert Has(mid, x, expiry);
  }

  /** A key written whole seconds ahead, and at once, lives exactly as long as its session. */
  lemma WholeAhead(cfg: Settings, k: int, e: int, t: int)
    requires k >= 1 && e - t == k * cfg.second
    ensures cfg.KeyExpiry(e, Write(t, t)) == e && t + cfg.second <= e
  {
    AtLeastOnce(1, k, cfg.second);
    Multiple(k, cfg.second);
    KeyExpiryExact(e, t, cfg);
  }

  lemma Distributed(k: int, m: int, n: int, second: int)
    ensures (k + m - n) * second == k * second + m * second - n * second
  {
  }

  /** So does one written n seconds into a run, if the session was issued m seconds into it. */
  lemma Steady(cfg: Settings, m: int, n: int, e: int, t: int)
    requires cfg.days >= 1 && 0 <= m && 0 <= n <= 2 && e == m * cfg.second + cfg.Life() && t == n * cfg.second
    ensures cfg.KeyExpiry(e, Write(t, t)) == e && t + cfg.second <= e
  {
    Distributed(86400 * cfg.days, m, n, cfg.second);
    WholeAhead(cfg, 86400 * cfg.days + m - n, e, t);
  }

  /** A login, and the rotation of its token at instant t. */
  lemma OneRotation(cfg: Settings, p: Policy, t: int) returns (ss: seq<Sys>, es: seq<Event>)
    requires cfg.days >= 1 && (t == 0 || t == cfg.second)
    ensures Allowed(ss, es, cfg, p) && Before(es, t) && Last(ss).reqs == [Req(10, Done(Issued(11)))]
    ensures var r := Last(ss).server;
      && Has(r, FirstSession(cfg).(used := true), cfg.Life()) && Has(r, Second(cfg, t), t + cfg.Life())
      && Lists(r, {10, 11}, t + cfg.Life()) && Only(r, {10, 11})
  {
    var n := if t == 0 then 0 else 1;
    Steady(cfg, 0, 0, cfg.Life(), 0);
    Steady(cfg, 0, n, cfg.Life(), t);
    Steady(cfg, n, n, t + cfg.Life(), t);
    ss, es := Enters(cfg, p);
    var r0, first := LoggedIn(cfg), FirstSession(cfg).(used := true);
    var r := Exchanged(r0, first, Drawn(1, 11), t, cfg);
    LoggedInHas(cfg, r0);
    ExchangedHas(r0, first, Drawn(1, 11), t, cfg, {10}, cfg.Life(), cfg.Life(), r);
    assert {10} + {11} == {10, 11} && {10} + {10, 11} == {10, 11};
    ss, es := Rotates(ss, es, cfg, p, Sys(r0, []), 10, Drawn(1, 11), t, Sys(r, [Req(10, Done(Issued(11)))]));
  }

  /** A rotation that read its token before the family was revoked, and a replay. */
  lemma ReadAndReplay(cfg: Settings, p: Policy) returns (ss: seq<Sys>, es: seq<Event>)
    requires cfg.days >= 1 && p.overlaps
    ensures Allowed(ss, es, cfg, p) && Before(es, 0)
    ensures Last(ss).reqs ==
      [Req(10, Done(Issued(11))), Req(11, Holding(Second(cfg, 0).(used := true))), Req(10, Revoking(0, {10, 11}))]
    ensures var r := Last(ss).server;
      && Has(r, FirstSession(cfg).(used := true), cfg.Life()) && Has(r, Second(cfg, 0), cfg.Life())
      && Lists(r, {10, 11}, cfg.Life()) && Only(r, {10, 11})
  {
    Steady(cfg, 0, 0, cfg.Life(), 0);
    ss, es := OneRotation(cfg, p, 0);
    var s1 := Last(ss);
    var s2 := Sys(s1.server, s1.reqs + [Req(11, Holding(Second(cfg, 0).(used := true)))]);
    ss, es := Reads(ss, es, cfg, p, s1, 11, 0, s2);
    var s3 := Sys(s1.server, s2.reqs + [Req(10, Replayed(0))]);
    ss, es := Reads(ss, es, cfg, p, s2, 10, 0, s3);
    var s4 := Sys(s1.server, s2.reqs + [Req(10, Revoking(0, {10, 11}))]);
    ss, es := Go(ss, es, cfg, p, Event(List(2), 0), s3, s4);
  }

  lemma BothRevoked(cfg: Settings, p: Policy) returns (ss: seq<Sys>, es: seq<Event>)
    requires cfg.days >= 1 && p.overlaps
    ensures Allowed(ss, es, cfg, p) && Before(es, 0) && es != [] && Only(Last(ss).server, {10, 11})
    ensures Last(ss).reqs ==
      [Req(10, Done(Issued(11))), Req(11, Holding(Second(cfg, 0).(used := true))), Req(10, Done(ReuseDetected))]
    ensures Ready(ss[|es| - 1], es[|es| - 1].step) && Ends(ss[|es| - 1], es[|es| - 1], 0)
  {
    Steady(cfg, 0, 0, cfg.Life(), 0);
    ss, es := ReadAndReplay(cfg, p);
    var s, first, second := Last(ss), FirstSession(cfg).(used := true), Second(cfg, 0);
    var r1 := s.server.Put(first.(revoked := true), Write(0, 0), cfg);
    PutHas(s.server, first.(revoked := true), 0, cfg, {10, 11}, cfg.Life(), cfg.Life(), r1);
    assert {10, 11} - {10} == {11} && {11} - {11} == {};
    assert Has(s.server, second, cfg.Life());
    var s1 := Sys(r1, s.reqs[2 := Req(10, Revoking(0, {11}))]);
    ss, es := RevokesOne(ss, es, cfg, p, s, 2, 0, {10, 11}, first, 0, s1);
    var s2 := Sys(r1.Put(second.(revoked := true), Write(0, 0), cfg), s1.reqs[2 := Req(10, Done(ReuseDetected))]);
    ss, es := RevokesOne(ss, es, cfg, p, s1, 2, 0, {11}, second, 0, s2);
  }

  /** The rotation then writes its token back unrevoked, and exchanges it. */
  lemma LostRevocation(cfg: Settings, p: Policy) returns (ss: seq<Sys>, es: seq<Event>, i: nat, j: nat)
    requires cfg.days >= 1 && p.overlaps
    ensures Allowed(ss, es, cfg, p) && Survives(ss, es, i, j, 0)
  {
    ss, es := BothRevoked(cfg, p);
    i := |es| - 1;
    var s, second := Last(ss), Second(cfg, 0).(used := true);
    var s' := Sys(Exchanged(s.server, second, Drawn(2, 12), 0, cfg), s.reqs[1 := Req(11, Done(Issued(12)))]);
    var ss', es' := Finishes(ss, es, cfg, p, s, 1, Drawn(2, 12), 0, s');
    j := |es| + 1;
    SurvivesLater(ss, es, i, ss', es', j, 0);
    ss, es := ss', es';
  }

  /** Two rotations, a second apart. */
  lemma TwoRotations(cfg: Settings, p: Policy) returns (ss: seq<Sys>, es: seq<Event>)
    requires cfg.days >= 1
    ensures Allowed(ss, es, cfg, p) && Before(es, 2 * cfg.second)
    ensures Last(ss).reqs == [Req(10, Done(Issued(11))), Req(11, Done(Issued(12)))]
    ensures var r := Last(ss).server; var t := cfg.second;
      && Has(r, FirstSession(cfg).(used := true), cfg.Life())
      && Has(r, Second(cfg, t).(used := true), t + cfg.Life()) && Has(r, Third(cfg, 2 * t), 2 * t + cfg.Life())
      && Lists(r, {10, 11, 12}, 2 * t + cfg.Life()) && Only(r, {10, 11, 12})
  {
    var t := cfg.second;
    Steady(cfg, 1, 2, t + cfg.Life(), 2 * t);
    Steady(cfg, 2, 2, 2 * t + cfg.Life(), 2 * t);
    ss, es := OneRotation(cfg, p, t);
    var s, second := Last(ss), Second(cfg, t).(used := true);
    var r := Exchanged(s.server, second, Drawn(2, 12), 2 * t, cfg);
    assert Has(s.server, Second(cfg, t), t + cfg.Life()) && Has(s.server, FirstSession(cfg).(used := true), cfg.Life());
    ExchangedHas(s.server, second, Drawn(2, 12), 2 * t, cfg, {10, 11}, t + cfg.Life(), t + cfg.Life(), r);
    assert {10, 11} + {12} == {10, 11, 12} && {10, 11} + {11, 12} == {10, 11, 12};
    ss, es := Rotates(ss, es, cfg, p, s, 11, Drawn(2, 12), 2 * t, Sys(r, s.reqs + [Req(11, Done(Issued(12)))]));
  }

  /** A replay of the first token, about to revoke. */
  lemma ReplayFound(cfg: Settings, p: Policy) returns (ss: seq<Sys>, es: seq<Event>)
    requires cfg.days >= 1
    ensures Allowed(ss, es, cfg, p) && Before(es, 2 * cfg.second)
    ensures Last(ss).reqs ==
      [Req(10, Done(Issued(11))), Req(11, Done(Issued(12))), Req(10, Revoking(0, {10, 11, 12}))]
    ensures var r := Last(ss).server; var t := cfg.second;
      && Has(r, FirstSession(cfg).(used := true), cfg.Life())
      && Has(r, Second(cfg, t).(used := true), t + cfg.Life()) && Has(r, Third(cfg, 2 * t), 2 * t + cfg.Life())
      && Lists(r, {10, 11, 12}, 2 * t + cfg.Life()) && Only(r, {10, 11, 12})
  {
    var t := cfg.second;
    Steady(cfg, 0, 2, cfg.Life(), 2 * t);
    ss, es := TwoRotations(cfg, p);
    var s := Last(ss);
    var s1 := Sys(s.server, s.reqs + [Req(10, Replayed(0))]);
    ss, es := Reads(ss, es, cfg, p, s, 10, 2 * t, s1);
    var s2 := Sys(s.server, s.reqs + [Req(10, Revoking(0, {10, 11, 12}))]);
    ss, es := Go(ss, es, cfg, p, Event(List(2), 2 * t), s1, s2);
  }

  /** The revocation breaks off after that token, and leaves the family set to expire with it. */
  lemma BrokenOff(cfg: Settings, p: Policy) returns (ss: seq<Sys>, es: seq<Event>)
    requires cfg.days >= 1 && p.breaks
    ensures Allowed(ss, es, cfg, p) && Before(es, 2 * cfg.second)
    ensures Last(ss).reqs == [Req(10, Done(Issued(11))), Req(11, Done(Issued(12))), Req(10, Failed)]
    ensures var r := Last(ss).server; var t := cfg.second;
      && Has(r, Second(cfg, t).(used := true), t + cfg.Life()) && Has(r, Third(cfg, 2 * t), 2 * t + cfg.Life())
      && Lists(r, {10, 11, 12}, cfg.Life()) && Only(r, {10, 11, 12})
  {
    var t, life := cfg.second, cfg.Life();
    Steady(cfg, 0, 2, life, 2 * t);
    ss, es := ReplayFound(cfg, p);
    var s, first := Last(ss), FirstSession(cfg).(used := true);
    assert Has(s.server, Second(cfg, t).(used := true), t + life) && Has(s.server, Third(cfg, 2 * t), 2 * t + life);
    var r := s.server.Put(first.(revoked := true), Write(2 * t, 2 * t), cfg);
    PutHas(s.server, first.(revoked := true), 2 * t, cfg, {10, 11, 12}, 2 * t + life, life, r);
    assert {10, 11, 12} - {10} == {11, 12} && {10, 11, 12} + {10} == {10, 11, 12};
    var s1 := Sys(r, s.reqs[2 := Req(10, Revoking(0, {11, 12}))]);
    ss, es := RevokesOne(ss, es, cfg, p, s, 2, 0, {10, 11, 12}, first, 2 * t, s1);
    ss, es := Go(ss, es, cfg, p, Event(Fail(2), 2 * t), s1, Sys(r, s.reqs[2 := Req(10, Failed)]));
  }

  /** Once the set has expired, a revocation finds it empty, and the last token is exchanged. */
  lemma LostMember(cfg: Settings, p: Policy) returns (ss: seq<Sys>, es: seq<Event>, i: nat, j: nat)
    requires cfg.days >= 1 && p.breaks
    ensures Allowed(ss, es, cfg, p) && Survives(ss, es, i, j, 0)
  {
    var t, life := cfg.second, cfg.Life();
    LifeLong(cfg);
    ss, es := BrokenOff(cfg, p);
    var s := Last(ss);
    var s1 := Sys(s.server, s.reqs + [Req(11, Replayed(0))]);
    assert Has(s.server, Second(cfg, t).(used := true), t + life) && Has(s.server, Third(cfg, 2 * t), 2 * t + life);
    ss, es := Reads(ss, es, cfg, p, s, 11, life, s1);
    var s2 := Sys(s.server, s.reqs + [Req(11, Done(ReuseDetected))]);
    ss, es := Go(ss, es, cfg, p, Event(List(3), life), s1, s2);
    i := |es| - 1;
    var s3 := Sys(Exchanged(s.server, Copy(s2, 12), Drawn(3, 13), life, cfg), s2.reqs + [Req(12, Done(Issued(13)))]);
    var ss', es' := Rotates(ss, es, cfg, p, s2, 12, Drawn(3, 13), life, s3);
    j := |es| + 3;
    SurvivesLater(ss, es, i, ss', es', j, 0);
    ss, es := ss', es';
  }

  lemma LifelessFinal(ss: seq<Sys>, es: seq<Event>, cfg: Settings, i: nat, j: nat, f: FamilyId)
    requires IsRun(ss, es, cfg) && cfg.days == 0 && i < j < |es|
    ensures !Exchanges(ss[j], es[j], f)
  {
    LifelessAt(ss, es, cfg, j, es[j].now);
  }

  /** Once a replay has been detected and its revocation is over, no token of the family is
      exchanged on any interleaving just when rotations of a family may not overlap and
      revocations not break off, or tokens have no life. */
  lemma AlwaysFinalIff(cfg: Settings, p: Policy)
    ensures AlwaysFinal(cfg, p) <==> (!p.overlaps && !p.breaks) || cfg.days == 0
  {
    if (!p.overlaps && !p.breaks) || cfg.days == 0 {
      forall ss: seq<Sys>, es: seq<Event>, i: nat, j: nat, f: FamilyId
          {:trigger Allowed(ss, es, cfg, p), Survives(ss, es, i, j, f)} | Allowed(ss, es, cfg, p)
        ensures !Survives(ss, es, i, j, f)
      {
        if i < j < |es| {
          if cfg.days == 0 {
            LifelessFinal(ss, es, cfg, i, j, f);
          } else if Ready(ss[i], es[i].step) && Ends(ss[i], es[i], f) {
            NoneAfterReplay(ss, es, cfg, p, i, j, f);
          }
        }
      }
    } else if p.overlaps {
      var ss, es, i, j := LostRevocation(cfg, p);
    } else {
      var ss, es, i, j := LostMember(cfg, p);
    }
  }
}
