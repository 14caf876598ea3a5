/** The Redis store, whose keys and family index expire, against the store that
    never forgets. */
module SessionAgreement {
  import opened Sessions
  import opened SessionSafety

  // ----- what the server keeps -----

  /** Keys and family sets hold the sessions they are named after. */
  ghost predicate WellKeyed(r: Redis) {
    && (forall h :: h in r.tokens ==> r.tokens[h].session.hash == h)
    && (forall f, h {:trigger h in r.families[f].hashes} :: f in r.families && h in r.families[f].hashes ==>
          h in r.tokens && r.tokens[h].session.family == f)
  }

  /** No key dies a second or more before its session. */
  ghost predicate Lasting(r: Redis, cfg: Settings) {
    forall h :: h in r.tokens ==> r.tokens[h].session.expiresAt < r.tokens[h].expiry + cfg.second
  }

  ghost predicate IsRevoked(r: Redis, h: TokenHash) {
    h in r.tokens && r.tokens[h].session.revoked
  }

  ghost predicate MaybeRevoked(s: Session, s': Session, f: FamilyId) {
    s' == s || (s.family == f && s' == s.(revoked := true))
  }

  /** r' is r with sessions of the family f revoked. */
  ghost predicate Marked(r: Redis, r': Redis, f: FamilyId) {
    && r'.tokens.Keys == r.tokens.Keys
    && (forall h {:trigger r'.tokens[h]} :: h in r.tokens ==> MaybeRevoked(r.tokens[h].session, r'.tokens[h].session, f))
    && (forall g :: g != f ==> (g in r'.families <==> g in r.families))
    && (forall g :: g != f && g in r.families ==> r'.families[g] == r.families[g])
  }

  lemma RevokedMarks(r: Redis, f: FamilyId, v: Visit, cfg: Settings)
    requires WellKeyed(r) && Lasting(r, cfg) && v.stored.read <= v.stored.at
    requires v.hash in r.tokens ==> r.tokens[v.hash].session.family == f
    ensures var r' := r.Revoked(v, cfg); WellKeyed(r') && Lasting(r', cfg) && Marked(r, r', f)
    ensures r.Live(v.hash, v.got) ==> IsRevoked(r.Revoked(v, cfg), v.hash)
  {
    if r.Live(v.hash, v.got) {
      KeyExpiryBounds(r.tokens[v.hash].session.expiresAt, v.stored, cfg);
    }
  }

  lemma MarkedTwice(r: Redis, r1: Redis, r2: Redis, f: FamilyId)
    requires Marked(r, r1, f) && Marked(r1, r2, f)
    ensures Marked(r, r2, f)
  {
    forall h | h in r.tokens ensures MaybeRevoked(r.tokens[h].session, r2.tokens[h].session, f) {
      assert MaybeRevoked(r.tokens[h].session, r1.tokens[h].session, f);
    }
  }

  ghost predicate InFamily(r: Redis, f: FamilyId, visits: seq<Visit>) {
    forall i :: 0 <= i < |visits| ==> visits[i].hash in r.tokens && r.tokens[visits[i].hash].session.family == f
  }

  /** The session under h is a second or more from its end. */
  ghost predicate Far(r: Redis, h: TokenHash, now: int, cfg: Settings) {
    h in r.tokens && now + cfg.second <= r.tokens[h].session.expiresAt
  }

  /** Whoever is visited a second or more before the end of its session is revoked. */
  ghost predicate Reaches(r: Redis, r': Redis, visits: seq<Visit>, cfg: Settings) {
    forall i {:trigger Far(r, visits[i].hash, visits[i].got, cfg)} ::
      0 <= i < |visits| && Far(r, visits[i].hash, visits[i].got, cfg) ==> IsRevoked(r', visits[i].hash)
  }

  lemma {:induction false} RevokedAllMarks(r: Redis, f: FamilyId, visits: seq<Visit>, cfg: Settings, listed: int, done: int)
    requires WellKeyed(r) && Lasting(r, cfg) && InFamily(r, f, visits) && Timely(visits, listed, done)
    ensures var r' := r.RevokedAll(visits, cfg);
      WellKeyed(r') && Lasting(r', cfg) && Marked(r, r', f) && Reaches(r, r', visits, cfg)
    decreases |visits|
  {
    if visits != [] {
      var n := |visits| - 1;
      var v, mid, r' := visits[n], r.RevokedAll(visits[..n], cfg), r.RevokedAll(visits, cfg);
      RevokedAllMarks(r, f, visits[..n], cfg, listed, done);
      assert MaybeRevoked(r.tokens[v.hash].session, mid.tokens[v.hash].session, f);
      RevokedMarks(mid, f, v, cfg);
      MarkedTwice(r, mid, r', f);
      ReachesMore(r, mid, r', visits, cfg, f);
    }
  }

  lemma ReachesMore(r: Redis, mid: Redis, r': Redis, visits: seq<Visit>, cfg: Settings, f: FamilyId)
    requires visits != [] && Marked(r, mid, f) && Marked(mid, r', f) && Lasting(mid, cfg)
    requires Reaches(r, mid, visits[..|visits| - 1], cfg)
    requires var v := visits[|visits| - 1]; mid.Live(v.hash, v.got) ==> IsRevoked(r', v.hash)
    ensures Reaches(r, r', visits, cfg)
  {
    var n := |visits| - 1;
    forall i | 0 <= i <= n && Far(r, visits[i].hash, visits[i].got, cfg) ensures IsRevoked(r', visits[i].hash) {
      var h := visits[i].hash;
      assert MaybeRevoked(r.tokens[h].session, mid.tokens[h].session, f);
      assert MaybeRevoked(mid.tokens[h].session, r'.tokens[h].session, f);
      if i < n {
        assert visits[..n][i] == visits[i] && Far(r, visits[..n][i].hash, visits[..n][i].got, cfg);
      }
    }
  }

  /** A family set lists h and dies less than a second before its session, if at all. */
  ghost predicate Lists(r: Redis, f: FamilyId, h: TokenHash, cfg: Settings) {
    && f in r.families && h in r.families[f].hashes && h in r.tokens
    && r.tokens[h].session.expiresAt < r.families[f].expiry + cfg.second
  }

  /** Revoking a family reaches every member that the set lists and that is a second or
      more from its end. */
  lemma RevokeReaches(r: Redis, f: FamilyId, from: int, done: int, cfg: Settings, after: Redis)
    requires WellKeyed(r) && Lasting(r, cfg) && RedisRevoke(r, f, from, done, cfg, after)
    ensures WellKeyed(after) && Lasting(after, cfg) && Marked(r, after, f)
    ensures forall h :: Lists(r, f, h, cfg) && Far(r, h, done, cfg) ==> IsRevoked(after, h)
  {
    var listed: int, visits: seq<Visit> :|
      && from <= listed <= done && Enumerates(r, f, listed, visits) && Timely(visits, listed, done)
      && after == r.RevokedAll(visits, cfg);
    forall i | 0 <= i < |visits| ensures visits[i].hash in r.tokens && r.tokens[visits[i].hash].session.family == f {
      assert visits[i].hash in r.Members(f, listed);
    }
    RevokedAllMarks(r, f, visits, cfg, listed, done);
    forall h | Lists(r, f, h, cfg) && Far(r, h, done, cfg) ensures IsRevoked(after, h) {
      assert h in r.Members(f, listed);
      var i :| 0 <= i < |visits| && visits[i].hash == h;
      assert Far(r, visits[i].hash, visits[i].got, cfg);
    }
  }

  // ----- the two stores -----

  /** The record s that Redis keeps is the memory store's t, or t from before it was
      revoked. */
  ghost predicate Agrees(s: Session, t: Session) {
    s == t.(revoked := s.revoked) && (s.revoked ==> t.revoked)
  }

  ghost predicate Known(m: Memory, r: Redis) {
    && WellKeyed(r) && m.Keys == r.tokens.Keys
    && (forall h {:trigger Agrees(r.tokens[h].session, m[h])} :: h in m ==> Agrees(r.tokens[h].session, m[h]))
  }

  /** A second or more from their end, tokens that are not revoked are listed, and those
      that are, are so in Redis too. */
  ghost predicate Timed(m: Memory, r: Redis, now: int, cfg: Settings) {
    && (forall h {:trigger Far(r, h, now, cfg)} :: h in m && Far(r, h, now, cfg) ==>
          if m[h].revoked then IsRevoked(r, h) else Lists(r, m[h].family, h, cfg))
  }

  ghost predicate Mirrors(m: Memory, r: Redis, now: int, cfg: Settings) {
    Known(m, r) && Lasting(r, cfg) && Timed(m, r, now, cfg)
  }

  ghost predicate Related(m: Memory, r: Redis, now: int, cfg: Settings) {
    Families(m) && IssuedBy(m, now, cfg) && Mirrors(m, r, now, cfg)
  }

  /** The token presented is one that may still be used or replayed, but its key is gone:
      the part of the session's last second that the key's expiry, in whole seconds,
      rounded away. */
  ghost predicate Forgotten(m: Memory, r: Redis, q: Request) {
    && q.Rotate? && q.presented in m && !r.Live(q.presented, q.got)
    && !m[q.presented].revoked && q.checked < m[q.presented].expiresAt
  }

  /** The token presented belongs to a revoked family, but its live key does not say so:
      it outlived the family set, and the revocation did not reach it. */
  ghost predicate Escaped(m: Memory, r: Redis, q: Request) {
    && q.Rotate? && q.presented in m && r.Live(q.presented, q.got) && !IsRevoked(r, q.presented)
    && m[q.presented].revoked && q.checked < m[q.presented].expiresAt
  }

  ghost predicate Slips(m: Memory, r: Redis, q: Request) {
    Forgotten(m, r, q) || Escaped(m, r, q)
  }

  lemma TimePasses(m: Memory, r: Redis, now: int, later: int, cfg: Settings)
    requires Related(m, r, now, cfg) && now <= later
    ensures Related(m, r, later, cfg)
  {
    forall h | h in m && Far(r, h, later, cfg)
      ensures if m[h].revoked then IsRevoked(r, h) else Lists(r, m[h].family, h, cfg)
    {
      assert Far(r, h, now, cfg);
    }
  }

  /** The same outcome over stores that hold the same sessions, unless the token presented
      slips. */
  lemma SameOutcome(m: Memory, r: Redis, q: Request, cfg: Settings, after: Redis, o: Outcome)
    requires Known(m, r) && RedisStep(r, q, cfg, after, o)
    ensures MemoryStep(m, q, cfg).1 == o <==> !Slips(m, r, q)
  {
    if q.Rotate? && q.presented in m {
      assert Agrees(r.tokens[q.presented].session, m[q.presented]);
    }
  }

  /** A token slips only in the last second of its session. */
  ghost predicate InLastSecond(m: Memory, q: Request, cfg: Settings) {
    q.Rotate? && q.presented in m && q.checked < m[q.presented].expiresAt < q.got + cfg.second
  }

  lemma SlipsLate(m: Memory, r: Redis, q: Request, cfg: Settings)
    requires Related(m, r, q.Start(), cfg) && Slips(m, r, q)
    ensures InLastSecond(m, q, cfg)
  {
    var h := q.presented;
    assert Agrees(r.tokens[h].session, m[h]);
    assert !Far(r, h, q.got, cfg);
  }

  // ----- a login -----

  lemma PutKnown(m: Memory, r: Redis, s: Session, w: Write, cfg: Settings)
    requires Known(m, r) && Lasting(r, cfg) && w.read <= w.at
    requires s.hash in m ==> m[s.hash].family == s.family
    ensures Known(MemoryPut(m, s), r.Put(s, w, cfg)) && Lasting(r.Put(s, w, cfg), cfg)
  {
    KeyExpiryBounds(s.expiresAt, w, cfg);
    var m', r' := MemoryPut(m, s), r.Put(s, w, cfg);
    forall h | h in m' ensures Agrees(r'.tokens[h].session, m'[h]) {
      assert h in m ==> Agrees(r.tokens[h].session, m[h]);
    }
    assert s.hash in m ==> Agrees(r.tokens[s.hash].session, m[s.hash]);
  }

  lemma LoginKeepsTimed(m: Memory, r: Redis, s: Session, w: Write, now: int, cfg: Settings)
    requires Known(m, r) && Timed(m, r, now, cfg) && now <= w.read <= w.at
    requires s.hash !in m && !s.revoked && forall h :: h in m ==> m[h].family != s.family
    ensures Timed(MemoryPut(m, s), r.Put(s, w, cfg), w.at, cfg)
  {
    KeyExpiryBounds(s.expiresAt, w, cfg);
    var m', r' := MemoryPut(m, s), r.Put(s, w, cfg);
    forall h | h in m' && Far(r', h, w.at, cfg)
      ensures if m'[h].revoked then IsRevoked(r', h) else Lists(r', m'[h].family, h, cfg)
    {
      if h != s.hash {
        assert Far(r, h, now, cfg);
      }
    }
  }

  // ----- a rotation -----

  /** new' succeeds old' in its family. */
  ghost predicate Succeeds(m: Memory, old': Session, new': Session) {
    && old'.hash in m && m[old'.hash].Active() && old' == m[old'.hash].(used := true)
    && new'.hash !in m && new'.family == old'.family && !new'.revoked
    && (forall h :: h in m && m[h].family == old'.family ==> m[h].expiresAt <= old'.expiresAt <= new'.expiresAt)
  }

  /** The family set after both writes, for members a second or more from their end. */
  lemma BothListed(m: Memory, r: Redis, old': Session, new': Session, used: Write, stored: Write, now: int, done: int,
                   cfg: Settings, r': Redis, h: TokenHash)
    requires Known(m, r) && Timed(m, r, now, cfg) && Succeeds(m, old', new')
    requires now <= used.read <= used.at <= stored.read <= stored.at <= done
    requires r' == r.Put(old', used, cfg).Put(new', stored, cfg)
    requires Far(r', h, done, cfg) && r'.tokens[h].session.family == old'.family
    requires h in m && h != old'.hash ==> !m[h].revoked
    ensures Lists(r', old'.family, h, cfg)
  {
    var mid, f := r.Put(old', used, cfg), old'.family;
    KeyExpiryBounds(old'.expiresAt, used, cfg);
    KeyExpiryBounds(new'.expiresAt, stored, cfg);
    if h != new'.hash {
      assert Agrees(r.tokens[h].session, m[h]);
      assert h != old'.hash ==> Far(r, h, now, cfg) && Lists(r, f, h, cfg);
      assert h in mid.families[f].hashes;
      assert h in mid.Members(f, stored.at);
    }
  }

  lemma RotateKeepsTimed(m: Memory, r: Redis, old': Session, new': Session, used: Write, stored: Write, now: int, done: int,
                         cfg: Settings, m': Memory, r': Redis)
    requires Families(m) && Known(m, r) && Timed(m, r, now, cfg) && Succeeds(m, old', new')
    requires now <= used.read <= used.at <= stored.read <= stored.at <= done
    requires m' == MemoryPut(MemoryPut(m, old'), new') && r' == r.Put(old', used, cfg).Put(new', stored, cfg)
    ensures Timed(m', r', done, cfg)
  {
    forall h | h in m' && Far(r', h, done, cfg)
      ensures if m'[h].revoked then IsRevoked(r', h) else Lists(r', m'[h].family, h, cfg)
    {
      if m'[h].family == old'.family {
        if h in m {
          assert Agrees(r.tokens[h].session, m[h]);
        }
        BothListed(m, r, old', new', used, stored, now, done, cfg, r', h);
      } else {
        assert Agrees(r.tokens[h].session, m[h]);
        assert Far(r, h, now, cfg);
      }
    }
  }

  // ----- a replay -----

  lemma ReplayKeepsKnown(m: Memory, r: Redis, f: FamilyId, after: Redis)
    requires Known(m, r) && WellKeyed(after) && Marked(r, after, f)
    ensures Known(MemoryRevoke(m, f), after)
  {
    forall h | h in m ensures Agrees(after.tokens[h].session, MemoryRevoke(m, f)[h]) {
      assert Agrees(r.tokens[h].session, m[h]);
      assert MaybeRevoked(r.tokens[h].session, after.tokens[h].session, f);
    }
  }

  lemma ReplayKeepsTimed(m: Memory, r: Redis, f: FamilyId, now: int, from: int, done: int, cfg: Settings, after: Redis)
    requires Known(m, r) && Lasting(r, cfg) && Timed(m, r, now, cfg) && now <= from <= done
    requires forall h :: h in m && m[h].family == f ==> !m[h].revoked
    requires RedisRevoke(r, f, from, done, cfg, after)
    ensures Timed(MemoryRevoke(m, f), after, done, cfg) && Lasting(after, cfg)
    ensures Known(MemoryRevoke(m, f), after)
  {
    var m' := MemoryRevoke(m, f);
    RevokeReaches(r, f, from, done, cfg, after);
    ReplayKeepsKnown(m, r, f, after);
    forall h | h in m' && Far(after, h, done, cfg)
      ensures if m'[h].revoked then IsRevoked(after, h) else Lists(after, m'[h].family, h, cfg)
    {
      assert Agrees(r.tokens[h].session, m[h]);
      assert MaybeRevoked(r.tokens[h].session, after.tokens[h].session, f);
      assert Far(r, h, now, cfg) && Far(r, h, done, cfg);
    }
  }

  // ----- one request -----

  lemma LoginMirrors(m: Memory, r: Redis, q: Request, cfg: Settings, after: Redis, o: Outcome)
    requires Mirrors(m, r, q.Start(), cfg) && q.Ordered() && FreshFor(m, q) && q.Login?
    requires RedisStep(r, q, cfg, after, o)
    ensures Mirrors(MemoryStep(m, q, cfg).0, after, q.End(), cfg)
  {
    var s := NewSession(q.identity, q.family, q.drawn, q.issued, cfg);
    PutKnown(m, r, s, q.stored, cfg);
    LoginKeepsTimed(m, r, s, q.stored, q.Start(), cfg);
  }

  lemma ExchangeMirrors(m: Memory, r: Redis, old': Session, new': Session, used: Write, stored: Write, now: int,
                        done: int, cfg: Settings)
    requires Families(m) && Mirrors(m, r, now, cfg) && Succeeds(m, old', new')
    requires now <= used.read <= used.at <= stored.read <= stored.at <= done
    ensures Mirrors(MemoryPut(MemoryPut(m, old'), new'), r.Put(old', used, cfg).Put(new', stored, cfg), done, cfg)
  {
    var m1, r1 := MemoryPut(m, old'), r.Put(old', used, cfg);
    PutKnown(m, r, old', used, cfg);
    PutKnown(m1, r1, new', stored, cfg);
    RotateKeepsTimed(m, r, old', new', used, stored, now, done, cfg, MemoryPut(m1, new'), r1.Put(new', stored, cfg));
  }

  lemma RotateMirrors(m: Memory, r: Redis, q: Request, cfg: Settings, after: Redis, o: Outcome)
    requires Related(m, r, q.Start(), cfg) && q.Ordered() && FreshFor(m, q) && q.Rotate?
    requires RedisStep(r, q, cfg, after, o) && !Slips(m, r, q)
    ensures Mirrors(MemoryStep(m, q, cfg).0, after, q.End(), cfg)
  {
    TimePasses(m, r, q.Start(), q.End(), cfg);
    SameOutcome(m, r, q, cfg, after, o);
    var h := q.presented;
    if h in m && !o.Invalid? {
      assert Agrees(r.tokens[h].session, m[h]);
      var s := m[h];
      if s.used {
        ReplayKeepsTimed(m, r, s.family, q.Start(), q.checked, q.End(), cfg, after);
      } else {
        ExchangeMirrors(m, r, s.(used := true), NewSession(s.identity, s.family, q.drawn, q.issued, cfg), q.used, q.stored,
                        q.Start(), q.End(), cfg);
      }
    }
  }

  /** A request whose token does not slip keeps the stores related to its end. */
  lemma StepKeepsRelated(m: Memory, r: Redis, q: Request, cfg: Settings, after: Redis, o: Outcome)
    requires Related(m, r, q.Start(), cfg) && q.Ordered() && FreshFor(m, q)
    requires RedisStep(r, q, cfg, after, o) && !Slips(m, r, q)
    ensures Related(MemoryStep(m, q, cfg).0, after, q.End(), cfg)
  {
    IssuedLater(m, q.Start(), q.issued, cfg);
    StepKeepsFamilies(m, q, cfg);
    IssuedLater(MemoryStep(m, q, cfg).0, q.issued, q.End(), cfg);
    if q.Login? {
      LoginMirrors(m, r, q, cfg, after, o);
    } else {
      RotateMirrors(m, r, q, cfg, after, o);
    }
  }

  // ----- runs -----

  ghost predicate RedisRun(qs: seq<Request>, cfg: Settings, rs: seq<Redis>, os: seq<Outcome>) {
    && |rs| == |qs| + 1 && |os| == |qs| && rs[0] == Redis(map[], map[])
    && (forall i :: 0 <= i < |qs| ==> RedisStep(rs[i], qs[i], cfg, rs[i + 1], os[i]))
  }

  ghost predicate BothRun(qs: seq<Request>, cfg: Settings, ms: seq<Memory>, os: seq<Outcome>, rs: seq<Redis>,
                          os': seq<Outcome>) {
    MemoryRun(qs, cfg, ms, os) && RedisRun(qs, cfg, rs, os')
  }

  /** No token slipped in the first n requests. */
  ghost predicate Remembered(qs: seq<Request>, ms: seq<Memory>, rs: seq<Redis>, n: nat)
    requires n <= |qs| && |ms| == |rs| == |qs| + 1
  {
    forall i :: 0 <= i < n ==> !Slips(ms[i], rs[i], qs[i])
  }

  lemma {:induction false} RelatedUntil(qs: seq<Request>, cfg: Settings, ms: seq<Memory>, os: seq<Outcome>,
                                        rs: seq<Redis>, os': seq<Outcome>, n: nat, now: int)
    requires BothRun(qs, cfg, ms, os, rs, os') && n <= |qs| && Remembered(qs, ms, rs, n)
    requires n > 0 ==> qs[n - 1].End() <= now
    ensures Related(ms[n], rs[n], now, cfg)
    decreases n
  {
    if n > 0 {
      var q := qs[n - 1];
      RelatedUntil(qs, cfg, ms, os, rs, os', n - 1, q.Start());
      assert MemoryServes(ms[n - 1], q, cfg, ms[n], os[n - 1]);
      StepKeepsRelated(ms[n - 1], rs[n - 1], q, cfg, rs[n], os'[n - 1]);
      TimePasses(ms[n], rs[n], q.End(), now, cfg);
    }
  }

  /** The request after a run on which nothing slipped is answered alike unless its token
      slips. */
  lemma NextAnswer(qs: seq<Request>, cfg: Settings, ms: seq<Memory>, os: seq<Outcome>, rs: seq<Redis>,
                   os': seq<Outcome>, n: nat)
    requires BothRun(qs, cfg, ms, os, rs, os') && n < |qs| && Remembered(qs, ms, rs, n)
    ensures os[n] == os'[n] <==> !Slips(ms[n], rs[n], qs[n])
  {
    RelatedUntil(qs, cfg, ms, os, rs, os', n, qs[n].Start());
    assert MemoryServes(ms[n], qs[n], cfg, ms[n + 1], os[n]);
    SameOutcome(ms[n], rs[n], qs[n], cfg, rs[n + 1], os'[n]);
  }

  ghost predicate SameOutcomes(os: seq<Outcome>, os': seq<Outcome>, n: nat)
    requires n <= |os| == |os'|
  {
    forall i :: 0 <= i < n ==> os[i] == os'[i]
  }

  /** The stores agree on a run exactly as far as no request presents a token that slips:
      the first such token is where the outcomes part. */
  lemma {:induction false} AgreeUnlessSlips(qs: seq<Request>, cfg: Settings, ms: seq<Memory>, os: seq<Outcome>,
                                            rs: seq<Redis>, os': seq<Outcome>, n: nat)
    requires BothRun(qs, cfg, ms, os, rs, os') && n <= |qs|
    ensures SameOutcomes(os, os', n) <==> Remembered(qs, ms, rs, n)
    decreases n
  {
    if n > 0 {
      AgreeUnlessSlips(qs, cfg, ms, os, rs, os', n - 1);
      if Remembered(qs, ms, rs, n - 1) {
        NextAnswer(qs, cfg, ms, os, rs, os', n - 1);
      }
    }
  }

  /** No request presents a token in the last second of its session. */
  ghost predicate NoneLate(qs: seq<Request>, cfg: Settings, ms: seq<Memory>)
    requires |ms| == |qs| + 1
  {
    forall i :: 0 <= i < |qs| ==> !InLastSecond(ms[i], qs[i], cfg)
  }

  lemma {:induction false} NoneSlips(qs: seq<Request>, cfg: Settings, ms: seq<Memory>, os: seq<Outcome>,
                                     rs: seq<Redis>, os': seq<Outcome>, n: nat)
    requires BothRun(qs, cfg, ms, os, rs, os') && NoneLate(qs, cfg, ms) && n <= |qs|
    ensures Remembered(qs, ms, rs, n)
    decreases n
  {
    if n > 0 {
      NoneSlips(qs, cfg, ms, os, rs, os', n - 1);
      RelatedUntil(qs, cfg, ms, os, rs, os', n - 1, qs[n - 1].Start());
      if Slips(ms[n - 1], rs[n - 1], qs[n - 1]) {
        SlipsLate(ms[n - 1], rs[n - 1], qs[n - 1], cfg);
      }
    }
  }

  /** At any resolution of the clock the two stores agree on every run that presents no
      token in the last second of its session. */
  lemma AgreeUnlessLate(qs: seq<Request>, cfg: Settings, ms: seq<Memory>, os: seq<Outcome>, rs: seq<Redis>,
                        os': seq<Outcome>)
    requires BothRun(qs, cfg, ms, os, rs, os') && NoneLate(qs, cfg, ms)
    ensures os == os'
  {
    NoneSlips(qs, cfg, ms, os, rs, os', |qs|);
    AgreeUnlessSlips(qs, cfg, ms, os, rs, os', |qs|);
    assert forall i :: 0 <= i < |qs| ==> os[i] == os'[i];
  }

  /** With a clock of whole seconds they agree on every run, whatever ticks pass within
      a request. */
  lemma WholeSecondsAgree(qs: seq<Request>, cfg: Settings, ms: seq<Memory>, os: seq<Outcome>, rs: seq<Redis>,
                          os': seq<Outcome>)
    requires BothRun(qs, cfg, ms, os, rs, os') && cfg.second == 1
    ensures os == os'
  {
    forall i | 0 <= i < |qs| ensures !InLastSecond(ms[i], qs[i], cfg) {
      assert qs[i].Ordered();
    }
    AgreeUnlessLate(qs, cfg, ms, os, rs, os');
  }

  ghost predicate SameFamily(m: Memory, g: TokenHash, m': Memory, h: TokenHash) {
    g in m && h in m' && m[g].family == m'[h].family
  }

  /** So what holds of the store that never forgets holds of Redis on such runs: after a
      replay no token of the family is exchanged again, and no token is exchanged twice. */
  lemma RedisReplayKillsFamily(qs: seq<Request>, cfg: Settings, ms: seq<Memory>, os: seq<Outcome>,
                               rs: seq<Redis>, os': seq<Outcome>, i: nat, j: nat)
    requires BothRun(qs, cfg, ms, os, rs, os') && NoneLate(qs, cfg, ms)
    requires i < j < |qs| && qs[i].Rotate? && qs[j].Rotate?
    ensures os'[i].ReuseDetected? && SameFamily(ms[i], qs[i].presented, ms[j], qs[j].presented) ==> os'[j] == Invalid
    ensures os'[i].Issued? && qs[i].presented == qs[j].presented ==> !os'[j].Issued?
  {
    AgreeUnlessLate(qs, cfg, ms, os, rs, os');
    if os[i].ReuseDetected? && SameFamily(ms[i], qs[i].presented, ms[j], qs[j].presented) {
      ReplayKillsFamily(qs, cfg, ms, os, i, j);
    }
    if os[i].Issued? && qs[i].presented == qs[j].presented {
      ExchangedOnce(qs, cfg, ms, os, i, j);
    }
  }
}
