/** Refresh-token rotation over the Redis store alone: what holds at every resolution of
    the clock, although keys and family sets expire on their own. */
module RedisSafety {
  import opened SessionAgreement
  import opened SessionSafety
  import opened Sessions

  /** The token can be exchanged: its key is live, neither used nor revoked. */
  ghost predicate Usable(r: Redis, h: TokenHash, now: int) {
    r.Live(h, now) && r.tokens[h].session.Active()
  }

  /** Its family set lists a usable token, and lives as long as the token's key. */
  ghost predicate Indexed(r: Redis, now: int) {
    forall h {:trigger Usable(r, h, now)} :: Usable(r, h, now) ==>
      var f := r.tokens[h].session.family;
      f in r.families && h in r.families[f].hashes && r.tokens[h].expiry <= r.families[f].expiry
  }

  ghost predicate OneUsable(r: Redis, now: int) {
    forall g, h {:trigger Usable(r, g, now), Usable(r, h, now)} ::
      Usable(r, g, now) && Usable(r, h, now) && r.tokens[g].session.family == r.tokens[h].session.family ==> g == h
  }

  ghost predicate Guarded(r: Redis, now: int, cfg: Settings) {
    WellKeyed(r) && Lasting(r, cfg) && Indexed(r, now) && OneUsable(r, now)
  }

  /** What the random generators promise; the keys that have expired are part of the record. */
  ghost predicate FreshIn(r: Redis, q: Request) {
    && q.drawn.hash !in r.tokens
    && (q.Login? ==> forall h :: h in r.tokens ==> r.tokens[h].session.family != q.family)
  }

  lemma UsableBefore(r: Redis, now: int, later: int, h: TokenHash)
    requires now <= later && Usable(r, h, later)
    ensures Usable(r, h, now)
  {
  }

  lemma GuardedLater(r: Redis, now: int, later: int, cfg: Settings)
    requires Guarded(r, now, cfg) && now <= later
    ensures Guarded(r, later, cfg)
  {
    forall h | Usable(r, h, later) ensures Usable(r, h, now) {
    }
  }

  // ----- a put of a new token -----

  /** The store after s has been put, when no other token of its family is usable. */
  lemma PutGuards(r: Redis, s: Session, w: Write, now: int, cfg: Settings)
    requires Guarded(r, now, cfg) && now <= w.read <= w.at
    requires s.hash in r.tokens ==> r.tokens[s.hash].session.family == s.family
    requires forall h :: Usable(r, h, now) && r.tokens[h].session.family == s.family ==> h == s.hash
    ensures Guarded(r.Put(s, w, cfg), w.at, cfg)
  {
    var r' := r.Put(s, w, cfg);
    KeyExpiryBounds(s.expiresAt, w, cfg);
    forall h | Usable(r', h, w.at) && h != s.hash
      ensures Usable(r, h, now) && r.tokens[h].session.family != s.family
    {
      UsableBefore(r, now, w.at, h);
    }
  }

  // ----- a replay -----

  /** Keys are left alone or revoked. */
  ghost predicate AloneOrRevoked(r: Redis, r': Redis) {
    && r.tokens.Keys == r'.tokens.Keys
    && (forall h :: h in r.tokens ==> r'.tokens[h] == r.tokens[h] || IsRevoked(r', h))
  }

  ghost predicate ReachesLive(r: Redis, r': Redis, visits: seq<Visit>) {
    forall i {:trigger visits[i]} ::
      0 <= i < |visits| && r.Live(visits[i].hash, visits[i].got) ==> IsRevoked(r', visits[i].hash)
  }

  lemma RevokedAlone(r: Redis, mid: Redis, v: Visit, cfg: Settings)
    requires AloneOrRevoked(r, mid) && WellKeyed(mid)
    ensures AloneOrRevoked(r, mid.Revoked(v, cfg))
    ensures r.Live(v.hash, v.got) ==> IsRevoked(mid.Revoked(v, cfg), v.hash)
    ensures forall h :: IsRevoked(mid, h) ==> IsRevoked(mid.Revoked(v, cfg), h)
  {
  }

  lemma {:induction false} RevokedAllReaches(r: Redis, f: FamilyId, visits: seq<Visit>, cfg: Settings, listed: int,
                                             done: int)
    requires WellKeyed(r) && Lasting(r, cfg) && InFamily(r, f, visits) && Timely(visits, listed, done)
    ensures AloneOrRevoked(r, r.RevokedAll(visits, cfg)) && ReachesLive(r, r.RevokedAll(visits, cfg), visits)
    decreases |visits|
  {
    if visits != [] {
      var n := |visits| - 1;
      var mid := r.RevokedAll(visits[..n], cfg);
      RevokedAllReaches(r, f, visits[..n], cfg, listed, done);
      RevokedAllMarks(r, f, visits[..n], cfg, listed, done);
      RevokedAlone(r, mid, visits[n], cfg);
      forall i | 0 <= i < |visits| && r.Live(visits[i].hash, visits[i].got)
        ensures IsRevoked(r.RevokedAll(visits, cfg), visits[i].hash)
      {
        if i < n {
          assert visits[..n][i] == visits[i];
        }
      }
    }
  }

  /** No token of the family can be exchanged. */
  ghost predicate Spent(r: Redis, f: FamilyId, now: int) {
    forall h :: Usable(r, h, now) ==> r.tokens[h].session.family != f
  }

  /** Revoking a family spends it, however its keys and its set expire meanwhile. */
  lemma ReplaySpends(r: Redis, f: FamilyId, now: int, from: int, done: int, cfg: Settings, after: Redis)
    requires Guarded(r, now, cfg) && now <= from <= done && RedisRevoke(r, f, from, done, cfg, after)
    ensures Guarded(after, done, cfg) && Spent(after, f, done) && Marked(r, after, f)
    ensures forall h :: Usable(after, h, done) ==> Usable(r, h, now)
  {
    var listed: int, visits: seq<Visit> :|
      && from <= listed <= done && Enumerates(r, f, listed, visits) && Timely(visits, listed, done)
      && after == r.RevokedAll(visits, cfg);
    forall i | 0 <= i < |visits| ensures visits[i].hash in r.tokens && r.tokens[visits[i].hash].session.family == f {
      assert visits[i].hash in r.Members(f, listed);
    }
    RevokedAllMarks(r, f, visits, cfg, listed, done);
    RevokedAllReaches(r, f, visits, cfg, listed, done);
    forall h | Usable(after, h, done)
      ensures after.tokens[h] == r.tokens[h] && Usable(r, h, now) && r.tokens[h].session.family != f
    {
      UsableBefore(r, now, done, h);
      if r.tokens[h].session.family == f {
        assert h in r.Members(f, listed);
        var i :| 0 <= i < |visits| && visits[i].hash == h;
        assert r.Live(visits[i].hash, visits[i].got);
        assert false;
      }
    }
  }

  // ----- one request -----

  lemma ExchangeGuards(r: Redis, q: Request, cfg: Settings, after: Redis, o: Outcome)
    requires Guarded(r, q.Start(), cfg) && q.Ordered() && FreshIn(r, q) && q.Rotate?
    requires RedisStep(r, q, cfg, after, o) && o.Issued?
    ensures Guarded(after, q.End(), cfg)
  {
    var s := r.tokens[q.presented].session;
    var next := NewSession(s.identity, s.family, q.drawn, q.issued, cfg);
    var consumed := s.(used := true);
    assert Usable(r, q.presented, q.Start());
    PutGuards(r, consumed, q.used, q.Start(), cfg);
    var mid := r.Put(consumed, q.used, cfg);
    forall h | Usable(mid, h, q.used.at) ensures mid.tokens[h].session.family != s.family {
      assert h != q.presented;
      UsableBefore(r, q.Start(), q.used.at, h);
      assert Usable(r, q.presented, q.Start());
    }
    PutGuards(mid, next, q.stored, q.used.at, cfg);
    GuardedLater(after, q.stored.at, q.End(), cfg);
  }

  /** Every request keeps at most one token of a family usable, and that one listed. */
  lemma StepKeepsGuarded(r: Redis, q: Request, cfg: Settings, after: Redis, o: Outcome)
    requires Guarded(r, q.Start(), cfg) && q.Ordered() && FreshIn(r, q) && RedisStep(r, q, cfg, after, o)
    ensures Guarded(after, q.End(), cfg)
  {
    if q.Login? {
      PutGuards(r, NewSession(q.identity, q.family, q.drawn, q.issued, cfg), q.stored, q.Start(), cfg);
    } else if o.Issued? {
      ExchangeGuards(r, q, cfg, after, o);
    } else if o.ReuseDetected? {
      ReplaySpends(r, r.tokens[q.presented].session.family, q.Start(), q.checked, q.End(), cfg, after);
    } else {
      GuardedLater(r, q.Start(), q.End(), cfg);
    }
  }

  /** A token stays in its family, and used once it is. */
  ghost predicate KeepsUsed(r: Redis, after: Redis, h: TokenHash) {
    h in r.tokens ==>
      && h in after.tokens && after.tokens[h].session.family == r.tokens[h].session.family
      && (r.tokens[h].session.used ==> after.tokens[h].session.used)
  }

  lemma StepKeepsUsed(r: Redis, q: Request, cfg: Settings, after: Redis, o: Outcome, h: TokenHash)
    requires Guarded(r, q.Start(), cfg) && q.Ordered() && FreshIn(r, q) && RedisStep(r, q, cfg, after, o)
    ensures KeepsUsed(r, after, h)
  {
    if o.ReuseDetected? {
      var f := r.tokens[q.presented].session.family;
      ReplaySpends(r, f, q.Start(), q.checked, q.End(), cfg, after);
      assert h in r.tokens ==> MaybeRevoked(r.tokens[h].session, after.tokens[h].session, f);
    }
  }

  /** A spent family stays so, whatever is requested. */
  lemma StepKeepsSpent(r: Redis, q: Request, cfg: Settings, after: Redis, o: Outcome, f: FamilyId, g: TokenHash)
    requires Guarded(r, q.Start(), cfg) && q.Ordered() && FreshIn(r, q) && RedisStep(r, q, cfg, after, o)
    requires Spent(r, f, q.Start()) && g in r.tokens && r.tokens[g].session.family == f
    ensures Spent(after, f, q.End())
  {
    forall h | Usable(after, h, q.End()) ensures after.tokens[h].session.family != f {
      if o.ReuseDetected? {
        var f' := r.tokens[q.presented].session.family;
        ReplaySpends(r, f', q.Start(), q.checked, q.End(), cfg, after);
        assert MaybeRevoked(r.tokens[h].session, after.tokens[h].session, f');
      } else if h == q.drawn.hash && o.Issued? {
        assert q.Rotate? ==> Usable(r, q.presented, q.Start());
      } else {
        UsableBefore(r, q.Start(), q.End(), h);
      }
    }
  }

  // ----- runs -----

  ghost predicate RedisServes(r: Redis, q: Request, cfg: Settings, after: Redis, o: Outcome) {
    FreshIn(r, q) && RedisStep(r, q, cfg, after, o)
  }

  /** rs are the states of the Redis server, and os the outcomes, of serving qs from
      empty, one after another, under a clock that never goes back. */
  ghost predicate Serving(qs: seq<Request>, cfg: Settings, rs: seq<Redis>, os: seq<Outcome>) {
    && |rs| == |qs| + 1 && |os| == |qs| && rs[0] == Redis(map[], map[])
    && (forall i :: 0 <= i < |qs| ==> RedisServes(rs[i], qs[i], cfg, rs[i + 1], os[i]))
    && InTurn(qs)
  }

  lemma {:induction false} GuardedAt(qs: seq<Request>, cfg: Settings, rs: seq<Redis>, os: seq<Outcome>, i: nat, now: int)
    requires Serving(qs, cfg, rs, os) && i <= |qs| && (i > 0 ==> qs[i - 1].End() <= now)
    ensures Guarded(rs[i], now, cfg)
    decreases i
  {
    if i > 0 {
      var q := qs[i - 1];
      GuardedAt(qs, cfg, rs, os, i - 1, q.Start());
      assert RedisServes(rs[i - 1], q, cfg, rs[i], os[i - 1]);
      StepKeepsGuarded(rs[i - 1], q, cfg, rs[i], os[i - 1]);
      GuardedLater(rs[i], q.End(), now, cfg);
    }
  }

  lemma {:induction false} UsedStays(qs: seq<Request>, cfg: Settings, rs: seq<Redis>, os: seq<Outcome>, i: nat, j: nat,
                                     h: TokenHash)
    requires Serving(qs, cfg, rs, os) && i <= j <= |qs|
    ensures KeepsUsed(rs[i], rs[j], h)
    decreases j
  {
    if i < j {
      var q := qs[j - 1];
      UsedStays(qs, cfg, rs, os, i, j - 1, h);
      GuardedAt(qs, cfg, rs, os, j - 1, q.Start());
      assert RedisServes(rs[j - 1], q, cfg, rs[j], os[j - 1]);
      StepKeepsUsed(rs[j - 1], q, cfg, rs[j], os[j - 1], h);
    }
  }

  lemma SpentLater(r: Redis, f: FamilyId, now: int, later: int)
    requires Spent(r, f, now) && now <= later
    ensures Spent(r, f, later)
  {
    forall h | Usable(r, h, later) ensures r.tokens[h].session.family != f {
      UsableBefore(r, now, later, h);
    }
  }

  /** The family of g is spent once k requests have been served. */
  ghost predicate SpentBy(qs: seq<Request>, rs: seq<Redis>, k: nat, g: TokenHash, f: FamilyId)
    requires 0 < k <= |qs| && |rs| == |qs| + 1
  {
    g in rs[k].tokens && rs[k].tokens[g].session.family == f && Spent(rs[k], f, qs[k - 1].End())
  }

  lemma SpentNext(qs: seq<Request>, cfg: Settings, rs: seq<Redis>, os: seq<Outcome>, k: nat, g: TokenHash, f: FamilyId)
    requires Serving(qs, cfg, rs, os) && 0 < k < |qs| && SpentBy(qs, rs, k, g, f)
    ensures SpentBy(qs, rs, k + 1, g, f)
  {
    var q := qs[k];
    GuardedAt(qs, cfg, rs, os, k, q.Start());
    SpentLater(rs[k], f, qs[k - 1].End(), q.Start());
    assert RedisServes(rs[k], q, cfg, rs[k + 1], os[k]);
    StepKeepsUsed(rs[k], q, cfg, rs[k + 1], os[k], g);
    StepKeepsSpent(rs[k], q, cfg, rs[k + 1], os[k], f, g);
  }

  lemma {:induction false} SpentStays(qs: seq<Request>, cfg: Settings, rs: seq<Redis>, os: seq<Outcome>, i: nat, j: nat,
                                      g: TokenHash, f: FamilyId)
    requires Serving(qs, cfg, rs, os) && 0 < i <= j <= |qs| && SpentBy(qs, rs, i, g, f)
    ensures SpentBy(qs, rs, j, g, f)
    decreases j
  {
    if i < j {
      SpentStays(qs, cfg, rs, os, i, j - 1, g, f);
      SpentNext(qs, cfg, rs, os, j - 1, g, f);
    }
  }

  /** At every point of every run over Redis a family has at most one usable token. */
  lemma OneUsablePerFamily(qs: seq<Request>, cfg: Settings, rs: seq<Redis>, os: seq<Outcome>, i: nat, now: int,
                           g: TokenHash, h: TokenHash)
    requires Serving(qs, cfg, rs, os) && i <= |qs| && (i > 0 ==> qs[i - 1].End() <= now)
    requires Usable(rs[i], g, now) && Usable(rs[i], h, now)
    requires rs[i].tokens[g].session.family == rs[i].tokens[h].session.family
    ensures g == h
  {
    GuardedAt(qs, cfg, rs, os, i, now);
  }

  /** At any resolution of the clock, Redis exchanges a token at most once. */
  lemma RedisExchangesOnce(qs: seq<Request>, cfg: Settings, rs: seq<Redis>, os: seq<Outcome>, i: nat, j: nat)
    requires Serving(qs, cfg, rs, os) && i < j < |qs| && qs[i].Rotate? && qs[j].Rotate?
    requires os[i].Issued? && qs[i].presented == qs[j].presented
    ensures !os[j].Issued?
  {
    GuardedAt(qs, cfg, rs, os, i, qs[i].Start());
    assert RedisServes(rs[i], qs[i], cfg, rs[i + 1], os[i]);
    UsedStays(qs, cfg, rs, os, i + 1, j, qs[i].presented);
    assert RedisServes(rs[j], qs[j], cfg, rs[j + 1], os[j]);
  }

  /** And after a detected replay it exchanges no token of that family again, although the
      revocation need not reach every key. */
  lemma NoExchangeAfterReplay(qs: seq<Request>, cfg: Settings, rs: seq<Redis>, os: seq<Outcome>, i: nat, j: nat)
    requires Serving(qs, cfg, rs, os) && i < j < |qs| && qs[i].Rotate? && qs[j].Rotate?
    requires os[i].ReuseDetected? && qs[i].presented in rs[i].tokens && qs[j].presented in rs[j].tokens
    requires rs[j].tokens[qs[j].presented].session.family == rs[i].tokens[qs[i].presented].session.family
    ensures !os[j].Issued?
  {
    var h, q := qs[i].presented, qs[i];
    var f := rs[i].tokens[h].session.family;
    GuardedAt(qs, cfg, rs, os, i, q.Start());
    assert RedisServes(rs[i], q, cfg, rs[i + 1], os[i]);
    ReplaySpends(rs[i], f, q.Start(), q.checked, q.End(), cfg, rs[i + 1]);
    StepKeepsUsed(rs[i], q, cfg, rs[i + 1], os[i], h);
    SpentStays(qs, cfg, rs, os, i + 1, j, h, f);
    SpentLater(rs[j], f, qs[j - 1].End(), qs[j].Start());
    assert RedisServes(rs[j], qs[j], cfg, rs[j + 1], os[j]);
    assert !Usable(rs[j], qs[j].presented, qs[j].Start());
  }
}
