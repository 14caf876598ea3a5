/** The two session stores as objects, and `TokenManager` over each (auth.py). */
module SessionStores {
  import opened SessionAgreement
  import opened Sessions
  import opened Wrappers

  /** What the server remembers of a token it has handed out. */
  class RefreshSession {
    const id: nat
    const family: FamilyId
    const identity: Identity
    const hash: TokenHash
    const expiresAt: int
    var used: bool
    var revoked: bool

    constructor (s: Session)
      ensures View() == s
    {
      id, family, identity, hash := s.id, s.family, s.identity, s.hash;
      expiresAt, used, revoked := s.expiresAt, s.used, s.revoked;
    }

    function View(): Session
      reads this
    {
      Session(id, family, identity, hash, expiresAt, used, revoked)
    }
  }

  /** A dictionary of session objects; `get` hands out the stored object itself. */
  class MemorySessionStore {
    var sessions: map<TokenHash, RefreshSession>

    ghost predicate Valid()
      reads this
    {
      forall h :: h in sessions ==> sessions[h].hash == h
    }

    ghost function View(): Memory
      reads this, sessions.Values
    {
      map h | h in sessions :: sessions[h].View()
    }

    constructor ()
      ensures Valid() && View() == map[]
    {
      sessions := map[];
    }

    method Put(s: RefreshSession)
      requires Valid()
      modifies this
      ensures Valid() && sessions == old(sessions)[s.hash := s]
    {
      sessions := sessions[s.hash := s];
    }

    method Get(h: TokenHash) returns (s: RefreshSession?)
      requires Valid()
      ensures if h in sessions then s == sessions[h] else s == null
    {
      s := if h in sessions then sessions[h] else null;
    }

    method RevokeFamily(f: FamilyId)
      requires Valid()
      modifies sessions.Values
      ensures Valid() && View() == MemoryRevoke(old(View()), f)
    {
      var rest := sessions.Values;
      while rest != {}
        invariant rest <= sessions.Values
        invariant forall s :: s in sessions.Values && (s in rest || s.family != f) ==> s.View() == old(s.View())
        invariant forall s :: s in sessions.Values && s !in rest && s.family == f ==>
          s.View() == old(s.View()).(revoked := true)
        decreases |rest|
      {
        var s :| s in rest;
        if s.family == f {
          s.revoked := true;
        }
        rest := rest - {s};
      }
      assert forall h :: h in sessions ==> sessions[h] in sessions.Values;
    }

    /** Starts a new family with the drawn token. */
    method Issue(identity: Identity, family: FamilyId, drawn: Drawn, issued: int, cfg: Settings) returns (o: Outcome)
      requires Valid() && drawn.hash !in sessions
      modifies this
      ensures Valid() && View() == old(MemoryPut(View(), NewSession(identity, family, drawn, issued, cfg)))
      ensures o == Issued(drawn.hash)
    {
      var s := new RefreshSession(NewSession(identity, family, drawn, issued, cfg));
      Put(s);
      o := Issued(drawn.hash);
    }

    /** Exchanges the presented token for the drawn one, or revokes its family if it is spent. */
    method Rotate(q: Request, cfg: Settings) returns (o: Outcome)
      requires Valid() && q.Rotate? && q.drawn.hash !in sessions
      modifies this, sessions.Values
      ensures Valid() && (View(), o) == MemoryStep(old(View()), q, cfg)
    {
      var s := Get(q.presented);
      if s == null || s.revoked || s.expiresAt <= q.checked {
        return Invalid;
      }
      if s.used {
        RevokeFamily(s.family);
        return ReuseDetected;
      }
      s.used := true;
      Put(s);
      assert View() == old(View())[q.presented := old(View())[q.presented].(used := true)];
      o := Issue(s.identity, s.family, q.drawn, q.issued, cfg);
    }
  }

  /** The readings of the clock in a turn of revoke_family's loop. */
  datatype Turn = Turn(got: int, stored: Write)

  /** Each turn of the loop reads the clock in order, between its start and its end. */
  ghost predicate Ticks(clock: nat -> Turn, listed: int, done: int) {
    forall i {:trigger clock(i)} :: listed <= clock(i).got <= clock(i).stored.read <= clock(i).stored.at <= done
  }

  /** The loop of revoke_family once it has met all members but those in `rest`. */
  ghost predicate Met(r: Redis, members: set<TokenHash>, visits: seq<Visit>, rest: set<TokenHash>, clock: nat -> Turn) {
    && rest <= members <= r.tokens.Keys
    && (forall h :: h in members - rest <==> exists i :: 0 <= i < |visits| && visits[i].hash == h)
    && (forall i, j :: 0 <= i < j < |visits| ==> visits[i].hash != visits[j].hash)
    && (forall i :: 0 <= i < |visits| ==> visits[i] == Visit(visits[i].hash, clock(i).got, clock(i).stored))
  }

  lemma MeetOne(r: Redis, members: set<TokenHash>, visits: seq<Visit>, rest: set<TokenHash>, clock: nat -> Turn,
                h: TokenHash)
    requires Met(r, members, visits, rest, clock) && h in rest
    ensures Met(r, members, visits + [Visit(h, clock(|visits|).got, clock(|visits|).stored)], rest - {h}, clock)
  {
    var v := Visit(h, clock(|visits|).got, clock(|visits|).stored);
    var more := visits + [v];
    forall g | g in members - (rest - {h}) ensures exists i :: 0 <= i < |more| && more[i].hash == g {
      if g == h {
        assert more[|visits|].hash == g;
      } else {
        assert g in members - rest;
        var i :| 0 <= i < |visits| && visits[i].hash == g;
        assert more[i].hash == g;
      }
    }
    assert forall i :: 0 <= i < |visits| ==> visits[i].hash in members - rest;
  }

  lemma AllMet(r: Redis, f: FamilyId, listed: int, done: int, visits: seq<Visit>, clock: nat -> Turn)
    requires Met(r, r.Members(f, listed), visits, {}, clock) && Ticks(clock, listed, done)
    ensures Enumerates(r, f, listed, visits) && Timely(visits, listed, done)
  {
    assert r.Members(f, listed) - {} == r.Members(f, listed);
    forall i | 0 <= i < |visits|
      ensures listed <= visits[i].got <= visits[i].stored.read <= visits[i].stored.at <= done
    {
      assert visits[i] == Visit(visits[i].hash, clock(i).got, clock(i).stored);
    }
  }

  lemma OneMoreRevoked(r: Redis, visits: seq<Visit>, v: Visit, cfg: Settings)
    ensures r.RevokedAll(visits + [v], cfg) == r.RevokedAll(visits, cfg).Revoked(v, cfg)
  {
    assert (visits + [v])[..|visits|] == visits;
  }

  /** Writing a session back, or a new one, keeps keys and family sets in order. */
  lemma PutKeeps(r: Redis, s: Session, w: Write, cfg: Settings)
    requires WellKeyed(r) && (s.hash in r.tokens ==> r.tokens[s.hash].session.family == s.family)
    ensures WellKeyed(r.Put(s, w, cfg))
  {
  }

  /** Sessions as JSON values under Redis keys; `get` decodes a copy. */
  class RedisSessionStore {
    var server: Redis

    ghost predicate Valid()
      reads this
    {
      WellKeyed(server)
    }

    constructor ()
      ensures Valid() && server == Redis(map[], map[])
    {
      server := Redis(map[], map[]);
    }

    method Put(s: Session, w: Write, cfg: Settings)
      requires Valid() && (s.hash in server.tokens ==> server.tokens[s.hash].session.family == s.family)
      modifies this
      ensures Valid() && server == old(server).Put(s, w, cfg)
    {
      PutKeeps(server, s, w, cfg);
      var expiry := cfg.KeyExpiry(s.expiresAt, w);
      var members := server.Members(s.family, w.at);
      server := Redis(server.tokens[s.hash := Keyed(s, expiry)],
                      server.families[s.family := Index(members + {s.hash}, expiry)]);
    }

    method Get(h: TokenHash, got: int) returns (s: RefreshSession?)
      requires Valid()
      ensures s == null <==> server.Get(h, got) == None
      ensures s != null ==> fresh(s) && server.Get(h, got) == Some(s.View())
    {
      if h in server.tokens && got < server.tokens[h].expiry {
        s := new RefreshSession(server.tokens[h].session);
      } else {
        s := null;
      }
    }

    /** One turn of revoke_family's loop. */
    method RevokeOne(h: TokenHash, t: Turn, cfg: Settings)
      requires Valid()
      modifies this
      ensures Valid() && server == old(server).Revoked(Visit(h, t.got, t.stored), cfg)
      ensures server.tokens.Keys == old(server).tokens.Keys
    {
      var s := Get(h, t.got);
      if s != null {
        s.revoked := true;
        Put(s.View(), t.stored, cfg);
      }
    }

    /** Mark every listed member of the family as revoked, in any order. */
    method RevokeFamily(f: FamilyId, listed: int, clock: nat -> Turn, cfg: Settings, ghost done: int)
      requires Valid() && Ticks(clock, listed, done) && listed <= done
      modifies this
      ensures Valid() && RedisRevoke(old(server), f, listed, done, cfg, server)
    {
      ghost var r := server;
      ghost var visits := [];
      var rest := server.Members(f, listed);
      var i := 0;
      while rest != {}
        invariant Valid() && i == |visits| && server.tokens.Keys == r.tokens.Keys
        invariant Met(r, r.Members(f, listed), visits, rest, clock)
        invariant server == r.RevokedAll(visits, cfg)
        decreases |rest|
      {
        var h :| h in rest;
        MeetOne(r, r.Members(f, listed), visits, rest, clock, h);
        OneMoreRevoked(r, visits, Visit(h, clock(i).got, clock(i).stored), cfg);
        RevokeOne(h, clock(i), cfg);
        visits := visits + [Visit(h, clock(i).got, clock(i).stored)];
        rest, i := rest - {h}, i + 1;
      }
      AllMet(r, f, listed, done, visits, clock);
    }

    /** Starts a new family with the drawn token. */
    method Issue(identity: Identity, family: FamilyId, drawn: Drawn, issued: int, stored: Write, cfg: Settings)
      returns (o: Outcome)
      requires Valid() && drawn.hash !in server.tokens
      modifies this
      ensures Valid() && server == old(server).Put(NewSession(identity, family, drawn, issued, cfg), stored, cfg)
      ensures o == Issued(drawn.hash)
    {
      Put(NewSession(identity, family, drawn, issued, cfg), stored, cfg);
      o := Issued(drawn.hash);
    }

    /** The same exchange over the server; `listed` and `clock` are the instants at which a
        revocation lists the family and meets its members. */
    method Rotate(q: Request, listed: int, clock: nat -> Turn, cfg: Settings) returns (o: Outcome)
      requires Valid() && q.Rotate? && q.Ordered() && q.drawn.hash !in server.tokens
      requires q.checked <= listed <= q.done && Ticks(clock, listed, q.done)
      modifies this
      ensures Valid() && RedisStep(old(server), q, cfg, server, o)
    {
      var s := Get(q.presented, q.got);
      if s == null || s.revoked || s.expiresAt <= q.checked {
        return Invalid;
      }
      if s.used {
        RevokeFamily(s.family, listed, clock, cfg, q.done);
        RevokedFrom(old(server), s.family, q.checked, listed, q.done, cfg, server);
        return ReuseDetected;
      }
      s.used := true;
      Put(s.View(), q.used, cfg);
      o := Issue(s.identity, s.family, q.drawn, q.issued, q.stored, cfg);
    }
  }

  lemma RevokedFrom(r: Redis, f: FamilyId, from: int, listed: int, done: int, cfg: Settings, after: Redis)
    requires RedisRevoke(r, f, listed, done, cfg, after) && from <= listed
    ensures RedisRevoke(r, f, from, done, cfg, after)
  {
  }
}
