/** Refresh-token families (auth.py): sessions, the two stores as values, and the
    issue and rotate steps of `TokenManager` over each store.

    Time is counted in ticks, `second` of them to a second; Redis expiries are whole
    seconds, session lifetimes too.  Each reading of the clock within a request has its
    own instant. */
module Sessions {
  import opened Wrappers

  type TokenHash = nat
  type FamilyId = nat

  /** What every member of a family must share. */
  datatype Identity = Identity(user: nat, org: nat, role: string)

  datatype Session = Session(
    id: nat,
    family: FamilyId,
    identity: Identity,
    hash: TokenHash,
    expiresAt: int,
    used: bool,
    revoked: bool)
  {
    predicate Active() {
      !used && !revoked
    }
  }

  type Positive = n: int | n >= 1 witness 1

  /** Ticks to the second, and days that a refresh token lives. */
  datatype Settings = Settings(second: Positive, days: nat)
  {
    /** Lifetime of a refresh token, in ticks. */
    function Life(): int {
      (86400 * days) * second
    }

    /** When a key that `put` writes expires: whole seconds on, at least one. */
    function KeyExpiry(expiresAt: int, w: Write): int {
      var ttl := (expiresAt - w.read) / second;
      w.at + (if ttl < 1 then 1 else ttl) * second
    }
  }

  /** One `put`: the clock when it works out the expiry, and when the server acts on it. */
  datatype Write = Write(read: int, at: int)

  lemma Rounded(x: int, second: Positive)
    ensures x - second < (x / second) * second <= x && (x / second) * second == x - x % second
  {
  }

  lemma AtLeastOnce(n: int, m: int, second: Positive)
    requires n <= m
    ensures n * second <= m * second
  {
  }

  /** A written key is live, and dies less than a second before the session, if at all;
      with ticks of whole seconds it does not. */
  lemma KeyExpiryBounds(expiresAt: int, w: Write, cfg: Settings)
    requires w.read <= w.at
    ensures w.at < cfg.KeyExpiry(expiresAt, w)
    ensures expiresAt < cfg.KeyExpiry(expiresAt, w) + cfg.second
    ensures cfg.second == 1 ==> expiresAt <= cfg.KeyExpiry(expiresAt, w)
  {
    var ttl := (expiresAt - w.read) / cfg.second;
    var kept := if ttl < 1 then 1 else ttl;
    Rounded(expiresAt - w.read, cfg.second);
    AtLeastOnce(ttl, kept, cfg.second);
    AtLeastOnce(1, kept, cfg.second);
  }

  /** A key written a second or more ahead, and at once, dies just the part of a second
      early that remains at the writing. */
  lemma KeyExpiryExact(expiresAt: int, now: int, cfg: Settings)
    requires expiresAt - now >= cfg.second
    ensures cfg.KeyExpiry(expiresAt, Write(now, now)) == expiresAt - (expiresAt - now) % cfg.second
  {
    Rounded(expiresAt - now, cfg.second);
    if (expiresAt - now) / cfg.second < 1 {
      AtLeastOnce((expiresAt - now) / cfg.second, 0, cfg.second);
    }
  }

  /** One written with less than a second to go lives for one second. */
  lemma KeyExpiryLeast(expiresAt: int, w: Write, cfg: Settings)
    requires expiresAt - w.read < cfg.second
    ensures cfg.KeyExpiry(expiresAt, w) == w.at + cfg.second
  {
    Rounded(expiresAt - w.read, cfg.second);
    if (expiresAt - w.read) / cfg.second >= 1 {
      AtLeastOnce(1, (expiresAt - w.read) / cfg.second, cfg.second);
    }
  }

  // ----- MemorySessionStore -----

  type Memory = map<TokenHash, Session>

  function MemoryPut(m: Memory, s: Session): Memory {
    m[s.hash := s]
  }

  function MemoryRevoke(m: Memory, f: FamilyId): Memory {
    map h | h in m :: if m[h].family == f then m[h].(revoked := true) else m[h]
  }

  // ----- RedisSessionStore -----

  datatype Keyed = Keyed(session: Session, expiry: int)

  datatype Index = Index(hashes: set<TokenHash>, expiry: int)

  /** The keys of the Redis server.  A key past its expiry is as good as absent. */
  datatype Redis = Redis(tokens: map<TokenHash, Keyed>, families: map<FamilyId, Index>)
  {
    predicate Live(h: TokenHash, now: int) {
      h in tokens && now < tokens[h].expiry
    }

    function Get(h: TokenHash, now: int): Option<Session> {
      if Live(h, now) then Some(tokens[h].session) else None
    }

    /** SMEMBERS of the family set. */
    function Members(f: FamilyId, now: int): set<TokenHash> {
      if f in families && now < families[f].expiry then families[f].hashes else {}
    }

    /** SET with an expiry, SADD, and EXPIRE, as one transaction. */
    function Put(s: Session, w: Write, cfg: Settings): Redis {
      var expiry := cfg.KeyExpiry(s.expiresAt, w);
      Redis(tokens[s.hash := Keyed(s, expiry)], families[s.family := Index(Members(s.family, w.at) + {s.hash}, expiry)])
    }

    /** One member met by revoke_family: read, and written back revoked if it is live. */
    function Revoked(v: Visit, cfg: Settings): Redis {
      match Get(v.hash, v.got)
      case None => this
      case Some(s) => Put(s.(revoked := true), v.stored, cfg)
    }

    function RevokedAll(visits: seq<Visit>, cfg: Settings): Redis
      decreases |visits|
    {
      if visits == [] then this
      else RevokedAll(visits[..|visits| - 1], cfg).Revoked(visits[|visits| - 1], cfg)
    }
  }

  /** A turn of revoke_family's loop: the member, when it is read, and its `put`. */
  datatype Visit = Visit(hash: TokenHash, got: int, stored: Write)

  /** The loop meets each member of the set, listed at `listed`, once, in some order. */
  ghost predicate Enumerates(r: Redis, f: FamilyId, listed: int, visits: seq<Visit>) {
    && (forall h :: h in r.Members(f, listed) <==> exists i :: 0 <= i < |visits| && visits[i].hash == h)
    && (forall i, j :: 0 <= i < j < |visits| ==> visits[i].hash != visits[j].hash)
  }

  ghost predicate Timely(visits: seq<Visit>, listed: int, done: int) {
    forall i :: 0 <= i < |visits| ==>
      listed <= visits[i].got <= visits[i].stored.read <= visits[i].stored.at <= done
  }

  // ----- TokenManager -----

  datatype Outcome =
    | Issued(hash: TokenHash)
    | Invalid
    | ReuseDetected

  /** Identifiers drawn at random by one `issue`. */
  datatype Drawn = Drawn(id: nat, hash: TokenHash)

  /** A request and its readings of the clock: `got` when the server answers the GET,
      `checked` against the expiry, `used` for the `put` of the consumed session, `issued`
      for the new one's lifetime and `stored` for its `put`; `done` ends the request. */
  datatype Request =
    | Login(identity: Identity, family: FamilyId, drawn: Drawn, issued: int, stored: Write)
    | Rotate(presented: TokenHash, drawn: Drawn, got: int, checked: int, used: Write, issued: int, stored: Write, done: int)
  {
    function Start(): int {
      if Login? then issued else got
    }

    function End(): int {
      if Login? then stored.at else done
    }

    predicate Ordered() {
      match this
      case Login(_, _, _, issued, stored) => issued <= stored.read <= stored.at
      case Rotate(_, _, got, checked, used, issued, stored, done) =>
        got <= checked <= used.read <= used.at <= issued <= stored.read <= stored.at <= done
    }
  }

  function NewSession(identity: Identity, family: FamilyId, drawn: Drawn, issued: int, cfg: Settings): Session {
    Session(drawn.id, family, identity, drawn.hash, issued + cfg.Life(), false, false)
  }

  function MemoryStep(m: Memory, q: Request, cfg: Settings): (Memory, Outcome) {
    match q
    case Login(identity, family, drawn, issued, _) =>
      (MemoryPut(m, NewSession(identity, family, drawn, issued, cfg)), Issued(drawn.hash))
    case Rotate(h, drawn, _, checked, _, issued, _, _) =>
      if h !in m || m[h].revoked || m[h].expiresAt <= checked then (m, Invalid)
      else if m[h].used then (MemoryRevoke(m, m[h].family), ReuseDetected)
      else
        var consumed := m[h].(used := true);
        var next := NewSession(m[h].identity, m[h].family, drawn, issued, cfg);
        (MemoryPut(MemoryPut(m, consumed), next), Issued(drawn.hash))
  }

  /** `after` is a state in which revoke_family, between two instants, may leave the server. */
  ghost predicate RedisRevoke(r: Redis, f: FamilyId, from: int, done: int, cfg: Settings, after: Redis) {
    exists listed, visits {:trigger Enumerates(r, f, listed, visits)} ::
      && from <= listed <= done && Enumerates(r, f, listed, visits) && Timely(visits, listed, done)
      && after == r.RevokedAll(visits, cfg)
  }

  ghost predicate RedisStep(r: Redis, q: Request, cfg: Settings, after: Redis, o: Outcome) {
    match q
    case Login(identity, family, drawn, issued, stored) =>
      after == r.Put(NewSession(identity, family, drawn, issued, cfg), stored, cfg) && o == Issued(drawn.hash)
    case Rotate(h, drawn, got, checked, used, issued, stored, done) =>
      match r.Get(h, got)
      case None => after == r && o == Invalid
      case Some(s) =>
        if s.revoked || s.expiresAt <= checked then after == r && o == Invalid
        else if s.used then RedisRevoke(r, s.family, checked, done, cfg, after) && o == ReuseDetected
        else
          var consumed := s.(used := true);
          var next := NewSession(s.identity, s.family, drawn, issued, cfg);
          after == r.Put(consumed, used, cfg).Put(next, stored, cfg) && o == Issued(drawn.hash)
  }

  /** What the random generators promise: the new hash was never issued before and a
      login starts a family of its own.  The memory store never forgets, so it is
      the record of what was issued. */
  ghost predicate FreshFor(m: Memory, q: Request) {
    && q.drawn.hash !in m
    && (q.Login? ==> forall h :: h in m ==> m[h].family != q.family)
  }
}
