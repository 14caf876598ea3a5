/** Where the Redis store and the store that never forgets part: runs in which a token
    slips, and the settings under which none can. */
module SessionLimits {
  import opened SessionAgreement
  import opened SessionSafety
  import opened Sessions

  ghost predicate AlwaysAgree(cfg: Settings) {
    forall qs, ms, os, rs, os' :: BothRun(qs, cfg, ms, os, rs, os') ==> os == os'
  }

  // ----- settings under which no token slips -----

  lemma NoneLateWhenExpired(qs: seq<Request>, cfg: Settings, ms: seq<Memory>, os: seq<Outcome>)
    requires MemoryRun(qs, cfg, ms, os) && cfg.days == 0
    ensures NoneLate(qs, cfg, ms)
  {
    forall i | 0 <= i < |qs| ensures !InLastSecond(ms[i], qs[i], cfg) {
      FamiliesHold(qs, cfg, ms, os, i, qs[i].Start());
      assert qs[i].Ordered();
    }
  }

  lemma AgreeWhenCoarse(cfg: Settings)
    requires cfg.second == 1 || cfg.days == 0
    ensures AlwaysAgree(cfg)
  {
    forall qs, ms, os, rs, os' | BothRun(qs, cfg, ms, os, rs, os') ensures os == os' {
      if cfg.second == 1 {
        WholeSecondsAgree(qs, cfg, ms, os, rs, os');
      } else {
        NoneLateWhenExpired(qs, cfg, ms, os);
        AgreeUnlessLate(qs, cfg, ms, os, rs, os');
      }
    }
  }

  // ----- a login written one tick late -----

  /** A rotation that takes no time. */
  function RotateAt(h: TokenHash, drawn: Drawn, t: int): Request {
    Rotate(h, drawn, t, t, Write(t, t), t, Write(t, t), t)
  }

  lemma OneLess(k: int, second: Positive)
    requires k >= 1
    ensures (k * second - 1) % second == second - 1
  {
    var x := k * second - 1;
    Rounded(x, second);
    if x / second >= k {
      AtLeastOnce(k, x / second, second);
    } else if x / second <= k - 2 {
      AtLeastOnce(x / second, k - 2, second);
    }
    assert (k - 1) * second == k * second - second;
  }

  /** A key written one tick after the session's instant dies a second less a tick early. */
  lemma OneTickLate(cfg: Settings)
    requires cfg.days >= 1
    ensures cfg.KeyExpiry(cfg.Life(), Write(1, 1)) == cfg.Life() - cfg.second + 1
    ensures cfg.Life() - cfg.second >= 1
  {
    var days := 86400 * cfg.days;
    OneLess(days, cfg.second);
    AtLeastOnce(3, days, cfg.second);
    KeyExpiryExact(cfg.Life(), 1, cfg);
  }

  /** The first token of a family, presented for the first time as its key dies. */
  function LateLogin(who: Identity, cfg: Settings): seq<Request> {
    [Login(who, 0, Drawn(0, 10), 0, Write(1, 1)), RotateAt(10, Drawn(1, 11), cfg.Life() - cfg.second + 1)]
  }

  lemma LateLoginMemory(who: Identity, cfg: Settings) returns (ms: seq<Memory>, os: seq<Outcome>)
    requires cfg.second >= 2 && cfg.days >= 1
    ensures MemoryRun(LateLogin(who, cfg), cfg, ms, os) && os[1] == Issued(11)
  {
    OneTickLate(cfg);
    var qs := LateLogin(who, cfg);
    var m1 := MemoryStep(map[], qs[0], cfg).0;
    ms, os := [map[], m1, MemoryStep(m1, qs[1], cfg).0], [Issued(10), Issued(11)];
  }

  lemma LateLoginRedis(who: Identity, cfg: Settings) returns (rs: seq<Redis>, os: seq<Outcome>)
    requires cfg.second >= 2 && cfg.days >= 1
    ensures RedisRun(LateLogin(who, cfg), cfg, rs, os) && os[1] == Invalid
  {
    OneTickLate(cfg);
    var r1 := Redis(map[], map[]).Put(NewSession(who, 0, Drawn(0, 10), 0, cfg), Write(1, 1), cfg);
    rs, os := [Redis(map[], map[]), r1, r1], [Issued(10), Invalid];
  }

  /** The stores agree on every run just when the clock has no parts of a second, or tokens
      have no life at all: otherwise even a token that was never used is lost early. */
  lemma AlwaysAgreeIff(cfg: Settings)
    ensures AlwaysAgree(cfg) <==> cfg.second == 1 || cfg.days == 0
  {
    if cfg.second == 1 || cfg.days == 0 {
      AgreeWhenCoarse(cfg);
    } else {
      var who := Identity(0, 0, "viewer");
      var ms, os := LateLoginMemory(who, cfg);
      var rs, os' := LateLoginRedis(who, cfg);
      assert BothRun(LateLogin(who, cfg), cfg, ms, os, rs, os') && os != os';
    }
  }

  // ----- the two ways to slip, at half a second and a day of life -----

  const HALVES := Settings(2, 1)

  /** Log in, use the token half a second later, replay it in its last half second: every
      request reads the clock at one instant. */
  function HalfSecondRun(who: Identity): seq<Request> {
    [Login(who, 0, Drawn(0, 10), 0, Write(0, 0)), RotateAt(10, Drawn(1, 11), 1), RotateAt(10, Drawn(2, 12), 172799)]
  }

  lemma HalfSecondMemory(who: Identity) returns (ms: seq<Memory>, os: seq<Outcome>)
    ensures MemoryRun(HalfSecondRun(who), HALVES, ms, os) && os[2] == ReuseDetected
    ensures 10 in ms[2] && !ms[2][10].revoked && ms[2][10].expiresAt == 172800
  {
    var qs := HalfSecondRun(who);
    var m1 := MemoryStep(map[], qs[0], HALVES).0;
    var m2 := MemoryStep(m1, qs[1], HALVES).0;
    ms := [map[], m1, m2, MemoryStep(m2, qs[2], HALVES).0];
    os := [Issued(10), Issued(11), ReuseDetected];
  }

  lemma HalfSecondRedis(who: Identity) returns (rs: seq<Redis>, os: seq<Outcome>)
    ensures RedisRun(HalfSecondRun(who), HALVES, rs, os) && os[2] == Invalid && !rs[2].Live(10, 172799)
  {
    var first := Session(0, 0, who, 10, 172800, false, false);
    var used, next := first.(used := true), Session(1, 0, who, 11, 172801, false, false);
    var r1 := Redis(map[], map[]).Put(first, Write(0, 0), HALVES);
    var r2 := r1.Put(used, Write(1, 1), HALVES).Put(next, Write(1, 1), HALVES);
    rs, os := [Redis(map[], map[]), r1, r2, r2], [Issued(10), Issued(11), Invalid];
  }

  /** Forgotten: that replay is reuse to the memory store, which revokes the family, and
      merely unknown to Redis, whose family stays alive. */
  lemma HalfSecondsDisagree(who: Identity)
    returns (ms: seq<Memory>, os: seq<Outcome>, rs: seq<Redis>, os': seq<Outcome>)
    ensures BothRun(HalfSecondRun(who), HALVES, ms, os, rs, os')
    ensures Forgotten(ms[2], rs[2], HalfSecondRun(who)[2]) && os[2] == ReuseDetected && os'[2] == Invalid
  {
    ms, os := HalfSecondMemory(who);
    rs, os' := HalfSecondRedis(who);
  }

  /** A successor written half a second late: its put sets the family set to expire before
      the used token's key does.  That token is then replayed twice. */
  function EscapeRun(who: Identity): seq<Request> {
    [Login(who, 0, Drawn(0, 10), 0, Write(0, 0)), Rotate(10, Drawn(1, 11), 0, 0, Write(0, 0), 0, Write(1, 1), 1),
     RotateAt(10, Drawn(2, 12), 172799), RotateAt(10, Drawn(3, 13), 172799)]
  }

  lemma EscapeMemory(who: Identity) returns (ms: seq<Memory>, os: seq<Outcome>)
    ensures MemoryRun(EscapeRun(who), HALVES, ms, os) && os[..3] == [Issued(10), Issued(11), ReuseDetected]
    ensures os[3] == Invalid && 10 in ms[3] && ms[3][10].revoked && ms[3][10].expiresAt == 172800
  {
    var qs := EscapeRun(who);
    var m1 := MemoryStep(map[], qs[0], HALVES).0;
    var m2 := MemoryStep(m1, qs[1], HALVES).0;
    var m3 := MemoryStep(m2, qs[2], HALVES).0;
    ms := [map[], m1, m2, m3, m3];
    os := [Issued(10), Issued(11), ReuseDetected, Invalid];
  }

  lemma EscapeRedis(who: Identity) returns (rs: seq<Redis>, os: seq<Outcome>)
    ensures RedisRun(EscapeRun(who), HALVES, rs, os) && os[..3] == [Issued(10), Issued(11), ReuseDetected]
    ensures os[3] == ReuseDetected && rs[3].Live(10, 172799) && !IsRevoked(rs[3], 10)
  {
    var first := Session(0, 0, who, 10, 172800, false, false);
    var used, next := first.(used := true), Session(1, 0, who, 11, 172800, false, false);
    var r1 := Redis(map[], map[]).Put(first, Write(0, 0), HALVES);
    var r2 := r1.Put(used, Write(0, 0), HALVES).Put(next, Write(1, 1), HALVES);
    assert Enumerates(r2, 0, 172799, []) && Timely([], 172799, 172799);
    assert RedisRevoke(r2, 0, 172799, 172799, HALVES, r2);
    rs, os := [Redis(map[], map[]), r1, r2, r2, r2], [Issued(10), Issued(11), ReuseDetected, ReuseDetected];
  }

  /** Escaped: the revocation finds the set empty, so Redis detects the second replay too,
      while the memory store knows the token to be revoked. */
  lemma EscapesDisagree(who: Identity)
    returns (ms: seq<Memory>, os: seq<Outcome>, rs: seq<Redis>, os': seq<Outcome>)
    ensures BothRun(EscapeRun(who), HALVES, ms, os, rs, os') && SameOutcomes(os, os', 3)
    ensures Escaped(ms[3], rs[3], EscapeRun(who)[3]) && os[3] == Invalid && os'[3] == ReuseDetected
  {
    ms, os := EscapeMemory(who);
    rs, os' := EscapeRedis(who);
  }
}
