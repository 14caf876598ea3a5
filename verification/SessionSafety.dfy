/** Whole-run properties of refresh-token rotation. */
module SessionSafety {
  import opened Sessions

  /** The family invariant of the store that never forgets. */
  ghost predicate Families(m: Memory) {
    && (forall h :: h in m ==> m[h].hash == h)
    && (forall g, h {:trigger m[g], m[h]} :: g in m && h in m && m[g].family == m[h].family ==>
          m[g].identity == m[h].identity && m[g].revoked == m[h].revoked
          && (m[h].Active() ==> (m[g].Active() ==> g == h) && m[g].expiresAt <= m[h].expiresAt))
  }

  /** No session outlives a token issued at `now`. */
  ghost predicate IssuedBy(m: Memory, now: int, cfg: Settings) {
    forall h :: h in m ==> m[h].expiresAt <= now + cfg.Life()
  }

  lemma RevokeKeepsFamilies(m: Memory, f: FamilyId)
    requires Families(m)
    ensures Families(MemoryRevoke(m, f))
  {
  }

  lemma RotateKeepsFamilies(m: Memory, h: TokenHash, next: Session)
    requires Families(m) && h in m && m[h].Active() && next.hash !in m
    requires next.family == m[h].family && next.identity == m[h].identity && next.Active()
    requires forall g :: g in m ==> m[g].expiresAt <= next.expiresAt
    ensures Families(MemoryPut(MemoryPut(m, m[h].(used := true)), next))
  {
  }

  /** Issue and rotate keep the family invariant. */
  lemma StepKeepsFamilies(m: Memory, q: Request, cfg: Settings)
    requires Families(m) && IssuedBy(m, q.issued, cfg) && FreshFor(m, q)
    ensures Families(MemoryStep(m, q, cfg).0) && IssuedBy(MemoryStep(m, q, cfg).0, q.issued, cfg)
  {
    if q.Rotate? && q.presented in m {
      var s := m[q.presented];
      RevokeKeepsFamilies(m, s.family);
      if s.Active() {
        RotateKeepsFamilies(m, q.presented, NewSession(s.identity, s.family, q.drawn, q.issued, cfg));
      }
    }
  }

  /** h is still in m', in the same family and with the marks it had in m. */
  ghost predicate KeepsMarks(m: Memory, m': Memory, h: TokenHash)
    requires h in m
  {
    h in m' && m'[h].family == m[h].family && (m[h].used ==> m'[h].used) && (m[h].revoked ==> m'[h].revoked)
  }

  lemma StepKeepsMarks(m: Memory, q: Request, cfg: Settings, h: TokenHash)
    requires Families(m) && FreshFor(m, q) && h in m
    ensures KeepsMarks(m, MemoryStep(m, q, cfg).0, h)
  {
  }

  // ----- runs -----

  /** One request of a run: what it draws is fresh, and the store steps. */
  ghost predicate MemoryServes(m: Memory, q: Request, cfg: Settings, m': Memory, o: Outcome) {
    FreshFor(m, q) && MemoryStep(m, q, cfg) == (m', o)
  }

  /** ms are the states of the memory store, and os the outcomes, of serving qs from
      empty, one after another, under a clock that never goes back. */
  ghost predicate MemoryRun(qs: seq<Request>, cfg: Settings, ms: seq<Memory>, os: seq<Outcome>) {
    && |ms| == |qs| + 1 && |os| == |qs| && ms[0] == map[]
    && (forall i :: 0 <= i < |qs| ==> MemoryServes(ms[i], qs[i], cfg, ms[i + 1], os[i]))
    && InTurn(qs)
  }

  ghost predicate InTurn(qs: seq<Request>) {
    && (forall i :: 0 <= i < |qs| ==> qs[i].Ordered())
    && (forall i, j :: 0 <= i < j < |qs| ==> qs[i].End() <= qs[j].Start())
  }

  /** No session outlives one issued later. */
  lemma IssuedLater(m: Memory, now: int, later: int, cfg: Settings)
    requires IssuedBy(m, now, cfg) && now <= later
    ensures IssuedBy(m, later, cfg)
  {
  }

  lemma {:induction false} FamiliesHold(qs: seq<Request>, cfg: Settings, ms: seq<Memory>, os: seq<Outcome>, i: nat,
                                        now: int)
    requires MemoryRun(qs, cfg, ms, os) && i <= |qs| && (i > 0 ==> qs[i - 1].End() <= now)
    ensures Families(ms[i]) && IssuedBy(ms[i], now, cfg)
    decreases i
  {
    if i > 0 {
      var q := qs[i - 1];
      FamiliesHold(qs, cfg, ms, os, i - 1, q.Start());
      assert MemoryServes(ms[i - 1], q, cfg, ms[i], os[i - 1]);
      IssuedLater(ms[i - 1], q.Start(), q.issued, cfg);
      StepKeepsFamilies(ms[i - 1], q, cfg);
      IssuedLater(ms[i], q.issued, now, cfg);
    }
  }

  lemma FamiliesAt(qs: seq<Request>, cfg: Settings, ms: seq<Memory>, os: seq<Outcome>, i: nat)
    requires MemoryRun(qs, cfg, ms, os) && i <= |qs|
    ensures Families(ms[i])
  {
    FamiliesHold(qs, cfg, ms, os, i, if i == 0 then 0 else qs[i - 1].End());
  }

  /** At every point of every run a family has at most one usable token, and its
      members share user, organisation and role. */
  lemma OneActivePerFamily(qs: seq<Request>, cfg: Settings, ms: seq<Memory>, os: seq<Outcome>, i: nat, g: TokenHash,
                           h: TokenHash)
    requires MemoryRun(qs, cfg, ms, os) && i <= |qs|
    requires g in ms[i] && h in ms[i] && ms[i][g].family == ms[i][h].family
    ensures ms[i][g].identity == ms[i][h].identity
    ensures ms[i][g].Active() && ms[i][h].Active() ==> g == h
  {
    FamiliesAt(qs, cfg, ms, os, i);
  }

  /** Used and revoked marks are never taken back. */
  lemma {:induction false} MarksStay(qs: seq<Request>, cfg: Settings, ms: seq<Memory>, os: seq<Outcome>, i: nat,
                                     j: nat, h: TokenHash)
    requires MemoryRun(qs, cfg, ms, os) && i <= j <= |qs| && h in ms[i]
    ensures KeepsMarks(ms[i], ms[j], h)
    decreases j
  {
    if i < j {
      MarksStay(qs, cfg, ms, os, i, j - 1, h);
      FamiliesAt(qs, cfg, ms, os, j - 1);
      assert MemoryServes(ms[j - 1], qs[j - 1], cfg, ms[j], os[j - 1]);
      StepKeepsMarks(ms[j - 1], qs[j - 1], cfg, h);
    }
  }

  /** A token is exchanged at most once. */
  lemma ExchangedOnce(qs: seq<Request>, cfg: Settings, ms: seq<Memory>, os: seq<Outcome>, i: nat, j: nat)
    requires MemoryRun(qs, cfg, ms, os) && i < j < |qs|
    requires qs[i].Rotate? && qs[j].Rotate? && qs[i].presented == qs[j].presented
    requires os[i].Issued?
    ensures !os[j].Issued?
  {
    FamiliesAt(qs, cfg, ms, os, i);
    assert MemoryServes(ms[i], qs[i], cfg, ms[i + 1], os[i]);
    MarksStay(qs, cfg, ms, os, i + 1, j, qs[i].presented);
    assert MemoryServes(ms[j], qs[j], cfg, ms[j + 1], os[j]);
  }

  /** Once reuse is detected, no token of that family is exchanged again. */
  lemma ReplayKillsFamily(qs: seq<Request>, cfg: Settings, ms: seq<Memory>, os: seq<Outcome>, i: nat, j: nat)
    requires MemoryRun(qs, cfg, ms, os) && i < j < |qs| && qs[i].Rotate? && qs[j].Rotate?
    requires os[i].ReuseDetected? && qs[j].presented in ms[j]
    requires qs[i].presented in ms[i] ==> ms[j][qs[j].presented].family == ms[i][qs[i].presented].family
    ensures os[j] == Invalid
  {
    assert MemoryServes(ms[i], qs[i], cfg, ms[i + 1], os[i]);
    MarksStay(qs, cfg, ms, os, i + 1, j, qs[i].presented);
    FamiliesAt(qs, cfg, ms, os, j);
    assert MemoryServes(ms[j], qs[j], cfg, ms[j + 1], os[j]);
  }
}
