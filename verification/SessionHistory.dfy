/** What becomes of a refresh token, told from the requests and outcomes of a run alone:
    where it comes from, until when it lives, and how each presentation of it is answered. */
module SessionHistory {
  import opened SessionAgreement
  import opened SessionSafety
  import opened Sessions
  import opened Wrappers

  /** How a token came about: the family and the identity of the login it goes back to, and
      the instant it was issued. */
  datatype Origin = Origin(family: FamilyId, identity: Identity, issued: int)

  /** The origin of the token h after the first n requests, if it has been issued by then. */
  function OriginOf(qs: seq<Request>, os: seq<Outcome>, n: nat, h: TokenHash): Option<Origin>
    requires n <= |qs| == |os|
    decreases n
  {
    if n == 0 then None
    else if os[n - 1] != Issued(h) then OriginOf(qs, os, n - 1, h)
    else
      match qs[n - 1]
      case Login(identity, family, _, issued, _) => Some(Origin(family, identity, issued))
      case Rotate(presented, _, _, _, _, issued, _, _) =>
        match OriginOf(qs, os, n - 1, presented)
        case None => None
        case Some(parent) => Some(parent.(issued := issued))
  }

  ghost predicate ExchangedAt(qs: seq<Request>, os: seq<Outcome>, k: nat, h: TokenHash)
    requires k < |qs| == |os|
  {
    qs[k].Rotate? && qs[k].presented == h && os[k].Issued?
  }

  /** The token has been exchanged in one of the first n requests. */
  ghost predicate Exchanged(qs: seq<Request>, os: seq<Outcome>, n: nat, h: TokenHash)
    requires n <= |qs| == |os|
  {
    exists k: nat :: k < n && ExchangedAt(qs, os, k, h)
  }

  ghost predicate ReplayedAt(qs: seq<Request>, os: seq<Outcome>, k: nat, f: FamilyId)
    requires k < |qs| == |os|
  {
    && qs[k].Rotate? && os[k] == ReuseDetected
    && OriginOf(qs, os, k, qs[k].presented).Some? && OriginOf(qs, os, k, qs[k].presented).value.family == f
  }

  /** A token of the family has been found to be replayed in one of them. */
  ghost predicate Replayed(qs: seq<Request>, os: seq<Outcome>, n: nat, f: FamilyId)
    requires n <= |qs| == |os|
  {
    exists k: nat :: k < n && ReplayedAt(qs, os, k, f)
  }

  /** What the store holds of h is what the history tells. */
  ghost predicate Told(qs: seq<Request>, os: seq<Outcome>, cfg: Settings, n: nat, m: Memory, h: TokenHash)
    requires n <= |qs| == |os|
  {
    match OriginOf(qs, os, n, h)
    case None => h !in m && !Exchanged(qs, os, n, h)
    case Some(o) =>
      && h in m && m[h].family == o.family && m[h].identity == o.identity
      && m[h].expiresAt == o.issued + cfg.days * 86400 * cfg.second
      && (m[h].used <==> Exchanged(qs, os, n, h))
      && (m[h].revoked <==> Replayed(qs, os, n, o.family))
  }

  ghost predicate AllTold(qs: seq<Request>, os: seq<Outcome>, cfg: Settings, n: nat, m: Memory)
    requires n <= |qs| == |os|
  {
    && (forall h :: Told(qs, os, cfg, n, m, h))
    && (forall f :: Replayed(qs, os, n, f) ==> HasFamily(m, f))
  }

  ghost predicate HasFamily(m: Memory, f: FamilyId) {
    exists h :: h in m && m[h].family == f
  }

  lemma ExchangedNext(qs: seq<Request>, os: seq<Outcome>, n: nat, h: TokenHash)
    requires n < |qs| == |os|
    ensures Exchanged(qs, os, n + 1, h) <==> Exchanged(qs, os, n, h) || ExchangedAt(qs, os, n, h)
  {
    if Exchanged(qs, os, n + 1, h) {
      var k: nat :| k < n + 1 && ExchangedAt(qs, os, k, h);
      assert k == n || Exchanged(qs, os, n, h);
    }
  }

  lemma ReplayedNext(qs: seq<Request>, os: seq<Outcome>, n: nat, f: FamilyId)
    requires n < |qs| == |os|
    ensures Replayed(qs, os, n + 1, f) <==> Replayed(qs, os, n, f) || ReplayedAt(qs, os, n, f)
  {
    if Replayed(qs, os, n + 1, f) {
      var k: nat :| k < n + 1 && ReplayedAt(qs, os, k, f);
      assert k == n || Replayed(qs, os, n, f);
    }
  }

  lemma Lifetime(cfg: Settings)
    ensures cfg.Life() == cfg.days * 86400 * cfg.second
  {
    assert 86400 * cfg.days == cfg.days * 86400;
  }

  lemma LoginTold(qs: seq<Request>, os: seq<Outcome>, cfg: Settings, n: nat, m: Memory, m': Memory, h: TokenHash)
    requires n < |qs| == |os| && AllTold(qs, os, cfg, n, m) && qs[n].Login?
    requires MemoryServes(m, qs[n], cfg, m', os[n])
    ensures Told(qs, os, cfg, n + 1, m', h)
  {
    var q := qs[n];
    Lifetime(cfg);
    assert Told(qs, os, cfg, n, m, h);
    ExchangedNext(qs, os, n, h);
    if h == q.drawn.hash {
      assert !HasFamily(m, q.family);
      ReplayedNext(qs, os, n, q.family);
    } else if OriginOf(qs, os, n, h).Some? {
      ReplayedNext(qs, os, n, OriginOf(qs, os, n, h).value.family);
    }
  }

  lemma RotateTold(qs: seq<Request>, os: seq<Outcome>, cfg: Settings, n: nat, m: Memory, m': Memory, h: TokenHash)
    requires n < |qs| == |os| && AllTold(qs, os, cfg, n, m) && qs[n].Rotate? && Families(m)
    requires MemoryServes(m, qs[n], cfg, m', os[n])
    ensures Told(qs, os, cfg, n + 1, m', h)
  {
    var q := qs[n];
    Lifetime(cfg);
    assert Told(qs, os, cfg, n, m, h) && Told(qs, os, cfg, n, m, q.presented);
    ExchangedNext(qs, os, n, h);
    var o := OriginOf(qs, os, n + 1, h);
    if o.Some? {
      ReplayedNext(qs, os, n, o.value.family);
    }
  }

  lemma StillFamilies(qs: seq<Request>, os: seq<Outcome>, cfg: Settings, n: nat, m: Memory, m': Memory, f: FamilyId)
    requires n < |qs| == |os| && AllTold(qs, os, cfg, n, m) && MemoryServes(m, qs[n], cfg, m', os[n]) && Families(m)
    requires Replayed(qs, os, n + 1, f)
    ensures HasFamily(m', f)
  {
    ReplayedNext(qs, os, n, f);
    var g: TokenHash;
    if Replayed(qs, os, n, f) {
      g :| g in m && m[g].family == f;
    } else {
      g := qs[n].presented;
      assert Told(qs, os, cfg, n, m, g);
    }
    StepKeepsMarks(m, qs[n], cfg, g);
    assert g in m' && m'[g].family == f;
  }

  lemma {:induction false} HistoryTells(qs: seq<Request>, cfg: Settings, ms: seq<Memory>, os: seq<Outcome>, n: nat)
    requires MemoryRun(qs, cfg, ms, os) && n <= |qs|
    ensures AllTold(qs, os, cfg, n, ms[n])
  {
    if n > 0 {
      var m, m' := ms[n - 1], ms[n];
      HistoryTells(qs, cfg, ms, os, n - 1);
      FamiliesAt(qs, cfg, ms, os, n - 1);
      assert MemoryServes(m, qs[n - 1], cfg, m', os[n - 1]);
      forall h ensures Told(qs, os, cfg, n, m', h) {
        if qs[n - 1].Login? {
          LoginTold(qs, os, cfg, n - 1, m, m', h);
        } else {
          RotateTold(qs, os, cfg, n - 1, m, m', h);
        }
      }
      forall f | Replayed(qs, os, n, f) ensures HasFamily(m', f) {
        StillFamilies(qs, os, cfg, n - 1, m, m', f);
      }
    }
  }

  /** How a presentation of h, checked at this instant, ought to be answered after the first
      n requests: a token that was never issued, whose family has been replayed, or whose
      days are over, is invalid; one exchanged before is reuse; any other is exchanged. */
  ghost function Answer(qs: seq<Request>, os: seq<Outcome>, cfg: Settings, n: nat, h: TokenHash, checked: int,
                        drawn: TokenHash): Outcome
    requires n <= |qs| == |os|
  {
    match OriginOf(qs, os, n, h)
    case None => Invalid
    case Some(o) =>
      if Replayed(qs, os, n, o.family) || checked >= o.issued + cfg.days * 86400 * cfg.second then Invalid
      else if Exchanged(qs, os, n, h) then ReuseDetected
      else Issued(drawn)
  }

  /** On every run the requests and outcomes before it alone decide the outcome of a
      rotation. */
  lemma HistoryDecides(qs: seq<Request>, cfg: Settings, ms: seq<Memory>, os: seq<Outcome>, n: nat)
    requires MemoryRun(qs, cfg, ms, os) && n < |qs| && qs[n].Rotate?
    ensures os[n] == Answer(qs, os, cfg, n, qs[n].presented, qs[n].checked, qs[n].drawn.hash)
  {
    HistoryTells(qs, cfg, ms, os, n);
    assert Told(qs, os, cfg, n, ms[n], qs[n].presented);
    assert MemoryServes(ms[n], qs[n], cfg, ms[n + 1], os[n]);
  }

  /** And over Redis too, with a clock of whole seconds. */
  lemma HistoryDecidesRedis(qs: seq<Request>, cfg: Settings, ms: seq<Memory>, os: seq<Outcome>, rs: seq<Redis>,
                            os': seq<Outcome>, n: nat)
    requires BothRun(qs, cfg, ms, os, rs, os') && cfg.second == 1 && n < |qs| && qs[n].Rotate?
    ensures os'[n] == Answer(qs, os', cfg, n, qs[n].presented, qs[n].checked, qs[n].drawn.hash)
  {
    WholeSecondsAgree(qs, cfg, ms, os, rs, os');
    HistoryDecides(qs, cfg, ms, os, n);
  }

  // ----- the life of one token -----

  lemma {:induction false} OriginStays(qs: seq<Request>, cfg: Settings, ms: seq<Memory>, os: seq<Outcome>, i: nat,
                                       n: nat, h: TokenHash)
    requires MemoryRun(qs, cfg, ms, os) && i <= n <= |qs| && OriginOf(qs, os, i, h).Some?
    ensures OriginOf(qs, os, n, h) == OriginOf(qs, os, i, h)
    decreases n
  {
    if i < n {
      OriginStays(qs, cfg, ms, os, i, n - 1, h);
      HistoryTells(qs, cfg, ms, os, n - 1);
      assert Told(qs, os, cfg, n - 1, ms[n - 1], h);
      assert MemoryServes(ms[n - 1], qs[n - 1], cfg, ms[n], os[n - 1]);
    }
  }

  /** Request i issues the token h. */
  ghost predicate Issues(qs: seq<Request>, os: seq<Outcome>, i: nat, h: TokenHash) {
    i < |qs| == |os| && os[i] == Issued(h)
  }

  lemma IssuedOrigin(qs: seq<Request>, cfg: Settings, ms: seq<Memory>, os: seq<Outcome>, i: nat, h: TokenHash)
    requires MemoryRun(qs, cfg, ms, os) && Issues(qs, os, i, h)
    ensures OriginOf(qs, os, i + 1, h).Some? && OriginOf(qs, os, i + 1, h).value.issued == qs[i].issued
  {
    HistoryTells(qs, cfg, ms, os, i);
    assert MemoryServes(ms[i], qs[i], cfg, ms[i + 1], os[i]);
    assert qs[i].Rotate? ==> Told(qs, os, cfg, i, ms[i], qs[i].presented);
  }

  /** A token issued at an instant t, presented for the first time, is exchanged if and only
      if fewer than `days` days of 86,400 seconds have passed since t, and no token of its
      family has been found to be replayed. */
  lemma LivesItsDays(qs: seq<Request>, cfg: Settings, ms: seq<Memory>, os: seq<Outcome>, i: nat, n: nat)
    requires MemoryRun(qs, cfg, ms, os) && i < n < |qs| && qs[n].Rotate? && Issues(qs, os, i, qs[n].presented)
    requires forall k :: i < k < n && qs[k].Rotate? ==> qs[k].presented != qs[n].presented
    ensures OriginOf(qs, os, n, qs[n].presented).Some?
    ensures os[n].Issued? <==>
      && qs[n].checked < qs[i].issued + cfg.days * 86400 * cfg.second
      && !Replayed(qs, os, n, OriginOf(qs, os, n, qs[n].presented).value.family)
  {
    var h := qs[n].presented;
    IssuedOrigin(qs, cfg, ms, os, i, h);
    OriginStays(qs, cfg, ms, os, i + 1, n, h);
    HistoryDecides(qs, cfg, ms, os, n);
    NeverBefore(qs, cfg, ms, os, i, n, h);
  }

  /** What is presented for the first time has not been exchanged. */
  lemma NeverBefore(qs: seq<Request>, cfg: Settings, ms: seq<Memory>, os: seq<Outcome>, i: nat, n: nat, h: TokenHash)
    requires MemoryRun(qs, cfg, ms, os) && i < n <= |qs| && Issues(qs, os, i, h)
    requires forall k :: i < k < n && qs[k].Rotate? ==> qs[k].presented != h
    ensures !Exchanged(qs, os, n, h)
  {
    if Exchanged(qs, os, n, h) {
      var k: nat :| k < n && ExchangedAt(qs, os, k, h);
      assert MemoryServes(ms[k], qs[k], cfg, ms[k + 1], os[k]) && MemoryServes(ms[i], qs[i], cfg, ms[i + 1], os[i]);
      assert h in ms[k];
      MarksStay(qs, cfg, ms, os, k, i, h);
      assert false;
    }
  }

  /** The same over Redis, with a clock of whole seconds. */
  lemma LivesItsDaysInRedis(qs: seq<Request>, cfg: Settings, ms: seq<Memory>, os: seq<Outcome>, rs: seq<Redis>,
                            os': seq<Outcome>, i: nat, n: nat)
    requires BothRun(qs, cfg, ms, os, rs, os') && cfg.second == 1
    requires i < n < |qs| && qs[n].Rotate? && Issues(qs, os', i, qs[n].presented)
    requires forall k :: i < k < n && qs[k].Rotate? ==> qs[k].presented != qs[n].presented
    ensures OriginOf(qs, os', n, qs[n].presented).Some?
    ensures os'[n].Issued? <==>
      && qs[n].checked < qs[i].issued + cfg.days * 86400
      && !Replayed(qs, os', n, OriginOf(qs, os', n, qs[n].presented).value.family)
  {
    WholeSecondsAgree(qs, cfg, ms, os, rs, os');
    LivesItsDays(qs, cfg, ms, os, i, n);
  }
}
