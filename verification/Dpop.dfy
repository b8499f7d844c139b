// DPoP proofs: freshness, then single use. Header, key and signature checks are
// one flag of the proof. A request reads the clock twice, in milliseconds: for the
// freshness check, and later in the store for the record.
module Dpop {
  import opened Wrappers
  import opened TokenStore
  import opened MemoryTokens

  const DEFAULT_IAT_TOLERANCE_SEC := 60
  const DEFAULT_JTI_TTL_MS := 2 * DEFAULT_IAT_TOLERANCE_SEC * 1000

  datatype Proof = Proof(genuine: bool, htm: string, htu: string, iat: int, jti: string, ath: Option<string>)

  datatype Limits = Limits(toleranceSec: nat, ttlMs: int)

  const DEFAULTS := Limits(DEFAULT_IAT_TOLERANCE_SEC, DEFAULT_JTI_TTL_MS)

  // A proof as presented with a request that is checked at one time and recorded at another.
  datatype Presentation = Presentation(
    proof: Proof, htm: string, htu: string, expectedAth: Option<string>, checkedAt: int, recordedAt: int)

  function Abs(x: int): int {
    if x < 0 then -x else x
  }

  // Euclidean division by a positive number is `Math.floor`.
  function Seconds(ms: int): int {
    ms / 1000
  }

  predicate Fresh(l: Limits, p: Presentation) {
    Abs(Seconds(p.checkedAt) - p.proof.iat) <= l.toleranceSec
  }

  predicate Matches(p: Presentation) {
    && p.proof.genuine && p.proof.jti != ""
    && p.proof.htm == p.htm && p.proof.htu == p.htu
    && (p.expectedAth.Some? ==> p.proof.ath == p.expectedAth)
  }

  // Only a proof that passes every other check is recorded.
  function Verify(l: Limits, jtis: Jtis, p: Presentation): (bool, Jtis) {
    if !Matches(p) || !Fresh(l, p) then (false, jtis)
    else RecordJti(jtis, p.proof.jti, l.ttlMs, p.recordedAt)
  }

  // A genuine proof of this method, this address and this access token, issued no more
  // than the tolerance before or after the check, in whole seconds.
  predicate Fits(l: Limits, p: Presentation) {
    && p.proof.genuine && p.proof.jti != ""
    && p.proof.htm == p.htm && p.proof.htu == p.htu
    && (p.expectedAth.Some? ==> p.proof.ath.Some? && p.proof.ath.value == p.expectedAth.value)
    && 1000 * (p.proof.iat - l.toleranceSec) <= p.checkedAt < 1000 * (p.proof.iat + l.toleranceSec + 1)
  }

  // It is accepted exactly when it fits and its identifier is not on record, and then
  // it is on record for its time to live.
  lemma AcceptedIff(l: Limits, jtis: Jtis, p: Presentation)
    ensures var (accepted, held) := Verify(l, jtis, p);
            && (accepted <==> Fits(l, p) && !(p.proof.jti in jtis && p.recordedAt < jtis[p.proof.jti]))
            && (accepted ==> p.proof.jti in held && held[p.proof.jti] == p.recordedAt + l.ttlMs)
            && (!Fits(l, p) ==> held == jtis)
            && (Fits(l, p) ==> forall k | k != p.proof.jti :: k in held <==> k in jtis && p.recordedAt < jtis[k])
            && (forall k | k in held && k != p.proof.jti :: held[k] == jtis[k])
  {
    assert Fresh(l, p) <==> 1000 * (p.proof.iat - l.toleranceSec) <= p.checkedAt < 1000 * (p.proof.iat + l.toleranceSec + 1);
  }

  method VerifyDpopProof(store: MemoryTokenStore, l: Limits, p: Presentation) returns (accepted: bool)
    modifies store`dpopJtis
    ensures (accepted, store.dpopJtis) == Verify(l, old(store.dpopJtis), p)
    ensures var jti, jtis := p.proof.jti, old(store.dpopJtis);
            && (accepted <==> Fits(l, p) && !(jti in jtis && p.recordedAt < jtis[jti]))
            && (accepted ==> jti in store.dpopJtis && store.dpopJtis[jti] == p.recordedAt + l.ttlMs)
            && (!Fits(l, p) ==> store.dpopJtis == jtis)
  {
    AcceptedIff(l, store.dpopJtis, p);
    if !p.proof.genuine || p.proof.jti == "" {
      return false;
    }
    if p.proof.htm != p.htm || p.proof.htu != p.htu {
      return false;
    }
    var skew := Abs(Seconds(p.checkedAt) - p.proof.iat);
    if skew > l.toleranceSec {
      return false;
    }
    if p.expectedAth.Some? {
      if p.proof.ath.None? || p.proof.ath.value != p.expectedAth.value {
        return false;
      }
    }
    accepted := store.RecordDpopJti(p.proof.jti, l.ttlMs, p.recordedAt);
  }

  // ---------- Histories, in the order of the records ----------

  function After(l: Limits, jtis: Jtis, ps: seq<Presentation>): Jtis
    decreases |ps|
  {
    if ps == [] then jtis else Verify(l, After(l, jtis, ps[..|ps| - 1]), ps[|ps| - 1]).1
  }

  // The `i`-th presentation is accepted, after all those before it.
  predicate Accepted(l: Limits, ps: seq<Presentation>, i: nat)
    requires i < |ps|
  {
    Verify(l, After(l, map[], ps[..i]), ps[i]).0
  }

  ghost predicate Monotone(ps: seq<Presentation>) {
    forall i, j | 0 <= i <= j < |ps| :: ps[i].recordedAt <= ps[j].recordedAt
  }

  // A clock that does not go back, and at most `lag` milliseconds between the two
  // readings of one request.
  ghost predicate Timely(ps: seq<Presentation>, lag: nat) {
    Monotone(ps) && forall i | 0 <= i < |ps| :: ps[i].checkedAt <= ps[i].recordedAt <= ps[i].checkedAt + lag
  }

  predicate Holds(jtis: Jtis, jti: string, expiry: int) {
    jti in jtis && jtis[jti] >= expiry
  }

  lemma {:induction false} HeldUntilExpiry(l: Limits, ps: seq<Presentation>, i: nat, j: nat)
    requires Monotone(ps) && i < j <= |ps| && Accepted(l, ps, i)
    requires forall k | i < k < j :: ps[k].recordedAt < ps[i].recordedAt + l.ttlMs
    ensures Holds(After(l, map[], ps[..j]), ps[i].proof.jti, ps[i].recordedAt + l.ttlMs)
    decreases j
  {
    assert ps[..j][..j - 1] == ps[..j - 1];
    if j > i + 1 {
      HeldUntilExpiry(l, ps, i, j - 1);
    }
  }

  // Two acceptances of one identifier are recorded at least its time to live apart.
  lemma AcceptancesAreApart(l: Limits, ps: seq<Presentation>, i: nat, j: nat)
    requires Monotone(ps) && i < j < |ps|
    requires Accepted(l, ps, i) && Accepted(l, ps, j) && ps[i].proof.jti == ps[j].proof.jti
    ensures ps[j].recordedAt >= ps[i].recordedAt + l.ttlMs
  {
    if ps[j].recordedAt < ps[i].recordedAt + l.ttlMs {
      forall k | i < k < j
        ensures ps[k].recordedAt < ps[i].recordedAt + l.ttlMs
      {
        assert ps[k].recordedAt <= ps[j].recordedAt;
      }
      HeldUntilExpiry(l, ps, i, j);
      assert false;
    }
  }

  // ---------- How often one proof is accepted ----------

  // Presentations of one proof, in order, all of them accepted.
  ghost predicate Acceptances(l: Limits, ps: seq<Presentation>, at: seq<nat>) {
    && (forall k | 0 <= k < |at| :: at[k] < |ps|)
    && (forall k | 0 <= k < |at| :: Accepted(l, ps, at[k]) && ps[at[k]].proof == ps[at[0]].proof)
    && (forall j, k | 0 <= j < k < |at| :: at[j] < at[k])
  }

  ghost predicate AtMost(l: Limits, ps: seq<Presentation>, n: nat) {
    forall at | Acceptances(l, ps, at) :: |at| <= n
  }

  lemma {:induction false} Spread(l: Limits, ps: seq<Presentation>, at: seq<nat>)
    requires Monotone(ps) && Acceptances(l, ps, at) && at != []
    ensures ps[at[|at| - 1]].recordedAt >= ps[at[0]].recordedAt + (|at| - 1) * l.ttlMs
  {
    var n := |at|;
    if n > 1 {
      var front := at[..n - 1];
      Spread(l, ps, front);
      AcceptancesAreApart(l, ps, at[n - 2], at[n - 1]);
      assert (n - 1) * l.ttlMs == (n - 2) * l.ttlMs + l.ttlMs;
    }
  }

  function Window(l: Limits): int {
    (2 * l.toleranceSec + 1) * 1000
  }

  lemma FreshBounds(l: Limits, p: Presentation)
    requires Fresh(l, p)
    ensures (p.proof.iat - l.toleranceSec) * 1000 <= p.checkedAt
            < (p.proof.iat - l.toleranceSec) * 1000 + Window(l)
  {
  }

  lemma InWindow(tolerance: nat, ms: nat)
    requires ms < (2 * tolerance + 1) * 1000
    ensures Seconds(ms) <= 2 * tolerance
  {
  }

  lemma TooManyDoNotFit(l: Limits, ps: seq<Presentation>, lag: nat, at: seq<nat>, n: nat)
    requires Timely(ps, lag) && Acceptances(l, ps, at) && |at| == n + 1 && n >= 1
    ensures n * l.ttlMs < Window(l) + lag
  {
    Spread(l, ps, at);
    FreshBounds(l, ps[at[0]]);
    FreshBounds(l, ps[at[n]]);
  }

  // The `k`-th presentation of a proof that is presented again whenever its record
  // has just expired, and is checked as early as the lag requires.
  function Again(l: Limits, k: nat): Presentation {
    var at := k * (if l.ttlMs > 0 then l.ttlMs else 0);
    Presentation(Proof(true, "POST", "", l.toleranceSec, "j", None), "POST", "", None,
                 if at < Window(l) then at else Window(l) - 1, at)
  }

  function Repeated(l: Limits, n: nat): seq<Presentation> {
    seq(n, k requires 0 <= k < n => Again(l, k))
  }

  lemma AgainIsTimely(l: Limits, lag: nat, n: nat, k: nat)
    requires n * l.ttlMs < Window(l) + lag && k <= n
    ensures var p := Again(l, k);
            p.checkedAt <= p.recordedAt <= p.checkedAt + lag && Matches(p) && Fresh(l, p)
  {
    if l.ttlMs > 0 {
      assert k * l.ttlMs <= n * l.ttlMs by { Scaled(k, n, l.ttlMs); }
    }
    InWindow(l.toleranceSec, Again(l, k).checkedAt);
  }

  lemma Scaled(a: nat, b: nat, x: nat)
    requires a <= b
    ensures a * x <= b * x
  {
  }

  lemma RecordsAgain(expiry: int, ttl: int, now: int)
    requires expiry <= now
    ensures RecordJti(map["j" := expiry], "j", ttl, now) == (true, map["j" := now + ttl])
    ensures RecordJti(map[], "j", ttl, now) == (true, map["j" := now + ttl])
  {
    assert Swept(map["j" := expiry], now) == map[];
  }

  lemma NextComesLate(l: Limits, k: nat)
    requires k > 0
    ensures Again(l, k - 1).recordedAt + l.ttlMs <= Again(l, k).recordedAt
  {
    var d := if l.ttlMs > 0 then l.ttlMs else 0;
    assert k * d == (k - 1) * d + d;
  }

  lemma {:induction false} AgainIsAccepted(l: Limits, lag: nat, n: nat, k: nat)
    requires n * l.ttlMs < Window(l) + lag && k <= n
    ensures Accepted(l, Repeated(l, n + 1), k)
    ensures After(l, map[], Repeated(l, n + 1)[..k + 1]) == map["j" := Again(l, k).recordedAt + l.ttlMs]
    decreases k
  {
    var ps, p := Repeated(l, n + 1), Again(l, k);
    assert Matches(p) && Fresh(l, p) by { AgainIsTimely(l, lag, n, k); }
    assert ps[k] == p && ps[..k + 1][..k] == ps[..k];
    if k == 0 {
      assert ps[..0] == [];
      RecordsAgain(p.recordedAt, l.ttlMs, p.recordedAt);
    } else {
      AgainIsAccepted(l, lag, n, k - 1);
      NextComesLate(l, k);
      RecordsAgain(Again(l, k - 1).recordedAt + l.ttlMs, l.ttlMs, p.recordedAt);
    }
  }

  lemma RepeatedIsTimely(l: Limits, lag: nat, n: nat)
    requires n * l.ttlMs < Window(l) + lag
    ensures Timely(Repeated(l, n + 1), lag)
  {
    var ps, d := Repeated(l, n + 1), if l.ttlMs > 0 then l.ttlMs else 0;
    forall i, j | 0 <= i <= j < |ps|
      ensures ps[i].recordedAt <= ps[j].recordedAt
    {
      Scaled(i, j, d);
    }
    forall i | 0 <= i < |ps|
      ensures ps[i].checkedAt <= ps[i].recordedAt <= ps[i].checkedAt + lag
    {
      AgainIsTimely(l, lag, n, i);
    }
  }

  // Over every history with this lag a proof is accepted at most `n` times exactly
  // when `n` times to live cover the window, in whole seconds with both ends
  // included, and the lag.
  lemma AtMostIff(l: Limits, lag: nat, n: nat)
    requires n >= 1
    ensures (forall ps | Timely(ps, lag) :: AtMost(l, ps, n)) <==> n * l.ttlMs >= Window(l) + lag
  {
    if n * l.ttlMs >= Window(l) + lag {
      forall ps, at | Timely(ps, lag) && Acceptances(l, ps, at)
        ensures |at| <= n
      {
        if |at| > n {
          TooManyDoNotFit(l, ps, lag, at[..n + 1], n);
          assert false;
        }
      }
    } else {
      var ps, at := Repeated(l, n + 1), seq(n + 1, k requires 0 <= k < n + 1 => k);
      RepeatedIsTimely(l, lag, n);
      forall k | 0 <= k < |at|
        ensures at[k] < |ps| && Accepted(l, ps, at[k]) && ps[at[k]].proof == ps[at[0]].proof
      {
        AgainIsAccepted(l, lag, n, k);
      }
      assert Acceptances(l, ps, at) && |at| > n;
    }
  }

  ghost predicate SingleUse(l: Limits, ps: seq<Presentation>) {
    forall i, j | 0 <= i < j < |ps| && ps[i].proof == ps[j].proof :: !(Accepted(l, ps, i) && Accepted(l, ps, j))
  }

  lemma SingleIsAtMostOne(l: Limits, ps: seq<Presentation>)
    ensures SingleUse(l, ps) <==> AtMost(l, ps, 1)
  {
    if !SingleUse(l, ps) {
      var i: nat, j: nat :| i < j < |ps| && ps[i].proof == ps[j].proof && Accepted(l, ps, i) && Accepted(l, ps, j);
      assert Acceptances(l, ps, [i, j]);
    }
    if !AtMost(l, ps, 1) {
      var at :| Acceptances(l, ps, at) && |at| > 1;
      assert at[0] < at[1] && ps[at[0]].proof == ps[at[1]].proof;
    }
  }

  // It is accepted at most once exactly when its record outlives window and lag.
  lemma SingleUseIff(l: Limits, lag: nat)
    ensures (forall ps | Timely(ps, lag) :: SingleUse(l, ps)) <==> l.ttlMs >= Window(l) + lag
  {
    AtMostIff(l, lag, 1);
    forall ps
      ensures SingleUse(l, ps) <==> AtMost(l, ps, 1)
    {
      SingleIsAtMostOne(l, ps);
    }
  }

  // With the defaults, a second acceptance: the first is checked in the first second
  // of the window and the second in its last, give or take the lag.
  lemma DefaultsAllowTwo(ps: seq<Presentation>, lag: nat, i: nat, j: nat)
    requires Timely(ps, lag) && i < j < |ps| && ps[i].proof == ps[j].proof
    requires Accepted(DEFAULTS, ps, i) && Accepted(DEFAULTS, ps, j)
    ensures var first, last := ps[i].proof.iat - DEFAULT_IAT_TOLERANCE_SEC, ps[i].proof.iat + DEFAULT_IAT_TOLERANCE_SEC;
            first * 1000 <= ps[i].checkedAt < (first + 1) * 1000 + lag
            && last * 1000 - lag <= ps[j].checkedAt < (last + 1) * 1000
  {
    AcceptancesAreApart(DEFAULTS, ps, i, j);
    FreshBounds(DEFAULTS, ps[i]);
    FreshBounds(DEFAULTS, ps[j]);
  }

  // And no third, as long as the two readings are less than two windows less a second apart.
  lemma DefaultsAllowNoThirdIff(lag: nat)
    ensures !(forall ps | Timely(ps, lag) :: AtMost(DEFAULTS, ps, 1))
    ensures (forall ps | Timely(ps, lag) :: AtMost(DEFAULTS, ps, 2)) <==> lag <= 119000
  {
    AtMostIff(DEFAULTS, lag, 1);
    AtMostIff(DEFAULTS, lag, 2);
  }

  // ---------- Sweeping ----------

  // The same store if it never threw an expired record away.
  function RecordUnswept(jtis: Jtis, jti: string, ttl: int, now: int): (bool, Jtis) {
    if jti in jtis && jtis[jti] > now then (false, jtis) else (true, jtis[jti := now + ttl])
  }

  datatype Recording = Recording(jti: string, ttl: int, now: int)

  function Answers(jtis: Jtis, rs: seq<Recording>): seq<bool>
    decreases |rs|
  {
    if rs == [] then []
    else var (a, jtis') := RecordJti(jtis, rs[0].jti, rs[0].ttl, rs[0].now); [a] + Answers(jtis', rs[1..])
  }

  function UnsweptAnswers(jtis: Jtis, rs: seq<Recording>): seq<bool>
    decreases |rs|
  {
    if rs == [] then []
    else var (a, jtis') := RecordUnswept(jtis, rs[0].jti, rs[0].ttl, rs[0].now); [a] + UnsweptAnswers(jtis', rs[1..])
  }

  ghost predicate Ordered(now: int, rs: seq<Recording>) {
    && (forall i | 0 <= i < |rs| :: now <= rs[i].now)
    && (forall i, j | 0 <= i <= j < |rs| :: rs[i].now <= rs[j].now)
  }

  lemma SweptLater(a: Jtis, b: Jtis, now: int, later: int)
    requires Swept(a, now) == Swept(b, now) && now <= later
    ensures Swept(a, later) == Swept(b, later)
  {
    forall k
      ensures k in Swept(a, later) <==> k in Swept(b, later)
      ensures k in Swept(a, later) ==> Swept(a, later)[k] == Swept(b, later)[k]
    {
      assert k in Swept(a, later) ==> k in Swept(a, now) && Swept(a, now)[k] == a[k];
      assert k in Swept(b, later) ==> k in Swept(b, now) && Swept(b, now)[k] == b[k];
    }
  }

  // Sweeping expired records never changes an answer, while the clock does not go back.
  lemma {:induction false} SweepingIsInvisible(a: Jtis, b: Jtis, now: int, rs: seq<Recording>)
    requires Swept(a, now) == Swept(b, now) && Ordered(now, rs)
    ensures Answers(a, rs) == UnsweptAnswers(b, rs)
    decreases |rs|
  {
    if rs != [] {
      var r := rs[0];
      SweptLater(a, b, now, r.now);
      assert r.jti in Swept(a, r.now) <==> r.jti in b && b[r.jti] > r.now;
      var a', b' := RecordJti(a, r.jti, r.ttl, r.now).1, RecordUnswept(b, r.jti, r.ttl, r.now).1;
      assert Swept(a', r.now) == Swept(b', r.now);
      SweepingIsInvisible(a', b', r.now, rs[1..]);
    }
  }

  // With a clock that goes back it can: the record of a proof still in its window is gone.
  lemma SweepingShowsWhenClocksGoBack()
    ensures var rs := [Recording("j", 10, 0), Recording("k", 10, 20), Recording("j", 10, 5)];
            Answers(map[], rs) == [true, true, true] && UnsweptAnswers(map[], rs) == [true, true, false]
  {
    var r, s, t := Recording("j", 10, 0), Recording("k", 10, 20), Recording("j", 10, 5);
    var rs := [r, s, t];
    assert rs[1..] == [s, t] && [s, t][1..] == [t] && [t][1..] == [];
    assert "j"[0] != "k"[0];
    var m1: Jtis := map["j" := 10];
    var m2: Jtis := map["k" := 30];
    var u2: Jtis := map["j" := 10, "k" := 30];
    assert RecordJti(map[], "j", 10, 0) == (true, m1) && RecordUnswept(map[], "j", 10, 0) == (true, m1);
    assert RecordJti(m1, "k", 10, 20) == (true, m2) && RecordUnswept(m1, "k", 10, 20) == (true, u2);
    assert RecordJti(m2, "j", 10, 5).0 && !RecordUnswept(u2, "j", 10, 5).0;
    assert Answers(m2, [t]) == [true] + [] && UnsweptAnswers(u2, [t]) == [false] + [];
    assert Answers(m1, [s, t]) == [true] + [true] && UnsweptAnswers(m1, [s, t]) == [true] + [false];
  }
}
