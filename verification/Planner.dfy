/** Source ranking (planner.rs and platform.rs), with scores over the reals. */
module Planner {
  import opened Common

  datatype Class = LocalFile | LanPeer | Iroh | BittorrentV2 | HttpsMirror | Huggingface

  datatype Preference = Auto | PreferP2p | PreferBittorrent | SaveData

  datatype Health = Health(
    successCount: nat, failureCount: nat, integrityFailures: nat, lastLatencyMs: Option<int>, banActive: bool)

  /** What the score depends on besides the source: the profile, the preference and the value of
      the peer bonus for Iroh sources (a capped logarithm of the peer count). */
  datatype Setting = Setting(preference: Preference, metered: bool, batterySaver: bool, peerBonus: real)
  {
    predicate Valid() { 0.0 <= peerBonus <= 15.0 }
  }

  const TIER_OFFSET: real := 200.0

  function ClassPriority(c: Class): real {
    match c
    case LocalFile => 120.0
    case LanPeer => 100.0
    case Iroh => 90.0
    case BittorrentV2 => 80.0
    case HttpsMirror => 55.0
    case Huggingface => 45.0
  }

  function PreferenceTier(p: Preference, c: Class): int {
    match p
    case Auto => 0
    case PreferP2p => if c.Iroh? || c.BittorrentV2? then 1 else if c.Huggingface? || c.HttpsMirror? then -1 else 0
    case PreferBittorrent =>
      if c.BittorrentV2? then 2 else if c.Iroh? then 1 else if c.Huggingface? || c.HttpsMirror? then -1 else 0
    case SaveData => if c.HttpsMirror? || c.Huggingface? then 1 else if c.Iroh? || c.BittorrentV2? then -1 else 0
  }

  function SuccessRatio(h: Health): real {
    var total := h.successCount + h.failureCount;
    if total > 0 then h.successCount as real / total as real else 0.5
  }

  function LatencyScore(h: Health): real {
    if h.lastLatencyMs.None? then 0.0
    else (1.0 - Max(0, Min(h.lastLatencyMs.value, 2000)) as real / 2000.0) * 10.0
  }

  /** `score_source`, accumulated in the order of the source. */
  method ScoreSource(c: Class, h: Health, s: Setting) returns (score: real)
    ensures score == Score(c, h, s)
  {
    score := PreferenceTier(s.preference, c) as real * TIER_OFFSET;
    score := score + ClassPriority(c);
    score := score + SuccessRatio(h) * 30.0;
    score := score - h.integrityFailures as real * 50.0;
    if h.lastLatencyMs.Some? {
      score := score + LatencyScore(h);
    }
    if c == Iroh {
      score := score + 5.0;
    }
    if (s.metered || s.batterySaver) && c == Iroh {
      score := score - 25.0;
    }
    if c == Iroh {
      score := score + s.peerBonus;
    }
  }

  function Score(c: Class, h: Health, s: Setting): real {
    PreferenceTier(s.preference, c) as real * TIER_OFFSET + ClassPriority(c)
    + SuccessRatio(h) * 30.0 - h.integrityFailures as real * 50.0 + LatencyScore(h)
    + (if c.Iroh? then 5.0 + s.peerBonus - (if s.metered || s.batterySaver then 25.0 else 0.0) else 0.0)
  }

  lemma RatioBounds(h: Health)
    ensures 0.0 <= SuccessRatio(h) <= 1.0 && 0.0 <= LatencyScore(h) <= 10.0
  {
    var total := h.successCount + h.failureCount;
    if total > 0 {
      var a, b := h.successCount as real, total as real;
      assert 0.0 <= a <= b && b > 0.0;
      DivBounds(a, b);
    }
    if h.lastLatencyMs.Some? {
      var ms := Max(0, Min(h.lastLatencyMs.value, 2000));
      assert 0.0 <= ms as real <= 2000.0;
    }
  }

  lemma DivBounds(a: real, b: real)
    requires 0.0 <= a <= b && b > 0.0
    ensures 0.0 <= a / b <= 1.0
  {
    assert b * (a / b) == a;
  }

  // ----- What the terms mean -----

  lemma MulLe(a: real, b: real, c: real)
    requires a <= b && 0.0 <= c
    ensures a * c <= b * c
  {
  }

  lemma LeFromScaled(p: real, q: real, k: real)
    requires k > 0.0 && p * k <= q * k
    ensures p <= q
  {
  }

  lemma FractionLe(a: real, b: real, c: real, d: real)
    requires b > 0.0 && d > 0.0 && a * d <= c * b
    ensures a / b <= c / d
  {
    var p, q := a / b, c / d;
    assert p * b == a && q * d == c;
    assert p * (b * d) == (p * b) * d;
    assert q * (b * d) == (q * d) * b;
    LeFromScaled(p, q, b * d);
  }

  lemma RatioGrows(a: nat, f: nat, more: nat, fewer: nat)
    requires a <= more && fewer <= f && a + f > 0 && more + fewer > 0
    ensures a as real / (a + f) as real <= more as real / (more + fewer) as real
  {
    var x, y, u, v := a as real, f as real, more as real, fewer as real;
    MulLe(x, u, v);
    MulLe(v, y, u);
    assert x * (u + v) == x * u + x * v;
    assert u * (x + y) == u * x + u * y;
    FractionLe(x, x + y, u, u + v);
  }

  lemma RatioNeverLowers(h: Health, better: Health)
    requires better.successCount >= h.successCount && better.failureCount <= h.failureCount
    ensures SuccessRatio(better) >= SuccessRatio(h)
  {
    if h.successCount + h.failureCount > 0 && better.successCount + better.failureCount > 0 {
      RatioGrows(h.successCount, h.failureCount, better.successCount, better.failureCount);
    } else if better.successCount > 0 {
      HalfAndWhole(better.successCount as real);
      assert better.failureCount == 0;
    } else if h.failureCount > 0 {
      NoneOf(h.failureCount as real);
      assert h.successCount == 0;
    }
  }

  lemma NoneOf(x: real)
    requires x > 0.0
    ensures 0.0 / x == 0.0
  {
  }

  /** More successes, fewer failures, fewer integrity failures and a lower latency never lower a
      score; a latency that is known never counts less than one that is not. */
  lemma BetterHealthNeverLowers(c: Class, h: Health, better: Health, s: Setting)
    requires better.successCount >= h.successCount && better.failureCount <= h.failureCount
    requires better.integrityFailures <= h.integrityFailures
    requires h.lastLatencyMs.Some? ==>
      better.lastLatencyMs.Some? && better.lastLatencyMs.value <= h.lastLatencyMs.value
    ensures Score(c, better, s) >= Score(c, h, s)
  {
    RatioBounds(h);
    RatioBounds(better);
    RatioNeverLowers(h, better);
    if h.lastLatencyMs.Some? {
      var slow, fast := Max(0, Min(h.lastLatencyMs.value, 2000)), Max(0, Min(better.lastLatencyMs.value, 2000));
      assert fast <= slow;
    }
    assert better.integrityFailures as real <= h.integrityFailures as real;
  }

  lemma HalfAndWhole(x: real)
    requires x > 0.0
    ensures x / x == 1.0 && x / (x + x) == 0.5
  {
    assert x / (x + x) * (x + x) == x;
  }

  /** What each signal is worth: 30 between a perfect and a hopeless record with an unknown one in
      the middle, 50 for each integrity failure, and a 200th per millisecond up to two seconds. */
  lemma SignalWeights(c: Class, n: nat, bad: nat, ms: nat, ban: bool, s: Setting)
    requires n > 0 && ms <= 2000
    ensures var unknown := Score(c, Health(0, 0, 0, None, false), s);
      Score(c, Health(n, 0, bad, None, ban), s) == unknown + 15.0 - bad as real * 50.0
      && Score(c, Health(0, n, bad, None, ban), s) == unknown - 15.0 - bad as real * 50.0
      && Score(c, Health(n, n, bad, None, ban), s) == unknown - bad as real * 50.0
      && Score(c, Health(0, 0, bad, Some(ms), ban), s) == unknown - bad as real * 50.0 + (2000 - ms) as real / 200.0
  {
    HalfAndWhole(n as real);
    assert (n + n) as real == n as real + n as real;
    assert SuccessRatio(Health(n, n, bad, None, ban)) == 0.5 && SuccessRatio(Health(n, 0, bad, None, ban)) == 1.0;
  }

  /** How far the classes are apart at equal health and without a preference. */
  lemma ClassGaps(h: Health, s: Setting)
    requires s.preference == Auto
    ensures Score(LocalFile, h, s) == Score(LanPeer, h, s) + 20.0
    ensures Score(LanPeer, h, s) == Score(BittorrentV2, h, s) + 20.0
    ensures Score(BittorrentV2, h, s) == Score(HttpsMirror, h, s) + 25.0
    ensures Score(HttpsMirror, h, s) == Score(Huggingface, h, s) + 10.0
    ensures Score(Iroh, h, s) ==
      Score(BittorrentV2, h, s) + 15.0 + s.peerBonus - (if s.metered || s.batterySaver then 25.0 else 0.0)
  {
  }

  predicate IsSwarm(c: Class) { c == Iroh || c == BittorrentV2 }

  predicate IsMirror(c: Class) { c == HttpsMirror || c == Huggingface }

  /** What a preference promises: with at most one integrity failure, a source of the preferred
      kind comes before every other source, and one of the disfavoured kind behind. */
  lemma PreferencesRank(x: Class, hx: Health, y: Class, hy: Health, s: Setting)
    requires s.Valid() && hx.integrityFailures <= 1
    ensures s.preference == PreferP2p && IsSwarm(x) && !IsSwarm(y) ==> Score(x, hx, s) > Score(y, hy, s)
    ensures s.preference == PreferP2p && !IsMirror(x) && IsMirror(y) ==> Score(x, hx, s) > Score(y, hy, s)
    ensures s.preference == PreferBittorrent && x == BittorrentV2 && y != BittorrentV2 ==>
      Score(x, hx, s) > Score(y, hy, s)
    ensures s.preference == PreferBittorrent && x == Iroh && !IsSwarm(y) ==> Score(x, hx, s) > Score(y, hy, s)
    ensures s.preference == PreferBittorrent && !IsMirror(x) && IsMirror(y) ==> Score(x, hx, s) > Score(y, hy, s)
    ensures s.preference == SaveData && IsMirror(x) && !IsMirror(y) ==> Score(x, hx, s) > Score(y, hy, s)
    ensures s.preference == SaveData && !IsSwarm(x) && IsSwarm(y) ==> Score(x, hx, s) > Score(y, hy, s)
  {
    OneFailureIsNotEnough(x, hx, y, hy, s);
  }

  // ----- Tiers decide -----

  /** Between any two sources, the higher tier has the higher score. */
  predicate TierDecides(x: Class, hx: Health, y: Class, hy: Health, s: Setting) {
    PreferenceTier(s.preference, x) > PreferenceTier(s.preference, y) ==> Score(x, hx, s) > Score(y, hy, s)
  }

  lemma OneFailureIsNotEnough(x: Class, hx: Health, y: Class, hy: Health, s: Setting)
    requires s.Valid() && hx.integrityFailures <= 1
    ensures TierDecides(x, hx, y, hy, s)
  {
    RatioBounds(hx);
    RatioBounds(hy);
    if PreferenceTier(s.preference, x) > PreferenceTier(s.preference, y) {
      TierGap(x, y, s);
      assert hx.integrityFailures as real <= 1.0;
    }
  }

  /** Class priorities and the Iroh terms together stay within the tier offset, with room for one
      integrity failure and all health signals. */
  lemma TierGap(x: Class, y: Class, s: Setting)
    requires s.Valid() && PreferenceTier(s.preference, x) > PreferenceTier(s.preference, y)
    ensures Fixed(x, s) > Fixed(y, s) + 90.0
  {
  }

  /** The part of a score that does not depend on health. */
  function Fixed(c: Class, s: Setting): real {
    PreferenceTier(s.preference, c) as real * TIER_OFFSET + ClassPriority(c)
    + (if c.Iroh? then 5.0 + s.peerBonus - (if s.metered || s.batterySaver then 25.0 else 0.0) else 0.0)
  }

  /**
   A source of a higher preference tier outranks every source of a lower one, whatever their
   health, exactly as long as it has at most one integrity failure.
   */
  lemma TiersDecideIff(failures: nat)
    ensures (forall x, hx: Health, y, hy: Health, s: Setting ::
        s.Valid() && hx.integrityFailures == failures ==> TierDecides(x, hx, y, hy, s))
      <==> failures <= 1
  {
    if failures <= 1 {
      forall x, hx: Health, y, hy: Health, s: Setting | s.Valid() && hx.integrityFailures == failures
        ensures TierDecides(x, hx, y, hy, s)
      {
        OneFailureIsNotEnough(x, hx, y, hy, s);
      }
    } else {
      var s := Setting(SaveData, false, false, 0.0);
      var hx := Health(0, failures, failures, None, false);
      var hy := Health(1, 0, 0, Some(0), false);
      assert failures as real >= 2.0;
      assert SuccessRatio(hx) == 0.0 && SuccessRatio(hy) == 1.0 && LatencyScore(hy) == 10.0;
      assert !TierDecides(Huggingface, hx, LocalFile, hy, s);
    }
  }

  // ----- The plan -----

  datatype Source = Source(id: nat, kind: Class, allowed: bool, health: Health)

  datatype Plan = Plan(eligible: seq<Source>, excluded: seq<Source>)

  function ScoreOf(x: Source, s: Setting): real { Score(x.kind, x.health, s) }

  predicate Descending(xs: seq<Source>, s: Setting) {
    forall i, j :: 0 <= i < j < |xs| ==> ScoreOf(xs[i], s) >= ScoreOf(xs[j], s)
  }

  /** The sources of one score, in order. */
  function WithScore(xs: seq<Source>, s: Setting, v: real): seq<Source> {
    if xs == [] then []
    else
      WithScore(xs[..|xs| - 1], s, v)
      + if ScoreOf(xs[|xs| - 1], s) == v then [xs[|xs| - 1]] else []
  }

  predicate Wanted(x: Source) { x.allowed && !x.health.banActive }

  function Select(xs: seq<Source>, want: bool): seq<Source> {
    if xs == [] then []
    else Select(xs[..|xs| - 1], want) + if Wanted(xs[|xs| - 1]) == want then [xs[|xs| - 1]] else []
  }

  lemma {:induction false} WithScoreConcat(a: seq<Source>, b: seq<Source>, s: Setting, v: real)
    ensures WithScore(a + b, s, v) == WithScore(a, s, v) + WithScore(b, s, v)
  {
    if b == [] {
      assert a + b == a;
    } else {
      var init := b[..|b| - 1];
      WithScoreConcat(a, init, s, v);
      assert (a + b)[..|a + b| - 1] == a + init;
    }
  }

  lemma {:induction false} WithScoreNone(b: seq<Source>, s: Setting, v: real)
    requires forall i :: 0 <= i < |b| ==> ScoreOf(b[i], s) != v
    ensures WithScore(b, s, v) == []
  {
    if b != [] {
      WithScoreNone(b[..|b| - 1], s, v);
    }
  }

  method PlaceFor(xs: seq<Source>, score: real, s: Setting) returns (k: nat)
    ensures k <= |xs| && (k > 0 ==> ScoreOf(xs[k - 1], s) >= score)
    ensures forall i :: k <= i < |xs| ==> ScoreOf(xs[i], s) < score
  {
    k := |xs|;
    while k > 0 && ScoreOf(xs[k - 1], s) < score
      invariant k <= |xs|
      invariant forall i :: k <= i < |xs| ==> ScoreOf(xs[i], s) < score
    {
      k := k - 1;
    }
  }

  /** Puts one source behind all that score at least as high. */
  method Insert(xs: seq<Source>, x: Source, s: Setting) returns (r: seq<Source>)
    requires Descending(xs, s)
    ensures Descending(r, s) && multiset(r) == multiset(xs) + multiset{x}
    ensures forall v :: WithScore(r, s, v) == WithScore(xs, s, v) + if ScoreOf(x, s) == v then [x] else []
  {
    var k := PlaceFor(xs, ScoreOf(x, s), s);
    r := xs[..k] + [x] + xs[k..];
    InsertDescends(xs, x, s, k);
    InsertFacts(xs, x, s, k);
  }

  lemma InsertFacts(xs: seq<Source>, x: Source, s: Setting, k: nat)
    requires k <= |xs| && forall i :: k <= i < |xs| ==> ScoreOf(xs[i], s) < ScoreOf(x, s)
    ensures multiset(xs[..k] + [x] + xs[k..]) == multiset(xs) + multiset{x}
    ensures forall v ::
      WithScore(xs[..k] + [x] + xs[k..], s, v) == WithScore(xs, s, v) + if ScoreOf(x, s) == v then [x] else []
  {
    var a, b := xs[..k], xs[k..];
    assert xs == a + b;
    forall v ensures WithScore(a + [x] + b, s, v) == WithScore(xs, s, v) + if ScoreOf(x, s) == v then [x] else [] {
      InsertStable(a, x, b, s, v);
    }
  }

  lemma InsertDescends(xs: seq<Source>, x: Source, s: Setting, k: nat)
    requires Descending(xs, s) && k <= |xs|
    requires forall i :: k <= i < |xs| ==> ScoreOf(xs[i], s) < ScoreOf(x, s)
    requires k > 0 ==> ScoreOf(xs[k - 1], s) >= ScoreOf(x, s)
    ensures Descending(xs[..k] + [x] + xs[k..], s)
  {
    var r := xs[..k] + [x] + xs[k..];
    assert r[k] == x && forall i :: 0 <= i < k ==> r[i] == xs[i] && ScoreOf(xs[i], s) >= ScoreOf(xs[k - 1], s);
    assert forall i :: k < i < |r| ==> r[i] == xs[i - 1];
  }

  lemma InsertStable(a: seq<Source>, x: Source, b: seq<Source>, s: Setting, v: real)
    requires forall i :: 0 <= i < |b| ==> ScoreOf(b[i], s) < ScoreOf(x, s)
    ensures WithScore(a + [x] + b, s, v) == WithScore(a + b, s, v) + if ScoreOf(x, s) == v then [x] else []
  {
    WithScoreConcat(a + [x], b, s, v);
    WithScoreConcat(a, [x], s, v);
    WithScoreConcat(a, b, s, v);
    assert [x][..0] == [];
    if ScoreOf(x, s) == v {
      WithScoreNone(b, s, v);
    }
  }

  /**
   `plan_artifact_with`: every source is either excluded (policy or active ban), in manifest
   order, or eligible, sorted by descending score with ties in manifest order; none is lost.
   */
  method PlanArtifact(sources: seq<Source>, s: Setting) returns (p: Plan)
    ensures p.excluded == Select(sources, false)
    ensures multiset(p.eligible) == multiset(Select(sources, true))
    ensures Descending(p.eligible, s)
    ensures forall v :: WithScore(p.eligible, s, v) == WithScore(Select(sources, true), s, v)
  {
    p := Plan([], []);
    for i := 0 to |sources|
      invariant p.excluded == Select(sources[..i], false)
      invariant multiset(p.eligible) == multiset(Select(sources[..i], true)) && Descending(p.eligible, s)
      invariant forall v :: WithScore(p.eligible, s, v) == WithScore(Select(sources[..i], true), s, v)
    {
      var x := sources[i];
      assert sources[..i + 1][..i] == sources[..i];
      if !x.allowed || x.health.banActive {
        assert Select(sources[..i + 1], true) == Select(sources[..i], true);
        p := p.(excluded := p.excluded + [x]);
      } else {
        var was := Select(sources[..i], true);
        assert Select(sources[..i + 1], true) == was + [x];
        var e := Insert(p.eligible, x, s);
        forall v ensures WithScore(e, s, v) == WithScore(was + [x], s, v) {
          WithScoreConcat(was, [x], s, v);
          assert [x][..0] == [];
        }
        p := p.(eligible := e);
      }
    }
    assert sources[..|sources|] == sources;
  }

  /** Selecting loses nothing and duplicates nothing. */
  lemma {:induction false} SelectSplits(xs: seq<Source>)
    ensures multiset(Select(xs, true)) + multiset(Select(xs, false)) == multiset(xs)
  {
    if xs != [] {
      var init, x := xs[..|xs| - 1], xs[|xs| - 1];
      SelectSplits(init);
      assert xs == init + [x];
      assert Select(xs, Wanted(x)) == Select(init, Wanted(x)) + [x];
      assert Select(xs, !Wanted(x)) == Select(init, !Wanted(x));
    }
  }

  /** A source is eligible exactly when the policy allows it and no ban is active. */
  lemma {:induction false} EligibleIff(xs: seq<Source>, x: Source)
    ensures x in Select(xs, true) <==> x in xs && x.allowed && !x.health.banActive
    ensures x in Select(xs, false) <==> x in xs && (!x.allowed || x.health.banActive)
  {
    if xs != [] {
      EligibleIff(xs[..|xs| - 1], x);
      assert xs == xs[..|xs| - 1] + [xs[|xs| - 1]];
    }
  }

  /** In a plan whose eligible sources have at most one integrity failure each, tiers never mix:
      preference outranks every health signal. */
  method PlanByTiers(sources: seq<Source>, s: Setting) returns (p: Plan)
    requires s.Valid() && forall i :: 0 <= i < |sources| ==> sources[i].health.integrityFailures <= 1
    ensures multiset(p.eligible) + multiset(p.excluded) == multiset(sources)
    ensures forall i, j :: 0 <= i < j < |p.eligible| ==>
      PreferenceTier(s.preference, p.eligible[i].kind) >= PreferenceTier(s.preference, p.eligible[j].kind)
  {
    p := PlanArtifact(sources, s);
    SelectSplits(sources);
    forall i, j | 0 <= i < j < |p.eligible|
      ensures PreferenceTier(s.preference, p.eligible[i].kind) >= PreferenceTier(s.preference, p.eligible[j].kind)
    {
      var x, y := p.eligible[i], p.eligible[j];
      assert y in multiset(p.eligible) && y in multiset(sources) && y in sources;
      OneFailureIsNotEnough(y.kind, y.health, x.kind, x.health, s);
    }
  }
}
