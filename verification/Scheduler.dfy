/** The capability-aware scheduler (internal/scheduler/scheduler.go): hard filter, soft score and
    the linear scan with an epsilon comparator. Scores are exact reals here. */
module Scheduler {
  import opened Text

  datatype Runner = Runner(runnerId: string, tenant: string, trustClass: string, lifecycle: string, os: seq<string>,
                           arch: seq<string>, cpuMilli: int, memoryMiB: int, toolchains: seq<string>, labels: seq<string>,
                           queueDepth: int, utilization: real, costUsdPerHr: real, region: string, successRate: real,
                           cacheHits: int)

  /** What the scheduler reads of a Work and of the node to place. `region` is the lower-cased
      WORKS_REGION of the one node that names one, or empty. */
  datatype Demand = Demand(os: string, arch: string, cpuMilli: int, memoryMiB: int, maxCostUsd: real, pool: string,
                           production: bool, trustClass: string, repository: string, region: string,
                           sideEffects: seq<string>, cache: bool)

  datatype Reject =
    | NoIdentity | LifecycleNotActive | OsMismatch | ArchMismatch | CpuInsufficient | MemoryInsufficient
    | NetworkBlocked | TrustInsufficient | TenantMismatch | PoolMismatch | ProductionRequiresPrivileged

  predicate EqualFold(a: string, b: string) { Lower(a) == Lower(b) }

  predicate ContainsFold(list: seq<string>, s: string) { exists x :: x in list && EqualFold(x, s) }

  predicate Contains(s: string, sub: string) { exists i :: 0 <= i <= |s| && HasPrefix(s[i..], sub) }

  predicate HasNetworkEgress(d: Demand) { "network_egress" in d.sideEffects || "external_api_call" in d.sideEffects }

  predicate RunnerHasNetwork(r: Runner) {
    ContainsFold(r.labels, "network:enabled") || ContainsFold(r.labels, "network:on")
    || exists t :: t in r.toolchains && Contains(Lower(t), "net")
  }

  function TrustRank(t: string): nat {
    var l := Lower(t);
    if l == "privileged" then 3 else if l == "standard" then 2 else if l == "untrusted" then 1 else 0
  }

  predicate TrustMeets(runnerTrust: string, workTrust: string) {
    workTrust == "" || TrustRank(runnerTrust) >= TrustRank(workTrust)
  }

  function TenantOf(d: Demand): string {
    if d.repository == "" then ""
    else
      var parts := Split(d.repository, '/');
      Lower(if |parts| >= 2 then parts[|parts| - 2] else parts[0])
  }

  /** The checks of `hardFilter`, one per rejection code. */
  function Fails(r: Runner, d: Demand): Reject -> bool {
    (code: Reject) => match code
      case NoIdentity => r.runnerId == ""
      case LifecycleNotActive => r.lifecycle != "active" && r.lifecycle != ""
      case OsMismatch => d.os != "" && !ContainsFold(r.os, d.os)
      case ArchMismatch => d.arch != "" && !ContainsFold(r.arch, d.arch)
      case CpuInsufficient => d.cpuMilli > 0 && r.cpuMilli < d.cpuMilli
      case MemoryInsufficient => d.memoryMiB > 0 && r.memoryMiB < d.memoryMiB
      case NetworkBlocked => HasNetworkEgress(d) && !RunnerHasNetwork(r)
      case TrustInsufficient => !TrustMeets(r.trustClass, d.trustClass)
      case TenantMismatch => TenantOf(d) != "" && r.tenant != "" && !EqualFold(r.tenant, TenantOf(d))
      case PoolMismatch => d.pool != "" && ("pool:" + d.pool) !in r.labels
      case ProductionRequiresPrivileged => d.production && r.trustClass != "privileged"
  }

  /** The first check that fails, in the order they are made. */
  function FirstFailing(fails: Reject -> bool): Option<Reject> {
    if fails(NoIdentity) then Some(NoIdentity)
    else if fails(LifecycleNotActive) then Some(LifecycleNotActive)
    else if fails(OsMismatch) then Some(OsMismatch)
    else if fails(ArchMismatch) then Some(ArchMismatch)
    else if fails(CpuInsufficient) then Some(CpuInsufficient)
    else if fails(MemoryInsufficient) then Some(MemoryInsufficient)
    else if fails(NetworkBlocked) then Some(NetworkBlocked)
    else if fails(TrustInsufficient) then Some(TrustInsufficient)
    else if fails(TenantMismatch) then Some(TenantMismatch)
    else if fails(PoolMismatch) then Some(PoolMismatch)
    else if fails(ProductionRequiresPrivileged) then Some(ProductionRequiresPrivileged)
    else None
  }

  /** `hardFilter`: None passes. */
  function HardFilter(r: Runner, d: Demand): Option<Reject> { FirstFailing(Fails(r, d)) }

  // ---------------------------------------------------------------- what the filter demands

  /** The law behind each rejection code, in direct terms. */
  ghost predicate Meets(r: Runner, d: Demand, code: Reject) {
    match code
    case NoIdentity => r.runnerId != ""
    case LifecycleNotActive => r.lifecycle in {"active", ""}
    case OsMismatch => d.os == "" || exists x :: x in r.os && Lower(x) == Lower(d.os)
    case ArchMismatch => d.arch == "" || exists x :: x in r.arch && Lower(x) == Lower(d.arch)
    case CpuInsufficient => d.cpuMilli <= 0 || d.cpuMilli <= r.cpuMilli
    case MemoryInsufficient => d.memoryMiB <= 0 || d.memoryMiB <= r.memoryMiB
    case NetworkBlocked => NeedsNetwork(d) ==> OffersNetwork(r)
    case TrustInsufficient => TrustFloor(Lower(r.trustClass), Lower(d.trustClass))
    case TenantMismatch => forall t :: Owner(d.repository, t) && r.tenant != "" ==> Lower(r.tenant) == Lower(t)
    case PoolMismatch => d.pool != "" ==> ("pool:" + d.pool) in r.labels
    case ProductionRequiresPrivileged => d.production ==> r.trustClass == "privileged"
  }

  ghost predicate NeedsNetwork(d: Demand) { exists s :: s in d.sideEffects && s in {"network_egress", "external_api_call"} }

  ghost predicate OffersNetwork(r: Runner) {
    || (exists l :: l in r.labels && Lower(l) == Lower("network:enabled"))
    || (exists l :: l in r.labels && Lower(l) == Lower("network:on"))
    || (exists t :: t in r.toolchains && Mentions(Lower(t), "net"))
  }

  ghost predicate Mentions(s: string, sub: string) { exists before, after :: s == before + sub + after }

  /** untrusted < standard < privileged; anything else asks for nothing and offers nothing. */
  predicate TrustFloor(offered: string, asked: string) {
    && (asked == "privileged" ==> offered == "privileged")
    && (asked == "standard" ==> offered in {"privileged", "standard"})
    && (asked == "untrusted" ==> offered in {"privileged", "standard", "untrusted"})
  }

  /** The owner a repository names: the segment before the last, or the only one. */
  ghost predicate Owner(repository: string, t: string) {
    && repository != "" && t != ""
    && var parts := Split(repository, '/'); t == if |parts| >= 2 then parts[|parts| - 2] else parts[0]
  }

  ghost function Law(r: Runner, d: Demand): Reject -> bool { (code: Reject) => Meets(r, d, code) }

  lemma SameLetters(s: string)
    ensures |Lower(s)| == |s| && Lower(Lower(s)) == Lower(s) && (Lower(s) == "" <==> s == "")
  {
  }

  lemma NetworkMeans(r: Runner)
    ensures RunnerHasNetwork(r) <==> OffersNetwork(r)
  {
    forall t | t in r.toolchains ensures Contains(Lower(t), "net") <==> Mentions(Lower(t), "net") { ContainsMeans(Lower(t), "net"); }
  }

  lemma ContainsMeans(s: string, sub: string)
    ensures Contains(s, sub) <==> Mentions(s, sub)
  {
    if i :| 0 <= i <= |s| && HasPrefix(s[i..], sub) {
      assert s == s[..i] + sub + s[i + |sub|..];
    }
    if before, after :| s == before + sub + after {
      assert s[|before|..] == sub + after;
    }
  }

  lemma TrustMeans(r: Runner, d: Demand)
    ensures TrustMeets(r.trustClass, d.trustClass) <==> TrustFloor(Lower(r.trustClass), Lower(d.trustClass))
  {
    SameLetters(d.trustClass);
  }

  lemma TenantMeans(r: Runner, d: Demand)
    ensures (TenantOf(d) != "" && r.tenant != "" && !EqualFold(r.tenant, TenantOf(d))) <==> !Meets(r, d, TenantMismatch)
  {
    if d.repository != "" {
      var parts := Split(d.repository, '/');
      var owner := if |parts| >= 2 then parts[|parts| - 2] else parts[0];
      SameLetters(owner);
      if owner != "" { assert Owner(d.repository, owner); }
    }
  }

  /** Each check fails exactly when its law is not met. */
  lemma FailsMeans(r: Runner, d: Demand, code: Reject)
    ensures Fails(r, d)(code) <==> !Meets(r, d, code)
  {
    match code
    case NetworkBlocked => NetworkMeans(r);
    case TrustInsufficient => TrustMeans(r, d);
    case TenantMismatch => TenantMeans(r, d);
    case _ =>
  }

  lemma FirstFailingRules(fails: Reject -> bool, holds: Reject -> bool)
    requires forall code :: fails(code) <==> !holds(code)
    ensures Ruled(CODES, holds, FirstFailing(fails))
  {
    match FirstFailing(fails)
    case None => RuledNone(CODES, holds);
    case Some(code) => RuledSome(CODES, holds, CodeIndex(code));
  }

  /** A runner passes exactly when it meets every law; otherwise the code given is that of the first
      law it does not meet. */
  lemma FilterMeans(r: Runner, d: Demand)
    ensures Ruled(CODES, Law(r, d), HardFilter(r, d))
  {
    forall code ensures Fails(r, d)(code) <==> !Law(r, d)(code) { FailsMeans(r, d, code); }
    FirstFailingRules(Fails(r, d), Law(r, d));
  }

  // ---------------------------------------------------------------- what the score prefers

  /** A shorter queue never scores lower, and strictly higher while it is not saturated. */
  lemma ShorterQueuePreferred(r: Runner, d: Demand, depth: int)
    requires depth < r.queueDepth
    ensures var q := r.(queueDepth := depth); SoftScore(q, d).Total() >= SoftScore(r, d).Total()
    ensures var q := r.(queueDepth := depth); 0 <= depth && r.queueDepth <= 10 ==> SoftScore(q, d).Total() > SoftScore(r, d).Total()
  {
    var q := r.(queueDepth := depth);
    assert CacheLocality(q, d) == CacheLocality(r, d) && CostScore(q, d) == CostScore(r, d);
    assert NetworkProximity(q, d) == NetworkProximity(r, d);
    assert QueuePressure(q) >= QueuePressure(r) && (0 <= depth && r.queueDepth <= 10 ==> QueuePressure(q) > QueuePressure(r));
  }

  /** Less load and a better record never score lower, and strictly higher within their range. */
  lemma IdleAndReliablePreferred(r: Runner, d: Demand, utilization: real, success: real)
    requires utilization <= r.utilization && success >= r.successRate
    ensures var q := r.(utilization := utilization, successRate := success);
      && SoftScore(q, d).Total() >= SoftScore(r, d).Total()
      && (0.0 <= utilization < r.utilization <= 1.0 || 0.0 <= r.successRate < success <= 1.0 ==>
            SoftScore(q, d).Total() > SoftScore(r, d).Total())
  {
    var q := r.(utilization := utilization, successRate := success);
    assert CacheLocality(q, d) == CacheLocality(r, d) && CostScore(q, d) == CostScore(r, d);
    assert NetworkProximity(q, d) == NetworkProximity(r, d) && QueuePressure(q) == QueuePressure(r);
  }

  /** A warmer cache never scores lower on a cacheable node, and plays no part on any other. */
  lemma WarmCachePreferred(r: Runner, d: Demand, hits: int)
    requires 0 <= r.cacheHits < hits
    ensures var q := r.(cacheHits := hits);
      && (!d.cache ==> SoftScore(q, d).Total() == SoftScore(r, d).Total())
      && (d.cache ==> SoftScore(q, d).Total() >= SoftScore(r, d).Total())
      && (d.cache && hits <= 5 ==> SoftScore(q, d).Total() > SoftScore(r, d).Total())
  {
    var q := r.(cacheHits := hits);
    assert QueuePressure(q) == QueuePressure(r) && CostScore(q, d) == CostScore(r, d);
    assert NetworkProximity(q, d) == NetworkProximity(r, d);
  }

  /** On a cacheable node a cold runner loses three tenths of the cache weight against not counting
      the cache at all, and a warm one gains at least a tenth. */
  lemma ColdCachePenalised(r: Runner, d: Demand)
    requires d.cache && r.cacheHits >= 0
    ensures var neutral := SoftScore(r, d.(cache := false)).Total();
      && (r.cacheHits == 0 ==> SoftScore(r, d).Total() == neutral - 0.06)
      && (r.cacheHits > 0 ==> SoftScore(r, d).Total() >= neutral + 0.02)
  {
    var e := d.(cache := false);
    assert CostScore(r, d) == CostScore(r, e) && NetworkProximity(r, d) == NetworkProximity(r, e);
    assert r.cacheHits > 0 ==> CacheLocality(r, d) >= 0.6;
  }

  /** The wanted region beats an unknown one, which beats a foreign one. */
  lemma NearbyPreferred(r: Runner, d: Demand, near: string, far: string)
    requires d.region != "" && near != "" && far != "" && Lower(near) == Lower(d.region) && Lower(far) != Lower(d.region)
    ensures SoftScore(r.(region := near), d).Total() > SoftScore(r.(region := ""), d).Total() > SoftScore(r.(region := far), d).Total()
  {
    var a, b, c := r.(region := near), r.(region := ""), r.(region := far);
    assert NetworkProximity(a, d) == 1.0 && NetworkProximity(b, d) == 0.5 && NetworkProximity(c, d) == 0.0;
    assert CacheLocality(a, d) == CacheLocality(b, d) == CacheLocality(c, d) && CostScore(a, d) == CostScore(b, d) == CostScore(c, d);
    assert QueuePressure(a) == QueuePressure(b) == QueuePressure(c);
  }

  // ---------------------------------------------------------------- soft score

  function Clamp01(x: real): real { if x < 0.0 then 0.0 else if x > 1.0 then 1.0 else x }

  function CacheLocality(r: Runner, d: Demand): real {
    if !d.cache then 0.5
    else if r.cacheHits == 0 then 0.2
    else Clamp01(0.5 + 0.1 * (if r.cacheHits < 5 then r.cacheHits else 5) as real)
  }

  function QueuePressure(r: Runner): real {
    if r.queueDepth <= 0 then 1.0 else if r.queueDepth >= 10 then 0.0 else 1.0 - r.queueDepth as real / 10.0
  }

  function CostCeiling(d: Demand): real { if d.maxCostUsd > 0.0 then d.maxCostUsd else 1.0 }

  function CostScore(r: Runner, d: Demand): real {
    if r.costUsdPerHr <= 0.0 then 0.7
    else if r.costUsdPerHr >= CostCeiling(d) then 0.5
    else Clamp01(1.0 - r.costUsdPerHr / CostCeiling(d))
  }

  function NetworkProximity(r: Runner, d: Demand): real {
    if d.region == "" then (if ContainsFold(r.labels, "network:low_latency") then 1.0 else 0.5)
    else if r.region == "" then 0.5
    else if EqualFold(r.region, d.region) then 1.0 else 0.0
  }

  datatype Components = Components(cacheLocality: real, expectedRuntime: real, queuePressure: real, utilization: real,
                                   cost: real, networkProximity: real, reliability: real)
  {
    function Total(): real {
      cacheLocality + expectedRuntime + queuePressure + utilization + cost + networkProximity + reliability
    }
  }

  function SoftScore(r: Runner, d: Demand): Components {
    Components(0.20 * CacheLocality(r, d), 0.05 * 0.5, 0.20 * QueuePressure(r), 0.15 * (1.0 - Clamp01(r.utilization)),
               0.15 * CostScore(r, d), 0.10 * NetworkProximity(r, d), 0.15 * Clamp01(r.successRate))
  }

  /** Every component lies in [0, weight] and the total in [0, 1]. */
  lemma ScoreBounds(r: Runner, d: Demand)
    ensures var c := SoftScore(r, d);
      && 0.0 <= c.cacheLocality <= 0.20 && 0.0 <= c.expectedRuntime <= 0.05 && 0.0 <= c.queuePressure <= 0.20
      && 0.0 <= c.utilization <= 0.15 && 0.0 <= c.cost <= 0.15 && 0.0 <= c.networkProximity <= 0.10
      && 0.0 <= c.reliability <= 0.15 && 0.0 <= c.Total() <= 1.0
  {
    SignalBounds(r, d);
  }

  lemma SignalBounds(r: Runner, d: Demand)
    ensures 0.0 <= CacheLocality(r, d) <= 1.0 && 0.0 <= QueuePressure(r) <= 1.0
    ensures 0.0 <= CostScore(r, d) <= 1.0 && 0.0 <= NetworkProximity(r, d) <= 1.0
  {
  }

  /** Cheaper never scores below dearer, except when the dearer runner is at or over the ceiling
      and the cheaper one sits above half of it: there the cheaper runner scores lower. */
  lemma CheaperScoresHigherIff(r: Runner, q: Runner, d: Demand)
    requires 0.0 < r.costUsdPerHr < q.costUsdPerHr
    ensures CostScore(r, d) >= CostScore(q, d) <==>
      q.costUsdPerHr < CostCeiling(d) || r.costUsdPerHr >= CostCeiling(d) || 2.0 * r.costUsdPerHr <= CostCeiling(d)
  {
    var ceiling := CostCeiling(d);
    Ratio(r.costUsdPerHr, ceiling);
    Ratio(q.costUsdPerHr, ceiling);
    RatioOrder(r.costUsdPerHr, q.costUsdPerHr, ceiling);
  }

  /** For every demand: a runner at three quarters of the ceiling scores below a dearer one at it. */
  lemma CheaperCanScoreLower(r: Runner, q: Runner, d: Demand)
    requires r.costUsdPerHr == 0.75 * CostCeiling(d) && q.costUsdPerHr == CostCeiling(d)
    ensures r.costUsdPerHr < q.costUsdPerHr && CostScore(r, d) < CostScore(q, d)
  {
    CheaperScoresHigherIff(r, q, d);
  }

  lemma MulOrder(a: real, b: real, y: real)
    requires y > 0.0
    ensures a < b <==> a * y < b * y
  {
    if a < b {
      assert (b - a) * y > 0.0;
    } else {
      assert (a - b) * y >= 0.0;
    }
  }

  lemma Ratio(x: real, y: real)
    requires y > 0.0 && x > 0.0
    ensures x / y > 0.0 && (x / y <= 0.5 <==> 2.0 * x <= y) && (x < y ==> x / y < 1.0)
  {
    var z := x / y;
    Quotient(z, x, y, 1.0);
    assert (z + z) * y == z * y + z * y;
    Quotient(z + z, x + x, y, 1.0);
  }

  lemma Quotient(z: real, x: real, y: real, one: real)
    requires y > 0.0 && x > 0.0 && z * y == x && one == 1.0
    ensures z > 0.0 && (one < z <==> y < x) && (z < one <==> x < y)
  {
    MulOrder(0.0, z, y);
    MulOrder(z, one, y);
    MulOrder(one, z, y);
  }

  lemma RatioOrder(a: real, b: real, y: real)
    requires y > 0.0 && a < b
    ensures a / y < b / y
  {
    assert (a / y) * y == a && (b / y) * y == b;
    MulOrder(a / y, b / y, y);
  }

  // ---------------------------------------------------------------- comparator

  datatype Eligible = Eligible(runner: Runner, components: Components, total: real, draining: bool)

  const EPS: real := 0.000000001

  function Abs(x: real): real { if x < 0.0 then -x else x }

  /** `runnerLess`: a is preferred over b. */
  predicate Better(a: Eligible, b: Eligible) {
    if Abs(a.total - b.total) > EPS then a.total > b.total
    else if a.runner.queueDepth != b.runner.queueDepth then a.runner.queueDepth < b.runner.queueDepth
    else if Abs(a.runner.successRate - b.runner.successRate) > EPS then a.runner.successRate > b.runner.successRate
    else Less(a.runner.runnerId, b.runner.runnerId)
  }

  /** Between runners with different ids exactly one is preferred. */
  lemma BetterTotal(a: Eligible, b: Eligible)
    requires a.runner.runnerId != b.runner.runnerId
    ensures Better(a, b) <==> !Better(b, a)
  {
    LessTotal(a.runner.runnerId, b.runner.runnerId);
    if Less(a.runner.runnerId, b.runner.runnerId) { LessAsymmetric(a.runner.runnerId, b.runner.runnerId); }
  }

  /** The scan of Pass 2, as a fold from the left. */
  function Best(list: seq<Eligible>): Eligible
    requires list != []
  {
    var last := list[|list| - 1];
    if |list| == 1 then last
    else
      var best := Best(list[..|list| - 1]);
      if Better(last, best) then last else best
  }

  lemma {:induction false} BestIsMember(list: seq<Eligible>)
    requires list != []
    ensures Best(list) in list
  {
    if |list| > 1 {
      BestIsMember(list[..|list| - 1]);
      assert list == list[..|list| - 1] + [list[|list| - 1]];
    }
  }

  /** The winner's total is within (n-1) epsilons of every eligible runner's, although the
      comparator is not transitive. */
  lemma {:induction false} WinnerNearMaximum(list: seq<Eligible>, i: nat)
    requires i < |list|
    ensures list[i].total <= Best(list).total + (|list| - 1) as real * EPS
  {
    if |list| > 1 {
      var init, last := list[..|list| - 1], list[|list| - 1];
      if i < |list| - 1 {
        WinnerNearMaximum(init, i);
        assert init[i] == list[i];
      }
      assert (|list| - 1) as real * EPS == (|init| - 1) as real * EPS + EPS;
      assert (|init| - 1) as real * EPS >= 0.0;
    }
  }

  // ---------------------------------------------------------------- order independence, exactly

  ghost predicate BeatsAll(w: Eligible, list: seq<Eligible>) {
    forall e :: e in list && e != w ==> Better(w, e)
  }

  function RunnerIdOf(e: Eligible): string { e.runner.runnerId }

  lemma {:induction false} UndominatedWins(list: seq<Eligible>, w: Eligible)
    requires w in list && BeatsAll(w, list) && DistinctBy(list, RunnerIdOf)
    ensures Best(list) == w
  {
    if |list| > 1 {
      var init, last := list[..|list| - 1], list[|list| - 1];
      assert list == init + [last];
      DistinctSnoc(init, last, RunnerIdOf);
      BestIsMember(init);
      if w in init {
        UndominatedWins(init, w);
        assert last != w by { assert RunnerIdOf(w) != RunnerIdOf(last); }
        BetterTotal(w, last);
      } else {
        assert w == last;
      }
    }
  }

  /** Putting w first and x second makes x overtake w unless w is preferred to x. */
  lemma {:induction false} OvertakenStaysLost(list: seq<Eligible>, w: Eligible)
    requires |list| >= 2 && list[0] == w && Better(list[1], w) && DistinctBy(list, RunnerIdOf)
    ensures Best(list) != w
  {
    var init, last := list[..|list| - 1], list[|list| - 1];
    assert list == init + [last];
    if |list| == 2 {
      assert init == [w] && Best(init) == w;
      assert RunnerIdOf(list[0]) != RunnerIdOf(list[1]);
    } else {
      DistinctSnoc(init, last, RunnerIdOf);
      OvertakenStaysLost(init, w);
      assert RunnerIdOf(list[0]) != RunnerIdOf(last);
    }
  }

  // ---------------------------------------------------------------- separated scores

  predicate Apart(x: real, y: real) { x == y || Abs(x - y) > EPS }

  /** Totals and success rates are pairwise equal or more than an epsilon apart. */
  ghost predicate Separated(list: seq<Eligible>) {
    forall a, b :: a in list && b in list ==>
      Apart(a.total, b.total) && Apart(a.runner.successRate, b.runner.successRate)
  }

  /** The documented order: score, then queue, then success rate, then id. */
  predicate Optimal(a: Eligible, b: Eligible) {
    || a.total > b.total
    || (a.total == b.total && (
        || a.runner.queueDepth < b.runner.queueDepth
        || (a.runner.queueDepth == b.runner.queueDepth && (
            || a.runner.successRate > b.runner.successRate
            || (a.runner.successRate == b.runner.successRate && Less(a.runner.runnerId, b.runner.runnerId))))))
  }

  lemma OptimalTransitive(a: Eligible, b: Eligible, c: Eligible)
    requires Optimal(a, b) && Optimal(b, c)
    ensures Optimal(a, c)
  {
    if Less(a.runner.runnerId, b.runner.runnerId) && Less(b.runner.runnerId, c.runner.runnerId) {
      LessTransitive(a.runner.runnerId, b.runner.runnerId, c.runner.runnerId);
    }
  }

  lemma SeparatedIsOptimal(list: seq<Eligible>, a: Eligible, b: Eligible)
    requires Separated(list) && a in list && b in list
    ensures Better(a, b) <==> Optimal(a, b)
  {
    assert Apart(a.total, b.total) && Apart(a.runner.successRate, b.runner.successRate);
  }

  lemma {:induction false} SeparatedWinnerBeatsAll(list: seq<Eligible>)
    requires list != [] && Separated(list) && DistinctBy(list, RunnerIdOf)
    ensures BeatsAll(Best(list), list) && Best(list) in list
  {
    BestIsMember(list);
    if |list| > 1 {
      var init, last := list[..|list| - 1], list[|list| - 1];
      assert list == init + [last];
      DistinctSnoc(init, last, RunnerIdOf);
      assert forall e :: e in init ==> e in list;
      SeparatedWinnerBeatsAll(init);
      var best, w := Best(init), Best(list);
      forall e | e in list && e != w ensures Better(w, e) {
        if e != last && best != e {
          SeparatedIsOptimal(list, best, e);
          if w == last {
            SeparatedIsOptimal(list, last, best);
            OptimalTransitive(last, best, e);
            SeparatedIsOptimal(list, last, e);
          }
        } else if e == last {
          BetterTotal(best, last);
        }
      }
    }
  }

  // ---------------------------------------------------------------- pass 1

  datatype Assessment = Passed(e: Eligible) | Failed(code: Reject)

  /** How a pool is judged, runner by runner. The laws of the list it leaves hold for any judge
      that keeps track of whom it scored. */
  type Assessor = Runner -> Assessment

  ghost predicate Tracks(assess: Assessor) { forall r :: assess(r).Passed? ==> assess(r).e.runner == r }

  function Score(r: Runner, d: Demand): Eligible {
    Eligible(r, SoftScore(r, d), SoftScore(r, d).Total(), r.lifecycle == "draining")
  }

  /** The scheduler's own judge: the hard filter, then the score. */
  function Assess(d: Demand): Assessor {
    (r: Runner) => if HardFilter(r, d).None? then Passed(Score(r, d)) else Failed(HardFilter(r, d).value)
  }

  /** Those who passed, in pool order. */
  function Chosen(runners: seq<Runner>, assess: Assessor): seq<Eligible> {
    if runners == [] then []
    else
      var verdict := assess(runners[|runners| - 1]);
      Chosen(runners[..|runners| - 1], assess) + if verdict.Passed? then [verdict.e] else []
  }

  /** How many failed with exactly this code. */
  function Failures(runners: seq<Runner>, assess: Assessor, code: Reject): nat {
    if runners == [] then 0
    else
      Failures(runners[..|runners| - 1], assess, code) + if assess(runners[|runners| - 1]) == Failed(code) then 1 else 0
  }

  /** The runners that pass the hard filter, scored, in pool order. */
  function EligibleList(runners: seq<Runner>, d: Demand): seq<Eligible> { Chosen(runners, Assess(d)) }

  function Tally(runners: seq<Runner>, d: Demand, code: Reject): nat { Failures(runners, Assess(d), code) }

  function Lookup(m: map<Reject, nat>, code: Reject): nat { if code in m then m[code] else 0 }

  const CODES: seq<Reject> := [
    NoIdentity, LifecycleNotActive, OsMismatch, ArchMismatch, CpuInsufficient, MemoryInsufficient, NetworkBlocked,
    TrustInsufficient, TenantMismatch, PoolMismatch, ProductionRequiresPrivileged
  ]

  function FailureSum(runners: seq<Runner>, assess: Assessor, k: nat): nat
    requires k <= |CODES|
  {
    if k == 0 then 0 else FailureSum(runners, assess, k - 1) + Failures(runners, assess, CODES[k - 1])
  }

  function CodeIndex(code: Reject): (k: nat)
    ensures k < |CODES| && CODES[k] == code
  {
    match code
    case NoIdentity => 0 case LifecycleNotActive => 1 case OsMismatch => 2 case ArchMismatch => 3
    case CpuInsufficient => 4 case MemoryInsufficient => 5 case NetworkBlocked => 6 case TrustInsufficient => 7
    case TenantMismatch => 8 case PoolMismatch => 9 case ProductionRequiresPrivileged => 10
  }

  lemma {:induction false} FailureSumStep(runners: seq<Runner>, assess: Assessor, k: nat, hit: int)
    requires runners != [] && k <= |CODES|
    requires forall i :: 0 <= i < |CODES| ==> (assess(runners[|runners| - 1]) == Failed(CODES[i]) <==> i == hit)
    ensures FailureSum(runners, assess, k) == FailureSum(runners[..|runners| - 1], assess, k) + if 0 <= hit < k then 1 else 0
  {
    if k > 0 { FailureSumStep(runners, assess, k - 1, hit); }
  }

  lemma {:induction false} FailureSumEmpty(assess: Assessor, k: nat)
    requires k <= |CODES|
    ensures FailureSum([], assess, k) == 0
  {
    if k > 0 { FailureSumEmpty(assess, k - 1); }
  }

  /** Every runner is counted exactly once: as eligible, or under one rejection code. */
  lemma {:induction false} CountedOnce(runners: seq<Runner>, assess: Assessor)
    ensures |Chosen(runners, assess)| + FailureSum(runners, assess, |CODES|) == |runners|
  {
    if runners == [] {
      FailureSumEmpty(assess, |CODES|);
    } else {
      var verdict := assess(runners[|runners| - 1]);
      CountedOnce(runners[..|runners| - 1], assess);
      var hit: int := -1;
      if verdict.Failed? { hit := CodeIndex(verdict.code); }
      FailureSumStep(runners, assess, |CODES|, hit);
    }
  }

  lemma {:induction false} ChosenPassed(runners: seq<Runner>, assess: Assessor)
    requires Tracks(assess)
    ensures forall e :: e in Chosen(runners, assess) ==> e.runner in runners && assess(e.runner) == Passed(e)
  {
    if runners != [] {
      ChosenPassed(runners[..|runners| - 1], assess);
      assert runners == runners[..|runners| - 1] + [runners[|runners| - 1]];
    }
  }

  lemma {:induction false} PassedAreChosen(runners: seq<Runner>, assess: Assessor, r: Runner)
    requires r in runners && assess(r).Passed?
    ensures assess(r).e in Chosen(runners, assess)
  {
    var init, last := runners[..|runners| - 1], runners[|runners| - 1];
    assert runners == init + [last];
    if r in init { PassedAreChosen(init, assess, r); }
  }

  /** The eligible entries are exactly the scored runners of the pool that meet every law. */
  lemma EligibleIff(runners: seq<Runner>, d: Demand, e: Eligible)
    ensures e in EligibleList(runners, d) <==>
      e.runner in runners && AllHold(CODES, Law(e.runner, d)) && e == Score(e.runner, d)
  {
    FilterMeans(e.runner, d);
    ChosenPassed(runners, Assess(d));
    if e.runner in runners && HardFilter(e.runner, d).None? && e == Score(e.runner, d) { PassedAreChosen(runners, Assess(d), e.runner); }
  }

  /** An eligible runner passed the filter, so it is not draining. */
  lemma EligibleAreActive(runners: seq<Runner>, d: Demand)
    ensures forall e :: e in EligibleList(runners, d) ==>
      e.runner in runners && HardFilter(e.runner, d).None? && e == Score(e.runner, d) && !e.draining
  {
    ChosenPassed(runners, Assess(d));
  }

  // ---------------------------------------------------------------- the order of the pool

  /** Judging keeps multiplicities: an entry occurs as often as its runner. */
  lemma {:induction false} ChosenCount(runners: seq<Runner>, assess: Assessor, e: Eligible)
    requires Tracks(assess)
    ensures multiset(Chosen(runners, assess))[e] == if assess(e.runner) == Passed(e) then multiset(runners)[e.runner] else 0
  {
    if runners != [] {
      var init, last := runners[..|runners| - 1], runners[|runners| - 1];
      ChosenCount(init, assess, e);
      assert runners == init + [last];
    }
  }

  /** A reordered pool yields a reordered list. */
  lemma ChosenPermuted(a: seq<Runner>, b: seq<Runner>, assess: Assessor)
    requires Tracks(assess) && multiset(a) == multiset(b)
    ensures multiset(Chosen(a, assess)) == multiset(Chosen(b, assess))
  {
    forall e ensures multiset(Chosen(a, assess))[e] == multiset(Chosen(b, assess))[e] {
      ChosenCount(a, assess, e);
      ChosenCount(b, assess, e);
    }
  }

  lemma {:induction false} ChosenConcat(a: seq<Runner>, b: seq<Runner>, assess: Assessor)
    ensures Chosen(a + b, assess) == Chosen(a, assess) + Chosen(b, assess)
  {
    if b == [] {
      assert a + b == a;
    } else {
      ChosenConcat(a, b[..|b| - 1], assess);
      assert (a + b)[..|a + b| - 1] == a + b[..|b| - 1];
    }
  }

  /** A pool in which everyone passes is scored place by place. */
  lemma {:induction false} AllChosen(runners: seq<Runner>, assess: Assessor)
    requires forall i :: 0 <= i < |runners| ==> assess(runners[i]).Passed?
    ensures |Chosen(runners, assess)| == |runners|
    ensures forall i :: 0 <= i < |runners| ==> Chosen(runners, assess)[i] == assess(runners[i]).e
  {
    if runners != [] { AllChosen(runners[..|runners| - 1], assess); }
  }

  ghost predicate Permutes(p: seq<Runner>, pool: seq<Runner>) { multiset(p) == multiset(pool) }

  /** Whatever order the pool comes in, w is selected. */
  ghost predicate AlwaysSelected(w: Eligible, pool: seq<Runner>, assess: Assessor) {
    forall p :: Permutes(p, pool) ==> Chosen(p, assess) != [] && Best(Chosen(p, assess)) == w
  }

  lemma PermutedWinner(pool: seq<Runner>, p: seq<Runner>, assess: Assessor, w: Eligible)
    requires Tracks(assess) && w in Chosen(pool, assess) && DistinctBy(Chosen(pool, assess), RunnerIdOf)
    requires BeatsAll(w, Chosen(pool, assess)) && Permutes(p, pool)
    ensures Chosen(p, assess) != [] && Best(Chosen(p, assess)) == w
  {
    ChosenPermuted(p, pool, assess);
    SameMembers(Chosen(p, assess), Chosen(pool, assess));
    DistinctPermuted(Chosen(pool, assess), Chosen(p, assess), RunnerIdOf);
    UndominatedWins(Chosen(p, assess), w);
  }

  lemma LeadersFirst(p: seq<Runner>, assess: Assessor)
    requires |p| >= 2 && assess(p[0]).Passed? && assess(p[1]).Passed?
    ensures |Chosen(p, assess)| >= 2 && Chosen(p, assess)[0] == assess(p[0]).e && Chosen(p, assess)[1] == assess(p[1]).e
  {
    ChosenConcat(p[..2], p[2..], assess);
    assert p == p[..2] + p[2..];
    AllChosen(p[..2], assess);
  }

  /** A reordered pool whose list starts with w, x. */
  lemma LeadingPool(pool: seq<Runner>, assess: Assessor, w: Eligible, x: Eligible) returns (p: seq<Runner>)
    requires Tracks(assess) && DistinctBy(Chosen(pool, assess), RunnerIdOf)
    requires w in Chosen(pool, assess) && x in Chosen(pool, assess) && w != x
    ensures Permutes(p, pool) && DistinctBy(Chosen(p, assess), RunnerIdOf)
    ensures |Chosen(p, assess)| >= 2 && Chosen(p, assess)[0] == w && Chosen(p, assess)[1] == x
  {
    ChosenPassed(pool, assess);
    p := Leading(pool, w.runner, x.runner);
    LeadersFirst(p, assess);
    ChosenPermuted(p, pool, assess);
    DistinctPermuted(Chosen(pool, assess), Chosen(p, assess), RunnerIdOf);
  }

  /** A permutation that starts with w, x. */
  lemma Leading<T>(list: seq<T>, w: T, x: T) returns (p: seq<T>)
    requires w in list && x in list && w != x
    ensures multiset(p) == multiset(list) && |p| >= 2 && p[0] == w && p[1] == x
  {
    var rest := Without(list, w);
    var rest' := Without(rest, x);
    p := [w, x] + rest';
  }

  lemma Without<T>(list: seq<T>, w: T) returns (rest: seq<T>)
    requires w in list
    ensures multiset(rest) + multiset{w} == multiset(list)
    ensures forall x :: x in list && x != w ==> x in rest
  {
    var i :| 0 <= i < |list| && list[i] == w;
    rest := list[..i] + list[i + 1..];
    assert list == list[..i] + [w] + list[i + 1..];
    forall x | x in list && x != w ensures x in rest { assert x in multiset(list); assert x in multiset(rest); }
  }

  /** For any judge: the selection is independent of the order of the pool exactly when some runner
      that passed is preferred to every other one; it is then that runner. */
  lemma JudgedOrderIff(pool: seq<Runner>, assess: Assessor, w: Eligible)
    requires Tracks(assess) && w in Chosen(pool, assess) && DistinctBy(Chosen(pool, assess), RunnerIdOf)
    ensures AlwaysSelected(w, pool, assess) <==> BeatsAll(w, Chosen(pool, assess))
  {
    if BeatsAll(w, Chosen(pool, assess)) {
      forall p | Permutes(p, pool) ensures Chosen(p, assess) != [] && Best(Chosen(p, assess)) == w {
        PermutedWinner(pool, p, assess, w);
      }
    }
    if AlwaysSelected(w, pool, assess) {
      forall x | x in Chosen(pool, assess) && x != w ensures Better(w, x) {
        var p := LeadingPool(pool, assess, w, x);
        if Better(x, w) { OvertakenStaysLost(Chosen(p, assess), w); }
        assert RunnerIdOf(Chosen(p, assess)[0]) != RunnerIdOf(Chosen(p, assess)[1]);
        BetterTotal(w, x);
      }
    }
  }

  /** The budget can be overrun: for every demand and eligible runner at three quarters of the
      ceiling, an otherwise equal runner at any cost from the ceiling up is selected instead. */
  lemma DearerIsSelected(d: Demand, r: Runner, other: string, cost: real)
    requires HardFilter(r, d).None? && r.costUsdPerHr == 0.75 * CostCeiling(d) && cost >= CostCeiling(d) && other != ""
    ensures var pool := [r, r.(runnerId := other, costUsdPerHr := cost)];
      |EligibleList(pool, d)| == 2 && Best(EligibleList(pool, d)).runner == pool[1]
  {
    var q := r.(runnerId := other, costUsdPerHr := cost);
    CheaperGap(r, q, d);
    FilterIgnoresCost(r, q, d);
    SecondWins(Score(r, d), Score(q, d), Assess(d));
  }

  lemma FilterIgnoresCost(r: Runner, q: Runner, d: Demand)
    requires q == r.(runnerId := q.runnerId, costUsdPerHr := q.costUsdPerHr) && q.runnerId != "" && HardFilter(r, d).None?
    ensures HardFilter(q, d).None?
  {
  }

  lemma SecondWins(a: Eligible, b: Eligible, assess: Assessor)
    requires assess(a.runner) == Passed(a) && assess(b.runner) == Passed(b) && b.total - a.total > EPS
    ensures Chosen([a.runner, b.runner], assess) == [a, b] && Best([a, b]) == b
  {
    AllChosen([a.runner, b.runner], assess);
    assert [a, b][..1] == [a] && Best([a]) == a;
  }

  lemma CheaperGap(r: Runner, q: Runner, d: Demand)
    requires r.costUsdPerHr == 0.75 * CostCeiling(d) && q.costUsdPerHr >= CostCeiling(d)
    requires q == r.(runnerId := q.runnerId, costUsdPerHr := q.costUsdPerHr)
    ensures Score(q, d).total - Score(r, d).total == 0.0375
  {
    assert CostScore(q, d) == 0.5;
    ThreeQuarters(CostCeiling(d));
    assert CostScore(r, d) == 0.25;
    assert CacheLocality(r, d) == CacheLocality(q, d) && QueuePressure(r) == QueuePressure(q);
    assert NetworkProximity(r, d) == NetworkProximity(q, d);
  }

  lemma ThreeQuarters(y: real)
    requires y > 0.0
    ensures 0.75 * y / y == 0.75
  {
  }

  /** `Select`'s winner is independent of the order of its input slice, exactly when some eligible
      runner is preferred to every other one. */
  lemma OrderIndependentIff(pool: seq<Runner>, d: Demand, w: Eligible)
    requires w in EligibleList(pool, d) && DistinctBy(EligibleList(pool, d), RunnerIdOf)
    ensures AlwaysSelected(w, pool, Assess(d)) <==> BeatsAll(w, EligibleList(pool, d))
  {
    JudgedOrderIff(pool, Assess(d), w);
  }

  /** When the eligible scores are separated and ids distinct, every order of the input slice
      selects the same runner, and it is the documented optimum. */
  lemma SeparatedSelection(pool: seq<Runner>, d: Demand)
    requires EligibleList(pool, d) != [] && Separated(EligibleList(pool, d)) && DistinctBy(EligibleList(pool, d), RunnerIdOf)
    ensures AlwaysSelected(Best(EligibleList(pool, d)), pool, Assess(d))
    ensures forall e :: e in EligibleList(pool, d) && e != Best(EligibleList(pool, d)) ==> Optimal(Best(EligibleList(pool, d)), e)
  {
    SeparatedOptimum(pool, Assess(d));
  }

  lemma SeparatedOptimum(pool: seq<Runner>, assess: Assessor)
    requires Tracks(assess)
    requires Chosen(pool, assess) != [] && Separated(Chosen(pool, assess)) && DistinctBy(Chosen(pool, assess), RunnerIdOf)
    ensures AlwaysSelected(Best(Chosen(pool, assess)), pool, assess)
    ensures forall e :: e in Chosen(pool, assess) && e != Best(Chosen(pool, assess)) ==> Optimal(Best(Chosen(pool, assess)), e)
  {
    var list := Chosen(pool, assess);
    SeparatedWinnerBeatsAll(list);
    JudgedOrderIff(pool, assess, Best(list));
    forall e | e in list && e != Best(list) ensures Optimal(Best(list), e) { SeparatedIsOptimal(list, Best(list), e); }
  }

  // ---------------------------------------------------------------- Select

  datatype Assignment = Assignment(selected: Option<Eligible>, eligibleCount: nat, poolSize: nat,
                                   rejected: map<Reject, nat>, fallback: bool)

  datatype Outcome = EmptyPool | NoEligibleRunner(a: Assignment) | Assigned(a: Assignment)

  /** `Select`: Pass 1 filters, scores and tallies; Pass 2 scans for the best. The degraded
      fallback is never flagged, because a draining runner never passes the filter. */
  method Select(d: Demand, runners: seq<Runner>) returns (r: Outcome)
    ensures r.EmptyPool? <==> runners == []
    ensures r.NoEligibleRunner? <==> runners != [] && EligibleList(runners, d) == []
    ensures !r.EmptyPool? ==>
      && r.a.poolSize == |runners| && r.a.eligibleCount == |EligibleList(runners, d)| && !r.a.fallback
      && forall code :: Lookup(r.a.rejected, code) == Tally(runners, d, code)
    ensures r.Assigned? ==> EligibleList(runners, d) != [] && r.a.selected == Some(Best(EligibleList(runners, d)))
  {
    if runners == [] { return EmptyPool; }
    var list, rejected := Sift(runners, Assess(d));
    if list == [] { return NoEligibleRunner(Assignment(None, 0, |runners|, rejected, false)); }
    var best := ScanBest(list);
    var allDraining := AllDraining(list);
    SomeoneActive(runners, d);
    r := Assigned(Assignment(Some(best), |list|, |runners|, rejected, allDraining));
  }

  method AllDraining(list: seq<Eligible>) returns (all: bool)
    ensures all <==> forall k :: 0 <= k < |list| ==> list[k].draining
  {
    for i := 0 to |list|
      invariant forall k :: 0 <= k < i ==> list[k].draining
    {
      if !list[i].draining { return false; }
    }
    all := true;
  }

  lemma SomeoneActive(runners: seq<Runner>, d: Demand)
    requires EligibleList(runners, d) != []
    ensures !EligibleList(runners, d)[0].draining
  {
    EligibleAreActive(runners, d);
    assert EligibleList(runners, d)[0] in EligibleList(runners, d);
  }

  /** Whoever is selected is in the pool and meets every law; when nobody is, nobody does. */
  lemma SelectedMeets(runners: seq<Runner>, d: Demand)
    ensures EligibleList(runners, d) != [] ==>
      var w := Best(EligibleList(runners, d)).runner; w in runners && forall code :: Meets(w, d, code)
    ensures EligibleList(runners, d) == [] ==> forall x :: x in runners ==> exists code :: !Meets(x, d, code)
  {
    if EligibleList(runners, d) != [] {
      BestIsMember(EligibleList(runners, d));
      EligibleIff(runners, d, Best(EligibleList(runners, d)));
      AllMet(Best(EligibleList(runners, d)).runner, d);
    } else {
      forall x | x in runners ensures exists code :: !Meets(x, d, code) {
        EligibleIff(runners, d, Score(x, d));
        AllMet(x, d);
      }
    }
  }

  lemma AllMet(r: Runner, d: Demand)
    ensures AllHold(CODES, Law(r, d)) <==> forall code :: Meets(r, d, code)
  {
    if AllHold(CODES, Law(r, d)) {
      forall code ensures Meets(r, d, code) { assert Law(r, d)(CODES[CodeIndex(code)]); }
    }
  }

  /** Pass 2: the linear scan. */
  method ScanBest(list: seq<Eligible>) returns (best: Eligible)
    requires list != []
    ensures best == Best(list)
  {
    best := list[0];
    for i := 1 to |list|
      invariant best == Best(list[..i])
    {
      assert list[..i + 1][..i] == list[..i];
      if Better(list[i], best) { best := list[i]; }
    }
    assert list[..|list|] == list;
  }

  /** Pass 1: every runner is judged once, listed or counted under its code. */
  method Sift(runners: seq<Runner>, assess: Assessor) returns (list: seq<Eligible>, rejected: map<Reject, nat>)
    ensures list == Chosen(runners, assess)
    ensures forall code :: Lookup(rejected, code) == Failures(runners, assess, code)
  {
    list, rejected := [], map[];
    for i := 0 to |runners|
      invariant list == Chosen(runners[..i], assess)
      invariant forall code :: Lookup(rejected, code) == Failures(runners[..i], assess, code)
    {
      assert runners[..i + 1][..i] == runners[..i];
      match assess(runners[i]) {
        case Passed(e) => list := list + [e];
        case Failed(code) => rejected := rejected[code := Lookup(rejected, code) + 1];
      }
    }
    assert runners[..|runners|] == runners;
  }

  // ---------------------------------------------------------------- the comparator is not an order

  function Sample(id: string, queueDepth: int, utilization: real): Runner {
    Runner(id, "", "", "active", [], [], 0, 0, [], [], queueDepth, utilization, 0.0, "", 1.0, 0)
  }

  function AnyDemand(): Demand { Demand("", "", 0, 0, 0.0, "", false, "", "", "", [], false) }

  lemma SampleTotal(id: string, queueDepth: int, utilization: real)
    requires queueDepth >= 10 && 0.0 <= utilization <= 1.0
    ensures Score(Sample(id, queueDepth, utilization), AnyDemand()).total == 0.43 + 0.15 * (1.0 - utilization)
  {
    var r, d := Sample(id, queueDepth, utilization), AnyDemand();
    assert CacheLocality(r, d) == 0.5 && QueuePressure(r) == 0.0 && CostScore(r, d) == 0.7;
    assert NetworkProximity(r, d) == 0.5;
  }

  /** Each within an epsilon of the next, with queues the other way round. */
  lemma Cycle(a: Eligible, b: Eligible, c: Eligible)
    requires 0.0 <= a.total - b.total <= EPS && 0.0 <= b.total - c.total <= EPS && a.total - c.total > EPS
    requires a.runner.queueDepth > b.runner.queueDepth > c.runner.queueDepth
    ensures Better(b, a) && Better(c, b) && Better(a, c) && Best([a, b, c]) == c && Best([c, b, a]) == a
  {
    assert [a, b, c][..2] == [a, b] && [a, b][..1] == [a] && Best([a]) == a;
    assert [c, b, a][..2] == [c, b] && [c, b][..1] == [c] && Best([c]) == c;
  }

  ghost predicate Scored(e: Eligible, d: Demand) { HardFilter(e.runner, d).None? && e == Score(e.runner, d) }

  lemma ThreeChosen(x: Eligible, y: Eligible, z: Eligible, assess: Assessor)
    requires assess(x.runner) == Passed(x) && assess(y.runner) == Passed(y) && assess(z.runner) == Passed(z)
    ensures Chosen([x.runner, y.runner, z.runner], assess) == [x, y, z]
  {
    AllChosen([x.runner, y.runner, z.runner], assess);
  }

  /** Three runners, each within an epsilon of the next in score: reversing the pool `Select` is
      given changes the runner it selects. */
  lemma SelectionDependsOnOrder() returns (d: Demand, a: Runner, b: Runner, c: Runner)
    ensures a.runnerId != c.runnerId
    ensures EligibleList([a, b, c], d) != [] && Best(EligibleList([a, b, c], d)).runner == c
    ensures EligibleList([c, b, a], d) != [] && Best(EligibleList([c, b, a], d)).runner == a
  {
    d := AnyDemand();
    var x := SampleScore("a", 12, 0.0);
    var y := SampleScore("b", 11, 0.000000004);
    var z := SampleScore("c", 10, 0.000000008);
    a, b, c := x.runner, y.runner, z.runner;
    Cycle(x, y, z);
    ThreeChosen(x, y, z, Assess(d));
    ThreeChosen(z, y, x, Assess(d));
  }

  lemma SampleScore(id: string, queueDepth: int, utilization: real) returns (e: Eligible)
    requires id != "" && queueDepth >= 10 && 0.0 <= utilization <= 1.0
    ensures Scored(e, AnyDemand())
    ensures e.runner.runnerId == id && e.runner.queueDepth == queueDepth && e.total == 0.43 + 0.15 * (1.0 - utilization)
  {
    SampleTotal(id, queueDepth, utilization);
    e := Score(Sample(id, queueDepth, utilization), AnyDemand());
  }
}
