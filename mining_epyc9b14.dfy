/** Thread placement and statistics of the single-socket EPYC 9B14 miner:
    4 CCDs of 8 cores, 64 logical CPUs, 62 mining threads requested. Each CCD
    gets a group of `62 / 4` threads; thread `t` of CCD `c` is pinned to a
    physical core of that CCD for `t < 8` and to the core's hyperthread
    sibling (32 CPUs higher) otherwise. */
module MiningEpyc9b14 {
  import opened Words

  const EPYC_9B14_CORES: nat := 32
  const EPYC_9B14_THREADS: nat := 64
  const MINING_THREADS: nat := 62
  const ZEN4_CCD_SIZE: nat := 8
  const EPYC_9B14_CCDS: nat := 4
  /** `MINING_THREADS / EPYC_9B14_CCDS`, the group size `start_mining` uses. */
  const THREADS_PER_CCD: nat := MINING_THREADS / EPYC_9B14_CCDS

  /** The error `thread::Builder::spawn` reports when the OS refuses a thread. */
  datatype MiningError = SpawnFailed

  /** A spawned mining thread, with the identifiers it was started with. */
  datatype MinerThread = MinerThread(ccdId: nat, threadId: nat, globalThreadId: nat, cpuId: nat)

  /** The id passed to the mining loop: `ccd_id * (62 / 4) + thread_id`.
      Within a group it determines the CCD and the thread index, and the
      four groups of `start_mining` use ids below 60. */
  function GlobalThreadId(ccdId: nat, threadId: nat): (g: nat)
    ensures threadId < THREADS_PER_CCD ==> g / THREADS_PER_CCD == ccdId && g % THREADS_PER_CCD == threadId
    ensures ccdId < EPYC_9B14_CCDS && threadId < THREADS_PER_CCD ==> g < EPYC_9B14_CCDS * THREADS_PER_CCD
  {
    ccdId * THREADS_PER_CCD + threadId
  }

  /** Two threads of groups of the intended size never share a global id. */
  lemma GlobalThreadIdInjective(c1: nat, t1: nat, c2: nat, t2: nat)
    requires t1 < THREADS_PER_CCD && t2 < THREADS_PER_CCD
    requires GlobalThreadId(c1, t1) == GlobalThreadId(c2, t2)
    ensures c1 == c2 && t1 == t2
  {
  }

  /** A logical CPU number read back as (CCD, core within the CCD,
      whether it is the hyperthread sibling). */
  datatype CpuSlot = CpuSlot(ccd: nat, core: nat, sibling: bool)

  function DecodeCpu(cpu: nat): CpuSlot
  {
    CpuSlot((cpu % EPYC_9B14_CORES) / ZEN4_CCD_SIZE, cpu % ZEN4_CCD_SIZE, cpu >= EPYC_9B14_CORES)
  }

  lemma AffinityDecodes(ccdId: nat, threadId: nat)
    requires ccdId < EPYC_9B14_CCDS
    ensures DecodeCpu(EpycMiner.CalculateCpuAffinity(ccdId, threadId))
            == CpuSlot(ccdId, threadId % ZEN4_CCD_SIZE, threadId >= ZEN4_CCD_SIZE)
  {
  }

  /** Threads `t` and `t + 8` of a CCD sit on sibling hyperthreads of one
      core, 32 CPUs apart. */
  lemma AffinitySiblings(ccdId: nat, threadId: nat)
    requires threadId < ZEN4_CCD_SIZE
    ensures EpycMiner.CalculateCpuAffinity(ccdId, threadId + ZEN4_CCD_SIZE)
            == EpycMiner.CalculateCpuAffinity(ccdId, threadId) + EPYC_9B14_CORES
  {
  }

  /** Up to 16 threads per CCD land on distinct CPUs; a 17th would share a
      CPU with thread `t - 8`. */
  lemma AffinityInjective(c1: nat, t1: nat, c2: nat, t2: nat)
    requires c1 < EPYC_9B14_CCDS && c2 < EPYC_9B14_CCDS
    requires t1 < 2 * ZEN4_CCD_SIZE && t2 < 2 * ZEN4_CCD_SIZE
    requires EpycMiner.CalculateCpuAffinity(c1, t1) == EpycMiner.CalculateCpuAffinity(c2, t2)
    ensures c1 == c2 && t1 == t2
  {
    AffinityDecodes(c1, t1);
    AffinityDecodes(c2, t2);
  }

  lemma AffinityRepeatsBeyondSixteen(ccdId: nat, threadId: nat)
    requires threadId >= ZEN4_CCD_SIZE
    ensures EpycMiner.CalculateCpuAffinity(ccdId, threadId + ZEN4_CCD_SIZE)
            == EpycMiner.CalculateCpuAffinity(ccdId, threadId)
  {
  }

  function Spawned(ccdId: nat, threadId: nat): MinerThread
  {
    MinerThread(ccdId, threadId, GlobalThreadId(ccdId, threadId), EpycMiner.CalculateCpuAffinity(ccdId, threadId))
  }

  /** The handles `start_ccd_mining_group(ccd, n)` pushes, in order. */
  function CcdGroup(ccdId: nat, n: nat): (g: seq<MinerThread>)
    ensures |g| == n
    ensures forall t :: 0 <= t < n ==> g[t] == Spawned(ccdId, t)
  {
    seq(n, t requires 0 <= t => Spawned(ccdId, t))
  }

  /** The handles of the first `ccds` groups of `start_mining`. */
  function LaunchPlan(ccds: nat): seq<MinerThread>
  {
    if ccds == 0 then [] else LaunchPlan(ccds - 1) + CcdGroup(ccds - 1, THREADS_PER_CCD)
  }

  /** Handle `k` of the launch plan is thread `k % 15` of CCD `k / 15`, and
      its global id is `k` itself. */
  lemma {:induction false} LaunchPlanAt(ccds: nat, k: nat)
    requires k < ccds * THREADS_PER_CCD
    ensures |LaunchPlan(ccds)| == ccds * THREADS_PER_CCD
    ensures LaunchPlan(ccds)[k] == Spawned(k / THREADS_PER_CCD, k % THREADS_PER_CCD)
    ensures LaunchPlan(ccds)[k].globalThreadId == k
  {
    LaunchPlanLength(ccds);
    if k < (ccds - 1) * THREADS_PER_CCD {
      LaunchPlanAt(ccds - 1, k);
    } else {
      LaunchPlanLength(ccds - 1);
    }
  }

  lemma {:induction false} LaunchPlanLength(ccds: nat)
    ensures |LaunchPlan(ccds)| == ccds * THREADS_PER_CCD
  {
    if ccds > 0 {
      LaunchPlanLength(ccds - 1);
    }
  }

  /** Starting one more group, possibly cut short after `m` spawns, extends
      the plan prefix. */
  lemma LaunchPlanPrefix(ccds: nat, ccd: nat, m: nat)
    requires ccd < ccds && m <= THREADS_PER_CCD
    ensures |LaunchPlan(ccds)| == ccds * THREADS_PER_CCD
    ensures LaunchPlan(ccd) + CcdGroup(ccd, m) == LaunchPlan(ccds)[..ccd * THREADS_PER_CCD + m]
  {
    LaunchPlanLength(ccd);
    LaunchPlanLength(ccds);
    MulMonotone(THREADS_PER_CCD, ccd + 1, ccds);
    forall k | 0 <= k < ccd * THREADS_PER_CCD + m
      ensures (LaunchPlan(ccd) + CcdGroup(ccd, m))[k] == LaunchPlan(ccds)[k]
    {
      LaunchPlanPrefixAt(ccds, ccd, m, k);
    }
  }

  /** Position `k` of a group cut short is position `k` of any longer plan. */
  lemma LaunchPlanPrefixAt(ccds: nat, ccd: nat, m: nat, k: nat)
    requires ccd < ccds && m <= THREADS_PER_CCD && k < ccd * THREADS_PER_CCD + m
    ensures |LaunchPlan(ccd)| == ccd * THREADS_PER_CCD && |LaunchPlan(ccds)| == ccds * THREADS_PER_CCD
    ensures (LaunchPlan(ccd) + CcdGroup(ccd, m))[k] == LaunchPlan(ccds)[k]
  {
    LaunchPlanLength(ccd);
    MulMonotone(THREADS_PER_CCD, ccd + 1, ccds);
    LaunchPlanAt(ccds, k);
    if k < ccd * THREADS_PER_CCD {
      LaunchPlanAt(ccd, k);
    } else {
      var t := k - ccd * THREADS_PER_CCD;
      DivModUnique(k, THREADS_PER_CCD, ccd, t);
      assert (LaunchPlan(ccd) + CcdGroup(ccd, m))[k] == CcdGroup(ccd, m)[t] == Spawned(ccd, t);
    }
  }

  /** `start_mining` launches 4 groups of 15 threads: 60 threads, with global
      ids 0 to 59 in launch order, on 60 distinct CPUs below 64, although
      its message reports 62. */
  lemma LaunchPlanShape()
    ensures EPYC_9B14_CCDS * THREADS_PER_CCD == 60 < MINING_THREADS
    ensures |LaunchPlan(EPYC_9B14_CCDS)| == 60
    ensures forall k :: 0 <= k < 60 ==>
      LaunchPlan(EPYC_9B14_CCDS)[k].globalThreadId == k &&
      LaunchPlan(EPYC_9B14_CCDS)[k].cpuId < EPYC_9B14_THREADS
    ensures forall i, j :: 0 <= i < j < 60 ==>
      LaunchPlan(EPYC_9B14_CCDS)[i].cpuId != LaunchPlan(EPYC_9B14_CCDS)[j].cpuId
  {
    LaunchPlanLength(EPYC_9B14_CCDS);
    forall k | 0 <= k < 60
      ensures LaunchPlan(EPYC_9B14_CCDS)[k].globalThreadId == k
      ensures LaunchPlan(EPYC_9B14_CCDS)[k].cpuId < EPYC_9B14_THREADS
    {
      LaunchPlanAt(EPYC_9B14_CCDS, k);
    }
    forall i, j | 0 <= i < j < 60
      ensures LaunchPlan(EPYC_9B14_CCDS)[i].cpuId != LaunchPlan(EPYC_9B14_CCDS)[j].cpuId
    {
      LaunchPlanCpusDistinct(i, j);
    }
  }

  lemma LaunchPlanCpusDistinct(i: nat, j: nat)
    requires i < j < EPYC_9B14_CCDS * THREADS_PER_CCD
    ensures |LaunchPlan(EPYC_9B14_CCDS)| == EPYC_9B14_CCDS * THREADS_PER_CCD
    ensures LaunchPlan(EPYC_9B14_CCDS)[i].cpuId != LaunchPlan(EPYC_9B14_CCDS)[j].cpuId
  {
    LaunchPlanAt(EPYC_9B14_CCDS, i);
    LaunchPlanAt(EPYC_9B14_CCDS, j);
    var ci, ti := i / THREADS_PER_CCD, i % THREADS_PER_CCD;
    var cj, tj := j / THREADS_PER_CCD, j % THREADS_PER_CCD;
    if EpycMiner.CalculateCpuAffinity(ci, ti) == EpycMiner.CalculateCpuAffinity(cj, tj) {
      AffinityInjective(ci, ti, cj, tj);
    }
  }

  /** Which of the 64 CPUs the plan uses: all but the last hyperthread of
      each CCD (CPUs 39, 47, 55 and 63), so four CPUs stay idle, not two. */
  lemma LaunchPlanCpus(cpu: nat)
    requires cpu < EPYC_9B14_THREADS
    ensures (exists k :: 0 <= k < |LaunchPlan(EPYC_9B14_CCDS)| && LaunchPlan(EPYC_9B14_CCDS)[k].cpuId == cpu)
            <==> !(cpu >= EPYC_9B14_CORES && cpu % ZEN4_CCD_SIZE == ZEN4_CCD_SIZE - 1)
  {
    LaunchPlanLength(EPYC_9B14_CCDS);
    if !(cpu >= EPYC_9B14_CORES && cpu % ZEN4_CCD_SIZE == ZEN4_CCD_SIZE - 1) {
      var k := PlanSlotOf(cpu);
      assert LaunchPlan(EPYC_9B14_CCDS)[k].cpuId == cpu;
    } else {
      forall k | 0 <= k < |LaunchPlan(EPYC_9B14_CCDS)|
        ensures LaunchPlan(EPYC_9B14_CCDS)[k].cpuId != cpu
      {
        IdleCpuUnused(cpu, k);
      }
    }
  }

  /** No thread of the plan is pinned to the last hyperthread of a CCD. */
  lemma IdleCpuUnused(cpu: nat, k: nat)
    requires cpu >= EPYC_9B14_CORES && cpu % ZEN4_CCD_SIZE == ZEN4_CCD_SIZE - 1
    requires k < EPYC_9B14_CCDS * THREADS_PER_CCD
    ensures |LaunchPlan(EPYC_9B14_CCDS)| == EPYC_9B14_CCDS * THREADS_PER_CCD
    ensures LaunchPlan(EPYC_9B14_CCDS)[k].cpuId != cpu
  {
    LaunchPlanAt(EPYC_9B14_CCDS, k);
    var ccd, t := k / THREADS_PER_CCD, k % THREADS_PER_CCD;
    var c := EpycMiner.CalculateCpuAffinity(ccd, t);
    assert c % ZEN4_CCD_SIZE == t % ZEN4_CCD_SIZE;
    assert c >= EPYC_9B14_CORES <==> t >= ZEN4_CCD_SIZE;
  }

  /** The launch-plan position of the thread pinned to a used CPU. */
  lemma PlanSlotOf(cpu: nat) returns (k: nat)
    requires cpu < EPYC_9B14_THREADS
    requires !(cpu >= EPYC_9B14_CORES && cpu % ZEN4_CCD_SIZE == ZEN4_CCD_SIZE - 1)
    ensures k < |LaunchPlan(EPYC_9B14_CCDS)| && LaunchPlan(EPYC_9B14_CCDS)[k].cpuId == cpu
  {
    var ccd, t := AffinityPreimage(cpu);
    k := GlobalThreadId(ccd, t);
    LaunchPlanAt(EPYC_9B14_CCDS, k);
  }

  /** The CCD and thread index a used CPU is pinned for. */
  lemma AffinityPreimage(cpu: nat) returns (ccd: nat, t: nat)
    requires cpu < EPYC_9B14_THREADS
    requires !(cpu >= EPYC_9B14_CORES && cpu % ZEN4_CCD_SIZE == ZEN4_CCD_SIZE - 1)
    ensures ccd < EPYC_9B14_CCDS && t < THREADS_PER_CCD
    ensures EpycMiner.CalculateCpuAffinity(ccd, t) == cpu
  {
    if cpu < EPYC_9B14_CORES {
      ccd, t := cpu / ZEN4_CCD_SIZE, cpu % ZEN4_CCD_SIZE;
      assert cpu == ccd * ZEN4_CCD_SIZE + t;
    } else {
      ccd, t := (cpu - EPYC_9B14_CORES) / ZEN4_CCD_SIZE, (cpu - EPYC_9B14_CORES) % ZEN4_CCD_SIZE + ZEN4_CCD_SIZE;
      assert cpu == ccd * ZEN4_CCD_SIZE + (t - ZEN4_CCD_SIZE) + EPYC_9B14_CORES;
      assert t % ZEN4_CCD_SIZE == t - ZEN4_CCD_SIZE;
    }
  }

  /** One iteration of `start_mining`'s loop: a full group extends the
      plan by one CCD, a group cut short after `m` spawns ends the launch
      with the first `spawnable` handles of the plan. */
  lemma StartMiningStep(ccd: nat, spawnable: nat, m: nat)
    requires ccd < EPYC_9B14_CCDS && ccd * THREADS_PER_CCD <= spawnable
    requires m == Min(THREADS_PER_CCD, spawnable - ccd * THREADS_PER_CCD)
    ensures m == THREADS_PER_CCD ==>
      LaunchPlan(ccd) + CcdGroup(ccd, m) == LaunchPlan(ccd + 1) &&
      (ccd + 1) * THREADS_PER_CCD <= spawnable
    ensures m < THREADS_PER_CCD ==>
      LaunchPlan(ccd) + CcdGroup(ccd, m)
        == LaunchPlan(EPYC_9B14_CCDS)[..Min(spawnable, EPYC_9B14_CCDS * THREADS_PER_CCD)] &&
      spawnable < EPYC_9B14_CCDS * THREADS_PER_CCD
  {
    LaunchPlanPrefix(EPYC_9B14_CCDS, ccd, m);
  }

  /** The same step seen from the handle list: whatever handles were
      there before `start_mining` stay in front. */
  lemma HandlesAfterGroup(h0: seq<MinerThread>, ccd: nat, spawnable: nat, m: nat)
    requires ccd < EPYC_9B14_CCDS && ccd * THREADS_PER_CCD <= spawnable
    requires m == Min(THREADS_PER_CCD, spawnable - ccd * THREADS_PER_CCD)
    ensures m == THREADS_PER_CCD ==>
      h0 + LaunchPlan(ccd) + CcdGroup(ccd, m) == h0 + LaunchPlan(ccd + 1) &&
      (ccd + 1) * THREADS_PER_CCD <= spawnable
    ensures m < THREADS_PER_CCD ==>
      h0 + LaunchPlan(ccd) + CcdGroup(ccd, m)
        == h0 + LaunchPlan(EPYC_9B14_CCDS)[..Min(spawnable, EPYC_9B14_CCDS * THREADS_PER_CCD)] &&
      spawnable < EPYC_9B14_CCDS * THREADS_PER_CCD
  {
    StartMiningStep(ccd, spawnable, m);
    if m == THREADS_PER_CCD {
      AppendAfter(h0, LaunchPlan(ccd), CcdGroup(ccd, m), LaunchPlan(ccd + 1));
    } else {
      AppendAfter(h0, LaunchPlan(ccd), CcdGroup(ccd, m),
                  LaunchPlan(EPYC_9B14_CCDS)[..Min(spawnable, EPYC_9B14_CCDS * THREADS_PER_CCD)]);
    }
  }

  /** The whole plan is its own prefix of length 60. */
  lemma FullPlan()
    ensures LaunchPlan(EPYC_9B14_CCDS)[..EPYC_9B14_CCDS * THREADS_PER_CCD] == LaunchPlan(EPYC_9B14_CCDS)
  {
    LaunchPlanLength(EPYC_9B14_CCDS);
  }

  /** All fields of the statistics record, for stating what a setter leaves
      alone. */
  datatype StatsSnapshot = StatsSnapshot(
    hashRate: U64, solutionsFound: U64, threadsActive: U64,
    avgHashTime: U64, zen4CacheHits: U64, avx512Operations: U64)

  /** `EpycMiningStats`: the atomics become plain fields (relaxed ordering,
      one writer at a time). */
  class EpycMiningStats {
    var hashRate: U64
    var solutionsFound: U64
    var threadsActive: U64
    var avgHashTime: U64
    var zen4CacheHits: U64
    var avx512Operations: U64

    function Snapshot(): StatsSnapshot
      reads this
    {
      StatsSnapshot(hashRate, solutionsFound, threadsActive, avgHashTime, zen4CacheHits, avx512Operations)
    }

    constructor ()
      ensures Snapshot() == StatsSnapshot(0, 0, 0, 0, 0, 0)
    {
      hashRate, solutionsFound, threadsActive := 0, 0, 0;
      avgHashTime, zen4CacheHits, avx512Operations := 0, 0, 0;
    }

    function GetHashRate(): (r: U64)
      reads this
      ensures r == Snapshot().hashRate
    {
      hashRate
    }

    /** `fetch_add(1)` wraps at 2^64. */
    method IncrementSolutions()
      modifies this
      ensures Snapshot() == old(Snapshot()).(solutionsFound := WrappingAdd(old(solutionsFound), 1))
      ensures old(solutionsFound) < TWO_64 - 1 ==> solutionsFound == old(solutionsFound) + 1
    {
      solutionsFound := WrappingAdd(solutionsFound, 1);
    }

    method UpdateHashRate(rate: U64)
      modifies this
      ensures Snapshot() == old(Snapshot()).(hashRate := rate)
      ensures GetHashRate() == rate
    {
      hashRate := rate;
    }
  }

  /** `EpycMiner`: the stop flag and the handles of the spawned threads.
      Whether the OS lets a thread be spawned is outside the model: the
      parameter `spawnable` of the start methods is how many more threads it
      will grant. */
  class EpycMiner {
    const stats: EpycMiningStats
    var shouldStop: bool
    var miningHandles: seq<MinerThread>

    constructor ()
      ensures fresh(stats) && stats.Snapshot() == StatsSnapshot(0, 0, 0, 0, 0, 0)
      ensures !shouldStop && miningHandles == []
    {
      stats := new EpycMiningStats();
      shouldStop := false;
      miningHandles := [];
    }

    /** `calculate_cpu_affinity`: the CPU number encodes the CCD, the core
        `t % 8` within it, and whether `t` is past the physical cores. */
    static function CalculateCpuAffinity(ccdId: nat, threadId: nat): (cpu: nat)
      ensures cpu % ZEN4_CCD_SIZE == threadId % ZEN4_CCD_SIZE
      ensures ccdId < EPYC_9B14_CCDS ==>
        cpu < EPYC_9B14_THREADS &&
        (cpu % EPYC_9B14_CORES) / ZEN4_CCD_SIZE == ccdId &&
        (cpu >= EPYC_9B14_CORES <==> threadId >= ZEN4_CCD_SIZE)
    {
      var physicalCore := ccdId * ZEN4_CCD_SIZE + threadId % ZEN4_CCD_SIZE;
      if threadId < ZEN4_CCD_SIZE then physicalCore else physicalCore + EPYC_9B14_CORES
    }

    /** `start_ccd_mining_group`: one handle per spawned thread, in thread
        order; the first refused spawn ends the group with an error and the
        handles pushed so far stay. */
    method StartCcdMiningGroup(ccdId: nat, threadCount: nat, spawnable: nat) returns (res: Outcome<MiningError>)
      modifies this
      ensures res == (if threadCount <= spawnable then Pass else Fail(SpawnFailed))
      ensures miningHandles == old(miningHandles) + CcdGroup(ccdId, Min(threadCount, spawnable))
      ensures shouldStop == old(shouldStop)
    {
      var threadId := 0;
      while threadId < threadCount
        invariant threadId <= threadCount && threadId <= spawnable
        invariant miningHandles == old(miningHandles) + CcdGroup(ccdId, threadId)
        invariant shouldStop == old(shouldStop)
      {
        if threadId == spawnable {
          return Fail(SpawnFailed);
        }
        miningHandles := miningHandles + [Spawned(ccdId, threadId)];
        threadId := threadId + 1;
      }
      return Pass;
    }

    /** `start_mining`: feature detection and the DDR5 prefetch set-up
        cannot fail; then one group of `62 / 4` threads per CCD. */
    method StartMining(spawnable: nat) returns (res: Outcome<MiningError>)
      modifies this
      ensures res == (if EPYC_9B14_CCDS * THREADS_PER_CCD <= spawnable then Pass else Fail(SpawnFailed))
      ensures miningHandles == old(miningHandles)
        + LaunchPlan(EPYC_9B14_CCDS)[..Min(spawnable, EPYC_9B14_CCDS * THREADS_PER_CCD)]
      ensures shouldStop == old(shouldStop)
    {
      ghost var h0 := miningHandles;
      var ccd, started := 0, 0;
      while ccd < EPYC_9B14_CCDS
        invariant ccd <= EPYC_9B14_CCDS && started == ccd * THREADS_PER_CCD <= spawnable
        invariant miningHandles == h0 + LaunchPlan(ccd)
        invariant shouldStop == old(shouldStop)
      {
        var threadsPerCcd := MINING_THREADS / EPYC_9B14_CCDS;
        HandlesAfterGroup(h0, ccd, spawnable, Min(threadsPerCcd, spawnable - started));
        var group := StartCcdMiningGroup(ccd, threadsPerCcd, spawnable - started);
        if group.Fail? {
          return group;
        }
        ccd, started := ccd + 1, started + threadsPerCcd;
      }
      FullPlan();
      return Pass;
    }

    /** `stop_mining`: raise the stop flag and join every handle, leaving
        none. */
    method StopMining()
      modifies this
      ensures shouldStop && miningHandles == []
    {
      shouldStop := true;
      miningHandles := [];
    }
  }
}
