/** Thread placement, statistics and the toy per-socket hash of the
    dual-socket EPYC 7K62 miner: two sockets of 48 cores and 96 logical
    CPUs each, 188 of the 192 CPUs given to mining threads, 94 per socket.
    Socket `s` owns the contiguous CPU range `[96 s, 96 s + 95]`, and thread
    `t` of socket `s` runs on CPU `start + t % 96` of that range. */
module MiningEpyc7k62Dual {
  import opened Words

  const EPYC_7K62_CORES_PER_SOCKET: nat := 48
  const EPYC_7K62_THREADS_PER_SOCKET: nat := 96
  const TOTAL_SOCKETS: nat := 2
  const TOTAL_CORES: nat := EPYC_7K62_CORES_PER_SOCKET * TOTAL_SOCKETS
  const TOTAL_THREADS: nat := EPYC_7K62_THREADS_PER_SOCKET * TOTAL_SOCKETS
  /** Four of the 192 CPUs are left to the system. */
  const MINING_THREADS: nat := 188
  const NUMA_NODES: nat := 2
  const ZEN3_CACHE_LINE: nat := 64
  /** The constant every buffer word is offset by in the toy hash. */
  const HASH_SEED: U64 := 0x1234_5678_9ABC_DEF0
  /** `numa_balance_ratio` starts at 100, meaning "balanced". */
  const INITIAL_NUMA_BALANCE_RATIO: U64 := 100
  /** The candidate update interval of the default configuration, in seconds. */
  const DEFAULT_UPDATE_INTERVAL_SECS: nat := 300

  // ---------------------------------------------------------------------
  // Configuration and topology
  // ---------------------------------------------------------------------

  datatype DualSocketMiningConfig = DualSocketMiningConfig(
    candidateUpdateIntervalSecs: nat,
    threadRestartEnabled: bool,
    performanceMonitoring: bool,
    numaOptimization: bool,
    crossSocketBalancing: bool,
    zen3CacheOptimization: bool,
    threadsPerSocket: nat)

  /** `DualSocketMiningConfig::default`: every optimisation switched on and
      the mining threads split evenly, so the two socket groups start
      exactly `MINING_THREADS` threads, each group fitting in its socket. */
  function DefaultConfig(): (c: DualSocketMiningConfig)
    ensures c.threadsPerSocket * TOTAL_SOCKETS == MINING_THREADS
    ensures c.threadsPerSocket <= EPYC_7K62_THREADS_PER_SOCKET
    ensures c.candidateUpdateIntervalSecs == DEFAULT_UPDATE_INTERVAL_SECS
    ensures c.threadRestartEnabled && c.performanceMonitoring && c.numaOptimization
    ensures c.crossSocketBalancing && c.zen3CacheOptimization
  {
    DualSocketMiningConfig(DEFAULT_UPDATE_INTERVAL_SECS, true, true, true, true, true,
                           MINING_THREADS / TOTAL_SOCKETS)
  }

  /** The inclusive CPU range `(start_cpu, end_cpu)` of each socket, and the
      NUMA memory node of each socket. */
  datatype NumaTopology = NumaTopology(socketCpuRanges: seq<(nat, nat)>, numaMemoryNodes: seq<nat>)

  /** `detect_numa_topology`, which never fails: socket `s` owns the 96 CPUs
      from `96 s` on and NUMA node `s`. */
  function DetectNumaTopology(): (topo: NumaTopology)
    ensures |topo.socketCpuRanges| == TOTAL_SOCKETS && |topo.numaMemoryNodes| == NUMA_NODES
    ensures forall s :: 0 <= s < TOTAL_SOCKETS ==>
      topo.socketCpuRanges[s].0 == s * EPYC_7K62_THREADS_PER_SOCKET &&
      topo.socketCpuRanges[s].0 <= topo.socketCpuRanges[s].1 &&
      topo.socketCpuRanges[s].1 + 1 == topo.socketCpuRanges[s].0 + EPYC_7K62_THREADS_PER_SOCKET &&
      topo.numaMemoryNodes[s] == s
  {
    NumaTopology([(0, 95), (96, 191)], [0, 1])
  }

  /** Every one of the 192 CPUs lies in the range of exactly one socket,
      the socket `cpu / 96`. */
  lemma TopologyPartitionsCpus(cpu: nat, s: nat)
    requires s < TOTAL_SOCKETS
    ensures (DetectNumaTopology().socketCpuRanges[s].0 <= cpu <= DetectNumaTopology().socketCpuRanges[s].1)
            <==> (cpu < TOTAL_THREADS && cpu / EPYC_7K62_THREADS_PER_SOCKET == s)
  {
  }

  // ---------------------------------------------------------------------
  // Per-thread identifiers
  // ---------------------------------------------------------------------

  /** `cpu_start + thread_id % cpus_per_socket`: always a CPU of the range. */
  function CpuId(range: (nat, nat), threadId: nat): (cpu: nat)
    requires range.0 <= range.1
    ensures range.0 <= cpu <= range.1
  {
    range.0 + threadId % (range.1 - range.0 + 1)
  }

  /** Threads of one socket land on distinct CPUs as long as the group is no
      larger than the range. */
  lemma CpuIdInjective(range: (nat, nat), t1: nat, t2: nat)
    requires range.0 <= range.1
    requires t1 < range.1 - range.0 + 1 && t2 < range.1 - range.0 + 1
    requires CpuId(range, t1) == CpuId(range, t2)
    ensures t1 == t2
  {
    var n := range.1 - range.0 + 1;
    DivModUnique(t1, n, 0, t1);
    DivModUnique(t2, n, 0, t2);
  }

  /** A larger group wraps around: thread `t + n` shares thread `t`'s CPU,
      `n` being the size of the range. */
  lemma CpuIdWraps(range: (nat, nat), t: nat)
    requires range.0 <= range.1
    ensures CpuId(range, t + (range.1 - range.0 + 1)) == CpuId(range, t)
  {
    var n := range.1 - range.0 + 1;
    DivModUnique(t + n, n, t / n + 1, t % n);
  }

  /** `socket * threads_per_socket + thread_id` */
  function GlobalThreadId(socket: nat, threadsPerSocket: nat, threadId: nat): (g: nat)
    ensures threadId < threadsPerSocket ==>
      socket * threadsPerSocket <= g < (socket + 1) * threadsPerSocket
  {
    socket * threadsPerSocket + threadId
  }

  /** Distinct (socket, thread) pairs with `thread < tps` get distinct
      global ids. */
  lemma GlobalThreadIdInjective(s1: nat, t1: nat, s2: nat, t2: nat, tps: nat)
    requires t1 < tps && t2 < tps
    requires GlobalThreadId(s1, tps, t1) == GlobalThreadId(s2, tps, t2)
    ensures s1 == s2 && t1 == t2
  {
  }

  // ---------------------------------------------------------------------
  // Launch plan
  // ---------------------------------------------------------------------

  /** The error reported by `start_mining` and its helpers. */
  datatype MiningError =
    | InsufficientCpus(detected: nat, required: nat)
    | SpawnFailed

  /** A spawned mining thread, with the identifiers it was started with. */
  datatype SocketThread = SocketThread(socket: nat, threadId: nat, globalThreadId: nat, cpuId: nat)

  function Spawned(range: (nat, nat), threadsPerSocket: nat, socket: nat, threadId: nat): SocketThread
    requires range.0 <= range.1
  {
    SocketThread(socket, threadId, GlobalThreadId(socket, threadsPerSocket, threadId), CpuId(range, threadId))
  }

  /** The handles `start_socket_mining_group(socket, n)` pushes, in order. */
  function SocketGroup(range: (nat, nat), threadsPerSocket: nat, socket: nat, n: nat): (g: seq<SocketThread>)
    requires range.0 <= range.1
    ensures |g| == n
  {
    seq(n, t requires 0 <= t => Spawned(range, threadsPerSocket, socket, t))
  }

  /** The handles of the first `sockets` groups `start_mining` starts with
      `tps` threads per socket on the detected topology. */
  function LaunchPlan(tps: nat, sockets: nat): (p: seq<SocketThread>)
    requires sockets <= TOTAL_SOCKETS
    ensures |p| == sockets * tps
  {
    if sockets == 0 then []
    else LaunchPlan(tps, sockets - 1)
         + SocketGroup(DetectNumaTopology().socketCpuRanges[sockets - 1], tps, sockets - 1, tps)
  }

  /** The whole plan is socket 0's group followed by socket 1's. */
  lemma LaunchPlanSplit(tps: nat)
    ensures LaunchPlan(tps, 1) == SocketGroup(DetectNumaTopology().socketCpuRanges[0], tps, 0, tps)
    ensures LaunchPlan(tps, TOTAL_SOCKETS)
            == LaunchPlan(tps, 1) + SocketGroup(DetectNumaTopology().socketCpuRanges[1], tps, 1, tps)
  {
    assert LaunchPlan(tps, 0) == [];
  }

  /** Handle `k` of the full plan: the first `tps` handles are socket 0's
      threads, the next `tps` socket 1's. */
  lemma LaunchPlanAt(tps: nat, k: nat)
    requires k < TOTAL_SOCKETS * tps
    ensures k < tps ==> LaunchPlan(tps, TOTAL_SOCKETS)[k] == Spawned((0, 95), tps, 0, k)
    ensures tps <= k ==> LaunchPlan(tps, TOTAL_SOCKETS)[k] == Spawned((96, 191), tps, 1, k - tps)
  {
    LaunchPlanSplit(tps);
  }

  /** Starting socket `s`'s group, possibly cut short after `m` spawns,
      extends the plan prefix. */
  lemma LaunchPlanPrefix(tps: nat, s: nat, m: nat)
    requires s < TOTAL_SOCKETS && m <= tps
    ensures LaunchPlan(tps, s) + SocketGroup(DetectNumaTopology().socketCpuRanges[s], tps, s, m)
            == LaunchPlan(tps, TOTAL_SOCKETS)[..s * tps + m]
  {
    LaunchPlanSplit(tps);
    var topo := DetectNumaTopology();
    if s == 0 {
      assert LaunchPlan(tps, 0) == [];
      assert SocketGroup(topo.socketCpuRanges[0], tps, 0, m) == LaunchPlan(tps, 1)[..m];
    } else {
      assert SocketGroup(topo.socketCpuRanges[1], tps, 1, m)
             == SocketGroup(topo.socketCpuRanges[1], tps, 1, tps)[..m];
    }
  }

  /** One iteration of `start_mining`'s loop: a full group extends the
      plan by one socket, a group cut short after `m` spawns ends the launch
      with the first `spawnable` handles of the plan. */
  lemma StartMiningStep(tps: nat, s: nat, spawnable: nat, started: nat, m: nat)
    requires s < TOTAL_SOCKETS && started == |LaunchPlan(tps, s)| <= spawnable
    requires m == Min(tps, spawnable - started)
    ensures m == tps ==>
      LaunchPlan(tps, s) + SocketGroup(DetectNumaTopology().socketCpuRanges[s], tps, s, m)
        == LaunchPlan(tps, s + 1) &&
      started + tps == |LaunchPlan(tps, s + 1)| <= spawnable
    ensures m < tps ==>
      LaunchPlan(tps, s) + SocketGroup(DetectNumaTopology().socketCpuRanges[s], tps, s, m)
        == LaunchPlan(tps, TOTAL_SOCKETS)[..Min(spawnable, TOTAL_SOCKETS * tps)] &&
      spawnable < TOTAL_SOCKETS * tps
  {
    LaunchPlanPrefix(tps, s, m);
    if s == 0 {
      assert started == 0 && |LaunchPlan(tps, s + 1)| == tps;
    } else {
      assert started == tps && |LaunchPlan(tps, s + 1)| == TOTAL_SOCKETS * tps;
    }
  }

  /** The same step seen from the handle list: whatever handles were
      there before `start_mining` stay in front. */
  lemma HandlesAfterGroup(h0: seq<SocketThread>, tps: nat, s: nat, spawnable: nat, started: nat, m: nat)
    requires s < TOTAL_SOCKETS && started == |LaunchPlan(tps, s)| <= spawnable
    requires m == Min(tps, spawnable - started)
    ensures m == tps ==>
      h0 + LaunchPlan(tps, s) + SocketGroup(DetectNumaTopology().socketCpuRanges[s], tps, s, m)
        == h0 + LaunchPlan(tps, s + 1) &&
      started + tps == |LaunchPlan(tps, s + 1)| <= spawnable
    ensures m < tps ==>
      h0 + LaunchPlan(tps, s) + SocketGroup(DetectNumaTopology().socketCpuRanges[s], tps, s, m)
        == h0 + LaunchPlan(tps, TOTAL_SOCKETS)[..Min(spawnable, TOTAL_SOCKETS * tps)] &&
      spawnable < TOTAL_SOCKETS * tps
  {
    StartMiningStep(tps, s, spawnable, started, m);
    var g := SocketGroup(DetectNumaTopology().socketCpuRanges[s], tps, s, m);
    if m == tps {
      AppendAfter(h0, LaunchPlan(tps, s), g, LaunchPlan(tps, s + 1));
    } else {
      AppendAfter(h0, LaunchPlan(tps, s), g, LaunchPlan(tps, TOTAL_SOCKETS)[..Min(spawnable, TOTAL_SOCKETS * tps)]);
    }
  }

  /** The whole plan is its own prefix of length `2 tps`. */
  lemma FullPlan(tps: nat)
    ensures LaunchPlan(tps, TOTAL_SOCKETS)[..TOTAL_SOCKETS * tps] == LaunchPlan(tps, TOTAL_SOCKETS)
  {
  }

  /** With groups no larger than a socket, the plan's threads have global
      ids `0 .. 2 tps - 1` in launch order and each runs on a CPU of its own
      socket's range. */
  lemma LaunchPlanPlacement(tps: nat, k: nat)
    requires tps <= EPYC_7K62_THREADS_PER_SOCKET && k < TOTAL_SOCKETS * tps
    ensures LaunchPlan(tps, TOTAL_SOCKETS)[k].globalThreadId == k
    ensures LaunchPlan(tps, TOTAL_SOCKETS)[k].cpuId
            == (if k < tps then k else EPYC_7K62_THREADS_PER_SOCKET + k - tps)
    ensures LaunchPlan(tps, TOTAL_SOCKETS)[k].cpuId / EPYC_7K62_THREADS_PER_SOCKET
            == LaunchPlan(tps, TOTAL_SOCKETS)[k].socket
  {
    LaunchPlanAt(tps, k);
    var th := LaunchPlan(tps, TOTAL_SOCKETS)[k];
    if k < tps {
      DivModUnique(k, EPYC_7K62_THREADS_PER_SOCKET, 0, k);
      assert th.cpuId == CpuId((0, 95), k) == k;
    } else {
      var t := k - tps;
      DivModUnique(t, EPYC_7K62_THREADS_PER_SOCKET, 0, t);
      DivModUnique(EPYC_7K62_THREADS_PER_SOCKET + t, EPYC_7K62_THREADS_PER_SOCKET, 1, t);
      assert th.cpuId == CpuId((96, 191), t) == EPYC_7K62_THREADS_PER_SOCKET + t;
      assert th.globalThreadId == GlobalThreadId(1, tps, t) == k;
    }
  }

  /** ... and no two of them share a CPU. */
  lemma LaunchPlanCpusDistinct(tps: nat, i: nat, j: nat)
    requires tps <= EPYC_7K62_THREADS_PER_SOCKET && i < j < TOTAL_SOCKETS * tps
    ensures LaunchPlan(tps, TOTAL_SOCKETS)[i].cpuId != LaunchPlan(tps, TOTAL_SOCKETS)[j].cpuId
  {
    LaunchPlanPlacement(tps, i);
    LaunchPlanPlacement(tps, j);
  }

  /** A socket group larger than the socket's 96 CPUs puts thread 96 of
      socket 0 on the CPU of thread 0. */
  lemma OversizedGroupSharesCpu(tps: nat)
    requires EPYC_7K62_THREADS_PER_SOCKET < tps
    ensures LaunchPlan(tps, TOTAL_SOCKETS)[0].cpuId
            == LaunchPlan(tps, TOTAL_SOCKETS)[EPYC_7K62_THREADS_PER_SOCKET].cpuId
  {
    LaunchPlanAt(tps, 0);
    LaunchPlanAt(tps, EPYC_7K62_THREADS_PER_SOCKET);
  }

  /** With the default configuration the plan uses every CPU except the
      last two of each socket (94, 95, 190 and 191). */
  lemma DefaultPlanCpus(cpu: nat)
    requires cpu < TOTAL_THREADS
    ensures (exists k :: 0 <= k < |LaunchPlan(DefaultConfig().threadsPerSocket, TOTAL_SOCKETS)| &&
               LaunchPlan(DefaultConfig().threadsPerSocket, TOTAL_SOCKETS)[k].cpuId == cpu)
            <==> cpu % EPYC_7K62_THREADS_PER_SOCKET < DefaultConfig().threadsPerSocket
  {
    var tps := DefaultConfig().threadsPerSocket;
    if cpu % EPYC_7K62_THREADS_PER_SOCKET < tps {
      var k := if cpu < EPYC_7K62_THREADS_PER_SOCKET then cpu else cpu - EPYC_7K62_THREADS_PER_SOCKET + tps;
      LaunchPlanPlacement(tps, k);
      assert LaunchPlan(tps, TOTAL_SOCKETS)[k].cpuId == cpu;
    } else {
      forall k | 0 <= k < |LaunchPlan(tps, TOTAL_SOCKETS)|
        ensures LaunchPlan(tps, TOTAL_SOCKETS)[k].cpuId != cpu
      {
        LaunchPlanPlacement(tps, k);
      }
    }
  }

  // ---------------------------------------------------------------------
  // Statistics
  // ---------------------------------------------------------------------

  /** All fields of the statistics record, for stating what a setter leaves
      alone. */
  datatype DualStatsSnapshot = DualStatsSnapshot(
    hashRateSocket0: U64, hashRateSocket1: U64, totalHashRate: U64,
    solutionsFound: U64, threadsActive: U64, numaBalanceRatio: U64,
    crossSocketMigrations: U64, zen3CacheHits: U64)

  /** `DualSocketMiningStats`: the atomics become plain fields (relaxed
      ordering, one writer at a time). */
  class DualSocketMiningStats {
    var hashRateSocket0: U64
    var hashRateSocket1: U64
    var totalHashRate: U64
    var solutionsFound: U64
    var threadsActive: U64
    var numaBalanceRatio: U64
    var crossSocketMigrations: U64
    var zen3CacheHits: U64

    function Snapshot(): DualStatsSnapshot
      reads this
    {
      DualStatsSnapshot(hashRateSocket0, hashRateSocket1, totalHashRate, solutionsFound,
                        threadsActive, numaBalanceRatio, crossSocketMigrations, zen3CacheHits)
    }

    constructor ()
      ensures Snapshot() == DualStatsSnapshot(0, 0, 0, 0, 0, INITIAL_NUMA_BALANCE_RATIO, 0, 0)
    {
      hashRateSocket0, hashRateSocket1, totalHashRate, solutionsFound := 0, 0, 0, 0;
      threadsActive, numaBalanceRatio := 0, INITIAL_NUMA_BALANCE_RATIO;
      crossSocketMigrations, zen3CacheHits := 0, 0;
    }

    function GetTotalHashRate(): (r: U64)
      reads this
      ensures r == Snapshot().totalHashRate
    {
      totalHashRate
    }

    /** The rate of socket 0 or 1; every other socket number reads 0. */
    function GetSocketHashRate(socket: nat): (r: U64)
      reads this
      ensures socket >= TOTAL_SOCKETS ==> r == 0
      ensures socket == 0 ==> r == Snapshot().hashRateSocket0
      ensures socket == 1 ==> r == Snapshot().hashRateSocket1
    {
      if socket == 0 then hashRateSocket0
      else if socket == 1 then hashRateSocket1
      else 0
    }

    /** Stores `rate` for socket 0 or 1 (other socket numbers store
        nothing) and then recomputes the total from both socket rates; the
        sum wraps at 2^64 as in a release build. */
    method UpdateSocketHashRate(socket: nat, rate: U64)
      modifies this
      ensures GetSocketHashRate(socket) == (if socket < TOTAL_SOCKETS then rate else 0)
      ensures forall s :: s != socket ==> GetSocketHashRate(s) == old(GetSocketHashRate(s))
      ensures totalHashRate == WrappingAdd(hashRateSocket0, hashRateSocket1)
      ensures hashRateSocket0 + hashRateSocket1 < TWO_64 ==>
        GetTotalHashRate() == GetSocketHashRate(0) + GetSocketHashRate(1)
      ensures Snapshot() == old(Snapshot()).(
        hashRateSocket0 := if socket == 0 then rate else old(hashRateSocket0),
        hashRateSocket1 := if socket == 1 then rate else old(hashRateSocket1),
        totalHashRate := totalHashRate)
    {
      if socket == 0 {
        hashRateSocket0 := rate;
      } else if socket == 1 {
        hashRateSocket1 := rate;
      }
      var total := WrappingAdd(hashRateSocket0, hashRateSocket1);
      totalHashRate := total;
    }

    /** `fetch_add(1)` wraps at 2^64. */
    method IncrementSolutions()
      modifies this
      ensures Snapshot() == old(Snapshot()).(solutionsFound := WrappingAdd(old(solutionsFound), 1))
      ensures old(solutionsFound) < TWO_64 - 1 ==> solutionsFound == old(solutionsFound) + 1
    {
      solutionsFound := WrappingAdd(solutionsFound, 1);
    }
  }

  // ---------------------------------------------------------------------
  // The miner
  // ---------------------------------------------------------------------

  /** `DualSocketMiner`: configuration, topology, stop flag and the handles
      of the spawned threads. The CPU count the OS reports and whether it
      lets a thread be spawned are outside the model: `cpuCount` and
      `spawnable` (how many more mining threads it will grant) are
      parameters. */
  class DualSocketMiner {
    const config: DualSocketMiningConfig
    const stats: DualSocketMiningStats
    const numaTopology: NumaTopology
    var shouldStop: bool
    var miningHandles: seq<SocketThread>

    /** `DualSocketMiner::new`, whose topology detection cannot fail. */
    constructor (config: DualSocketMiningConfig)
      ensures this.config == config && numaTopology == DetectNumaTopology()
      ensures fresh(stats) && stats.Snapshot() == DualStatsSnapshot(0, 0, 0, 0, 0, INITIAL_NUMA_BALANCE_RATIO, 0, 0)
      ensures !shouldStop && miningHandles == []
    {
      this.config := config;
      numaTopology := DetectNumaTopology();
      stats := new DualSocketMiningStats();
      shouldStop := false;
      miningHandles := [];
    }

    /** `verify_dual_socket_config`: at least 192 CPUs are required. */
    static function VerifyDualSocketConfig(cpuCount: nat): (res: Outcome<MiningError>)
      ensures res.Pass? <==> cpuCount >= TOTAL_THREADS
      ensures res.Fail? ==> res.error == InsufficientCpus(cpuCount, TOTAL_THREADS)
    {
      if cpuCount < TOTAL_THREADS then Fail(InsufficientCpus(cpuCount, TOTAL_THREADS)) else Pass
    }

    /** `start_socket_mining_group`: one handle per spawned thread, in thread
        order, on the CPUs of the socket's range; the first refused spawn
        ends the group with an error and the handles pushed so far stay.
        Indexing the range table and computing its size panic unless the
        socket exists and its range is non-empty. */
    method StartSocketMiningGroup(socket: nat, threadCount: nat, spawnable: nat) returns (res: Outcome<MiningError>)
      requires socket < |numaTopology.socketCpuRanges|
      requires numaTopology.socketCpuRanges[socket].0 <= numaTopology.socketCpuRanges[socket].1
      modifies this
      ensures res == (if threadCount <= spawnable then Pass else Fail(SpawnFailed))
      ensures miningHandles == old(miningHandles)
        + SocketGroup(numaTopology.socketCpuRanges[socket], config.threadsPerSocket, socket, Min(threadCount, spawnable))
      ensures shouldStop == old(shouldStop)
    {
      var range := numaTopology.socketCpuRanges[socket];
      var threadId := 0;
      while threadId < threadCount
        invariant threadId <= threadCount && threadId <= spawnable
        invariant miningHandles == old(miningHandles) + SocketGroup(range, config.threadsPerSocket, socket, threadId)
        invariant shouldStop == old(shouldStop)
      {
        if threadId == spawnable {
          return Fail(SpawnFailed);
        }
        miningHandles := miningHandles + [Spawned(range, config.threadsPerSocket, socket, threadId)];
        threadId := threadId + 1;
      }
      return Pass;
    }

    /** `start_mining`: check the CPU count, then start one group of
        `threads_per_socket` threads per socket. The NUMA memory policy
        set-up cannot fail, and the monitor and balancer threads are not
        mining threads. */
    method StartMining(cpuCount: nat, spawnable: nat) returns (res: Outcome<MiningError>)
      requires numaTopology == DetectNumaTopology()
      modifies this
      ensures res == if cpuCount < TOTAL_THREADS then Fail(InsufficientCpus(cpuCount, TOTAL_THREADS))
                     else if TOTAL_SOCKETS * config.threadsPerSocket <= spawnable then Pass
                     else Fail(SpawnFailed)
      ensures miningHandles == old(miningHandles)
        + (if cpuCount < TOTAL_THREADS then []
           else LaunchPlan(config.threadsPerSocket, TOTAL_SOCKETS)[..Min(spawnable, TOTAL_SOCKETS * config.threadsPerSocket)])
      ensures shouldStop == old(shouldStop)
    {
      var verified := VerifyDualSocketConfig(cpuCount);
      if verified.Fail? {
        return verified;
      }
      var tps := config.threadsPerSocket;
      ghost var h0 := miningHandles;
      var socket, started := 0, 0;
      while socket < TOTAL_SOCKETS
        invariant socket <= TOTAL_SOCKETS && started == |LaunchPlan(tps, socket)| <= spawnable
        invariant miningHandles == h0 + LaunchPlan(tps, socket)
        invariant shouldStop == old(shouldStop)
      {
        ghost var m := Min(tps, spawnable - started);
        HandlesAfterGroup(h0, tps, socket, spawnable, started, m);
        var group := StartSocketMiningGroup(socket, tps, spawnable - started);
        if group.Fail? {
          return group;
        }
        socket, started := socket + 1, started + tps;
      }
      FullPlan(tps);
      return Pass;
    }

    /** `stop_mining`: raise the stop flag and join every handle, leaving
        none. */
    method StopMining()
      modifies this
      ensures shouldStop && miningHandles == []
    {
      shouldStop := true;
      miningHandles := [];
    }
  }

  // ---------------------------------------------------------------------
  // The toy per-socket hash
  // ---------------------------------------------------------------------

  /** `0x123456789ABCDEF0 + ((socket as u64) << 32) + i as u64`, each `+`
      wrapping at 2^64 as in a release build. */
  function HashOffset(socket: U64, i: U64): U64
  {
    WrappingAdd(WrappingAdd(HASH_SEED, ShiftLeft32(socket)), i)
  }

  /** The buffer after `zen3_dual_socket_hash`: word `i` offset by
      `HashOffset(socket, i)`. */
  function HashedBuffer(b: seq<U64>, socket: U64): (r: seq<U64>)
    requires |b| <= TWO_64
    ensures |r| == |b|
  {
    seq(|b|, i requires 0 <= i < |b| => WrappingAdd(b[i], HashOffset(socket, i)))
  }

  /** Undoing the offsets. */
  function UnhashBuffer(b: seq<U64>, socket: U64): (r: seq<U64>)
    requires |b| <= TWO_64
    ensures |r| == |b|
  {
    seq(|b|, i requires 0 <= i < |b| => WrappingSub(b[i], HashOffset(socket, i)))
  }

  /** The hash loses nothing: the old buffer is recoverable from the new
      one, so distinct buffers stay distinct. */
  lemma HashRoundTrip(b: seq<U64>, socket: U64)
    requires |b| <= TWO_64
    ensures UnhashBuffer(HashedBuffer(b, socket), socket) == b
  {
  }

  /** Sockets 0 and 1 start from different values: the same buffer hashes
      to a different first word on each. */
  lemma SocketsDiffer(b: seq<U64>)
    requires 0 < |b| <= TWO_64
    ensures HashedBuffer(b, 0)[0] != HashedBuffer(b, 1)[0]
  {
    assert ShiftLeft32(0) == 0 && ShiftLeft32(1) == TWO_32;
  }

  /** `(x & 0xFF) as u8` */
  function LowByte(x: U64): U8
  {
    x % 0x100
  }

  /** The cache bytes after the first `n` iterations of the loop in
      `zen3_dual_socket_hash`: iteration `i` writes the low byte of the new
      word `i` at index `(i * 8) % |cache|`. */
  function CacheAfter(cache: seq<U8>, b: seq<U64>, n: nat): (r: seq<U8>)
    requires n <= |b| && (n == 0 || |cache| > 0)
    ensures |r| == |cache|
  {
    if n == 0 then cache
    else CacheAfter(cache, b, n - 1)[((n - 1) * 8) % |cache| := LowByte(b[n - 1])]
  }

  /** A byte no iteration writes keeps its old value. */
  lemma {:induction false} CacheUntouched(cache: seq<U8>, b: seq<U64>, n: nat, j: nat)
    requires n <= |b| && 0 < |cache| && j < |cache|
    requires forall i :: 0 <= i < n ==> (i * 8) % |cache| != j
    ensures CacheAfter(cache, b, n)[j] == cache[j]
  {
    if n > 0 {
      CacheUntouched(cache, b, n - 1, j);
    }
  }

  /** The last iteration writing a byte decides it. */
  lemma {:induction false} CacheLastWrite(cache: seq<U8>, b: seq<U64>, n: nat, i: nat)
    requires i < n <= |b| && 0 < |cache|
    requires forall i' :: i < i' < n ==> (i' * 8) % |cache| != (i * 8) % |cache|
    ensures CacheAfter(cache, b, n)[(i * 8) % |cache|] == LowByte(b[i])
  {
    if n - 1 > i {
      CacheLastWrite(cache, b, n - 1, i);
    }
  }

  /** When the cache holds eight bytes per word (64 words and 2048 bytes in
      the mining loop), no two iterations write the same byte: byte `8 i`
      is the low byte of word `i` and every other byte is unchanged. */
  lemma CacheNoCollision(cache: seq<U8>, b: seq<U64>, n: nat)
    requires n <= |b| && 0 < |cache| && n * 8 <= |cache|
    ensures forall i :: 0 <= i < n ==> CacheAfter(cache, b, n)[i * 8] == LowByte(b[i])
    ensures forall j :: 0 <= j < |cache| && (j % 8 != 0 || j >= n * 8) ==> CacheAfter(cache, b, n)[j] == cache[j]
  {
    forall i | 0 <= i < n
      ensures (i * 8) % |cache| == i * 8
    {
      DivModUnique(i * 8, |cache|, 0, i * 8);
    }
    forall i | 0 <= i < n
      ensures CacheAfter(cache, b, n)[i * 8] == LowByte(b[i])
    {
      CacheLastWrite(cache, b, n, i);
    }
    forall j | 0 <= j < |cache| && (j % 8 != 0 || j >= n * 8)
      ensures CacheAfter(cache, b, n)[j] == cache[j]
    {
      CacheUntouched(cache, b, n, j);
    }
  }

  /** `zen3_dual_socket_hash`: the buffer is hashed in place and the cache
      bytes are written as `CacheAfter` describes. `% cache_data.len()`
      panics on an empty cache as soon as the buffer has a word. */
  method Zen3DualSocketHash(buffer: array<U64>, cacheData: array<U8>, socket: U64)
    requires buffer.Length <= TWO_64
    requires buffer.Length == 0 || cacheData.Length > 0
    modifies buffer, cacheData
    ensures buffer[..] == HashedBuffer(old(buffer[..]), socket)
    ensures cacheData[..] == CacheAfter(old(cacheData[..]), buffer[..], buffer.Length)
  {
    ghost var hashed := HashedBuffer(buffer[..], socket);
    ghost var cache0 := cacheData[..];
    for i := 0 to buffer.Length
      invariant forall k :: 0 <= k < i ==> buffer[k] == hashed[k]
      invariant forall k :: i <= k < buffer.Length ==> buffer[k] == old(buffer[k])
      invariant cacheData[..] == CacheAfter(cache0, hashed, i)
    {
      var socketOffset := ShiftLeft32(socket);
      buffer[i] := WrappingAdd(buffer[i], WrappingAdd(WrappingAdd(HASH_SEED, socketOffset), i));
      var cacheIndex := (i * 8) % cacheData.Length;
      cacheData[cacheIndex] := LowByte(buffer[i]);
    }
    assert buffer[..] == hashed;
  }
}
