# EPYC-tuned mining kernels of nockchain, modelled in Dafny

This project models three source files of the nockchain repository:

- **Goldilocks batch arithmetic** (`crates/zkvm-jetpack/src/form/math/base_optimized.rs`).
  - Arithmetic is modulo the field prime PRIME = 2^64 − 2^32 + 1.
  - The per-lane computations of the AVX-512 kernels `badd_batch_avx512` and `bmul_batch_avx512`.
  - The 128-bit reduction `reduce_128_optimized`.
  - The chunk-and-pad driver `BatchProcessor`, which picks the AVX-512 kernel or the scalar `base::badd`/`base::bmul`.
  - Horner evaluation in `poly_eval_optimized`.
- **The single-socket EPYC 9B14 miner** (`crates/nockchain/src/mining_epyc9b14.rs`).
  - 4 CCDs of 8 cores each, 64 logical CPUs.
  - Its statistics record, its CPU-affinity and global-id arithmetic, and the thread groups that `start_mining` launches.
- **The dual-socket EPYC 7K62 miner** (`crates/nockchain/src/mining_epyc7k62_dual.rs`).
  - 2 sockets of 96 logical CPUs each.
  - Its per-socket statistics and the default `threads_per_socket` (94).
  - The NUMA topology, the cpu-id and global-id arithmetic of each socket group, and the in-place toy hash `zen3_dual_socket_hash`.

Files:

| file | module | what it holds |
|---|---|---|
| `words.dfy` | `Words` | `u8`/`u64`/`u128` as bounded naturals; Rust's wrapping and overflowing operations; `Outcome` for `Result<(), E>` |
| `base_optimized.dfy` | `BaseOptimized` | lanes, reductions, batch kernels, `BatchProcessor`, polynomial evaluation |
| `mining_epyc9b14.dfy` | `MiningEpyc9b14` | 9B14 statistics, affinity, launch plan, miner |
| `mining_epyc7k62_dual.dfy` | `MiningEpyc7k62Dual` | 7K62 configuration, topology, statistics, launch plan, miner, toy hash |

How the model is built:

- **Machine words.** 64-bit words are naturals below 2^64. Every place where the source wraps is written out as `% 2^64`: `wrapping_*`, `overflowing_*`, SIMD lane arithmetic, and `fetch_add`.
- **Reference operations.** The module `crate::form::math::base` is not part of this model. Its `badd`, `bmul` and `reduce` are taken to be `(a + b) % PRIME`, `(a * b) % PRIME` and `n % PRIME`.
- **Stateful pieces are classes.** Each stats struct, each miner and the batch processor is a class. Its methods state the whole new state.
- **Launch plans.** What each `start_mining` pushes is described by a launch-plan function. The lemmas about that function state the placement properties.
- **The OS as parameters.** The number of CPUs the OS reports is the parameter `cpuCount`. Whether it grants another thread is the parameter `spawnable`. Whether the CPU has AVX-512 is the parameter `avx512`.

Two things the model shows about the 9B14 miner:

- `start_mining` launches 4 × (62 / 4) = 60 threads, although its message reports 62.
- Those threads leave four CPUs idle (39, 47, 55 and 63), not the two that the comment at `mining_epyc9b14.rs:11` reserves (`LaunchPlanShape`, `LaunchPlanCpus`).

## Model

| member | source | states |
|---|---|---|
| BaseOptimized.BaddLane | crates/zkvm-jetpack/src/form/math/base_optimized.rs:28-35 | A lane computes `PRIME - b`, subtracts it from `a`, and adds PRIME back on borrow, all wrapping. On field elements this is `(a + b) mod PRIME`, and the result is canonical. |
| BaseOptimized.BaddBatchAvx512 | crates/zkvm-jetpack/src/form/math/base_optimized.rs:16-40 | Requires the lengths the source asserts: equal, and a multiple of 8. Then every result element is the lane value of its inputs. |
| BaseOptimized.Reduce128Optimized | crates/zkvm-jetpack/src/form/math/base_optimized.rs:71-93 | The reduction exactly as written. It equals `n mod PRIME` whenever the high word is zero. |
| BaseOptimized.Reduce128OptimizedCongruence | crates/zkvm-jetpack/src/form/math/base_optimized.rs:74-92 | For a high word below 2^32, the result is congruent to `low - high*(2^32-2)`. But `n mod PRIME` is congruent to `low + high*(2^32-1)`. |
| BaseOptimized.Reduce128OptimizedTestCases | crates/zkvm-jetpack/src/form/math/base_optimized.rs:273-279 | The first five of the test's six inputs, all below 2^64, agree with `reduce`. |
| BaseOptimized.Reduce128OptimizedSquareCounterexample | crates/zkvm-jetpack/src/form/math/base_optimized.rs:280-287 | The sixth input, (2^64-1)^2, gives 0x1_FFFF_FFFD instead of `reduce`'s 0xFFFF_FFFC_0000_0004, so the test's assertion fails. |
| BaseOptimized.Reduce128Corrected | crates/zkvm-jetpack/src/form/math/base_optimized.rs:71-93 | The corrected reduction equals `n mod PRIME` for every 128-bit `n`. |
| BaseOptimized.BmulLane | crates/zkvm-jetpack/src/form/math/base_optimized.rs:54-64 | The low and high product words are recombined and reduced. The result is `(a*b) mod PRIME` whenever the product is below 2^64. |
| BaseOptimized.BmulLaneDisagreesOnTwoTo32 | crates/zkvm-jetpack/src/form/math/base_optimized.rs:54-64 | For the field elements a = b = 2^32, the lane gives 0xFFFF_FFFE_0000_0003, but the field product is 2^32-1. |
| BaseOptimized.BmulLaneCorrected | crates/zkvm-jetpack/src/form/math/base_optimized.rs:54-64 | With the corrected reduction, the lane is `(a*b) mod PRIME` for all 64-bit inputs. |
| BaseOptimized.BmulBatchAvx512 | crates/zkvm-jetpack/src/form/math/base_optimized.rs:45-67 | Requires equal lengths that are a multiple of 8. Every result element is the multiplication-lane value of its inputs. |
| BaseOptimized.PaddedLen | crates/zkvm-jetpack/src/form/math/base_optimized.rs:132 | The padded chunk length is a multiple of 8, at least the chunk length and less than 8 above it. |
| BaseOptimized.AddLaneResult | crates/zkvm-jetpack/src/form/math/base_optimized.rs:144-159 | The scalar path is always `badd`. The AVX-512 path agrees with it on field elements. |
| BaseOptimized.MulLaneResult | crates/zkvm-jetpack/src/form/math/base_optimized.rs:189-203 | The scalar path is always `bmul`. The AVX-512 path agrees with it whenever the product is below 2^64. It disagrees for some larger products, such as 2^32 * 2^32 (`BmulLaneDisagreesOnTwoTo32`). |
| BaseOptimized.AddChunk | crates/zkvm-jetpack/src/form/math/base_optimized.rs:144-159 | On one padded chunk, the first `chunk_len` results are the AVX-512 or scalar addition of the chunk's inputs. |
| BaseOptimized.MulChunk | crates/zkvm-jetpack/src/form/math/base_optimized.rs:189-203 | The same, for multiplication. |
| BaseOptimized.BatchProcessor.constructor | crates/zkvm-jetpack/src/form/math/base_optimized.rs:102-117 | The batch size is `max_elements` rounded up to a multiple of 8. |
| BaseOptimized.BatchProcessor.ProcessBatchAdd | crates/zkvm-jetpack/src/form/math/base_optimized.rs:120-166 | The result has length `min(len a, len b)`. Element `i` is the AVX-512 or scalar addition of `a[i]` and `b[i]`, whatever the chunking and padding. The `step_by(0)` panic is excluded. |
| BaseOptimized.BatchProcessor.ProcessBatchMul | crates/zkvm-jetpack/src/form/math/base_optimized.rs:169-210 | The same, for multiplication. |
| BaseOptimized.HornerIsPowerSum | crates/zkvm-jetpack/src/form/math/base_optimized.rs:213-230 | Horner's nested form, which the loop follows, equals the power sum `sum c[i]*x^i`. |
| BaseOptimized.HornerStepMod | crates/zkvm-jetpack/src/form/math/base_optimized.rs:222-227 | One `badd(bmul(result, x), coeff)` step keeps the accumulator congruent to the Horner value of the coefficients seen so far. |
| BaseOptimized.PolyEvalOptimized | crates/zkvm-jetpack/src/form/math/base_optimized.rs:214-230 | No coefficients give 0. One coefficient is returned as given, unreduced. Otherwise the result is `sum coeffs[i]*x^i mod PRIME`. |
| MiningEpyc9b14.GlobalThreadId | crates/nockchain/src/mining_epyc9b14.rs:166 | An id `ccd*15 + t` with `t < 15` decodes back to `(ccd, t)`. The four groups use ids below 60. |
| MiningEpyc9b14.GlobalThreadIdInjective | crates/nockchain/src/mining_epyc9b14.rs:166 | Threads in groups of 15 never share a global id. |
| MiningEpyc9b14.EpycMiner.CalculateCpuAffinity | crates/nockchain/src/mining_epyc9b14.rs:200-213 | The CPU number encodes the core `t mod 8`, the CCD, and whether `t >= 8` (the hyperthread sibling). It stays below 64 for the 4 CCDs. |
| MiningEpyc9b14.AffinityDecodes | crates/nockchain/src/mining_epyc9b14.rs:200-213 | Decoding the CPU of `(ccd, t)` gives back the CCD, the core `t mod 8`, and the sibling flag `t >= 8`. |
| MiningEpyc9b14.AffinitySiblings | crates/nockchain/src/mining_epyc9b14.rs:205-212 | Threads `t` and `t+8` of a CCD sit 32 CPUs apart, on the two hyperthreads of one core. |
| MiningEpyc9b14.AffinityInjective | crates/nockchain/src/mining_epyc9b14.rs:200-213 | Up to 16 threads per CCD, across the 4 CCDs, land on distinct CPUs. |
| MiningEpyc9b14.AffinityRepeatsBeyondSixteen | crates/nockchain/src/mining_epyc9b14.rs:205-212 | Thread `t+8` with `t >= 8` shares the CPU of thread `t`. |
| MiningEpyc9b14.LaunchPlanLength | crates/nockchain/src/mining_epyc9b14.rs:114-117 | The first `c` groups hold `15c` handles. |
| MiningEpyc9b14.LaunchPlanAt | crates/nockchain/src/mining_epyc9b14.rs:114-117 | Handle `k` is thread `k mod 15` of CCD `k / 15`, and its global id is `k`. |
| MiningEpyc9b14.LaunchPlanPrefix | crates/nockchain/src/mining_epyc9b14.rs:114-117 | Starting one more group, even if it is cut short, extends a prefix of the full plan. |
| MiningEpyc9b14.LaunchPlanShape | crates/nockchain/src/mining_epyc9b14.rs:114-119 | 60 threads start (fewer than the 62 reported), with ids 0..59 in launch order, on distinct CPUs below 64. |
| MiningEpyc9b14.LaunchPlanCpusDistinct | crates/nockchain/src/mining_epyc9b14.rs:114-117 | No two launched threads share a CPU. |
| MiningEpyc9b14.LaunchPlanCpus | crates/nockchain/src/mining_epyc9b14.rs:200-213 | A CPU is used exactly when it is not the last hyperthread of a CCD; CPUs 39, 47, 55 and 63 stay idle. |
| MiningEpyc9b14.IdleCpuUnused | crates/nockchain/src/mining_epyc9b14.rs:200-213 | No launched thread is pinned to the last hyperthread of a CCD (CPU `cpu >= 32` with `cpu mod 8 == 7`). |
| MiningEpyc9b14.EpycMiningStats.constructor | crates/nockchain/src/mining_epyc9b14.rs:55-64 | Every counter starts at 0. |
| MiningEpyc9b14.EpycMiningStats.GetHashRate | crates/nockchain/src/mining_epyc9b14.rs:66-68 | Reads the stored hash rate. |
| MiningEpyc9b14.EpycMiningStats.IncrementSolutions | crates/nockchain/src/mining_epyc9b14.rs:70-72 | The solution count goes up by one, wrapping at 2^64. Nothing else changes. |
| MiningEpyc9b14.EpycMiningStats.UpdateHashRate | crates/nockchain/src/mining_epyc9b14.rs:74-76 | The hash rate becomes `rate`. Nothing else changes. |
| MiningEpyc9b14.EpycMiner.constructor | crates/nockchain/src/mining_epyc9b14.rs:87-94 | Fresh zeroed statistics, no stop request and no handles. |
| MiningEpyc9b14.EpycMiner.StartCcdMiningGroup | crates/nockchain/src/mining_epyc9b14.rs:164-197 | Pushes one handle per spawned thread, in thread order. The first refused spawn returns the error and keeps the handles already pushed. |
| MiningEpyc9b14.EpycMiner.StartMining | crates/nockchain/src/mining_epyc9b14.rs:97-122 | The handles become the launch plan, cut at the first refused spawn. The outcome is success exactly when all 60 threads were spawned. |
| MiningEpyc9b14.EpycMiner.StopMining | crates/nockchain/src/mining_epyc9b14.rs:249-258 | The stop flag is set and every handle is drained. |
| MiningEpyc7k62Dual.DefaultConfig | crates/nockchain/src/mining_epyc7k62_dual.rs:37-48 | The two socket groups together start exactly 188 threads, each group fitting its socket, with every optimisation enabled and an interval of 300 s. |
| MiningEpyc7k62Dual.DetectNumaTopology | crates/nockchain/src/mining_epyc7k62_dual.rs:145-165 | Socket `s`'s range starts at CPU `96s` and holds 96 CPUs, and its NUMA node is `s`. |
| MiningEpyc7k62Dual.TopologyPartitionsCpus | crates/nockchain/src/mining_epyc7k62_dual.rs:146-153 | A CPU lies in socket `s`'s range exactly when it is below 192 and `cpu / 96 == s`. |
| MiningEpyc7k62Dual.CpuId | crates/nockchain/src/mining_epyc7k62_dual.rs:239-244 | Every `cpu_start + t mod cpus_per_socket` lies in `[cpu_start, cpu_end]`. |
| MiningEpyc7k62Dual.CpuIdInjective | crates/nockchain/src/mining_epyc7k62_dual.rs:240-244 | Threads below the range size land on distinct CPUs. |
| MiningEpyc7k62Dual.CpuIdWraps | crates/nockchain/src/mining_epyc7k62_dual.rs:240-244 | Thread `t + size` shares the CPU of thread `t`. |
| MiningEpyc7k62Dual.GlobalThreadId | crates/nockchain/src/mining_epyc7k62_dual.rs:243 | For `t < tps`, the id of thread `t` of socket `s` lies in the block `[s*tps, (s+1)*tps)`. |
| MiningEpyc7k62Dual.GlobalThreadIdInjective | crates/nockchain/src/mining_epyc7k62_dual.rs:243 | Distinct `(socket, t)` pairs with `t < tps` get distinct global ids. |
| MiningEpyc7k62Dual.LaunchPlanAt | crates/nockchain/src/mining_epyc7k62_dual.rs:185-188 | The first `tps` handles are socket 0's threads and the next `tps` are socket 1's. |
| MiningEpyc7k62Dual.LaunchPlanPrefix | crates/nockchain/src/mining_epyc7k62_dual.rs:185-188 | Starting a socket group, even if it is cut short, extends a prefix of the full plan. |
| MiningEpyc7k62Dual.LaunchPlanPlacement | crates/nockchain/src/mining_epyc7k62_dual.rs:239-244 | With at most 96 threads per socket, handle `k` has global id `k` and runs on a CPU of its own socket. |
| MiningEpyc7k62Dual.LaunchPlanCpusDistinct | crates/nockchain/src/mining_epyc7k62_dual.rs:239-244 | With at most 96 threads per socket, no two threads share a CPU. |
| MiningEpyc7k62Dual.OversizedGroupSharesCpu | crates/nockchain/src/mining_epyc7k62_dual.rs:240-244 | With more than 96 threads per socket, thread 96 of socket 0 shares thread 0's CPU. |
| MiningEpyc7k62Dual.DefaultPlanCpus | crates/nockchain/src/mining_epyc7k62_dual.rs:13 | Under the default configuration, a CPU is used exactly when `cpu mod 96 < 94`; CPUs 94, 95, 190 and 191 are left to the system. |
| MiningEpyc7k62Dual.DualSocketMiningStats.constructor | crates/nockchain/src/mining_epyc7k62_dual.rs:64-75 | Every counter starts at 0, except the balance ratio, which starts at 100. |
| MiningEpyc7k62Dual.DualSocketMiningStats.GetTotalHashRate | crates/nockchain/src/mining_epyc7k62_dual.rs:77-79 | Reads the stored total. |
| MiningEpyc7k62Dual.DualSocketMiningStats.GetSocketHashRate | crates/nockchain/src/mining_epyc7k62_dual.rs:81-87 | Sockets 0 and 1 read their own rate. Any other socket number reads 0. |
| MiningEpyc7k62Dual.DualSocketMiningStats.UpdateSocketHashRate | crates/nockchain/src/mining_epyc7k62_dual.rs:89-99 | Only socket `s`'s rate becomes `rate`; no rate changes for `s >= 2`. The total becomes the sum of the two socket rates, wrapping. |
| MiningEpyc7k62Dual.DualSocketMiningStats.IncrementSolutions | crates/nockchain/src/mining_epyc7k62_dual.rs:101-103 | The solution count goes up by one, wrapping at 2^64. Nothing else changes. |
| MiningEpyc7k62Dual.DualSocketMiner.constructor | crates/nockchain/src/mining_epyc7k62_dual.rs:132-142 | Keeps the configuration and the detected topology; fresh statistics and no handles. |
| MiningEpyc7k62Dual.DualSocketMiner.VerifyDualSocketConfig | crates/nockchain/src/mining_epyc7k62_dual.rs:200-212 | Succeeds exactly when at least 192 CPUs are present. Otherwise it reports the detected and required counts. |
| MiningEpyc7k62Dual.DualSocketMiner.StartSocketMiningGroup | crates/nockchain/src/mining_epyc7k62_dual.rs:238-280 | Pushes one handle per spawned thread, with the global id and the CPU of the range. A refused spawn returns the error and keeps the handles already pushed. |
| MiningEpyc7k62Dual.DualSocketMiner.StartMining | crates/nockchain/src/mining_epyc7k62_dual.rs:168-197 | Fewer than 192 CPUs: an error, and nothing starts. Otherwise the handles become the launch plan, cut at the first refused spawn. |
| MiningEpyc7k62Dual.DualSocketMiner.StopMining | crates/nockchain/src/mining_epyc7k62_dual.rs:345-354 | The stop flag is set and every handle is drained. |
| MiningEpyc7k62Dual.HashRoundTrip | crates/nockchain/src/mining_epyc7k62_dual.rs:436-439 | Subtracting the offsets again recovers the old buffer, so distinct buffers stay distinct. |
| MiningEpyc7k62Dual.SocketsDiffer | crates/nockchain/src/mining_epyc7k62_dual.rs:437-439 | Sockets 0 and 1 turn the same buffer into different first words. |
| MiningEpyc7k62Dual.CacheUntouched | crates/nockchain/src/mining_epyc7k62_dual.rs:442-443 | A cache byte that no iteration indexes keeps its old value. |
| MiningEpyc7k62Dual.CacheLastWrite | crates/nockchain/src/mining_epyc7k62_dual.rs:442-443 | The last iteration that writes a cache byte leaves there the low byte of its new buffer word. |
| MiningEpyc7k62Dual.CacheNoCollision | crates/nockchain/src/mining_epyc7k62_dual.rs:379-380 | When the cache holds 8 bytes per word (the mining loop uses 64 words and 2048 bytes), byte `8i` is the low byte of word `i` and all other bytes stay unchanged. |
| MiningEpyc7k62Dual.Zen3DualSocketHash | crates/nockchain/src/mining_epyc7k62_dual.rs:432-445 | Each word becomes `word + 0x123456789ABCDEF0 + (socket << 32) + i` mod 2^64, and the length stays the same. Cache writes land in bounds at `(8i) mod len`. It requires a non-empty cache whenever the buffer is non-empty; otherwise the `%` panics. |

## Left out

- **Endless and timed loops.**
  - The mining loops: `zen4_optimized_mining_loop` and `dual_socket_mining_loop`.
  - The monitors: `start_performance_monitor` and `start_dual_socket_monitor`.
  - `start_cross_socket_balancer`.
  - These run forever, sleep, or measure time. The stats setters they call are modelled.
- **Floating point.**
  - `get_numa_balance_ratio` returns an `f64` ratio.
  - The balancer's percentage thresholds.
- **Thread pinning and memory policy.**
  - `set_thread_affinity` pins the calling thread with `sched_setaffinity`. `set_numa_memory_affinity` sets its memory policy with `set_mempolicy`.
  - The model records placement only as the `cpuId` field of each handle. It does not model the pinning or the memory policy themselves.
  - Both calls may fail and return `Err` (`mining_epyc9b14.rs:375-377`, `mining_epyc7k62_dual.rs:470-472` and `492-494`).
  - The spawned thread catches that error with `unwrap_or_else` and only prints it (`mining_epyc9b14.rs:178-180`, `mining_epyc7k62_dual.rs:255-262`). So no such error reaches `start_mining`, and the model has none.
- **Process memory policy.** `setup_numa_memory_policy` sets the process's memory policy to interleaved with `set_mempolicy(MPOL_INTERLEAVE)` (`mining_epyc7k62_dual.rs:215-234`). If that fails it prints a warning, and it always returns `Ok`. The model leaves the memory policy out.
- **Set-up steps and CPU hints.** These only print or issue hints, and every one returns `Ok`:
  - `setup_ddr5_prefetch` and `detect_zen4_features`.
  - `zen4_cache_prefetch`, `zen3_cache_prefetch` and `prefetch_for_mining`.
- **Not part of this model.**
  - `zen4_avx512_hash_batch`.
  - `crates/nockchain/src/mining_optimized.rs`.
  - The `crate::form::math::base` functions. They are taken as the mathematical field operations.
- **Wrappers and trivial members.**
  - The `Drop` impls, which only call `stop_mining`.
  - `get_stats`, the `Clone` impls, and the wrappers `start_epyc9b14_mining` / `start_epyc7k62_dual_mining`, which only compose `new` and `start_mining`.
  - `EpycMiningConfig` and the 7K62 flags for monitoring, balancing, NUMA policy and cache prefetch. `start_mining` reads them, but only to decide whether to run left-out steps: `ddr5_prefetch` and `performance_monitoring` (`mining_epyc9b14.rs:104-111`), `numa_optimization`, `performance_monitoring` and `cross_socket_balancing` (`mining_epyc7k62_dual.rs:175-193`). Each gated step either always returns `Ok` or spawns a monitor or balancer thread outside the model. So the flags do not change `StartMining`'s outcome or the mining handles it pushes.
- **Concurrency.**
  - Atomics become plain fields, one update at a time.
  - Thread names and stack sizes are not modelled.
  - Monitor and balancer threads are not counted in `spawnable`. They are spawned with `thread::spawn`, which panics rather than returns an error.
- **SIMD intrinsics.** The model reads `_mm512_mullo_epi64` and `_mm512_mulhi_epu64` as the low and high 64 bits of each lane's 128-bit product, and `_mm512_extract_epi64(v, j)` as lane `j` of `v`. These are their evident meanings. `_mm512_mulhi_epu64` and `_mm512_extract_epi64` are not among Intel's documented AVX-512F intrinsics, and `_mm512_mullo_epi64` needs AVX-512DQ while only `avx512f` is enabled. Whether the kernel builds and runs as written is not modelled.
- **Alignment padding.** `BatchProcessor::new` pads its buffer to a cache line based on the allocator's address. The buffer is never read.
- **`usize` arithmetic is unbounded here.**
  - `max_elements + SIMD_WIDTH - 1` in the batch size: the model assumes `max_elements <= usize::MAX - 7`. Above that, a debug build panics and a release build wraps to a tiny batch size.
  - `chunk_start + chunk_size`: it stays at most `len + batch_size`, which is small for any real input.
  - `socket * threads_per_socket + thread_id` and `i * 8` in the toy hash: the miners use at most 188 threads and 64-word buffers, so these cannot overflow.
- **Release-build wrapping.**
  - `UpdateSocketHashRate` and `HashOffset` model the release build's wrap-around of the `u64` `+` in `update_socket_hash_rate` and in the hash offset. A debug build panics there instead.
- MiningEpyc9b14.EpycMiner.constructor: takes no configuration. `start_mining` reads `EpycMiningConfig` only to gate left-out steps that always return `Ok` or spawn a monitor thread, so the outcome and the mining handles do not depend on it.
- BaseOptimized.BaddLane: its contract covers only canonical inputs (both below PRIME), which is what the kernels are meant for. Other inputs' values are left unstated.
- BaseOptimized.BmulLane: its contract covers only products below 2^64. Above that, the lane agrees with `bmul` for some products and not for others; the Findings section gives one where it does not (2^32 * 2^32). Which larger products it gets right is left unstated.
- BaseOptimized.Reduce128OptimizedCongruence: stated only for high words below 2^32. Above that, the multiplication `high * (2^32-1)` itself wraps.
- BaseOptimized.BatchProcessor.ProcessBatchMul: keeps the reduction as written, so on AVX-512 hardware its results are the faulty lane values. The corrected lane is `BmulLaneCorrected`.

## Findings

| source | as written | input that shows it | evidently intended | confidence | as-written member | corrected member |
|---|---|---|---|---|---|---|
| crates/zkvm-jetpack/src/form/math/base_optimized.rs:74-92 | `high*(2^32-1)` is subtracted from `low` and then `high` is added, giving a value congruent to `low - high*(2^32-2)` | n = (2^64-1)^2, an input of the source's own test at line 280: result 0x1_FFFF_FFFD, but `n mod PRIME` = 0xFFFF_FFFC_0000_0004 | `n mod PRIME` for every 128-bit `n`, using 2^64 ≡ 2^32-1 and 2^96 ≡ -1 | high, not executed | BaseOptimized.Reduce128OptimizedSquareCounterexample | BaseOptimized.Reduce128Corrected |
| crates/zkvm-jetpack/src/form/math/base_optimized.rs:54-64 | each lane of `bmul_batch_avx512` reduces its 128-bit product with `reduce_128_optimized` | a = b = 2^32, both field elements: lane 0xFFFF_FFFE_0000_0003, field product 2^32-1 | `(a*b) mod PRIME`, as the scalar fallback `base::bmul` at line 194 gives | high, not executed | BaseOptimized.BmulLaneDisagreesOnTwoTo32 | BaseOptimized.BmulLaneCorrected |
