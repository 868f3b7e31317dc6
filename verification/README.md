# FLOD: verified model

FLOD is a two-stage DDoS gateway. Stage 1, a sensor, counts packets per protected host, learns a
baseline of rate and source entropy, and sends one feature vector per window. Stage 2 classifies
windows, decides which sources to block or rate-limit, captures rows for later training, labels and
balances them, and runs operator playbooks. This project models the state machines and arithmetic
of both stages in Dafny and proves what every run of them keeps.

Check it with `dafny verify dfyconfig.toml`.

## Modules

- `Welford`, `Entropy`: the accumulators, against independent definitions of mean, spread and entropy.
- `Baseline`: one target's window close, as a function and as the objects that are updated in place.
  `BaselineNumbers`: its verdict and its learning from the numbers of the target alone. `BaselineRuns`,
  `BaselineDrift`: what holds over every run of windows. `Persistence`: saving and restoring targets.
- `Targets`: addresses, the protected set in user space and in the kernel. `KernelCapture`: the two
  packet backends.
- `Wire`: the frame format, reassembly and the sender's connections.
- `Tiers`, `Enforcement`: from a window's class to calls, and from calls to kernel sets, log and
  attacker record.
- `AutoLabel`, `CaptureQueue`: the labeling gate, and the receiver and labeler sharing a capture file.
- `Playbooks`: runs and their stages. `TrainingBalance`: session-preserving trimming.
- `Arith`, `Lists`, `Options`: helpers.

## Conventions

- Floating point is modelled by `real`, so rounding, overflow and NaN are out of the model except
  where a value is read from text (`AutoLabel.Float`). Integers are unbounded.
- The square root, the logarithm, a classifier, a shuffle, reading a number from text and the
  sort-and-cut of the attacker record are parameters constrained by stated laws. `Entropy.IsLog`
  asks for the product law and the tangent bound, which every logarithm of base above 1 satisfies.
- Clock readings, the outcome of trying a lock, of a kernel call and of a socket write are parameters.
- Runs are lists of windows, events or calls; a theorem about runs is about every such list.

## Where the code differs from what its comments say or a reader expects

- Restart. The comments at `stage1/src/state.rs:326-330` say a restored baseline was never in the
  middle of a freeze. A snapshot is triggered by any target's clean window and writes all targets, so
  another target can be saved mid-freeze. `Persistence.OtherTargetTransparentIff` proves that for such
  a target a restart is transparent exactly when its freeze counter was 0, and
  `Persistence.MidFreezeSaved` gives a sensor and two windows that write a file where it is not.
- Trimming. Whole sessions are removed so that no session is fragmented, and none is
  (`TrainingBalance.SessionsNeverSplit`). Two sessions of another class can become one, when the DDoS
  session that separated them is removed: `TrainingBalance.NormalSessionsCanMerge` is such an input
  and `TrainingBalance.NeighboursBreak` says exactly when it happens.
- Protection. `stage1/src/state.rs:214-217` calls the user space check the one place both backends
  decide. The kernel tries decide separately, on 16 byte forms, where an IPv4 address and its
  IPv4-mapped IPv6 form are the same. `Targets.DecisionsAgree` proves that the two decisions differ
  exactly when that twin matters: it is protected and the address is not (an IPv6 subnet covering
  mapped addresses, or a mapped address in a list), or it is excluded and the address is not. The first
  is made up for by the user space check behind the drain; the second is not
  (`Targets.MappedExclusionDisagrees`, `KernelCapture.RealFilterSoundIff`,
  `KernelCapture.UnsoundDisagrees`).
- Backends. The kernel path also names hosts and sources by what their 16 byte form reads back as,
  while the per-packet path keeps the address of the packet's header, so an IPv6 packet to or from an
  IPv4-mapped address is counted under different names or by one backend only. Counts are equal at
  the end of a run exactly when the backends agree on every packet of it
  (`KernelCapture.BackendsAgreeIff`), and `KernelCapture.RealPacketAgreesIff` says for which packets
  they do, given the configured targets and exclusions. `KernelCapture.MappedPacketsDisagree` gives a
  packet for either direction.
- Warm-up. The comment at `stage2/ipc_receiver.py:52-62` says the overrides keep a target enforced
  during warm-up, and the one at `stage2/ipc_receiver.py:776-783` that a class 2 verdict never goes
  unhandled. Enforcement also asks for a known dominant source, and warm-up windows carry 0.0.0.0
  (`stage1/src/analysis.rs:686`). So they never lead to a call (`Tiers.UnknownDominantActsOnNobody`),
  also when class 2 with a source above the block bar (`Tiers.WarmupIsUnenforced`).
  `Tiers.ActedOnIff` and `Tiers.BlockedIff` say exactly when a window acts and blocks.
- Debounce. A block of a shared address reads the clock twice and notes the first reading, so adds can
  be closer than 10 seconds by the time between the readings: `Enforcement.AddsSpaced` and
  `Enforcement.SpacingIsTight`.
- Peacetime band. The mean stays within half of the reference for every reference weight below 1, and
  at weight 1 while rates stay positive (`BaselineDrift.LearnBandIff`, `BaselineDrift.LearnBand`). The
  command line accepts any positive weight. From 1 up a window close can leave the band, and above 1
  the reference turns negative (`BaselineDrift.BandNeedsSmallWeight`) and some run outruns the speed
  limit (`BaselineDrift.LimitNeedsWeight`).
- Argmax ties. The label is independent of tie-breaking exactly for thresholds above 1/2:
  `AutoLabel.TieBreakIrrelevant` and `AutoLabel.TieBreakMatters`.
- Real rate anomalies are always flagged when k is at least 1 and the cooldown factor at most 1
  (`BaselineRuns.RealRateIsFlagged`); with any other settings, which the command line accepts, they can
  be missed (`BaselineRuns.RealRateCanBeMissed`).
- Lost windows. A send that succeeded can still be lost: an error while Stage 2 handles a window
  abandons the connection and whatever was already sent on it (`Wire.AbandonedTail`).

## Model

| member | source | states |
|---|---|---|
| `Welford.WelfordAccumulator.constructor` | stage1/src/welford.rs:50-57 | an accumulator starts empty, with its recency cap |
| `Welford.WelfordAccumulator.Update` | stage1/src/welford.rs:63-93 | one sample in place, with M2 decay at the cap, is the step `Updated` |
| `Welford.WelfordAccumulator.UpdateBatch` | stage1/src/welford.rs:120-134 | a group in place is the merge step `Merged`, excess beyond the cap dropped |
| `Welford.WelfordAccumulator.Reset` | stage1/src/welford.rs:180-184 | a reset accumulator is empty |
| `Welford.MergedExact` | stage1/src/welford.rs:120-134 | merging k copies of x into exact moments of a list gives the exact moments of the list followed by k copies |
| `Welford.UpdatedIsMerged` | stage1/src/welford.rs:63-93 | below the cap a single update is a merge of one copy |
| `Welford.UpdatesRefineDefinition` | stage1/src/welford.rs:63-93 | up to the cap, after any samples n times mean is their sum and M2 the sum of squared deviations |
| `Welford.MergesRefineDefinition` | stage1/src/welford.rs:120-134 | the same for any list of batches |
| `Welford.GroupingAgrees` | stage1/src/welford.rs:63-134 | any grouping of the same samples into batches, in any order, gives the same n, mean and M2 as one at a time |
| `Welford.UpdatedBounded` | stage1/src/welford.rs:63-93 | samples in [0, B] keep the mean in [0, B] and M2 in [0, (n-1) B²], at the cap and below |
| `Welford.BoundedVariance` | stage1/src/welford.rs:140-146 | such an accumulator with two samples or more has a variance in [0, B²] |
| `Entropy.RawEntropy` | stage1/src/entropy.rs:151-163 | the fold over the map, in any key order, is the Shannon sum |
| `Entropy.ComputeNormalizedEntropy` | stage1/src/entropy.rs:138-169 | the guarded, normalized value |
| `Entropy.EntropyInUnit` | stage1/src/entropy.rs:138-169 | every histogram has entropy in [0, 1]; 0 exactly for at most one key, 1 exactly for two keys or more with equal counts |
| `Entropy.SpreadMeansEntropy` | stage1/src/entropy.rs:151-163 | if no key holds more than share p the raw entropy is at least log(1/p) |
| `Entropy.RateIndependent` | stage1/src/entropy.rs:138-169 | multiplying all counts by m ≥ 1 leaves the entropy unchanged |
| `Entropy.AddedHistogram` | stage1/src/entropy.rs:84-90 | adding packets keeps the total equal to the sum of the counts, with no empty bucket |
| `Entropy.EntropyAccumulator.AddPackets` | stage1/src/entropy.rs:84-90 | counts and packet count after a grouped add; the histogram invariant is kept |
| `Entropy.EntropyAccumulator.AddPacket` | stage1/src/entropy.rs:75-77 | a single packet is an add of one |
| `Entropy.EntropyAccumulator.ComputeAndReset` | stage1/src/entropy.rs:103-110 | the window's entropy, in [0, 1], and an empty accumulator |
| `Baseline.EwmaState.UpdateRateWithAlpha` | stage1/src/ewma.rs:75-77 | the smoothed value after a sample |
| `Baseline.EwmaState.SetValue` | stage1/src/ewma.rs:82-84 | the value is overwritten on restore |
| `Baseline.TargetState.constructor` | stage1/src/state.rs:342-389 | a target built fresh or from any saved baseline, freeze counter 0 |
| `Baseline.TargetState.Snapshot` | stage1/src/state.rs:395-408 | what is saved of a target |
| `Baseline.TargetState.CloseWindow` | stage1/src/analysis.rs:551-846 | closing a window in place, on the objects it owns, gives the verdict and the target of the functions `VerdictOf` and `Close` |
| `Baseline.TargetState.Absorb` | stage1/src/analysis.rs:797-838 | the learning half: outlier checks, accumulators, slow references, mean revert |
| `BaselineNumbers.LimitsByNumbers` | stage1/src/analysis.rs:132-134 | supporting fact: the scaled floor and ceiling of the rate deviation and the tightened k of a cooldown |
| `BaselineNumbers.DeviationIsStdDev` | stage1/src/welford.rs:140-160 | the deviation in use is the one number s ≥ 0 with s² (n - 1) = M2 |
| `BaselineNumbers.GaugeOf` | stage1/src/analysis.rs:714-732 | every warmed-up target has a rate deviation, an entropy deviation and a k it is judged by, with floor, ceiling and cooldown written out in `Gauged` |
| `BaselineNumbers.SmoothedByNumbers` | stage1/src/analysis.rs:551-558 | the smoothed rate moves towards the window's rate by 0.8, 0.5 or the configured weight, whichever branch applies and never by less than the configured weight |
| `BaselineNumbers.EntropyByNumbers` | stage1/src/analysis.rs:739-754 | the entropy flag is raised exactly with enough packets and an entropy more than k deviations below the learned mean, and a real entropy anomaly exactly when it is more than the configured k below |
| `BaselineNumbers.WideningOf` | stage1/src/analysis.rs:139-146 | supporting fact: every window has one widening of the rate boundary, 1 past the emergency volume or at no more than the usual entropy, else the ratio of the two |
| `BaselineNumbers.RateByNumbers` | stage1/src/analysis.rs:727-765 | the same for the rate, with the widening, and when the window is clean on its own |
| `BaselineNumbers.CleanEntropy` | stage1/src/analysis.rs:804-827 | a clean window's entropy is learned exactly when it ended a freeze or lies within outlier_sigma deviations: count, mean and M2 afterwards, at the cap and below, and the reference |
| `BaselineNumbers.CleanRate` | stage1/src/analysis.rs:797-837 | the same for the rate, with the mean cap and the revert to the reference |
| `BaselineNumbers.CountersByNumbers` | stage1/src/analysis.rs:767-846 | a real anomaly in rate or entropy restarts the cooldown, any other window counts it down; a naturally clean window or the one past the cap ends the freeze, any other prolongs it |
| `BaselineNumbers.WarmupByNumbers` | stage1/src/analysis.rs:651-654 | a warm-up window is learned whole, raises nothing and leaves counters and references alone |
| `BaselineRuns.StaysWarm` | stage1/src/analysis.rs:651-654 | a warmed-up target stays warmed up through every run |
| `BaselineRuns.StepShape` | stage1/src/analysis.rs:767-846 | supporting fact: what one close does to the freeze and cooldown counters, and that a window that is not clean leaves accumulators and references alone |
| `BaselineRuns.FreezeIsStreak` | stage1/src/analysis.rs:97-111 | the freeze counter is the current streak of not naturally clean windows modulo cap + 1, and a window is clean exactly when natural or when that is 0 |
| `BaselineRuns.FreezeBounded` | stage1/src/analysis.rs:767-773 | the freeze counter never exceeds its cap |
| `BaselineRuns.FreezeCounts` | stage1/src/analysis.rs:767-773 | while nothing is clean the counter counts every window |
| `BaselineRuns.FreezeEnds` | stage1/src/analysis.rs:97-111 | any cap + 1 consecutive windows contain a clean one |
| `BaselineRuns.EscapesPaidFor` | stage1/src/analysis.rs:767-810 | each escape uses up cap + 1 windows, the freeze in progress counted |
| `BaselineRuns.EscapesBounded` | stage1/src/analysis.rs:767-810 | T windows contain at most T / (cap + 1) escapes |
| `BaselineRuns.NoEscapeIff` | stage1/src/analysis.rs:97-111 | a run never escapes exactly when naturally clean windows recur within the cap |
| `BaselineRuns.EscapeNeedsStreak` | stage1/src/analysis.rs:97-111 | an escape is preceded by cap windows none of which was naturally clean |
| `BaselineRuns.CooldownIsLookBack` | stage1/src/analysis.rs:842-846 | the cooldown in closed form from any starting value: the configured length minus the windows since the last real anomaly, or the start counted down when there was none |
| `BaselineRuns.CooldownOverIff` | stage1/src/analysis.rs:842-846 | the cooldown is 0 exactly when the last cooldown_windows windows held no real anomaly and, in a run without any, the starting value has been counted down |
| `BaselineRuns.NaturalMeansQuiet` | stage1/src/analysis.rs:62-79 | from any starting target, a naturally clean window follows cooldown_windows windows without a real anomaly |
| `BaselineRuns.NaturalIff` | stage1/src/analysis.rs:62-79 | supporting fact: a window is naturally clean exactly when outside cooldown, without a rate flag, and without an entropy flag unless spread out at a rate within one deviation of the mean |
| `BaselineRuns.SigmasBounded` | stage1/src/analysis.rs:714-723 | the deviations in force stay positive, at or above floor (or ceiling, when lower) and at or below ceiling |
| `BaselineRuns.RealRateIsFlagged` | stage1/src/analysis.rs:727-765 | with k ≥ 1 and cooldown factor ≤ 1 every real rate anomaly is flagged and not naturally clean |
| `BaselineRuns.RealRateCanBeMissed` | stage1/src/analysis.rs:727-754 | for every other setting of the two a target and window exist whose real rate anomaly is not flagged |
| `BaselineRuns.RealEntropyIsFlagged` | stage1/src/analysis.rs:744-754 | with those settings a real entropy anomaly is flagged exactly when the window has at least entropy_min_packets packets |
| `BaselineRuns.EmergencyIsFlagged` | stage1/src/analysis.rs:139-146 | when base_k ≤ emergency sigma, no entropy value hides a rate above mean + emergency sigmas |
| `BaselineDrift.EwmaConverges` | stage1/src/analysis.rs:551-558 | at a constant rate the smoothing error shrinks by at least (1 - alpha) per window, whichever branch is taken |
| `BaselineDrift.BoundedForever` | stage1/src/analysis.rs:817-837 | in every run on rates in [0, B], smoothed rate, mean and reference stay in [0, B], M2 ≥ 0 and variance ≤ B², past the cap and across reverts |
| `BaselineDrift.OneWindowTeaches` | stage1/src/analysis.rs:775-810 | a naturally clean window moves the mean by at most outlier_sigma deviations over the sample count; an escape is always learned below the mean cap |
| `BaselineDrift.LearnBandIff` | stage1/src/analysis.rs:119-121 | for every weight, after a clean window the mean is within 50% of the reference exactly when the reference is positive or both are 0 |
| `BaselineDrift.LearnBand` | stage1/src/analysis.rs:817-837 | so with a weight below 1, or weight 1 and a positive rate, every clean window keeps the mean in that band |
| `BaselineDrift.BandNeedsSmallWeight` | stage1/src/analysis.rs:767-837 | with any weight of 1 or more closing a silent window takes a bounded target out of the band, and above 1 makes its reference negative |
| `BaselineDrift.LimitNeedsWeight` | stage1/src/analysis.rs:767-838 | for every configuration with a weight above 1 and every bound B > 0, some run with smoothed rates in [0, B] takes the reference past the limit |
| `BaselineDrift.NextClean` | stage1/src/analysis.rs:767-838 | from any warm target up to B some windows lead to its next clean one with every smoothed rate at B |
| `BaselineDrift.PoisoningLimit` | stage1/src/analysis.rs:797-838 | if every smoothed rate lies in [lo, B], then after m clean windows the reference is at most B - (1-w)^m (B - ref0) and at least the same bound towards lo, for every weight up to 1, and the mean within 50% of it where the band holds, whatever flagged or escaped windows occur in between |
| `BaselineDrift.FreshPoisoningLimit` | stage1/src/analysis.rs:797-838 | the same from a target without a reference, ref0 being the mean learned at its first clean window |
| `BaselineDrift.WindowsBoundRates` | stage1/src/analysis.rs:551-558 | windows whose rates lie in an interval keep the smoothed rate there |
| `BaselineDrift.SeedStep` | stage1/src/analysis.rs:821-827 | the first clean window seeds the reference from the learned mean |
| `BaselineDrift.DragGrows` | stage1/src/analysis.rs:821-822 | more clean windows only raise the limit, so bounding their number bounds the drift |
| `BaselineDrift.FloodLimit` | stage1/src/analysis.rs:797-838 | a flood of T windows none naturally clean moves the reference by at most T / (cap + 1) drags and the mean, where the band holds, to 1.5 times that |
| `Persistence.TargetsIndependent` | stage1/src/analysis.rs:164-184 | each target, also one first seen during the run, follows its own windows from what was loaded for it, whatever the others do |
| `Persistence.TrackedIff` | stage1/src/analysis.rs:164-184 | tracked are exactly the targets seen while there was room, also those without a closed window, and at most 100 when none are configured |
| `Persistence.MomentsFromLastLearning` | stage1/src/analysis.rs:797-810 | a target's accumulators are those after its last clean or warm-up window |
| `Persistence.DiskOrigin` | stage1/src/analysis.rs:942-949 | the file on disk was written by the last clean, due close of some target |
| `Persistence.SnapshotCarriesLearnedMoments` | stage1/src/analysis.rs:942-949 | whichever target triggered the save, the file holds exactly the targets tracked by then, also those that have closed no window yet, each with the accumulators of its own last learning window |
| `Persistence.RestartTransparent` | stage1/src/persistence.rs:124-161 | saved at its own clean window and restored within the TTL, a target gives the same verdicts and states on every later run |
| `Persistence.StaleStartsFresh` | stage1/src/persistence.rs:124-148 | supporting fact: without a file, or past the TTL, every target starts fresh |
| `Persistence.FreezeIsVisible` | stage1/src/analysis.rs:97-111 | two targets that differ only in a non-zero freeze counter are told apart by some run |
| `Persistence.TransparentIff` | stage1/src/state.rs:342-408 | restoring is transparent to every later run exactly when the saved freeze counter was 0 |
| `Persistence.OtherTargetTransparentIff` | stage1/src/analysis.rs:942-949 | the same for what another target's clean window wrote to the file and the next process read back within the TTL |
| `Persistence.MidFreezeSaved` | stage1/src/analysis.rs:942-949 | for every configuration a sensor and two windows write a file from which a target comes back with different verdicts |
| `Targets.AddressRoundTrip` | stage1/src/kernel.rs:577-593 | storing and reading back gives the address itself exactly when it is not an IPv4-mapped IPv6 address |
| `Targets.StoredRoundTrip` | stage1/src/kernel.rs:586-593 | reading a stored key and storing it again gives the key |
| `Targets.FromAddrInjective` | stage1/src/kernel.rs:586-593 | distinct stored keys read back as distinct addresses |
| `Targets.MappedForm` | stage1/src/kernel.rs:577-593 | supporting fact: the stored form of an IPv4 address byte by byte |
| `Targets.LeadingCompares` | stage1/src/main.rs:60-65 | comparing under the mask is comparing the leading bits |
| `Targets.PrefixMatches` | stage1/src/main.rs:47-67 | the byte loop and masked byte decide equality of the first prefix bits |
| `Targets.Contains` | stage1/src/main.rs:43-92 | membership in a list, or agreement with a subnet of the same family on its prefix bits |
| `Targets.IsEffectivelyProtected` | stage1/src/state.rs:218-224 | in the target set when there is one, and not excluded |
| `Targets.MappedShift` | stage1/src/kernel.rs:325-333 | an IPv4 prefix shifted by 96 compares the same bits in the mapped form |
| `Targets.FullEntries` | stage1/src/kernel.rs:349-369 | full-length trie entries are found exactly by their own addresses and by those with the same stored form |
| `Targets.KernelDecides` | stage1-ebpf/src/main.rs:370-373 | the kernel protects an address exactly when it or its twin is covered and neither is excluded |
| `Targets.DecisionsAgree` | stage1-ebpf/src/main.rs:370-373 | for every target set, exclusion list and address, kernel and user space decisions are equal exactly when the address's twin makes no difference |
| `Targets.CanonicalDecisionsAgree` | stage1/src/kernel.rs:316-369 | with no mapped address configured the one difference left is an IPv6 subnet covering an IPv4 address's mapped form |
| `Targets.MappedExclusionDisagrees` | stage1/src/state.rs:218-224 | for every IPv4 host, excluding its mapped form removes it in the kernel while user space protects it |
| `KernelCapture.ViewInjective` | stage1/src/kernel.rs:439-458 | distinct map keys get distinct names in user space, so an insert never overwrites |
| `KernelCapture.BumpedTotal` | stage1-ebpf/src/main.rs:409-415 | a bump on any CPU raises that key's total over CPUs by one and no other |
| `KernelCapture.PerCpuMap.Bump` | stage1-ebpf/src/main.rs:409-415 | the in-place bump |
| `KernelCapture.PerCpuMap.Drain` | stage1/src/kernel.rs:439-458 | the drain loop moves every key's total over CPUs to the sample and empties the map |
| `KernelCapture.KernelTouches` | stage1-ebpf/src/main.rs:457-515 | which map entries a packet bumps, each once |
| `KernelCapture.PacketTouches` | stage1/src/analysis.rs:437-479 | which accumulators a packet touches on the per-packet path, each once and under the packet's own addresses |
| `KernelCapture.BumpsDrain` | stage1-ebpf/src/main.rs:376-405 | a packet leaves in each kept cell, under its user space name, what it bumped in the kernel |
| `KernelCapture.WindowState.ObservePacket` | stage1/src/analysis.rs:437-479 | the per-packet update in place |
| `KernelCapture.WindowState.ObserveTotal` | stage1/src/analysis.rs:372-399 | one drained total reaching its accumulator in place |
| `KernelCapture.AlwaysBalanced` | stage1/src/kernel.rs:382-548 | at every point of every run, for any filters and packets, fed plus drained plus still in the maps is what the packets so far amount to, for every cell |
| `KernelCapture.DrainedIsTally` | stage1/src/kernel.rs:382-548 | so once all is drained and fed the accumulators hold exactly that |
| `KernelCapture.CanDrain` | stage1/src/kernel.rs:382-548 | from every reachable state some drains and feeds empty the maps and the sample |
| `KernelCapture.MomentsAgree` | stage1/src/analysis.rs:386-388 | equal TTL histograms of at most 500 packets give equal TTL moments, whatever the batches |
| `KernelCapture.TelltaleOneSided` | stage1/src/analysis.rs:341-482 | a packet the paths disagree on has a cell that no packet whatever can make up for |
| `KernelCapture.BackendsAgreeIff` | stage1/src/analysis.rs:341-482 | once all is drained and fed, both backends hold the same histograms and counters exactly when they agree on every packet of the run, and then the same TTL moments up to 500 packets |
| `KernelCapture.SoundPacketAgrees` | stage1-ebpf/src/main.rs:376-405 | if the kernel counts whatever user space protects, they agree on every packet between addresses that are not IPv4-mapped |
| `KernelCapture.RealPacketAgreesIff` | stage1/src/analysis.rs:341-353 | for all targets, exclusions and packets: the condition on a packet's addresses under which the backends agree on it |
| `KernelCapture.MappedPacketsDisagree` | stage1/src/capture.rs:343-344 | with an IPv4 host as target only the kernel path counts an IPv6 packet to its mapped form, with the mapped form as target only the per-packet path |
| `KernelCapture.RealFilterSoundIff` | stage1/src/analysis.rs:347-353 | the kernel counts whatever user space protects exactly when no exclusion is the mapped form of a protected IPv4 host |
| `KernelCapture.UnsoundDisagrees` | stage1-ebpf/src/main.rs:503-515 | otherwise some packet between unmapped addresses is counted by the per-packet path only |
| `Wire.ToBytes` | stage1/src/ipc.rs:138-207 | the buffer built field by field is the 216 byte encoding |
| `Wire.FrameLayout` | stage1/src/ipc.rs:138-207 | every field of the vector is the little-endian number at its own offset, and the two addresses follow at 184 and 200 |
| `Wire.DecodeEncode` | stage2/ipc_receiver.py:461-507 | decoding an encoding gives the vector, addresses as they read back |
| `Wire.RoundTripIff` | stage2/ipc_receiver.py:325-333 | the round trip is exact exactly when neither address is IPv4-mapped IPv6 |
| `Wire.EncodeDecode` | stage2/config.py:78-79 | every 216 byte frame is the encoding of what it decodes to |
| `Wire.Connection.Recv` | stage2/ipc_receiver.py:447-452 | a receive returns any non-empty part of what is next, or nothing at the end |
| `Wire.ReceiveFrames` | stage2/ipc_receiver.py:446-461 | for every chunking, exactly the complete frames come out in order, up to the first whose handling raises an error; a partial one is dropped |
| `Wire.IpcSocket.EnsureConnected` | stage1/src/ipc.rs:255-287 | an open connection is reused, otherwise one is opened if possible |
| `Wire.IpcSocket.SendVector` | stage1/src/ipc.rs:295-316 | success appends a whole frame; any error drops the connection |
| `Wire.DeliveredIff` | stage1/src/ipc.rs:255-316 | a vector is delivered exactly when a connection is open or can be opened and all 216 bytes go out, and only then is the connection open afterwards |
| `Wire.FramesAppend` | stage2/ipc_receiver.py:446-457 | whole frames do not affect how later bytes are framed |
| `Wire.DecodedIsDelivered` | stage1/src/ipc.rs:295-316 | over any failures, also mid-frame, the complete frames on all connections are exactly the vectors whose send succeeded, in order |
| `Wire.LinkByLink` | stage1/src/ipc.rs:295-316 | the same connection by connection |
| `Wire.AbandonedTail` | stage2/ipc_receiver.py:885-887 | with errors while handling frames each connection yields a prefix of what was delivered on it, all of it exactly when no frame but the last raised one |
| `Tiers.OverridesEscalate` | stage2/ipc_receiver.py:52-82 | the overrides only raise a class; an anomalous rate is never left Normal; a dominant rate over the bar is DDoS |
| `Tiers.ClassByNumbers` | stage2/ipc_receiver.py:69-82 | the class after the overrides, from the window's numbers |
| `Tiers.BarsByNumbers` | stage2/ipc_receiver.py:701-711 | supporting fact: the two bars and the concentration test from the window's numbers |
| `Tiers.TrafficByFields` | stage2/ipc_receiver.py:205-212 | a victim sees exactly the named sources of flows to it, each flow adding its rate to its own source and no other |
| `Tiers.OtherHostsIrrelevant` | stage2/ipc_receiver.py:208-209 | leaving out the flows to other hosts changes no source's rate |
| `Tiers.OnlyLiveOwnFlowsMatter` | stage2/ipc_receiver.py:194-212 | so it changes no action, and an old or undated file leads to the actions of no file |
| `Tiers.LoadVictimFlowRates` | stage2/ipc_receiver.py:183-212 | rates summed by source toward the victim, each source once; nothing from a missing, undated or old file |
| `Tiers.SplittingKeepsRates` | stage2/ipc_receiver.py:205-212 | replacing a flow by flows of the same source with the same total keeps every source's rate |
| `Tiers.SplittingChangesNothing` | stage2/ipc_receiver.py:712-721 | such splitting changes no source's action |
| `Tiers.Enforce` | stage2/ipc_receiver.py:724-798 | the four tiers make exactly the calls `ActFor` gives, at most one per source, and report the highest tier |
| `Tiers.BlockFast` | stage2/ipc_receiver.py:743-755 | tier 2 blocks exactly the sources at or above the bar not already acted on |
| `Tiers.LimitElevated` | stage2/ipc_receiver.py:768-774 | tier 3 limits the remaining sources at or above the softer bar |
| `Tiers.CapEveryone` | stage2/ipc_receiver.py:784-796 | tier 4 limits every source, once each |
| `Tiers.BlocksExactly` | stage2/ipc_receiver.py:710-755 | supporting fact: a source is blocked exactly when ready and it is the concentrated dominant source or at or above the bar |
| `Tiers.PlanActsIff` | stage2/ipc_receiver.py:724-798 | the tiers act on some source exactly when there are live flows or a concentrated dominant source and the streak |
| `Tiers.Receiver.ProcessWindow` | stage2/ipc_receiver.py:687-828 | counter, tier record and calls of a window: every source gets exactly the action `WindowAct` gives, on class 2, on class 1 and with an unknown dominant source |
| `Tiers.CounterIsStreak` | stage2/ipc_receiver.py:687-690 | the counter reaches n exactly when the victim's last n windows were class 2 |
| `Tiers.BlockedIff` | stage2/ipc_receiver.py:697-755 | in every run a window blocks a source exactly when it is class 2 with a known dominant source, the victim's last block_hysteresis_windows windows were class 2, and the source is the dominant one with its share and rate above both thresholds or sends at or above floor and mean plus block_sigma deviations |
| `Tiers.LimitedIff` | stage2/ipc_receiver.py:757-828 | in every run a window rate-limits a source exactly when, on class 2, it does not block it and the source is at or above the softer bar or nobody is above any, or, on class 1, it is the concentrated dominant source |
| `Tiers.CallRates` | stage2/ipc_receiver.py:724-828 | the rate reported with each call |
| `Tiers.ActedOnIff` | stage2/ipc_receiver.py:697-828 | in every run a window leads to a call exactly when its dominant source is known and it is class 2 with live flows or a concentrated source and the streak, or class 1 with a concentrated source |
| `Tiers.UnknownDominantActsOnNobody` | stage2/ipc_receiver.py:699-700 | a window without a known dominant source leads to no call |
| `Tiers.WarmupIsUnenforced` | stage1/src/analysis.rs:662-688 | for every configuration a window as sent during warm-up is class 2 through the overrides, has a source above the block bar, and leads to no call |
| `Enforcement.TakeNewest` | stage2/enforcement.py:55-71 | sorting and cutting keeps the wanted number of entries, none older than one left out |
| `Enforcement.Enforcer.RecordDdosSource` | stage2/enforcement.py:35-52 | a block records its address, anything else clears it, and the cap is kept by pruning |
| `Enforcement.RecordAfter` | stage2/enforcement.py:35-71 | the attacker record after any incident: the address added or removed, or over the cap the newest nine tenths left |
| `Enforcement.Enforcer.RatelimitIp` | stage2/enforcement.py:274-313 | the whole state after a rate-limit call |
| `Enforcement.Enforcer.Block` | stage2/enforcement.py:229-272 | the whole state after a block call, shared addresses limited instead |
| `Enforcement.AlwaysSafe` | stage2/enforcement.py:229-313 | over any calls no whitelisted address is in either set, no shared address in the blocklist, and the attacker record stays within its cap |
| `Enforcement.DebouncedIff` | stage2/enforcement.py:229-234 | over any calls, a call is debounced exactly when less than 10 seconds passed since the latest call about its address that was not |
| `Enforcement.BlocklistIff` | stage2/enforcement.py:229-272 | over any calls, an address is in the blocklist exactly when an accepted, not debounced block of it, on neither list, has no release after it |
| `Enforcement.RatelimitIff` | stage2/enforcement.py:249-313 | the same for the rate-limit set and a limit, or a block of a shared address |
| `Enforcement.LogGrows` | stage2/enforcement.py:229-340 | the one log entry a call adds when it takes effect, and none otherwise |
| `Enforcement.AddsSpaced` | stage2/enforcement.py:231-313 | adds for one address are at least 10 - d seconds apart, d the delay between a block's two clock readings |
| `Enforcement.SpacingIsTight` | stage2/enforcement.py:249-256 | two adds of a shared address exactly 10 - d seconds apart can happen |
| `Enforcement.LiveIsLatest` | stage2/enforcement.py:35-71 | below the cap the live record is each address's latest action in the log, when that was a block |
| `Enforcement.LatestByLast` | stage2/enforcement.py:95-102 | the latest row of an address alone decides its entry |
| `Enforcement.LoadDdosSources` | stage2/enforcement.py:74-102 | the newest-first replay stays within the cap and, below cap and log limit, rebuilds what the log says |
| `Enforcement.Restart` | stage2/enforcement.py:74-105 | below cap and log limit the replay rebuilds exactly the map the live process held |
| `AutoLabel.FeaturesByPosition` | stage2/auto_label.py:190-208 | on both capture headers the features are the eleven columns and the three derived values, and a row is degenerate exactly when its six named columns are 0 |
| `AutoLabel.FeaturesIff` | stage2/auto_label.py:190-208 | on both capture headers a row has features exactly when its eleven columns read as finite numbers |
| `AutoLabel.Columns` | stage2/auto_label.py:40-46 | supporting fact: the timestamp and label columns carry those names |
| `AutoLabel.TieBreakIrrelevant` | stage2/auto_label.py:79-101 | with a threshold above 1/2 and probabilities summing to 1, any choice of top index gives the same label |
| `AutoLabel.TieBreakMatters` | stage2/auto_label.py:95-101 | at every threshold of 1/2 or less some probabilities give different labels for different choices |
| `AutoLabel.ScoreRows` | stage2/auto_label.py:237-292 | the two passes, with a clock reading per row, split the rows into kept, staged and corrupt, each in its order |
| `AutoLabel.LabelScorable` | stage2/auto_label.py:270-289 | the second pass over the scorable rows |
| `AutoLabel.StagedAreLabeled` | stage2/auto_label.py:285-289 | the staged list is the labeled rows, one by one and in order, each in its staged form |
| `AutoLabel.ScorePartition` | stage2/auto_label.py:237-292 | every row is in exactly one of kept, labeled and corrupt |
| `AutoLabel.KeptOrder` | stage2/auto_label.py:237-281 | kept rows are those refused before scoring, then those scored without a label, each in their order |
| `AutoLabel.EligibleMeansAged` | stage2/auto_label.py:49-59 | eligible means older than the delay and older than every model, non-finite timestamps included |
| `AutoLabel.LabeledIff` | stage2/auto_label.py:246-289 | at every threshold a row gets a class exactly when it is aged, finite, not degenerate and both models rank that class top, first among equals, at or above the threshold |
| `AutoLabel.LabeledOnlyThroughGate` | stage2/auto_label.py:246-289 | one direction of it, whatever the models return |
| `AutoLabel.AnyTopAgrees` | stage2/auto_label.py:93-101 | above 1/2 being first among equals is no condition |
| `AutoLabel.StagedForm` | stage2/auto_label.py:285-288 | a labeled row is staged with 13 columns, all but the label as captured |
| `AutoLabel.GateLabels` | stage2/auto_label.py:246-289 | above 1/2 a row that passes with any top class is labeled with it |
| `CaptureQueue.CaptureWriter.AppendCsvRow` | stage2/ipc_receiver.py:121-180 | the receiver's state after a row, lock free or held |
| `CaptureQueue.ReceivedGoes` | stage2/ipc_receiver.py:131-176 | where a received row and the waiting ones go: given up beyond the bound, waiting while the lock is held, given up at a full file, appended otherwise |
| `CaptureQueue.BytesAdd` | stage2/ipc_receiver.py:154-155 | supporting fact: a file's size is the sum of its lines |
| `CaptureQueue.RewriteDrops` | stage2/auto_label.py:130-155 | what a rewrite gives up: the rows beyond the bounded read, and those not as wide as the header |
| `CaptureQueue.NothingLostIff` | stage2/ipc_receiver.py:131-176 | in every interleaving nothing is lost exactly when each row was received with room in the queue and the lock held or the file below its cap, and each rewrite read everything and found no row of a wrong width |
| `CaptureQueue.HarmlessInOrder` | stage2/ipc_receiver.py:131-176 | so without a rewrite, while queue and file stay within bounds, nothing is dropped and file followed by queue is what was received, in order |
| `CaptureQueue.RoundBegins` | stage2/auto_label.py:305-313 | an idle labeler locks, snapshots the file with its size and goes on to score, or stops when there is no file |
| `CaptureQueue.ScoreSwapsIff` | stage2/auto_label.py:320-322 | scoring leads to a swap exactly when the read was bounded or some row is labeled or corrupt |
| `CaptureQueue.ReadRows` | stage2/auto_label.py:130-155 | the bounded read keeps the newest rows and reports whether any were left out |
| `CaptureQueue.AppendedFound` | stage2/auto_label.py:226-234 | seeking to the old size of a grown file finds exactly the rows added since |
| `CaptureQueue.CaptureFiles.SwapIn` | stage2/auto_label.py:324-332 | the swap in place is `SwapOf`: nothing if the file shrank, else every labeled row staged and the file replaced by kept plus appended rows |
| `CaptureQueue.StepsAreSwap` | stage2/auto_label.py:315-332 | scoring, staging line by line and rewriting as separate steps come to that same outcome |
| `CaptureQueue.ScoreTracked` | stage2/auto_label.py:315-328 | between snapshot and swap the file only grows, so the swap is never abandoned |
| `CaptureQueue.Conserved` | stage2/auto_label.py:305-332 | in every state of every interleaving each received row is in exactly one of queue, file, staged file or accounted drop, rows of a half-done swap being in both file and staged file, and every staged line is the staged form of the row it came from |
| `CaptureQueue.ConservedWhenNotSwapping` | stage2/ipc_receiver.py:131-180 | outside a swap the four places hold exactly the received rows, the staged ones in their staged form |
| `CaptureQueue.SwapKeepsAppended` | stage2/auto_label.py:324-332 | rows appended while scoring survive the swap once and in order |
| `CaptureQueue.ReceiverNeverWaits` | stage2/ipc_receiver.py:131-148 | supporting fact: the receiver's step is taken in every state, within the queue bound; with the lock held the file is untouched and only the oldest waiting rows give way |
| `CaptureQueue.ReceivedInOrder` | stage2/ipc_receiver.py:167-174 | until a swap and without drops, file followed by queue is what was received, in order |
| `Playbooks.TriggersMonotone` | stage2/playbooks.py:73-95 | a worse window fires every trigger combination a milder one fires |
| `Playbooks.TriggersByNumbers` | stage2/playbooks.py:73-95 | when a playbook's triggers fire, from the window's tier, streak and hosts, for both modes |
| `Playbooks.StartsByFields` | stage2/playbooks.py:111-120 | which playbooks start: enabled, for this host or all, not running for it, readable, with fired triggers |
| `Playbooks.NewRunsAre` | stage2/playbooks.py:121-126 | every run a check adds is a fresh one of such a playbook, for the window's host and source |
| `Playbooks.StartsExactly` | stage2/playbooks.py:98-126 | a check makes active exactly the playbooks whose trigger fired and that were not running for the host |
| `Playbooks.PlaybookStore.CheckAndStartRuns` | stage2/playbooks.py:111-126 | the loop that starts runs |
| `Playbooks.PlaybookStore.AdvanceRuns` | stage2/playbooks.py:141-164 | the loop that fires stages and completes runs |
| `Playbooks.AdvanceInOrder` | stage2/db.py:267-301 | advancing fires the current stage exactly when its delay has passed, and nothing else |
| `Playbooks.AlwaysOrderly` | stage2/playbooks.py:111-164 | in every reachable state: at most one running run per playbook and host; a run's events are its stages in order, once each, none before its time; a completed run fired every stage |
| `Playbooks.PassOnOne` | stage2/playbooks.py:142-164 | a pass over all runs does to each run what advancing it alone does |
| `Playbooks.Completes` | stage2/playbooks.py:129-164 | passes spaced by the longest delay each fire one stage, so a run completes after as many as it has stages left |
| `TrainingBalance.SortCorrect` | stage2/training_balance.py:46-46 | the sort is by time, a permutation and stable |
| `TrainingBalance.AssignSessions` | stage2/training_balance.py:43-60 | the loop numbers sessions |
| `TrainingBalance.SameSession` | stage2/training_balance.py:54-56 | two rows share a session exactly when no gap over 30 seconds and no change of class lies between |
| `TrainingBalance.SessionByTimes` | stage2/training_balance.py:50-57 | the same in times and classes |
| `TrainingBalance.CountClasses` | stage2/training_balance.py:71-74 | the class counts |
| `TrainingBalance.CollectSessions` | stage2/training_balance.py:79-85 | the DDoS sessions in order of appearance, with their sizes |
| `TrainingBalance.TakeSessions` | stage2/training_balance.py:88-94 | the greedy choice and its running total |
| `TrainingBalance.TrimDdosSessions` | stage2/training_balance.py:63-101 | the service's trim |
| `TrainingBalance.TrimDdosSessionsInScript` | scripts/trim_ddos_class.py:80-122 | the script's trim |
| `TrainingBalance.TrimGuarantees` | stage2/training_balance.py:63-101 | DDoS rows end at or below an unchanged cap, so no more than Normal and no more than Flash Crowd rows, kept plus dropped is what there was, all other rows survive in order |
| `TrainingBalance.SessionsWhole` | stage2/training_balance.py:97-100 | a session stays or goes whole |
| `TrainingBalance.NothingMoreFits` | stage2/training_balance.py:88-94 | no removed session would still fit under the cap |
| `TrainingBalance.TrimIdempotent` | stage2/training_balance.py:76-77 | a second trim, with any shuffle, drops nothing |
| `TrainingBalance.ImplementationsAgree` | scripts/trim_ddos_class.py:80-122 | both implementations agree exactly when something is trimmed or the rows came sorted |
| `TrainingBalance.NeighboursBreak` | stage2/training_balance.py:97-100 | rows that become neighbours are split by a new detection exactly when they were in different sessions, unless bridged |
| `TrainingBalance.SessionsNeverSplit` | stage2/training_balance.py:43-60 | detection on the output splits no kept session |
| `TrainingBalance.DdosSessionsNeverMerge` | stage2/training_balance.py:43-60 | and merges no two DDoS sessions |
| `TrainingBalance.NormalSessionsCanMerge` | stage2/training_balance.py:63-101 | a three-row input on which two Normal sessions merge |

## Left out

- Header parsing, BPF attachment and libpcap: the backends start from parsed packets, and the two parsers are not compared.
- BaselineDrift.BoundedForever: asks for a reference weight of at most 1, because above it the bound is false (`BaselineDrift.BandNeedsSmallWeight`), and for sample counts within the recency cap, which every file the sensor writes has.
- Full kernel maps and full target tables: a map is never full, a subnet prefix that is too long to load is not modelled as a failed start, and in `KernelCapture` every protected host is tracked.
- Wire.DecodedIsDelivered: speaks of the frames a connection carried; what Stage 2 handles of them is `Wire.AbandonedTail`, and a vector that was decoded but whose handling failed counts as decoded.
- A drain reads and deletes a key in one step and takes a key once; a packet between the read and the delete of one key is not modelled.
- KernelCapture.BackendsAgreeIff: says nothing about TTL moments beyond 500 packets in a window, where batches and single updates really differ.
- Flow tables of the two backends: counted on different sides of the protection check and not meant to agree.
- The classifiers, training scripts and feature scaling: a classifier is any function to a class or to probabilities.
- Window timing, heartbeat, egress drop ratio, log lines, alerts and the reporting flag of the sender's socket.
- The trim of an over-long capture file by timestamp: the bounded read before it returns at most the cap (`CaptureQueue.ReadRows`), so on the scoring path it never removes anything.
- The trim-only path without models, and the merge and discard routes of the review page: they take no capture lock.
- Two labelers at once, failing file writes, and a database write that fails.
- AutoLabel.ScoreRows: takes the two models' probabilities row by row, where the source asks for all rows at once.
- Enforcement.LoadDdosSources: does not model a failing database read, which leaves the record empty.
- Expiry of kernel set entries, and edits of the whitelist, shared list and playbook definitions while running.
- Subnet-scoped playbooks: stored by the source but matched by no window there either.
- Executing a stage (alerts, reports, the enforcement call): its effect outside the run tables is not modelled.
- Rows whose timestamp is not a number in the trim: the source raises an error on them.
- Web routes, sessions, users, dashboards, reports, calibration and benchmark scripts.
