# Single-producer sequencer of the Disruptor, modelled in Dafny

The Disruptor hands events from threads to threads through a ring of
`bufferSize` slots. Positions in an unbounded index space map onto the slots.
This project models the producer side of one sequencing strategy: the
single-producer sequencer and the position counter it is built on.

On the producer side, one thread claims positions. It writes their slots and
then publishes the positions by moving a shared cursor. The claim must never
overwrite a slot that the slowest consumer (a *gating* position) has not yet
read. With exactly one claiming thread, the sequencer is sequential
bookkeeping: compute a wrap point, compare it with the slowest consumer,
advance the last claimed position.

- `util.dfy`: module `Util`, a stand-in for the library's minimum-of-sequences
  helper, whose source is not part of this model. It is an assumption, not
  visible code: the minimum of a default and every gating value, scanned left
  to right. With no gating value it returns the default.
- `sequence.dfy`: module `Positions`, class `Sequence`. This is the position
  counter, one mutable `value` field. Its operations are a read (`Get`), two
  stores, compare-and-set, and the add-and-get retry loop.
- `sequenced.dfy`: module `Sequenced`, the producer-facing contract. It holds
  the claim outcome (`Claim`, with failures `IllegalArgument` and
  `InsufficientCapacity`) and the block a claim hands out (`Low`, `Block`). It
  also holds the "claims exactly the next n positions" relation (`ClaimsNext`)
  and the "slots written" precondition of publishing (`Filled`). It proves that
  successive claims which honour the contract cover the index space with no
  gap and no overlap.
- `single_producer_sequencer.dfy`: module `SingleProducer`. It holds the
  capacity arithmetic as functions (`WrapPoint`, `Rescans`, `Fits`,
  `CheckCapacity`, `RemainingCapacityOf`, `FirstFit`) and the class
  `SingleProducerSequencer`. The class has fields `nextValue`, `cachedValue`,
  `cursor`, `gating` and a ghost `filled`. Its object invariant `Valid()` is
  "the ring has at least one slot, the cache is a lower bound on every
  consumer, and every published position has had its slot written".
- `scenarios.dfy`: module `Scenarios`, client runs written against the
  contracts alone.

Consumers run on other threads. Here they act only through
`ConsumerAdvances`, which moves one consumer's position forward and never
back. That rule keeps `cachedValue` a lower bound on every consumer and makes
the fast path of the capacity check sound. The blocking `next(n)` pauses
between re-scans of the gating positions. `Next` therefore takes the
consumers' positions as seen after each pause (`schedule`, each snapshot
advanced from the one before). It requires that the last snapshot leaves room:
consumers must make progress eventually. Its postcondition names the snapshot
at which the claim goes ahead: the first one with room (`FirstFit`).

The producer writes slots only after claiming them (`Fill`). Publishing
moves the cursor over every position up to the published one, so `Publish`
requires all of them to be written. `PublishRange` also requires blocks to be
published in the order they were claimed. A position is therefore available
only after its slot has been written (`IsAvailable`).

Two behaviours of the code are worth knowing:
- A failed `tryNext(n)` claims nothing, but the capacity check it runs may
  already have refreshed `cachedValue`. Only `nextValue` is guaranteed
  unchanged (`TryNext`).
- The minimum helper folds the default into the minimum in every case. With
  no consumer it returns the default, and the minimum never exceeds
  `nextValue`. `remainingCapacity` and the capacity check rely on that bound.

## Model

| member | source | states |
|---|---|---|
| `Util.MinimumSequence` | src/main/java/com/lmax/disruptor/SingleProducerSequencer.java:68 | the result is at most the default and every gating value, and it equals the default or one of the values |
| `Positions.Sequence.constructor` | src/main/java/com/lmax/disruptor/Sequence.java:65-67 | a new counter starts at the sentinel -1 |
| `Positions.Sequence.WithInitialValue` | src/main/java/com/lmax/disruptor/Sequence.java:72-74 | a new counter starts at the given value |
| `Positions.Sequence.Get` | src/main/java/com/lmax/disruptor/Sequence.java:79-81 | the current position: the value the last store, successful compare-and-set or addition left in the counter |
| `Positions.Sequence.Set` | src/main/java/com/lmax/disruptor/Sequence.java:86-88 | afterwards the counter, and `Get()`, hold the stored value |
| `Positions.Sequence.SetVolatile` | src/main/java/com/lmax/disruptor/Sequence.java:93-95 | afterwards the counter, and `Get()`, hold the stored value |
| `Positions.Sequence.CompareAndSet` | src/main/java/com/lmax/disruptor/Sequence.java:100-102 | succeeds exactly when the counter held the expected value; then it holds the new value, otherwise it is unchanged |
| `Positions.Sequence.AddAndGet` | src/main/java/com/lmax/disruptor/Sequence.java:114-125 | the retry loop ends with the counter at old value plus the increment and returns that value |
| `Positions.Sequence.IncrementAndGet` | src/main/java/com/lmax/disruptor/Sequence.java:107-109 | the counter rises by exactly one and the new value is returned |
| `Sequenced.Block` | src/main/java/com/lmax/disruptor/Sequenced.java:25-38 | a claim of n returning high hands out n consecutive positions from high - (n - 1) to high |
| `Sequenced.SuccessiveClaimsTile` | src/main/java/com/lmax/disruptor/Sequenced.java:25-38 | blocks of successive claims that each take the n positions after the previous claim, concatenated, are exactly the positions after the start, each once, in order |
| `Sequenced.SuccessiveClaimsExtend` | src/main/java/com/lmax/disruptor/Sequenced.java:25-38 | one more claim honouring the contract extends a run of successive claims |
| `SingleProducer.AdvancingTransitive` | src/main/java/com/lmax/disruptor/SingleProducerSequencer.java:109 | consumer snapshots that each advance the one before advance every earlier one |
| `SingleProducer.CheckCapacityExact` | src/main/java/com/lmax/disruptor/SingleProducerSequencer.java:52-79 | while the cache is a lower bound on every consumer, the cached fast path never answers wrongly: the check is true exactly when the wrap point does not pass the minimum of the consumers and the producer, and the refreshed cache is again a lower bound |
| `SingleProducer.FitsKeepsWithinLap` | src/main/java/com/lmax/disruptor/SingleProducerSequencer.java:105-118 | a claim that fits leaves the producer at most one lap ahead of every consumer |
| `SingleProducer.RemainingCapacityOf` | src/main/java/com/lmax/disruptor/SingleProducerSequencer.java:152-161 | at most the ring size, the full ring size when no consumer is behind the producer, and a claim of n fits exactly when n is at most it |
| `SingleProducer.FirstFit` | src/main/java/com/lmax/disruptor/SingleProducerSequencer.java:109-111 | the wait ends at the first observation of the consumers that leaves room, and no earlier observation left room |
| `SingleProducer.FirstFitUnique` | src/main/java/com/lmax/disruptor/SingleProducerSequencer.java:109-111 | an observation with room that follows only observations without room is the one at which the wait ends |
| `SingleProducer.OversizedClaimNeverFits` | src/main/java/com/lmax/disruptor/SingleProducerSequencer.java:94-111 | a claim of more slots than the ring holds never fits, whatever the consumers' positions, so the wait in `next(n)` never ends |
| `SingleProducer.SingleProducerSequencer.constructor` | src/main/java/com/lmax/disruptor/SingleProducerSequencer.java:27-30 | a fresh sequencer has last claimed position and cache both at -1, a fresh cursor at -1, the given ring size and consumers, and is within one lap of them |
| `SingleProducer.SingleProducerSequencer.GetBufferSize` | src/main/java/com/lmax/disruptor/Sequenced.java:8 | the ring size, at least one |
| `SingleProducer.SingleProducerSequencer.HasAvailableCapacity` | src/main/java/com/lmax/disruptor/SingleProducerSequencer.java:52-79 | never changes the last claimed position; true exactly when the slots fit; on a rescan, the cache becomes the minimum of the consumers and the producer; on the fast path, the cache is unchanged |
| `SingleProducer.SingleProducerSequencer.Next` | src/main/java/com/lmax/disruptor/SingleProducerSequencer.java:93-119 | n < 1 fails with an illegal argument and changes nothing. Otherwise it returns the new last position, old plus n, claiming exactly the n positions after the old one. The wait ends at the first consumer snapshot with room, the refreshed cache is that snapshot's minimum, and the producer stays within one lap of every consumer |
| `SingleProducer.SingleProducerSequencer.AwaitCapacity` | src/main/java/com/lmax/disruptor/SingleProducerSequencer.java:106-111 | the re-scanning wait stops at the first consumer snapshot with room, consumers have only advanced, and the returned minimum lets the claim go ahead |
| `SingleProducer.SingleProducerSequencer.NextOne` | src/main/java/com/lmax/disruptor/SingleProducerSequencer.java:85-87 | claims exactly one more position and returns it; the wait ends at the first consumer snapshot with room and the cache is refreshed as in `Next`; the producer stays within one lap of every consumer |
| `SingleProducer.SingleProducerSequencer.NextBounded` | src/main/java/com/lmax/disruptor/SingleProducerSequencer.java:93-119 | as `Next` (exact advance, the first snapshot with room ends the wait, the refreshed cache, within one lap), but a claim of more slots than the ring holds fails with an illegal argument and changes nothing instead of waiting forever |
| `SingleProducer.SingleProducerSequencer.TryNext` | src/main/java/com/lmax/disruptor/SingleProducerSequencer.java:133-146 | n < 1 fails with an illegal argument and changes nothing. Without room it fails with insufficient capacity and claims nothing. With room it advances the last claimed position by exactly n and returns it, within one lap of every consumer |
| `SingleProducer.SingleProducerSequencer.TryNextOne` | src/main/java/com/lmax/disruptor/SingleProducerSequencer.java:125-127 | the single-slot case of `TryNext`: fails for capacity and claims nothing when one slot does not fit, otherwise claims exactly one; the cache is the one left by the capacity check |
| `SingleProducer.SingleProducerSequencer.RemainingCapacity` | src/main/java/com/lmax/disruptor/SingleProducerSequencer.java:152-161 | at most the ring size, the full ring size with no consumers, and a claim of n fits exactly when n is at most it; it changes nothing |
| `SingleProducer.SingleProducerSequencer.Claim` | src/main/java/com/lmax/disruptor/SingleProducerSequencer.java:167-169 | sets the last claimed position and nothing else |
| `SingleProducer.SingleProducerSequencer.Fill` | src/main/java/com/lmax/disruptor/Sequenced.java:50-58 | the producer writes only claimed slots; the slots of [lo, hi] are now written, in addition to those written before |
| `SingleProducer.SingleProducerSequencer.Publish` | src/main/java/com/lmax/disruptor/SingleProducerSequencer.java:175-180 | requires the slot of the position, and of every position published with it, to be written; the cursor becomes the position, and a position is then available exactly when it is at most the published one |
| `SingleProducer.SingleProducerSequencer.PublishRange` | src/main/java/com/lmax/disruptor/SingleProducerSequencer.java:186-188 | requires every slot of the block to be written and the block to follow what is already published; same effect as publishing its high end: every position of the block is available, the next one is not |
| `SingleProducer.SingleProducerSequencer.IsAvailable` | src/main/java/com/lmax/disruptor/SingleProducerSequencer.java:195-197 | a position past the initial sentinel is available only once its slot has been written |
| `SingleProducer.SingleProducerSequencer.GetHighestPublishedSequence` | src/main/java/com/lmax/disruptor/SingleProducerSequencer.java:200-202 | returns the available position unchanged; when that position is published, so is every position from the lower bound up to it |
| `Scenarios.ClaimOneAtATime` | src/main/java/com/lmax/disruptor/SingleProducerSequencer.java:93-118 | from a fresh sequencer with no consumers, or one lap with consumers at -1, single claims return 0, 1, 2, ... in order |
| `Scenarios.ClaimBatches` | src/main/java/com/lmax/disruptor/Sequenced.java:25-38 | batch claims from a fresh sequencer hand out 0, 1, 2, ... with no gap and no overlap |
| `Scenarios.LapScenario` | src/main/java/com/lmax/disruptor/SingleProducerSequencer.java:93-146 | ring of four, one consumer at -1: claiming four returns 3; a further try fails for capacity; a blocking claim goes ahead once the consumer reaches 0 and returns 4 |
| `Scenarios.PublishScenario` | src/main/java/com/lmax/disruptor/SingleProducerSequencer.java:175-197 | a claimed block is unavailable before its publish; afterwards its low and high ends are available and the position after it is not |

## Left out

- Cache-line padding classes around the counter and the sequencer fields: layout only, no behaviour.
- `Unsafe`, the value's field offset and the memory ordering of each store: ordered stores, fenced stores and compare-and-swap all become plain field reads and writes.
- Concurrency: the linearizability of the add-and-get retry loop under contention is not modelled. Sequentially, its first attempt always succeeds.
- The pause (`parkNanos`) in the wait of `next(n)`: thread suspension is replaced by the `schedule` of consumer snapshots observed after each pause.
- The wait strategy's wake-up call on publish: a call into a collaborator that is not part of this model; it is a no-op here.
- The consumer-side barrier interface (waiting, alerts, timeouts, interrupts): cross-thread waiting, which this sequential model cannot express.
- `toString` of the counter: formatting only.
- The abstract sequencer base class is not part of this model. Its contribution is replaced by the constructor's `bufferSize`, `gating` and `cursor` (a fresh counter at -1). Adding or removing gating sequences after construction is not modelled: the set of consumers is fixed at construction.
- Gating positions are values held by the sequencer, not shared counter objects. Aliasing between a consumer's counter and the sequencer is not captured, and consumers move only through `ConsumerAdvances`.
- Java's 64-bit `long` and 32-bit `int` arithmetic: positions are unbounded integers and overflow is not modelled.
- The producer-facing interface is a module of contract predicates that the class's postconditions use; only one implementation is modelled.
- SingleProducer.SingleProducerSequencer.Next: requires that the last consumer snapshot leaves room (eventual consumer progress). A call that would wait forever, including every claim larger than the ring, is outside its precondition.
- SingleProducer.SingleProducerSequencer.TryNext: on failure only `nextValue` is guaranteed unchanged, because the code's capacity check may refresh `cachedValue` before the failure is signalled.
- SingleProducer.SingleProducerSequencer.PublishRange: requires `lo <= hi`, the shape of every block a claim hands out, and `lo` no later than just after the cursor (blocks published in claim order), so that every position the cursor moves over is known to be written.
- SingleProducer.SingleProducerSequencer.Publish: requires every position between the cursor and `sequence` to be written, not only `sequence` itself, because a publish makes all of them available. Whether published positions were claimed is checked only through `Fill`, which writes claimed slots only.
- SingleProducer.SingleProducerSequencer.constructor: requires every initial consumer position to be at least -1, the counter's sentinel, so that the initial cache of -1 is a lower bound.

## Findings

| source | as written | input that shows it | evidently intended | confidence | as-written member | corrected member |
|---|---|---|---|---|---|---|
| src/main/java/com/lmax/disruptor/SingleProducerSequencer.java:94-111 | `next(n)` rejects only n < 1; for n larger than the ring, the wrap point exceeds `nextValue`, which bounds the minimum the wait compares it with, so the wait loop never exits | ring of 4 slots, fresh sequencer, `next(5)`: wrap point 0, minimum at most -1, forever | reject a claim of more than `bufferSize` slots as an illegal argument | medium, not executed | `SingleProducer.OversizedClaimNeverFits` | `SingleProducer.SingleProducerSequencer.NextBounded` |
