/** The single-producer sequencer: the claim and publish bookkeeping of the one
    thread that writes into the ring. It tracks the last claimed position
    (`nextValue`), a cached lower bound on the slowest consumer
    (`cachedValue`), the published position (`cursor`) and the consumers'
    positions (`gating`), and never lets a claim run more than one lap of the
    ring ahead of the slowest consumer. */
module SingleProducer {
  import opened Util
  import opened Positions
  import opened Sequenced

  /** The position a claim of n more slots would overwrite once the ring wraps. */
  function WrapPoint(nextValue: int, n: int, bufferSize: int): int
  {
    nextValue + n - bufferSize
  }

  /** The cached bound is no good for this claim, so the gating positions
      must be scanned again: either the claim would pass it, or it
      claims a consumer is ahead of the producer. */
  predicate Rescans(nextValue: int, cachedValue: int, wrapPoint: int)
  {
    wrapPoint > cachedValue || cachedValue > nextValue
  }

  /** n more slots fit: the claim does not overwrite a slot that the slowest
      consumer (or, with no consumer, the producer itself) has not passed. */
  predicate Fits(bufferSize: int, nextValue: int, gating: seq<int>, n: int)
  {
    WrapPoint(nextValue, n, bufferSize) <= MinimumSequence(gating, nextValue)
  }

  /** `x` is no greater than any consumer position. */
  ghost predicate AtOrBelowAll(x: int, gating: seq<int>)
  {
    forall i :: 0 <= i < |gating| ==> x <= gating[i]
  }

  /** The producer is at most one lap ahead of every consumer. */
  ghost predicate WithinLap(nextValue: int, gating: seq<int>, bufferSize: int)
  {
    forall i :: 0 <= i < |gating| ==> nextValue - gating[i] <= bufferSize
  }

  /** Consumers only move forward: `after` is `before` with some positions advanced. */
  ghost predicate AdvancedFrom(before: seq<int>, after: seq<int>)
  {
    |before| == |after| && forall i :: 0 <= i < |before| ==> before[i] <= after[i]
  }

  /** Successive snapshots of the consumer positions, each advanced from the one before. */
  ghost predicate Advancing(observations: seq<seq<int>>)
  {
    forall k :: 0 < k < |observations| ==> AdvancedFrom(observations[k - 1], observations[k])
  }

  lemma {:induction false} AdvancingTransitive(observations: seq<seq<int>>, i: nat, j: nat)
    requires Advancing(observations)
    requires i <= j < |observations|
    ensures AdvancedFrom(observations[i], observations[j])
    decreases j - i
  {
    if i < j {
      AdvancingTransitive(observations, i, j - 1);
      assert AdvancedFrom(observations[j - 1], observations[j]);
    }
  }

  /** Result of a capacity check: the answer and the refreshed cache. */
  datatype CapacityCheck = CapacityCheck(available: bool, cachedValue: int)

  /** The capacity check: the cached fast path, else a scan of the consumer
      positions that also refreshes the cache. */
  function CheckCapacity(bufferSize: int, nextValue: int, cachedValue: int,
                         gating: seq<int>, n: int): CapacityCheck
  {
    var wrapPoint := WrapPoint(nextValue, n, bufferSize);
    if Rescans(nextValue, cachedValue, wrapPoint) then
      var minSequence := MinimumSequence(gating, nextValue);
      CapacityCheck(wrapPoint <= minSequence, minSequence)
    else
      CapacityCheck(true, cachedValue)
  }

  /** As long as the cache is a lower bound on every consumer, the fast path
      never answers wrongly: the check says yes exactly when n slots fit, and
      the cache it leaves behind is again a lower bound. */
  lemma CheckCapacityExact(bufferSize: int, nextValue: int, cachedValue: int,
                           gating: seq<int>, n: int)
    requires AtOrBelowAll(cachedValue, gating)
    ensures CheckCapacity(bufferSize, nextValue, cachedValue, gating, n).available
            <==> Fits(bufferSize, nextValue, gating, n)
    ensures AtOrBelowAll(CheckCapacity(bufferSize, nextValue, cachedValue, gating, n).cachedValue, gating)
  {
  }

  /** A successful claim stays within one lap of every consumer. */
  lemma FitsKeepsWithinLap(bufferSize: int, nextValue: int, gating: seq<int>, n: int)
    requires Fits(bufferSize, nextValue, gating, n)
    ensures WithinLap(nextValue + n, gating, bufferSize)
  {
  }

  /** The spare slots: the ring size less the distance from the slowest
      consumer (the producer itself when no consumer is behind) to the
      producer. A claim of n slots fits exactly when n is at most this. */
  function RemainingCapacityOf(bufferSize: int, nextValue: int, gating: seq<int>): (r: int)
    ensures r <= bufferSize
    ensures AtOrBelowAll(nextValue, gating) ==> r == bufferSize
    ensures forall n :: Fits(bufferSize, nextValue, gating, n) <==> n <= r
  {
    var consumed := MinimumSequence(gating, nextValue);
    var produced := nextValue;
    bufferSize - (produced - consumed)
  }

  /** A claim of more slots than the ring holds never fits, whatever the
      consumers do: the wrap point lies beyond the producer's own position,
      which bounds the minimum the wait compares it with. */
  lemma OversizedClaimNeverFits(bufferSize: int, nextValue: int, gating: seq<int>, n: int)
    requires n > bufferSize
    ensures !Fits(bufferSize, nextValue, gating, n)
  {
  }

  /** The index of the first observation of the consumers at which n slots
      fit: how long the producer waits before its claim goes ahead. */
  function FirstFit(bufferSize: int, nextValue: int, observations: seq<seq<int>>, n: int): (j: nat)
    requires |observations| > 0
    requires Fits(bufferSize, nextValue, observations[|observations| - 1], n)
    ensures j < |observations|
    ensures Fits(bufferSize, nextValue, observations[j], n)
    ensures forall i :: 0 <= i < j ==> !Fits(bufferSize, nextValue, observations[i], n)
    decreases |observations|
  {
    if Fits(bufferSize, nextValue, observations[0], n) then 0
    else 1 + FirstFit(bufferSize, nextValue, observations[1..], n)
  }

  /** The first observation with room is the only one with room and none before it. */
  lemma FirstFitUnique(bufferSize: int, nextValue: int, observations: seq<seq<int>>, n: int, k: nat)
    requires k < |observations|
    requires Fits(bufferSize, nextValue, observations[|observations| - 1], n)
    requires Fits(bufferSize, nextValue, observations[k], n)
    requires forall i :: 0 <= i < k ==> !Fits(bufferSize, nextValue, observations[i], n)
    ensures FirstFit(bufferSize, nextValue, observations, n) == k
  {
  }

  class SingleProducerSequencer {
    const bufferSize: int
    /** The last claimed position. */
    var nextValue: int
    /** A lower bound on the slowest consumer, as last computed. */
    var cachedValue: int
    /** The last published position. */
    const cursor: Sequence
    /** The consumers' positions, which the producer must not lap. */
    var gating: seq<int>
    /** The positions whose slots the producer has written. */
    ghost var filled: set<int>

    /** The ring has a slot, the cache is a lower bound on every consumer,
        and every published position has had its slot written. */
    ghost predicate Valid()
      reads this, cursor
    {
      bufferSize >= 1 && AtOrBelowAll(cachedValue, gating) &&
      Filled(filled, INITIAL_VALUE + 1, cursor.value)
    }

    /** A sequencer over a ring of `bufferSize` slots gated by consumers at
        the given positions, none of them before the initial sentinel. */
    constructor (bufferSize: int, gating: seq<int>)
      requires bufferSize >= 1
      requires AtOrBelowAll(INITIAL_VALUE, gating)
      ensures Valid()
      ensures this.bufferSize == bufferSize && this.gating == gating
      ensures nextValue == INITIAL_VALUE && cachedValue == INITIAL_VALUE
      ensures fresh(cursor) && cursor.value == INITIAL_VALUE
      ensures filled == {}
      ensures WithinLap(nextValue, this.gating, bufferSize)
    {
      this.bufferSize := bufferSize;
      this.gating := gating;
      nextValue := INITIAL_VALUE;
      cachedValue := INITIAL_VALUE;
      cursor := new Sequence();
      filled := {};
    }

    function GetBufferSize(): (r: int)
      reads this, cursor
      requires Valid()
      ensures r >= 1 && r == bufferSize
    {
      bufferSize
    }

    /** Whether `requiredCapacity` more slots fit right now. Never claims; it
        may refresh the cache. */
    method HasAvailableCapacity(requiredCapacity: int) returns (r: bool)
      requires Valid()
      modifies this`cachedValue
      ensures Valid()
      ensures r <==> Fits(bufferSize, nextValue, gating, requiredCapacity)
      ensures var c := CheckCapacity(bufferSize, nextValue, old(cachedValue), gating, requiredCapacity);
              r == c.available && cachedValue == c.cachedValue
      ensures !Rescans(nextValue, old(cachedValue), WrapPoint(nextValue, requiredCapacity, bufferSize))
              ==> cachedValue == old(cachedValue)
    {
      CheckCapacityExact(bufferSize, nextValue, cachedValue, gating, requiredCapacity);
      var nextValue := this.nextValue;
      var wrapPoint := (nextValue + requiredCapacity) - bufferSize;
      var cachedGatingSequence := this.cachedValue;
      if wrapPoint > cachedGatingSequence || cachedGatingSequence > nextValue {
        var minSequence := MinimumSequence(gating, nextValue);
        this.cachedValue := minSequence;
        if wrapPoint > minSequence {
          return false;
        }
      }
      return true;
    }

    /** Claims the next n slots, waiting for consumers to make room. Each
        `schedule` entry is the consumers' positions as seen after one pause
        of the wait; the consumers must eventually make room. Returns the
        highest claimed position. */
    method Next(n: int, schedule: seq<seq<int>>) returns (r: Claim)
      requires Valid()
      requires Advancing([gating] + schedule)
      requires n >= 1 ==> Fits(bufferSize, nextValue, ([gating] + schedule)[|schedule|], n)
      modifies this`nextValue, this`cachedValue, this`gating
      ensures Valid()
      ensures AdvancedFrom(old(gating), gating)
      ensures n < 1 ==> r == Failed(IllegalArgument) && nextValue == old(nextValue)
                        && cachedValue == old(cachedValue) && gating == old(gating)
      ensures n >= 1 ==> r == Claimed(nextValue) && nextValue == old(nextValue) + n
      ensures n >= 1 ==> ClaimsNext(old(nextValue), n, r.high)
      ensures n >= 1 ==> gating == ([old(gating)] + schedule)[FirstFit(bufferSize, old(nextValue), [old(gating)] + schedule, n)]
      ensures n >= 1 ==> cachedValue == if Rescans(old(nextValue), old(cachedValue), WrapPoint(old(nextValue), n, bufferSize))
                                        then MinimumSequence(gating, old(nextValue)) else old(cachedValue)
      ensures n >= 1 ==> WithinLap(nextValue, gating, bufferSize)
    {
      if n < 1 {
        return Failed(IllegalArgument);
      }
      var nextValue := this.nextValue;
      var nextSequence := nextValue + n;
      var wrapPoint := nextSequence - bufferSize;
      var cachedGatingSequence := this.cachedValue;
      if wrapPoint > cachedGatingSequence || cachedGatingSequence > nextValue {
        var minSequence := AwaitCapacity(n, schedule);
        this.cachedValue := minSequence;
      } else {
        CheckCapacityExact(bufferSize, nextValue, cachedValue, gating, n);
        FirstFitUnique(bufferSize, nextValue, [gating] + schedule, n, 0);
      }
      FitsKeepsWithinLap(bufferSize, nextValue, gating, n);
      this.nextValue := nextSequence;
      return Claimed(nextSequence);
    }

    /** The wait of Next: re-scans the consumers after each pause until the
        claim of n slots fits, and returns the minimum that let it go ahead. */
    method AwaitCapacity(n: int, schedule: seq<seq<int>>) returns (minSequence: int)
      requires Advancing([gating] + schedule)
      requires Fits(bufferSize, nextValue, ([gating] + schedule)[|schedule|], n)
      modifies this`gating
      ensures AdvancedFrom(old(gating), gating)
      ensures gating == ([old(gating)] + schedule)[FirstFit(bufferSize, nextValue, [old(gating)] + schedule, n)]
      ensures minSequence == MinimumSequence(gating, nextValue)
      ensures WrapPoint(nextValue, n, bufferSize) <= minSequence
    {
      ghost var observations := [gating] + schedule;
      var wrapPoint := nextValue + n - bufferSize;
      var k := 0;
      minSequence := MinimumSequence(gating, nextValue);
      while wrapPoint > minSequence
        invariant 0 <= k <= |schedule|
        invariant gating == observations[k]
        invariant minSequence == MinimumSequence(gating, nextValue)
        invariant forall i :: 0 <= i < k ==> !Fits(bufferSize, nextValue, observations[i], n)
        decreases |schedule| - k
      {
        // The producer pauses; meanwhile the consumers may move on.
        gating := schedule[k];
        k := k + 1;
        minSequence := MinimumSequence(gating, nextValue);
      }
      AdvancingTransitive(observations, 0, k);
      FirstFitUnique(bufferSize, nextValue, observations, n, k);
    }

    /** Claims the next n slots as Next does, but rejects a claim of more slots
        than the ring holds, which Next would wait for forever. */
    method NextBounded(n: int, schedule: seq<seq<int>>) returns (r: Claim)
      requires Valid()
      requires Advancing([gating] + schedule)
      requires 1 <= n <= bufferSize ==> Fits(bufferSize, nextValue, ([gating] + schedule)[|schedule|], n)
      modifies this`nextValue, this`cachedValue, this`gating
      ensures Valid()
      ensures AdvancedFrom(old(gating), gating)
      ensures (n < 1 || n > bufferSize) ==> r == Failed(IllegalArgument) && nextValue == old(nextValue)
                                            && cachedValue == old(cachedValue) && gating == old(gating)
      ensures 1 <= n <= bufferSize ==> r == Claimed(nextValue) && nextValue == old(nextValue) + n
      ensures 1 <= n <= bufferSize ==> ClaimsNext(old(nextValue), n, r.high)
      ensures 1 <= n <= bufferSize ==> gating == ([old(gating)] + schedule)[FirstFit(bufferSize, old(nextValue), [old(gating)] + schedule, n)]
      ensures 1 <= n <= bufferSize ==> cachedValue == if Rescans(old(nextValue), old(cachedValue), WrapPoint(old(nextValue), n, bufferSize))
                                                    then MinimumSequence(gating, old(nextValue)) else old(cachedValue)
      ensures 1 <= n <= bufferSize ==> WithinLap(nextValue, gating, bufferSize)
    {
      if n < 1 || n > bufferSize {
        return Failed(IllegalArgument);
      }
      r := Next(n, schedule);
    }

    /** Claims the next slot, waiting for room. */
    method NextOne(schedule: seq<seq<int>>) returns (r: Claim)
      requires Valid()
      requires Advancing([gating] + schedule)
      requires Fits(bufferSize, nextValue, ([gating] + schedule)[|schedule|], 1)
      modifies this`nextValue, this`cachedValue, this`gating
      ensures Valid()
      ensures AdvancedFrom(old(gating), gating)
      ensures r == Claimed(nextValue) && nextValue == old(nextValue) + 1
      ensures gating == ([old(gating)] + schedule)[FirstFit(bufferSize, old(nextValue), [old(gating)] + schedule, 1)]
      ensures cachedValue == if Rescans(old(nextValue), old(cachedValue), WrapPoint(old(nextValue), 1, bufferSize))
                             then MinimumSequence(gating, old(nextValue)) else old(cachedValue)
      ensures WithinLap(nextValue, gating, bufferSize)
    {
      r := Next(1, schedule);
    }

    /** Claims the next n slots if they fit now, and fails otherwise. A
        failure claims nothing, though the scan may have refreshed the cache. */
    method TryNext(n: int) returns (r: Claim)
      requires Valid()
      modifies this`nextValue, this`cachedValue
      ensures Valid()
      ensures n < 1 ==> r == Failed(IllegalArgument) && nextValue == old(nextValue)
                        && cachedValue == old(cachedValue)
      ensures n >= 1 ==> cachedValue == CheckCapacity(bufferSize, old(nextValue), old(cachedValue), gating, n).cachedValue
      ensures n >= 1 && !Fits(bufferSize, old(nextValue), gating, n)
              ==> r == Failed(InsufficientCapacity) && nextValue == old(nextValue)
      ensures n >= 1 && Fits(bufferSize, old(nextValue), gating, n)
              ==> r == Claimed(nextValue) && nextValue == old(nextValue) + n
      ensures r.Claimed? ==> ClaimsNext(old(nextValue), n, r.high) && WithinLap(nextValue, gating, bufferSize)
    {
      if n < 1 {
        return Failed(IllegalArgument);
      }
      var available := HasAvailableCapacity(n);
      if !available {
        return Failed(InsufficientCapacity);
      }
      FitsKeepsWithinLap(bufferSize, nextValue, gating, n);
      nextValue := nextValue + n;
      return Claimed(nextValue);
    }

    /** Claims the next slot if it is free now. */
    method TryNextOne() returns (r: Claim)
      requires Valid()
      modifies this`nextValue, this`cachedValue
      ensures Valid()
      ensures !Fits(bufferSize, old(nextValue), gating, 1)
              ==> r == Failed(InsufficientCapacity) && nextValue == old(nextValue)
      ensures Fits(bufferSize, old(nextValue), gating, 1)
              ==> r == Claimed(nextValue) && nextValue == old(nextValue) + 1
      ensures cachedValue == CheckCapacity(bufferSize, old(nextValue), old(cachedValue), gating, 1).cachedValue
    {
      r := TryNext(1);
    }

    /** The number of slots that could be claimed now. */
    function RemainingCapacity(): (r: int)
      reads this
      ensures r <= bufferSize
      ensures |gating| == 0 ==> r == bufferSize
      ensures forall n :: Fits(bufferSize, nextValue, gating, n) <==> n <= r
    {
      RemainingCapacityOf(bufferSize, nextValue, gating)
    }

    /** Force-sets the last claimed position, outside the capacity protocol. */
    method Claim(sequence: int)
      requires Valid()
      modifies this`nextValue
      ensures Valid()
      ensures nextValue == sequence
    {
      nextValue := sequence;
    }

    /** The producer writes the slots of [lo, hi]; the ring's storage itself
        is not part of this model. */
    ghost method Fill(lo: int, hi: int)
      requires Valid()
      requires hi <= nextValue
      modifies this`filled
      ensures Valid()
      ensures forall k :: k in filled <==> k in old(filled) || lo <= k <= hi
    {
      // The comprehension ranges over a sequence so that membership has a trigger.
      var written := Span(lo, if hi < lo then 0 else hi - lo + 1);
      forall k | lo <= k <= hi
        ensures k in written
      {
        assert written[k - lo] == k;
      }
      filled := filled + set k | k in written;
    }

    /** Makes position `sequence` visible to consumers. Its slot, and the slot
        of every position published with it, must be written. */
    method Publish(sequence: int)
      requires Valid()
      requires Filled(filled, cursor.value + 1, sequence)
      modifies cursor
      ensures Valid()
      ensures cursor.value == sequence
      ensures forall k :: IsAvailable(k) <==> k <= sequence
    {
      cursor.Set(sequence);
    }

    /** Makes the block [lo, hi] visible; every slot of it must be written,
        and blocks are published in the order they were claimed: the block
        starts no later than just after the published position. */
    method PublishRange(lo: int, hi: int)
      requires Valid()
      requires lo <= hi && Filled(filled, lo, hi)
      requires lo <= cursor.value + 1
      modifies cursor
      ensures Valid()
      ensures cursor.value == hi
      ensures forall k :: lo <= k <= hi ==> IsAvailable(k)
      ensures !IsAvailable(hi + 1)
    {
      Publish(hi);
    }

    /** Whether position `sequence` has been published. */
    predicate IsAvailable(sequence: int)
      reads this, cursor
      ensures IsAvailable(sequence) && Valid() && INITIAL_VALUE < sequence ==> sequence in filled
    {
      sequence <= cursor.Get()
    }

    /** The highest published position of a run that consumers may read, given
        the highest they saw available: with one producer, that position
        itself, since every position up to the cursor is already published. */
    function GetHighestPublishedSequence(lowerBound: int, availableSequence: int): (r: int)
      reads this, cursor
      ensures r == availableSequence
      ensures availableSequence <= cursor.value ==>
                forall k :: lowerBound <= k <= r ==> IsAvailable(k)
    {
      availableSequence
    }

    /** A consumer moves on to `position`; consumers never move back. */
    method ConsumerAdvances(i: int, position: int)
      requires Valid()
      requires 0 <= i < |gating| && gating[i] <= position
      modifies this`gating
      ensures Valid()
      ensures gating == old(gating)[i := position]
      ensures AdvancedFrom(old(gating), gating)
      ensures old(WithinLap(nextValue, gating, bufferSize)) ==> WithinLap(nextValue, gating, bufferSize)
    {
      gating := gating[i := position];
    }
  }
}
