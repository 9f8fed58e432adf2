/** Client runs of the sequencer, written against its contracts alone. */
module Scenarios {
  import opened Positions
  import opened Sequenced
  import opened SingleProducer

  /** With no consumer, or with consumers that have read nothing and at most
      one lap of claims, single-slot claims from a fresh sequencer return
      0, 1, 2, ... in order. */
  method ClaimOneAtATime(bufferSize: int, consumers: nat, count: nat) returns (claimed: seq<int>)
    requires bufferSize >= 1
    requires consumers > 0 ==> count <= bufferSize
    ensures claimed == Span(0, count)
  {
    var sequencer := new SingleProducerSequencer(bufferSize, seq(consumers, _ => INITIAL_VALUE));
    claimed := [];
    while |claimed| < count
      invariant |claimed| <= count
      invariant sequencer.Valid() && sequencer.bufferSize == bufferSize
      invariant sequencer.gating == seq(consumers, _ => INITIAL_VALUE)
      invariant sequencer.nextValue == |claimed| - 1
      invariant forall i :: 0 <= i < |claimed| ==> claimed[i] == i
    {
      var r := sequencer.NextOne([]);
      claimed := claimed + [r.high];
    }
  }

  /** Batches of claims from a fresh sequencer with no consumer hand out the
      positions 0, 1, 2, ... with no gap and no overlap. */
  method ClaimBatches(bufferSize: int, sizes: seq<nat>) returns (highs: seq<int>)
    requires bufferSize >= 1
    requires forall i :: 0 <= i < |sizes| ==> 1 <= sizes[i] <= bufferSize
    ensures |highs| == |sizes|
    ensures Blocks(highs, sizes) == Span(0, Sum(sizes))
  {
    var sequencer := new SingleProducerSequencer(bufferSize, []);
    highs := [];
    while |highs| < |sizes|
      invariant |highs| <= |sizes|
      invariant sequencer.Valid() && sequencer.bufferSize == bufferSize && sequencer.gating == []
      invariant SuccessiveClaims(INITIAL_VALUE, sizes[..|highs|], highs)
      invariant sequencer.nextValue == LastClaimed(INITIAL_VALUE, highs)
    {
      var n := sizes[|highs|];
      var r := sequencer.NextBounded(n, []);
      SuccessiveClaimsExtend(INITIAL_VALUE, sizes[..|highs|], highs, n, r.high);
      assert sizes[..|highs| + 1] == sizes[..|highs|] + [n];
      highs := highs + [r.high];
    }
    assert sizes[..|highs|] == sizes;
    SuccessiveClaimsTile(INITIAL_VALUE, sizes, highs);
  }

  /** A ring of four slots with one consumer that has read nothing: a claim of
      four fills it, a further non-blocking claim fails, and a blocking claim
      goes ahead as soon as the consumer has read position 0. */
  method LapScenario() returns (whole: Claim, refused: Claim, afterWait: Claim)
    ensures whole == Claimed(3)
    ensures refused == Failed(InsufficientCapacity)
    ensures afterWait == Claimed(4)
  {
    var sequencer := new SingleProducerSequencer(4, [INITIAL_VALUE]);
    whole := sequencer.Next(4, []);
    refused := sequencer.TryNextOne();
    // The consumer is still at -1 after the first pause and at 0 after the second.
    afterWait := sequencer.NextOne([[INITIAL_VALUE], [0]]);
  }

  /** Publishing a claimed and written block makes exactly the positions up
      to its end visible. */
  method PublishScenario() returns (lowBefore: bool, lowAfter: bool, highAfter: bool, beyondAfter: bool)
    ensures !lowBefore && lowAfter && highAfter && !beyondAfter
  {
    var sequencer := new SingleProducerSequencer(8, [INITIAL_VALUE]);
    var claim := sequencer.Next(3, []);
    var high := claim.high;
    var low := Low(high, 3);
    lowBefore := sequencer.IsAvailable(low);
    sequencer.Fill(low, high);
    sequencer.PublishRange(low, high);
    lowAfter := sequencer.IsAvailable(low);
    highAfter := sequencer.IsAvailable(high);
    beyondAfter := sequencer.IsAvailable(high + 1);
  }
}
