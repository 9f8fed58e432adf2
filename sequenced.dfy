/** The producer-facing contract of a sequencer: what a claim returns, which
    positions it hands out, and what must hold before a publish. An
    implementation states these in its own postconditions and preconditions. */
module Sequenced {

  /** The two signals a claim can fail with. */
  datatype ClaimError = IllegalArgument | InsufficientCapacity

  /** Outcome of a claim: the highest claimed position, or a failure. */
  datatype Claim = Claimed(high: int) | Failed(error: ClaimError)

  /** The first position of the block of n positions whose last is high. */
  function Low(high: int, n: int): int
  {
    high - (n - 1)
  }

  /** The positions `from`, `from + 1`, ..., `from + count - 1`. */
  function Span(from: int, count: nat): (s: seq<int>)
    ensures |s| == count
    ensures forall i :: 0 <= i < count ==> s[i] == from + i
  {
    seq(count, i => from + i)
  }

  /** The block handed out by a claim of n positions that returned high. */
  function Block(high: int, n: nat): (b: seq<int>)
    ensures |b| == n
    ensures n > 0 ==> b[0] == Low(high, n) && b[n - 1] == high
    ensures forall i :: 0 < i < n ==> b[i] == b[i - 1] + 1
  {
    Span(Low(high, n), n)
  }

  /** A claim of n positions returning high, made when `last` was the last
      claimed position, hands out exactly the n positions after `last`. */
  ghost predicate ClaimsNext(last: int, n: int, high: int)
  {
    n >= 1 && Low(high, n) == last + 1
  }

  /** Every position of [lo, hi] has been written by the producer. */
  ghost predicate Filled(filled: set<int>, lo: int, hi: int)
  {
    forall k :: lo <= k <= hi ==> k in filled
  }

  /** Successive claims of sizes[0], sizes[1], ... starting after `start`
      returned highs[0], highs[1], ... . */
  ghost predicate SuccessiveClaims(start: int, sizes: seq<nat>, highs: seq<int>)
    decreases |sizes|
  {
    |highs| == |sizes| &&
    (|sizes| > 0 ==>
       ClaimsNext(start, sizes[0], highs[0]) &&
       SuccessiveClaims(highs[0], sizes[1..], highs[1..]))
  }

  function Sum(sizes: seq<nat>): nat
    decreases |sizes|
  {
    if |sizes| == 0 then 0 else sizes[0] + Sum(sizes[1..])
  }

  /** The blocks of successive claims, concatenated in order. */
  function Blocks(highs: seq<int>, sizes: seq<nat>): seq<int>
    requires |highs| == |sizes|
    decreases |sizes|
  {
    if |sizes| == 0 then [] else Block(highs[0], sizes[0]) + Blocks(highs[1..], sizes[1..])
  }

  /** Claims that honour the contract hand out every position after `start`
      exactly once and in order: no gap, no overlap. */
  lemma {:induction false} SuccessiveClaimsTile(start: int, sizes: seq<nat>, highs: seq<int>)
    requires SuccessiveClaims(start, sizes, highs)
    ensures Blocks(highs, sizes) == Span(start + 1, Sum(sizes))
    decreases |sizes|
  {
    if |sizes| > 0 {
      SuccessiveClaimsTile(highs[0], sizes[1..], highs[1..]);
      var head := Block(highs[0], sizes[0]);
      var tail := Span(highs[0] + 1, Sum(sizes[1..]));
      assert highs[0] == start + sizes[0];
      assert head + tail == Span(start + 1, Sum(sizes)) by {
        forall i | 0 <= i < Sum(sizes)
          ensures (head + tail)[i] == start + 1 + i
        {
          if i < sizes[0] {
            assert (head + tail)[i] == head[i];
          } else {
            assert (head + tail)[i] == tail[i - sizes[0]];
          }
        }
      }
    }
  }

  /** The last position claimed after claims returning `highs`, starting after `start`. */
  function LastClaimed(start: int, highs: seq<int>): int
  {
    if |highs| == 0 then start else highs[|highs| - 1]
  }

  /** One more claim that honours the contract extends a run of successive claims. */
  lemma {:induction false} SuccessiveClaimsExtend(start: int, sizes: seq<nat>, highs: seq<int>, n: nat, high: int)
    requires SuccessiveClaims(start, sizes, highs)
    requires ClaimsNext(LastClaimed(start, highs), n, high)
    ensures SuccessiveClaims(start, sizes + [n], highs + [high])
    decreases |sizes|
  {
    if |sizes| > 0 {
      assert LastClaimed(highs[0], highs[1..]) == LastClaimed(start, highs);
      SuccessiveClaimsExtend(highs[0], sizes[1..], highs[1..], n, high);
      assert (sizes + [n])[1..] == sizes[1..] + [n];
      assert (highs + [high])[1..] == highs[1..] + [high];
    }
  }
}
