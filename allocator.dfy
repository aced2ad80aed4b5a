/**
 * The proportional video-segment allocator of src/App.tsx
 * (allocateVideoSegmentsByBids).
 *
 * Given the winning bids and the total video duration it
 *   1. gives every bid a length proportional to its amount, at least 1 second;
 *   2. scales all lengths down when their sum overshoots the duration;
 *   3. shuffles the (bidder, length) entries with Fisher-Yates;
 *   4. lays them back to back from second 0, clamping at the duration and
 *      stopping once the duration is used up.
 *
 * The floating-point ratios of the source are exact integer floors here, and
 * Math.random is replaced by an injected sequence of swap indices: swaps[i] is
 * the index j (0 <= j <= i) drawn at Fisher-Yates step i.
 */
module Allocator {

  /** One entry of a work slot's currentBids; amounts are natural numbers here. */
  datatype Bid = Bid(bidder: string, amount: nat)

  /** A viewing window [startTime, endTime) of the video, in seconds. */
  datatype VideoSegment = VideoSegment(startTime: int, endTime: int, duration: int)

  /** One entry of segmentDurations: a bidder and the length it is owed. */
  datatype Share = Share(bidder: string, duration: int)

  /** One Map.set of the placement loop, in the order the loop performs them. */
  datatype Placed = Placed(bidder: string, segment: VideoSegment)

  /** The `totalDuration = 3600` default and the `totalVideoDuration || 3600` fallback. */
  const DefaultTotalDuration: nat := 3600

  function Max(a: int, b: int): int { if a >= b then a else b }

  function Min(a: int, b: int): int { if a <= b then a else b }

  // ---------------------------------------------------------------------------
  // Sums (the two `reduce` calls)
  // ---------------------------------------------------------------------------

  function Sum(xs: seq<int>): int {
    if xs == [] then 0 else xs[0] + Sum(xs[1..])
  }

  function Amounts(bids: seq<Bid>): seq<int> {
    seq(|bids|, i requires 0 <= i < |bids| => bids[i].amount)
  }

  function Lengths(shares: seq<Share>): seq<int> {
    seq(|shares|, i requires 0 <= i < |shares| => shares[i].duration)
  }

  function Bidders(bids: seq<Bid>): set<string> {
    set i | 0 <= i < |bids| :: bids[i].bidder
  }

  /** totalBidAmount */
  function AmountSum(bids: seq<Bid>): int {
    Sum(Amounts(bids))
  }

  /** totalAllocated */
  function DurationSum(shares: seq<Share>): int {
    Sum(Lengths(shares))
  }

  /** What the allocator needs of its caller: a positive amount total (else the source divides by zero) and enough swap indices. */
  predicate SwapIndices(swaps: seq<nat>, n: nat) {
    n <= |swaps| && forall i :: 0 <= i < n ==> swaps[i] <= i
  }

  predicate AllocationInput(bids: seq<Bid>, swaps: seq<nat>) {
    (bids == [] || AmountSum(bids) > 0) && SwapIndices(swaps, |bids|)
  }

  // ---------------------------------------------------------------------------
  // Step 1 and 2: the lengths
  // ---------------------------------------------------------------------------

  /** Math.max(1, Math.floor(totalDuration * (amount / totalBidAmount))) */
  function ProportionalShare(bid: Bid, total: nat, amountSum: int): Share
    requires amountSum > 0
  {
    Share(bid.bidder, Max(1, total * bid.amount / amountSum))
  }

  function ProportionalShares(bids: seq<Bid>, total: nat, amountSum: int): seq<Share>
    requires amountSum > 0
  {
    seq(|bids|, i requires 0 <= i < |bids| => ProportionalShare(bids[i], total, amountSum))
  }

  /** Math.max(1, Math.floor(duration * (totalDuration / totalAllocated))) */
  function ScaledShare(share: Share, total: nat, allotted: int): Share
    requires allotted > 0
  {
    share.(duration := Max(1, share.duration * total / allotted))
  }

  function ScaledShares(shares: seq<Share>, total: nat, allotted: int): seq<Share>
    requires allotted > 0
  {
    seq(|shares|, i requires 0 <= i < |shares| => ScaledShare(shares[i], total, allotted))
  }

  /** segmentDurations once both passes are done, in bid order. */
  function SegmentDurations(bids: seq<Bid>, total: nat): seq<Share>
    requires AmountSum(bids) > 0
  {
    var shares := ProportionalShares(bids, total, AmountSum(bids));
    var allotted := DurationSum(shares);
    if allotted > total then ScaledShares(shares, total, allotted) else shares
  }

  // ---------------------------------------------------------------------------
  // Step 3: Fisher-Yates
  // ---------------------------------------------------------------------------

  function Swap<T>(s: seq<T>, i: nat, j: nat): seq<T>
    requires i < |s| && j < |s|
  {
    s[i := s[j]][j := s[i]]
  }

  /** The shuffle's steps i, i-1, ..., 1 applied to s. */
  function ShuffleSteps<T>(s: seq<T>, swaps: seq<nat>, i: nat): seq<T>
    requires i < |s| && SwapIndices(swaps, i + 1)
    decreases i
  {
    if i == 0 then s else ShuffleSteps(Swap(s, i, swaps[i]), swaps, i - 1)
  }

  /** The order the loop `for (let i = n - 1; i > 0; i--)` leaves the entries in. */
  function Shuffle<T>(s: seq<T>, swaps: seq<nat>): seq<T>
    requires SwapIndices(swaps, |s|)
  {
    if s == [] then s else ShuffleSteps(s, swaps, |s| - 1)
  }

  // ---------------------------------------------------------------------------
  // Step 4: placement
  // ---------------------------------------------------------------------------

  predicate AllPositive(shares: seq<Share>) {
    forall k :: 0 <= k < |shares| ==> shares[k].duration >= 1
  }

  /** The segments the placement loop emits, starting at `cursor`, in order. */
  function Layout(order: seq<Share>, total: nat, cursor: int): seq<Placed>
    requires 0 <= cursor <= total && AllPositive(order)
    decreases |order|
  {
    if order == [] then []
    else
      var endTime := Min(cursor + order[0].duration, total);
      var placed := Placed(order[0].bidder, VideoSegment(cursor, endTime, endTime - cursor));
      if endTime >= total then [placed] else [placed] + Layout(order[1..], total, endTime)
  }

  /** The Map after the `segments.set` calls, a later set for a bidder overriding an earlier one. */
  function ToMap(placed: seq<Placed>): map<string, VideoSegment> {
    if placed == [] then map[]
    else ToMap(placed[..|placed| - 1])[placed[|placed| - 1].bidder := placed[|placed| - 1].segment]
  }

  /** The emitted segments for given bids, duration and swap draws. */
  function Emitted(bids: seq<Bid>, total: nat, swaps: seq<nat>): seq<Placed>
    requires AllocationInput(bids, swaps)
  {
    if bids == [] then []
    else
      SegmentDurationsPositive(bids, total);
      ShufflePermutes(SegmentDurations(bids, total), swaps);
      Layout(Shuffle(SegmentDurations(bids, total), swaps), total, 0)
  }

  /** The result of allocateVideoSegmentsByBids. */
  function Allocation(bids: seq<Bid>, total: nat, swaps: seq<nat>): map<string, VideoSegment>
    requires AllocationInput(bids, swaps)
  {
    ToMap(Emitted(bids, total, swaps))
  }

  // ===========================================================================
  // Lemmas: the lengths
  // ===========================================================================

  lemma SegmentDurationsPositive(bids: seq<Bid>, total: nat)
    requires AmountSum(bids) > 0
    ensures |SegmentDurations(bids, total)| == |bids|
    ensures AllPositive(SegmentDurations(bids, total))
    ensures forall k :: 0 <= k < |bids| ==> SegmentDurations(bids, total)[k].bidder == bids[k].bidder
  {
  }

  /** Without a scale-down each length is exactly max(1, floor(T * amount / S)). */
  lemma {:induction false} UnscaledLengths(bids: seq<Bid>, total: nat)
    requires AmountSum(bids) > 0
    requires DurationSum(ProportionalShares(bids, total, AmountSum(bids))) <= total
    ensures forall k :: 0 <= k < |bids| ==>
      SegmentDurations(bids, total)[k].duration == Max(1, total * bids[k].amount / AmountSum(bids))
  {
  }

  lemma FloorDivMonotone(x: int, y: int, d: int)
    requires 0 <= x <= y && d > 0
    ensures x / d <= y / d
  {
    if x / d > y / d {
      assert d * (x / d) >= d * (y / d + 1) by { MulMonotone(d, y / d + 1, x / d); }
    }
  }

  lemma MulMonotone(c: int, x: int, y: int)
    requires c >= 0 && x <= y
    ensures c * x <= c * y
  {
  }

  /** A larger amount never gets a shorter length, after both passes. */
  lemma {:induction false} LengthsMonotone(bids: seq<Bid>, total: nat, i: nat, j: nat)
    requires AmountSum(bids) > 0
    requires i < |bids| && j < |bids| && bids[i].amount <= bids[j].amount
    ensures SegmentDurations(bids, total)[i].duration <= SegmentDurations(bids, total)[j].duration
  {
    var sum := AmountSum(bids);
    var shares := ProportionalShares(bids, total, sum);
    MulMonotone(total, bids[i].amount, bids[j].amount);
    FloorDivMonotone(total * bids[i].amount, total * bids[j].amount, sum);
    assert shares[i].duration <= shares[j].duration;
    var allotted := DurationSum(shares);
    if allotted > total {
      MulMonotone(total, shares[i].duration, shares[j].duration);
      assert shares[i].duration * total <= shares[j].duration * total;
      FloorDivMonotone(shares[i].duration * total, shares[j].duration * total, allotted);
    }
  }

  // Floors of a split of t * sum over the parts lose less than one unit each.

  function Quotients(xs: seq<int>, t: int, d: int): seq<int>
    requires d > 0
  {
    seq(|xs|, i requires 0 <= i < |xs| => t * xs[i] / d)
  }

  function Remainders(xs: seq<int>, t: int, d: int): seq<int>
    requires d > 0
  {
    seq(|xs|, i requires 0 <= i < |xs| => t * xs[i] % d)
  }

  lemma {:induction false} DivisionOfSum(xs: seq<int>, t: int, d: int)
    requires d > 0
    ensures d * Sum(Quotients(xs, t, d)) + Sum(Remainders(xs, t, d)) == t * Sum(xs)
  {
    if xs != [] {
      var q, r := Quotients(xs, t, d), Remainders(xs, t, d);
      assert q[1..] == Quotients(xs[1..], t, d);
      assert r[1..] == Remainders(xs[1..], t, d);
      DivisionOfSum(xs[1..], t, d);
      assert t * xs[0] == d * q[0] + r[0];
      calc {
        d * Sum(q) + Sum(r);
        d * (q[0] + Sum(q[1..])) + r[0] + Sum(r[1..]);
        { assert d * (q[0] + Sum(q[1..])) == d * q[0] + d * Sum(q[1..]); }
        t * xs[0] + t * Sum(xs[1..]);
        { assert t * (xs[0] + Sum(xs[1..])) == t * xs[0] + t * Sum(xs[1..]); }
        t * Sum(xs);
      }
    }
  }

  lemma {:induction false} RemaindersBounded(xs: seq<int>, t: int, d: int)
    requires d > 0
    ensures 0 <= Sum(Remainders(xs, t, d)) <= |xs| * (d - 1)
  {
    if xs != [] {
      var r := Remainders(xs, t, d);
      assert r[1..] == Remainders(xs[1..], t, d);
      RemaindersBounded(xs[1..], t, d);
      assert |xs| * (d - 1) == (d - 1) + (|xs| - 1) * (d - 1);
    }
  }

  lemma {:induction false} FloorSumLowerBound(xs: seq<int>, t: int, d: int)
    requires d > 0 && |xs| > 0 && Sum(xs) == d
    ensures Sum(Quotients(xs, t, d)) >= t - |xs| + 1
  {
    var q := Sum(Quotients(xs, t, d));
    DivisionOfSum(xs, t, d);
    RemaindersBounded(xs, t, d);
    assert d * (t - q) == t * d - d * q;
    assert |xs| * (d - 1) < d * |xs|;
    MulCancel(d, t - q, |xs|);
  }

  lemma MulCancel(c: int, x: int, y: int)
    requires c > 0 && c * x < c * y
    ensures x < y
  {
    if x >= y {
      MulMonotone(c, y, x);
    }
  }

  lemma {:induction false} SumDominates(xs: seq<int>, ys: seq<int>)
    requires |xs| == |ys| && forall k :: 0 <= k < |xs| ==> xs[k] >= ys[k]
    ensures Sum(xs) >= Sum(ys)
  {
    if xs != [] {
      SumDominates(xs[1..], ys[1..]);
    }
  }

  lemma AmountsOfNat(bids: seq<Bid>)
    ensures forall k :: 0 <= k < |Amounts(bids)| ==> Amounts(bids)[k] >= 0
  {
  }

  /**
   * The lengths add up to at least T - (n - 1): flooring loses less than a
   * second per winner in either pass, and the minimum of 1 only adds.
   */
  lemma {:induction false} DurationSumLowerBound(bids: seq<Bid>, total: nat)
    requires AmountSum(bids) > 0
    ensures DurationSum(SegmentDurations(bids, total)) >= total - |bids| + 1
  {
    var sum := AmountSum(bids);
    var shares := ProportionalShares(bids, total, sum);
    var allotted := DurationSum(shares);
    FloorSumLowerBound(Amounts(bids), total, sum);
    SumDominates(Lengths(shares), Quotients(Amounts(bids), total, sum));
    if allotted > total {
      var scaled := ScaledShares(shares, total, allotted);
      FloorSumLowerBound(Lengths(shares), total, allotted);
      forall k | 0 <= k < |scaled|
        ensures Lengths(scaled)[k] >= Quotients(Lengths(shares), total, allotted)[k]
      {
        assert shares[k].duration * total == total * shares[k].duration;
      }
      SumDominates(Lengths(scaled), Quotients(Lengths(shares), total, allotted));
    }
  }

  /** The worked example of the mock data: 3000 and 2800 over 3600 s give 1862 s and 1737 s. */
  lemma ExampleLengths()
    ensures SegmentDurations([Bid("X", 3000), Bid("Y", 2800)], 3600)
      == [Share("X", 1862), Share("Y", 1737)]
  {
    var bids := [Bid("X", 3000), Bid("Y", 2800)];
    assert Amounts(bids) == [3000, 2800];
    assert AmountSum(bids) == 5800;
    var shares := ProportionalShares(bids, 3600, 5800);
    assert shares == [Share("X", 1862), Share("Y", 1737)];
    assert Lengths(shares) == [1862, 1737];
  }

  // ===========================================================================
  // Lemmas: the shuffle
  // ===========================================================================

  lemma {:induction false} SumUpdate(xs: seq<int>, i: nat, v: int)
    requires i < |xs|
    ensures Sum(xs[i := v]) == Sum(xs) - xs[i] + v
  {
    if i > 0 {
      assert xs[i := v][1..] == xs[1..][i - 1 := v];
      SumUpdate(xs[1..], i - 1, v);
    } else {
      assert xs[i := v][1..] == xs[1..];
    }
  }

  lemma SwapKeepsDurationSum(s: seq<Share>, i: nat, j: nat)
    requires i < |s| && j < |s|
    ensures DurationSum(Swap(s, i, j)) == DurationSum(s)
  {
    var t := s[i := s[j]];
    assert Lengths(t) == Lengths(s)[i := s[j].duration];
    SumUpdate(Lengths(s), i, s[j].duration);
    assert Lengths(Swap(s, i, j)) == Lengths(t)[j := s[i].duration];
    SumUpdate(Lengths(t), j, s[i].duration);
  }

  lemma {:induction false} ShuffleStepsPermutes<T>(s: seq<T>, swaps: seq<nat>, i: nat)
    requires i < |s| && SwapIndices(swaps, i + 1)
    decreases i
    ensures |ShuffleSteps(s, swaps, i)| == |s|
    ensures multiset(ShuffleSteps(s, swaps, i)) == multiset(s)
  {
    if i > 0 {
      var t := Swap(s, i, swaps[i]);
      ShuffleStepsPermutes(t, swaps, i - 1);
      assert multiset(s[i := s[swaps[i]]]) == multiset(s) - multiset{s[i]} + multiset{s[swaps[i]]};
    }
  }

  /** The Fisher-Yates shuffle is a permutation: nothing lost, nothing duplicated. */
  lemma ShufflePermutes<T>(s: seq<T>, swaps: seq<nat>)
    requires SwapIndices(swaps, |s|)
    ensures |Shuffle(s, swaps)| == |s|
    ensures multiset(Shuffle(s, swaps)) == multiset(s)
    ensures forall k :: 0 <= k < |s| ==> Shuffle(s, swaps)[k] in s
  {
    if s != [] {
      ShuffleStepsPermutes(s, swaps, |s| - 1);
      forall k | 0 <= k < |s| ensures Shuffle(s, swaps)[k] in s {
        assert Shuffle(s, swaps)[k] in multiset(Shuffle(s, swaps));
      }
    }
  }

  lemma {:induction false} ShuffleStepsKeepDurationSum(s: seq<Share>, swaps: seq<nat>, i: nat)
    requires i < |s| && SwapIndices(swaps, i + 1)
    decreases i
    ensures DurationSum(ShuffleSteps(s, swaps, i)) == DurationSum(s)
  {
    if i > 0 {
      SwapKeepsDurationSum(s, i, swaps[i]);
      ShuffleStepsKeepDurationSum(Swap(s, i, swaps[i]), swaps, i - 1);
    }
  }

  lemma ShuffleKeepsDurationSum(s: seq<Share>, swaps: seq<nat>)
    requires SwapIndices(swaps, |s|)
    ensures DurationSum(Shuffle(s, swaps)) == DurationSum(s)
  {
    if s != [] {
      ShuffleStepsKeepDurationSum(s, swaps, |s| - 1);
    }
  }

  // ===========================================================================
  // Lemmas: the placement
  // ===========================================================================

  function PlacedSum(placed: seq<Placed>): int {
    if placed == [] then 0 else placed[0].segment.duration + PlacedSum(placed[1..])
  }

  /** The placement tiles [cursor, ...) left to right without gaps, inside [0, total]. */
  lemma {:induction false} LayoutTiles(order: seq<Share>, total: nat, cursor: int)
    requires 0 <= cursor <= total && AllPositive(order)
    ensures var r := Layout(order, total, cursor);
      && |r| <= |order|
      && (order != [] ==> r != [] && r[0].segment.startTime == cursor)
      && (forall k :: 0 <= k < |r| ==> r[k].bidder == order[k].bidder)
      && (forall k :: 0 <= k < |r| ==>
            cursor <= r[k].segment.startTime <= r[k].segment.endTime <= total
            && r[k].segment.duration == r[k].segment.endTime - r[k].segment.startTime
            && r[k].segment.duration <= order[k].duration)
      && (cursor < total ==> forall k :: 0 <= k < |r| ==> r[k].segment.startTime < r[k].segment.endTime)
      && (forall k :: 0 <= k < |r| - 1 ==> r[k].segment.endTime == r[k + 1].segment.startTime)
    decreases |order|
  {
    if order != [] {
      var endTime := Min(cursor + order[0].duration, total);
      if endTime < total {
        LayoutTiles(order[1..], total, endTime);
      }
    }
  }

  /** Segments emitted earlier lie wholly before segments emitted later. */
  lemma {:induction false} LayoutOrdered(order: seq<Share>, total: nat, cursor: int, i: nat, j: nat)
    requires 0 <= cursor <= total && AllPositive(order)
    requires i < j < |Layout(order, total, cursor)|
    ensures Layout(order, total, cursor)[i].segment.endTime <= Layout(order, total, cursor)[j].segment.startTime
    decreases j - i
  {
    var r := Layout(order, total, cursor);
    LayoutTiles(order, total, cursor);
    if i + 1 < j {
      LayoutOrdered(order, total, cursor, i + 1, j);
    }
  }

  /**
   * What the placement hands out adds up to min(total - cursor, sum of
   * lengths); when the lengths fit, every entry is placed with its full length.
   */
  lemma {:induction false} LayoutCoverage(order: seq<Share>, total: nat, cursor: int)
    requires 0 <= cursor <= total && AllPositive(order)
    ensures PlacedSum(Layout(order, total, cursor)) == Min(total - cursor, DurationSum(order))
    ensures cursor + DurationSum(order) <= total ==>
      |Layout(order, total, cursor)| == |order|
      && forall k :: 0 <= k < |order| ==> Layout(order, total, cursor)[k].segment.duration == order[k].duration
    decreases |order|
  {
    if order != [] {
      assert Lengths(order)[1..] == Lengths(order[1..]);
      var endTime := Min(cursor + order[0].duration, total);
      PositiveDurationSum(order[1..]);
      if endTime < total {
        LayoutCoverage(order[1..], total, endTime);
      }
    }
  }

  lemma {:induction false} PositiveDurationSum(shares: seq<Share>)
    requires AllPositive(shares)
    ensures DurationSum(shares) >= |shares|
  {
    if shares != [] {
      assert Lengths(shares)[1..] == Lengths(shares[1..]);
      PositiveDurationSum(shares[1..]);
    }
  }

  // ===========================================================================
  // Lemmas: the map
  // ===========================================================================

  /** The index of the last set for bidder b, which is the one the Map keeps. */
  function LastIndex(placed: seq<Placed>, b: string): (k: int)
    ensures -1 <= k < |placed|
    ensures k >= 0 ==> placed[k].bidder == b
    ensures forall m :: k < m < |placed| ==> placed[m].bidder != b
  {
    if placed == [] then -1
    else if placed[|placed| - 1].bidder == b then |placed| - 1
    else LastIndex(placed[..|placed| - 1], b)
  }

  lemma {:induction false} ToMapEntries(placed: seq<Placed>)
    ensures forall b :: b in ToMap(placed) <==> LastIndex(placed, b) >= 0
    ensures forall b :: b in ToMap(placed) ==> ToMap(placed)[b] == placed[LastIndex(placed, b)].segment
  {
    if placed != [] {
      ToMapEntries(placed[..|placed| - 1]);
    }
  }

  predicate DistinctBidders(bids: seq<Bid>) {
    forall i, j :: 0 <= i < j < |bids| ==> bids[i].bidder != bids[j].bidder
  }

  predicate Disjoint(s: VideoSegment, t: VideoSegment) {
    s.endTime <= t.startTime || t.endTime <= s.startTime
  }

  // ===========================================================================
  // The allocator's promises
  // ===========================================================================

  /** Empty bids give an empty map. */
  lemma EmptyBidsEmptyMap(total: nat, swaps: seq<nat>)
    ensures Allocation([], total, swaps) == map[]
  {
  }

  function ShareBidders(shares: seq<Share>): set<string> {
    set k | 0 <= k < |shares| :: shares[k].bidder
  }

  function PlacedBidders(placed: seq<Placed>): set<string> {
    set k | 0 <= k < |placed| :: placed[k].bidder
  }

  lemma {:induction false} ToMapKeys(placed: seq<Placed>)
    ensures ToMap(placed).Keys == PlacedBidders(placed)
    ensures |ToMap(placed)| <= |placed|
  {
    if placed != [] {
      var init := placed[..|placed| - 1];
      ToMapKeys(init);
      assert PlacedBidders(placed) == PlacedBidders(init) + {placed[|placed| - 1].bidder} by {
        forall b | b in PlacedBidders(placed) ensures b in PlacedBidders(init) + {placed[|placed| - 1].bidder} {
          var k :| 0 <= k < |placed| && placed[k].bidder == b;
          if k < |placed| - 1 {
            assert init[k] == placed[k];
          }
        }
        forall b | b in PlacedBidders(init) ensures b in PlacedBidders(placed) {
          var k :| 0 <= k < |init| && init[k].bidder == b;
          assert placed[k] == init[k];
        }
      }
    }
  }

  lemma PermutationBiddersIncluded(s: seq<Share>, t: seq<Share>)
    requires multiset(s) == multiset(t)
    ensures ShareBidders(s) <= ShareBidders(t)
  {
    forall b | b in ShareBidders(s) ensures b in ShareBidders(t) {
      var k :| 0 <= k < |s| && s[k].bidder == b;
      assert s[k] in multiset(t);
      var m :| 0 <= m < |t| && t[m] == s[k];
    }
  }

  /**
   * The keys of the allocation are exactly the bidders the placement reached,
   * in shuffled order; `placedAll` says whether it reached every entry.
   */
  lemma {:induction false} AllocationKeysPlaced(bids: seq<Bid>, total: nat, swaps: seq<nat>)
    requires AllocationInput(bids, swaps) && bids != []
    ensures var order := Shuffle(SegmentDurations(bids, total), swaps);
      && ShareBidders(order) == Bidders(bids)
      && Allocation(bids, total, swaps).Keys <= Bidders(bids)
      && |Allocation(bids, total, swaps)| <= |bids|
      && (|Emitted(bids, total, swaps)| == |bids| ==> Allocation(bids, total, swaps).Keys == Bidders(bids))
  {
    var shares := SegmentDurations(bids, total);
    SegmentDurationsPositive(bids, total);
    var order := Shuffle(shares, swaps);
    ShufflePermutes(shares, swaps);
    PermutationBiddersIncluded(shares, order);
    PermutationBiddersIncluded(order, shares);
    assert ShareBidders(shares) == Bidders(bids) by {
      forall b | b in Bidders(bids) ensures b in ShareBidders(shares) {
        var k :| 0 <= k < |bids| && bids[k].bidder == b;
        assert shares[k].bidder == b;
      }
    }
    var r := Emitted(bids, total, swaps);
    LayoutTiles(order, total, 0);
    ToMapKeys(r);
    assert PlacedBidders(r) <= ShareBidders(order);
    if |r| == |bids| {
      forall b | b in ShareBidders(order) ensures b in PlacedBidders(r) {
        var k :| 0 <= k < |order| && order[k].bidder == b;
        assert r[k].bidder == b;
      }
    }
  }

  /** Every key is a bidder of the input, and there are at most as many keys as bids. */
  lemma AllocationKeys(bids: seq<Bid>, total: nat, swaps: seq<nat>)
    requires AllocationInput(bids, swaps)
    ensures Allocation(bids, total, swaps).Keys <= Bidders(bids)
    ensures |Allocation(bids, total, swaps)| <= |bids|
  {
    if bids != [] {
      AllocationKeysPlaced(bids, total, swaps);
    }
  }

  /**
   * The emitted segments tile the timeline: the first starts at 0, each next
   * one starts where the previous ended, none ends after the total, each is at
   * least a second long, and together they cover between T - (n - 1) and T
   * seconds.
   */
  lemma {:induction false} EmittedTiles(bids: seq<Bid>, total: nat, swaps: seq<nat>)
    requires AllocationInput(bids, swaps) && total > 0
    ensures var r := Emitted(bids, total, swaps);
      && |r| <= |bids|
      && (bids != [] ==> r != [] && r[0].segment.startTime == 0)
      && (forall k :: 0 <= k < |r| - 1 ==> r[k].segment.endTime == r[k + 1].segment.startTime)
      && (forall k :: 0 <= k < |r| ==>
            0 <= r[k].segment.startTime < r[k].segment.endTime <= total
            && r[k].segment.duration == r[k].segment.endTime - r[k].segment.startTime)
      && (bids != [] ==> total - |bids| + 1 <= PlacedSum(r)) && PlacedSum(r) <= total
  {
    if bids != [] {
      var shares := SegmentDurations(bids, total);
      SegmentDurationsPositive(bids, total);
      var order := Shuffle(shares, swaps);
      ShufflePermutes(shares, swaps);
      LayoutTiles(order, total, 0);
      LayoutCoverage(order, total, 0);
      ShuffleKeepsDurationSum(shares, swaps);
      DurationSumLowerBound(bids, total);
    }
  }

  /** Every segment in the map is one the placement emitted, so it lies in [0, total) and is at least a second long. */
  lemma AllocationSegmentsInRange(bids: seq<Bid>, total: nat, swaps: seq<nat>)
    requires AllocationInput(bids, swaps) && total > 0
    ensures forall b :: b in Allocation(bids, total, swaps) ==>
      var seg := Allocation(bids, total, swaps)[b];
      0 <= seg.startTime < seg.endTime <= total && seg.duration == seg.endTime - seg.startTime
  {
    EmittedTiles(bids, total, swaps);
    ToMapEntries(Emitted(bids, total, swaps));
  }

  /** Segments of two different bidders never overlap. */
  lemma {:induction false} AllocationDisjoint(bids: seq<Bid>, total: nat, swaps: seq<nat>, b1: string, b2: string)
    requires AllocationInput(bids, swaps)
    requires b1 in Allocation(bids, total, swaps) && b2 in Allocation(bids, total, swaps) && b1 != b2
    ensures Disjoint(Allocation(bids, total, swaps)[b1], Allocation(bids, total, swaps)[b2])
  {
    var r := Emitted(bids, total, swaps);
    ToMapEntries(r);
    var k1, k2 := LastIndex(r, b1), LastIndex(r, b2);
    var shares := SegmentDurations(bids, total);
    SegmentDurationsPositive(bids, total);
    ShufflePermutes(shares, swaps);
    if k1 < k2 {
      LayoutOrdered(Shuffle(shares, swaps), total, 0, k1, k2);
    } else {
      LayoutOrdered(Shuffle(shares, swaps), total, 0, k2, k1);
    }
  }

  /** When the computed lengths fit in the duration, every winning bidder gets a segment. */
  lemma {:induction false} AllPlacedWhenLengthsFit(bids: seq<Bid>, total: nat, swaps: seq<nat>)
    requires AllocationInput(bids, swaps) && bids != []
    requires DurationSum(SegmentDurations(bids, total)) <= total
    ensures Allocation(bids, total, swaps).Keys == Bidders(bids)
  {
    var shares := SegmentDurations(bids, total);
    SegmentDurationsPositive(bids, total);
    ShufflePermutes(shares, swaps);
    ShuffleKeepsDurationSum(shares, swaps);
    LayoutCoverage(Shuffle(shares, swaps), total, 0);
    AllocationKeysPlaced(bids, total, swaps);
  }

  /**
   * The scale-down pass does not always bring the lengths within the
   * duration: bids 9, 1, 1, 1 over 4 seconds keep lengths 2, 1, 1, 1, and with
   * the draws [0, 1, 2, 3] (every swap a no-op) the fourth winner, placed
   * last, gets no segment at all.
   */
  lemma ScaleDownCanLeaveWinnerOut()
    ensures var bids := [Bid("A", 9), Bid("B", 1), Bid("C", 1), Bid("D", 1)];
      && AmountSum(bids) > 0
      && DurationSum(SegmentDurations(bids, 4)) == 5
      && Allocation(bids, 4, [0, 1, 2, 3]).Keys == {"A", "B", "C"}
  {
    var bids := [Bid("A", 9), Bid("B", 1), Bid("C", 1), Bid("D", 1)];
    var scaled := [Share("A", 2), Share("B", 1), Share("C", 1), Share("D", 1)];
    OvershootLengths();
    OvershootOrder();
    var a, b, c := Placed("A", VideoSegment(0, 2, 2)), Placed("B", VideoSegment(2, 3, 1)), Placed("C", VideoSegment(3, 4, 1));
    OvershootLayout();
    assert Emitted(bids, 4, [0, 1, 2, 3]) == [a, b, c];
    assert [a, b, c][..2] == [a, b] && [a, b][..1] == [a] && [a][..0] == [];
    assert ToMap([a]) == map["A" := a.segment];
    assert ToMap([a, b]) == map["A" := a.segment, "B" := b.segment];
    assert ToMap([a, b, c]) == map["A" := a.segment, "B" := b.segment, "C" := c.segment];
  }

  lemma OvershootLengths()
    ensures var bids := [Bid("A", 9), Bid("B", 1), Bid("C", 1), Bid("D", 1)];
      && AmountSum(bids) == 12
      && SegmentDurations(bids, 4) == [Share("A", 2), Share("B", 1), Share("C", 1), Share("D", 1)]
      && DurationSum(SegmentDurations(bids, 4)) == 5
  {
    var bids := [Bid("A", 9), Bid("B", 1), Bid("C", 1), Bid("D", 1)];
    assert Amounts(bids) == [9, 1, 1, 1];
    assert AmountSum(bids) == 12;
    var shares := ProportionalShares(bids, 4, 12);
    assert shares == [Share("A", 3), Share("B", 1), Share("C", 1), Share("D", 1)];
    assert Lengths(shares) == [3, 1, 1, 1];
    assert DurationSum(shares) == 6;
    var scaled := ScaledShares(shares, 4, 6);
    assert scaled == [Share("A", 2), Share("B", 1), Share("C", 1), Share("D", 1)];
    assert Lengths(scaled) == [2, 1, 1, 1];
  }

  lemma OvershootOrder()
    ensures var scaled := [Share("A", 2), Share("B", 1), Share("C", 1), Share("D", 1)];
      Shuffle(scaled, [0, 1, 2, 3]) == scaled
  {
    var scaled := [Share("A", 2), Share("B", 1), Share("C", 1), Share("D", 1)];
    assert Swap(scaled, 3, 3) == scaled && Swap(scaled, 2, 2) == scaled && Swap(scaled, 1, 1) == scaled;
  }

  lemma OvershootLayout()
    ensures var scaled := [Share("A", 2), Share("B", 1), Share("C", 1), Share("D", 1)];
      Layout(scaled, 4, 0)
        == [Placed("A", VideoSegment(0, 2, 2)), Placed("B", VideoSegment(2, 3, 1)), Placed("C", VideoSegment(3, 4, 1))]
  {
    var scaled := [Share("A", 2), Share("B", 1), Share("C", 1), Share("D", 1)];
    var b, c := Placed("B", VideoSegment(2, 3, 1)), Placed("C", VideoSegment(3, 4, 1));
    assert scaled[1..][1..] == scaled[2..];
    assert Layout(scaled[2..], 4, 3) == [c];
    assert Layout(scaled[1..], 4, 2) == [b, c];
  }

  /**
   * Whether a winner is left out depends on the draws: with [0, 0, 0, 0] the
   * shuffle puts A last, every bidder gets a segment, and A's owed 2 seconds
   * are cut to [3, 4).
   */
  lemma ScaleDownOtherDrawsPlaceAll()
    ensures var bids := [Bid("A", 9), Bid("B", 1), Bid("C", 1), Bid("D", 1)];
      && AmountSum(bids) > 0
      && Allocation(bids, 4, [0, 0, 0, 0]).Keys == {"A", "B", "C", "D"}
      && Allocation(bids, 4, [0, 0, 0, 0])["A"] == VideoSegment(3, 4, 1)
  {
    var bids := [Bid("A", 9), Bid("B", 1), Bid("C", 1), Bid("D", 1)];
    OvershootLengths();
    ReversedOrder();
    var b, c, d, a := Placed("B", VideoSegment(0, 1, 1)), Placed("C", VideoSegment(1, 2, 1)),
                      Placed("D", VideoSegment(2, 3, 1)), Placed("A", VideoSegment(3, 4, 1));
    ReversedLayout();
    assert Emitted(bids, 4, [0, 0, 0, 0]) == [b, c, d, a];
    assert [b, c, d, a][..3] == [b, c, d] && [b, c, d][..2] == [b, c] && [b, c][..1] == [b] && [b][..0] == [];
    assert ToMap([b]) == map["B" := b.segment];
    assert ToMap([b, c]) == map["B" := b.segment, "C" := c.segment];
    assert ToMap([b, c, d]) == map["B" := b.segment, "C" := c.segment, "D" := d.segment];
    assert ToMap([b, c, d, a]) == map["B" := b.segment, "C" := c.segment, "D" := d.segment, "A" := a.segment];
  }

  lemma ReversedOrder()
    ensures var scaled := [Share("A", 2), Share("B", 1), Share("C", 1), Share("D", 1)];
      Shuffle(scaled, [0, 0, 0, 0]) == [Share("B", 1), Share("C", 1), Share("D", 1), Share("A", 2)]
  {
    var scaled := [Share("A", 2), Share("B", 1), Share("C", 1), Share("D", 1)];
    var s3 := [Share("D", 1), Share("B", 1), Share("C", 1), Share("A", 2)];
    var s2 := [Share("C", 1), Share("B", 1), Share("D", 1), Share("A", 2)];
    assert Swap(scaled, 3, 0) == s3;
    assert Swap(s3, 2, 0) == s2;
    assert Swap(s2, 1, 0) == [Share("B", 1), Share("C", 1), Share("D", 1), Share("A", 2)];
  }

  lemma ReversedLayout()
    ensures Layout([Share("B", 1), Share("C", 1), Share("D", 1), Share("A", 2)], 4, 0)
      == [Placed("B", VideoSegment(0, 1, 1)), Placed("C", VideoSegment(1, 2, 1)),
          Placed("D", VideoSegment(2, 3, 1)), Placed("A", VideoSegment(3, 4, 1))]
  {
    var order := [Share("B", 1), Share("C", 1), Share("D", 1), Share("A", 2)];
    var c, d, a := Placed("C", VideoSegment(1, 2, 1)), Placed("D", VideoSegment(2, 3, 1)), Placed("A", VideoSegment(3, 4, 1));
    assert order[1..][1..] == order[2..] && order[2..][1..] == order[3..];
    assert Layout(order[3..], 4, 3) == [a];
    assert Layout(order[2..], 4, 2) == [d, a];
    assert Layout(order[1..], 4, 1) == [c, d, a];
  }

  // ===========================================================================
  // The imperative allocator
  // ===========================================================================

  /** The `segmentDurations.forEach` scale-down, in place. */
  method ScaleDown(a: array<Share>, total: nat, allotted: int)
    requires allotted > 0
    modifies a
    ensures a[..] == ScaledShares(old(a[..]), total, allotted)
  {
    var k := 0;
    while k < a.Length
      invariant 0 <= k <= a.Length
      invariant forall m :: 0 <= m < k ==> a[m] == ScaledShare(old(a[m]), total, allotted)
      invariant forall m :: k <= m < a.Length ==> a[m] == old(a[m])
    {
      a[k] := ScaledShare(a[k], total, allotted);
      k := k + 1;
    }
  }

  /** The Fisher-Yates loop, in place, with swaps[i] standing for Math.floor(Math.random() * (i + 1)). */
  method ShuffleInPlace(a: array<Share>, swaps: seq<nat>)
    requires SwapIndices(swaps, a.Length)
    modifies a
    ensures a[..] == Shuffle(old(a[..]), swaps)
  {
    if a.Length == 0 {
      return;
    }
    var i := a.Length - 1;
    while i > 0
      invariant 0 <= i < a.Length
      invariant ShuffleSteps(a[..], swaps, i) == Shuffle(old(a[..]), swaps)
      decreases i
    {
      var j := swaps[i];
      ghost var before := a[..];
      a[i], a[j] := a[j], a[i];
      assert a[..] == Swap(before, i, j);
      i := i - 1;
    }
  }

  /** The cursor loop: lays the shuffled entries back to back from 0 into a fresh Map. */
  method PlaceSegments(order: array<Share>, totalDuration: nat) returns (segments: map<string, VideoSegment>)
    requires AllPositive(order[..])
    ensures segments == ToMap(Layout(order[..], totalDuration, 0))
  {
    segments := map[];
    var currentTime := 0;
    var k := 0;
    ghost var emitted: seq<Placed> := [];
    while k < order.Length
      invariant 0 <= k <= order.Length
      invariant 0 <= currentTime <= totalDuration
      invariant Layout(order[..], totalDuration, 0) == emitted + Layout(order[k..], totalDuration, currentTime)
      invariant segments == ToMap(emitted)
    {
      var segment := order[k];
      var startTime := currentTime;
      var endTime := Min(startTime + segment.duration, totalDuration);
      var actualDuration := endTime - startTime;
      ghost var placed := Placed(segment.bidder, VideoSegment(startTime, endTime, actualDuration));
      assert order[k..][1..] == order[k + 1..];
      assert Layout(order[k..], totalDuration, currentTime)
        == [placed] + (if endTime >= totalDuration then [] else Layout(order[k + 1..], totalDuration, endTime));
      segments := segments[segment.bidder := VideoSegment(startTime, endTime, actualDuration)];
      assert (emitted + [placed])[..|emitted|] == emitted;
      emitted := emitted + [placed];
      currentTime := endTime;
      if currentTime >= totalDuration {
        assert Layout(order[..], totalDuration, 0) == emitted;
        break;
      }
      k := k + 1;
    }
    if k == order.Length {
      assert order[k..] == [];
      assert Layout(order[k..], totalDuration, currentTime) == [];
    }
    assert Layout(order[..], totalDuration, 0) == emitted;
  }

  /** segmentDurations after the proportional pass and, when it overshoots, the scale-down. */
  method ComputeSegmentDurations(bids: seq<Bid>, totalDuration: nat) returns (segmentDurations: array<Share>)
    requires AmountSum(bids) > 0
    ensures fresh(segmentDurations)
    ensures segmentDurations[..] == SegmentDurations(bids, totalDuration)
  {
    var totalBidAmount := AmountSum(bids);
    var initial := ProportionalShares(bids, totalDuration, totalBidAmount);
    segmentDurations := new Share[|initial|](i requires 0 <= i < |initial| => initial[i]);
    assert segmentDurations[..] == initial;
    var totalAllocated := DurationSum(initial);
    if totalAllocated > totalDuration {
      ScaleDown(segmentDurations, totalDuration, totalAllocated);
    }
  }

  /**
   * allocateVideoSegmentsByBids: its result is the allocation specified above,
   * so every lemma about Allocation is a guarantee of this method.
   */
  method AllocateVideoSegmentsByBids(bids: seq<Bid>, totalDuration: nat, swaps: seq<nat>)
    returns (segments: map<string, VideoSegment>)
    requires AllocationInput(bids, swaps)
    ensures segments == Allocation(bids, totalDuration, swaps)
    ensures segments.Keys <= Bidders(bids)
    ensures totalDuration > 0 ==> forall b :: b in segments ==>
      0 <= segments[b].startTime < segments[b].endTime <= totalDuration
      && segments[b].duration == segments[b].endTime - segments[b].startTime
  {
    if |bids| == 0 {
      segments := map[];
    } else {
      var segmentDurations := ComputeSegmentDurations(bids, totalDuration);
      SegmentDurationsPositive(bids, totalDuration);
      ShuffleInPlace(segmentDurations, swaps);
      ShufflePermutes(SegmentDurations(bids, totalDuration), swaps);
      segments := PlaceSegments(segmentDurations, totalDuration);
      assert segments == ToMap(Emitted(bids, totalDuration, swaps));
    }
    assert segments == Allocation(bids, totalDuration, swaps);
    AllocationKeys(bids, totalDuration, swaps);
    if totalDuration > 0 {
      AllocationSegmentsInRange(bids, totalDuration, swaps);
    }
  }
}
