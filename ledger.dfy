/**
 * The bid ledger inside placeBid (src/App.tsx): the upsert of one bidder's
 * amount into a copy of currentBids, the descending sort and the winner cut.
 *
 * `Array.prototype.sort` is a library call; JavaScript requires it to be
 * stable, so it is modelled by a stable insertion sort that serves as its
 * reference definition.
 */
module BidLedger {
  import opened Wrappers
  import opened Allocator

  // ---------------------------------------------------------------------------
  // The upsert (findIndex, then replace or push)
  // ---------------------------------------------------------------------------

  /** newBids.findIndex(bid => bid.bidder === bidder) */
  function FindBidder(bids: seq<Bid>, bidder: string): int {
    FirstIndex(BidderNames(bids), bidder)
  }

  /** The copy of currentBids after an existing bidder's amount is replaced or a new bid is pushed. */
  function Upsert(bids: seq<Bid>, bidder: string, amount: nat): (r: seq<Bid>)
    ensures bidder in Bidders(bids) ==> |r| == |bids|
    ensures bidder !in Bidders(bids) ==> |r| == |bids| + 1 && r[..|bids|] == bids && r[|bids|] == Bid(bidder, amount)
    ensures Bidders(r) == Bidders(bids) + {bidder}
    ensures Bid(bidder, amount) in r
    ensures forall k :: 0 <= k < |bids| && bids[k].bidder != bidder ==> r[k] == bids[k]
    ensures DistinctBidders(bids) ==> DistinctBidders(r)
    ensures DistinctBidders(bids) ==> forall k :: 0 <= k < |r| && r[k].bidder == bidder ==> r[k].amount == amount
  {
    var i := FindBidder(bids, bidder);
    assert forall k :: 0 <= k < |bids| ==> BidderNames(bids)[k] == bids[k].bidder;
    if i >= 0 then
      var r := bids[i := bids[i].(amount := amount)];
      assert r[i] == Bid(bidder, amount);
      assert Bidders(r) == Bidders(bids) by {
        forall b | b in Bidders(bids) ensures b in Bidders(r) {
          var k :| 0 <= k < |bids| && bids[k].bidder == b;
          assert r[k].bidder == b;
        }
        forall b | b in Bidders(r) ensures b in Bidders(bids) {
          var k :| 0 <= k < |r| && r[k].bidder == b;
          assert bids[k].bidder == b;
        }
      }
      r
    else
      var r := bids + [Bid(bidder, amount)];
      assert Bidders(r) == Bidders(bids) + {bidder} by {
        forall b | b in Bidders(r) ensures b in Bidders(bids) + {bidder} {
          var k :| 0 <= k < |r| && r[k].bidder == b;
          if k < |bids| { assert bids[k].bidder == b; }
        }
        forall b | b in Bidders(bids) ensures b in Bidders(r) {
          var k :| 0 <= k < |bids| && bids[k].bidder == b;
          assert r[k].bidder == b;
        }
        assert r[|bids|].bidder == bidder;
      }
      r
  }

  // ---------------------------------------------------------------------------
  // The stable descending sort
  // ---------------------------------------------------------------------------

  predicate SortedDesc(bids: seq<Bid>) {
    forall i, j :: 0 <= i < j < |bids| ==> bids[i].amount >= bids[j].amount
  }

  /** Places x after every entry whose amount is at least x's, so x goes behind its ties. */
  function InsertDesc(sorted: seq<Bid>, x: Bid): seq<Bid>
    decreases |sorted|
  {
    if sorted == [] then [x]
    else if sorted[|sorted| - 1].amount >= x.amount then sorted + [x]
    else InsertDesc(sorted[..|sorted| - 1], x) + [sorted[|sorted| - 1]]
  }

  /** newBids.sort((a, b) => b.amount - a.amount), a stable sort. */
  function SortByAmountDesc(bids: seq<Bid>): seq<Bid>
    decreases |bids|
  {
    if bids == [] then []
    else InsertDesc(SortByAmountDesc(bids[..|bids| - 1]), bids[|bids| - 1])
  }

  /** The bids of amount v, in their order: ties keep their relative order iff this is unchanged. */
  function WithAmount(bids: seq<Bid>, v: nat): seq<Bid>
    decreases |bids|
  {
    if bids == [] then []
    else WithAmount(bids[..|bids| - 1], v) + (if bids[|bids| - 1].amount == v then [bids[|bids| - 1]] else [])
  }

  lemma {:induction false} InsertDescSorted(sorted: seq<Bid>, x: Bid)
    requires SortedDesc(sorted)
    ensures multiset(InsertDesc(sorted, x)) == multiset(sorted) + multiset{x}
    ensures |InsertDesc(sorted, x)| == |sorted| + 1
    ensures SortedDesc(InsertDesc(sorted, x))
    decreases |sorted|
  {
    if sorted != [] && sorted[|sorted| - 1].amount < x.amount {
      var init, last := sorted[..|sorted| - 1], sorted[|sorted| - 1];
      assert sorted == init + [last];
      InsertDescSorted(init, x);
      InsertDescBound(init, x, last.amount);
    }
  }

  /** A lower bound on every amount, and on x's, is a lower bound on the insertion's amounts. */
  lemma {:induction false} InsertDescBound(sorted: seq<Bid>, x: Bid, b: nat)
    requires forall k :: 0 <= k < |sorted| ==> sorted[k].amount >= b
    requires x.amount >= b
    ensures forall k :: 0 <= k < |InsertDesc(sorted, x)| ==> InsertDesc(sorted, x)[k].amount >= b
    decreases |sorted|
  {
    if sorted != [] && sorted[|sorted| - 1].amount < x.amount {
      InsertDescBound(sorted[..|sorted| - 1], x, b);
    }
  }

  lemma WithAmountSnoc(s: seq<Bid>, b: Bid, v: nat)
    ensures WithAmount(s + [b], v) == WithAmount(s, v) + (if b.amount == v then [b] else [])
  {
    assert (s + [b])[..|s|] == s;
  }

  lemma {:induction false} InsertDescStable(sorted: seq<Bid>, x: Bid, v: nat)
    requires SortedDesc(sorted)
    ensures WithAmount(InsertDesc(sorted, x), v) == WithAmount(sorted, v) + (if x.amount == v then [x] else [])
    decreases |sorted|
  {
    if sorted == [] {
      WithAmountSnoc([], x, v);
      assert [] + [x] == [x];
    } else {
      var init, last := sorted[..|sorted| - 1], sorted[|sorted| - 1];
      if last.amount >= x.amount {
        WithAmountSnoc(sorted, x, v);
      } else {
        InsertDescStable(init, x, v);
        var ins := InsertDesc(init, x);
        assert InsertDesc(sorted, x) == ins + [last];
        WithAmountSnoc(ins, last, v);
        assert sorted == init + [last];
        WithAmountSnoc(init, last, v);
        assert !(x.amount == v && last.amount == v);
      }
    }
  }

  /** The sort orders by amount, highest first, and loses or duplicates nothing. */
  lemma {:induction false} SortByAmountDescSorts(bids: seq<Bid>)
    ensures SortedDesc(SortByAmountDesc(bids))
    ensures multiset(SortByAmountDesc(bids)) == multiset(bids)
    ensures |SortByAmountDesc(bids)| == |bids|
    decreases |bids|
  {
    if bids != [] {
      var init := bids[..|bids| - 1];
      SortByAmountDescSorts(init);
      InsertDescSorted(SortByAmountDesc(init), bids[|bids| - 1]);
      assert bids == init + [bids[|bids| - 1]];
    }
  }

  /** The sort is stable: for every amount, the bids of that amount keep their relative order. */
  lemma {:induction false} SortByAmountDescStable(bids: seq<Bid>, v: nat)
    ensures WithAmount(SortByAmountDesc(bids), v) == WithAmount(bids, v)
    decreases |bids|
  {
    if bids != [] {
      var init := bids[..|bids| - 1];
      SortByAmountDescSorts(init);
      SortByAmountDescStable(init, v);
      InsertDescStable(SortByAmountDesc(init), bids[|bids| - 1], v);
    }
  }

  lemma {:induction false} InsertDescBidders(sorted: seq<Bid>, x: Bid)
    requires DistinctBidders(sorted) && x.bidder !in Bidders(sorted)
    ensures Bidders(InsertDesc(sorted, x)) == Bidders(sorted) + {x.bidder}
    ensures DistinctBidders(InsertDesc(sorted, x))
    decreases |sorted|
  {
    if sorted == [] {
      assert Bidders([x]) == {x.bidder} by { assert [x][0].bidder == x.bidder; }
    } else {
      var init, last := sorted[..|sorted| - 1], sorted[|sorted| - 1];
      BiddersSnoc(init, last);
      assert sorted == init + [last];
      if last.amount >= x.amount {
        BiddersSnoc(sorted, x);
      } else {
        InsertDescBidders(init, x);
        var ins := InsertDesc(init, x);
        BiddersSnoc(ins, last);
        forall k | 0 <= k < |init| ensures init[k].bidder != last.bidder {
          assert sorted[k] == init[k];
        }
        assert last.bidder != x.bidder by { assert sorted[|sorted| - 1] == last; }
        assert last.bidder !in Bidders(ins);
        forall i, j | 0 <= i < j < |ins + [last]| ensures (ins + [last])[i].bidder != (ins + [last])[j].bidder {
          if j == |ins| {
            assert (ins + [last])[i] == ins[i];
            assert ins[i].bidder in Bidders(ins);
          }
        }
      }
    }
  }

  lemma BiddersSnoc(s: seq<Bid>, x: Bid)
    ensures Bidders(s + [x]) == Bidders(s) + {x.bidder}
  {
    var t := s + [x];
    forall b | b in Bidders(t) ensures b in Bidders(s) + {x.bidder} {
      var k :| 0 <= k < |t| && t[k].bidder == b;
      if k < |s| { assert s[k].bidder == b; }
    }
    forall b | b in Bidders(s) ensures b in Bidders(t) {
      var k :| 0 <= k < |s| && s[k].bidder == b;
      assert t[k].bidder == b;
    }
    assert t[|s|].bidder == x.bidder;
  }

  /** Sorting keeps the set of bidders, and a ledger with one bid per bidder stays so. */
  lemma {:induction false} SortByAmountDescBidders(bids: seq<Bid>)
    requires DistinctBidders(bids)
    ensures Bidders(SortByAmountDesc(bids)) == Bidders(bids)
    ensures DistinctBidders(SortByAmountDesc(bids))
    decreases |bids|
  {
    if bids != [] {
      var init, last := bids[..|bids| - 1], bids[|bids| - 1];
      assert bids == init + [last];
      BiddersSnoc(init, last);
      assert DistinctBidders(init) by {
        forall i, j | 0 <= i < j < |init| ensures init[i].bidder != init[j].bidder {
          assert bids[i] == init[i] && bids[j] == init[j];
        }
      }
      forall k | 0 <= k < |init| ensures init[k].bidder != last.bidder {
        assert bids[k] == init[k];
      }
      SortByAmountDescBidders(init);
      InsertDescBidders(SortByAmountDesc(init), last);
    }
  }

  /** InsertDesc puts x at the point after which every amount is smaller than x's. */
  lemma {:induction false} InsertDescAt(sorted: seq<Bid>, x: Bid, j: nat)
    requires j <= |sorted| && (j == 0 || sorted[j - 1].amount >= x.amount)
    requires forall k :: j <= k < |sorted| ==> sorted[k].amount < x.amount
    ensures InsertDesc(sorted, x) == sorted[..j] + [x] + sorted[j..]
    decreases |sorted|
  {
    if j < |sorted| {
      var init := sorted[..|sorted| - 1];
      InsertDescAt(init, x, j);
      assert init[..j] == sorted[..j];
      assert sorted[j..] == init[j..] + [sorted[|sorted| - 1]];
    } else {
      assert sorted[..j] == sorted;
    }
  }

  /** Moves a[i] left past every entry of a[..i] with a smaller amount. */
  method InsertInPlace(a: array<Bid>, i: nat)
    requires i < a.Length
    modifies a
    ensures a[..i + 1] == InsertDesc(old(a[..i]), old(a[i]))
    ensures forall k :: i < k < a.Length ==> a[k] == old(a[k])
  {
    ghost var sorted := a[..i];
    var x := a[i];
    var j := i;
    while j > 0 && a[j - 1].amount < x.amount
      invariant 0 <= j <= i
      invariant forall k :: 0 <= k < j ==> a[k] == sorted[k]
      invariant forall k :: j < k <= i ==> a[k] == sorted[k - 1]
      invariant forall k :: i < k < a.Length ==> a[k] == old(a[k])
      invariant forall k :: j <= k < i ==> sorted[k].amount < x.amount
    {
      a[j] := a[j - 1];
      j := j - 1;
    }
    InsertDescAt(sorted, x, j);
    a[j] := x;
    ghost var expected := sorted[..j] + [x] + sorted[j..];
    assert forall k :: 0 <= k <= i ==> a[k] == expected[k];
    assert a[..i + 1] == expected;
  }

  /** The in-place sort of newBids: an insertion sort, so equal amounts keep their order. */
  method SortBidsInPlace(a: array<Bid>)
    modifies a
    ensures a[..] == SortByAmountDesc(old(a[..]))
  {
    ghost var input := a[..];
    var i := 0;
    while i < a.Length
      invariant 0 <= i <= a.Length
      invariant a[..i] == SortByAmountDesc(input[..i])
      invariant forall k :: i <= k < a.Length ==> a[k] == input[k]
    {
      assert input[..i + 1][..i] == input[..i];
      assert a[i] == input[i];
      InsertInPlace(a, i);
      i := i + 1;
    }
    assert input[..a.Length] == input;
    assert a[..a.Length] == a[..];
  }

  /** On a ranking, the first amount is at least that of every bid present. */
  lemma TopAmountAtLeast(ranked: seq<Bid>, b: Bid)
    requires SortedDesc(ranked) && b in multiset(ranked)
    ensures ranked[0].amount >= b.amount
  {
    var m :| 0 <= m < |ranked| && ranked[m] == b;
  }

  lemma {:induction false} AmountSumNonNegative(bids: seq<Bid>)
    ensures AmountSum(bids) >= 0
    decreases |bids|
  {
    if bids != [] {
      assert Amounts(bids)[1..] == Amounts(bids[1..]);
      AmountSumNonNegative(bids[1..]);
    }
  }

  /** With no negative amounts, the total is at least the first amount. */
  lemma AmountSumAtLeastFirst(bids: seq<Bid>)
    requires bids != []
    ensures AmountSum(bids) >= bids[0].amount
  {
    assert Amounts(bids)[1..] == Amounts(bids[1..]);
    AmountSumNonNegative(bids[1..]);
  }

  // ---------------------------------------------------------------------------
  // The winner cut
  // ---------------------------------------------------------------------------

  /** `maxWinners || 1`, with 0 standing for an unset maxWinners. */
  function EffectiveMaxWinners(maxWinners: nat): (k: nat)
    ensures k >= 1
    ensures maxWinners >= 1 ==> k == maxWinners
  {
    if maxWinners == 0 then 1 else maxWinners
  }

  /** bids.slice(0, n) */
  function Take(bids: seq<Bid>, n: nat): (r: seq<Bid>)
    ensures |r| == Min(n, |bids|) && r == bids[..|r|]
  {
    if n <= |bids| then bids[..n] else bids
  }

  /** bids.map(bid => bid.bidder) */
  function BidderNames(bids: seq<Bid>): seq<string> {
    seq(|bids|, i requires 0 <= i < |bids| => bids[i].bidder)
  }

  /** newBids.slice(0, maxWinners).map(bid => bid.bidder) */
  function WinnersOf(ranked: seq<Bid>, maxWinners: nat): seq<string> {
    BidderNames(Take(ranked, EffectiveMaxWinners(maxWinners)))
  }

  /**
   * The winners are the bidders of the first min(maxWinners || 1, n) ranked
   * bids, and on a ranking no loser outbid a winner.
   */
  lemma WinnersAreTopBids(ranked: seq<Bid>, maxWinners: nat)
    ensures |WinnersOf(ranked, maxWinners)| == Min(EffectiveMaxWinners(maxWinners), |ranked|)
    ensures forall i :: 0 <= i < |WinnersOf(ranked, maxWinners)| ==> WinnersOf(ranked, maxWinners)[i] == ranked[i].bidder
    ensures SortedDesc(ranked) ==> forall i, j ::
      0 <= i < |WinnersOf(ranked, maxWinners)| <= j < |ranked| ==> ranked[i].amount >= ranked[j].amount
  {
  }

  /** The ranking example: A bids 100, B 150, then A 200 — A's first bid is replaced, not kept. */
  lemma RankingExample()
    ensures Upsert(Upsert(Upsert([], "A", 100), "B", 150), "A", 200) == [Bid("A", 200), Bid("B", 150)]
    ensures SortByAmountDesc([Bid("A", 200), Bid("B", 150)]) == [Bid("A", 200), Bid("B", 150)]
  {
    UpsertExampleSteps();
    var s := [Bid("A", 200), Bid("B", 150)];
    assert s[..1] == [Bid("A", 200)];
    assert [Bid("A", 200)][..0] == [];
  }

  lemma UpsertExampleSteps()
    ensures Upsert([], "A", 100) == [Bid("A", 100)]
    ensures Upsert([Bid("A", 100)], "B", 150) == [Bid("A", 100), Bid("B", 150)]
    ensures Upsert([Bid("A", 100), Bid("B", 150)], "A", 200) == [Bid("A", 200), Bid("B", 150)]
  {
    assert Upsert([], "A", 100) == [Bid("A", 100)] by {
      assert FindBidder([], "A") == -1;
    }
    assert Upsert([Bid("A", 100)], "B", 150) == [Bid("A", 100), Bid("B", 150)] by {
      assert FindBidder([Bid("A", 100)], "B") == -1 by { assert [Bid("A", 100)][1..] == []; }
    }
    assert Upsert([Bid("A", 100), Bid("B", 150)], "A", 200) == [Bid("A", 200), Bid("B", 150)] by {
      assert FindBidder([Bid("A", 100), Bid("B", 150)], "A") == 0;
    }
  }

  /** The winner-truncation example: with two winners A 300, B 250, C 200 leave C out. */
  lemma WinnerTruncationExample()
    ensures WinnersOf([Bid("A", 300), Bid("B", 250), Bid("C", 200)], 2) == ["A", "B"]
  {
  }
}
