/**
 * The application state of src/App.tsx: the list of work slots (auctioned
 * time slots of a creator's work session), the current demo user, and the
 * context operations that update them.
 *
 * A WorkSlot is a value; `updateWorkSlot` merges a Partial<WorkSlot> into
 * every slot with a given id. The React state itself (workSlots and
 * currentUserId) is the class AppState, whose methods reassign its fields.
 * Optional boolean and array fields are modelled with their falsy default
 * (false, [], 0) wherever the source only ever reads them through `||` or a
 * truthiness test.
 */
module App {
  import opened Wrappers
  import opened Allocator
  import opened BidLedger

  type SegmentMap = map<string, VideoSegment>

  /** The uploaded File: only its name, MIME type and size in bytes are read. */
  datatype VideoFile = VideoFile(name: string, mimeType: string, size: nat)

  /**
   * The fields of WorkSlot that the core reads or writes. Timestamps are
   * milliseconds handed in by the caller; maxWinners 0 and
   * totalVideoDuration 0 stand for an unset field.
   */
  datatype WorkSlot = WorkSlot(
    id: string,
    creator: string,
    currentPrice: nat,
    isOwned: bool,
    isUnlocked: bool,
    highestBidder: Option<string>,
    auctionEnded: bool,
    isMyListing: bool,
    workInProgress: bool,
    workCompleted: bool,
    workStartedAt: Option<int>,
    workCompletedAt: Option<int>,
    maxWinners: nat,
    currentBids: Option<seq<Bid>>,
    winners: seq<string>,
    uploadedVideoFile: Option<VideoFile>,
    videoSegments: Option<SegmentMap>,
    totalVideoDuration: nat)

  /**
   * A Partial<WorkSlot> as the core builds them: None leaves a field alone.
   * videoSegments may be set to undefined, hence its nested Option.
   */
  datatype Patch = Patch(
    currentPrice: Option<nat>,
    highestBidder: Option<string>,
    currentBids: Option<seq<Bid>>,
    winners: Option<seq<string>>,
    isOwned: Option<bool>,
    videoSegments: Option<Option<SegmentMap>>,
    auctionEnded: Option<bool>,
    workInProgress: Option<bool>,
    workCompleted: Option<bool>,
    workStartedAt: Option<int>,
    workCompletedAt: Option<int>,
    uploadedVideoFile: Option<VideoFile>,
    isUnlocked: Option<bool>)

  const NoChange: Patch :=
    Patch(None, None, None, None, None, None, None, None, None, None, None, None, None)

  /** `{ ...workSlot, ...updates }` */
  function Apply(ws: WorkSlot, p: Patch): WorkSlot {
    ws.(
      currentPrice := p.currentPrice.GetOr(ws.currentPrice),
      highestBidder := if p.highestBidder.Some? then p.highestBidder else ws.highestBidder,
      currentBids := if p.currentBids.Some? then p.currentBids else ws.currentBids,
      winners := p.winners.GetOr(ws.winners),
      isOwned := p.isOwned.GetOr(ws.isOwned),
      videoSegments := p.videoSegments.GetOr(ws.videoSegments),
      auctionEnded := p.auctionEnded.GetOr(ws.auctionEnded),
      workInProgress := p.workInProgress.GetOr(ws.workInProgress),
      workCompleted := p.workCompleted.GetOr(ws.workCompleted),
      workStartedAt := if p.workStartedAt.Some? then p.workStartedAt else ws.workStartedAt,
      workCompletedAt := if p.workCompletedAt.Some? then p.workCompletedAt else ws.workCompletedAt,
      uploadedVideoFile := if p.uploadedVideoFile.Some? then p.uploadedVideoFile else ws.uploadedVideoFile,
      isUnlocked := p.isUnlocked.GetOr(ws.isUnlocked))
  }

  /** Merging the same updates twice is merging them once; the empty update changes nothing. */
  lemma ApplyIdempotent(ws: WorkSlot, p: Patch)
    ensures Apply(Apply(ws, p), p) == Apply(ws, p)
    ensures Apply(ws, NoChange) == ws
    ensures Apply(ws, p).id == ws.id && Apply(ws, p).creator == ws.creator
  {
  }

  // ---------------------------------------------------------------------------
  // Slot lookup and update
  // ---------------------------------------------------------------------------

  /** The slots' ids, in order. */
  function Ids(slots: seq<WorkSlot>): seq<string> {
    seq(|slots|, k requires 0 <= k < |slots| => slots[k].id)
  }

  /** The index workSlots.find(w => w.id === id) stops at, or -1. */
  function SlotIndex(slots: seq<WorkSlot>, id: string): int {
    FirstIndex(Ids(slots), id)
  }

  /** workSlots.find(w => w.id === id) */
  function FindSlot(slots: seq<WorkSlot>, id: string): (r: Option<WorkSlot>)
    ensures r.None? <==> forall k :: 0 <= k < |slots| ==> slots[k].id != id
    ensures r.Some? ==> r.value.id == id && r.value in slots
  {
    var i := SlotIndex(slots, id);
    assert forall k :: 0 <= k < |slots| ==> Ids(slots)[k] == slots[k].id;
    if i < 0 then None else Some(slots[i])
  }

  /** The list after updateWorkSlot(id, updates). */
  function UpdateWorkSlots(slots: seq<WorkSlot>, id: string, p: Patch): (r: seq<WorkSlot>)
    ensures |r| == |slots|
    ensures forall k :: 0 <= k < |slots| ==> r[k].id == slots[k].id && r[k].creator == slots[k].creator
    ensures forall k :: 0 <= k < |slots| && slots[k].id != id ==> r[k] == slots[k]
    ensures forall k :: 0 <= k < |slots| && slots[k].id == id ==> r[k] == Apply(slots[k], p)
    ensures (forall k :: 0 <= k < |slots| ==> slots[k].id != id) ==> r == slots
  {
    seq(|slots|, k requires 0 <= k < |slots| => if slots[k].id == id then Apply(slots[k], p) else slots[k])
  }

  lemma SlotIndexByIds(s: seq<WorkSlot>, t: seq<WorkSlot>, id: string)
    requires |s| == |t| && forall k :: 0 <= k < |s| ==> s[k].id == t[k].id
    ensures SlotIndex(s, id) == SlotIndex(t, id)
  {
    assert Ids(s) == Ids(t);
  }

  /** After an update, find returns the updated slot for that id and the old slot for any other. */
  lemma FindAfterUpdate(slots: seq<WorkSlot>, id: string, p: Patch, other: string)
    ensures FindSlot(UpdateWorkSlots(slots, id, p), id)
      == (if FindSlot(slots, id).Some? then Some(Apply(FindSlot(slots, id).value, p)) else None)
    ensures other != id ==> FindSlot(UpdateWorkSlots(slots, id, p), other) == FindSlot(slots, other)
  {
    SlotIndexByIds(slots, UpdateWorkSlots(slots, id, p), id);
    SlotIndexByIds(slots, UpdateWorkSlots(slots, id, p), other);
  }

  /** Repeating an update with the same arguments changes nothing more. */
  lemma UpdateWorkSlotsIdempotent(slots: seq<WorkSlot>, id: string, p: Patch)
    ensures UpdateWorkSlots(UpdateWorkSlots(slots, id, p), id, p) == UpdateWorkSlots(slots, id, p)
  {
    var once := UpdateWorkSlots(slots, id, p);
    var twice := UpdateWorkSlots(once, id, p);
    forall k | 0 <= k < |slots| ensures twice[k] == once[k] {
      if slots[k].id == id {
        ApplyIdempotent(slots[k], p);
      }
    }
  }

  /** getVideoSegment(id, bidder) */
  function GetVideoSegment(slots: seq<WorkSlot>, id: string, bidder: string): (r: Option<VideoSegment>)
    ensures r.Some? <==> FindSlot(slots, id).Some? && FindSlot(slots, id).value.videoSegments.Some?
                          && bidder in FindSlot(slots, id).value.videoSegments.value
  {
    match FindSlot(slots, id)
    case None => None
    case Some(ws) =>
      match ws.videoSegments
      case None => None
      case Some(segments) => if bidder in segments then Some(segments[bidder]) else None
  }

  // ---------------------------------------------------------------------------
  // placeBid
  // ---------------------------------------------------------------------------

  /** `workSlot.totalVideoDuration || 3600` */
  function TotalDuration(ws: WorkSlot): (t: nat)
    ensures t > 0
  {
    if ws.totalVideoDuration == 0 then DefaultTotalDuration else ws.totalVideoDuration
  }

  /** newBids after the upsert and the sort. */
  function RankedBids(ws: WorkSlot, bidder: string, amount: nat): (r: seq<Bid>)
    ensures |r| >= 1
  {
    var upserted := Upsert(ws.currentBids.GetOr([]), bidder, amount);
    SortByAmountDescSorts(upserted);
    SortByAmountDesc(upserted)
  }

  /**
   * What placeBid needs for its allocator call: when maxWinners > 1 the top
   * amounts must not all be zero (the source divides by their sum), and the
   * shuffle needs one draw per winner.
   */
  predicate BidAllocatable(ws: WorkSlot, bidder: string, amount: nat, swaps: seq<nat>) {
    EffectiveMaxWinners(ws.maxWinners) > 1 ==>
      AllocationInput(Take(RankedBids(ws, bidder, amount), EffectiveMaxWinners(ws.maxWinners)), swaps)
  }

  /** The updates placeBid(id, amount, bidder) merges into the slot ws, with `user` as currentUser. */
  function BidPatch(ws: WorkSlot, amount: nat, bidder: string, user: string, swaps: seq<nat>): Patch
    requires BidAllocatable(ws, bidder, amount, swaps)
  {
    var ranked := RankedBids(ws, bidder, amount);
    var k := EffectiveMaxWinners(ws.maxWinners);
    var winners := WinnersOf(ranked, ws.maxWinners);
    var highest := if ranked[0].amount != 0 then ranked[0].amount else ws.currentPrice;
    var segments := if k > 1 then Some(Allocation(Take(ranked, k), TotalDuration(ws), swaps)) else ws.videoSegments;
    NoChange.(
      currentPrice := Some(highest),
      highestBidder := Some(ranked[0].bidder),
      currentBids := Some(ranked),
      winners := Some(winners),
      isOwned := Some(user in winners),
      videoSegments := Some(segments))
  }

  predicate PlaceBidDefined(slots: seq<WorkSlot>, id: string, amount: nat, bidder: string, swaps: seq<nat>) {
    FindSlot(slots, id).Some? ==> BidAllocatable(FindSlot(slots, id).value, bidder, amount, swaps)
  }

  /** The list after placeBid(id, amount, bidder); an unknown id leaves it as it was. */
  function PlaceBidSlots(slots: seq<WorkSlot>, id: string, amount: nat, bidder: string, user: string, swaps: seq<nat>)
    : (r: seq<WorkSlot>)
    requires PlaceBidDefined(slots, id, amount, bidder, swaps)
    ensures FindSlot(slots, id).None? ==> r == slots
    ensures |r| == |slots| && forall k :: 0 <= k < |slots| && slots[k].id != id ==> r[k] == slots[k]
  {
    match FindSlot(slots, id)
    case None => slots
    case Some(ws) => UpdateWorkSlots(slots, id, BidPatch(ws, amount, bidder, user, swaps))
  }

  /**
   * A positive bid always makes the allocator call well defined: the top
   * amount is at least the new bid, so the winners' total is positive.
   */
  lemma PositiveBidAllocatable(ws: WorkSlot, bidder: string, amount: nat, swaps: seq<nat>)
    requires amount > 0 && SwapIndices(swaps, |ws.currentBids.GetOr([])| + 1)
    ensures BidAllocatable(ws, bidder, amount, swaps)
  {
    var upserted := Upsert(ws.currentBids.GetOr([]), bidder, amount);
    SortByAmountDescSorts(upserted);
    var ranked := RankedBids(ws, bidder, amount);
    TopAmountAtLeast(ranked, Bid(bidder, amount));
    var top := Take(ranked, EffectiveMaxWinners(ws.maxWinners));
    AmountSumAtLeastFirst(top);
  }

  /** On a known id, find then returns the slot with placeBid's updates merged in. */
  lemma PlaceBidFinds(slots: seq<WorkSlot>, id: string, amount: nat, bidder: string, user: string, swaps: seq<nat>)
    requires PlaceBidDefined(slots, id, amount, bidder, swaps) && FindSlot(slots, id).Some?
    ensures FindSlot(PlaceBidSlots(slots, id, amount, bidder, user, swaps), id)
      == Some(Apply(FindSlot(slots, id).value, BidPatch(FindSlot(slots, id).value, amount, bidder, user, swaps)))
  {
    var ws := FindSlot(slots, id).value;
    FindAfterUpdate(slots, id, BidPatch(ws, amount, bidder, user, swaps), id);
  }

  /**
   * The ledger placeBid stores is the upserted one sorted by amount, highest
   * first, with nothing lost or duplicated and equal amounts in their prior order.
   */
  lemma PlaceBidLedger(ws: WorkSlot, amount: nat, bidder: string, user: string, swaps: seq<nat>)
    requires BidAllocatable(ws, bidder, amount, swaps)
    ensures var after := Apply(ws, BidPatch(ws, amount, bidder, user, swaps));
      var upserted := Upsert(ws.currentBids.GetOr([]), bidder, amount);
      after.currentBids.Some?
      && SortedDesc(after.currentBids.value)
      && multiset(after.currentBids.value) == multiset(upserted)
      && forall v :: WithAmount(after.currentBids.value, v) == WithAmount(upserted, v)
  {
    var upserted := Upsert(ws.currentBids.GetOr([]), bidder, amount);
    SortByAmountDescSorts(upserted);
    forall v ensures WithAmount(SortByAmountDesc(upserted), v) == WithAmount(upserted, v) {
      SortByAmountDescStable(upserted, v);
    }
  }

  /**
   * The winners are the first maxWinners||1 ranked bidders, highestBidder the
   * first one, ownership is the current user's membership, the price is the
   * top amount unless that is 0 (then the old price stays), and for a
   * positive bid it is the top amount, at least the bid.
   */
  lemma PlaceBidWinners(ws: WorkSlot, amount: nat, bidder: string, user: string, swaps: seq<nat>)
    requires BidAllocatable(ws, bidder, amount, swaps)
    ensures var after := Apply(ws, BidPatch(ws, amount, bidder, user, swaps));
      var ranked := RankedBids(ws, bidder, amount);
      after.currentBids == Some(ranked)
      && |after.winners| == Min(EffectiveMaxWinners(ws.maxWinners), |ranked|)
      && (forall i :: 0 <= i < |after.winners| ==> after.winners[i] == ranked[i].bidder)
      && after.highestBidder == Some(ranked[0].bidder)
      && after.isOwned == (user in after.winners)
      && after.currentPrice == (if ranked[0].amount != 0 then ranked[0].amount else ws.currentPrice)
      && (amount > 0 ==> after.currentPrice == ranked[0].amount >= amount)
  {
    var ranked := RankedBids(ws, bidder, amount);
    WinnersAreTopBids(ranked, ws.maxWinners);
    if amount > 0 {
      var upserted := Upsert(ws.currentBids.GetOr([]), bidder, amount);
      SortByAmountDescSorts(upserted);
      TopAmountAtLeast(ranked, Bid(bidder, amount));
    }
  }

  /**
   * Segments are re-allocated from the winning bids only when more than one
   * winner is allowed, and left as they were otherwise; no other field of
   * the slot changes.
   */
  lemma PlaceBidSegments(ws: WorkSlot, amount: nat, bidder: string, user: string, swaps: seq<nat>)
    requires BidAllocatable(ws, bidder, amount, swaps)
    ensures var after := Apply(ws, BidPatch(ws, amount, bidder, user, swaps));
      var ranked := RankedBids(ws, bidder, amount);
      var k := EffectiveMaxWinners(ws.maxWinners);
      (k > 1 ==> after.videoSegments == Some(Allocation(Take(ranked, k), TotalDuration(ws), swaps)))
      && (k == 1 ==> after.videoSegments == ws.videoSegments)
      && after.(currentPrice := ws.currentPrice, highestBidder := ws.highestBidder,
                currentBids := ws.currentBids, winners := ws.winners,
                isOwned := ws.isOwned, videoSegments := ws.videoSegments) == ws
  {
  }

  /** Placing a bid never touches the auction and work flags, whatever the phase. */
  lemma PlaceBidKeepsFlags(ws: WorkSlot, amount: nat, bidder: string, user: string, swaps: seq<nat>)
    requires BidAllocatable(ws, bidder, amount, swaps)
    ensures var after := Apply(ws, BidPatch(ws, amount, bidder, user, swaps));
      after.auctionEnded == ws.auctionEnded && after.workInProgress == ws.workInProgress
      && after.workCompleted == ws.workCompleted && after.isUnlocked == ws.isUnlocked
      && after.isMyListing == ws.isMyListing
  {
  }

  // ---------------------------------------------------------------------------
  // allocateVideoSegments
  // ---------------------------------------------------------------------------

  predicate AllocateDefined(slots: seq<WorkSlot>, id: string, swaps: seq<nat>) {
    FindSlot(slots, id).Some? && FindSlot(slots, id).value.currentBids.Some? ==>
      var ws := FindSlot(slots, id).value;
      AllocationInput(Take(ws.currentBids.value, EffectiveMaxWinners(ws.maxWinners)), swaps)
  }

  /** The list after allocateVideoSegments(id): segments from the first maxWinners||1 bids. */
  function AllocateSlots(slots: seq<WorkSlot>, id: string, swaps: seq<nat>): (r: seq<WorkSlot>)
    requires AllocateDefined(slots, id, swaps)
    ensures (FindSlot(slots, id).None? || FindSlot(slots, id).value.currentBids.None?) ==> r == slots
    ensures |r| == |slots| && forall k :: 0 <= k < |slots| && slots[k].id != id ==> r[k] == slots[k]
  {
    match FindSlot(slots, id)
    case None => slots
    case Some(ws) =>
      if ws.currentBids.None? then slots
      else
        var winning := Take(ws.currentBids.value, EffectiveMaxWinners(ws.maxWinners));
        UpdateWorkSlots(slots, id, NoChange.(videoSegments := Some(Some(Allocation(winning, TotalDuration(ws), swaps)))))
  }

  /**
   * After allocateVideoSegments, getVideoSegment returns exactly the
   * allocation's entry for the bidder: it answers only for winning bidders,
   * and every answer is a non-empty interval inside the video.
   */
  lemma AllocateThenGet(slots: seq<WorkSlot>, id: string, swaps: seq<nat>, bidder: string)
    requires AllocateDefined(slots, id, swaps)
    requires FindSlot(slots, id).Some? && FindSlot(slots, id).value.currentBids.Some?
    ensures var ws := FindSlot(slots, id).value;
      var seg := GetVideoSegment(AllocateSlots(slots, id, swaps), id, bidder);
      var a := Allocation(Take(ws.currentBids.value, EffectiveMaxWinners(ws.maxWinners)), TotalDuration(ws), swaps);
      seg == (if bidder in a then Some(a[bidder]) else None)
      && (seg.Some? ==> bidder in Bidders(Take(ws.currentBids.value, EffectiveMaxWinners(ws.maxWinners))))
      && (seg.Some? ==> 0 <= seg.value.startTime < seg.value.endTime <= TotalDuration(ws)
                        && seg.value.duration == seg.value.endTime - seg.value.startTime)
  {
    var ws := FindSlot(slots, id).value;
    var winning := Take(ws.currentBids.value, EffectiveMaxWinners(ws.maxWinners));
    var patch := NoChange.(videoSegments := Some(Some(Allocation(winning, TotalDuration(ws), swaps))));
    FindAfterUpdate(slots, id, patch, id);
    AllocationKeys(winning, TotalDuration(ws), swaps);
    AllocationSegmentsInRange(winning, TotalDuration(ws), swaps);
  }

  // ---------------------------------------------------------------------------
  // The lifecycle setters
  // ---------------------------------------------------------------------------

  /** endAuction's updates for a slot with these winners. */
  function EndAuctionPatch(winners: seq<string>, user: string): Patch {
    NoChange.(auctionEnded := Some(true), isOwned := Some(user in winners))
  }

  /** The list after endAuction(id); an unknown id leaves it as it was. */
  function EndAuctionSlots(slots: seq<WorkSlot>, id: string, user: string): (r: seq<WorkSlot>)
    ensures FindSlot(slots, id).None? ==> r == slots
    ensures |r| == |slots| && forall k :: 0 <= k < |slots| && slots[k].id != id ==> r[k] == slots[k]
  {
    match FindSlot(slots, id)
    case None => slots
    case Some(ws) => UpdateWorkSlots(slots, id, EndAuctionPatch(ws.winners, user))
  }

  /** startWork's updates, stamped with the time `now`. */
  function StartWorkPatch(now: int): Patch {
    NoChange.(workInProgress := Some(true), workStartedAt := Some(now))
  }

  /** completeWork's updates: the file is recorded only when one is given. */
  function CompleteWorkPatch(videoFile: Option<VideoFile>, now: int): Patch {
    NoChange.(workInProgress := Some(false), workCompleted := Some(true),
              workCompletedAt := Some(now), uploadedVideoFile := videoFile)
  }

  function UnlockVideoPatch(): Patch {
    NoChange.(isUnlocked := Some(true))
  }

  // ---------------------------------------------------------------------------
  // Users
  // ---------------------------------------------------------------------------

  datatype User = User(id: string, name: string)

  const DemoUsers: seq<User> := [
    User("creator1", "クリエイターA"),
    User("bidder1", "ユーザーX"),
    User("artist1", "アーティストB"),
    User("newuser", "新規ユーザー")
  ]

  const DefaultUserName: string := "クリエイターA"

  /** demoUsers.find(user => user.id === userId)?.name */
  function UserName(users: seq<User>, userId: string): (r: Option<string>)
    ensures r.Some? <==> exists k :: 0 <= k < |users| && users[k].id == userId
    ensures r.Some? ==> exists k :: 0 <= k < |users| && users[k].id == userId && users[k].name == r.value
  {
    if users == [] then None
    else if users[0].id == userId then Some(users[0].name)
    else
      var r := UserName(users[1..], userId);
      assert forall k :: 0 <= k < |users[1..]| ==> users[1..][k] == users[k + 1];
      r
  }

  /** `currentUser`: the user's name, or 'クリエイターA' when the id is unknown or the name empty. */
  function CurrentUserName(userId: string): (name: string)
    ensures name != ""
  {
    var n := UserName(DemoUsers, userId).GetOr("");
    if n == "" then DefaultUserName else n
  }

  /** The name switchUser matches ownership against: '' for an unknown id. */
  function SwitchedUserName(userId: string): string {
    UserName(DemoUsers, userId).GetOr("")
  }

  /** switchUser's recomputation for one slot. */
  function SwitchSlot(ws: WorkSlot, name: string): WorkSlot {
    ws.(isOwned := name in ws.winners || (ws.auctionEnded && name in ws.winners),
        isMyListing := ws.creator == name)
  }

  function SwitchSlots(slots: seq<WorkSlot>, name: string): (r: seq<WorkSlot>)
    ensures |r| == |slots|
  {
    seq(|slots|, k requires 0 <= k < |slots| => SwitchSlot(slots[k], name))
  }

  /**
   * After switchUser, a slot is owned exactly when the user is among its
   * winners (the auctionEnded disjunct adds nothing), it is the user's
   * listing exactly when the user created it, and nothing else changes.
   */
  lemma SwitchOwnership(slots: seq<WorkSlot>, name: string)
    ensures forall k :: 0 <= k < |slots| ==>
      var after := SwitchSlots(slots, name)[k];
      after.isOwned == (name in slots[k].winners)
      && after.isMyListing == (slots[k].creator == name)
      && after.(isOwned := slots[k].isOwned, isMyListing := slots[k].isMyListing) == slots[k]
  {
  }

  /**
   * For an id that names no demo user, the header's currentUser falls back
   * to 'クリエイターA' while switchUser matched the slots against '': that
   * creator's slots then stop being "my listing" although the header
   * shows that creator.
   */
  lemma UnknownUserMismatch()
    ensures CurrentUserName("nobody") == "クリエイターA"
    ensures SwitchedUserName("nobody") == ""
    ensures !SwitchSlot(WorkSlot("1", "クリエイターA", 0, false, false, None, false, true, false, false,
                                 None, None, 1, None, [], None, None, 0), SwitchedUserName("nobody")).isMyListing
  {
    assert UserName(DemoUsers, "nobody") == None;
  }

  // ---------------------------------------------------------------------------
  // The context's state
  // ---------------------------------------------------------------------------

  /** The App component's workSlots and currentUserId state. */
  class AppState {
    var workSlots: seq<WorkSlot>
    var currentUserId: string

    constructor(initial: seq<WorkSlot>)
      ensures workSlots == initial && currentUserId == "creator1"
    {
      workSlots := initial;
      currentUserId := "creator1";
    }

    function CurrentUser(): string
      reads this
    {
      CurrentUserName(currentUserId)
    }

    method UpdateWorkSlot(id: string, updates: Patch)
      modifies this
      ensures workSlots == UpdateWorkSlots(old(workSlots), id, updates)
      ensures currentUserId == old(currentUserId)
    {
      workSlots := UpdateWorkSlots(workSlots, id, updates);
    }

    method PlaceBid(id: string, amount: nat, bidder: string, swaps: seq<nat>)
      requires PlaceBidDefined(workSlots, id, amount, bidder, swaps)
      modifies this
      ensures workSlots == PlaceBidSlots(old(workSlots), id, amount, bidder, old(CurrentUser()), swaps)
      ensures currentUserId == old(currentUserId)
    {
      var found := FindSlot(workSlots, id);
      if found.Some? {
        var ws := found.value;
        var newBids := ws.currentBids.GetOr([]);
        var existing := FindBidder(newBids, bidder);
        if existing >= 0 {
          newBids := newBids[existing := newBids[existing].(amount := amount)];
        } else {
          newBids := newBids + [Bid(bidder, amount)];
        }
        assert newBids == Upsert(ws.currentBids.GetOr([]), bidder, amount);
        var sorting := new Bid[|newBids|](k requires 0 <= k < |newBids| reads {} => newBids[k]);
        assert sorting[..] == newBids;
        SortBidsInPlace(sorting);
        newBids := sorting[..];
        var maxWinners := EffectiveMaxWinners(ws.maxWinners);
        var winners := WinnersOf(newBids, ws.maxWinners);
        var highestAmount := if newBids[0].amount != 0 then newBids[0].amount else ws.currentPrice;
        var videoSegments := ws.videoSegments;
        if maxWinners > 1 {
          var segments := AllocateVideoSegmentsByBids(Take(newBids, maxWinners), TotalDuration(ws), swaps);
          videoSegments := Some(segments);
        }
        UpdateWorkSlot(id, NoChange.(
          currentPrice := Some(highestAmount),
          highestBidder := Some(newBids[0].bidder),
          currentBids := Some(newBids),
          winners := Some(winners),
          isOwned := Some(CurrentUser() in winners),
          videoSegments := Some(videoSegments)));
      }
    }

    method AllocateVideoSegments(id: string, swaps: seq<nat>)
      requires AllocateDefined(workSlots, id, swaps)
      modifies this
      ensures workSlots == AllocateSlots(old(workSlots), id, swaps)
      ensures currentUserId == old(currentUserId)
    {
      var found := FindSlot(workSlots, id);
      if found.None? || found.value.currentBids.None? {
        return;
      }
      var ws := found.value;
      var winningBids := Take(ws.currentBids.value, EffectiveMaxWinners(ws.maxWinners));
      var segments := AllocateVideoSegmentsByBids(winningBids, TotalDuration(ws), swaps);
      UpdateWorkSlot(id, NoChange.(videoSegments := Some(Some(segments))));
    }

    method EndAuction(id: string)
      modifies this
      ensures workSlots == EndAuctionSlots(old(workSlots), id, old(CurrentUser()))
      ensures currentUserId == old(currentUserId)
    {
      var found := FindSlot(workSlots, id);
      if found.Some? {
        UpdateWorkSlot(id, EndAuctionPatch(found.value.winners, CurrentUser()));
      }
    }

    method StartWork(id: string, now: int)
      modifies this
      ensures workSlots == UpdateWorkSlots(old(workSlots), id, StartWorkPatch(now))
      ensures currentUserId == old(currentUserId)
    {
      UpdateWorkSlot(id, StartWorkPatch(now));
    }

    method CompleteWork(id: string, videoFile: Option<VideoFile>, now: int)
      modifies this
      ensures workSlots == UpdateWorkSlots(old(workSlots), id, CompleteWorkPatch(videoFile, now))
      ensures currentUserId == old(currentUserId)
    {
      UpdateWorkSlot(id, CompleteWorkPatch(videoFile, now));
    }

    method UnlockVideo(id: string)
      modifies this
      ensures workSlots == UpdateWorkSlots(old(workSlots), id, UnlockVideoPatch())
      ensures currentUserId == old(currentUserId)
    {
      UpdateWorkSlot(id, UnlockVideoPatch());
    }

    method SwitchUser(userId: string)
      modifies this
      ensures currentUserId == userId
      ensures workSlots == SwitchSlots(old(workSlots), SwitchedUserName(userId))
    {
      currentUserId := userId;
      var newUserName := UserName(DemoUsers, userId).GetOr("");
      workSlots := SwitchSlots(workSlots, newUserName);
    }

    function GetVideoSegmentOf(id: string, bidder: string): Option<VideoSegment>
      reads this
    {
      GetVideoSegment(workSlots, id, bidder)
    }
  }
}
