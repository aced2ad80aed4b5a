/**
 * The detail screen's logic in src/components/CapsuleDetail.tsx: the guards
 * in front of placeBid and completeWork, the upload check, the clamp that
 * keeps the player inside the viewer's segment, the visibility of the bid
 * form and the rank numbering of the bid list.
 *
 * The component's React state (bidAmount, selectedVideoFile) is the class
 * DetailView, and the HTMLVideoElement's position and paused flag are the
 * class VideoPlayer. Alerts and confirmation dialogs are not modelled; a
 * confirmation is the parameter `confirmed`.
 */
module CapsuleDetail {
  import opened Wrappers
  import opened Allocator
  import opened BidLedger
  import opened App
  import opened Formatting

  // ---------------------------------------------------------------------------
  // parseInt
  // ---------------------------------------------------------------------------

  /** The white space parseInt skips before the number. */
  predicate IsSpace(c: char) {
    c == ' ' || c == '\t' || c == '\n' || c == '\r' || c == '\U{B}' || c == '\U{C}'
    || c == '\U{A0}' || c == '\U{FEFF}'
  }

  /** s.trimStart() as parseInt does it: the leading white space, and only it, is dropped. */
  function TrimStart(s: string): (r: string)
    ensures |r| <= |s| && r == s[|s| - |r|..]
    ensures forall i :: 0 <= i < |s| - |r| ==> IsSpace(s[i])
    ensures r == [] || !IsSpace(r[0])
  {
    if s != [] && IsSpace(s[0]) then
      var r := TrimStart(s[1..]);
      assert forall i :: 0 < i < |s| ==> s[i] == s[1..][i - 1];
      r
    else s
  }

  /** The length of the longest prefix of decimal digits. */
  function DigitPrefix(s: string): (n: nat)
    ensures n <= |s| && AllDigits(s[..n])
    ensures n < |s| ==> !IsDigit(s[n])
  {
    if s != [] && IsDigit(s[0]) then
      var n := 1 + DigitPrefix(s[1..]);
      assert forall i :: 0 < i < n ==> s[..n][i] == s[1..][..n - 1][i - 1];
      n
    else 0
  }

  /** The value of the leading digits, or None when there are none. */
  function ParseUnsigned(body: string): (r: Option<nat>)
    ensures r.None? <==> body == [] || !IsDigit(body[0])
  {
    var n := DigitPrefix(body);
    if n == 0 then None else Some(ParseDigits(body[..n]))
  }

  /** An optional sign, then the digits. */
  function ParseSigned(t: string): Option<int> {
    if t != [] && t[0] == '-' then
      match ParseUnsigned(t[1..])
      case None => None
      case Some(v) => Some(-(v as int))
    else if t != [] && t[0] == '+' then
      match ParseUnsigned(t[1..])
      case None => None
      case Some(v) => Some(v as int)
    else
      match ParseUnsigned(t)
      case None => None
      case Some(v) => Some(v as int)
  }

  /** parseInt(s) in base 10: None stands for NaN. */
  function ParseInt(s: string): Option<int> {
    ParseSigned(TrimStart(s))
  }

  /** Digits followed by a non-digit are read up to the non-digit. */
  lemma ParseUnsignedOf(n: nat, rest: string)
    requires rest == [] || !IsDigit(rest[0])
    ensures ParseUnsigned(NatToString(n) + rest) == Some(n)
  {
    var d := NatToString(n);
    var t := d + rest;
    NatToStringRoundTrip(n);
    DigitPrefixOf(d, rest);
    assert t[..|d|] == d;
  }

  /** parseInt reads back what a template literal prints, and stops at the first non-digit. */
  lemma ParseIntOfDecimal(n: nat, rest: string)
    requires rest == [] || !IsDigit(rest[0])
    ensures ParseInt(NatToString(n) + rest) == Some(n)
  {
    var d := NatToString(n);
    var t := d + rest;
    assert t[0] == d[0] && IsDigit(d[0]);
    assert TrimStart(t) == t by { TrimStartOfDigit(t); }
    assert ParseUnsigned(t) == Some(n) by { ParseUnsignedOf(n, rest); }
    assert t[0] != '-' && t[0] != '+';
  }

  /** A leading minus sign negates. */
  lemma ParseIntOfNegative(n: nat)
    ensures ParseInt("-" + NatToString(n)) == Some(-(n as int))
  {
    var d := NatToString(n);
    var t := "-" + d;
    ParseUnsignedOf(n, []);
    assert d + [] == d;
    assert t[0] == '-' && !IsSpace(t[0]);
    assert TrimStart(t) == t;
    assert t[1..] == d;
  }

  /** A string that starts with a digit has no white space to skip. */
  lemma TrimStartOfDigit(t: string)
    requires t != [] && IsDigit(t[0])
    ensures TrimStart(t) == t
  {
    assert !IsSpace(t[0]);
  }

  lemma {:induction false} DigitPrefixOf(d: string, rest: string)
    requires |d| >= 1 && AllDigits(d) && (rest == [] || !IsDigit(rest[0]))
    ensures DigitPrefix(d + rest) == |d|
    decreases |d|
  {
    var t := d + rest;
    assert t[0] == d[0];
    if |d| > 1 {
      assert t[1..] == d[1..] + rest;
      DigitPrefixOf(d[1..], rest);
    } else {
      assert t[1..] == rest;
    }
  }

  lemma ParseIntExamples()
    ensures ParseInt("") == None
    ensures ParseInt("abc") == None
  {
    assert TrimStart("abc") == "abc" by { assert !IsSpace('a'); }
    assert ParseUnsigned("abc") == None by { assert !IsDigit('a'); }
  }

  // ---------------------------------------------------------------------------
  // The bid form
  // ---------------------------------------------------------------------------

  /** The amount handleBid passes to placeBid, if it calls it: the parsed input when above the price. */
  function BidToPlace(input: string, currentPrice: nat): (r: Option<nat>)
    ensures r.Some? <==> ParseInt(input).Some? && ParseInt(input).value > currentPrice
    ensures r.Some? ==> r.value == ParseInt(input).value && r.value > currentPrice
  {
    match ParseInt(input)
    case None => None
    case Some(n) => if n > currentPrice then Some(n as nat) else None
  }

  /** `!bidAmount || parseInt(bidAmount) <= capsule.currentPrice`; NaN compares false. */
  predicate BidButtonDisabled(input: string, currentPrice: nat) {
    input == [] || (ParseInt(input).Some? && ParseInt(input).value <= currentPrice)
  }

  /**
   * A disabled button never bids; an enabled one bids unless the input is
   * not a number; a placed bid is positive. The displayed minimum of
   * price + 100 is not enforced: price + 1 is accepted.
   */
  lemma BidGuards(input: string, currentPrice: nat)
    ensures BidButtonDisabled(input, currentPrice) ==> BidToPlace(input, currentPrice).None?
    ensures !BidButtonDisabled(input, currentPrice) && BidToPlace(input, currentPrice).None?
            <==> input != [] && ParseInt(input).None?
    ensures BidToPlace(input, currentPrice).Some? ==> BidToPlace(input, currentPrice).value > 0
    ensures BidToPlace(NatToString(currentPrice + 1), currentPrice) == Some(currentPrice + 1)
  {
    ParseIntOfDecimal(currentPrice + 1, []);
    assert NatToString(currentPrice + 1) + [] == NatToString(currentPrice + 1);
  }

  /** The bid form is shown only while the auction runs: not ended and time left. */
  predicate BidFormShown(ws: WorkSlot, diff: int) {
    !ws.isOwned && !ws.isMyListing && FormatTimeRemaining(ws.auctionEnded, diff) != Over
  }

  lemma BidFormOnlyWhileOpen(ws: WorkSlot, diff: int)
    ensures BidFormShown(ws, diff) <==> !ws.isOwned && !ws.isMyListing && !ws.auctionEnded && diff > 0
  {
    TimeRemainingOver(ws.auctionEnded, diff);
  }

  // ---------------------------------------------------------------------------
  // The upload check
  // ---------------------------------------------------------------------------

  const MaxUploadBytes: nat := 100 * 1024 * 1024

  predicate StartsWith(s: string, prefix: string) {
    |prefix| <= |s| && s[..|prefix|] == prefix
  }

  /** handleVideoUpload keeps a file iff it is a video of at most 100 MiB. */
  predicate UploadAccepted(f: VideoFile) {
    StartsWith(f.mimeType, "video/") && f.size <= MaxUploadBytes
  }

  lemma UploadExamples()
    ensures UploadAccepted(VideoFile("a.mp4", "video/mp4", MaxUploadBytes))
    ensures !UploadAccepted(VideoFile("a.mp4", "video/mp4", MaxUploadBytes + 1))
    ensures !UploadAccepted(VideoFile("a.png", "image/png", 10))
  {
    assert "image/png"[..6] != "video/" by { assert "image/png"[0] == 'i'; }
  }

  // ---------------------------------------------------------------------------
  // The rank numbering of the bid list
  // ---------------------------------------------------------------------------

  datatype Row = Row(rank: nat, bidder: string, amount: nat, winning: bool)

  /**
   * The rows of the bid list: the first maxWinners||1 bids numbered index+1,
   * the rest numbered (maxWinners||1) + index + 1.
   */
  function RankRows(bids: seq<Bid>, maxWinners: nat): seq<Row> {
    var k := EffectiveMaxWinners(maxWinners);
    var top := Take(bids, k);
    var others := if |bids| > k then bids[k..] else [];
    seq(|top|, i requires 0 <= i < |top| => Row(i + 1, top[i].bidder, top[i].amount, true))
    + seq(|others|, i requires 0 <= i < |others| => Row(k + i + 1, others[i].bidder, others[i].amount, false))
  }

  /**
   * Every bid is listed once, in order, under its 1-based position; the
   * rows marked winning are the first maxWinners || 1 of the listed bids,
   * whose bidders are those WinnersOf takes from the same list.
   */
  lemma RankIsPosition(bids: seq<Bid>, maxWinners: nat)
    ensures |RankRows(bids, maxWinners)| == |bids|
    ensures forall i :: 0 <= i < |bids| ==>
      RankRows(bids, maxWinners)[i] == Row(i + 1, bids[i].bidder, bids[i].amount, i < EffectiveMaxWinners(maxWinners))
    ensures forall i :: 0 <= i < |WinnersOf(bids, maxWinners)| ==>
      RankRows(bids, maxWinners)[i].winning && RankRows(bids, maxWinners)[i].bidder == WinnersOf(bids, maxWinners)[i]
  {
    WinnersAreTopBids(bids, maxWinners);
  }

  // ---------------------------------------------------------------------------
  // The playback clamp
  // ---------------------------------------------------------------------------

  /** `segment && capsule.maxWinners && capsule.maxWinners > 1` */
  predicate ClampActive(segment: Option<VideoSegment>, maxWinners: nat) {
    segment.Some? && maxWinners > 1
  }

  /** The position handleTimeUpdate leaves: before the segment -> its start; at or past its end -> its start. */
  function ClampedPosition(pos: real, seg: VideoSegment): real {
    if pos < seg.startTime as real then seg.startTime as real
    else if pos >= seg.endTime as real then seg.startTime as real
    else pos
  }

  /** handleTimeUpdate pauses exactly when the position has reached the segment's end. */
  predicate PausesAt(pos: real, seg: VideoSegment) {
    !(pos < seg.startTime as real) && pos >= seg.endTime as real
  }

  /**
   * On a non-empty segment the clamped position lies in [start, end), a
   * position already inside is left alone, and clamping twice is clamping once.
   */
  lemma ClampInSegment(pos: real, seg: VideoSegment)
    requires seg.startTime < seg.endTime
    ensures seg.startTime as real <= ClampedPosition(pos, seg) < seg.endTime as real
    ensures seg.startTime as real <= pos < seg.endTime as real ==> ClampedPosition(pos, seg) == pos
    ensures ClampedPosition(ClampedPosition(pos, seg), seg) == ClampedPosition(pos, seg)
    ensures PausesAt(pos, seg) <==> pos >= seg.endTime as real
  {
  }

  /** Every segment getVideoSegment returns after an allocation is non-empty, so the clamp lands inside it. */
  lemma AllocatedSegmentsClamp(slots: seq<WorkSlot>, id: string, swaps: seq<nat>, viewer: string, pos: real)
    requires AllocateDefined(slots, id, swaps)
    requires FindSlot(slots, id).Some? && FindSlot(slots, id).value.currentBids.Some?
    requires GetVideoSegment(AllocateSlots(slots, id, swaps), id, viewer).Some?
    ensures var seg := GetVideoSegment(AllocateSlots(slots, id, swaps), id, viewer).value;
      seg.startTime as real <= ClampedPosition(pos, seg) < seg.endTime as real
  {
    AllocateThenGet(slots, id, swaps, viewer);
    ClampInSegment(pos, GetVideoSegment(AllocateSlots(slots, id, swaps), id, viewer).value);
  }

  /** The player's position in seconds and its paused flag. */
  class VideoPlayer {
    var currentTime: real
    var paused: bool

    constructor()
      ensures currentTime == 0.0 && !paused
    {
      currentTime := 0.0;
      paused := false;
    }

    /** handleVideoLoad: jump to the segment's start. */
    method HandleVideoLoad(segment: Option<VideoSegment>, maxWinners: nat)
      modifies this
      ensures currentTime == if ClampActive(segment, maxWinners) then segment.value.startTime as real else old(currentTime)
      ensures paused == old(paused)
    {
      if segment.Some? && maxWinners > 1 {
        currentTime := segment.value.startTime as real;
      }
    }

    /** handleTimeUpdate: keep the position inside the segment, pausing at its end. */
    method HandleTimeUpdate(segment: Option<VideoSegment>, maxWinners: nat)
      modifies this
      ensures currentTime == if ClampActive(segment, maxWinners) then ClampedPosition(old(currentTime), segment.value) else old(currentTime)
      ensures paused == (old(paused) || (ClampActive(segment, maxWinners) && PausesAt(old(currentTime), segment.value)))
    {
      if segment.Some? && maxWinners > 1 {
        var seg := segment.value;
        if currentTime < seg.startTime as real {
          currentTime := seg.startTime as real;
        } else if currentTime >= seg.endTime as real {
          paused := true;
          currentTime := seg.startTime as real;
        }
      }
    }
  }

  // ---------------------------------------------------------------------------
  // The component's state and handlers
  // ---------------------------------------------------------------------------

  /** Every slot's ledger can take one more bid with these shuffle draws. */
  predicate DrawsFor(slots: seq<WorkSlot>, id: string, swaps: seq<nat>) {
    FindSlot(slots, id).Some? ==> SwapIndices(swaps, |FindSlot(slots, id).value.currentBids.GetOr([])| + 1)
  }

  /** Whatever handleBid passes on satisfies placeBid's needs: the price is a natural number, so the bid is positive. */
  lemma HandleBidDefined(slots: seq<WorkSlot>, input: string, capsule: WorkSlot, user: string, swaps: seq<nat>)
    requires DrawsFor(slots, capsule.id, swaps) && BidToPlace(input, capsule.currentPrice).Some?
    ensures PlaceBidDefined(slots, capsule.id, BidToPlace(input, capsule.currentPrice).value, user, swaps)
  {
    if FindSlot(slots, capsule.id).Some? {
      PositiveBidAllocatable(FindSlot(slots, capsule.id).value, user, BidToPlace(input, capsule.currentPrice).value, swaps);
    }
  }

  /** A completed work recorded through the detail screen always carries the chosen file. */
  lemma CompleteFromViewKeepsFile(slots: seq<WorkSlot>, id: string, file: VideoFile, now: int)
    requires FindSlot(slots, id).Some?
    ensures var after := FindSlot(UpdateWorkSlots(slots, id, CompleteWorkPatch(Some(file), now)), id);
      after.Some? && after.value.workCompleted && !after.value.workInProgress
      && after.value.uploadedVideoFile == Some(file)
  {
    FindAfterUpdate(slots, id, CompleteWorkPatch(Some(file), now), id);
  }

  /** The detail screen's bid input text and chosen video file. */
  class DetailView {
    var bidAmount: string
    var selectedVideoFile: Option<VideoFile>

    constructor()
      ensures bidAmount == "" && selectedVideoFile == None
    {
      bidAmount := "";
      selectedVideoFile := None;
    }

    /** The complete button's `disabled={!selectedVideoFile}`. */
    function CompleteButtonDisabled(): bool
      reads this
    {
      selectedVideoFile.None?
    }

    /** handleBid: bid the parsed amount when it is above the shown price, then clear the input. */
    method HandleBid(app: AppState, capsule: WorkSlot, swaps: seq<nat>)
      requires DrawsFor(app.workSlots, capsule.id, swaps)
      modifies this, app
      ensures BidToPlace(old(bidAmount), capsule.currentPrice).None? ==>
        app.workSlots == old(app.workSlots) && bidAmount == old(bidAmount)
      ensures BidToPlace(old(bidAmount), capsule.currentPrice).Some? ==>
        PlaceBidDefined(old(app.workSlots), capsule.id, BidToPlace(old(bidAmount), capsule.currentPrice).value,
                        old(app.CurrentUser()), swaps)
        && app.workSlots == PlaceBidSlots(old(app.workSlots), capsule.id,
                                          BidToPlace(old(bidAmount), capsule.currentPrice).value,
                                          old(app.CurrentUser()), old(app.CurrentUser()), swaps)
        && bidAmount == ""
      ensures app.currentUserId == old(app.currentUserId) && selectedVideoFile == old(selectedVideoFile)
    {
      var amount := ParseInt(bidAmount);
      if amount.Some? && amount.value > capsule.currentPrice {
        HandleBidDefined(app.workSlots, bidAmount, capsule, app.CurrentUser(), swaps);
        app.PlaceBid(capsule.id, amount.value, app.CurrentUser(), swaps);
        bidAmount := "";
      }
    }

    /** handleVideoUpload: keep the chosen file only if it passes the check. */
    method HandleVideoUpload(file: Option<VideoFile>)
      modifies this
      ensures selectedVideoFile == if file.Some? && UploadAccepted(file.value) then file else old(selectedVideoFile)
      ensures bidAmount == old(bidAmount)
    {
      if file.Some? {
        if !StartsWith(file.value.mimeType, "video/") {
          return;
        }
        if file.value.size > MaxUploadBytes {
          return;
        }
        selectedVideoFile := file;
      }
    }

    /** handleCompleteWork: never completes without a chosen file. */
    method HandleCompleteWork(app: AppState, capsule: WorkSlot, confirmed: bool, now: int)
      modifies app
      ensures selectedVideoFile.None? || !confirmed ==> app.workSlots == old(app.workSlots)
      ensures selectedVideoFile.Some? && confirmed ==>
        app.workSlots == UpdateWorkSlots(old(app.workSlots), capsule.id, CompleteWorkPatch(selectedVideoFile, now))
      ensures app.currentUserId == old(app.currentUserId)
    {
      if selectedVideoFile.None? {
        return;
      }
      if confirmed {
        app.CompleteWork(capsule.id, selectedVideoFile, now);
      }
    }
  }
}
