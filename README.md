# lapsell_demo: auction settlement and segment allocation, in Dafny

lapsell_demo is a marketplace demo. A creator lists a "work slot", a time slot of a
recorded work session. Bidders bid on it, the top `maxWinners` bidders win, and the
recorded time-lapse video is cut into one viewing window per winner. Each window's
length is proportional to the winner's bid.

This project models the core of that demo:

- `allocator.dfy` (module `Allocator`) models `allocateVideoSegmentsByBids`, in four
  steps:
  - proportional lengths, at least one second each;
  - a scale-down when the lengths overshoot;
  - a Fisher-Yates shuffle;
  - back-to-back placement from second 0.

  It is a functional specification (`Allocation`), an imperative method over arrays
  proved equal to it (`AllocateVideoSegmentsByBids`), and lemmas about the
  specification: tiling, range, disjointness, keys, coverage and monotonicity.
- `ledger.dfy` (module `BidLedger`) models the bid ledger inside `placeBid`:
  - the upsert of one bidder's amount;
  - the descending sort, as an in-place insertion sort proved equal to a stable
    functional sort;
  - the winner cut `slice(0, maxWinners || 1)`.
- `app.dfy` (module `App`) models the `App` component's state. A `WorkSlot` is a value.
  `Partial<WorkSlot>` is `Patch`, and the spread merge `{ ...workSlot, ...updates }` is
  `Apply`. The state itself is the class `AppState`, whose methods are the context
  operations:
  - `updateWorkSlot`, `placeBid` and `allocateVideoSegments`;
  - `endAuction`, `startWork`, `completeWork` and `unlockVideo`;
  - `switchUser`.
- `lifecycle.dfy` (module `Lifecycle`) puts the four lifecycle setters together with
  the conditions under which the detail screen shows each creator button. The result
  is a state machine Open → Ended → InProgress → Completed → Unlocked.
- `formatting.dfy` (module `Formatting`) models `formatDuration` and
  `formatTimeRemaining`. Each is paired with a decoder and proved to round-trip.
- `capsule_detail.dfy` (module `CapsuleDetail`) models the detail screen:
  - `parseInt` and the bid guard;
  - the upload check and the completion guard;
  - the clamp that keeps the player inside the viewer's segment;
  - the visibility of the bid form and the rank numbering of the bid list.

  The component state (`bidAmount`, `selectedVideoFile`) is the class `DetailView`.
  The video element's position and paused flag are the class `VideoPlayer`.

Some inputs of the source are parameters here:

- `Math.random()` becomes a sequence of swap indices, `swaps[i] <= i`, the index drawn
  at Fisher-Yates step `i`.
- The clock becomes an integer argument (`now`, or `diff` in milliseconds).
- `confirm()` becomes a boolean `confirmed`.
- The chosen `File` becomes a `VideoFile` record of name, MIME type and size.

Floating-point ratios become exact integer floors. `maxWinners` and
`totalVideoDuration` are natural numbers in which 0 stands for "unset", which is the
value the source's `|| 1` and `|| 3600` replace.

### Where the code differs from the product's stated intent

The model follows the code in each of these cases:

- The stated intent is that the scale-down keeps the total within the video's
  duration. The code can still overshoot, because of the minimum-1 floor applied
  after scaling (src/App.tsx:117-124). With bids 9, 1, 1, 1 over 4 seconds the lengths
  are 2, 1, 1, 1, five seconds in all. Placement stops at the end of the video, so
  whichever winner the shuffle places last is cut short or left out. With the draws
  [0, 1, 2, 3] the order stays A, B, C, D and D gets no segment
  (`Allocator.ScaleDownCanLeaveWinnerOut`). With the draws [0, 0, 0, 0] the order is
  B, C, D, A: every winner gets a segment, but A's two seconds are cut to [3, 4)
  (`Allocator.ScaleDownOtherDrawsPlaceAll`).
- `placeBid` checks neither a floor nor the auction phase (src/App.tsx:485-520).
  Bids placed after the auction has ended still change the winners
  (`Lifecycle.PlaceBidKeepsPhase`). The only floor is the screen's
  `amount > currentPrice`. The placeholder's `currentPrice + 100` is shown but not
  enforced (`CapsuleDetail.BidGuards`).
- The lifecycle setters check nothing (src/App.tsx:522-562). Only the detail screen's
  button conditions order the phases (`Lifecycle.UnguardedSettersSkipPhases`).
- `completeWork` does not re-run the allocation (`Lifecycle.CompleteWorkKeepsAllocation`).
- The bid button is enabled for input that `parseInt` cannot read, and clicking it
  does nothing (`CapsuleDetail.BidGuards`).
- For an id that names no demo user:
  - `switchUser` matches the slots against the empty name (src/App.tsx:568);
  - `currentUser` falls back to 'クリエイターA' (src/App.tsx:432);
  - so that creator's slots stop being "my listing" (`App.UnknownUserMismatch`).

## Model

| member | source | states |
|---|---|---|
| Wrappers.FirstIndex | src/App.tsx:486-489 | The result is the first index holding the value, or -1 when no index does; findIndex and find on bidders and on slot ids both go through it |
| Allocator.AllocateVideoSegmentsByBids | src/App.tsx:104-155 | The returned map is the specified allocation; its keys are bidders of the input; with a positive duration every segment lies in [0, total) and its duration is end - start |
| Allocator.ComputeSegmentDurations | src/App.tsx:107-124 | The array holds the proportional lengths, scaled down exactly when their sum exceeds the duration |
| Allocator.ScaleDown | src/App.tsx:118-124 | Every length becomes max(1, floor(length * T / total allocated)), in place |
| Allocator.ShuffleInPlace | src/App.tsx:126-131 | The array ends in the order the Fisher-Yates loop leaves with the given draws |
| Allocator.PlaceSegments | src/App.tsx:133-154 | The map is what the back-to-back placement emits, a later set for a bidder overriding an earlier one |
| Allocator.SegmentDurations | src/App.tsx:107-124 | The lengths after both passes, in bid order: max(1, floor(T * amount / total)), then max(1, floor(length * T / allocated)) only when the allocated sum exceeds T. Its properties are the lemmas below |
| Allocator.Shuffle | src/App.tsx:126-131 | The order the Fisher-Yates loop leaves: swaps i and the draw for i, for i from n-1 down to 1. It permutes its input (`Allocator.ShufflePermutes`) |
| Allocator.Layout | src/App.tsx:133-152 | The segments the placement loop emits: each starts where the last ended and ends at min(start + length, T), and the loop stops once T is reached (`Allocator.LayoutTiles`, `Allocator.LayoutOrdered`, `Allocator.LayoutCoverage`) |
| Allocator.ToMap | src/App.tsx:142-146 | The Map after the `set` calls in order, a later entry for a bidder overriding an earlier one (`Allocator.ToMapEntries`, `Allocator.ToMapKeys`) |
| Allocator.Allocation | src/App.tsx:104-155 | The whole of allocateVideoSegmentsByBids: the empty map for no bids, otherwise ToMap of the layout of the shuffled lengths. The imperative allocator is proved equal to it |
| Allocator.SegmentDurationsPositive | src/App.tsx:111-124 | There is one length per bid, in bid order, each at least one second |
| Allocator.UnscaledLengths | src/App.tsx:111-114 | Without a scale-down, each length is exactly max(1, floor(T * amount / sum of amounts)) |
| Allocator.LengthsMonotone | src/App.tsx:111-124 | A larger bid never gets a shorter length, after both passes |
| Allocator.DurationSumLowerBound | src/App.tsx:107-124 | The lengths add up to at least T - (n - 1): flooring loses less than a second per winner |
| Allocator.ExampleLengths | src/App.tsx:111-114 | Bids 3000 and 2800 over 3600 s get 1862 s and 1737 s |
| Allocator.ShufflePermutes | src/App.tsx:127-131 | The shuffle is a permutation: same length, same multiset |
| Allocator.ShuffleKeepsDurationSum | src/App.tsx:127-131 | Shuffling keeps the total length |
| Allocator.LayoutTiles | src/App.tsx:134-152 | Placed segments start at the cursor, follow one another without gaps, stay inside the duration and are never longer than the owed length |
| Allocator.LayoutOrdered | src/App.tsx:134-152 | A segment placed earlier ends before any later one starts |
| Allocator.LayoutCoverage | src/App.tsx:134-152 | The placed lengths add up to min(T - cursor, sum of lengths); when the lengths fit, every entry is placed in full |
| Allocator.ToMapEntries | src/App.tsx:142-146 | A bidder is in the map iff the placement emitted it, and its segment is the last one emitted for it |
| Allocator.ToMapKeys | src/App.tsx:142-146 | The map's keys are the emitted bidders, and there are no more keys than emitted segments |
| Allocator.EmptyBidsEmptyMap | src/App.tsx:105 | No bids give an empty map |
| Allocator.AllocationKeys | src/App.tsx:104-155 | Every key is a bidder of the input, and there are at most as many keys as bids |
| Allocator.EmittedTiles | src/App.tsx:134-152 | The emitted segments start at 0, are contiguous, lie in [0, T], are non-empty, and cover between T - (n - 1) and T seconds |
| Allocator.AllocationSegmentsInRange | src/App.tsx:134-154 | Every segment in the map lies in [0, T), is at least a second long, and its duration is end - start |
| Allocator.AllocationDisjoint | src/App.tsx:134-154 | Segments of two different bidders never overlap |
| Allocator.AllPlacedWhenLengthsFit | src/App.tsx:134-154 | When the lengths fit in the duration, every winning bidder gets a segment |
| Allocator.ScaleDownCanLeaveWinnerOut | src/App.tsx:116-152 | Bids 9, 1, 1, 1 over 4 s keep lengths summing to 5 > 4 after the scale-down; with the draws [0, 1, 2, 3] the order stays A, B, C, D and D, placed last, gets no segment |
| Allocator.ScaleDownOtherDrawsPlaceAll | src/App.tsx:116-152 | With the same bids and the draws [0, 0, 0, 0], A is placed last: all four bidders get a segment, and A's owed 2 s are cut to [3, 4) |
| BidLedger.Upsert | src/App.tsx:488-495 | An existing bidder's amount is replaced in place and a new bidder is appended; the bidder set gains exactly the bidder; other entries are unchanged; distinct bidders stay distinct, with the new amount |
| BidLedger.InsertDescSorted | src/App.tsx:498 | Inserting into a ranking keeps it sorted by amount, highest first, and adds exactly one entry |
| BidLedger.InsertDescStable | src/App.tsx:498 | An insertion goes after its ties |
| BidLedger.SortByAmountDesc | src/App.tsx:498 | The stable descending sort by amount, as insertion of each bid after its equal-amount ties. Sorted, a permutation and stable by the two lemmas below |
| BidLedger.SortByAmountDescSorts | src/App.tsx:498 | The sort orders by amount, highest first, and is a permutation of its input |
| BidLedger.SortByAmountDescStable | src/App.tsx:498 | Bids of equal amount keep their relative order |
| BidLedger.SortByAmountDescBidders | src/App.tsx:498 | Sorting keeps the bidder set and the one-bid-per-bidder property |
| BidLedger.InsertDescAt | src/App.tsx:498 | The insertion lands right after the last entry whose amount is at least the new one's |
| BidLedger.InsertInPlace | src/App.tsx:498 | Shifting a[i] left past the smaller amounts leaves a[..i+1] as the insertion into the ranked prefix, and the rest as it was |
| BidLedger.SortBidsInPlace | src/App.tsx:498 | The array ends as the stable descending sort of its old contents |
| BidLedger.TopAmountAtLeast | src/App.tsx:498-501 | On a ranking, the first amount is at least every amount present |
| BidLedger.AmountSumAtLeastFirst | src/App.tsx:108 | With no negative amounts, the total is at least the first amount |
| BidLedger.EffectiveMaxWinners | src/App.tsx:499 | The effective winner count is at least 1, and equals maxWinners whenever that is set |
| BidLedger.Take | src/App.tsx:500 | slice(0, n) is the prefix of length min(n, length) |
| BidLedger.WinnersOf | src/App.tsx:499-500 | The bidders of the first maxWinners (or 1) ranked bids; described by `BidLedger.WinnersAreTopBids` |
| BidLedger.WinnersAreTopBids | src/App.tsx:499-500 | The winners are the bidders of the first min(maxWinners (or 1), n) ranked bids, and on a ranking no loser outbid a winner |
| BidLedger.RankingExample | src/App.tsx:488-498 | A bids 100, B 150, then A 200: the ledger is [A 200, B 150] and A's first bid is replaced |
| BidLedger.UpsertExampleSteps | src/App.tsx:488-495 | The three upserts of the ranking example, step by step |
| BidLedger.WinnerTruncationExample | src/App.tsx:499-500 | With two winners, bids of A 300, B 250 and C 200 leave C out |
| App.Apply | src/App.tsx:436 | The spread merge: every field the patch sets replaces the slot's, every other field is kept |
| App.ApplyIdempotent | src/App.tsx:436 | Merging the same updates twice is merging them once; the empty update changes nothing; id and creator never change |
| App.FindSlot | src/App.tsx:486 | find returns nothing iff no slot has the id, and otherwise a slot of the list with that id |
| App.UpdateWorkSlots | src/App.tsx:434-437 | The slots with the id get the updates merged in; every other slot, and the order, are unchanged; an unknown id changes nothing |
| App.FindAfterUpdate | src/App.tsx:434-437 | After an update, find returns the updated slot for that id and the old slot for any other id |
| App.UpdateWorkSlotsIdempotent | src/App.tsx:434-437 | Repeating an update with the same arguments changes nothing more |
| App.GetVideoSegment | src/App.tsx:467-472 | A segment comes back iff the slot exists, has segments, and has one for the bidder |
| App.TotalDuration | src/App.tsx:507 | `totalVideoDuration`, or 3600 when unset, is positive |
| App.RankedBids | src/App.tsx:488-498 | The ranked ledger after a bid is never empty |
| App.BidPatch | src/App.tsx:499-518 | The updates placeBid merges: price, highestBidder, the sorted ledger, winners, isOwned, and the segments when maxWinners > 1. Described by the PlaceBid lemmas below |
| App.PlaceBidSlots | src/App.tsx:485-520 | An unknown id leaves the list as it was; no other slot changes |
| App.PositiveBidAllocatable | src/App.tsx:499-508 | A positive bid makes the allocator call well defined: the winners' total is at least the new bid |
| App.PlaceBidFinds | src/App.tsx:485-520 | On a known id, find returns the slot with placeBid's updates merged in |
| App.PlaceBidLedger | src/App.tsx:488-498 | The stored ledger is the upserted one sorted by amount, highest first, a permutation of it, with ties in their prior order |
| App.PlaceBidWinners | src/App.tsx:499-518 | The winners are the first maxWinners (or 1) ranked bidders; highestBidder is the first; ownership is the current user's membership; the price is the top amount, or the old price when the top amount is 0; for a positive bid the price is the top amount, at least the bid |
| App.PlaceBidSegments | src/App.tsx:504-518 | Segments are re-allocated from the winning bids iff more than one winner is allowed, and no field outside the six updated ones changes |
| App.PlaceBidKeepsFlags | src/App.tsx:511-518 | A bid never touches the auction and work flags |
| App.AllocateSlots | src/App.tsx:474-483 | An unknown id, or a slot whose currentBids is unset, leaves the list as it was; no other slot changes. A slot with an empty currentBids is not skipped: it gets an empty segment map |
| App.AllocateThenGet | src/App.tsx:467-483 | After allocateVideoSegments, getVideoSegment returns exactly the allocation's entry for the bidder, and nothing for a bidder the allocation did not place; it answers only for winning bidders, and each answer is a non-empty interval inside the video |
| App.EndAuctionPatch | src/App.tsx:522-531 | endAuction's updates: ended, and owned iff the current user is among the winners |
| App.StartWorkPatch | src/App.tsx:533-538 | startWork's updates: in progress, stamped with the given time |
| App.CompleteWorkPatch | src/App.tsx:540-558 | completeWork's updates: not in progress, completed, stamped, and the file only when one is given |
| App.UnlockVideoPatch | src/App.tsx:560-562 | unlockVideo's update: unlocked |
| App.EndAuctionSlots | src/App.tsx:522-531 | An unknown id leaves the list as it was; the length and every slot with another id are unchanged |
| App.UserName | src/App.tsx:76-101 | A name comes back iff a demo user has the id, and it is that user's name |
| App.CurrentUserName | src/App.tsx:432 | currentUser is never empty |
| App.SwitchSlots | src/App.tsx:564-574 | switchUser's map over the slots: isOwned and isMyListing recomputed from the new name, nothing else changed, the length kept |
| App.SwitchOwnership | src/App.tsx:564-574 | After switchUser, a slot is owned iff the user is among its winners, and is the user's listing iff the user created it; nothing else changes |
| App.UnknownUserMismatch | src/App.tsx:432 | For an unknown id, currentUser is 'クリエイターA' while switchUser matches against '', so that creator's slots stop being "my listing" |
| App.AppState.constructor | src/App.tsx:428-429 | The state starts with the initial slots and user 'creator1' |
| App.AppState.UpdateWorkSlot | src/App.tsx:434-443 | The slots become the merged list; the user is unchanged |
| App.AppState.PlaceBid | src/App.tsx:485-520 | The slots become the placeBid list for the current user, so every placeBid lemma applies; the user is unchanged |
| App.AppState.AllocateVideoSegments | src/App.tsx:474-483 | The slots become the allocateVideoSegments list; the user is unchanged |
| App.AppState.EndAuction | src/App.tsx:522-531 | The slot is marked ended and owned iff the current user is a winner; an unknown id changes nothing |
| App.AppState.StartWork | src/App.tsx:533-538 | The slot is marked in progress, stamped with `now` |
| App.AppState.CompleteWork | src/App.tsx:540-558 | The slot is marked completed and not in progress, stamped with `now`; the file is recorded only when one is given |
| App.AppState.UnlockVideo | src/App.tsx:560-562 | The slot is marked unlocked |
| App.AppState.SwitchUser | src/App.tsx:564-574 | The user becomes the given id, and every slot's ownership and listing flags are recomputed for that user's name |
| Lifecycle.PhaseOf | src/App.tsx:27-35 | The lifecycle phase spelled by the flags auctionEnded, workInProgress, workCompleted and isUnlocked, or none for a combination the lifecycle never produces |
| Lifecycle.Shown | src/components/CapsuleDetail.tsx:383-483 | The conditions under which the creator controls show each button: the slot is the viewer's listing, and the flags the button checks |
| Lifecycle.GuardedStep | src/components/CapsuleDetail.tsx:383-483 | On a slot in a lifecycle phase, a creator button is shown iff the slot is in the phase its action leaves (start also needs a winner), and pressing it moves the slot to the next phase |
| Lifecycle.RunStaysInLifecycle | src/components/CapsuleDetail.tsx:383-483 | Any run of shown-button presses keeps the slot in the lifecycle and advances it by one phase per press |
| Lifecycle.RunsAreShort | src/components/CapsuleDetail.tsx:383-483 | No run of shown buttons has more presses than the phases left |
| Lifecycle.UnguardedSettersSkipPhases | src/App.tsx:533-562 | Called on an open auction, unlockVideo, startWork and completeWork produce flag combinations outside the lifecycle |
| Lifecycle.EndAuctionOwnership | src/App.tsx:522-531 | Ending the auction marks it ended, keeps the winners, and makes the slot owned iff the user is a winner |
| Lifecycle.CompleteWorkKeepsAllocation | src/App.tsx:540-558 | completeWork keeps bids, winners and segments, and keeps the old file when none is given |
| Lifecycle.EndAuctionIdempotent | src/App.tsx:522-531 | Ending an auction twice is ending it once |
| Lifecycle.StartWorkIdempotent | src/App.tsx:533-538 | Starting work again only moves the start timestamp |
| Lifecycle.CompleteWorkIdempotent | src/App.tsx:540-558 | Completing again with the same file only moves the completion timestamp |
| Lifecycle.UnlockVideoIdempotent | src/App.tsx:560-562 | Unlocking twice is unlocking once |
| Lifecycle.PlaceBidKeepsPhase | src/App.tsx:485-520 | placeBid keeps the lifecycle phase, so bids are still taken after the auction has ended |
| Formatting.DigitChar | src/components/CapsuleDetail.tsx:41-43 | The character is a digit whose value is d |
| Formatting.NatToString | src/components/CapsuleDetail.tsx:41-43 | A number prints as a non-empty digit string with no leading zero |
| Formatting.NatToStringRoundTrip | src/components/CapsuleDetail.tsx:41-43 | Reading the printed digits back gives the number |
| Formatting.PadStart2 | src/components/CapsuleDetail.tsx:136 | padStart(2, '0') leaves strings of two or more characters alone and left-fills shorter ones with zeros to length 2 |
| Formatting.PadStart2Value | src/components/CapsuleDetail.tsx:136 | Padding with zeros keeps the digits' value |
| Formatting.FormatDuration | src/components/CapsuleDetail.tsx:133-137 | "m:ss": the whole minutes, a colon and the seconds padded to two digits. Read back by the round-trip lemma below |
| Formatting.FormatDurationRoundTrip | src/components/CapsuleDetail.tsx:133-137 | The seconds field is always two digits, and reading "m:ss" back gives the input seconds |
| Formatting.FormatDurationExamples | src/components/CapsuleDetail.tsx:133-137 | 75 s is "1:15", 3600 s is "60:00", 1862 s is "31:02" |
| Formatting.FormatTimeRemaining | src/components/CapsuleDetail.tsx:28-44 | '終了' once ended or out of time, otherwise the whole hours (when positive) and minutes left. Read back by the round-trip lemma below |
| Formatting.TimeRemainingRoundTrip | src/components/CapsuleDetail.tsx:28-44 | The text reads back as "finished" iff the auction has ended or no time is left, and otherwise as the whole hours and leftover whole minutes |
| Formatting.TimeRemainingBounds | src/components/CapsuleDetail.tsx:37-38 | The minutes are below 60, and the shown hours and minutes are the time left rounded down to a whole minute |
| Formatting.HoursShownIff | src/components/CapsuleDetail.tsx:40-43 | The hours part is shown iff at least one whole hour is left |
| Formatting.TimeRemainingOver | src/components/CapsuleDetail.tsx:29-35 | The text is '終了' iff the auction has ended or no time is left |
| CapsuleDetail.TrimStart | src/components/CapsuleDetail.tsx:64 | parseInt's leading white space is removed: the result is a suffix that does not start with white space |
| CapsuleDetail.DigitPrefix | src/components/CapsuleDetail.tsx:64 | The longest prefix made only of decimal digits |
| CapsuleDetail.ParseUnsigned | src/components/CapsuleDetail.tsx:64 | The result is NaN iff the text does not start with a digit |
| CapsuleDetail.ParseInt | src/components/CapsuleDetail.tsx:64 | parseInt in base 10: skip leading white space, an optional sign, then the leading digits; NaN when there are none. Described by the lemmas below |
| CapsuleDetail.ParseUnsignedOf | src/components/CapsuleDetail.tsx:64 | Digits followed by a non-digit are read up to the non-digit |
| CapsuleDetail.ParseIntOfDecimal | src/components/CapsuleDetail.tsx:64 | parseInt reads back any printed non-negative integer, stopping at the first non-digit |
| CapsuleDetail.ParseIntOfNegative | src/components/CapsuleDetail.tsx:64 | A leading minus sign negates |
| CapsuleDetail.TrimStartOfDigit | src/components/CapsuleDetail.tsx:64 | Text that starts with a digit has no white space to skip |
| CapsuleDetail.DigitPrefixOf | src/components/CapsuleDetail.tsx:64 | The digit prefix of digits followed by a non-digit is exactly those digits |
| CapsuleDetail.ParseIntExamples | src/components/CapsuleDetail.tsx:64 | Empty and non-numeric text is NaN |
| CapsuleDetail.BidToPlace | src/components/CapsuleDetail.tsx:63-70 | handleBid bids iff the input parses to a number above the price, and then bids exactly that number |
| CapsuleDetail.BidButtonDisabled | src/components/CapsuleDetail.tsx:628 | The bid button is disabled when the input is empty or parses to at most the price; a NaN input leaves it enabled |
| CapsuleDetail.BidGuards | src/components/CapsuleDetail.tsx:63-70 | A disabled button never bids; an enabled one fails to bid iff the input is not a number; a placed bid is positive; price + 1 is accepted although price + 100 is displayed |
| CapsuleDetail.BidFormShown | src/components/CapsuleDetail.tsx:607 | The bid form is shown to a viewer who neither owns nor created the slot, while the remaining time is not '終了' |
| CapsuleDetail.BidFormOnlyWhileOpen | src/components/CapsuleDetail.tsx:607 | The bid form is shown iff the viewer neither owns nor created the slot, the auction has not ended, and time is left |
| CapsuleDetail.UploadAccepted | src/components/CapsuleDetail.tsx:86-104 | A file is kept iff its type starts with "video/" and it is at most 100 MiB |
| CapsuleDetail.UploadExamples | src/components/CapsuleDetail.tsx:86-104 | A video of exactly 100 MiB is accepted; one byte more, or a non-video type, is refused |
| CapsuleDetail.RankRows | src/components/CapsuleDetail.tsx:568-598 | The bid list's rows: the first maxWinners (or 1) bids numbered from 1 and marked winning, the rest numbered after them |
| CapsuleDetail.RankIsPosition | src/components/CapsuleDetail.tsx:568-598 | Every bid is listed once, in order, under its 1-based position. The rows marked winning are the first maxWinners (or 1) of the listed bids, not the slot's stored winners field; their bidders are those WinnersOf takes from the same list |
| CapsuleDetail.ClampedPosition | src/components/CapsuleDetail.tsx:155-168 | The position handleTimeUpdate leaves: a position before the segment, or at or past its end, goes back to its start; one inside is kept |
| CapsuleDetail.ClampInSegment | src/components/CapsuleDetail.tsx:155-168 | On a non-empty segment the clamped position lies in [start, end); a position inside is left alone; clamping twice is clamping once; the player pauses iff the end was reached |
| CapsuleDetail.AllocatedSegmentsClamp | src/components/CapsuleDetail.tsx:139-168 | Every segment getVideoSegment returns after an allocation is non-empty, so the clamp lands inside it |
| CapsuleDetail.VideoPlayer.HandleVideoLoad | src/components/CapsuleDetail.tsx:144-152 | With a segment and more than one winner allowed, the position jumps to the segment's start; otherwise nothing changes |
| CapsuleDetail.VideoPlayer.HandleTimeUpdate | src/components/CapsuleDetail.tsx:155-168 | With the clamp active, the position becomes the clamped one and the player pauses iff the end was reached; otherwise nothing changes |
| CapsuleDetail.HandleBidDefined | src/components/CapsuleDetail.tsx:63-70 | With a natural-number price, whatever handleBid passes on meets placeBid's needs |
| CapsuleDetail.CompleteFromViewKeepsFile | src/components/CapsuleDetail.tsx:106-116 | Work completed from the detail screen is completed, no longer in progress, and carries the chosen file |
| CapsuleDetail.DetailView.constructor | src/components/CapsuleDetail.tsx:22-24 | The input starts empty and no file is chosen |
| CapsuleDetail.DetailView.HandleBid | src/components/CapsuleDetail.tsx:63-70 | Without a parsed amount above the price nothing changes; otherwise placeBid runs with the current user and the input is cleared |
| CapsuleDetail.DetailView.HandleVideoUpload | src/components/CapsuleDetail.tsx:86-104 | The chosen file is kept iff it is a video of at most 100 MiB; otherwise the previous choice stays |
| CapsuleDetail.DetailView.HandleCompleteWork | src/components/CapsuleDetail.tsx:106-116 | Without a chosen file, or without confirmation, nothing changes; otherwise completeWork runs with the chosen file |

## Left out

- Rendering, navigation, the screen stack and `selectedWorkSlot` are not modelled. This includes the mirror update at src/App.tsx:439-442 and `handleWorkSlotClick`. They copy slots and hold no invariant of the core.
- `getVideoUrl`, the object-URL cache and `URL.createObjectURL` are browser I/O. `completeWork` clearing that cache is left out with them.
- `alert` and `confirm` are not modelled. A confirmation is the parameter `confirmed`.
- `addWorkSlot`, `formatWorkSchedule`, the percentage display and the other purely presentational parts of the detail screen are not modelled.
- `Math.random` is not modelled. Its draws are the parameter `swaps`.
- `new Date()` is not modelled. Timestamps and the remaining time are integer parameters, and ISO strings are not modelled.
- Floating-point arithmetic is replaced by exact integer floors. The two agree except where a double rounds a ratio across an integer.
- Allocator.AllocateVideoSegmentsByBids: requires a positive total of the winning amounts. When all winning amounts are 0, the source divides by zero and produces NaN lengths, which this model does not represent.
- App.AppState.PlaceBid: requires `BidAllocatable` for the same reason. Any positive bid meets it (`App.PositiveBidAllocatable`). With the model's natural-number price, the screen only places positive bids (`CapsuleDetail.HandleBidDefined`). A slot with a negative price is outside the model (see the next line).
- App.WorkSlot / Allocator.Bid: `currentPrice` and `amount` are natural numbers, while the source's are any `number` (src/App.tsx:23, src/App.tsx:39). `addWorkSlot` stores `parseInt` of a number input without a minimum (src/components/NewCapsule.tsx:47, src/components/NewCapsule.tsx:148-154), so a slot can start at a negative price. Such a slot is not modelled, and neither are the zero or negative bids the screen would then accept. A first bid of 0 with maxWinners > 1 would reach the division by zero at src/App.tsx:108-113.
- BidLedger.Upsert: replaces the bidder's entry by value. At src/App.tsx:492 the source mutates the bid object it shares with the previous `currentBids` array. That aliasing is not modelled.
- BidLedger.SortByAmountDesc: `Array.prototype.sort` is a library call. It is modelled by a stable insertion sort, since the language requires `sort` to be stable.
- `parseInt` is modelled for base-10 input only: the `0x` hexadecimal prefix is not handled. The white space it skips is limited to the common ASCII and BOM/no-break characters, not every Unicode space separator.
- The `type="number"` input's own filtering in the browser is not modelled. Any text may reach `handleBid`.
- Optional fields that the source reads only through `||` or a truthiness test have their falsy value (false, [], 0). This covers `winners`, `maxWinners`, `totalVideoDuration`, `auctionEnded` and the other flags.
- The video element's `currentTime` is a real number. Playback itself and `videoRef.current` being null are not modelled.
