/**
 * The work-slot lifecycle: Open -> Ended -> InProgress -> Completed ->
 * Unlocked. The setters in src/App.tsx check nothing; the order exists only
 * as the conditions under which src/components/CapsuleDetail.tsx shows each
 * creator button. This module puts the two together as a state machine and
 * shows what the guards buy and what the unguarded setters allow.
 */
module Lifecycle {
  import opened Wrappers
  import opened Allocator
  import opened App

  datatype Phase = Open | Ended | InProgress | Completed | Unlocked

  /** The phase a slot's four flags spell, or None for a combination the lifecycle never produces. */
  function PhaseOf(ws: WorkSlot): Option<Phase> {
    match (ws.auctionEnded, ws.workInProgress, ws.workCompleted, ws.isUnlocked)
    case (false, false, false, false) => Some(Open)
    case (true, false, false, false) => Some(Ended)
    case (true, true, false, false) => Some(InProgress)
    case (true, false, true, false) => Some(Completed)
    case (true, false, true, true) => Some(Unlocked)
    case _ => None
  }

  /** The creator's actions, with the clock reading and the chosen file as parameters. */
  datatype Action =
    | EndAuction(user: string)
    | StartWork(now: int)
    | CompleteWork(videoFile: Option<VideoFile>, now: int)
    | UnlockVideo

  /** The condition under which the creator controls show the action's button. */
  predicate Shown(ws: WorkSlot, a: Action) {
    ws.isMyListing &&
    match a
    case EndAuction(_) => !ws.auctionEnded
    case StartWork(_) => ws.auctionEnded && !ws.workInProgress && !ws.workCompleted && |ws.winners| > 0
    case CompleteWork(_, _) => ws.workInProgress
    case UnlockVideo => ws.workCompleted && !ws.isUnlocked
  }

  /** The slot after the action's setter, which applies whatever the flags say. */
  function Effect(ws: WorkSlot, a: Action): WorkSlot {
    match a
    case EndAuction(user) => Apply(ws, EndAuctionPatch(ws.winners, user))
    case StartWork(now) => Apply(ws, StartWorkPatch(now))
    case CompleteWork(file, now) => Apply(ws, CompleteWorkPatch(file, now))
    case UnlockVideo => Apply(ws, UnlockVideoPatch())
  }

  function Source(a: Action): Phase {
    match a
    case EndAuction(_) => Open
    case StartWork(_) => Ended
    case CompleteWork(_, _) => InProgress
    case UnlockVideo => Completed
  }

  function Target(a: Action): Phase {
    match a
    case EndAuction(_) => Ended
    case StartWork(_) => InProgress
    case CompleteWork(_, _) => Completed
    case UnlockVideo => Unlocked
  }

  function Rank(ph: Phase): nat {
    match ph
    case Open => 0
    case Ended => 1
    case InProgress => 2
    case Completed => 3
    case Unlocked => 4
  }

  /**
   * On a slot in a lifecycle phase, a button is shown exactly in the phase
   * its action leaves (start also needs a winner), and pressing it moves the
   * slot to the next phase.
   */
  lemma GuardedStep(ws: WorkSlot, a: Action)
    requires PhaseOf(ws).Some? && ws.isMyListing
    ensures Shown(ws, a) <==> PhaseOf(ws) == Some(Source(a)) && (a.StartWork? ==> |ws.winners| > 0)
    ensures Shown(ws, a) ==> PhaseOf(Effect(ws, a)) == Some(Target(a)) && Rank(Target(a)) == Rank(Source(a)) + 1
  {
  }

  /** The slot after a run of button presses, or None at the first press whose button is not shown. */
  function Run(ws: WorkSlot, actions: seq<Action>): Option<WorkSlot>
    decreases |actions|
  {
    if actions == [] then Some(ws)
    else if !Shown(ws, actions[0]) then None
    else Run(Effect(ws, actions[0]), actions[1..])
  }

  /** A run of presses through the shown buttons keeps the slot in the lifecycle and never moves it back. */
  lemma {:induction false} RunStaysInLifecycle(ws: WorkSlot, actions: seq<Action>)
    requires PhaseOf(ws).Some? && ws.isMyListing
    requires Run(ws, actions).Some?
    ensures PhaseOf(Run(ws, actions).value).Some?
    ensures Rank(PhaseOf(Run(ws, actions).value).value) == Rank(PhaseOf(ws).value) + |actions|
    decreases |actions|
  {
    if actions != [] {
      GuardedStep(ws, actions[0]);
      RunStaysInLifecycle(Effect(ws, actions[0]), actions[1..]);
    }
  }

  /** No run of shown buttons has more than four presses. */
  lemma RunsAreShort(ws: WorkSlot, actions: seq<Action>)
    requires PhaseOf(ws).Some? && ws.isMyListing
    requires Run(ws, actions).Some?
    ensures |actions| <= 4 - Rank(PhaseOf(ws).value)
  {
    RunStaysInLifecycle(ws, actions);
  }

  /** Called directly, the setters skip phases: unlocking or starting work on an open auction leaves the lifecycle. */
  lemma UnguardedSettersSkipPhases(ws: WorkSlot, now: int)
    requires PhaseOf(ws) == Some(Open)
    ensures PhaseOf(Effect(ws, UnlockVideo)).None?
    ensures PhaseOf(Effect(ws, StartWork(now))).None?
    ensures PhaseOf(Effect(ws, CompleteWork(None, now))).None?
  {
  }

  /** Ending the auction marks it ended and makes the slot owned exactly when the user is a winner. */
  lemma EndAuctionOwnership(ws: WorkSlot, user: string)
    ensures Effect(ws, EndAuction(user)).auctionEnded
    ensures Effect(ws, EndAuction(user)).isOwned == (user in ws.winners)
    ensures Effect(ws, EndAuction(user)).winners == ws.winners
  {
  }

  /** completeWork does not re-run the allocation: bids, winners and segments are as before. */
  lemma CompleteWorkKeepsAllocation(ws: WorkSlot, file: Option<VideoFile>, now: int)
    ensures Effect(ws, CompleteWork(file, now)).videoSegments == ws.videoSegments
    ensures Effect(ws, CompleteWork(file, now)).currentBids == ws.currentBids
    ensures Effect(ws, CompleteWork(file, now)).winners == ws.winners
    ensures file.None? ==> Effect(ws, CompleteWork(file, now)).uploadedVideoFile == ws.uploadedVideoFile
  {
  }

  /** Ending an auction twice is ending it once. */
  lemma EndAuctionIdempotent(ws: WorkSlot, user: string)
    ensures Effect(Effect(ws, EndAuction(user)), EndAuction(user)) == Effect(ws, EndAuction(user))
  {
    ApplyIdempotent(ws, EndAuctionPatch(ws.winners, user));
  }

  /** Starting work again only moves the start timestamp. */
  lemma StartWorkIdempotent(ws: WorkSlot, t1: int, t2: int)
    ensures Effect(Effect(ws, StartWork(t1)), StartWork(t2)) == Effect(ws, StartWork(t2))
  {
    var once := Effect(ws, StartWork(t1));
    assert once.(workInProgress := ws.workInProgress, workStartedAt := ws.workStartedAt) == ws;
  }

  /** Completing work again with the same file only moves the completion timestamp. */
  lemma CompleteWorkIdempotent(ws: WorkSlot, file: Option<VideoFile>, t1: int, t2: int)
    ensures Effect(Effect(ws, CompleteWork(file, t1)), CompleteWork(file, t2)) == Effect(ws, CompleteWork(file, t2))
  {
    var once := Effect(ws, CompleteWork(file, t1));
    assert once.(workInProgress := ws.workInProgress, workCompleted := ws.workCompleted,
                 workCompletedAt := ws.workCompletedAt, uploadedVideoFile := ws.uploadedVideoFile) == ws;
  }

  /** Unlocking twice is unlocking once. */
  lemma UnlockVideoIdempotent(ws: WorkSlot)
    ensures Effect(Effect(ws, UnlockVideo), UnlockVideo) == Effect(ws, UnlockVideo)
  {
    ApplyIdempotent(ws, UnlockVideoPatch());
  }

  /** placeBid keeps the phase, so bids still change the winners after the auction has ended. */
  lemma PlaceBidKeepsPhase(ws: WorkSlot, amount: nat, bidder: string, user: string, swaps: seq<nat>)
    requires BidAllocatable(ws, bidder, amount, swaps)
    ensures PhaseOf(Apply(ws, BidPatch(ws, amount, bidder, user, swaps))) == PhaseOf(ws)
  {
    PlaceBidKeepsFlags(ws, amount, bidder, user, swaps);
  }
}
