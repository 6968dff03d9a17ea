/** Paxos quorum tracking (paxos/quorum_tracker.cpp): a tracker counts
  * the distinct machines that sent a valid response and reports, once each,
  * reaching a majority and hearing from every member. */
module QuorumTrackers {
  datatype QuorumState = INCOMPLETE | QUORUM_REACHED | COMPLETE | ABORTED

  /** The responses a tracker may see (internal::Response). */
  datatype Response =
    | PaxosAcceptResponse(ballot: nat, slot: nat)
    | PaxosCommitResponse(slot: nat)
    | OtherResponse

  /** The two kinds of tracker: an AcceptanceTracker waits for accept
    * replies with its ballot and slot, a CommitTracker for commit replies
    * with its slot. */
  datatype TrackerKind = Acceptance(ballot: nat, slot: nat) | Commit(slot: nat)

  /** ResponseIsValid of each kind. */
  predicate ResponseIsValid(kind: TrackerKind, res: Response)
  {
    match kind
    case Acceptance(ballot, slot) => res.PaxosAcceptResponse? && res.ballot == ballot && res.slot == slot
    case Commit(slot) => res.PaxosCommitResponse? && res.slot == slot
  }

  /** A tracker's state as a value. */
  datatype Tracker = Tracker(kind: TrackerKind, numMembers: nat, state: QuorumState, responded: set<string>)

  /** A new tracker: INCOMPLETE, nobody responded. */
  function NewTracker(kind: TrackerKind, numMembers: nat): Tracker
  {
    Tracker(kind, numMembers, INCOMPLETE, {})
  }

  predicate Finished(t: Tracker)
  {
    t.state == COMPLETE || t.state == ABORTED
  }

  /** HandleResponse on a tracker value: the new tracker and whether the
    * state changed in a way the caller must act on. */
  function Handle(t: Tracker, res: Response, from: string): (Tracker, bool)
  {
    if Finished(t) || !ResponseIsValid(t.kind, res) then (t, false)
    else
      var responded := t.responded + {from};
      if |responded| == t.numMembers then (t.(state := COMPLETE, responded := responded), true)
      else if |responded| > t.numMembers / 2 && t.state != QUORUM_REACHED then
        (t.(state := QUORUM_REACHED, responded := responded), true)
      else (t.(responded := responded), false)
  }

  /** The count behind each state: at most half the members before a
    * quorum, more than half but not all after it, all once complete.
    * (With no members at all, a quorum is reached at the first response and
    * the tracker never completes.) */
  predicate CountMatchesState(t: Tracker)
  {
    match t.state
    case INCOMPLETE => |t.responded| <= t.numMembers / 2
    case QUORUM_REACHED => t.numMembers / 2 < |t.responded| && (|t.responded| < t.numMembers || t.numMembers == 0)
    case COMPLETE => |t.responded| == t.numMembers
    case ABORTED => true
  }

  lemma NewTrackerCounts(kind: TrackerKind, numMembers: nat)
    ensures CountMatchesState(NewTracker(kind, numMembers))
  {
  }

  /** Handling a response keeps the count in line with the state. */
  lemma HandleKeepsCount(t: Tracker, res: Response, from: string)
    requires CountMatchesState(t)
    ensures CountMatchesState(Handle(t, res, from).0)
  {
    if !Finished(t) && ResponseIsValid(t.kind, res) {
      var responded := t.responded + {from};
      if from in t.responded {
        assert responded == t.responded;
      } else {
        assert |responded| == |t.responded| + 1;
      }
      var n, half := |responded|, t.numMembers / 2;
      if n != t.numMembers && !(n > half && t.state != QUORUM_REACHED) {
        assert Handle(t, res, from).0 == t.(responded := responded);
        assert t.state == INCOMPLETE ==> n <= half;
        assert t.state == QUORUM_REACHED ==> half < n && (n < t.numMembers || t.numMembers == 0);
      }
    }
  }

  /** A finished tracker, or an invalid response, changes nothing. */
  lemma FinishedOrInvalidIgnored(t: Tracker, res: Response, from: string)
    requires Finished(t) || !ResponseIsValid(t.kind, res)
    ensures Handle(t, res, from) == (t, false)
  {
  }

  /** A valid response to an unfinished tracker records its sender; a
    * sender heard before does not advance the count. */
  lemma ResponderRecorded(t: Tracker, res: Response, from: string)
    requires !Finished(t) && ResponseIsValid(t.kind, res)
    ensures Handle(t, res, from).0.responded == t.responded + {from}
    ensures from in t.responded ==> |Handle(t, res, from).0.responded| == |t.responded|
    ensures from !in t.responded ==> |Handle(t, res, from).0.responded| == |t.responded| + 1
  {
    if from in t.responded {
      assert t.responded + {from} == t.responded;
    }
  }

  /** The state changes reported: COMPLETE exactly when every member has
    * responded, QUORUM_REACHED exactly when a majority is first passed. */
  lemma ReportedChanges(t: Tracker, res: Response, from: string)
    requires CountMatchesState(t)
    ensures var (t', changed) := Handle(t, res, from);
      changed <==> t'.state != t.state
    ensures var (t', changed) := Handle(t, res, from);
      changed ==> (t'.state == COMPLETE || t'.state == QUORUM_REACHED)
    ensures var (t', changed) := Handle(t, res, from);
      changed && t'.state == QUORUM_REACHED ==> t.state == INCOMPLETE
    ensures var (t', changed) := Handle(t, res, from);
      t'.state == COMPLETE && t.state != COMPLETE <==>
        !Finished(t) && ResponseIsValid(t.kind, res) && |t.responded + {from}| == t.numMembers
  {
  }

  /** Abort: the tracker ends ABORTED. */
  function Aborted(t: Tracker): (r: Tracker)
    ensures Finished(r) && CountMatchesState(r)
  {
    t.(state := ABORTED)
  }

  /** A QuorumTracker object: Handle and Abort in place. */
  class QuorumTracker {
    const kind: TrackerKind
    const numMembers: nat
    var state: QuorumState
    var responded: set<string>

    function Value(): Tracker
      reads this
    {
      Tracker(kind, numMembers, state, responded)
    }

    constructor(kind: TrackerKind, numMembers: nat)
      ensures Value() == NewTracker(kind, numMembers)
    {
      this.kind := kind;
      this.numMembers := numMembers;
      state := INCOMPLETE;
      responded := {};
    }

    method HandleResponse(res: Response, from: string) returns (changed: bool)
      modifies this
      ensures (Value(), changed) == Handle(old(Value()), res, from)
    {
      if state == COMPLETE || state == ABORTED {
        return false;
      }
      if !ResponseIsValid(kind, res) {
        return false;
      }
      responded := responded + {from};
      var sz := |responded|;
      if sz == numMembers {
        state := COMPLETE;
        return true;
      }
      if sz > numMembers / 2 && state != QUORUM_REACHED {
        state := QUORUM_REACHED;
        return true;
      }
      return false;
    }

    method Abort()
      modifies this
      ensures Value() == Aborted(old(Value()))
    {
      state := ABORTED;
    }
  }
}
