/** The Paxos leader (paxos/leader.cpp): proposals take consecutive
  * slots, accept and commit requests go to every member, quorum trackers
  * decide when a slot is committed, and committed slots at the front are
  * forgotten. Messages sent and commits reported to the enclosing Paxos
  * are appended to an outbox. */
module PaxosLeader {
  import opened Wrappers
  import opened QuorumTrackers

  datatype Proposal = Proposal(ballot: nat, value: nat, isCommitted: bool)

  /** The Paxos requests (internal::Request). */
  datatype Request =
    | ProposeRequest(value: nat)
    | AcceptRequest(ballot: nat, slot: nat, value: nat)
    | CommitRequest(ballot: nat, slot: nat, value: nat)
    | OtherRequest

  /** What the leader does outside itself: send a request to a machine, or
    * report a committed slot to the enclosing Paxos (OnCommit). */
  datatype Output = SendRequest(to: string, req: Request) | Committed(slot: nat, value: nat)

  /** The position of the first occurrence of x in s. */
  function FirstIndex(s: seq<string>, x: string): (r: Option<nat>)
    ensures r.Some? ==> r.value < |s| && s[r.value] == x && forall j :: 0 <= j < r.value ==> s[j] != x
    ensures r.None? <==> x !in s
  {
    if |s| == 0 then None
    else if s[0] == x then Some(0)
    else match FirstIndex(s[1..], x)
      case None => None
      case Some(i) => Some(i + 1)
  }

  /** SendToAllMembers: the request to every member, in member order. */
  function ToAll(members: seq<string>, req: Request): (out: seq<Output>)
    ensures |out| == |members|
    ensures forall i :: 0 <= i < |members| ==> out[i] == SendRequest(members[i], req)
  {
    seq(|members|, i requires 0 <= i < |members| => SendRequest(members[i], req))
  }

  /** The first slot at or after m that is not committed in p. */
  function PrefixEnd(p: map<nat, Proposal>, m: nat): nat
    decreases p.Keys
  {
    if m in p && p[m].isCommitted then PrefixEnd(p - {m}, m + 1) else m
  }

  /** p without its committed slots from m on (the erasing loop's result). */
  function Erased(p: map<nat, Proposal>, m: nat): map<nat, Proposal>
    decreases p.Keys
  {
    if m in p && p[m].isCommitted then Erased(p - {m}, m + 1) else p
  }

  /** The erasing loop: exactly the run of committed slots from m is
    * removed, and the slot after it is not committed. */
  lemma {:induction false} ErasedIsCommittedRun(p: map<nat, Proposal>, m: nat)
    ensures m <= PrefixEnd(p, m)
    ensures forall s :: m <= s < PrefixEnd(p, m) ==> s in p && p[s].isCommitted
    ensures Erased(p, m) == map s | s in p && !(m <= s < PrefixEnd(p, m)) :: p[s]
    ensures !(PrefixEnd(p, m) in Erased(p, m) && Erased(p, m)[PrefixEnd(p, m)].isCommitted)
    decreases p.Keys
  {
    if m in p && p[m].isCommitted {
      ErasedIsCommittedRun(p - {m}, m + 1);
    }
  }

  /** The run ends at or before a bound that every slot is below. */
  lemma RunBelowBound(p: map<nat, Proposal>, m: nat, bound: nat)
    requires m <= bound && forall s :: s in p ==> s < bound
    ensures PrefixEnd(p, m) <= bound
  {
    ErasedIsCommittedRun(p, m);
    var e := PrefixEnd(p, m);
    assert e > bound ==> bound in p;
  }

  /** The erasing loop of ProcessCommitRequest, on values. */
  method EraseCommittedPrefix(p: map<nat, Proposal>, m: nat) returns (p': map<nat, Proposal>, m': nat)
    ensures p' == Erased(p, m) && m' == PrefixEnd(p, m)
  {
    p', m' := p, m;
    while m' in p' && p'[m'].isCommitted
      invariant Erased(p', m') == Erased(p, m) && PrefixEnd(p', m') == PrefixEnd(p, m)
      decreases p'.Keys
    {
      p' := p' - {m'};
      m' := m' + 1;
    }
  }

  /** What HandleResponse changes: proposals, trackers and the outbox. */
  datatype Core = Core(proposals: map<nat, Proposal>, trackers: seq<Tracker>, outbox: seq<Output>)

  /** StartNewCommit: a commit tracker and a commit request to every member
    * carrying the proposal's value; the request's ballot is never set, so
    * it is 0. Looking the slot up inserts a default proposal if absent. */
  function StartCommit(members: seq<string>, c: Core, slot: nat): Core
  {
    var p := if slot in c.proposals then c.proposals else c.proposals[slot := Proposal(0, 0, false)];
    Core(p, c.trackers + [NewTracker(Commit(slot), |members|)],
         c.outbox + ToAll(members, CommitRequest(0, slot, p[slot].value)))
  }

  /** AcceptanceStateChanged: a commit starts on a reached quorum, or on
    * completion when there are at most two members (they never pass
    * through QUORUM_REACHED). */
  predicate StartsCommit(members: seq<string>, t: Tracker)
  {
    t.kind.Acceptance? && (t.state == QUORUM_REACHED || (|members| <= 2 && t.state == COMPLETE))
  }

  /** One tracker of the loop in HandleResponse. */
  function Visit(members: seq<string>, c: Core, i: nat, res: Response, from: string): Core
    requires i < |c.trackers|
  {
    var (t, changed) := Handle(c.trackers[i], res, from);
    var c1 := c.(trackers := c.trackers[i := t]);
    if changed && StartsCommit(members, t) then StartCommit(members, c1, t.kind.slot) else c1
  }

  /** The trackers i..num-1, in order; trackers added meanwhile are not
    * visited. */
  function VisitFrom(members: seq<string>, c: Core, i: nat, num: nat, res: Response, from: string): Core
    requires i <= num <= |c.trackers|
    decreases num - i
  {
    if i == num then c
    else
      var c1 := Visit(members, c, i, res, from);
      VisitFrom(members, c1, i + 1, num, res, from)
  }

  lemma VisitGrows(members: seq<string>, c: Core, i: nat, res: Response, from: string)
    requires i < |c.trackers|
    ensures |Visit(members, c, i, res, from).trackers| >= |c.trackers|
    ensures Visit(members, c, i, res, from).outbox[..|c.outbox|] == c.outbox
  {
  }

  /** The trackers left after the clean-up: the unfinished ones, in order. */
  function Unfinished(ts: seq<Tracker>): (r: seq<Tracker>)
    ensures |r| <= |ts|
  {
    if ts == [] then []
    else (if Finished(ts[0]) then [] else [ts[0]]) + Unfinished(ts[1..])
  }

  /** The clean-up keeps exactly the unfinished trackers. */
  lemma {:induction false} UnfinishedKeeps(ts: seq<Tracker>)
    ensures forall t :: t in Unfinished(ts) <==> t in ts && !Finished(t)
  {
    if ts != [] {
      UnfinishedKeeps(ts[1..]);
      assert ts == [ts[0]] + ts[1..];
    }
  }

  /** The slots every tracker and every proposal refers to are below a
    * bound, the next empty slot. */
  ghost predicate SlotsBelow(c: Core, bound: nat)
  {
    (forall s :: s in c.proposals ==> s < bound) &&
    (forall i :: 0 <= i < |c.trackers| ==> c.trackers[i].kind.slot < bound)
  }

  /** No proposal at slot m is committed. */
  predicate FrontUncommitted(p: map<nat, Proposal>, m: nat)
  {
    !(m in p && p[m].isCommitted)
  }

  lemma {:induction false} VisitFromKeeps(members: seq<string>, c: Core, i: nat, num: nat, res: Response, from: string,
                                          bound: nat, m: nat)
    requires i <= num <= |c.trackers|
    requires SlotsBelow(c, bound) && FrontUncommitted(c.proposals, m)
    ensures SlotsBelow(VisitFrom(members, c, i, num, res, from), bound)
    ensures FrontUncommitted(VisitFrom(members, c, i, num, res, from).proposals, m)
    ensures |VisitFrom(members, c, i, num, res, from).trackers| >= |c.trackers|
    decreases num - i
  {
    if i < num {
      var c1 := Visit(members, c, i, res, from);
      VisitGrows(members, c, i, res, from);
      assert SlotsBelow(c1, bound);
      VisitFromKeeps(members, c1, i + 1, num, res, from, bound, m);
    }
  }

  /** HandleResponse only sends commit requests: whatever it appends to the
    * outbox is a commit request to a member. */
  lemma {:induction false} VisitFromSendsCommits(members: seq<string>, c: Core, i: nat, num: nat, res: Response, from: string)
    requires i <= num <= |c.trackers|
    ensures |c.outbox| <= |VisitFrom(members, c, i, num, res, from).outbox|
    ensures VisitFrom(members, c, i, num, res, from).outbox[..|c.outbox|] == c.outbox
    ensures forall k :: |c.outbox| <= k < |VisitFrom(members, c, i, num, res, from).outbox| ==>
      var o := VisitFrom(members, c, i, num, res, from).outbox[k];
      o.SendRequest? && o.req.CommitRequest? && o.to in members
    decreases num - i
  {
    if i < num {
      var c1 := Visit(members, c, i, res, from);
      VisitGrows(members, c, i, res, from);
      VisitFromSendsCommits(members, c1, i + 1, num, res, from);
      var r := VisitFrom(members, c1, i + 1, num, res, from);
      assert r.outbox[..|c.outbox|] == c1.outbox[..|c1.outbox|][..|c.outbox|];
      forall k | |c.outbox| <= k < |c1.outbox|
        ensures r.outbox[k].SendRequest? && r.outbox[k].req.CommitRequest? && r.outbox[k].to in members
      {
        assert r.outbox[k] == c1.outbox[k];
      }
    }
  }

  class Leader {
    const members: seq<string>
    const me: string
    const isMember: bool
    const isElected: bool
    const ballot: nat
    const electedLeader: string
    var minUncommittedSlot: nat
    var nextEmptySlot: nat
    var proposals: map<nat, Proposal>
    var trackers: seq<Tracker>
    var outbox: seq<Output>

    function CoreOf(): Core
      reads this
    {
      Core(proposals, trackers, outbox)
    }

    /** The slot counters are ordered, every proposal and tracker is for a
      * slot below the next empty one, and the first uncommitted slot is
      * indeed not committed. */
    ghost predicate Valid()
      reads this
    {
      minUncommittedSlot <= nextEmptySlot &&
      SlotsBelow(CoreOf(), nextEmptySlot) &&
      FrontUncommitted(proposals, minUncommittedSlot)
    }

    /** The constructor: a member's ballot is its position among the
      * members, the member at position 0 is elected, and a non-member
      * forwards proposals to it. A non-member's ballot is never used and is
      * 0 here. */
    constructor(members: seq<string>, me: string)
      requires |members| > 0
      ensures Valid()
      ensures this.members == members && this.me == me
      ensures isMember <==> me in members
      ensures isElected <==> members[0] == me
      ensures isMember ==> ballot < |members| && members[ballot] == me && forall j :: 0 <= j < ballot ==> members[j] != me
      ensures electedLeader == members[0]
      ensures minUncommittedSlot == 0 && nextEmptySlot == 0 && proposals == map[] && trackers == [] && outbox == []
    {
      this.members := members;
      this.me := me;
      var position := FirstIndex(members, me);
      isMember := position.Some?;
      if position.Some? {
        isElected := position.value == 0;
        ballot := position.value;
      } else {
        isElected := false;
        ballot := 0;
      }
      electedLeader := members[0];
      minUncommittedSlot := 0;
      nextEmptySlot := 0;
      proposals := map[];
      trackers := [];
      outbox := [];
    }

    /** SendToAllMembers. */
    method SendToAllMembers(req: Request)
      modifies this`outbox
      ensures outbox == old(outbox) + ToAll(members, req)
    {
      for i := 0 to |members|
        invariant outbox == old(outbox) + ToAll(members[..i], req)
      {
        assert ToAll(members[..i + 1], req) == ToAll(members[..i], req) + [SendRequest(members[i], req)];
        outbox := outbox + [SendRequest(members[i], req)];
      }
      assert members[..|members|] == members;
    }

    /** StartNewAcceptance: the proposal takes the next empty slot, an
      * acceptance tracker is added and an accept request goes to every
      * member. */
    method StartNewAcceptance(value: nat)
      requires Valid()
      modifies this
      ensures Valid()
      ensures nextEmptySlot == old(nextEmptySlot) + 1 && minUncommittedSlot == old(minUncommittedSlot)
      ensures proposals == old(proposals)[old(nextEmptySlot) := Proposal(ballot, value, false)]
      ensures trackers == old(trackers) + [NewTracker(Acceptance(ballot, old(nextEmptySlot)), |members|)]
      ensures outbox == old(outbox) + ToAll(members, AcceptRequest(ballot, old(nextEmptySlot), value))
    {
      proposals := proposals[nextEmptySlot := Proposal(ballot, value, false)];
      trackers := trackers + [NewTracker(Acceptance(ballot, nextEmptySlot), |members|)];
      var request := AcceptRequest(ballot, nextEmptySlot, value);
      nextEmptySlot := nextEmptySlot + 1;
      SendToAllMembers(request);
    }

    /** ProcessCommitRequest: a slot below the first uncommitted one is
      * ignored; otherwise the slot is recorded committed and reported, the
      * next empty slot moves past it, and the committed run at the front is
      * erased. Two different values or ballots committed for one slot
      * violate Paxos and are fatal. */
    method ProcessCommitRequest(cballot: nat, slot: nat, value: nat)
      requires Valid()
      requires slot >= minUncommittedSlot && slot in proposals && proposals[slot].isCommitted ==>
        value == proposals[slot].value && cballot == proposals[slot].ballot
      modifies this
      ensures Valid()
      ensures slot < old(minUncommittedSlot) ==>
        proposals == old(proposals) && outbox == old(outbox) && trackers == old(trackers) &&
        minUncommittedSlot == old(minUncommittedSlot) && nextEmptySlot == old(nextEmptySlot)
      ensures slot >= old(minUncommittedSlot) ==>
        var p := old(proposals)[slot := Proposal(cballot, value, true)];
        outbox == old(outbox) + [Committed(slot, value)] && trackers == old(trackers) &&
        nextEmptySlot == (if slot >= old(nextEmptySlot) then slot + 1 else old(nextEmptySlot)) &&
        proposals == Erased(p, old(minUncommittedSlot)) && minUncommittedSlot == PrefixEnd(p, old(minUncommittedSlot))
    {
      if slot < minUncommittedSlot {
        return;
      }
      proposals := proposals[slot := Proposal(cballot, value, true)];
      outbox := outbox + [Committed(slot, value)];
      if slot >= nextEmptySlot {
        nextEmptySlot := slot + 1;
      }
      ErasedIsCommittedRun(proposals, minUncommittedSlot);
      RunBelowBound(proposals, minUncommittedSlot, nextEmptySlot);
      var p, m := EraseCommittedPrefix(proposals, minUncommittedSlot);
      proposals, minUncommittedSlot := p, m;
    }

    /** HandleRequest: a proposal starts an acceptance on the elected leader
      * and is forwarded to it elsewhere; a commit request is processed;
      * anything else is ignored. */
    method HandleRequest(req: Request)
      requires Valid()
      requires req.CommitRequest? && req.slot >= minUncommittedSlot && req.slot in proposals &&
               proposals[req.slot].isCommitted ==>
        req.value == proposals[req.slot].value && req.ballot == proposals[req.slot].ballot
      modifies this
      ensures Valid()
      ensures req.ProposeRequest? && !isElected ==>
        outbox == old(outbox) + [SendRequest(electedLeader, req)] && proposals == old(proposals) &&
        nextEmptySlot == old(nextEmptySlot) && trackers == old(trackers)
      ensures req.ProposeRequest? && isElected ==>
        nextEmptySlot == old(nextEmptySlot) + 1 && minUncommittedSlot == old(minUncommittedSlot) &&
        proposals == old(proposals)[old(nextEmptySlot) := Proposal(ballot, req.value, false)] &&
        trackers == old(trackers) + [NewTracker(Acceptance(ballot, old(nextEmptySlot)), |members|)] &&
        outbox == old(outbox) + ToAll(members, AcceptRequest(ballot, old(nextEmptySlot), req.value))
      ensures req.CommitRequest? && req.slot < old(minUncommittedSlot) ==>
        proposals == old(proposals) && outbox == old(outbox) && trackers == old(trackers) &&
        minUncommittedSlot == old(minUncommittedSlot) && nextEmptySlot == old(nextEmptySlot)
      ensures req.CommitRequest? && req.slot >= old(minUncommittedSlot) ==>
        var p := old(proposals)[req.slot := Proposal(req.ballot, req.value, true)];
        outbox == old(outbox) + [Committed(req.slot, req.value)] && trackers == old(trackers) &&
        nextEmptySlot == (if req.slot >= old(nextEmptySlot) then req.slot + 1 else old(nextEmptySlot)) &&
        proposals == Erased(p, old(minUncommittedSlot)) && minUncommittedSlot == PrefixEnd(p, old(minUncommittedSlot))
      ensures req.OtherRequest? || req.AcceptRequest? ==>
        proposals == old(proposals) && outbox == old(outbox) && trackers == old(trackers) &&
        minUncommittedSlot == old(minUncommittedSlot) && nextEmptySlot == old(nextEmptySlot)
    {
      match req
      case ProposeRequest(value) =>
        if isElected {
          StartNewAcceptance(value);
        } else {
          outbox := outbox + [SendRequest(electedLeader, req)];
        }
      case CommitRequest(cballot, slot, value) =>
        ProcessCommitRequest(cballot, slot, value);
      case _ =>
    }

    /** StartNewCommit. */
    method StartNewCommit(slot: nat)
      modifies this`proposals, this`trackers, this`outbox
      ensures CoreOf() == StartCommit(members, old(CoreOf()), slot)
    {
      trackers := trackers + [NewTracker(Commit(slot), |members|)];
      if slot !in proposals {
        proposals := proposals[slot := Proposal(0, 0, false)];
      }
      SendToAllMembers(CommitRequest(0, slot, proposals[slot].value));
    }

    /** HandleResponse: every tracker present at the start sees the
      * response; an acceptance tracker that reaches its quorum starts the
      * commit; then finished trackers are removed. */
    method HandleResponse(res: Response, from: string)
      requires Valid()
      modifies this
      ensures Valid()
      ensures var c := VisitFrom(members, old(CoreOf()), 0, |old(trackers)|, res, from);
        proposals == c.proposals && outbox == c.outbox && trackers == Unfinished(c.trackers)
      ensures forall j :: 0 <= j < |trackers| ==> !Finished(trackers[j])
      ensures minUncommittedSlot == old(minUncommittedSlot) && nextEmptySlot == old(nextEmptySlot)
    {
      var num := |trackers|;
      ghost var goal := VisitFrom(members, CoreOf(), 0, num, res, from);
      VisitFromKeeps(members, CoreOf(), 0, num, res, from, nextEmptySlot, minUncommittedSlot);
      var i := 0;
      while i < num
        invariant i <= num <= |trackers|
        invariant VisitFrom(members, CoreOf(), i, num, res, from) == goal
        invariant minUncommittedSlot == old(minUncommittedSlot) && nextEmptySlot == old(nextEmptySlot)
      {
        ghost var before := CoreOf();
        var (t, changed) := Handle(trackers[i], res, from);
        trackers := trackers[i := t];
        if changed && t.kind.Acceptance? {
          if t.state == QUORUM_REACHED || (|members| <= 2 && t.state == COMPLETE) {
            StartNewCommit(t.kind.slot);
          }
        }
        assert CoreOf() == Visit(members, before, i, res, from);
        i := i + 1;
      }
      UnfinishedKeeps(trackers);
      assert SlotsBelow(Core(proposals, trackers, outbox), nextEmptySlot);
      trackers := Unfinished(trackers);
      forall j | 0 <= j < |trackers| ensures trackers[j].kind.slot < nextEmptySlot && !Finished(trackers[j]) {
        assert trackers[j] in Unfinished(goal.trackers);
      }
    }
  }
}
