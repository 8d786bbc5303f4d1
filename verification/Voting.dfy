/** Votes: the quorum, the tally, and deciding before everyone has voted. */
module Voting {
  import opened Wrappers

  const APPROVE := "approve"
  const REJECT := "reject"

  datatype ProposalVote = ProposalVote(identityId: string, decision: string, votedAt: int)

  datatype ResolutionStats = ResolutionStats(activeMembers: int, requiredYes: int, approveVotes: int, rejectVotes: int,
    pendingVotes: int)

  function RequiredVotes(activeMembers: int, quorumPct: int): int
  {
    if activeMembers <= 0 then 0
    else if quorumPct <= 0 then 0
    else (activeMembers * quorumPct + 99) / 100
  }

  /**
   The least number of votes that is at least the quorum's share; for legal quorums a strict majority, and
   attainable.
   */
  lemma RequiredIsTheLeastQuorum(n: int, q: int, votes: int)
    requires n > 0 && q > 0
    ensures votes >= RequiredVotes(n, q) <==> 100 * votes >= n * q
    ensures 51 <= q <= 100 ==> n < 2 * RequiredVotes(n, q) && 1 <= RequiredVotes(n, q) <= n
  {
    var share := n * q;
    assert RequiredVotes(n, q) == (share + 99) / 100;
    if 51 <= q <= 100 {
      assert n * 51 <= share <= n * 100 by { ShareBetween(n, q); }
    }
  }

  lemma ShareBetween(n: int, q: int)
    requires n > 0 && 51 <= q <= 100
    ensures n * 51 <= n * q <= n * 100
  {
  }

  ghost function Tally(votes: seq<ProposalVote>, decision: string): nat
  {
    if votes == [] then 0
    else Tally(votes[..|votes| - 1], decision) + (if votes[|votes| - 1].decision == decision then 1 else 0)
  }

  function Pending(activeMembers: int, voted: int): int { if activeMembers > voted then activeMembers - voted else 0 }

  ghost function StatsOf(votes: seq<ProposalVote>, activeMembers: int, quorumPct: int): ResolutionStats
  {
    var approve, reject := Tally(votes, APPROVE), Tally(votes, REJECT);
    ResolutionStats(activeMembers, RequiredVotes(activeMembers, quorumPct), approve, reject,
      Pending(activeMembers, approve + reject))
  }

  method ComputeResolutionStats(votes: seq<ProposalVote>, activeMembers: int, quorumPct: int)
    returns (stats: ResolutionStats)
    ensures stats == StatsOf(votes, activeMembers, quorumPct)
  {
    hide RequiredVotes;
    stats := ResolutionStats(activeMembers, RequiredVotes(activeMembers, quorumPct), 0, 0, 0);
    for i := 0 to |votes|
      invariant stats == ResolutionStats(activeMembers, RequiredVotes(activeMembers, quorumPct),
                                         Tally(votes[..i], APPROVE), Tally(votes[..i], REJECT), 0)
    {
      assert votes[..i + 1][..i] == votes[..i];
      if votes[i].decision == APPROVE {
        stats := stats.(approveVotes := stats.approveVotes + 1);
      } else if votes[i].decision == REJECT {
        stats := stats.(rejectVotes := stats.rejectVotes + 1);
      }
    }
    assert votes[..|votes|] == votes;
    var voted := stats.approveVotes + stats.rejectVotes;
    if activeMembers > voted {
      stats := stats.(pendingVotes := activeMembers - voted);
    }
  }

  datatype Verdict = Approve | Reject | Undecided

  function VerdictOf(stats: ResolutionStats): Verdict
  {
    if stats.approveVotes >= stats.requiredYes then Approve
    else if stats.approveVotes + stats.pendingVotes < stats.requiredYes then Reject
    else Undecided
  }

  // --------------------------------------------------------------------------
  // Deciding early
  // --------------------------------------------------------------------------

  predicate HasVoted(votes: seq<ProposalVote>, id: string) { exists i | 0 <= i < |votes| :: votes[i].identityId == id }

  /** Votes as `CastVote` lets them in: one each, from the electorate, for or against. */
  ghost predicate Ballots(votes: seq<ProposalVote>, electorate: set<string>)
  {
    && (forall i | 0 <= i < |votes| :: votes[i].identityId in electorate && votes[i].decision in {APPROVE, REJECT})
    && (forall i, j | 0 <= i < j < |votes| :: votes[i].identityId != votes[j].identityId)
  }

  lemma {:induction false} EveryBallotCounts(votes: seq<ProposalVote>, electorate: set<string>)
    requires Ballots(votes, electorate)
    ensures Tally(votes, APPROVE) + Tally(votes, REJECT) == |votes|
  {
    if votes != [] {
      EveryBallotCounts(votes[..|votes| - 1], electorate);
    }
  }

  lemma {:induction false} TallyGrows(votes: seq<ProposalVote>, more: seq<ProposalVote>, decision: string)
    ensures Tally(votes, decision) <= Tally(votes + more, decision) <= Tally(votes, decision) + |more|
  {
    if more == [] {
      assert votes + more == votes;
    } else {
      TallyGrows(votes, more[..|more| - 1], decision);
      assert (votes + more)[..|votes + more| - 1] == votes + more[..|more| - 1];
    }
  }

  ghost function Voters(votes: seq<ProposalVote>): set<string> { set i | 0 <= i < |votes| :: votes[i].identityId }

  lemma {:induction false} BallotsFit(votes: seq<ProposalVote>, electorate: set<string>)
    requires Ballots(votes, electorate)
    ensures |Voters(votes)| == |votes| <= |electorate| && Voters(votes) <= electorate
  {
    if votes != [] {
      var n := |votes| - 1;
      BallotsFit(votes[..n], electorate);
      assert votes == votes[..n] + [votes[n]];
      VotersOneMore(votes[..n], votes[n]);
      Subset(Voters(votes), electorate);
    }
  }

  lemma Subset<T>(a: set<T>, b: set<T>)
    requires a <= b
    ensures |a| <= |b|
  {
    assert b == a + (b - a);
  }

  lemma VotersOneMore(votes: seq<ProposalVote>, v: ProposalVote)
    ensures Voters(votes + [v]) == Voters(votes) + {v.identityId}
  {
    var more := votes + [v];
    forall x | x in Voters(votes) + {v.identityId}
      ensures x in Voters(more)
    {
      if x == v.identityId {
        assert more[|votes|].identityId == x;
      } else {
        var i :| 0 <= i < |votes| && votes[i].identityId == x;
        assert more[i].identityId == x;
      }
    }
  }

  lemma OneMoreApproval(votes: seq<ProposalVote>, electorate: set<string>, v: ProposalVote)
    requires Ballots(votes, electorate) && v.decision == APPROVE
    requires v.identityId in electorate && v.identityId !in Voters(votes)
    ensures Ballots(votes + [v], electorate) && Tally(votes + [v], APPROVE) == Tally(votes, APPROVE) + 1
  {
    assert forall i | 0 <= i < |votes| :: votes[i].identityId in Voters(votes);
    assert (votes + [v])[..|votes|] == votes;
  }

  /** Everybody who has not voted yet approves. */
  lemma {:induction false} RestApproves(votes: seq<ProposalVote>, electorate: set<string>, rest: set<string>)
    returns (more: seq<ProposalVote>)
    requires Ballots(votes, electorate) && rest <= electorate && rest !! Voters(votes)
    ensures Ballots(votes + more, electorate) && |more| == |rest|
    ensures Tally(votes + more, APPROVE) == Tally(votes, APPROVE) + |rest|
    decreases |rest|
  {
    hide Ballots, Tally, Voters;
    if rest == {} {
      more := [];
      assert votes + more == votes;
    } else {
      var id :| id in rest;
      var v := ProposalVote(id, APPROVE, 0);
      OneMoreApproval(votes, electorate, v);
      VotersOneMore(votes, v);
      var tail := RestApproves(votes + [v], electorate, rest - {id});
      more := [v] + tail;
      assert votes + more == votes + [v] + tail;
    }
  }

  /** The votes can still be completed to an approval, given the number that is required. */
  ghost predicate CanStillPass(votes: seq<ProposalVote>, electorate: set<string>, required: int)
  {
    exists more :: Ballots(votes + more, electorate) && Tally(votes + more, APPROVE) >= required
  }

  /** A completion to an approval exists exactly when the approvals and the votes not yet cast make up the number. */
  lemma CanPassIff(votes: seq<ProposalVote>, electorate: set<string>, required: int)
    requires Ballots(votes, electorate)
    ensures CanStillPass(votes, electorate, required) <==> Tally(votes, APPROVE) + |electorate| - |votes| >= required
  {
    BallotsFit(votes, electorate);
    if CanStillPass(votes, electorate, required) {
      var more :| Ballots(votes + more, electorate) && Tally(votes + more, APPROVE) >= required;
      TallyGrows(votes, more, APPROVE);
      BallotsFit(votes + more, electorate);
    }
    if Tally(votes, APPROVE) + |electorate| - |votes| >= required {
      var rest := electorate - Voters(votes);
      assert |rest| == |electorate| - |votes| by { assert electorate == Voters(votes) + rest; }
      var more := RestApproves(votes, electorate, rest);
      assert Ballots(votes + more, electorate);
    }
  }

  /**
   When every voter is an active member, deciding early is right: rejected exactly when no completion could
   approve, approved for good, and decided at the latest when everybody has voted.
   */
  lemma EarlyDecisionIsSound(votes: seq<ProposalVote>, members: set<string>, q: int, more: seq<ProposalVote>)
    requires Ballots(votes, members) && Ballots(votes + more, members)
    ensures var verdict := VerdictOf(StatsOf(votes, |members|, q));
      && (verdict == Reject <==> !CanStillPass(votes, members, RequiredVotes(|members|, q)))
      && (verdict == Approve ==> VerdictOf(StatsOf(votes + more, |members|, q)) == Approve)
      && (verdict == Reject ==> VerdictOf(StatsOf(votes + more, |members|, q)) == Reject)
      && (|votes| == |members| ==> verdict != Undecided)
  {
    hide RequiredVotes, Ballots, CanStillPass;
    CanPassIff(votes, members, RequiredVotes(|members|, q));
    EveryBallotCounts(votes, members);
    EveryBallotCounts(votes + more, members);
    BallotsFit(votes, members);
    BallotsFit(votes + more, members);
    TallyGrows(votes, more, APPROVE);
  }

  /**
   Whoever may vote beside the counted members - an outside founder, members who left after voting - the early
   rejection is wrong exactly when the members counted as pending are too few for the required number, but all those
   who have not voted are not. It is never missing where it would be right.
   */
  lemma RejectionExactly(votes: seq<ProposalVote>, members: set<string>, electorate: set<string>, q: int)
    requires members <= electorate && Ballots(votes, electorate)
    ensures var required := RequiredVotes(|members|, q);
      var rejected := VerdictOf(StatsOf(votes, |members|, q)) == Reject;
      var reached := Tally(votes, APPROVE);
      && (!CanStillPass(votes, electorate, required) ==> rejected)
      && (rejected && CanStillPass(votes, electorate, required) <==>
            reached + Pending(|members|, |votes|) < required <= reached + |electorate| - |votes|)
  {
    hide RequiredVotes, Ballots, CanStillPass;
    CanPassIff(votes, electorate, RequiredVotes(|members|, q));
    EveryBallotCounts(votes, electorate);
    BallotsFit(votes, electorate);
    Subset(members, electorate);
  }

  /**
   A founder who is not an active member may vote too, but is not counted among those still to vote. Then
   the early rejection is right exactly when the approvals and all the votes to come do not add up to
   precisely the required number.
   */
  lemma OutsideFounderExactly(votes: seq<ProposalVote>, members: set<string>, founder: string, q: int)
    requires founder !in members && Ballots(votes, members + {founder})
    ensures var required := RequiredVotes(|members|, q);
      var rejected := VerdictOf(StatsOf(votes, |members|, q)) == Reject;
      (rejected <==> !CanStillPass(votes, members + {founder}, required)) <==>
      !(|votes| <= |members| && Tally(votes, APPROVE) + |members| + 1 - |votes| == required)
  {
    hide RequiredVotes, Ballots, CanStillPass, VerdictOf, StatsOf;
    RejectionExactly(votes, members, members + {founder}, q);
    BallotsFit(votes, members + {founder});
  }

  /** Two members reject and leave; the two who stay could both still approve, but nobody is counted as pending. */
  lemma LeaversRejectTooEarly(votedAt: int)
    ensures var votes := [ProposalVote("a", REJECT, votedAt), ProposalVote("b", REJECT, votedAt)];
      var members, electorate := {"c", "d"}, {"a", "b", "c", "d"};
      && Ballots(votes, electorate)
      && VerdictOf(StatsOf(votes, |members|, 51)) == Reject
      && CanStillPass(votes, electorate, RequiredVotes(|members|, 51))
  {
    var votes := [ProposalVote("a", REJECT, votedAt), ProposalVote("b", REJECT, votedAt)];
    var members, electorate := {"c", "d"}, {"a", "b", "c", "d"};
    assert votes[..1] == [votes[0]] && votes[..1][..0] == [];
    assert Tally(votes[..1], APPROVE) == 0 && Tally(votes[..1], REJECT) == 1;
    assert Tally(votes, APPROVE) == 0 && Tally(votes, REJECT) == 2;
    assert |members| == 2 && |electorate| == 4;
    assert "a" != "b";
    assert Ballots(votes, electorate);
    RejectionExactly(votes, members, electorate, 51);
  }

  /** One vote of an outside founder is enough to reject what both members of a group could still approve. */
  lemma OutsideFounderRejectsTooEarly(votedAt: int)
    ensures var votes := [ProposalVote("founder", REJECT, votedAt)];
      var members := {"a", "b"};
      && Ballots(votes, members + {"founder"})
      && VerdictOf(StatsOf(votes, |members|, 51)) == Reject
      && CanStillPass(votes, members + {"founder"}, RequiredVotes(|members|, 51))
  {
    var votes := [ProposalVote("founder", REJECT, votedAt)];
    var members := {"a", "b"};
    assert votes[..0] == [];
    assert Tally(votes, APPROVE) == 0 && Tally(votes, REJECT) == 1;
    var electorate := members + {"founder"};
    assert |members| == 2 && |electorate| == 3;
    CanPassIff(votes, electorate, RequiredVotes(2, 51));
  }

  /** A group without active members requires no votes: any proposal passes unvoted. */
  lemma NobodyToAsk(votes: seq<ProposalVote>, n: int, q: int)
    requires n <= 0
    ensures VerdictOf(StatsOf(votes, n, q)) == Approve
  {
  }
}
