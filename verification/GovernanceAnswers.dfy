/** What proposing, voting and resolving are answered, and what they leave in the store. */
module GovernanceAnswers {
  import opened Wrappers
  import opened Voting
  import opened Configs
  import opened ConfigStore
  import opened GovernanceTheorems

  /** The founder of a group, or one of its active members. */
  ghost predicate MayAct(s: Store, group: string, who: string)
  {
    && group in s.groups
    && (who == s.groups[group].founderId || (group in s.members && who in s.members[group]))
  }

  /** The counts that go with an answer are those of the proposal's votes, its base's quorum and the members of now. */
  ghost predicate CountsFit(s: Store, p: ProposalRecord, stats: ResolutionStats)
  {
    var members := if p.groupId in s.members then |s.members[p.groupId]| else 0;
    && p.baseConfigId in s.configs
    && stats.activeMembers == members
    && stats.requiredYes == RequiredVotes(members, s.configs[p.baseConfigId].quorumPct)
    && stats.approveVotes == Tally(p.votes, "approve") && stats.rejectVotes == Tally(p.votes, "reject")
    && stats.pendingVotes == if |p.votes| < members then members - |p.votes| else 0
  }

  lemma CountsOfBallots(s: Store, p: ProposalRecord, base: ConfigSnapshot)
    requires VotesOk(p.votes) && p.baseConfigId in s.configs && s.configs[p.baseConfigId].quorumPct == base.quorumPct
    ensures CountsFit(s, p, StatsFor(s, p, base))
  {
    hide RequiredVotes;
    EveryBallotCounts(p.votes, Voters(p.votes)) by {
      forall i | 0 <= i < |p.votes| ensures p.votes[i].identityId in Voters(p.votes) { }
    }
  }

  lemma VotesAreOk(s: Store, id: string)
    requires Inv(s) && id in s.proposals
    ensures VotesOk(s.proposals[id].votes) && s.proposals[id].baseConfigId in s.configs
  {
    hide ConfigsOk, GroupsOk, NewConfigsDiffer, BuildDiffSummary, SameTerms, StatesOk;
    assert ProposalOk(s, id);
  }

  // --------------------------------------------------------------------------
  // Proposing
  // --------------------------------------------------------------------------

  /** A patch that says something, and nothing illegal. */
  ghost predicate Legal(p: ConfigPatch)
  {
    && (p.amountMinor.Some? || p.periodicity.Some? || p.payoutPolicy.Some? || p.memberOrder.Some? || p.quorumPct.Some?)
    && (p.amountMinor.Some? ==> p.amountMinor.value > 0)
    && (p.periodicity.Some? ==> ToLower(TrimSpace(p.periodicity.value)) in {"weekly", "biweekly", "monthly"})
    && (p.memberOrder.Some? ==>
          && |p.memberOrder.value| > 0
          && (forall i | 0 <= i < |p.memberOrder.value| :: TrimSpace(p.memberOrder.value[i]) != "")
          && (forall i, j | 0 <= i < j < |p.memberOrder.value| ::
                TrimSpace(p.memberOrder.value[i]) != TrimSpace(p.memberOrder.value[j])))
    && (p.quorumPct.Some? ==> 51 <= p.quorumPct.value <= 100)
  }

  /** Some field of the patch is not what the base says already. */
  ghost predicate SaysSomethingNew(base: ConfigSnapshot, p: ConfigPatch)
  {
    || (p.amountMinor.Some? && p.amountMinor.value != base.amountMinor)
    || (p.periodicity.Some? && ToLower(TrimSpace(p.periodicity.value)) != base.periodicity)
    || (p.payoutPolicy.Some? && p.payoutPolicy.value != base.payoutPolicy)
    || (p.memberOrder.Some? && p.memberOrder.value != base.memberOrder)
    || (p.quorumPct.Some? && p.quorumPct.value != base.quorumPct)
  }

  /** Field by field, the patch's value where it has one and the base's value elsewhere. */
  ghost predicate FollowsPatch(base: ConfigSnapshot, p: ConfigPatch, c: ConfigSnapshot)
  {
    && (p.amountMinor.Some? ==> c.amountMinor == p.amountMinor.value)
    && (p.amountMinor.None? ==> c.amountMinor == base.amountMinor)
    && (p.periodicity.Some? ==> c.periodicity == ToLower(TrimSpace(p.periodicity.value)))
    && (p.periodicity.None? ==> c.periodicity == base.periodicity)
    && (p.payoutPolicy.Some? ==> c.payoutPolicy == p.payoutPolicy.value)
    && (p.payoutPolicy.None? ==> c.payoutPolicy == base.payoutPolicy)
    && (p.memberOrder.Some? ==> c.memberOrder == p.memberOrder.value)
    && (p.memberOrder.None? ==> c.memberOrder == base.memberOrder)
    && (p.quorumPct.Some? ==> c.quorumPct == p.quorumPct.value)
    && (p.quorumPct.None? ==> c.quorumPct == base.quorumPct)
  }

  /**
   For every base and patch: a configuration is built exactly if the present fields are legal and one of them differs
   from the base; it follows the patch field by field and is the next version of the base, in review. A patch that says
   nothing, or nothing new, is told so; any other is told that it is illegal.
   */
  lemma PatchDecides(base: ConfigSnapshot, id: string, proposedBy: string, version: int, p: ConfigPatch,
                     r: Result<ConfigSnapshot, GovernanceError>)
    requires r == Build(base, id, proposedBy, version, p)
    ensures r.Ok? <==> Legal(p) && SaysSomethingNew(base, p)
    ensures r.Ok? ==>
      && FollowsPatch(base, p, r.value)
      && r.value.id == id && r.value.groupId == base.groupId && r.value.versionNo == version
      && r.value.state == Review && r.value.committedAt == None && r.value.createdBy == proposedBy
      && r.value.prevConfigId == Some(base.id)
    ensures r.Err? ==> r.error == if EmptyPatch(p) || Legal(p) then NoConfigChanges else InvalidInput
  {
    hide ToLower, TrimSpace;
  }

  /** The `to` value that a field of the diff has exactly if the patch brings something new for it. */
  ghost predicate DiffFollowsPatch(base: ConfigSnapshot, p: ConfigPatch, d: ProposalDiff)
  {
    && ("amount_minor" in d <==> p.amountMinor.Some? && p.amountMinor.value != base.amountMinor)
    && ("amount_minor" in d ==>
          d["amount_minor"] == ProposalChange(Amount(base.amountMinor), Amount(p.amountMinor.value)))
    && ("periodicity" in d <==>
          p.periodicity.Some? && ToLower(TrimSpace(p.periodicity.value)) != base.periodicity)
    && ("periodicity" in d ==>
          && d["periodicity"].from == Text(base.periodicity)
          && d["periodicity"].to == Text(ToLower(TrimSpace(p.periodicity.value))))
    && ("payout_policy" in d <==> p.payoutPolicy.Some? && p.payoutPolicy.value != base.payoutPolicy)
    && ("payout_policy" in d ==>
          d["payout_policy"] == ProposalChange(Policy(base.payoutPolicy), Policy(p.payoutPolicy.value)))
    && ("member_order" in d <==> p.memberOrder.Some? && p.memberOrder.value != base.memberOrder)
    && ("member_order" in d ==>
          d["member_order"] == ProposalChange(Order(base.memberOrder), Order(p.memberOrder.value)))
    && ("quorum_pct" in d <==> p.quorumPct.Some? && p.quorumPct.value != base.quorumPct)
    && ("quorum_pct" in d ==> d["quorum_pct"] == ProposalChange(Amount(base.quorumPct), Amount(p.quorumPct.value)))
    && (forall field | field in d ::
          field in {"amount_minor", "periodicity", "payout_policy", "member_order", "quorum_pct"})
  }

  lemma DiffOfPatch(base: ConfigSnapshot, p: ConfigPatch, c: ConfigSnapshot)
    requires FollowsPatch(base, p, c)
    ensures DiffFollowsPatch(base, p, BuildDiffSummary(base, c))
  {
    hide BuildDiffSummary, ToLower, TrimSpace;
    DiffFields(base, c);
  }

  /** What stands in the way of a proposal before its patch is looked at. */
  ghost predicate MayPropose(s: Store, group: string, who: string)
  {
    !Blank(group) && !Blank(who) && group in s.groups && s.groups[group].activeConfigId.Some? && MayAct(s, group, who)
  }

  /** A configuration and a proposal more: the patched base in review, and an open proposal without votes about it. */
  ghost predicate ProposalMade(s: Store, s': Store, group: string, who: string, patch: ConfigPatch,
                               newId: string, proposalId: string)
    requires group in s.groups && s.groups[group].activeConfigId.Some?
    requires s.groups[group].activeConfigId.value in s.configs
  {
    var base := s.configs[s.groups[group].activeConfigId.value];
    && s'.groups == s.groups && s'.members == s.members
    && s'.configs.Keys == s.configs.Keys + {newId} && s'.proposals.Keys == s.proposals.Keys + {proposalId}
    && (forall c | c in s.configs :: s'.configs[c] == s.configs[c])
    && (forall p | p in s.proposals :: s'.proposals[p] == s.proposals[p])
    && var c, p := s'.configs[newId], s'.proposals[proposalId];
    && FollowsPatch(base, patch, c) && IsNextVersion(s.configs, group, c.versionNo)
    && c.id == newId && c.groupId == group && c.state == Review && c.committedAt == None && c.createdBy == who
    && c.prevConfigId == s.groups[group].activeConfigId
    && p.id == proposalId && p.groupId == group && p.proposedBy == who && p.status == Open && p.votes == []
    && Some(p.baseConfigId) == s.groups[group].activeConfigId && p.newConfigId == newId && p.resolvedAt == None
    && DiffFollowsPatch(base, patch, p.diffSummary)
  }

  lemma ActiveBaseIsCommitted(s: Store, group: string)
    requires Inv(s) && group in s.groups && s.groups[group].activeConfigId.Some?
    ensures var a := s.groups[group].activeConfigId.value;
      && a in s.configs && s.configs[a].id == a && s.configs[a].groupId == group
      && s.configs[a].state == CommittedConfig && s.configs[a].amountMinor > 0
      && IsPeriod(s.configs[a].periodicity) && 51 <= s.configs[a].quorumPct <= 100
  {
    hide ProposalsOk, NewConfigsDiffer, IsPeriod;
    assert GroupOk(s, group) && ConfigOk(s, s.groups[group].activeConfigId.value);
  }

  /** With identifiers nobody has, nothing in the database stands in the way of a legal configuration in review. */
  lemma FreshRowsFit(s: Store, group: string, base: ConfigSnapshot, c: ConfigSnapshot, p: ProposalRecord)
    requires Inv(s) && group in s.groups && base.id in s.configs && base.groupId == group
    requires c.id !in s.configs && p.id !in s.proposals && c.groupId == group && c.state == Review
    requires IsNextVersion(s.configs, group, c.versionNo) && c.prevConfigId == Some(base.id)
    requires c.amountMinor > 0 && IsPeriod(c.periodicity) && 51 <= c.quorumPct <= 100
    requires p.groupId == group && p.baseConfigId == base.id && p.newConfigId == c.id
    ensures CanCreate(s, c, p)
  {
    hide ConfigOk, GroupOk, ProposalOk, IsPeriod;
    IndexHolds(s);
  }

  /**
   Every proposal, in every reachable store and with fresh identifiers: made exactly if a governor of a group with an
   active configuration brings a legal patch that says something new; refused to everybody else, and then nothing
   changes.
   */
  lemma ProposalAnswers(s: Store, group: string, who: string, patch: ConfigPatch, version: int, newId: string,
                        proposalId: string, s': Store, reply: Reply)
    requires Reachable(s) && newId !in s.configs && proposalId !in s.proposals
    requires IsNextVersion(s.configs, group, version)
    requires (s', reply) == CreateProposal(s, group, who, patch, version, newId, proposalId)
    ensures MayPropose(s, group, who) ==> s.groups[group].activeConfigId.value in s.configs
    ensures reply.Answer? <==>
      && MayPropose(s, group, who) && Legal(patch)
      && SaysSomethingNew(s.configs[s.groups[group].activeConfigId.value], patch)
    ensures reply.Answer? ==>
      && ProposalMade(s, s', group, who, patch, newId, proposalId) && reply.proposal == s'.proposals[proposalId]
      && CountsFit(s', reply.proposal, reply.stats)
    ensures reply.Error? ==> s' == s
    ensures reply.Error? ==>
      reply.error == if Blank(group) || Blank(who) then InvalidInput
      else if group !in s.groups then NotFound
      else if s.groups[group].activeConfigId.None? then InvalidInput
      else if !MayAct(s, group, who) then Forbidden
      else if EmptyPatch(patch) || Legal(patch) then NoConfigChanges
      else InvalidInput
  {
    hide Reachable, Inv, Legal, SaysSomethingNew, FollowsPatch, DiffFollowsPatch, CanCreate, Blank, Build, StatsFor;
    hide BuildDiffSummary, IsPeriod;
    ReachableIsOk(s);
    if group in s.groups && s.groups[group].activeConfigId.Some? {
      ActiveBaseIsCommitted(s, group);
      var base := s.configs[s.groups[group].activeConfigId.value];
      var r := Build(base, newId, who, version, patch);
      PatchDecides(base, newId, who, version, patch, r);
      if r.Ok? {
        DiffOfPatch(base, patch, r.value);
        FollowingIsLegal(base, patch, r.value);
        var p := NewProposal(proposalId, group, who, base, r.value);
        FreshRowsFit(s, group, base, r.value, p);
        CountsOfBallots(s, p, base);
      }
    }
  }

  lemma FollowingIsLegal(base: ConfigSnapshot, p: ConfigPatch, c: ConfigSnapshot)
    requires FollowsPatch(base, p, c) && Legal(p)
    requires base.amountMinor > 0 && IsPeriod(base.periodicity) && 51 <= base.quorumPct <= 100
    ensures c.amountMinor > 0 && IsPeriod(c.periodicity) && 51 <= c.quorumPct <= 100
  {
    hide ToLower, TrimSpace;
  }

  // --------------------------------------------------------------------------
  // Voting
  // --------------------------------------------------------------------------

  /** Everything about the proposals but one is as it was. */
  ghost predicate OnlyProposal(s: Store, s': Store, id: string)
  {
    && s'.proposals.Keys == s.proposals.Keys && s'.members == s.members
    && forall p | p in s.proposals && p != id :: s'.proposals[p] == s.proposals[p]
  }

  /**
   Every vote, in every reachable store: taken exactly if a governor votes for or against an open proposal for the first
   time; then it is appended to the votes and nothing else changes. Everybody else is refused.
   */
  lemma VoteAnswers(s: Store, id: string, voter: string, decision: string, now: int, s': Store, reply: Reply)
    requires Reachable(s) && (s', reply) == CastVote(s, id, voter, decision, now)
    ensures reply.Answer? <==>
      && !Blank(id) && !Blank(voter) && (decision == "approve" || decision == "reject")
      && id in s.proposals && s.proposals[id].status == Open && MayAct(s, s.proposals[id].groupId, voter)
      && forall i | 0 <= i < |s.proposals[id].votes| :: s.proposals[id].votes[i].identityId != voter
    ensures reply.Error? ==> s' == s
    ensures reply.Answer? ==>
      && OnlyProposal(s, s', id) && s'.configs == s.configs && s'.groups == s.groups
      && s'.proposals[id] == s.proposals[id].(votes := s.proposals[id].votes
           + [ProposalVote(identityId := voter, decision := decision, votedAt := now)])
      && reply.proposal == s'.proposals[id] && CountsFit(s', reply.proposal, reply.stats)
    ensures reply.Error? ==>
      reply.error == if Blank(id) || Blank(voter) || (decision != "approve" && decision != "reject") then InvalidInput
      else if id !in s.proposals then NotFound
      else if s.proposals[id].status != Open then ProposalClosed
      else if !MayAct(s, s.proposals[id].groupId, voter) then Forbidden
      else DuplicateVote
  {
    hide Reachable, Inv, Blank, StatsFor, CountsFit, VotesOk;
    ReachableIsOk(s);
    VoteKeeps(s, id, voter, decision, now);
    if id in s.proposals {
      ProposalIsAnchored(s, id);
      VotesAreOk(s', id);
      CountsOfBallots(s', s'.proposals[id], s'.configs[s'.proposals[id].baseConfigId]);
    }
  }

  // --------------------------------------------------------------------------
  // Resolving
  // --------------------------------------------------------------------------

  /** The proposal is approved: its configuration takes the base's place, at the time of the resolution. */
  ghost predicate ApprovedNow(s: Store, s': Store, id: string, now: int)
    requires id in s.proposals
  {
    var p := s.proposals[id];
    && OnlyProposal(s, s', id)
    && s'.proposals[id] == p.(status := Approved, resolvedAt := Some(now))
    && s'.configs.Keys == s.configs.Keys && p.baseConfigId in s.configs && p.newConfigId in s.configs
    && s'.configs[p.baseConfigId] == s.configs[p.baseConfigId].(state := Superseded)
    && s'.configs[p.newConfigId] ==
         s.configs[p.newConfigId].(state := CommittedConfig, committedAt := Some(now))
    && (forall c | c in s.configs && c != p.baseConfigId && c != p.newConfigId :: s'.configs[c] == s.configs[c])
    && s'.groups.Keys == s.groups.Keys && p.groupId in s.groups
    && s'.groups[p.groupId] == s.groups[p.groupId].(activeConfigId := Some(p.newConfigId))
    && forall g | g in s.groups && g != p.groupId :: s'.groups[g] == s.groups[g]
  }

  /** The proposal is rejected: its configuration is superseded, and nobody's place changes. */
  ghost predicate RejectedNow(s: Store, s': Store, id: string, now: int)
    requires id in s.proposals
  {
    var p := s.proposals[id];
    && OnlyProposal(s, s', id)
    && s'.proposals[id] == p.(status := Rejected, resolvedAt := Some(now))
    && s'.configs.Keys == s.configs.Keys && p.newConfigId in s.configs
    && s'.configs[p.newConfigId] == s.configs[p.newConfigId].(state := Superseded)
    && (forall c | c in s.configs && c != p.newConfigId :: s'.configs[c] == s.configs[c])
    && s'.groups == s.groups
  }

  lemma ApprovalTakesPlace(s: Store, id: string, now: int)
    requires Inv(s) && id in s.proposals && s.proposals[id].status == Open
    ensures var p := s.proposals[id];
      ApprovedNow(s, ApproveIn(s, id, p.groupId, p.baseConfigId, p.newConfigId, now), id, now)
  {
    hide ConfigOk, GroupOk, ProposalOk;
    ProposalConfigs(s, id);
  }

  lemma RejectionTakesPlace(s: Store, id: string, now: int)
    requires Inv(s) && id in s.proposals && s.proposals[id].status == Open
    ensures RejectedNow(s, RejectIn(s, id, s.proposals[id].newConfigId, now), id, now)
  {
    hide ConfigOk, GroupOk, ProposalOk;
    ProposalConfigs(s, id);
  }

  /** An open proposal in the hands of somebody who may resolve it. */
  ghost predicate UpForResolution(s: Store, id: string, who: string)
  {
    && !Blank(id) && !Blank(who) && id in s.proposals && s.proposals[id].status == Open
    && MayAct(s, s.proposals[id].groupId, who)
  }

  /**
   Every resolution, in every reachable store: an outsider is refused; a resolved proposal is answered as it is, and is
   no error; an open one is approved, rejected or left pending, with exactly these effects, and whatever is not approved
   or rejected leaves the store as it was.
   */
  lemma ResolutionAnswers(s: Store, id: string, who: string, now: int, s': Store, reply: Reply)
    requires Reachable(s) && (s', reply) == ResolveProposal(s, id, who, now)
    ensures s' != s ==>
      UpForResolution(s, id, who) && (ApprovedNow(s, s', id, now) || RejectedNow(s, s', id, now))
    ensures reply.Answer? ==>
      && id in s'.proposals && reply.proposal == s'.proposals[id] && reply.proposal.status != Open
      && CountsFit(s, reply.proposal, reply.stats)
    ensures reply.Error? ==> s' == s
    ensures reply.Error? ==>
      if Blank(id) || Blank(who) then reply.error == InvalidInput
      else if id !in s.proposals then reply.error == NotFound
      else if !MayAct(s, s.proposals[id].groupId, who) then reply.error == Forbidden
      else s.proposals[id].status == Open && reply.error in {ProposalPending, DatabaseError}
  {
    hide Reachable, Inv, Blank, StatsFor, VerdictOf, CanApprove, ApproveIn, RejectIn, VotesOk, ApprovedNow, RejectedNow;
    hide CountsFit;
    ReachableIsOk(s);
    if id in s.proposals {
      ProposalIsAnchored(s, id);
      VotesAreOk(s, id);
      CountsOfResolved(s, s.proposals[id], now);
      ResolutionKeepsPlace(s, id, now);
      if s.proposals[id].status == Open {
        ApprovalTakesPlace(s, id, now);
        RejectionTakesPlace(s, id, now);
      }
    }
  }

  /** The counts do not depend on what becomes of the proposal. */
  lemma CountsOfResolved(s: Store, p: ProposalRecord, now: int)
    requires VotesOk(p.votes) && p.baseConfigId in s.configs
    ensures var stats := StatsFor(s, p, s.configs[p.baseConfigId]);
      && CountsFit(s, p, stats)
      && CountsFit(s, p.(status := Approved, resolvedAt := Some(now)), stats)
      && CountsFit(s, p.(status := Rejected, resolvedAt := Some(now)), stats)
  {
    hide VotesOk, StatsFor;
    CountsOfBallots(s, p, s.configs[p.baseConfigId]);
  }

  lemma ResolutionKeepsPlace(s: Store, id: string, now: int)
    requires id in s.proposals
    ensures var p := s.proposals[id];
      && var a := ApproveIn(s, id, p.groupId, p.baseConfigId, p.newConfigId, now);
      && var r := RejectIn(s, id, p.newConfigId, now);
      && id in a.proposals && a.proposals[id] == p.(status := Approved, resolvedAt := Some(now))
      && id in r.proposals && r.proposals[id] == p.(status := Rejected, resolvedAt := Some(now))
  {
  }

  lemma ProposalIsAnchored(s: Store, id: string)
    requires Inv(s) && id in s.proposals
    ensures s.proposals[id].groupId in s.groups
    ensures s.proposals[id].baseConfigId in s.configs && s.proposals[id].newConfigId in s.configs
  {
    hide ConfigOk, GroupOk, ProposalOk;
    ProposalConfigs(s, id);
  }
}
