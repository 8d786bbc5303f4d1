/** What the governance store keeps over every serial run of create, vote and resolve. */
module GovernanceTheorems {
  import opened Wrappers
  import opened Voting
  import opened Configs
  import opened ConfigStore

  // --------------------------------------------------------------------------
  // The invariant
  // --------------------------------------------------------------------------

  /**
   A configuration belongs to a group and says something legal, and its predecessor is an older version of the same
   group.
   */
  ghost predicate ConfigOk(s: Store, id: string)
    requires id in s.configs
  {
    var c := s.configs[id];
    && c.id == id && c.groupId in s.groups
    && c.amountMinor > 0 && IsPeriod(c.periodicity) && 51 <= c.quorumPct <= 100
    && (c.prevConfigId.Some? ==>
          && c.prevConfigId.value in s.configs
          && s.configs[c.prevConfigId.value].groupId == c.groupId
          && s.configs[c.prevConfigId.value].versionNo < c.versionNo)
  }

  /** The committed configuration of a group is its active one, and there is no other. */
  ghost predicate GroupOk(s: Store, g: string)
    requires g in s.groups
  {
    match s.groups[g].activeConfigId
    case None => forall c | c in s.configs :: s.configs[c].groupId != g
    case Some(a) =>
      && a in s.configs && s.configs[a].groupId == g
      && forall c | c in s.configs && s.configs[c].groupId == g :: s.configs[c].state == CommittedConfig <==> c == a
  }

  ghost predicate VotesOk(votes: seq<ProposalVote>)
  {
    && (forall i | 0 <= i < |votes| :: votes[i].decision in {APPROVE, REJECT})
    && (forall i, j | 0 <= i < j < |votes| :: votes[i].identityId != votes[j].identityId)
  }

  /** The states of a proposal and of its two configurations go together. */
  ghost predicate StatesOk(p: ProposalRecord, base: ConfigSnapshot, new_: ConfigSnapshot)
  {
    && (base.state == CommittedConfig || base.state == Superseded)
    && match p.status
       case Open => new_.state == Review && p.resolvedAt.None?
       case Approved => (new_.state == CommittedConfig || new_.state == Superseded) && base.state == Superseded
       case Rejected => new_.state == Superseded
       case Expired => false
  }

  ghost predicate ProposalOk(s: Store, id: string)
    requires id in s.proposals
  {
    var p := s.proposals[id];
    && p.id == id && p.groupId in s.groups && p.baseConfigId in s.configs && p.newConfigId in s.configs
    && var base, new_ := s.configs[p.baseConfigId], s.configs[p.newConfigId];
    && base.groupId == p.groupId == new_.groupId && new_.prevConfigId == Some(p.baseConfigId)
    && p.diffSummary == BuildDiffSummary(base, new_) && !SameTerms(base, new_)
    && VotesOk(p.votes) && StatesOk(p, base, new_)
  }

  ghost predicate ConfigsOk(s: Store) { forall c | c in s.configs :: ConfigOk(s, c) }

  ghost predicate GroupsOk(s: Store) { forall g | g in s.groups :: GroupOk(s, g) }

  ghost predicate ProposalsOk(s: Store) { forall p | p in s.proposals :: ProposalOk(s, p) }

  /** No two proposals brought the same configuration. */
  ghost predicate NewConfigsDiffer(s: Store)
  {
    forall p, q | p in s.proposals && q in s.proposals && p != q ::
      s.proposals[p].newConfigId != s.proposals[q].newConfigId
  }

  ghost predicate Inv(s: Store) { ConfigsOk(s) && GroupsOk(s) && ProposalsOk(s) && NewConfigsDiffer(s) }

  /** A configuration keeps its place in the history and its terms. */
  ghost predicate SamePlace(a: ConfigSnapshot, b: ConfigSnapshot)
  {
    a.id == b.id && a.groupId == b.groupId && a.versionNo == b.versionNo && a.prevConfigId == b.prevConfigId
      && SameTerms(a, b)
  }

  ghost predicate ConfigsGrow(a: map<string, ConfigSnapshot>, b: map<string, ConfigSnapshot>)
  {
    forall c | c in a :: c in b && SamePlace(a[c], b[c]) && (a[c].state == Superseded ==> b[c].state == Superseded)
  }

  /** A resolved proposal never changes; an open one keeps what it is about. */
  ghost predicate ProposalGrows(a: ProposalRecord, b: ProposalRecord)
  {
    && a.groupId == b.groupId && a.baseConfigId == b.baseConfigId && a.newConfigId == b.newConfigId
    && a.diffSummary == b.diffSummary
    && (a.status != Open ==> a == b)
  }

  ghost predicate ProposalsGrow(a: map<string, ProposalRecord>, b: map<string, ProposalRecord>)
  {
    forall p | p in a :: p in b && ProposalGrows(a[p], b[p])
  }

  ghost predicate Grows(a: Store, b: Store)
  {
    ConfigsGrow(a.configs, b.configs) && ProposalsGrow(a.proposals, b.proposals) && a.groups.Keys <= b.groups.Keys
  }

  // --------------------------------------------------------------------------
  // Frames
  // --------------------------------------------------------------------------

  /** Configurations that keep their places stay well placed; only the new ones have to be looked at. */
  lemma ConfigsKept(s: Store, s': Store)
    requires ConfigsOk(s) && ConfigsGrow(s.configs, s'.configs) && s.groups.Keys <= s'.groups.Keys
    requires forall c | c in s'.configs && c !in s.configs :: ConfigOk(s', c)
    ensures ConfigsOk(s')
  {
    hide IsPeriod;
    forall c | c in s'.configs
      ensures ConfigOk(s', c)
    {
      if c in s.configs {
        assert ConfigOk(s, c);
        assert SamePlace(s.configs[c], s'.configs[c]);
        if s.configs[c].prevConfigId.Some? {
          assert SamePlace(s.configs[s.configs[c].prevConfigId.value], s'.configs[s.configs[c].prevConfigId.value]);
        }
      }
    }
  }

  /** A group whose record and whose configurations' states are as they were, new ones in review apart. */
  lemma GroupKept(s: Store, s': Store, g: string)
    requires g in s.groups && g in s'.groups && s'.groups[g] == s.groups[g] && GroupOk(s, g)
    requires ConfigsGrow(s.configs, s'.configs)
    requires forall c | c in s'.configs && s'.configs[c].groupId == g ::
      if c in s.configs then s'.configs[c].state == s.configs[c].state
      else s'.configs[c].state != CommittedConfig && s.groups[g].activeConfigId.Some?
    ensures GroupOk(s', g)
  {
    hide SameTerms;
    assert forall c | c in s.configs :: SamePlace(s.configs[c], s'.configs[c]);
  }

  /** A proposal whose row and whose configurations' states are as they were. */
  lemma ProposalKept(s: Store, s': Store, q: string)
    requires q in s.proposals && q in s'.proposals && s'.proposals[q] == s.proposals[q] && ProposalOk(s, q)
    requires ConfigsGrow(s.configs, s'.configs) && s.groups.Keys <= s'.groups.Keys
    requires forall c | c in {s.proposals[q].baseConfigId, s.proposals[q].newConfigId} ::
      s'.configs[c].state == s.configs[c].state
    ensures ProposalOk(s', q)
  {
    hide BuildDiffSummary, SameTerms, VotesOk;
    var p := s.proposals[q];
    assert SamePlace(s.configs[p.baseConfigId], s'.configs[p.baseConfigId]);
    assert SamePlace(s.configs[p.newConfigId], s'.configs[p.newConfigId]);
    DiffOfTerms(s.configs[p.baseConfigId], s.configs[p.newConfigId], s'.configs[p.baseConfigId],
      s'.configs[p.newConfigId]);
  }

  /** The diff depends on the terms alone. */
  lemma DiffOfTerms(a: ConfigSnapshot, b: ConfigSnapshot, a': ConfigSnapshot, b': ConfigSnapshot)
    requires SameTerms(a, a') && SameTerms(b, b')
    ensures BuildDiffSummary(a, b) == BuildDiffSummary(a', b') && SameTerms(a, b) == SameTerms(a', b')
  {
    hide Noted;
  }

  /**
   The base of a proposal holds or has held its group's place; the proposed configuration of an open one waits in
   review.
   */
  lemma ProposalConfigs(s: Store, id: string)
    requires ProposalsOk(s) && ConfigsOk(s) && id in s.proposals
    ensures var p := s.proposals[id];
      && p.groupId in s.groups && p.baseConfigId in s.configs && p.newConfigId in s.configs
      && p.baseConfigId != p.newConfigId
      && s.configs[p.baseConfigId].groupId == p.groupId == s.configs[p.newConfigId].groupId
      && (s.configs[p.baseConfigId].state == CommittedConfig || s.configs[p.baseConfigId].state == Superseded)
      && (p.status == Open ==> s.configs[p.newConfigId].state == Review)
  {
    hide BuildDiffSummary, SameTerms, VotesOk;
    assert ProposalOk(s, id);
    assert ConfigOk(s, s.proposals[id].newConfigId);
  }

  lemma GrowsSelf(s: Store)
    ensures Grows(s, s)
  {
  }

  lemma GrowsTransitive(a: Store, b: Store, c: Store)
    requires Grows(a, b) && Grows(b, c)
    ensures Grows(a, c)
  {
    ConfigsGrowTransitive(a.configs, b.configs, c.configs);
    forall p | p in a.proposals
      ensures p in c.proposals && ProposalGrows(a.proposals[p], c.proposals[p])
    {
      assert ProposalGrows(a.proposals[p], b.proposals[p]) && ProposalGrows(b.proposals[p], c.proposals[p]);
    }
  }

  lemma ConfigsGrowTransitive(a: map<string, ConfigSnapshot>, b: map<string, ConfigSnapshot>,
                              c: map<string, ConfigSnapshot>)
    requires ConfigsGrow(a, b) && ConfigsGrow(b, c)
    ensures ConfigsGrow(a, c)
  {
    forall x | x in a
      ensures x in c && SamePlace(a[x], c[x]) && (a[x].state == Superseded ==> c[x].state == Superseded)
    {
      assert SamePlace(a[x], b[x]) && SamePlace(b[x], c[x]);
    }
  }

  // --------------------------------------------------------------------------
  // Each operation
  // --------------------------------------------------------------------------

  /** A new version of a group's active configuration, in review, and the proposal that brought it. */
  lemma InsertKeeps(s: Store, c: ConfigSnapshot, p: ProposalRecord)
    requires Inv(s) && CanCreate(s, c, p)
    requires p.baseConfigId in s.configs && p.groupId in s.groups
    requires s.groups[p.groupId].activeConfigId == Some(p.baseConfigId)
    requires var base := s.configs[p.baseConfigId];
      && base.state == CommittedConfig && base.versionNo < c.versionNo
      && base.id == p.baseConfigId && base.groupId == p.groupId
      && p == NewProposal(p.id, p.groupId, p.proposedBy, base, c) && !SameTerms(base, c)
      && c.groupId == base.groupId && c.prevConfigId == Some(base.id) && c.state == Review
    ensures Inv(Inserted(s, c, p)) && Grows(s, Inserted(s, c, p))
  {
    hide BuildDiffSummary, SameTerms, IsPeriod, GroupOk, ProposalOk, VotesOk, OneCommitted;
    var s' := Inserted(s, c, p);
    InsertGrows(s, c, p);
    assert ConfigOk(s', c.id) by { assert ConfigOk(s, p.baseConfigId); }
    ConfigsKept(s, s');
    forall g | g in s'.groups ensures GroupOk(s', g) { NewInReview(s, s', c, g); }
    assert ProposalOk(s', p.id) by { ProposalJustMade(s', c, p); }
    forall q | q in s.proposals
      ensures ProposalOk(s', q) && s.proposals[q].newConfigId != c.id
    {
      assert ProposalOk(s, q);
      ProposalConfigs(s, q);
      ProposalKept(s, s', q);
    }
  }

  lemma NewInReview(s: Store, s': Store, c: ConfigSnapshot, g: string)
    requires GroupsOk(s) && g in s.groups && s'.groups == s.groups && c.id !in s.configs
    requires s'.configs == s.configs[c.id := c]
    requires ConfigsGrow(s.configs, s'.configs)
    requires c.state == Review && c.groupId in s.groups && s.groups[c.groupId].activeConfigId.Some?
    ensures GroupOk(s', g)
  {
    hide SamePlace;
    assert GroupOk(s, g);
    GroupKept(s, s', g);
  }

  lemma InsertGrows(s: Store, c: ConfigSnapshot, p: ProposalRecord)
    requires c.id !in s.configs && p.id !in s.proposals
    ensures Grows(s, Inserted(s, c, p))
  {
  }

  lemma ProposalJustMade(s: Store, c: ConfigSnapshot, p: ProposalRecord)
    requires c.id in s.configs && s.configs[c.id] == c && p.id in s.proposals && s.proposals[p.id] == p
    requires p.groupId in s.groups && p.baseConfigId in s.configs
    requires var base := s.configs[p.baseConfigId];
      && base.state == CommittedConfig && base.id == p.baseConfigId && base.groupId == p.groupId
      && p == NewProposal(p.id, p.groupId, p.proposedBy, base, c) && !SameTerms(base, c)
      && c.groupId == base.groupId && c.prevConfigId == Some(base.id) && c.state == Review
    ensures ProposalOk(s, p.id)
  {
    hide BuildDiffSummary, SameTerms;
  }

  lemma CreateKeeps(s: Store, g: string, who: string, patch: ConfigPatch, version: int, newId: string,
                    proposalId: string)
    requires Inv(s) && IsNextVersion(s.configs, g, version)
    ensures var s' := CreateProposal(s, g, who, patch, version, newId, proposalId).0; Inv(s') && Grows(s, s')
  {
    hide Inv, Grows, Build, CanCreate, Blank, IsGovernor, Proposed;
    GrowsSelf(s);
    match BaseFor(s, g, who) {
      case Err(_) =>
      case Ok(base) =>
        match Build(base, newId, who, version, patch) {
          case Err(_) =>
          case Ok(c) =>
            var p := NewProposal(proposalId, g, who, base, c);
            if CanCreate(s, c, p) {
              ActiveBase(s, g);
              BuiltOnBase(base, newId, who, version, patch);
              InsertKeeps(s, c, p);
            }
        }
    }
  }

  lemma ActiveBase(s: Store, g: string)
    requires Inv(s) && g in s.groups && s.groups[g].activeConfigId.Some?
    requires s.groups[g].activeConfigId.value in s.configs
    ensures var a := s.groups[g].activeConfigId.value; s.configs[a].id == a && s.configs[a].groupId == g
  {
    hide ProposalsOk, NewConfigsDiffer;
    assert GroupOk(s, g) && ConfigOk(s, s.groups[g].activeConfigId.value);
  }

  lemma BuiltOnBase(base: ConfigSnapshot, id: string, who: string, version: int, patch: ConfigPatch)
    requires Build(base, id, who, version, patch).Ok?
    ensures var c := Build(base, id, who, version, patch).value;
      && c.id == id && c.groupId == base.groupId && c.versionNo == version && c.state == Review
      && c.prevConfigId == Some(base.id) && !SameTerms(base, c)
  {
    hide ValidPatch, SameTerms, ToLower, TrimSpace;
  }

  lemma VoteKeeps(s: Store, id: string, voter: string, decision: string, now: int)
    requires Inv(s)
    ensures var s' := CastVote(s, id, voter, decision, now).0; Inv(s') && Grows(s, s')
  {
    hide Inv, Grows, DetailsOf, VoteRefusal, WithVote;
    GrowsSelf(s);
    if VoteRefusal(s, id, voter, decision).None? {
      VoteKnown(s, id, voter, decision);
      AddingAVote(s, id, ProposalVote(voter, decision, now));
    }
  }

  lemma VoteKnown(s: Store, id: string, voter: string, decision: string)
    requires VoteRefusal(s, id, voter, decision).None?
    ensures id in s.proposals && s.proposals[id].status == Open && !HasVoted(s.proposals[id].votes, voter)
    ensures decision == APPROVE || decision == REJECT
  {
    hide HasVoted, Blank, IsGovernor;
  }

  lemma AddingAVote(s: Store, id: string, v: ProposalVote)
    requires Inv(s) && id in s.proposals && s.proposals[id].status == Open
    requires (v.decision == APPROVE || v.decision == REJECT) && !HasVoted(s.proposals[id].votes, v.identityId)
    ensures Inv(WithVote(s, id, v)) && Grows(s, WithVote(s, id, v))
  {
    hide BuildDiffSummary, SameTerms, GroupOk, ProposalOk, ConfigOk, VotesOk, HasVoted;
    var s' := WithVote(s, id, v);
    assert ConfigsGrow(s.configs, s'.configs) by { GrowsSelf(s); }
    forall c | c in s'.configs ensures ConfigOk(s', c) { assert ConfigOk(s, c); ConfigUnmoved(s, s', c); }
    forall g | g in s'.groups ensures GroupOk(s', g) { assert GroupOk(s, g); GroupKept(s, s', g); }
    forall q | q in s'.proposals
      ensures ProposalOk(s', q)
    {
      assert ProposalOk(s, q);
      if q != id {
        ProposalKept(s, s', q);
      } else {
        VotedProposalOk(s, s', id, v);
      }
    }
  }

  lemma ConfigUnmoved(s: Store, s': Store, c: string)
    requires s'.configs == s.configs && s'.groups == s.groups && c in s.configs && ConfigOk(s, c)
    ensures ConfigOk(s', c)
  {
  }

  lemma VotedProposalOk(s: Store, s': Store, id: string, v: ProposalVote)
    requires id in s.proposals && ProposalOk(s, id) && s' == WithVote(s, id, v)
    requires (v.decision == APPROVE || v.decision == REJECT) && !HasVoted(s.proposals[id].votes, v.identityId)
    ensures ProposalOk(s', id)
  {
    hide BuildDiffSummary, SameTerms;
  }

  /** Approval, if every statement passes: the new configuration takes the place of the base. */
  lemma ApproveKeeps(s: Store, id: string, at: int)
    requires Inv(s) && id in s.proposals && s.proposals[id].status == Open
    requires var p := s.proposals[id]; CanApprove(s, p.groupId, p.baseConfigId, p.newConfigId, at)
    ensures var p := s.proposals[id]; var s' := ApproveIn(s, id, p.groupId, p.baseConfigId, p.newConfigId, at);
      Inv(s') && Grows(s, s')
  {
    hide ConfigOk, GroupOk, ProposalOk, AfterCommit, OneCommitted, SamePlace, ConfigsGrow;
    var p := s.proposals[id];
    var s' := ApproveIn(s, id, p.groupId, p.baseConfigId, p.newConfigId, at);
    ProposalConfigs(s, id);
    ApproveGrows(s, id, at);
    ConfigsKept(s, s');
    ApprovedGroups(s, id, at);
    ApprovedProposals(s, id, at);
  }

  lemma ApproveGrows(s: Store, id: string, at: int)
    requires id in s.proposals && s.proposals[id].status == Open
    requires var p := s.proposals[id];
      && p.baseConfigId in s.configs && p.newConfigId in s.configs && p.baseConfigId != p.newConfigId
      && s.configs[p.newConfigId].state == Review
    ensures var p := s.proposals[id]; var s' := ApproveIn(s, id, p.groupId, p.baseConfigId, p.newConfigId, at);
      && ConfigsGrow(s.configs, s'.configs) && ProposalsGrow(s.proposals, s'.proposals) && Grows(s, s')
      && s'.configs.Keys == s.configs.Keys && s'.groups.Keys == s.groups.Keys && s'.proposals.Keys == s.proposals.Keys
  {
    hide ConfigsGrow, AfterCommit;
    var p := s.proposals[id];
    SuccessionGrows(s, p.baseConfigId, p.newConfigId, at);
  }

  lemma SuccessionGrows(s: Store, base: string, new_: string, at: int)
    requires base in s.configs && new_ in s.configs && base != new_ && s.configs[new_].state == Review
    ensures ConfigsGrow(s.configs, AfterCommit(s, base, new_, at))
    ensures AfterCommit(s, base, new_, at).Keys == s.configs.Keys
  {
  }

  lemma ApprovedGroups(s: Store, id: string, at: int)
    requires Inv(s) && id in s.proposals && s.proposals[id].status == Open
    requires var p := s.proposals[id]; CanApprove(s, p.groupId, p.baseConfigId, p.newConfigId, at)
    ensures var p := s.proposals[id]; GroupsOk(ApproveIn(s, id, p.groupId, p.baseConfigId, p.newConfigId, at))
  {
    hide ConfigOk, ProposalOk, SamePlace, NewConfigsDiffer, ConfigsGrow;
    var p := s.proposals[id];
    var s' := ApproveIn(s, id, p.groupId, p.baseConfigId, p.newConfigId, at);
    ProposalConfigs(s, id);
    ApproveGrows(s, id, at);
    forall g | g in s'.groups
      ensures GroupOk(s', g)
    {
      assert GroupOk(s, g);
      if g != p.groupId {
        GroupKept(s, s', g);
      }
    }
  }

  lemma ApprovedProposals(s: Store, id: string, at: int)
    requires Inv(s) && id in s.proposals && s.proposals[id].status == Open
    ensures var p := s.proposals[id]; var s' := ApproveIn(s, id, p.groupId, p.baseConfigId, p.newConfigId, at);
      ProposalsOk(s') && NewConfigsDiffer(s')
  {
    hide GroupOk, ConfigOk, ProposalOk, SamePlace, ConfigsGrow;
    var p := s.proposals[id];
    var s' := ApproveIn(s, id, p.groupId, p.baseConfigId, p.newConfigId, at);
    ProposalConfigs(s, id);
    ApproveGrows(s, id, at);
    forall q | q in s'.proposals
      ensures ProposalOk(s', q)
    {
      ProposalConfigs(s, q);
      assert ProposalOk(s, q);
      SettledStates(s, q);
      RestatedProposal(s, s', q);
    }
  }

  /** What an approval or a rejection may do to a proposal: change its status, in step with its configurations. */
  lemma RestatedProposal(s: Store, s': Store, q: string)
    requires q in s.proposals && q in s'.proposals && ProposalOk(s, q)
    requires ConfigsGrow(s.configs, s'.configs) && s.groups.Keys <= s'.groups.Keys
    requires var p, p' := s.proposals[q], s'.proposals[q];
      && p' == p.(status := p'.status, resolvedAt := p'.resolvedAt)
      && StatesOk(p', s'.configs[p.baseConfigId], s'.configs[p.newConfigId])
    ensures ProposalOk(s', q)
  {
    hide BuildDiffSummary, SameTerms, VotesOk;
    var p := s.proposals[q];
    assert SamePlace(s.configs[p.baseConfigId], s'.configs[p.baseConfigId]);
    assert SamePlace(s.configs[p.newConfigId], s'.configs[p.newConfigId]);
    DiffOfTerms(s.configs[p.baseConfigId], s.configs[p.newConfigId], s'.configs[p.baseConfigId],
      s'.configs[p.newConfigId]);
  }

  lemma RejectKeeps(s: Store, id: string, at: int)
    requires Inv(s) && id in s.proposals && s.proposals[id].status == Open
    ensures var s' := RejectIn(s, id, s.proposals[id].newConfigId, at); Inv(s') && Grows(s, s')
  {
    hide ConfigOk, GroupOk, ProposalOk, SamePlace, ConfigsGrow;
    var p := s.proposals[id];
    var s' := RejectIn(s, id, p.newConfigId, at);
    ProposalConfigs(s, id);
    RejectGrows(s, id, at);
    ConfigsKept(s, s');
    forall g | g in s'.groups
      ensures GroupOk(s', g)
    {
      assert GroupOk(s, g);
      RejectedGroup(s, s', p.newConfigId, g);
    }
    forall q | q in s'.proposals
      ensures ProposalOk(s', q)
    {
      ProposalConfigs(s, q);
      assert ProposalOk(s, q);
      SettledStates(s, q);
      RestatedProposal(s, s', q);
    }
  }

  lemma SettledStates(s: Store, q: string)
    requires q in s.proposals && ProposalOk(s, q)
    ensures var p := s.proposals[q]; StatesOk(p, s.configs[p.baseConfigId], s.configs[p.newConfigId])
  {
  }

  lemma RejectGrows(s: Store, id: string, at: int)
    requires id in s.proposals && s.proposals[id].status == Open
    ensures var s' := RejectIn(s, id, s.proposals[id].newConfigId, at);
      && ConfigsGrow(s.configs, s'.configs) && Grows(s, s')
      && s'.configs.Keys == s.configs.Keys && s'.groups.Keys == s.groups.Keys && s'.proposals.Keys == s.proposals.Keys
  {
  }

  /** Superseding a configuration in review leaves every group's place taken as it was. */
  lemma RejectedGroup(s: Store, s': Store, c: string, g: string)
    requires g in s.groups && GroupOk(s, g) && s'.groups == s.groups
    requires c in s.configs && s.configs[c].state == Review && s'.configs == SetState(s.configs, c, Superseded)
    ensures GroupOk(s', g)
  {
  }

  lemma ResolveKeeps(s: Store, id: string, who: string, now: int)
    requires Inv(s)
    ensures var s' := ResolveProposal(s, id, who, now).0; Inv(s') && Grows(s, s')
  {
    hide Inv, Grows, ResolveRefusal, StatsFor, VerdictOf, CanApprove, ApproveIn, RejectIn;
    GrowsSelf(s);
    if ResolveRefusal(s, id, who).None? {
      NotRefused(s, id, who);
      var p := s.proposals[id];
      if p.status == Open {
        if CanApprove(s, p.groupId, p.baseConfigId, p.newConfigId, now) {
          ApproveKeeps(s, id, now);
        }
        RejectKeeps(s, id, now);
      }
    }
  }

  lemma NotRefused(s: Store, id: string, who: string)
    requires ResolveRefusal(s, id, who).None?
    ensures id in s.proposals && s.proposals[id].baseConfigId in s.configs
  {
  }

  lemma BootstrapKeeps(s: Store, g: string, c: ConfigSnapshot)
    requires Inv(s) && CanBootstrap(s, g, c)
    ensures var s' := s.(configs := s.configs[c.id := c], groups := SetActive(s.groups, g, c.id));
      Inv(s') && Grows(s, s')
  {
    hide ConfigOk, ProposalOk, SamePlace, ConfigsGrow, OneCommitted, IsPeriod;
    var s' := s.(configs := s.configs[c.id := c], groups := SetActive(s.groups, g, c.id));
    assert GroupOk(s, g);
    assert Grows(s, s') && ConfigOk(s', c.id) by { BootstrapGrows(s, g, c); }
    ConfigsKept(s, s');
    forall h | h in s'.groups
      ensures GroupOk(s', h)
    {
      assert GroupOk(s, h);
      if h != g {
        GroupKept(s, s', h);
      }
    }
    forall q | q in s'.proposals
      ensures ProposalOk(s', q)
    {
      ProposalConfigs(s, q);
      assert ProposalOk(s, q);
      ProposalKept(s, s', q);
    }
  }

  lemma BootstrapGrows(s: Store, g: string, c: ConfigSnapshot)
    requires CanBootstrap(s, g, c)
    ensures var s' := s.(configs := s.configs[c.id := c], groups := SetActive(s.groups, g, c.id));
      Grows(s, s') && ConfigOk(s', c.id)
  {
    hide OneCommitted, IsPeriod;
  }

  lemma GroupsKeep(s: Store, step: Step)
    requires Inv(s) && (step.AddGroup? || step.SetMembers?)
    ensures Inv(Next(s, step)) && Grows(s, Next(s, step))
  {
    hide ConfigOk, GroupOk, ProposalOk;
    var s' := Next(s, step);
    GrowsSelf(s);
    ConfigsKept(s, s');
    forall g | g in s'.groups
      ensures GroupOk(s', g)
    {
      if g in s.groups {
        assert GroupOk(s, g);
        GroupKept(s, s', g);
      } else {
        NewGroupOk(s, s', g);
      }
    }
    forall q | q in s'.proposals
      ensures ProposalOk(s', q)
    {
      assert ProposalOk(s, q);
      ProposalConfigs(s, q);
      ProposalKept(s, s', q);
    }
  }

  lemma NewGroupOk(s: Store, s': Store, g: string)
    requires ConfigsOk(s) && g !in s.groups && s'.configs == s.configs && g in s'.groups
    requires s'.groups[g].activeConfigId.None?
    ensures GroupOk(s', g)
  {
    forall c | c in s.configs ensures s.configs[c].groupId != g { assert ConfigOk(s, c); }
  }

  lemma NextKeeps(s: Store, step: Step)
    requires Inv(s)
    ensures Inv(Next(s, step)) && Grows(s, Next(s, step))
  {
    hide Inv, Grows, CreateProposal, CastVote, ResolveProposal, CanBootstrap;
    GrowsSelf(s);
    match step {
      case FirstConfig(g, c) => if CanBootstrap(s, g, c) { BootstrapKeeps(s, g, c); }
      case Create(g, who, patch, newId, proposalId) =>
        CreateKeeps(s, g, who, patch, NextVersion(s.configs, g), newId, proposalId);
      case Vote(id, voter, decision, now) => VoteKeeps(s, id, voter, decision, now);
      case Resolve(id, who, now) => ResolveKeeps(s, id, who, now);
      case _ => GroupsKeep(s, step);
    }
  }

  lemma {:induction false} RunKeeps(s: Store, steps: seq<Step>)
    requires Inv(s)
    ensures Inv(Run(s, steps)) && Grows(s, Run(s, steps))
  {
    hide Inv, Grows, Next;
    if steps == [] {
      GrowsSelf(s);
    } else {
      var n := |steps| - 1;
      RunKeeps(s, steps[..n]);
      NextKeeps(Run(s, steps[..n]), steps[n]);
      GrowsTransitive(s, Run(s, steps[..n]), Run(s, steps));
    }
  }

  /** Some serial run leads from one store to the other. */
  ghost predicate Leads(s: Store, later: Store) { exists steps :: Run(s, steps) == later }

  ghost predicate Reachable(s: Store) { Leads(EmptyStore, s) }

  lemma LeadsKeeps(s: Store, later: Store)
    requires Inv(s) && Leads(s, later)
    ensures Inv(later) && Grows(s, later)
  {
    hide Run, Inv, Grows;
    var steps :| Run(s, steps) == later;
    RunKeeps(s, steps);
  }

  lemma ReachableIsOk(s: Store)
    requires Reachable(s)
    ensures Inv(s)
  {
    hide Leads;
    LeadsKeeps(EmptyStore, s);
  }

  // --------------------------------------------------------------------------
  // Results
  // --------------------------------------------------------------------------

  /** In every run, the configuration a group points at is committed, and it is the group's only committed one. */
  lemma ExactlyOneCommitted(s: Store, g: string)
    requires Reachable(s) && g in s.groups && s.groups[g].activeConfigId.Some?
    ensures var a := s.groups[g].activeConfigId.value;
      && a in s.configs && s.configs[a].groupId == g
      && forall c | c in s.configs && s.configs[c].groupId == g :: s.configs[c].state == CommittedConfig <==> c == a
  {
    hide Reachable, ConfigsOk, ProposalsOk, NewConfigsDiffer;
    ReachableIsOk(s);
    assert GroupOk(s, g);
  }

  /** Some configuration holds the place of a group that proposals are about. */
  lemma PlaceIsTaken(s: Store, id: string) returns (a: string)
    requires Inv(s) && id in s.proposals
    ensures var p := s.proposals[id];
      && p.groupId in s.groups && s.groups[p.groupId].activeConfigId == Some(a)
      && a in s.configs && s.configs[a].groupId == p.groupId && s.configs[a].state == CommittedConfig
      && forall c | c in s.configs && s.configs[c].groupId == p.groupId ::
            s.configs[c].state == CommittedConfig <==> c == a
  {
    hide ConfigOk, ProposalOk;
    ProposalConfigs(s, id);
    assert GroupOk(s, s.proposals[id].groupId);
    a := s.groups[s.proposals[id].groupId].activeConfigId.value;
  }

  lemma IndexHolds(s: Store)
    requires ConfigsOk(s) && GroupsOk(s)
    ensures OneCommitted(s.configs)
  {
    forall a, b | a in s.configs && b in s.configs && a != b
                  && s.configs[a].state == CommittedConfig && s.configs[b].state == CommittedConfig
      ensures s.configs[a].groupId != s.configs[b].groupId
    {
      assert ConfigOk(s, a);
      assert GroupOk(s, s.configs[a].groupId);
    }
  }

  /** Taking a place that was just given up. */
  lemma SuccessionPasses(s: Store, id: string, at: int)
    requires Inv(s) && id in s.proposals && s.proposals[id].status == Open
    requires s.proposals[id].groupId in s.groups
    requires s.groups[s.proposals[id].groupId].activeConfigId == Some(s.proposals[id].baseConfigId)
    ensures var p := s.proposals[id]; CanApprove(s, p.groupId, p.baseConfigId, p.newConfigId, at)
  {
    hide ConfigOk, GroupOk, ProposalOk;
    var p := s.proposals[id];
    var a := PlaceIsTaken(s, id);
    ProposalConfigs(s, id);
    IndexHolds(s);
    var after := AfterCommit(s, p.baseConfigId, p.newConfigId, at);
    forall x, y | x in after && y in after && x != y && after[x].state == CommittedConfig
      && after[y].state == CommittedConfig
      ensures after[x].groupId != after[y].groupId
    {
      assert x != p.baseConfigId && y != p.baseConfigId;
      assert x != p.newConfigId ==> s.configs[x].state == CommittedConfig;
      assert y != p.newConfigId ==> s.configs[y].state == CommittedConfig;
    }
  }

  /** Taking a place that somebody else holds. */
  lemma UsurpationFails(s: Store, id: string, at: int)
    requires Inv(s) && id in s.proposals && s.proposals[id].status == Open
    requires s.proposals[id].groupId in s.groups ==>
      s.groups[s.proposals[id].groupId].activeConfigId != Some(s.proposals[id].baseConfigId)
    ensures var p := s.proposals[id]; !CanApprove(s, p.groupId, p.baseConfigId, p.newConfigId, at)
  {
    hide ConfigOk, GroupOk, ProposalOk;
    var p := s.proposals[id];
    var a := PlaceIsTaken(s, id);
    ProposalConfigs(s, id);
    var after := AfterCommit(s, p.baseConfigId, p.newConfigId, at);
    assert a != p.baseConfigId && a != p.newConfigId;
    assert after[a].state == CommittedConfig && after[p.newConfigId].state == CommittedConfig;
  }

  /**
   The approval of an open proposal passes the one-committed index at both of its configuration statements exactly
   when its base is still the group's active configuration.
   */
  lemma ApprovalCommitsIffBaseIsActive(s: Store, id: string, at: int)
    requires Reachable(s) && id in s.proposals && s.proposals[id].status == Open
    ensures var p := s.proposals[id];
      && p.groupId in s.groups
      && (CanApprove(s, p.groupId, p.baseConfigId, p.newConfigId, at) <==>
            s.groups[p.groupId].activeConfigId == Some(p.baseConfigId))
  {
    hide Reachable, Inv, CanApprove;
    ReachableIsOk(s);
    var a := PlaceIsTaken(s, id);
    if a == s.proposals[id].baseConfigId {
      SuccessionPasses(s, id, at);
    } else {
      UsurpationFails(s, id, at);
    }
  }

  /** A proposal whose base has lost its place is never approved, however the run goes on. */
  lemma StaleIsNeverApproved(s: Store, later: Store, id: string)
    requires Reachable(s) && Leads(s, later)
    requires id in s.proposals && s.proposals[id].status != Approved && s.proposals[id].groupId in s.groups
    requires s.groups[s.proposals[id].groupId].activeConfigId != Some(s.proposals[id].baseConfigId)
    ensures id in later.proposals && later.proposals[id].status != Approved
  {
    hide Run, Reachable, Inv;
    ReachableIsOk(s);
    SidelinedIsSuperseded(s, id);
    var steps :| Run(s, steps) == later;
    StaysUnapproved(s, steps, id);
  }

  /** The base has lost its place and is superseded, for good. */
  ghost predicate Stale(s: Store, id: string)
  {
    && id in s.proposals && s.proposals[id].status != Approved
    && s.proposals[id].baseConfigId in s.configs && s.configs[s.proposals[id].baseConfigId].state == Superseded
  }

  lemma SidelinedIsSuperseded(s: Store, id: string)
    requires Inv(s) && id in s.proposals && s.proposals[id].status != Approved && s.proposals[id].groupId in s.groups
    requires s.groups[s.proposals[id].groupId].activeConfigId != Some(s.proposals[id].baseConfigId)
    ensures Stale(s, id)
  {
    hide ConfigOk, GroupOk, ProposalOk;
    var a := PlaceIsTaken(s, id);
    ProposalConfigs(s, id);
  }

  lemma {:induction false} StaysUnapproved(s: Store, steps: seq<Step>, id: string)
    requires Inv(s) && Stale(s, id)
    ensures Stale(Run(s, steps), id)
  {
    hide Inv, Next, Stale;
    if steps != [] {
      var n := |steps| - 1;
      RunKeeps(s, steps[..n]);
      StaysUnapproved(s, steps[..n], id);
      StaleStep(Run(s, steps[..n]), steps[n], id);
    }
  }

  lemma StaleStep(s: Store, step: Step, id: string)
    requires Inv(s) && Stale(s, id)
    ensures Stale(Next(s, step), id)
  {
    hide Inv, Next, SamePlace;
    NextKeeps(s, step);
    var s' := Next(s, step);
    assert ProposalGrows(s.proposals[id], s'.proposals[id]);
    StaleBaseIsNotActive(s, id);
    if s'.proposals[id].status == Approved {
      OnlyResolvingApproves(s, step, id);
      if s.proposals[id].status == Open {
        UsurpationFails(s, id, step.now);
      }
    }
  }

  lemma StaleBaseIsNotActive(s: Store, id: string)
    requires Inv(s) && Stale(s, id)
    ensures var p := s.proposals[id];
      p.groupId in s.groups && s.groups[p.groupId].activeConfigId != Some(p.baseConfigId)
  {
    hide ConfigOk, GroupOk, ProposalOk;
    var a := PlaceIsTaken(s, id);
  }

  /** The only step that approves a proposal is its own resolution, and only if every statement passes. */
  lemma OnlyResolvingApproves(s: Store, step: Step, id: string)
    requires id in s.proposals && s.proposals[id].status != Approved
    requires id in Next(s, step).proposals && Next(s, step).proposals[id].status == Approved
    ensures step.Resolve? && step.id == id && s.proposals[id].status == Open
    ensures var p := s.proposals[id]; CanApprove(s, p.groupId, p.baseConfigId, p.newConfigId, step.now)
  {
    hide Build, StatsFor, DetailsOf, Blank, IsGovernor, VerdictOf, CanApprove, BaseFor, CanBootstrap;
    hide AfterCommit, CanInsertConfig;
    hide HasVoted, BuildDiffSummary;
  }

  /**
   Resolving an open proposal whose voters are all active members: it is rejected exactly when no completion of the
   vote could reach the required number, approved exactly when the number is reached and the base still holds its
   place, and never left pending once every member has voted.
   */
  lemma ResolutionIsSound(s: Store, id: string, who: string, now: int, s': Store, reply: Reply)
    requires Reachable(s) && ResolveRefusal(s, id, who).None? && s.proposals[id].status == Open
    requires forall i | 0 <= i < |s.proposals[id].votes| ::
      s.proposals[id].votes[i].identityId in ActiveMembers(s, s.proposals[id].groupId)
    requires (s', reply) == ResolveProposal(s, id, who, now)
    ensures var p := s.proposals[id];
      var members := ActiveMembers(s, p.groupId);
      var required := RequiredVotes(|members|, s.configs[p.baseConfigId].quorumPct);
      && id in s'.proposals
      && (s'.proposals[id].status == Rejected <==> !CanStillPass(p.votes, members, required))
      && (s'.proposals[id].status == Approved <==>
            Tally(p.votes, APPROVE) >= required && s.groups[p.groupId].activeConfigId == Some(p.baseConfigId))
      && (|p.votes| == |members| ==> reply != Reply.Error(ProposalPending))
  {
    hide Reachable, Inv, CanApprove, RequiredVotes, Tally, CanStillPass, AfterCommit;
    ReachableIsOk(s);
    var p := s.proposals[id];
    var members := ActiveMembers(s, p.groupId);
    ApprovalCommitsIffBaseIsActive(s, id, now);
    VotesAreBallots(s, id, members);
    assert p.votes + [] == p.votes;
    EarlyDecisionIsSound(p.votes, members, s.configs[p.baseConfigId].quorumPct, []);
  }

  /** Everybody who has voted on a proposal or may still do so. */
  ghost function Electorate(s: Store, id: string): set<string>
    requires id in s.proposals && s.proposals[id].groupId in s.groups
  {
    var p := s.proposals[id];
    ActiveMembers(s, p.groupId) + Voters(p.votes) + {s.groups[p.groupId].founderId}
  }

  /**
   The same for any voters, outside founders and members who have left included. What could pass is always left
   alone or approved, except when it is rejected because the members counted as pending are too few where all who may
   still vote are enough; nothing that could not pass escapes rejection.
   */
  lemma ResolutionExactly(s: Store, id: string, who: string, now: int, s': Store, reply: Reply)
    requires Reachable(s) && ResolveRefusal(s, id, who).None? && s.proposals[id].status == Open
    requires (s', reply) == ResolveProposal(s, id, who, now)
    ensures var p := s.proposals[id];
      var members, electorate := |ActiveMembers(s, p.groupId)|, Electorate(s, id);
      var required := RequiredVotes(members, s.configs[p.baseConfigId].quorumPct);
      var reached := Tally(p.votes, APPROVE);
      && id in s'.proposals
      && (!CanStillPass(p.votes, electorate, required) ==> s'.proposals[id].status == Rejected)
      && (s'.proposals[id].status == Rejected && CanStillPass(p.votes, electorate, required) <==>
            reached + Pending(members, |p.votes|) < required <= reached + |electorate| - |p.votes|)
      && (s'.proposals[id].status == Approved <==>
            reached >= required && s.groups[p.groupId].activeConfigId == Some(p.baseConfigId))
  {
    hide Reachable, Inv, CanApprove, RequiredVotes, Tally, CanStillPass, AfterCommit;
    ReachableIsOk(s);
    var p := s.proposals[id];
    var members, electorate := ActiveMembers(s, p.groupId), Electorate(s, id);
    forall i | 0 <= i < |p.votes|
      ensures p.votes[i].identityId in electorate
    {
      assert p.votes[i].identityId in Voters(p.votes);
    }
    VotesAreBallots(s, id, electorate);
    ApprovalCommitsIffBaseIsActive(s, id, now);
    RejectionExactly(p.votes, members, electorate, s.configs[p.baseConfigId].quorumPct);
  }

  lemma VotesAreBallots(s: Store, id: string, electorate: set<string>)
    requires Inv(s) && id in s.proposals
    requires forall i | 0 <= i < |s.proposals[id].votes| :: s.proposals[id].votes[i].identityId in electorate
    ensures Ballots(s.proposals[id].votes, electorate)
  {
    hide ConfigsOk, GroupsOk, NewConfigsDiffer, BuildDiffSummary, SameTerms, StatesOk;
    assert ProposalOk(s, id);
  }

  /** A proposal that is approved or rejected stays as it is, votes and all. */
  lemma ResolvedForever(s: Store, later: Store, id: string)
    requires Reachable(s) && Leads(s, later) && id in s.proposals && s.proposals[id].status != Open
    ensures id in later.proposals && later.proposals[id] == s.proposals[id]
  {
    hide Reachable, Leads, Inv;
    ReachableIsOk(s);
    LeadsKeeps(s, later);
  }

  /**
   The order of the other store, which commits the new configuration before it supersedes the old one, never passes
   the index.
   */
  lemma CommitBeforeSupersedeNeverPasses(s: Store, id: string, at: int)
    requires Reachable(s) && id in s.proposals && s.proposals[id].status == Open
    ensures !OneCommitted(Committing(s.configs, s.proposals[id].newConfigId, at))
  {
    hide Reachable, ConfigOk, GroupOk, ProposalOk;
    ReachableIsOk(s);
    var p := s.proposals[id];
    var a := PlaceIsTaken(s, id);
    ProposalConfigs(s, id);
    var after := Committing(s.configs, p.newConfigId, at);
    assert after[a].state == CommittedConfig && after[p.newConfigId].state == CommittedConfig && a != p.newConfigId;
  }

  /** Every stored diff patches its base into its proposed configuration and back, and is never empty. */
  lemma StoredDiffsAreFaithful(s: Store, id: string)
    requires Reachable(s) && id in s.proposals
    ensures var p := s.proposals[id];
      && p.baseConfigId in s.configs && p.newConfigId in s.configs
      && SameTerms(Applied(p.diffSummary, s.configs[p.baseConfigId], true), s.configs[p.newConfigId])
      && SameTerms(Applied(p.diffSummary, s.configs[p.newConfigId], false), s.configs[p.baseConfigId])
      && p.diffSummary != map[]
  {
    hide Reachable, BuildDiffSummary, VotesOk, SameTerms, Applied, ConfigsOk, GroupsOk, NewConfigsDiffer;
    ReachableIsOk(s);
    var p := s.proposals[id];
    assert ProposalOk(s, id);
    DiffIsAFaithfulPatch(s.configs[p.baseConfigId], s.configs[p.newConfigId]);
  }

  /** Configurations from `path[0]` back to one without a predecessor. */
  ghost predicate IsHistory(s: Store, path: seq<string>)
  {
    && path != [] && (forall i | 0 <= i < |path| :: path[i] in s.configs)
    && (forall i | 0 <= i < |path| - 1 ::
          && s.configs[path[i]].prevConfigId == Some(path[i + 1])
          && s.configs[path[i + 1]].groupId == s.configs[path[i]].groupId
          && s.configs[path[i + 1]].versionNo < s.configs[path[i]].versionNo)
    && s.configs[path[|path| - 1]].prevConfigId.None?
  }

  /** Following predecessors goes back through the versions of one group and ends. */
  lemma HistoryReachesARoot(s: Store, id: string) returns (path: seq<string>)
    requires Reachable(s) && id in s.configs
    ensures IsHistory(s, path) && path[0] == id
  {
    hide Reachable;
    ReachableIsOk(s);
    path := Backwards(s, id, s.configs.Keys);
  }

  lemma {:induction false} Backwards(s: Store, id: string, older: set<string>) returns (path: seq<string>)
    requires Inv(s) && id in s.configs && id in older
    requires forall c | c in s.configs && s.configs[c].versionNo < s.configs[id].versionNo :: c in older
    ensures IsHistory(s, path) && path[0] == id
    decreases |older|
  {
    hide ProposalsOk, GroupsOk, NewConfigsDiffer, SameTerms;
    assert ConfigOk(s, id);
    if s.configs[id].prevConfigId.None? {
      path := [id];
    } else {
      var rest := Backwards(s, s.configs[id].prevConfigId.value, older - {id});
      path := [id] + rest;
      assert forall i | 1 <= i < |path| :: path[i] == rest[i - 1];
    }
  }
}
