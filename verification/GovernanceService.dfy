/** The governance repository statement by statement, and the service on top of it. */
module GovernanceService {
  import opened Wrappers
  import opened Voting
  import opened Configs
  import opened ConfigStore

  class Repository {
    var store: Store

    constructor ()
      ensures store == EmptyStore
    {
      store := EmptyStore;
    }

    method GetNextConfigVersion(group: string) returns (v: int)
      ensures IsNextVersion(store.configs, group, v)
    {
      var keys := store.configs.Keys;
      v := 1;
      var found := false;
      while keys != {}
        invariant keys <= store.configs.Keys
        invariant forall c | c in store.configs.Keys - keys && store.configs[c].groupId == group ::
          store.configs[c].versionNo < v
        invariant if found
          then exists c ::
            c in store.configs && store.configs[c].groupId == group && store.configs[c].versionNo == v - 1
          else v == 1 && forall c | c in store.configs.Keys - keys :: store.configs[c].groupId != group
      {
        var c :| c in keys;
        if store.configs[c].groupId == group && (!found || store.configs[c].versionNo >= v) {
          v := store.configs[c].versionNo + 1;
          found := true;
        }
        keys := keys - {c};
      }
    }

    /** Configuration row, then proposal row; the first one is rolled back if the second one fails. */
    method CreateProposal(p: ProposalRecord, c: ConfigSnapshot) returns (ok: bool)
      modifies this
      ensures ok <==> CanCreate(old(store), c, p)
      ensures store == if ok then Inserted(old(store), c, p) else old(store)
    {
      hide CanInsertConfig;
      var tx := store;
      if !CanInsertConfig(tx, c) {
        return false;
      }
      tx := tx.(configs := tx.configs[c.id := c]);
      if p.id in tx.proposals || p.groupId !in tx.groups || p.baseConfigId !in tx.configs
         || p.newConfigId !in tx.configs {
        return false;
      }
      tx := tx.(proposals := tx.proposals[p.id := p]);
      store := tx;
      ok := true;
    }

    method UpdateProposalVotes(id: string, votes: seq<ProposalVote>) returns (ok: bool)
      modifies this
      ensures ok <==> id in old(store).proposals
      ensures store == if ok
        then old(store).(proposals := old(store).proposals[id := old(store).proposals[id].(votes := votes)])
          else old(store)
    {
      if id !in store.proposals {
        return false;
      }
      store := store.(proposals := store.proposals[id := store.proposals[id].(votes := votes)]);
      ok := true;
    }

    /** Proposal, old configuration, new configuration, group, in this order; the unique index is checked after each. */
    method MarkProposalApproved(id: string, group: string, base: string, newConfig: string, at: int) returns (ok: bool)
      modifies this
      ensures ok <==> CanApprove(old(store), group, base, newConfig, at)
      ensures store == if ok then ApproveIn(old(store), id, group, base, newConfig, at) else old(store)
      ensures old(OneCommitted(store.configs)) ==> OneCommitted(store.configs)
    {
      hide OneCommitted;
      var tx := store;
      if id in tx.proposals {
        tx := tx.(proposals := tx.proposals[id := tx.proposals[id].(status := Approved, resolvedAt := Some(at))]);
      }
      if base in tx.configs {
        tx := tx.(configs := tx.configs[base := tx.configs[base].(state := Superseded)]);
      }
      if !OneCommitted(tx.configs) {
        return false;
      }
      if newConfig in tx.configs {
        tx := tx.(configs := tx.configs[newConfig :=
          tx.configs[newConfig].(state := CommittedConfig, committedAt := Some(at))]);
      }
      if !OneCommitted(tx.configs) {
        return false;
      }
      if group in tx.groups {
        tx := tx.(groups := tx.groups[group := tx.groups[group].(activeConfigId := Some(newConfig))]);
      }
      if group in tx.groups && newConfig !in tx.configs {
        return false;
      }
      store := tx;
      ok := true;
    }

    method MarkProposalRejected(id: string, newConfig: string, at: int)
      modifies this
      ensures store == RejectIn(old(store), id, newConfig, at)
    {
      var tx := store;
      if id in tx.proposals {
        tx := tx.(proposals := tx.proposals[id := tx.proposals[id].(status := Rejected, resolvedAt := Some(at))]);
      }
      if newConfig in tx.configs {
        tx := tx.(configs := tx.configs[newConfig := tx.configs[newConfig].(state := Superseded)]);
      }
      store := tx;
    }
  }

  class Service {
    const repository: Repository

    constructor (repository: Repository)
      ensures this.repository == repository
    {
      this.repository := repository;
    }

    method GetProposal(id: string) returns (reply: Reply)
      ensures reply == DetailsOf(repository.store, id)
    {
      hide StatsOf;
      var s := repository.store;
      if id !in s.proposals {
        return Error(NotFound);
      }
      var p := s.proposals[id];
      if p.baseConfigId !in s.configs || p.newConfigId !in s.configs {
        return Error(NotFound);
      }
      var stats := ComputeResolutionStats(p.votes, |ActiveMembers(s, p.groupId)|, s.configs[p.baseConfigId].quorumPct);
      reply := Answer(p, stats);
    }

    /** `newId` and `proposalId` are the identifiers drawn for the two rows. */
    method CreateProposal(group: string, proposedBy: string, patch: ConfigPatch, newId: string, proposalId: string)
      returns (reply: Reply)
      modifies repository
      ensures (repository.store, reply) == ConfigStore.CreateProposal(
        old(repository.store), group, proposedBy, patch, NextVersion(old(repository.store).configs, group), newId,
          proposalId)
    {
      hide Blank, StatsOf, Build, CanCreate, Inserted, IsNextVersion, BuildDiffSummary;
      if Blank(group) || Blank(proposedBy) {
        return Error(InvalidInput);
      }
      var s := repository.store;
      if group !in s.groups {
        return Error(NotFound);
      }
      if s.groups[group].activeConfigId.None? {
        return Error(InvalidInput);
      }
      if s.groups[group].founderId != proposedBy && proposedBy !in ActiveMembers(s, group) {
        return Error(Forbidden);
      }
      if s.groups[group].activeConfigId.value !in s.configs {
        return Error(NotFound);
      }
      var base := s.configs[s.groups[group].activeConfigId.value];
      if base.state != CommittedConfig {
        return Error(InvalidInput);
      }
      var version := repository.GetNextConfigVersion(group);
      NextVersionIsUnique(s.configs, group, version, NextVersion(s.configs, group));
      var built := BuildProposedConfig(base, newId, proposedBy, version, patch);
      if built.Err? {
        return Error(built.error);
      }
      var diff := BuildDiffSummary(base, built.value);
      var p := ProposalRecord(proposalId, group, proposedBy, base.id, built.value.id, diff, Open, [], None);
      var ok := repository.CreateProposal(p, built.value);
      if !ok {
        return Error(DatabaseError);
      }
      var stats := ComputeResolutionStats(p.votes, |ActiveMembers(repository.store, group)|, base.quorumPct);
      assert ActiveMembers(repository.store, group) == ActiveMembers(s, group) by {
        InsertKeepsMembers(s, built.value, p, group);
      }
      reply := Answer(p, stats);
    }

    method CastVote(id: string, voter: string, decision: string, now: int) returns (reply: Reply)
      modifies repository
      ensures (repository.store, reply) == ConfigStore.CastVote(old(repository.store), id, voter, decision, now)
    {
      hide Blank, DetailsOf;
      if Blank(id) || Blank(voter) {
        return Error(InvalidInput);
      }
      if decision != APPROVE && decision != REJECT {
        return Error(InvalidInput);
      }
      var s := repository.store;
      if id !in s.proposals {
        return Error(NotFound);
      }
      var p := s.proposals[id];
      if p.status != Open {
        return Error(ProposalClosed);
      }
      if p.groupId !in s.groups {
        return Error(NotFound);
      }
      if s.groups[p.groupId].founderId != voter && voter !in ActiveMembers(s, p.groupId) {
        return Error(Forbidden);
      }
      for i := 0 to |p.votes|
        invariant forall k | 0 <= k < i :: p.votes[k].identityId != voter
      {
        if p.votes[i].identityId == voter {
          return Error(DuplicateVote);
        }
      }
      var ok := repository.UpdateProposalVotes(id, p.votes + [ProposalVote(voter, decision, now)]);
      assert ok;
      reply := GetProposal(id);
    }

    method ResolveProposal(id: string, requestedBy: string, now: int) returns (reply: Reply)
      modifies repository
      ensures (repository.store, reply) == ConfigStore.ResolveProposal(old(repository.store), id, requestedBy, now)
    {
      hide Blank, OneCommitted, CanApprove, ApproveIn, RejectIn, StatsOf;
      if Blank(id) || Blank(requestedBy) {
        return Error(InvalidInput);
      }
      var s := repository.store;
      if id !in s.proposals {
        return Error(NotFound);
      }
      var p := s.proposals[id];
      if p.groupId !in s.groups {
        return Error(NotFound);
      }
      if s.groups[p.groupId].founderId != requestedBy && requestedBy !in ActiveMembers(s, p.groupId) {
        return Error(Forbidden);
      }
      if p.baseConfigId !in s.configs {
        return Error(NotFound);
      }
      var stats := ComputeResolutionStats(p.votes, |ActiveMembers(s, p.groupId)|, s.configs[p.baseConfigId].quorumPct);
      if p.status != Open {
        return Answer(p, stats);
      }
      if stats.approveVotes >= stats.requiredYes {
        var ok := repository.MarkProposalApproved(id, p.groupId, p.baseConfigId, p.newConfigId, now);
        if !ok {
          return Error(DatabaseError);
        }
        reply := Answer(p.(status := Approved, resolvedAt := Some(now)), stats);
      } else if stats.approveVotes + stats.pendingVotes < stats.requiredYes {
        repository.MarkProposalRejected(id, p.newConfigId, now);
        reply := Answer(p.(status := Rejected, resolvedAt := Some(now)), stats);
      } else {
        reply := Error(ProposalPending);
      }
    }
  }

  lemma InsertKeepsMembers(s: Store, c: ConfigSnapshot, p: ProposalRecord, group: string)
    ensures ActiveMembers(Inserted(s, c, p), group) == ActiveMembers(s, group)
  {
  }
}
