/**
 The governance store (the pgx repository): groups, configurations and proposals, with the unique indexes that
 PostgreSQL checks after every statement, and the service's three operations as functions on it.
 */
module ConfigStore {
  import opened Wrappers
  import opened Voting
  import opened Configs

  datatype ProposalStatus = Open | Approved | Rejected | Expired

  datatype GroupRecord = GroupRecord(founderId: string, activeConfigId: Option<string>)

  datatype ProposalRecord = ProposalRecord(
    id: string,
    groupId: string,
    proposedBy: string,
    baseConfigId: string,
    newConfigId: string,
    diffSummary: ProposalDiff,
    status: ProposalStatus,
    votes: seq<ProposalVote>,
    resolvedAt: Option<int>)

  datatype Store = Store(
    groups: map<string, GroupRecord>,
    members: map<string, set<string>>,
    configs: map<string, ConfigSnapshot>,
    proposals: map<string, ProposalRecord>)

  // --------------------------------------------------------------------------
  // Indexes and statements
  // --------------------------------------------------------------------------

  /** UNIQUE (group_id) WHERE state = 'committed'. */
  predicate OneCommitted(configs: map<string, ConfigSnapshot>)
  {
    forall a, b | a in configs && b in configs && a != b
                  && configs[a].state == CommittedConfig && configs[b].state == CommittedConfig ::
      configs[a].groupId != configs[b].groupId
  }

  function SetState(configs: map<string, ConfigSnapshot>, id: string, state: ConfigState): map<string, ConfigSnapshot>
  {
    if id in configs then configs[id := configs[id].(state := state)] else configs
  }

  function Committing(configs: map<string, ConfigSnapshot>, id: string, at: int): map<string, ConfigSnapshot>
  {
    if id in configs then configs[id := configs[id].(state := CommittedConfig, committedAt := Some(at))] else configs
  }

  function SetStatus(proposals: map<string, ProposalRecord>, id: string, status: ProposalStatus, at: int)
    : map<string, ProposalRecord>
  {
    if id in proposals then proposals[id := proposals[id].(status := status, resolvedAt := Some(at))] else proposals
  }

  function SetActive(groups: map<string, GroupRecord>, id: string, config: string): map<string, GroupRecord>
  {
    if id in groups then groups[id := groups[id].(activeConfigId := Some(config))] else groups
  }

  /** The configurations after each of the two configuration statements of an approval. */
  function AfterSupersede(s: Store, base: string): map<string, ConfigSnapshot> { SetState(s.configs, base, Superseded) }

  function AfterCommit(s: Store, base: string, new_: string, at: int): map<string, ConfigSnapshot>
  {
    Committing(AfterSupersede(s, base), new_, at)
  }

  /** Every statement of an approval passes its index, and the deferred foreign key of the group holds at the end. */
  predicate CanApprove(s: Store, group: string, base: string, new_: string, at: int)
  {
    && OneCommitted(AfterSupersede(s, base))
    && OneCommitted(AfterCommit(s, base, new_, at))
    && (group in s.groups ==> new_ in s.configs)
  }

  function ApproveIn(s: Store, id: string, group: string, base: string, new_: string, at: int): Store
  {
    s.(proposals := SetStatus(s.proposals, id, Approved, at), configs := AfterCommit(s, base, new_, at),
       groups := SetActive(s.groups, group, new_))
  }

  function RejectIn(s: Store, id: string, new_: string, at: int): Store
  {
    s.(proposals := SetStatus(s.proposals, id, Rejected, at), configs := SetState(s.configs, new_, Superseded))
  }

  /** The constraints on a new configuration row: key, version index, CHECKs, and its two references. */
  predicate CanInsertConfig(s: Store, c: ConfigSnapshot)
  {
    && c.id !in s.configs
    && (forall other | other in s.configs :: s.configs[other].groupId == c.groupId ==>
         s.configs[other].versionNo != c.versionNo)
    && c.amountMinor > 0 && IsPeriod(c.periodicity) && 51 <= c.quorumPct <= 100
    && c.groupId in s.groups && (c.prevConfigId.Some? ==> c.prevConfigId.value in s.configs)
    && OneCommitted(s.configs[c.id := c])
  }

  predicate CanInsertProposal(s: Store, p: ProposalRecord)
  {
    p.id !in s.proposals && p.groupId in s.groups && p.baseConfigId in s.configs && p.newConfigId in s.configs
  }

  /** SELECT COALESCE(MAX(version_no), 0) + 1. */
  ghost predicate IsNextVersion(configs: map<string, ConfigSnapshot>, group: string, v: int)
  {
    && (forall c | c in configs && configs[c].groupId == group :: configs[c].versionNo < v)
    && ((v == 1 && forall c | c in configs :: configs[c].groupId != group)
        || (exists c :: c in configs && configs[c].groupId == group && configs[c].versionNo == v - 1))
  }

  lemma NextVersionIsUnique(configs: map<string, ConfigSnapshot>, group: string, v: int, w: int)
    requires IsNextVersion(configs, group, v) && IsNextVersion(configs, group, w)
    ensures v == w
  {
  }

  // --------------------------------------------------------------------------
  // The service's operations
  // --------------------------------------------------------------------------

  datatype Reply = Error(error: GovernanceError) | Answer(proposal: ProposalRecord, stats: ResolutionStats)

  predicate Blank(s: string) { TrimSpace(s) == "" }

  function ActiveMembers(s: Store, group: string): set<string> { if group in s.members then s.members[group] else {} }

  predicate IsGovernor(s: Store, group: string, id: string)
    requires group in s.groups
  {
    s.groups[group].founderId == id || id in ActiveMembers(s, group)
  }

  ghost function StatsFor(s: Store, p: ProposalRecord, base: ConfigSnapshot): ResolutionStats
  {
    StatsOf(p.votes, |ActiveMembers(s, p.groupId)|, base.quorumPct)
  }

  /** `GetProposal`: the proposal with its two configurations and the state of the vote. */
  ghost function DetailsOf(s: Store, id: string): Reply
  {
    if id !in s.proposals then Error(NotFound)
    else
      var p := s.proposals[id];
      if p.baseConfigId !in s.configs || p.newConfigId !in s.configs then Error(NotFound)
      else Answer(p, StatsFor(s, p, s.configs[p.baseConfigId]))
  }

  /** What stands before the patch is looked at: the base configuration of a new proposal, or the refusal. */
  function BaseFor(s: Store, group: string, proposedBy: string): Result<ConfigSnapshot, GovernanceError>
  {
    if Blank(group) || Blank(proposedBy) then Err(InvalidInput)
    else if group !in s.groups then Err(NotFound)
    else if s.groups[group].activeConfigId.None? then Err(InvalidInput)
    else if !IsGovernor(s, group, proposedBy) then Err(Forbidden)
    else if s.groups[group].activeConfigId.value !in s.configs then Err(NotFound)
    else if s.configs[s.groups[group].activeConfigId.value].state != CommittedConfig then Err(InvalidInput)
    else Ok(s.configs[s.groups[group].activeConfigId.value])
  }

  function NewProposal(id: string, group: string, proposedBy: string, base: ConfigSnapshot, c: ConfigSnapshot)
    : ProposalRecord
  {
    ProposalRecord(id, group, proposedBy, base.id, c.id, BuildDiffSummary(base, c), Open, [], None)
  }

  function Inserted(s: Store, c: ConfigSnapshot, p: ProposalRecord): Store
  {
    s.(configs := s.configs[c.id := c], proposals := s.proposals[p.id := p])
  }

  predicate CanCreate(s: Store, c: ConfigSnapshot, p: ProposalRecord)
  {
    CanInsertConfig(s, c) && CanInsertProposal(s.(configs := s.configs[c.id := c]), p)
  }

  /** `newId` and `proposalId` are the identifiers drawn for the two rows, `version` what the version query answered. */
  ghost function CreateProposal(s: Store, group: string, proposedBy: string, patch: ConfigPatch,
                                version: int, newId: string, proposalId: string): (Store, Reply)
  {
    match BaseFor(s, group, proposedBy)
    case Err(e) => (s, Error(e))
    case Ok(base) =>
      match Build(base, newId, proposedBy, version, patch)
      case Err(e) => (s, Error(e))
      case Ok(c) =>
        var p := NewProposal(proposalId, group, proposedBy, base, c);
        if CanCreate(s, c, p) then (Inserted(s, c, p), Answer(p, StatsFor(s, p, base)))
        else (s, Error(DatabaseError))
  }

  function VoteRefusal(s: Store, id: string, voter: string, decision: string): Option<GovernanceError>
  {
    if Blank(id) || Blank(voter) then Some(InvalidInput)
    else if decision != APPROVE && decision != REJECT then Some(InvalidInput)
    else if id !in s.proposals then Some(NotFound)
    else if s.proposals[id].status != Open then Some(ProposalClosed)
    else if s.proposals[id].groupId !in s.groups then Some(NotFound)
    else if !IsGovernor(s, s.proposals[id].groupId, voter) then Some(Forbidden)
    else if HasVoted(s.proposals[id].votes, voter) then Some(DuplicateVote)
    else None
  }

  function WithVote(s: Store, id: string, v: ProposalVote): Store
    requires id in s.proposals
  {
    s.(proposals := s.proposals[id := s.proposals[id].(votes := s.proposals[id].votes + [v])])
  }

  ghost function CastVote(s: Store, id: string, voter: string, decision: string, now: int): (Store, Reply)
  {
    match VoteRefusal(s, id, voter, decision)
    case Some(e) => (s, Error(e))
    case None =>
      var s' := WithVote(s, id, ProposalVote(voter, decision, now));
      (s', DetailsOf(s', id))
  }

  function ResolveRefusal(s: Store, id: string, requestedBy: string): Option<GovernanceError>
  {
    if Blank(id) || Blank(requestedBy) then Some(InvalidInput)
    else if id !in s.proposals then Some(NotFound)
    else if s.proposals[id].groupId !in s.groups then Some(NotFound)
    else if !IsGovernor(s, s.proposals[id].groupId, requestedBy) then Some(Forbidden)
    else if s.proposals[id].baseConfigId !in s.configs then Some(NotFound)
    else None
  }

  ghost function ResolveProposal(s: Store, id: string, requestedBy: string, now: int): (Store, Reply)
  {
    match ResolveRefusal(s, id, requestedBy)
    case Some(e) => (s, Error(e))
    case None =>
      var p := s.proposals[id];
      var stats := StatsFor(s, p, s.configs[p.baseConfigId]);
      if p.status != Open then (s, Answer(p, stats))
      else
        match VerdictOf(stats)
        case Approve =>
          if CanApprove(s, p.groupId, p.baseConfigId, p.newConfigId, now)
          then (ApproveIn(s, id, p.groupId, p.baseConfigId, p.newConfigId, now),
                Answer(p.(status := Approved, resolvedAt := Some(now)), stats))
          else (s, Error(DatabaseError))
        case Reject =>
          (RejectIn(s, id, p.newConfigId, now),
           Answer(p.(status := Rejected, resolvedAt := Some(now)), stats))
        case Undecided => (s, Error(ProposalPending))
  }

  // --------------------------------------------------------------------------
  // Serial runs
  // --------------------------------------------------------------------------

  datatype Step =
    | AddGroup(group: string, founder: string)
    | FirstConfig(group: string, config: ConfigSnapshot)
    | SetMembers(group: string, members: set<string>)
    | Create(group: string, proposedBy: string, patch: ConfigPatch, newId: string, proposalId: string)
    | Vote(id: string, voter: string, decision: string, now: int)
    | Resolve(id: string, requestedBy: string, now: int)

  const EmptyStore: Store := Store(map[], map[], map[], map[])

  ghost predicate CanBootstrap(s: Store, group: string, c: ConfigSnapshot)
  {
    && group in s.groups && s.groups[group].activeConfigId.None?
    && c.groupId == group && c.state == CommittedConfig && c.prevConfigId.None? && c.versionNo >= 1
    && CanInsertConfig(s, c)
  }

  /** The next version of a group, by whatever the query answers. */
  ghost function NextVersion(configs: map<string, ConfigSnapshot>, group: string): (v: int)
    ensures IsNextVersion(configs, group, v)
  {
    NextVersionExists(configs, configs.Keys, group);
    var v :| IsNextVersion(configs, group, v); v
  }

  ghost predicate TopVersion(configs: map<string, ConfigSnapshot>, ids: set<string>, group: string, v: int)
    requires ids <= configs.Keys
  {
    && (forall c | c in ids && configs[c].groupId == group :: configs[c].versionNo < v)
    && ((v == 1 && forall c | c in ids :: configs[c].groupId != group)
        || (exists c :: c in ids && configs[c].groupId == group && configs[c].versionNo == v - 1))
  }

  lemma {:induction false} TopVersionExists(configs: map<string, ConfigSnapshot>, ids: set<string>, group: string)
    returns (v: int)
    requires ids <= configs.Keys
    ensures TopVersion(configs, ids, group, v)
    decreases |ids|
  {
    if ids == {} {
      v := 1;
    } else {
      var id :| id in ids;
      var w := TopVersionExists(configs, ids - {id}, group);
      if configs[id].groupId == group
         && (configs[id].versionNo >= w || forall c | c in ids - {id} :: configs[c].groupId != group) {
        v := configs[id].versionNo + 1;
      } else {
        v := w;
      }
    }
  }

  lemma NextVersionExists(configs: map<string, ConfigSnapshot>, ids: set<string>, group: string)
    requires ids == configs.Keys
    ensures exists v :: IsNextVersion(configs, group, v)
  {
    var v := TopVersionExists(configs, ids, group);
    assert IsNextVersion(configs, group, v);
  }

  ghost function Next(s: Store, step: Step): Store
  {
    match step
    case AddGroup(g, founder) => if g !in s.groups then s.(groups := s.groups[g := GroupRecord(founder, None)]) else s
    case FirstConfig(g, c) =>
      if CanBootstrap(s, g, c) then s.(configs := s.configs[c.id := c], groups := SetActive(s.groups, g, c.id)) else s
    case SetMembers(g, members) => if g in s.groups then s.(members := s.members[g := members]) else s
    case Create(g, who, patch, newId, proposalId) =>
      CreateProposal(s, g, who, patch, NextVersion(s.configs, g), newId, proposalId).0
    case Vote(id, voter, decision, now) => CastVote(s, id, voter, decision, now).0
    case Resolve(id, who, now) => ResolveProposal(s, id, who, now).0
  }

  ghost function Run(s: Store, steps: seq<Step>): Store
  {
    if steps == [] then s else Next(Run(s, steps[..|steps| - 1]), steps[|steps| - 1])
  }
}
