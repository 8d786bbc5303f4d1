/** A serial run in which members who leave after voting make the service reject what could still pass. */
module GovernanceCounterexamples {
  import opened Wrappers
  import opened Voting
  import opened Configs
  import opened ConfigStore
  import opened GovernanceTheorems

  lemma OneMoreStep(s: Store, step: Step)
    requires Reachable(s)
    ensures Reachable(Next(s, step))
  {
    hide Next;
    var steps :| Run(EmptyStore, steps) == s;
    var more := steps + [step];
    assert more[..|steps|] == steps;
    assert Run(EmptyStore, more) == Next(s, step);
  }

  /** Four members, a group and its founder, and identifiers for two configurations and a proposal. */
  datatype Cast = Cast(group: string, a: string, b: string, c: string, d: string, first: string, second: string,
    proposal: string)

  predicate Plausible(x: Cast)
  {
    && !Blank(x.group) && !Blank(x.a) && !Blank(x.b) && !Blank(x.c) && !Blank(x.proposal)
    && x.a != x.b && x.a != x.c && x.a != x.d && x.b != x.c && x.b != x.d && x.c != x.d && x.first != x.second
  }

  lemma CastsExist()
    ensures Plausible(Cast("g", "a", "b", "c", "d", "k1", "k2", "p"))
  {
    assert TrimSpace("g") == "g" && TrimSpace("a") == "a" && TrimSpace("b") == "b";
    assert TrimSpace("c") == "c" && TrimSpace("p") == "p";
    assert "a" != "b" && "a" != "c" && "a" != "d" && "b" != "c" && "b" != "d" && "c" != "d";
    assert "k1"[1] != "k2"[1];
  }

  /** The founder is member `a`; 51 percent of the members must approve. */
  ghost function FirstOf(x: Cast): ConfigSnapshot
  {
    ConfigSnapshot(x.first, x.group, 1, 100, "weekly", map[], [x.a], 51, CommittedConfig, None, x.a, None)
  }

  ghost function SecondOf(x: Cast): ConfigSnapshot
  {
    ConfigSnapshot(x.second, x.group, 2, 200, "weekly", map[], [x.a], 51, Review, None, x.a, Some(x.first))
  }

  ghost function ProposalOf(x: Cast, votes: seq<ProposalVote>): ProposalRecord
  {
    NewProposal(x.proposal, x.group, x.a, FirstOf(x), SecondOf(x)).(votes := votes)
  }

  ghost function StoreWith(x: Cast, members: set<string>, votes: seq<ProposalVote>): Store
  {
    Store(map[x.group := GroupRecord(x.a, Some(x.first))], map[x.group := members],
          map[x.first := FirstOf(x), x.second := SecondOf(x)], map[x.proposal := ProposalOf(x, votes)])
  }

  ghost function Everybody(x: Cast): set<string> { {x.a, x.b, x.c, x.d} }

  lemma AFoundedGroup(x: Cast) returns (s: Store)
    requires Plausible(x)
    ensures Reachable(s)
    ensures s == Store(map[x.group := GroupRecord(x.a, Some(x.first))], map[x.group := Everybody(x)],
                       map[x.first := FirstOf(x)], map[])
  {
    hide Reachable, Leads, Blank, IsPeriod;
    assert Reachable(EmptyStore) by { EmptyIsReachable(); }
    var s1 := Next(EmptyStore, AddGroup(x.group, x.a));
    OneMoreStep(EmptyStore, AddGroup(x.group, x.a));
    var s2 := Next(s1, SetMembers(x.group, Everybody(x)));
    OneMoreStep(s1, SetMembers(x.group, Everybody(x)));
    assert IsPeriod("weekly") by { WeeklyIsAPeriod(); }
    s := Next(s2, FirstConfig(x.group, FirstOf(x)));
    OneMoreStep(s2, FirstConfig(x.group, FirstOf(x)));
    assert s.groups == map[x.group := GroupRecord(x.a, Some(x.first))];
    assert s.configs == map[x.first := FirstOf(x)];
  }

  lemma EmptyIsReachable()
    ensures Reachable(EmptyStore)
  {
    assert Run(EmptyStore, []) == EmptyStore;
  }

  lemma WeeklyIsAPeriod()
    ensures IsPeriod("weekly")
  {
  }

  /** Member `a` proposes another amount. */
  lemma AProposal(x: Cast) returns (s: Store)
    requires Plausible(x)
    ensures Reachable(s) && s == StoreWith(x, Everybody(x), [])
  {
    hide Reachable, Leads, Blank, IsPeriod, BuildDiffSummary, StatsOf, Next;
    var s0 := AFoundedGroup(x);
    var patch := ConfigPatch(Some(200), None, None, None, None);
    var step := Create(x.group, x.a, patch, x.second, x.proposal);
    s := Next(s0, step);
    OneMoreStep(s0, step);
    assert s == StoreWith(x, Everybody(x), []) by { ProposalIsMade(s0, x, patch, step); }
  }

  lemma ProposalIsMade(s: Store, x: Cast, patch: ConfigPatch, step: Step)
    requires Plausible(x) && patch == ConfigPatch(Some(200), None, None, None, None)
    requires s == Store(map[x.group := GroupRecord(x.a, Some(x.first))], map[x.group := Everybody(x)],
                        map[x.first := FirstOf(x)], map[])
    requires step == Create(x.group, x.a, patch, x.second, x.proposal)
    ensures Next(s, step) == StoreWith(x, Everybody(x), [])
  {
    hide Blank, IsPeriod, BuildDiffSummary, StatsOf;
    WeeklyIsAPeriod();
    NextVersionIsUnique(s.configs, x.group, 2, NextVersion(s.configs, x.group)) by { VersionTwoIsNext(s.configs, x); }
    assert Build(FirstOf(x), x.second, x.a, 2, patch) == Ok(SecondOf(x));
    assert s.configs[x.second := SecondOf(x)] == map[x.first := FirstOf(x), x.second := SecondOf(x)];
  }

  lemma VersionTwoIsNext(configs: map<string, ConfigSnapshot>, x: Cast)
    requires configs == map[x.first := FirstOf(x)]
    ensures IsNextVersion(configs, x.group, 2)
  {
    assert x.first in configs && configs[x.first].versionNo == 1;
  }

  /** A rejecting vote of somebody who has not voted. */
  lemma AVote(x: Cast, s: Store, votes: seq<ProposalVote>, voter: string) returns (s': Store)
    requires Plausible(x) && Reachable(s) && s == StoreWith(x, Everybody(x), votes)
    requires voter in {x.a, x.b} && !HasVoted(votes, voter)
    ensures Reachable(s') && s' == StoreWith(x, Everybody(x), votes + [ProposalVote(voter, REJECT, 0)])
  {
    hide Reachable, Leads, Blank, BuildDiffSummary, DetailsOf;
    var step := Vote(x.proposal, voter, REJECT, 0);
    OneMoreStep(s, step);
    s' := Next(s, step);
    assert s'.proposals == map[x.proposal := ProposalOf(x, votes + [ProposalVote(voter, REJECT, 0)])];
  }

  ghost function TwoRejections(x: Cast): seq<ProposalVote>
  {
    [ProposalVote(x.a, REJECT, 0), ProposalVote(x.b, REJECT, 0)]
  }

  /**
   Two of four members reject and leave. The two who stay could both still approve and would be enough, but the
   service rejects: by their votes the leavers count as if they were the ones who stay.
   */
  lemma LeaversAreCounted(x: Cast) returns (s: Store)
    requires Plausible(x)
    ensures Reachable(s) && x.proposal in s.proposals && s.proposals[x.proposal].status == Open
    ensures ResolveRefusal(s, x.proposal, x.c).None?
    ensures CanStillPass(s.proposals[x.proposal].votes, Everybody(x), RequiredVotes(2, 51))
    ensures x.proposal in ResolveProposal(s, x.proposal, x.c, 0).0.proposals
    ensures ResolveProposal(s, x.proposal, x.c, 0).0.proposals[x.proposal].status == Rejected
  {
    hide Reachable, Leads, Blank, BuildDiffSummary, Next, StatsOf, CanStillPass;
    var s0 := AProposal(x);
    var s1 := AVote(x, s0, [], x.a);
    var v, w := ProposalVote(x.a, REJECT, 0), ProposalVote(x.b, REJECT, 0);
    assert [] + [v] == [v] && [v] + [w] == TwoRejections(x);
    var s2 := AVote(x, s1, [v], x.b);
    var left := SetMembers(x.group, {x.c, x.d});
    s := Next(s2, left);
    OneMoreStep(s2, left);
    assert s == StoreWith(x, {x.c, x.d}, TwoRejections(x)) by { MembersLeave(s2, x); }
    TheVerdict(x);
  }

  lemma MembersLeave(s: Store, x: Cast)
    requires s == StoreWith(x, Everybody(x), TwoRejections(x))
    ensures Next(s, SetMembers(x.group, {x.c, x.d})) == StoreWith(x, {x.c, x.d}, TwoRejections(x))
  {
    hide BuildDiffSummary;
  }

  lemma TheVerdict(x: Cast)
    requires Plausible(x)
    ensures VerdictOf(StatsOf(TwoRejections(x), |{x.c, x.d}|, 51)) == Reject
    ensures CanStillPass(TwoRejections(x), Everybody(x), RequiredVotes(2, 51))
  {
    hide Blank;
    var votes, electorate := TwoRejections(x), Everybody(x);
    assert votes[..1] == [votes[0]] && votes[..1][..0] == [];
    assert Tally(votes[..1], APPROVE) == 0 && Tally(votes[..1], REJECT) == 1;
    assert Tally(votes, APPROVE) == 0 && Tally(votes, REJECT) == 2;
    assert |{x.c, x.d}| == 2 && |electorate| == 4;
    assert Ballots(votes, electorate);
    RejectionExactly(votes, {x.c, x.d}, electorate, 51);
  }
}
