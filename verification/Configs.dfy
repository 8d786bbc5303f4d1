/** Group configurations: patches, their validation, and the diff a proposal stores. */
module Configs {
  import opened Wrappers

  datatype ConfigState = Draft | Review | CommittedConfig | Superseded

  datatype ConfigSnapshot = ConfigSnapshot(
    id: string,
    groupId: string,
    versionNo: int,
    amountMinor: int,
    periodicity: string,
    payoutPolicy: map<string, string>,
    memberOrder: seq<string>,
    quorumPct: int,
    state: ConfigState,
    committedAt: Option<int>,
    createdBy: string,
    prevConfigId: Option<string>)

  /** An absent field is left alone; an empty member order is present, and refused. */
  datatype ConfigPatch = ConfigPatch(
    amountMinor: Option<int>,
    periodicity: Option<string>,
    payoutPolicy: Option<map<string, string>>,
    memberOrder: Option<seq<string>>,
    quorumPct: Option<int>)

  datatype GovernanceError =
    | NotFound | Forbidden | ProposalClosed | DuplicateVote
    | NoConfigChanges | InvalidInput | ProposalPending | DatabaseError

  // --------------------------------------------------------------------------
  // Text
  // --------------------------------------------------------------------------

  /** The characters `strings.TrimSpace` removes. */
  predicate IsSpace(c: char)
  {
    var k := c as int;
    9 <= k <= 13 || k == 0x20 || k == 0x85 || k == 0xA0 || k == 0x1680 || 0x2000 <= k <= 0x200A
    || k == 0x2028 || k == 0x2029 || k == 0x202F || k == 0x205F || k == 0x3000
  }

  function TrimLeft(s: string): string
  {
    if s != "" && IsSpace(s[0]) then TrimLeft(s[1..]) else s
  }

  function TrimRight(s: string): string
  {
    if s != "" && IsSpace(s[|s| - 1]) then TrimRight(s[..|s| - 1]) else s
  }

  function TrimSpace(s: string): string { TrimRight(TrimLeft(s)) }

  /**
   Lower case, as far as it can matter in a comparison with an ASCII word: two non-ASCII capitals lower to i and k.
   */
  function LowerChar(c: char): char
  {
    if 'A' <= c <= 'Z' then (c as int + 32) as char
    else if c as int == 0x130 then 'i'
    else if c as int == 0x212A then 'k'
    else c
  }

  function ToLower(s: string): (out: string)
    ensures |out| == |s| && forall i | 0 <= i < |s| :: out[i] == LowerChar(s[i])
  {
    seq(|s|, i requires 0 <= i < |s| => LowerChar(s[i]))
  }

  /** The twenty-five characters with the Unicode property White_Space, and no others. */
  lemma SpacesAreUnicodes(c: char)
    ensures IsSpace(c) <==> c as int in {
      0x09, 0x0A, 0x0B, 0x0C, 0x0D, 0x20, 0x85, 0xA0, 0x1680, 0x2000, 0x2001, 0x2002, 0x2003, 0x2004, 0x2005, 0x2006,
      0x2007, 0x2008, 0x2009, 0x200A, 0x2028, 0x2029, 0x202F, 0x205F, 0x3000}
  {
  }

  predicate AllSpace(s: string) { forall i | 0 <= i < |s| :: IsSpace(s[i]) }

  lemma {:induction false} TrimLeftTakesSpace(s: string) returns (front: string)
    ensures s == front + TrimLeft(s) && AllSpace(front)
    ensures TrimLeft(s) != "" ==> !IsSpace(TrimLeft(s)[0])
  {
    hide IsSpace;
    front := "";
    if s != "" && IsSpace(s[0]) {
      var rest := TrimLeftTakesSpace(s[1..]);
      front := [s[0]] + rest;
    }
  }

  lemma {:induction false} TrimRightTakesSpace(s: string) returns (back: string)
    ensures s == TrimRight(s) + back && AllSpace(back)
    ensures TrimRight(s) != "" ==> !IsSpace(TrimRight(s)[|TrimRight(s)| - 1])
  {
    hide IsSpace;
    back := "";
    if s != "" && IsSpace(s[|s| - 1]) {
      var rest := TrimRightTakesSpace(s[..|s| - 1]);
      back := rest + [s[|s| - 1]];
    }
  }

  /** Trimming takes white space off both ends, all of it and nothing else. */
  lemma TrimTakesSpaceOffBothEnds(s: string) returns (front: string, back: string)
    ensures s == front + TrimSpace(s) + back && AllSpace(front) && AllSpace(back)
    ensures TrimSpace(s) != "" ==> !IsSpace(TrimSpace(s)[0]) && !IsSpace(TrimSpace(s)[|TrimSpace(s)| - 1])
  {
    hide IsSpace;
    front := TrimLeftTakesSpace(s);
    back := TrimRightTakesSpace(TrimLeft(s));
    if TrimSpace(s) != "" {
      assert TrimLeft(s)[0] == TrimSpace(s)[0];
    }
  }

  /** A text reads as a lower-case word exactly if each of its letters is that letter, small or capital. */
  lemma LowersTo(s: string, word: string)
    requires forall i | 0 <= i < |word| :: 'a' <= word[i] <= 'z'
    ensures ToLower(s) == word <==>
      && |s| == |word|
      && forall i | 0 <= i < |s| ::
           || s[i] == word[i] || s[i] as int + 32 == word[i] as int
           || (word[i] == 'i' && s[i] as int == 0x130) || (word[i] == 'k' && s[i] as int == 0x212A)
  {
  }

  // --------------------------------------------------------------------------
  // Validation
  // --------------------------------------------------------------------------

  /** Every trimmed identity is non-blank, and no two are the same. */
  ghost predicate WellFormedOrder(values: seq<string>)
  {
    && (forall i | 0 <= i < |values| :: TrimSpace(values[i]) != "")
    && (forall i, j | 0 <= i < j < |values| :: TrimSpace(values[i]) != TrimSpace(values[j]))
  }

  method ValidateMemberOrder(values: seq<string>) returns (ok: bool)
    ensures ok <==> WellFormedOrder(values)
  {
    hide TrimSpace;
    var seen: set<string> := {};
    for i := 0 to |values|
      invariant seen == set k | 0 <= k < i :: TrimSpace(values[k])
      invariant WellFormedOrder(values[..i])
    {
      var id := TrimSpace(values[i]);
      if id == "" {
        return false;
      }
      if id in seen {
        return false;
      }
      seen := seen + {id};
      assert forall k | 0 <= k < i :: values[..i + 1][k] == values[..i][k];
    }
    assert values[..|values|] == values;
    ok := true;
  }

  predicate EmptyPatch(p: ConfigPatch)
  {
    p.amountMinor.None? && p.periodicity.None? && p.payoutPolicy.None? && p.memberOrder.None? && p.quorumPct.None?
  }

  predicate IsPeriod(s: string) { s in {"weekly", "biweekly", "monthly"} }

  ghost predicate ValidPatch(p: ConfigPatch)
  {
    && (p.amountMinor.Some? ==> p.amountMinor.value > 0)
    && (p.periodicity.Some? ==> IsPeriod(ToLower(TrimSpace(p.periodicity.value))))
    && (p.memberOrder.Some? ==> p.memberOrder.value != [] && WellFormedOrder(p.memberOrder.value))
    && (p.quorumPct.Some? ==> 51 <= p.quorumPct.value <= 100)
  }

  function OrElse<T>(o: Option<T>, d: T): T { if o.Some? then o.value else d }

  /** The base with the patched fields replaced, as the next version, in review. */
  function Proposed(base: ConfigSnapshot, id: string, proposedBy: string, nextVersion: int, p: ConfigPatch)
    : ConfigSnapshot
  {
    ConfigSnapshot(
      id, base.groupId, nextVersion,
      OrElse(p.amountMinor, base.amountMinor),
      if p.periodicity.Some? then ToLower(TrimSpace(p.periodicity.value)) else base.periodicity,
      OrElse(p.payoutPolicy, base.payoutPolicy),
      OrElse(p.memberOrder, base.memberOrder),
      OrElse(p.quorumPct, base.quorumPct),
      Review, None, proposedBy, Some(base.id))
  }

  /**
   Refused for saying nothing, for saying something illegal, or for saying what already holds; else the proposed
   version.
   */
  ghost function Build(base: ConfigSnapshot, id: string, proposedBy: string, nextVersion: int, p: ConfigPatch)
    : (r: Result<ConfigSnapshot, GovernanceError>)
    ensures r.Ok? ==> !SameTerms(base, r.value)
  {
    if EmptyPatch(p) then Err(NoConfigChanges)
    else if !ValidPatch(p) then Err(InvalidInput)
    else if SameTerms(base, Proposed(base, id, proposedBy, nextVersion, p)) then Err(NoConfigChanges)
    else Ok(Proposed(base, id, proposedBy, nextVersion, p))
  }

  /** The patch checked and applied field by field to a clone of the base. */
  method BuildProposedConfig(base: ConfigSnapshot, id: string, proposedBy: string, nextVersion: int, patch: ConfigPatch)
    returns (r: Result<ConfigSnapshot, GovernanceError>)
    ensures r == Build(base, id, proposedBy, nextVersion, patch)
  {
    hide ToLower, TrimSpace, IsPeriod, WellFormedOrder, BuildDiffSummary, SameTerms, Applied;
    if patch.amountMinor.None? && patch.periodicity.None? && patch.payoutPolicy.None? && patch.memberOrder.None?
       && patch.quorumPct.None? {
      return Err(NoConfigChanges);
    }
    var proposed := base.(id := id, versionNo := nextVersion, state := Review, createdBy := proposedBy,
                          committedAt := None, prevConfigId := Some(base.id));
    if patch.amountMinor.Some? {
      if patch.amountMinor.value <= 0 {
        return Err(InvalidInput);
      }
      proposed := proposed.(amountMinor := patch.amountMinor.value);
    }
    if patch.periodicity.Some? {
      var periodicity := ToLower(TrimSpace(patch.periodicity.value));
      if !IsPeriod(periodicity) {
        return Err(InvalidInput);
      }
      proposed := proposed.(periodicity := periodicity);
    }
    if patch.payoutPolicy.Some? {
      proposed := proposed.(payoutPolicy := patch.payoutPolicy.value);
    }
    if patch.memberOrder.Some? {
      if |patch.memberOrder.value| == 0 {
        return Err(InvalidInput);
      }
      var ok := ValidateMemberOrder(patch.memberOrder.value);
      if !ok {
        return Err(InvalidInput);
      }
      proposed := proposed.(memberOrder := patch.memberOrder.value);
    }
    if patch.quorumPct.Some? {
      if patch.quorumPct.value < 51 || patch.quorumPct.value > 100 {
        return Err(InvalidInput);
      }
      proposed := proposed.(quorumPct := patch.quorumPct.value);
    }
    DiffIsAFaithfulPatch(base, proposed);
    if |BuildDiffSummary(base, proposed)| == 0 {
      return Err(NoConfigChanges);
    }
    r := Ok(proposed);
  }

  // --------------------------------------------------------------------------
  // The diff
  // --------------------------------------------------------------------------

  datatype Value = Amount(n: int) | Text(s: string) | Policy(p: map<string, string>) | Order(ids: seq<string>)

  datatype ProposalChange = ProposalChange(from: Value, to: Value)

  type ProposalDiff = map<string, ProposalChange>

  function Noted(d: ProposalDiff, field: string, from: Value, to: Value): ProposalDiff
  {
    if from == to then d else d[field := ProposalChange(from, to)]
  }

  function BuildDiffSummary(base: ConfigSnapshot, proposed: ConfigSnapshot): ProposalDiff
  {
    var d1 := Noted(map[], "amount_minor", Amount(base.amountMinor), Amount(proposed.amountMinor));
    var d2 := Noted(d1, "periodicity", Text(base.periodicity), Text(proposed.periodicity));
    var d3 := Noted(d2, "payout_policy", Policy(base.payoutPolicy), Policy(proposed.payoutPolicy));
    var d4 := Noted(d3, "member_order", Order(base.memberOrder), Order(proposed.memberOrder));
    Noted(d4, "quorum_pct", Amount(base.quorumPct), Amount(proposed.quorumPct))
  }

  /** Five fields are what a configuration says; the rest is bookkeeping. */
  predicate SameTerms(a: ConfigSnapshot, b: ConfigSnapshot)
  {
    a.amountMinor == b.amountMinor && a.periodicity == b.periodicity && a.payoutPolicy == b.payoutPolicy &&
    a.memberOrder == b.memberOrder && a.quorumPct == b.quorumPct
  }

  /** One side of a change, where the diff has one for the field. */
  function Side(d: ProposalDiff, field: string, forward: bool, current: Value): Value
  {
    if field !in d then current else if forward then d[field].to else d[field].from
  }

  /** The `to` values (or the `from` values) of a diff written over a configuration. */
  function Applied(d: ProposalDiff, c: ConfigSnapshot, forward: bool): ConfigSnapshot
  {
    var amount := Side(d, "amount_minor", forward, Amount(c.amountMinor));
    var period := Side(d, "periodicity", forward, Text(c.periodicity));
    var policy := Side(d, "payout_policy", forward, Policy(c.payoutPolicy));
    var order := Side(d, "member_order", forward, Order(c.memberOrder));
    var quorum := Side(d, "quorum_pct", forward, Amount(c.quorumPct));
    c.(amountMinor := if amount.Amount? then amount.n else c.amountMinor,
       periodicity := if period.Text? then period.s else c.periodicity,
       payoutPolicy := if policy.Policy? then policy.p else c.payoutPolicy,
       memberOrder := if order.Order? then order.ids else c.memberOrder,
       quorumPct := if quorum.Amount? then quorum.n else c.quorumPct)
  }

  lemma FieldNamesDiffer()
    ensures var names := ["amount_minor", "periodicity", "payout_policy", "member_order", "quorum_pct"];
      forall i, j | 0 <= i < j < |names| :: names[i] != names[j]
  {
    assert |"amount_minor"| == 12 && |"periodicity"| == 11 && |"payout_policy"| == 13 && |"member_order"| == 12
      && |"quorum_pct"| == 10;
    assert "amount_minor"[0] == 'a' && "member_order"[0] == 'm';
  }

  /** What the diff says of each field. */
  lemma DiffFields(base: ConfigSnapshot, proposed: ConfigSnapshot)
    ensures var d := BuildDiffSummary(base, proposed);
      && ("amount_minor" in d <==> base.amountMinor != proposed.amountMinor)
      && ("periodicity" in d <==> base.periodicity != proposed.periodicity)
      && ("payout_policy" in d <==> base.payoutPolicy != proposed.payoutPolicy)
      && ("member_order" in d <==> base.memberOrder != proposed.memberOrder)
      && ("quorum_pct" in d <==> base.quorumPct != proposed.quorumPct)
      && ("amount_minor" in d ==>
            d["amount_minor"] == ProposalChange(Amount(base.amountMinor), Amount(proposed.amountMinor)))
      && ("periodicity" in d ==> d["periodicity"] == ProposalChange(Text(base.periodicity), Text(proposed.periodicity)))
      && ("payout_policy" in d ==>
            d["payout_policy"] == ProposalChange(Policy(base.payoutPolicy), Policy(proposed.payoutPolicy)))
      && ("member_order" in d ==>
            d["member_order"] == ProposalChange(Order(base.memberOrder), Order(proposed.memberOrder)))
      && ("quorum_pct" in d ==> d["quorum_pct"] == ProposalChange(Amount(base.quorumPct), Amount(proposed.quorumPct)))
      && (forall field | field in d ::
           field in {"amount_minor", "periodicity", "payout_policy", "member_order", "quorum_pct"})
  {
    FieldNamesDiffer();
    var names := ["amount_minor", "periodicity", "payout_policy", "member_order", "quorum_pct"];
    assert names[0] != names[1] && names[0] != names[2] && names[0] != names[3] && names[0] != names[4];
    assert names[1] != names[2] && names[1] != names[3] && names[1] != names[4];
    assert names[2] != names[3] && names[2] != names[4] && names[3] != names[4];
  }

  /** The diff is a patch that works in both directions, and empty exactly when there is nothing to patch. */
  lemma DiffIsAFaithfulPatch(base: ConfigSnapshot, proposed: ConfigSnapshot)
    ensures var d := BuildDiffSummary(base, proposed);
      && SameTerms(Applied(d, base, true), proposed)
      && SameTerms(Applied(d, proposed, false), base)
      && (d == map[] <==> SameTerms(base, proposed))
  {
    hide BuildDiffSummary;
    DiffFields(base, proposed);
    var d := BuildDiffSummary(base, proposed);
    if SameTerms(base, proposed) {
      assert d.Keys == {};
    }
  }
}
