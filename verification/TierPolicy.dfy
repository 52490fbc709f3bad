/** The tier check: what a Skill lets a session of a given tier do with a tool. */
module TierPolicy {
  import opened Wrappers

  datatype Class = Safe | Caution | Destructive | Unknown | GenericExecution

  datatype Mode = Autonomous | Approval | Advisory | Blocked

  datatype Policy = Policy(enabled: bool, mode: Mode)

  /** What a Skill document answers about a tool name. */
  datatype Skill = Skill(
    classify: string -> Class,
    denied: string -> bool,
    generic: string -> bool,
    allowsGeneric: string -> bool,
    reversible: string -> bool,
    policy: (string, int) -> Option<Policy>,
    floorViolation: string -> Option<string>)

  datatype Reason =
    | DenyList
    | GenericNeedsApproval
    | GenericAdvisory
    | GenericAtTier0
    | NoPolicy
    | PolicyBlocks
    | PolicyAdvises
    | PolicyRuns
    | PolicyAsks
    | BelowFloor(violation: string)
    | Override(mode: Mode)

  datatype Verdict = Verdict(
    permitted: bool,
    classification: Class,
    tier: int,
    reason: Reason,
    reversible: bool,
    requiresApproval: bool)

  /** Legacy and out-of-range tiers become the safest one. */
  function NormalizeTier(tier: int): (t: int)
    ensures 0 <= t <= 2 && (t == tier || t == 2)
  {
    if tier == 0 || tier == 1 then tier else 2
  }

  function Check(tool: string, givenTier: int, skill: Skill): Verdict {
    var tier := NormalizeTier(givenTier);
    var kind := skill.classify(tool);
    var reversible := skill.reversible(tool);
    if skill.denied(tool) then
      Verdict(false, if kind != Unknown then kind else Destructive, tier, DenyList, reversible, false)
    else if skill.generic(tool) && !skill.allowsGeneric(tool) then
      if tier == 1 then Verdict(true, GenericExecution, tier, GenericNeedsApproval, reversible, true)
      else Verdict(false, GenericExecution, tier,
                   if tier == 2 then GenericAdvisory else GenericAtTier0, reversible, false)
    else
      match skill.policy(tool, tier)
      case None => Verdict(false, kind, tier, NoPolicy, reversible, false)
      case Some(policy) =>
        if !policy.enabled || policy.mode == Blocked || policy.mode == Advisory then
          Verdict(false, kind, tier, if policy.mode == Advisory then PolicyAdvises else PolicyBlocks, reversible, false)
        else
          var asks := policy.mode == Approval;
          var violation := skill.floorViolation(tool);
          if tier == 0 && violation.Some? then
            Verdict(false, kind, tier, BelowFloor(violation.value), reversible, asks)
          else
            Verdict(true, kind, tier, if asks then PolicyAsks else PolicyRuns, reversible, asks)
  }

  /** Checking again at the tier of the result changes nothing: the executor's own
      check agrees with the one before it. */
  lemma CheckIsStable(tool: string, tier: int, skill: Skill)
    ensures Check(tool, Check(tool, tier, skill).tier, skill) == Check(tool, tier, skill)
  {
    assert NormalizeTier(NormalizeTier(tier)) == NormalizeTier(tier);
  }

  // ------------------------------------------------------------ what the planner is shown

  datatype Mark = Runs | NeedsApproval | IsBlocked

  function GateMark(tool: string, tier: int, skill: Skill, canAsk: bool): Mark {
    var v := Check(tool, tier, skill);
    if !v.permitted || (v.requiresApproval && !canAsk) then IsBlocked
    else if v.requiresApproval then NeedsApproval
    else Runs
  }
}
