/** The execute node behind the gate: which actions of a plan reach a server. */
module TierExecute {
  import opened Wrappers
  import opened Json
  import opened TierPolicy
  import opened ToolAudit
  import opened TierGate

  datatype Record = Record(
    tool: string, params: Value, kind: Class, permitted: bool, output: Option<Reply>, error: Option<string>)

  function RecordOf(g: Granted, tier: int, skill: Skill, reply: Reply): Record {
    var r := CallResult(CheckedName(g.action), tier, skill, reply);
    Record(CheckedName(g.action), g.action.params, r.verdict.classification, r.permitted, r.output, r.error)
  }

  /** The first `n` lists, one after another. */
  function FlattenTo<T>(xss: seq<seq<T>>, n: nat): seq<T>
    requires n <= |xss|
  {
    if n == 0 then [] else FlattenTo(xss, n - 1) + xss[n - 1]
  }

  lemma {:induction false} FlattenPrefix<T>(xss: seq<seq<T>>, yss: seq<seq<T>>, n: nat)
    requires n <= |xss|
    ensures FlattenTo(xss + yss, n) == FlattenTo(xss, n)
  {
    if n > 0 {
      FlattenPrefix(xss, yss, n - 1);
    }
  }

  function EventsOf(g: Granted, tier: int, skill: Skill, reply: Reply): seq<Event> {
    CallEvents(CheckedName(g.action), g.action.params, tier, skill, reply)
  }

  function CallBlocks(gs: seq<Granted>, tier: int, skill: Skill, replies: nat -> Reply): seq<seq<Event>> {
    seq(|gs|, i requires 0 <= i < |gs| => EventsOf(gs[i], tier, skill, replies(i)))
  }

  function Executed(gs: seq<Granted>, tier: int, skill: Skill, replies: nat -> Reply): seq<Event> {
    FlattenTo(CallBlocks(gs, tier, skill, replies), |gs|)
  }

  function Records(gs: seq<Granted>, tier: int, skill: Skill, replies: nat -> Reply): seq<Record> {
    seq(|gs|, i requires 0 <= i < |gs| => RecordOf(gs[i], tier, skill, replies(i)))
  }

  predicate LeadsAt(
    gs: seq<Granted>, tier: int, skill: Skill, replies: nat -> Reply, blocks: seq<seq<Event>>,
    records: seq<Record>, i: nat)
    requires |gs| == |blocks| == |records|
  {
    i < |gs| ==>
      blocks[i] == EventsOf(gs[i], tier, skill, replies(i)) && records[i] == RecordOf(gs[i], tier, skill, replies(i))
  }

  ghost predicate AllLead(
    gs: seq<Granted>, tier: int, skill: Skill, replies: nat -> Reply, blocks: seq<seq<Event>>, records: seq<Record>)
  {
    && |gs| == |blocks| == |records|
    && forall i: nat | i < |gs| :: LeadsAt(gs, tier, skill, replies, blocks, records, i)
  }

  lemma LeadingTo(gs: seq<Granted>, tier: int, skill: Skill, replies: nat -> Reply)
    returns (blocks: seq<seq<Event>>, records: seq<Record>)
    ensures AllLead(gs, tier, skill, replies, blocks, records)
    ensures FlattenTo(blocks, |blocks|) == Executed(gs, tier, skill, replies)
      && records == Records(gs, tier, skill, replies)
  {
    blocks, records := CallBlocks(gs, tier, skill, replies), Records(gs, tier, skill, replies);
  }

  method ExecuteOne(gs: seq<Granted>, i: nat, tier: int, skill: Skill, replies: nat -> Reply, trail: Trail,
                    ghost blocks: seq<seq<Event>>, ghost all: seq<Record>) returns (record: Record)
    requires i < |gs| && AllLead(gs, tier, skill, replies, blocks, all)
    modifies trail
    ensures trail.events == old(trail.events) + blocks[i] && record == all[i]
  {
    assert LeadsAt(gs, tier, skill, replies, blocks, all, i);
    var tool, params := CheckedName(gs[i].action), gs[i].action.params;
    var r := AuditedToolCall(trail, tool, params, tier, skill, replies(i));
    record := Record(tool, params, r.verdict.classification, r.permitted, r.output, r.error);
  }

  method ExecuteAll(gs: seq<Granted>, tier: int, skill: Skill, replies: nat -> Reply, trail: Trail,
                    ghost blocks: seq<seq<Event>>, ghost all: seq<Record>) returns (records: seq<Record>)
    requires AllLead(gs, tier, skill, replies, blocks, all)
    modifies trail
    ensures trail.events == old(trail.events) + FlattenTo(blocks, |blocks|) && records == all
  {
    records := [];
    for i := 0 to |gs|
      invariant trail.events == old(trail.events) + FlattenTo(blocks, i)
      invariant records == all[..i]
    {
      assert all[..i + 1] == all[..i] + [all[i]];
      Assoc(old(trail.events), FlattenTo(blocks, i), blocks[i]);
      var record := ExecuteOne(gs, i, tier, skill, replies, trail, blocks, all);
      records := records + [record];
    }
  }

  /** The tools of the granted actions are called in order, each under a check of its
      own at the session's tier. */
  method Execute(gs: seq<Granted>, tier: int, skill: Skill, replies: nat -> Reply, trail: Trail)
    returns (records: seq<Record>)
    modifies trail
    ensures trail.events == old(trail.events) + Executed(gs, tier, skill, replies)
    ensures records == Records(gs, tier, skill, replies)
  {
    ghost var blocks, all := LeadingTo(gs, tier, skill, replies);
    records := ExecuteAll(gs, tier, skill, replies, trail, blocks, all);
  }

  /** The call a granted action leads to, if the executor's own check lets it through. */
  function CallOf(g: Granted, tier: int, skill: Skill): seq<(string, Value)> {
    if Check(CheckedName(g.action), tier, skill).permitted then [(CheckedName(g.action), g.action.params)] else []
  }

  function CallLists(gs: seq<Granted>, tier: int, skill: Skill): seq<seq<(string, Value)>> {
    seq(|gs|, i requires 0 <= i < |gs| => CallOf(gs[i], tier, skill))
  }

  lemma {:induction false} CallsOfFlatten(blocks: seq<seq<Event>>, lists: seq<seq<(string, Value)>>, n: nat)
    requires n <= |blocks| == |lists| && forall i | 0 <= i < n :: CallsOf(blocks[i]) == lists[i]
    ensures CallsOf(FlattenTo(blocks, n)) == FlattenTo(lists, n)
  {
    if n > 0 {
      CallsOfFlatten(blocks, lists, n - 1);
      CallsOfCat(FlattenTo(blocks, n - 1), blocks[n - 1]);
    }
  }

  lemma {:induction false} LoggedFlatten(tier: int, skill: Skill, blocks: seq<seq<Event>>, n: nat)
    requires n <= |blocks| && forall i | 0 <= i < n :: Logged(tier, skill, blocks[i])
    ensures Logged(tier, skill, FlattenTo(blocks, n))
  {
    if n > 0 {
      LoggedFlatten(tier, skill, blocks, n - 1);
      LoggedCat(tier, skill, FlattenTo(blocks, n - 1), blocks[n - 1]);
    }
  }

  lemma ExecuteCalls(gs: seq<Granted>, tier: int, skill: Skill, replies: nat -> Reply)
    ensures CallsOf(Executed(gs, tier, skill, replies)) == FlattenTo(CallLists(gs, tier, skill), |gs|)
    ensures Logged(tier, skill, Executed(gs, tier, skill, replies))
  {
    var blocks, lists := CallBlocks(gs, tier, skill, replies), CallLists(gs, tier, skill);
    forall i | 0 <= i < |gs| ensures CallsOf(blocks[i]) == lists[i] && Logged(tier, skill, blocks[i]) {
      CallsOfCall(CheckedName(gs[i].action), gs[i].action.params, tier, skill, replies(i));
      CallIsLogged(CheckedName(gs[i].action), gs[i].action.params, tier, skill, replies(i));
    }
    CallsOfFlatten(blocks, lists, |gs|);
    LoggedFlatten(tier, skill, blocks, |gs|);
  }

  lemma {:induction false} RefusalsAreLogged(tier: int, skill: Skill, rs: seq<Refusal>)
    ensures Logged(tier, skill, RefusalEvents(rs)) && CallsOf(RefusalEvents(rs)) == []
    decreases |rs|
  {
    if rs != [] {
      var last := [RefusalEvent(rs[|rs| - 1])];
      RefusalsAreLogged(tier, skill, rs[..|rs| - 1]);
      assert last[1..] == [];
      LoggedCat(tier, skill, RefusalEvents(rs[..|rs| - 1]), last);
      CallsOfCat(RefusalEvents(rs[..|rs| - 1]), last);
    }
  }

  // ------------------------------------------------------------ nothing lost, nothing twice

  /** Two lists woven together: `mask` says which of them each place is taken from. */
  function Weave(mask: seq<bool>, xs: seq<Action>, ys: seq<Action>): seq<Action>
    decreases |mask|
  {
    if mask == [] then []
    else
      var n := |mask| - 1;
      if mask[n] then if xs == [] then [] else Weave(mask[..n], xs[..|xs| - 1], ys) + [xs[|xs| - 1]]
      else if ys == [] then [] else Weave(mask[..n], xs, ys[..|ys| - 1]) + [ys[|ys| - 1]]
  }

  function ActionsGranted(gs: seq<Granted>): seq<Action> { seq(|gs|, i requires 0 <= i < |gs| => gs[i].action) }

  function ActionsRefused(rs: seq<Refusal>): seq<Action> { seq(|rs|, i requires 0 <= i < |rs| => rs[i].action) }

  lemma WeaveLeft(mask: seq<bool>, xs: seq<Action>, ys: seq<Action>, x: Action)
    ensures Weave(mask + [true], xs + [x], ys) == Weave(mask, xs, ys) + [x]
  {
    assert (mask + [true])[..|mask|] == mask && (xs + [x])[..|xs|] == xs;
  }

  lemma WeaveRight(mask: seq<bool>, xs: seq<Action>, ys: seq<Action>, y: Action)
    ensures Weave(mask + [false], xs, ys + [y]) == Weave(mask, xs, ys) + [y]
  {
    assert (mask + [false])[..|mask|] == mask && (ys + [y])[..|ys|] == ys;
  }

  lemma FateKeepsAction(p: Pass, i: nat)
    requires i < |p.plan|
    ensures var fate := FateAt(p, i);
      && (fate.Grant? ==> fate.granted.action == p.plan[i])
      && (fate.Refuse? ==> fate.refusal.action == p.plan[i])
  {
  }

  function MaskTo(os: seq<Outcome>, n: nat): (mask: seq<bool>)
    requires n <= |os|
    ensures |mask| == n && forall i | 0 <= i < n :: mask[i] == os[i].fate.Grant?
  {
    seq(n, i requires 0 <= i < n => os[i].fate.Grant?)
  }

  lemma ActionsGrantedSnoc(gs: seq<Granted>, g: Granted)
    ensures ActionsGranted(gs + [g]) == ActionsGranted(gs) + [g.action]
  {
  }

  lemma ActionsRefusedSnoc(rs: seq<Refusal>, r: Refusal)
    ensures ActionsRefused(rs + [r]) == ActionsRefused(rs) + [r.action]
  {
  }

  /** The outcomes woven together up to `n`. */
  function Woven(os: seq<Outcome>, n: nat): seq<Action>
    requires n <= |os|
  {
    Weave(MaskTo(os, n), ActionsGranted(GrantedTo(os, n)), ActionsRefused(RefusedTo(os, n)))
  }

  lemma WovenSnoc(os: seq<Outcome>, n: nat, a: Action)
    requires n < |os| && KeepsAction(os[n].fate, a)
    ensures Woven(os, n + 1) == Woven(os, n) + [a]
  {
    var mask, gs, rs := MaskTo(os, n), GrantedTo(os, n), RefusedTo(os, n);
    if os[n].fate.Grant? {
      assert MaskTo(os, n + 1) == mask + [true];
      WeaveLeft(mask, ActionsGranted(gs), ActionsRefused(rs), a);
      assert RefusedTo(os, n + 1) == rs;
      ActionsGrantedSnoc(gs, os[n].fate.granted);
    } else {
      assert MaskTo(os, n + 1) == mask + [false];
      assert GrantedTo(os, n + 1) == gs;
      WeaveRight(mask, ActionsGranted(gs), ActionsRefused(rs), a);
      ActionsRefusedSnoc(rs, os[n].fate.refusal);
    }
  }

  lemma {:induction false} PassWeaves(plan: seq<Action>, os: seq<Outcome>, n: nat)
    requires n <= |os| == |plan|
    requires forall k | 0 <= k < n :: KeepsAction(os[k].fate, plan[k])
    ensures Woven(os, n) == plan[..n]
  {
    if n > 0 {
      PassWeaves(plan, os, n - 1);
      assert KeepsAction(os[n - 1].fate, plan[n - 1]);
      WovenSnoc(os, n - 1, plan[n - 1]);
      assert plan[..n] == plan[..n - 1] + [plan[n - 1]];
    } else {
      assert Woven(os, 0) == [] == plan[..0];
    }
  }

  lemma {:induction false} PassCounts(os: seq<Outcome>, n: nat)
    requires n <= |os| && forall k | 0 <= k < n :: !os[k].fate.Redirect?
    ensures |GrantedTo(os, n)| + |RefusedTo(os, n)| == n
  {
    if n > 0 {
      PassCounts(os, n - 1);
    }
  }

  lemma PassSplits(plan: seq<Action>, os: seq<Outcome>, n: nat)
    requires n <= |os| == |plan|
    requires forall k | 0 <= k < n :: KeepsAction(os[k].fate, plan[k])
    ensures Woven(os, n) == plan[..n]
    ensures |GrantedTo(os, n)| + |RefusedTo(os, n)| == n
  {
    PassWeaves(plan, os, n);
    PassCounts(os, n);
  }

  predicate KeepsAction(fate: Fate, a: Action) {
    match fate
    case Grant(g) => g.action == a
    case Refuse(r) => r.action == a
    case Redirect(_) => false
  }

  /** A pass that is not redirected splits the plan: every action once, in order,
      either granted or refused. A redirected one leaves nothing to execute. */
  lemma PassKeepsPlan(p: Pass, strip: string -> string, end: Ending)
    ensures var u, mask := Passed(p, strip, end), MaskTo(Outcomes(p), |p.plan|);
      && u.redirect == IsRedirected(p)
      && (u.redirect ==> u.granted == [] && u.refused == [] && u.redirects == p.redirects + 1)
      && (!u.redirect ==>
            && Weave(mask, ActionsGranted(u.granted), ActionsRefused(u.refused)) == p.plan
            && |u.granted| + |u.refused| == |p.plan|
            && u.redirects == p.redirects)
  {
    var os := Outcomes(p);
    if !IsRedirected(p) {
      forall k | 0 <= k < |os| ensures KeepsAction(os[k].fate, p.plan[k]) {
        FateKeepsAction(p, k);
      }
      PassSplits(p.plan, os, |p.plan|);
      assert p.plan[..|p.plan|] == p.plan;
    }
  }

  predicate LastExpiry(os: seq<Outcome>, n: nat, i: int)
    requires n <= |os|
  {
    0 <= i < n && os[i].expiry.Some? && forall k | i < k < n :: os[k].expiry.None?
  }

  predicate EndsAt(os: seq<Outcome>, n: nat, i: int, end: Ending)
    requires n <= |os|
  {
    LastExpiry(os, n, i) && os[i].expiry == Some(end)
  }

  lemma {:induction false} RequestsAreMade(os: seq<Outcome>, n: nat, r: Request)
    requires n <= |os|
    ensures r in RequestsTo(os, n) <==> exists i | 0 <= i < n :: os[i].made == Some(r)
  {
    if n > 0 {
      RequestsAreMade(os, n - 1, r);
    }
  }

  lemma {:induction false} EndIsLastExpiry(os: seq<Outcome>, n: nat, end: Ending) returns (i: int)
    requires n <= |os|
    ensures if i < 0 then EndTo(os, n, end) == end && (forall k | 0 <= k < n :: os[k].expiry.None?)
            else EndsAt(os, n, i, EndTo(os, n, end))
  {
    i := -1;
    if n > 0 {
      i := EndIsLastExpiry(os, n - 1, end);
      if os[n - 1].expiry.Some? {
        i := n - 1;
      }
    }
  }

  /** The requests a pass leaves are those its actions made, in order; and an expiry,
      the last one if there are several, ends the session. */
  lemma PassTellsRequests(os: seq<Outcome>, n: nat, end: Ending)
    requires n <= |os|
    ensures forall r :: r in RequestsTo(os, n) <==> exists i | 0 <= i < n :: os[i].made == Some(r)
    ensures if forall k | 0 <= k < n :: os[k].expiry.None? then EndTo(os, n, end) == end
            else exists i :: EndsAt(os, n, i, EndTo(os, n, end))
  {
    forall r ensures r in RequestsTo(os, n) <==> exists i | 0 <= i < n :: os[i].made == Some(r) {
      RequestsAreMade(os, n, r);
    }
    var i := EndIsLastExpiry(os, n, end);
  }

  // ------------------------------------------------------------ what the marks promise

  function MarkAt(p: Pass, i: nat): Mark
    requires i < |p.plan|
  {
    GateMark(CheckedName(p.plan[i]), p.tier, p.skill, p.gate == Asking)
  }

  predicate IsApproved(a: Answer) { a.Resolved? && a.status == Approved }

  /** What the planner was told of action `i`: it runs, or runs once approved, or never. */
  predicate PromisedAt(p: Pass, i: nat)
    requires i < |p.plan|
  {
    match MarkAt(p, i)
    case Runs => true
    case NeedsApproval => IsApproved(p.answers(i))
    case IsBlocked => false
  }

  function Promises(p: Pass): seq<seq<(string, Value)>> {
    seq(|p.plan|, i requires 0 <= i < |p.plan| =>
      if PromisedAt(p, i) then [(CheckedName(p.plan[i]), p.plan[i].params)] else [])
  }

  /** A tool marked as running is granted and nobody is asked; one that waits is
      granted exactly when approved, with that request; a blocked one never passes
      both the gate and the executor's check. */
  lemma MarkTells(p: Pass, i: nat)
    requires p.gate != NoRun && i < |p.plan|
    ensures var fate, permitted := FateAt(p, i), Check(CheckedName(p.plan[i]), p.tier, p.skill).permitted;
      match MarkAt(p, i) {
        case Runs => fate == Grant(Granted(p.plan[i], None)) && permitted && OutcomeAt(p, i).made.None?
        case NeedsApproval =>
          permitted && if IsApproved(p.answers(i)) then fate == Grant(Granted(p.plan[i], Some(p.answers(i).id)))
            else !fate.Grant?
        case IsBlocked => !fate.Grant? || !permitted
      }
  {
  }

  function CallAfter(o: Outcome, tier: int, skill: Skill): seq<(string, Value)> {
    if o.fate.Grant? then CallOf(o.fate.granted, tier, skill) else []
  }

  lemma CallIsPromised(p: Pass, i: nat)
    requires p.gate != NoRun && i < |p.plan|
    ensures CallAfter(OutcomeAt(p, i), p.tier, p.skill) == Promises(p)[i]
  {
    MarkTells(p, i);
    FateKeepsAction(p, i);
  }

  lemma CallListsSnoc(gs: seq<Granted>, g: Granted, tier: int, skill: Skill)
    ensures CallLists(gs + [g], tier, skill) == CallLists(gs, tier, skill) + [CallOf(g, tier, skill)]
  {
  }

  lemma CallsSnoc(gs: seq<Granted>, g: Granted, tier: int, skill: Skill)
    ensures FlattenTo(CallLists(gs + [g], tier, skill), |gs| + 1) ==
            FlattenTo(CallLists(gs, tier, skill), |gs|) + CallOf(g, tier, skill)
  {
    CallListsSnoc(gs, g, tier, skill);
    FlattenPrefix(CallLists(gs, tier, skill), [CallOf(g, tier, skill)], |gs|);
  }

  function GrantedCalls(os: seq<Outcome>, n: nat, tier: int, skill: Skill): seq<(string, Value)>
    requires n <= |os|
  {
    FlattenTo(CallLists(GrantedTo(os, n), tier, skill), |GrantedTo(os, n)|)
  }

  lemma GrantCalls(os: seq<Outcome>, tier: int, skill: Skill, n: nat)
    requires n < |os|
    ensures GrantedCalls(os, n + 1, tier, skill) == GrantedCalls(os, n, tier, skill) + CallAfter(os[n], tier, skill)
  {
    if os[n].fate.Grant? {
      CallsSnoc(GrantedTo(os, n), os[n].fate.granted, tier, skill);
    } else {
      assert GrantedTo(os, n + 1) == GrantedTo(os, n);
    }
  }

  ghost predicate Adds<T>(made: nat -> seq<T>, lists: seq<seq<T>>, i: nat)
    requires i < |lists|
  {
    made(i + 1) == made(i) + lists[i]
  }

  lemma {:induction false} FlattenIs<T>(made: nat -> seq<T>, lists: seq<seq<T>>, n: nat)
    requires n <= |lists| && made(0) == [] && forall i | 0 <= i < n :: Adds(made, lists, i)
    ensures made(n) == FlattenTo(lists, n)
  {
    if n > 0 {
      FlattenIs(made, lists, n - 1);
      assert Adds(made, lists, n - 1);
    }
  }

  /** Gate and executor together do exactly what the marks said, in a pass that is not
      redirected and executed at the tier it was gated at. */
  lemma MarksAgree(p: Pass, strip: string -> string, end: Ending, replies: nat -> Reply)
    requires p.gate != NoRun && !IsRedirected(p)
    ensures CallsOf(Executed(Passed(p, strip, end).granted, p.tier, p.skill, replies)) ==
      FlattenTo(Promises(p), |p.plan|)
  {
    var os := Outcomes(p);
    var made := (n: nat) => if n <= |os| then GrantedCalls(os, n, p.tier, p.skill) else [];
    forall i | 0 <= i < |os| ensures Adds(made, Promises(p), i) {
      CallIsPromised(p, i);
      GrantCalls(os, p.tier, p.skill, i);
    }
    FlattenIs(made, Promises(p), |os|);
    ExecuteCalls(GrantedTo(os, |os|), p.tier, p.skill, replies);
  }

  // ------------------------------------------------------------ authority

  /** An action of this pass's plan that the policy permits, and if the policy asks, one
      whose own request of this pass was approved. */
  ghost predicate Authorised(p: Pass, g: Granted) {
    exists i: nat | i < |p.plan| ::
      && g.action == p.plan[i]
      && (if g.request.Some? then IsApproved(p.answers(i)) && p.answers(i).id == g.request.value
          else !VerdictAt(p, i).requiresApproval && VerdictAt(p, i).permitted)
  }

  lemma {:induction false} GrantsAreAuthorised(p: Pass, os: seq<Outcome>, n: nat, k: nat)
    requires os == Outcomes(p) && n <= |os| && k < |GrantedTo(os, n)|
    ensures Authorised(p, GrantedTo(os, n)[k])
  {
    if k < |GrantedTo(os, n - 1)| {
      GrantsAreAuthorised(p, os, n - 1, k);
    } else {
      GrantIsAuthorised(p, n - 1);
    }
  }

  lemma GrantIsAuthorised(p: Pass, i: nat)
    requires i < |p.plan| && FateAt(p, i).Grant?
    ensures Authorised(p, FateAt(p, i).granted)
  {
    var g := FateAt(p, i).granted;
    assert g.action == p.plan[i];
    if g.request.Some? {
      assert IsApproved(p.answers(i)) && p.answers(i).id == g.request.value;
    } else {
      assert !VerdictAt(p, i).requiresApproval && VerdictAt(p, i).permitted;
    }
  }
}
