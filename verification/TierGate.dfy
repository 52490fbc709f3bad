/** The tier gate's three forms, and the execute node behind it. */
module TierGate {
  import opened Wrappers
  import opened Json
  import opened TierPolicy
  import opened ToolAudit

  /** How often one session may be redirected. */
  const MAX_TIER1_REDIRECTS: nat := 15

  /** A proposed action; an action without a name is checked as no name. */
  datatype Action = Action(tool: Option<string>, params: Value)

  function CheckedName(a: Action): string { if a.tool.Some? then a.tool.value else "" }

  datatype Status = Pending | Approved | Rejected | Expired | Redirected

  datatype Answer =
    | NotAsked(text: string)
    | Resolved(id: nat, status: Status, guidance: string, why: Option<string>)

  /** No executor or no gated plan; no approval service; an approval service. */
  datatype Gate = NoRun | Plain | Asking

  /** One pass: the plan, and the answer each action's request would get. */
  datatype Pass = Pass(
    gate: Gate, tier: int, skill: Skill, redirects: nat, plan: seq<Action>, answers: nat -> Answer)

  datatype Granted = Granted(action: Action, request: Option<nat>)

  datatype Refusal = Refusal(action: Action, why: BlockReason, kind: Class, request: Option<nat>)

  datatype Request = Request(id: nat, status: Status)

  datatype Fate = Grant(granted: Granted) | Refuse(refusal: Refusal) | Redirect(guidance: string)

  function VerdictAt(p: Pass, i: nat): Verdict
    requires i < |p.plan|
  {
    Check(CheckedName(p.plan[i]), p.tier, p.skill)
  }

  /** Whether a person is asked about action `i`. */
  predicate AskedAt(p: Pass, i: nat)
    requires i < |p.plan|
  {
    p.gate == Asking && VerdictAt(p, i).requiresApproval && p.answers(i).Resolved?
  }

  function WhyNot(status: Status): BlockReason {
    if status == Rejected then RejectedByHuman else if status == Expired then TimedOut else ByTier
  }

  /** What the policy and the answers make of action `i`. */
  function FateAt(p: Pass, i: nat): Fate
    requires i < |p.plan|
  {
    var a, v := p.plan[i], VerdictAt(p, i);
    match p.gate
    case NoRun => Refuse(Refusal(a, if v.permitted then NoExecutor else ByPolicy(v.reason), v.classification, None))
    case Plain =>
      if v.requiresApproval then Refuse(Refusal(a, NoService(v.classification), v.classification, None))
      else if v.permitted then Grant(Granted(a, None))
      else Refuse(Refusal(a, ByPolicy(v.reason), v.classification, None))
    case Asking =>
      if !v.requiresApproval then
        if v.permitted then Grant(Granted(a, None))
        else Refuse(Refusal(a, ByPolicy(v.reason), v.classification, None))
      else match p.answers(i)
        case NotAsked(text) => Refuse(Refusal(a, Unasked(text), v.classification, None))
        case Resolved(id, status, guidance, why) =>
          if status == Approved then Grant(Granted(a, Some(id)))
          else if status == Redirected && p.redirects < MAX_TIER1_REDIRECTS then Redirect(guidance)
          else
            var reason :=
              if status == Redirected then RedirectsSpent else if why.Some? then Told(why.value) else WhyNot(status);
            Refuse(Refusal(a, reason, v.classification, Some(id)))
  }

  datatype Ending = Ending(status: string, error: Option<string>)

  /** An action's fate, the request it made, and the ending its expiry brings. */
  datatype Outcome = Outcome(fate: Fate, made: Option<Request>, expiry: Option<Ending>)

  function OutcomeAt(p: Pass, i: nat): Outcome
    requires i < |p.plan|
  {
    if !AskedAt(p, i) then Outcome(FateAt(p, i), None, None)
    else
      var r := p.answers(i);
      Outcome(FateAt(p, i), Some(Request(r.id, r.status)),
              if r.status == Expired then Some(Ending("timed_out", r.why)) else None)
  }

  function Outcomes(p: Pass): seq<Outcome> { seq(|p.plan|, i requires 0 <= i < |p.plan| => OutcomeAt(p, i)) }

  /** How many actions a pass looks at: all of them, or those before the first
      redirect. */
  function Reached(os: seq<Outcome>, i: nat): (n: nat)
    requires i <= |os|
    ensures i <= n <= |os|
    ensures forall k | i <= k < n :: !os[k].fate.Redirect?
    ensures n < |os| ==> os[n].fate.Redirect?
    decreases |os| - i
  {
    if i == |os| || os[i].fate.Redirect? then i else Reached(os, i + 1)
  }

  // What the first `n` outcomes leave.

  function GrantedTo(os: seq<Outcome>, n: nat): seq<Granted>
    requires n <= |os|
  {
    if n == 0 then []
    else GrantedTo(os, n - 1) + if os[n - 1].fate.Grant? then [os[n - 1].fate.granted] else []
  }

  function RefusedTo(os: seq<Outcome>, n: nat): seq<Refusal>
    requires n <= |os|
  {
    if n == 0 then []
    else RefusedTo(os, n - 1) + if os[n - 1].fate.Refuse? then [os[n - 1].fate.refusal] else []
  }

  function RequestsTo(os: seq<Outcome>, n: nat): seq<Request>
    requires n <= |os|
  {
    if n == 0 then []
    else RequestsTo(os, n - 1) + if os[n - 1].made.Some? then [os[n - 1].made.value] else []
  }

  /** An expired request times the session out; the last to expire gives the reason. */
  function EndTo(os: seq<Outcome>, n: nat, end: Ending): Ending
    requires n <= |os|
  {
    if n == 0 then end
    else if os[n - 1].expiry.Some? then os[n - 1].expiry.value
    else EndTo(os, n - 1, end)
  }

  datatype Update = Update(
    granted: seq<Granted>,
    refused: seq<Refusal>,
    requests: seq<Request>,
    redirect: bool,
    redirects: nat,
    guidance: Option<string>,
    end: Ending)

  /** What a pass is to leave in the session's state. */
  function Left(os: seq<Outcome>, redirects: nat, strip: string -> string, end: Ending): Update {
    var n := Reached(os, 0);
    if n == |os|
      then Update(GrantedTo(os, n), RefusedTo(os, n), RequestsTo(os, n), false, redirects, None, EndTo(os, n, end))
    else
      var guidance := strip(os[n].fate.guidance);
      Update([], [], RequestsTo(os, n + 1), true, redirects + 1,
             if guidance == "" then None else Some(guidance), EndTo(os, n, end))
  }

  function Passed(p: Pass, strip: string -> string, end: Ending): Update { Left(Outcomes(p), p.redirects, strip, end) }

  predicate IsRedirected(p: Pass) { Reached(Outcomes(p), 0) < |p.plan| }

  // ------------------------------------------------------------ the audit of refusals

  function Storable(s: string): string {
    if s == "" then "" else (if s[0] == '\0' then "" else [s[0]]) + Storable(s[1..])
  }

  /** A name fit for the log's row. */
  function AuditName(a: Action): string {
    var name := Storable(CheckedName(a));
    if name == "" then "unknown" else if |name| > 200 then name[..200] else name
  }

  function RefusalEvent(r: Refusal): Event { Event.Refused(AuditName(r.action), r.action.params, r.why, r.kind) }

  function RefusalEvents(rs: seq<Refusal>): seq<Event> {
    if rs == [] then [] else RefusalEvents(rs[..|rs| - 1]) + [RefusalEvent(rs[|rs| - 1])]
  }

  lemma RefusalEventsSnoc(rs: seq<Refusal>, r: Refusal)
    ensures RefusalEvents(rs + [r]) == RefusalEvents(rs) + [RefusalEvent(r)]
  {
    assert (rs + [r])[..|rs|] == rs;
  }

  // ------------------------------------------------------------ the gates

  ghost predicate Gives(p: Pass, os: seq<Outcome>) {
    |os| == |p.plan| && forall i: nat | i < |p.plan| :: GivesAt(p, os, i)
  }

  predicate GivesAt(p: Pass, os: seq<Outcome>, i: nat)
    requires |os| == |p.plan|
  {
    i < |p.plan| ==> os[i] == OutcomeAt(p, i)
  }

  lemma OutcomesOf(p: Pass) returns (os: seq<Outcome>)
    ensures Gives(p, os) && os == Outcomes(p)
  {
    os := Outcomes(p);
  }

  /** The gate of a session in which nothing proposed can run: it asks nobody. */
  method NoRunGate(p: Pass, ghost os: seq<Outcome>) returns (refused: seq<Refusal>)
    requires p.gate == NoRun && Gives(p, os)
    ensures refused == RefusedTo(os, |os|)
    ensures forall i | 0 <= i < |os| :: os[i].fate.Refuse? && os[i].made.None? && os[i].expiry.None?
  {
    refused := [];
    for i := 0 to |p.plan|
      invariant refused == RefusedTo(os, i)
      invariant forall k | 0 <= k < i :: os[k].fate.Refuse? && os[k].made.None? && os[k].expiry.None?
    {
      assert GivesAt(p, os, i);
      var v := Check(CheckedName(p.plan[i]), p.tier, p.skill);
      var why := if v.permitted then NoExecutor else ByPolicy(v.reason);
      refused := refused + [Refusal(p.plan[i], why, v.classification, None)];
    }
  }

  /** The gate of a session without an approval service. */
  method PlainGate(p: Pass, ghost os: seq<Outcome>) returns (granted: seq<Granted>, refused: seq<Refusal>)
    requires p.gate == Plain && Gives(p, os)
    ensures granted == GrantedTo(os, |os|) && refused == RefusedTo(os, |os|)
    ensures forall i | 0 <= i < |os| :: !os[i].fate.Redirect? && os[i].made.None? && os[i].expiry.None?
  {
    granted, refused := [], [];
    for i := 0 to |p.plan|
      invariant granted == GrantedTo(os, i) && refused == RefusedTo(os, i)
      invariant forall k | 0 <= k < i :: !os[k].fate.Redirect? && os[k].made.None? && os[k].expiry.None?
    {
      assert GivesAt(p, os, i);
      var a := p.plan[i];
      var v := Check(CheckedName(a), p.tier, p.skill);
      if v.requiresApproval {
        refused := refused + [Refusal(a, NoService(v.classification), v.classification, None)];
      } else if v.permitted {
        granted := granted + [Granted(a, None)];
      } else {
        refused := refused + [Refusal(a, ByPolicy(v.reason), v.classification, None)];
      }
    }
  }

  /** These two gates' refusals are audited once the pass is over. */
  method AuditAll(refused: seq<Refusal>, trail: Trail?)
    modifies trail
    ensures trail != null ==> trail.events == old(trail.events) + RefusalEvents(refused)
  {
    if trail != null {
      for i := 0 to |refused|
        invariant trail.events == old(trail.events) + RefusalEvents(refused[..i])
      {
        RefusalEventsSnoc(refused[..i], refused[i]);
        assert refused[..i + 1] == refused[..i] + [refused[i]];
        trail.Add(RefusalEvent(refused[i]));
      }
      assert refused[..|refused|] == refused;
    }
  }

  /** One action of a session with an approval service. */
  method Judge(p: Pass, i: nat, ghost os: seq<Outcome>) returns (o: Outcome)
    requires p.gate == Asking && i < |p.plan| && Gives(p, os)
    ensures o == os[i]
  {
    assert GivesAt(p, os, i);
    var a := p.plan[i];
    var v := Check(CheckedName(a), p.tier, p.skill);
    if !v.requiresApproval {
      var fate := if v.permitted then Grant(Granted(a, None))
        else Refuse(Refusal(a, ByPolicy(v.reason), v.classification, None));
      return Outcome(fate, None, None);
    }
    match p.answers(i) {
      case NotAsked(text) => return Outcome(Refuse(Refusal(a, Unasked(text), v.classification, None)), None, None);
      case Resolved(id, status, guidance, why) =>
        var made := Some(Request(id, status));
        if status == Approved {
          return Outcome(Grant(Granted(a, Some(id))), made, None);
        }
        if status == Redirected && p.redirects < MAX_TIER1_REDIRECTS {
          return Outcome(Redirect(guidance), made, None);
        }
        var reason := if why.Some? then Told(why.value) else WhyNot(status);
        if status == Redirected {
          reason := RedirectsSpent;
        }
        var expiry := if status == Expired then Some(Ending("timed_out", why)) else None;
        return Outcome(Refuse(Refusal(a, reason, v.classification, Some(id))), made, expiry);
    }
  }

  method Refusing(refused: seq<Refusal>, r: Refusal, trail: Trail?) returns (more: seq<Refusal>)
    modifies trail
    ensures more == refused + [r]
    ensures trail != null ==> trail.events == old(trail.events) + [RefusalEvent(r)]
    ensures RefusalEvents(more) == RefusalEvents(refused) + [RefusalEvent(r)]
  {
    more := refused + [r];
    RefusalEventsSnoc(refused, r);
    if trail != null {
      trail.Add(RefusalEvent(r));
    }
  }

  /** The gate that asks: it stops at the first redirect, and audits each refusal as
      it happens, so that a redirect after it loses none. */
  method AskingGate(p: Pass, strip: string -> string, end: Ending, trail: Trail?, ghost os: seq<Outcome>)
    returns (update: Update)
    requires p.gate == Asking && Gives(p, os)
    modifies trail
    ensures update == Left(os, p.redirects, strip, end)
    ensures trail != null ==> trail.events == old(trail.events) + RefusalEvents(RefusedTo(os, Reached(os, 0)))
  {
    var granted: seq<Granted>, refused: seq<Refusal>, requests: seq<Request> := [], [], [];
    var ending := end;
    for i := 0 to |p.plan|
      invariant Gathered(os, i, granted, refused, requests, ending, end)
      invariant trail != null ==> trail.events == old(trail.events) + RefusalEvents(refused)
    {
      var o := Judge(p, i, os);
      GatheredNext(os, i, granted, refused, requests, ending, end);
      requests := requests + if o.made.Some? then [o.made.value] else [];
      match o.fate {
        case Grant(g) => granted := granted + [g];
        case Refuse(r) => refused := Refusing(refused, r, trail);
        case Redirect(guidance) =>
          var told := strip(guidance);
          return Update([], [], requests, true, p.redirects + 1, if told == "" then None else Some(told), ending);
      }
      ending := if o.expiry.Some? then o.expiry.value else ending;
    }
    update := Update(granted, refused, requests, false, p.redirects, None, ending);
  }

  /** What a gate holds once it has looked at the first `i` actions, none redirected. */
  predicate Gathered(os: seq<Outcome>, i: nat, granted: seq<Granted>, refused: seq<Refusal>,
                     requests: seq<Request>, ending: Ending, end: Ending)
    requires i <= |os|
  {
    && Reached(os, 0) == Reached(os, i)
    && granted == GrantedTo(os, i) && refused == RefusedTo(os, i) && requests == RequestsTo(os, i)
    && ending == EndTo(os, i, end)
  }

  lemma GatheredNext(os: seq<Outcome>, i: nat, granted: seq<Granted>, refused: seq<Refusal>,
                     requests: seq<Request>, ending: Ending, end: Ending)
    requires i < |os| && Gathered(os, i, granted, refused, requests, ending, end)
    ensures var o := os[i];
      var made := requests + if o.made.Some? then [o.made.value] else [];
      var soon := if o.expiry.Some? then o.expiry.value else ending;
      && (o.fate.Grant? ==> Gathered(os, i + 1, granted + [o.fate.granted], refused, made, soon, end))
      && (o.fate.Refuse? ==> Gathered(os, i + 1, granted, refused + [o.fate.refusal], made, soon, end))
      && (o.fate.Redirect? ==> Reached(os, 0) == i && made == RequestsTo(os, i + 1))
  {
    assert granted + [] == granted && refused + [] == refused;
  }

  /** Outcomes that make no request leave none, and no ending. */
  lemma {:induction false} NoneMade(os: seq<Outcome>, n: nat, end: Ending)
    requires n <= |os| && forall i | 0 <= i < |os| :: os[i].made.None? && os[i].expiry.None?
    ensures RequestsTo(os, n) == [] && EndTo(os, n, end) == end
  {
    if n > 0 {
      NoneMade(os, n - 1, end);
    }
  }

  lemma {:induction false} NoneGranted(os: seq<Outcome>, n: nat)
    requires n <= |os| && forall i | 0 <= i < |os| :: os[i].fate.Refuse?
    ensures GrantedTo(os, n) == []
  {
    if n > 0 {
      NoneGranted(os, n - 1);
    }
  }

  /** One pass of whichever gate the session has. */
  method TierGate(p: Pass, strip: string -> string, end: Ending, trail: Trail?) returns (update: Update)
    modifies trail
    ensures update == Passed(p, strip, end)
    ensures trail != null ==>
      trail.events == old(trail.events) + RefusalEvents(RefusedTo(Outcomes(p), Reached(Outcomes(p), 0)))
  {
    ghost var os := OutcomesOf(p);
    match p.gate {
      case NoRun =>
        var refused := NoRunGate(p, os);
        NoneMade(os, |os|, end);
        NoneGranted(os, |os|);
        AuditAll(refused, trail);
        update := Update([], refused, [], false, p.redirects, None, end);
      case Plain =>
        var granted, refused := PlainGate(p, os);
        NoneMade(os, |os|, end);
        AuditAll(refused, trail);
        update := Update(granted, refused, [], false, p.redirects, None, end);
      case Asking =>
        update := AskingGate(p, strip, end, trail, os);
    }
  }
}
