/** Running a Skill's workflow: one outcome per step, in order. */
module WorkflowRun {
  import opened Wrappers
  import opened Json
  import opened TierPolicy
  import opened ToolAudit
  import G = TierGate
  import opened SkillWorkflow

  datatype Setup = Setup(
    workflow: seq<Step>, tier: int, skill: Skill, service: bool, incident: Value,
    render: Value -> string, strip: string -> string)

  /** For each step, the answer its request would get, what its server would do, and
      the output that would come back. */
  datatype World = World(answers: nat -> G.Answer, replies: nat -> Reply, outputs: nat -> Value)

  datatype Status = Completed | Failed | Stopped

  datatype Why =
    | ByVerdict(reason: Reason)
    | WithoutService
    | Unanswered(text: string)
    | NotApproved(status: G.Status, why: Option<string>, guidance: string)

  datatype Outcome = Outcome(
    id: string, tool: string, inputs: Value, status: Status, kind: Class,
    output: Option<Value>, error: Option<string>, why: Option<Why>, request: Option<nat>, tier: Option<int>)

  /** Whether a person has to approve step `s`. */
  predicate Asks(c: Setup, s: Step) {
    var (v, force) := EffectiveEnforcement(s, c.tier, c.skill);
    v.permitted && (v.requiresApproval || force)
  }

  /** What stands between a step whose inputs resolved and its call. */
  function Barrier(c: Setup, s: Step, answer: G.Answer): Option<(Why, Option<nat>)> {
    var (v, force) := EffectiveEnforcement(s, c.tier, c.skill);
    if !v.permitted then Some((ByVerdict(v.reason), None))
    else if !(v.requiresApproval || force) then None
    else if !c.service then Some((WithoutService, None))
    else match answer
      case NotAsked(text) => Some((Unanswered(text), None))
      case Resolved(id, status, guidance, why) =>
        if status == G.Approved then None else Some((NotApproved(status, why, c.strip(guidance)), Some(id)))
  }

  /** The request whose approval the call carries. */
  function RequestOf(c: Setup, s: Step, answer: G.Answer): Option<nat> {
    if Asks(c, s) && answer.Resolved? then Some(answer.id) else None
  }

  function EffectiveTier(c: Setup, s: Step): int { EffectiveEnforcement(s, c.tier, c.skill).0.tier }

  /** An error is one only with a text. */
  predicate HasFailed(reply: Reply) { ErrorOf(reply).Some? && ErrorOf(reply).value != "" }

  /** The outcome of a step that is called. */
  function Called(c: Setup, s: Step, inputs: Value, answer: G.Answer, reply: Reply, output: Value): Outcome {
    var tier := EffectiveTier(c, s);
    var kind := Check(s.tool, tier, c.skill).classification;
    if HasFailed(reply) then
      Outcome(s.id, s.tool, inputs, Failed, kind, None, ErrorOf(reply), None, RequestOf(c, s, answer), Some(tier))
    else
      Outcome(s.id, s.tool, inputs, Completed, kind, Some(if reply.Returned? then output else Obj([])), None, None,
              RequestOf(c, s, answer), Some(tier))
  }

  function StepOutcome(c: Setup, w: World, i: nat, left: Left): Outcome
    requires i < |c.workflow|
  {
    var s := c.workflow[i];
    var inputs := Resolve(s.inputs, Context(c.incident, left), c.render);
    if inputs.None? then
      Outcome(s.id, s.tool, Obj([]), Failed, c.skill.classify(s.tool), None, Some("template"), None, None, None)
    else
      var barrier := Barrier(c, s, w.answers(i));
      if barrier.Some? then
        Outcome(s.id, s.tool, inputs.value, Stopped, EffectiveEnforcement(s, c.tier, c.skill).0.classification,
                None, None, Some(barrier.value.0), barrier.value.1, Some(EffectiveTier(c, s)))
      else Called(c, s, inputs.value, w.answers(i), w.replies(i), w.outputs(i))
  }

  /** Whether step `i` sends its call. */
  predicate Sends(c: Setup, w: World, i: nat, left: Left)
    requires i < |c.workflow|
  {
    var s := c.workflow[i];
    Resolve(s.inputs, Context(c.incident, left), c.render).Some? && Barrier(c, s, w.answers(i)).None?
  }

  function Put(fields: seq<(string, Value)>, name: string, v: Value): seq<(string, Value)> {
    if fields == [] then [(name, v)]
    else if fields[0].0 == name then [(name, v)] + fields[1..]
    else [fields[0]] + Put(fields[1..], name, v)
  }

  function Keep(left: Left, o: Outcome): Left {
    if o.status == Completed && o.output.Some? then Put(left, o.id, Obj([("output", o.output.value)])) else left
  }

  // ------------------------------------------------------------ the run

  /** What taking a step yields: its outcome, whether its call was sent, whether it
      aborts the rest, and the trail it leaves. */
  datatype Taken = Taken(outcome: Outcome, sent: bool, aborts: bool, events: seq<Event>)

  type Left = seq<(string, Value)>

  function Take(c: Setup, w: World, i: nat, left: Left): Taken
    requires i < |c.workflow|
  {
    var s, o, sent := c.workflow[i], StepOutcome(c, w, i, left), Sends(c, w, i, left);
    Taken(o, sent, sent && o.status == Failed && s.aborts,
          if sent then CallEvents(s.tool, o.inputs, EffectiveTier(c, s), c.skill, w.replies(i)) else [])
  }

  function Takes(c: Setup, w: World): seq<Left -> Taken> {
    seq(|c.workflow|, i requires 0 <= i < |c.workflow| => (left: Left) => Take(c, w, i, left))
  }

  /** The outcomes so far, what the steps left, the step that aborted the rest, and
      the trail. */
  datatype Progress = Progress(outcomes: seq<Outcome>, left: Left, aborted: Option<string>, events: seq<Event>)

  function After(steps: seq<Left -> Taken>, n: nat): Progress
    requires n <= |steps|
  {
    if n == 0 then Progress([], [], None, [])
    else
      var p := After(steps, n - 1);
      if p.aborted.Some? then p
      else
        var t := steps[n - 1](p.left);
        Progress(p.outcomes + [t.outcome], Keep(p.left, t.outcome),
                 if t.aborts then Some(t.outcome.id) else None, p.events + t.events)
  }

  lemma {:induction false} AbortStays(steps: seq<Left -> Taken>, m: nat, n: nat)
    requires m <= n <= |steps| && After(steps, m).aborted.Some?
    ensures After(steps, n) == After(steps, m)
  {
    if m < n {
      AbortStays(steps, m, n - 1);
    }
  }

  function Workflow(c: Setup, w: World): Progress { After(Takes(c, w), |c.workflow|) }

  predicate TakesAt(c: Setup, w: World, steps: seq<Left -> Taken>, i: nat, left: Left)
    requires |steps| == |c.workflow|
  {
    i < |steps| ==> steps[i](left) == Take(c, w, i, left)
  }

  ghost predicate Taking(c: Setup, w: World, steps: seq<Left -> Taken>) {
    |steps| == |c.workflow| && forall i: nat, left: Left :: TakesAt(c, w, steps, i, left)
  }

  lemma TakesAre(c: Setup, w: World)
    ensures Taking(c, w, Takes(c, w))
  {
  }

  /** What stands between a step and its call, if anything, and its request. */
  method Await(c: Setup, s: Step, answer: G.Answer) returns (barrier: Option<(Why, Option<nat>)>, request: Option<nat>)
    ensures barrier == Barrier(c, s, answer)
    ensures barrier.None? ==> request == RequestOf(c, s, answer)
  {
    var (v, force) := EffectiveEnforcement(s, c.tier, c.skill);
    if !v.permitted {
      return Some((ByVerdict(v.reason), None)), None;
    }
    if !(v.requiresApproval || force) {
      return None, None;
    }
    if !c.service {
      return Some((WithoutService, None)), None;
    }
    match answer {
      case NotAsked(text) => return Some((Unanswered(text), None)), None;
      case Resolved(id, status, guidance, told) =>
        if status != G.Approved {
          return Some((NotApproved(status, told, c.strip(guidance)), Some(id))), None;
        }
        return None, Some(id);
    }
  }

  /** The call of a step nothing stands before. */
  method Call(c: Setup, s: Step, inputs: Value, answer: G.Answer, reply: Reply, output: Value,
    request: Option<nat>, trail: Trail)
    returns (o: Outcome)
    requires request == RequestOf(c, s, answer)
    requires Check(s.tool, EffectiveTier(c, s), c.skill).permitted
    modifies trail
    ensures o == Called(c, s, inputs, answer, reply, output)
    ensures trail.events == old(trail.events) + CallEvents(s.tool, inputs, EffectiveTier(c, s), c.skill, reply)
  {
    var tier := EffectiveTier(c, s);
    var r := AuditedToolCall(trail, s.tool, inputs, tier, c.skill, reply);
    var kind := r.verdict.classification;
    if r.error.Some? && r.error.value != "" {
      o := Outcome(s.id, s.tool, inputs, Failed, kind, None, r.error, None, request, Some(tier));
    } else {
      var got := if reply.Returned? then output else Obj([]);
      o := Outcome(s.id, s.tool, inputs, Completed, kind, Some(got), None, None, request, Some(tier));
    }
  }

  /** A step without a barrier is let through by the executor's own check. */
  lemma CheckedTwice(c: Setup, s: Step, answer: G.Answer)
    requires Barrier(c, s, answer).None?
    ensures Check(s.tool, EffectiveTier(c, s), c.skill).permitted
  {
    var (v, force) := EffectiveEnforcement(s, c.tier, c.skill);
    CheckIsStable(s.tool, c.tier, c.skill);
    if s.override.ToTier? {
      CheckIsStable(s.tool, if s.override.tier > c.tier then s.override.tier else c.tier, c.skill);
    }
  }

  lemma AfterNext(steps: seq<Left -> Taken>, i: nat)
    requires i < |steps| && After(steps, i).aborted.None?
    ensures var p, t := After(steps, i), steps[i](After(steps, i).left);
      After(steps, i + 1) ==
      Progress(p.outcomes + [t.outcome], Keep(p.left, t.outcome),
               if t.aborts then Some(t.outcome.id) else None, p.events + t.events)
  {
  }

  /** One step, its trail added. */
  method RunStep(c: Setup, w: World, i: nat, left: Left, trail: Trail, ghost steps: seq<Left -> Taken>)
    returns (o: Outcome, aborts: bool)
    requires i < |c.workflow| && Taking(c, w, steps)
    modifies trail
    ensures o == steps[i](left).outcome && aborts == steps[i](left).aborts
    ensures trail.events == old(trail.events) + steps[i](left).events
  {
    assert TakesAt(c, w, steps, i, left);
    var s := c.workflow[i];
    var inputs := Resolve(s.inputs, Context(c.incident, left), c.render);
    if inputs.None? {
      o := Outcome(s.id, s.tool, Obj([]), Failed, c.skill.classify(s.tool), None, Some("template"), None, None, None);
      return o, false;
    }
    var barrier, request := Await(c, s, w.answers(i));
    if barrier.Some? {
      var v := EffectiveEnforcement(s, c.tier, c.skill).0;
      o := Outcome(s.id, s.tool, inputs.value, Stopped, v.classification, None, None, Some(barrier.value.0),
        barrier.value.1, Some(v.tier));
      return o, false;
    }
    CheckedTwice(c, s, w.answers(i));
    o := Call(c, s, inputs.value, w.answers(i), w.replies(i), w.outputs(i), request, trail);
    aborts := o.status == Failed && s.aborts;
  }

  method RunSteps(c: Setup, w: World, trail: Trail, ghost steps: seq<Left -> Taken>)
    returns (outcomes: seq<Outcome>, left: Left, aborted: Option<string>)
    requires Taking(c, w, steps)
    modifies trail
    ensures Progress(outcomes, left, aborted, After(steps, |steps|).events) == After(steps, |steps|)
    ensures trail.events == old(trail.events) + After(steps, |steps|).events
  {
    outcomes, left, aborted := [], [], None;
    for i := 0 to |c.workflow|
      invariant aborted.None? && Progress(outcomes, left, None, After(steps, i).events) == After(steps, i)
      invariant trail.events == old(trail.events) + After(steps, i).events
    {
      AfterNext(steps, i);
      Assoc(old(trail.events), After(steps, i).events, steps[i](left).events);
      var o, aborts := RunStep(c, w, i, left, trail, steps);
      outcomes, left := outcomes + [o], Keep(left, o);
      if aborts {
        AbortStays(steps, i + 1, |steps|);
        return outcomes, left, Some(o.id);
      }
    }
  }

  /** The whole workflow, step after step. */
  method Execute(c: Setup, w: World, trail: Trail)
    returns (outcomes: seq<Outcome>, left: Left, aborted: Option<string>)
    modifies trail
    ensures Progress(outcomes, left, aborted, Workflow(c, w).events) == Workflow(c, w)
    ensures trail.events == old(trail.events) + Workflow(c, w).events
  {
    TakesAre(c, w);
    outcomes, left, aborted := RunSteps(c, w, trail, Takes(c, w));
  }
}
