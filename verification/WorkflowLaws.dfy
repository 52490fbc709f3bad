/** What every run of a Skill's workflow keeps. */
module WorkflowLaws {
  import opened Wrappers
  import opened Json
  import opened TierPolicy
  import opened ToolAudit
  import G = TierGate
  import opened SkillWorkflow
  import opened WorkflowRun
  import opened AgentGraph
  import AgentRun
  import AgentSession

  // ------------------------------------------------------------ one outcome per step

  /** The run of the first `n` steps is that of as many as have outcomes, and it ends
      early exactly behind a step that aborts. */
  lemma {:induction false} AfterLength(steps: seq<Left -> Taken>, n: nat)
    requires n <= |steps|
    ensures var p := After(steps, n);
      && |p.outcomes| <= n
      && (p.aborted.None? ==> |p.outcomes| == n)
      && p == After(steps, |p.outcomes|)
  {
    if n > 0 {
      AfterLength(steps, n - 1);
    }
  }

  lemma OutcomeNext(steps: seq<Left -> Taken>, n: nat, i: nat)
    requires n < |steps| && i < |After(steps, n + 1).outcomes|
    ensures var p := After(steps, n);
      if i < |p.outcomes| then After(steps, n + 1).outcomes[i] == p.outcomes[i]
      else i == n && p.aborted.None? && After(steps, n + 1).outcomes[i] == steps[n](p.left).outcome
  {
    AfterLength(steps, n);
    if After(steps, n).aborted.None? {
      AfterNext(steps, n);
    } else {
      AbortStays(steps, n, n + 1);
    }
  }

  /** Outcome `i` is what step `i` yields, given what the steps before it left. */
  lemma {:induction false} OutcomeIs(steps: seq<Left -> Taken>, n: nat, i: nat)
    requires n <= |steps| && i < |After(steps, n).outcomes|
    ensures i < n && After(steps, i).aborted.None?
    ensures After(steps, n).outcomes[i] == steps[i](After(steps, i).left).outcome
  {
    OutcomeNext(steps, n - 1, i);
    if i < |After(steps, n - 1).outcomes| {
      OutcomeIs(steps, n - 1, i);
    }
  }

  lemma AbortedIs(steps: seq<Left -> Taken>, n: nat)
    requires n <= |steps|
    ensures var p := After(steps, n);
      var m := |p.outcomes|;
      && m <= n
      && (p.aborted.Some? <==> m > 0 && steps[m - 1](After(steps, m - 1).left).aborts)
      && (p.aborted.Some? ==> p.aborted == Some(p.outcomes[m - 1].id))
  {
    var m := |After(steps, n).outcomes|;
    AfterLength(steps, n);
    if m > 0 {
      OutcomeIs(steps, n, m - 1);
    }
  }

  /** A call that failed, in a step that aborts on failure. */
  predicate AbortedBy(c: Setup, w: World, o: Outcome, i: nat)
    requires i < |c.workflow|
  {
    o.status == Failed && Sent(o) && HasFailed(w.replies(i)) && c.workflow[i].aborts
  }

  /** An outcome whose call was sent. */
  predicate Sent(o: Outcome) { o.status != Stopped && o.tier.Some? }

  lemma StepsMatch(c: Setup, w: World, steps: seq<Left -> Taken>)
    requires Taking(c, w, steps)
    ensures |After(steps, |steps|).outcomes| <= |steps|
    ensures forall i: nat | i < |After(steps, |steps|).outcomes| ::
      Matches(After(steps, |steps|).outcomes[i], c.workflow[i])
  {
    AfterLength(steps, |steps|);
    forall i: nat | i < |After(steps, |steps|).outcomes|
      ensures Matches(After(steps, |steps|).outcomes[i], c.workflow[i]) {
      OutcomeIs(steps, |steps|, i);
      StepTells(c, w, steps, i, After(steps, i).left);
    }
  }

  lemma AbortTells(c: Setup, w: World, steps: seq<Left -> Taken>, i: nat)
    requires Taking(c, w, steps) && i < |After(steps, |steps|).outcomes|
    ensures i < |steps|
    ensures steps[i](After(steps, i).left).aborts == AbortedBy(c, w, After(steps, |steps|).outcomes[i], i)
    ensures After(steps, |steps|).outcomes[i].id == c.workflow[i].id
  {
    OutcomeIs(steps, |steps|, i);
    StepTells(c, w, steps, i, After(steps, i).left);
  }

  lemma StepsAbort(c: Setup, w: World, steps: seq<Left -> Taken>)
    requires Taking(c, w, steps)
    ensures var p := After(steps, |steps|);
      && |p.outcomes| <= |steps|
      && (|p.outcomes| < |steps| ==> p.aborted.Some?)
      && (p.aborted.Some? <==> p.outcomes != [] && AbortedBy(c, w, p.outcomes[|p.outcomes| - 1], |p.outcomes| - 1))
      && (p.aborted.Some? ==> p.aborted == Some(c.workflow[|p.outcomes| - 1].id))
  {
    var n := |After(steps, |steps|).outcomes|;
    AfterLength(steps, |steps|);
    AbortedIs(steps, |steps|);
    if n > 0 {
      AbortTells(c, w, steps, n - 1);
    }
  }

  predicate Matches(o: Outcome, s: Step) { o.id == s.id && o.tool == s.tool }

  lemma StepTells(c: Setup, w: World, steps: seq<Left -> Taken>, i: nat, left: Left)
    requires Taking(c, w, steps) && i < |steps|
    ensures Matches(steps[i](left).outcome, c.workflow[i]) && Tells(steps[i](left))
    ensures steps[i](left).aborts == AbortedBy(c, w, steps[i](left).outcome, i)
  {
    assert TakesAt(c, w, steps, i, left);
    TakeTells(c, w, i, left);
  }

  /** The trail of a step has the call its outcome tells of, and no other. */
  predicate Tells(t: Taken) {
    && t.sent == Sent(t.outcome)
    && CallsOf(t.events) == if Sent(t.outcome) then [(t.outcome.tool, t.outcome.inputs)] else []
  }

  /** The outcomes are those of the steps, one each and in order. The run stops early
      only right behind a call that failed in a step that aborts on failure. */
  lemma OneOutcomePerStep(c: Setup, w: World)
    ensures var p := Workflow(c, w);
      && |p.outcomes| <= |c.workflow|
      && (forall i: nat | i < |p.outcomes| :: Matches(p.outcomes[i], c.workflow[i]))
      && (|p.outcomes| < |c.workflow| ==> p.aborted.Some?)
      && (p.aborted.Some? <==> p.outcomes != [] && AbortedBy(c, w, p.outcomes[|p.outcomes| - 1], |p.outcomes| - 1))
      && (p.aborted.Some? ==> p.aborted == Some(c.workflow[|p.outcomes| - 1].id))
  {
    var steps := Takes(c, w);
    TakesAre(c, w);
    StepsMatch(c, w, steps);
    StepsAbort(c, w, steps);
  }

  /** A step's outcome tells whether its call was sent, and the trail has it then. */
  lemma TakeTells(c: Setup, w: World, i: nat, left: Left)
    requires i < |c.workflow|
    ensures var t := Take(c, w, i, left);
      Tells(t) && Matches(t.outcome, c.workflow[i]) && t.aborts == AbortedBy(c, w, t.outcome, i)
  {
    var s, t := c.workflow[i], Take(c, w, i, left);
    if t.sent {
      CheckedTwice(c, s, w.answers(i));
      CallsOfCall(s.tool, t.outcome.inputs, EffectiveTier(c, s), c.skill, w.replies(i));
    }
  }

  // ------------------------------------------------------------ the calls

  function SentCalls(outcomes: seq<Outcome>): seq<(string, Value)> {
    if outcomes == [] then []
    else
      var o := outcomes[|outcomes| - 1];
      SentCalls(outcomes[..|outcomes| - 1]) + if Sent(o) then [(o.tool, o.inputs)] else []
  }

  lemma SentCallsSnoc(outcomes: seq<Outcome>, o: Outcome)
    ensures SentCalls(outcomes + [o]) == SentCalls(outcomes) + if Sent(o) then [(o.tool, o.inputs)] else []
  {
    assert (outcomes + [o])[..|outcomes|] == outcomes;
  }

  lemma OneMore(p: Progress, t: Taken)
    requires Tells(t) && CallsOf(p.events) == SentCalls(p.outcomes)
    ensures CallsOf(p.events + t.events) == SentCalls(p.outcomes + [t.outcome])
  {
    CallsOfCat(p.events, t.events);
    SentCallsSnoc(p.outcomes, t.outcome);
  }

  lemma {:induction false} CallsAfter(steps: seq<Left -> Taken>, n: nat)
    requires n <= |steps| && forall i: nat | i < n :: AllTell(steps, i)
    ensures CallsOf(After(steps, n).events) == SentCalls(After(steps, n).outcomes)
  {
    if n > 0 {
      var p := After(steps, n - 1);
      CallsAfter(steps, n - 1);
      assert AllTell(steps, n - 1);
      if p.aborted.None? {
        OneMore(p, steps[n - 1](p.left));
      }
    }
  }

  ghost predicate AllTell(steps: seq<Left -> Taken>, i: nat) {
    i < |steps| ==> forall left: Left :: Tells(steps[i](left))
  }

  /** The calls of a workflow are those of its outcomes, in order, with the inputs the
      outcomes record. */
  lemma CallsAreOutcomes(c: Setup, w: World)
    ensures CallsOf(Workflow(c, w).events) == SentCalls(Workflow(c, w).outcomes)
  {
    var steps := Takes(c, w);
    TakesAre(c, w);
    CallsOfSteps(c, w, steps);
  }

  lemma CallsOfSteps(c: Setup, w: World, steps: seq<Left -> Taken>)
    requires Taking(c, w, steps)
    ensures CallsOf(After(steps, |steps|).events) == SentCalls(After(steps, |steps|).outcomes)
  {
    forall i: nat, left: Left | i < |steps| ensures Tells(steps[i](left)) {
      StepTells(c, w, steps, i, left);
    }
    CallsAfter(steps, |steps|);
  }

  /** Whose authority a call of step `i` has: the check permits the tool at the tier the
      outcome records, and if a person has to approve, that person did, and the outcome
      carries the request. */
  predicate Authorised(c: Setup, w: World, o: Outcome, i: nat)
    requires i < |c.workflow|
  {
    && o.tier.Some? && Check(o.tool, o.tier.value, c.skill).permitted
    && (Asks(c, c.workflow[i]) ==>
          c.service && w.answers(i).Resolved? && w.answers(i).status == G.Approved
            && o.request == Some(w.answers(i).id))
  }

  lemma TakeIsAuthorised(c: Setup, w: World, i: nat, left: Left)
    requires i < |c.workflow| && Sent(Take(c, w, i, left).outcome)
    ensures Authorised(c, w, Take(c, w, i, left).outcome, i)
  {
    CheckedTwice(c, c.workflow[i], w.answers(i));
  }

  /** In every run of a workflow, a step is completed only if its call was sent, and
      every call sent has its authority. */
  lemma EveryCallIsAuthorised(c: Setup, w: World, i: nat)
    requires i < |Workflow(c, w).outcomes|
    ensures i < |c.workflow|
    ensures Workflow(c, w).outcomes[i].status == Completed ==> Sent(Workflow(c, w).outcomes[i])
    ensures Sent(Workflow(c, w).outcomes[i]) ==> Authorised(c, w, Workflow(c, w).outcomes[i], i)
  {
    var steps := Takes(c, w);
    TakesAre(c, w);
    OutcomeIs(steps, |steps|, i);
    var left := After(steps, i).left;
    assert TakesAt(c, w, steps, i, left);
    if Sent(Take(c, w, i, left).outcome) {
      TakeIsAuthorised(c, w, i, left);
    }
  }

  /** A call that was sent is marked as failed if and only if its error has a text. */
  lemma FailedIffText(c: Setup, w: World, i: nat, left: Left)
    requires i < |c.workflow| && Sends(c, w, i, left)
    ensures var o := StepOutcome(c, w, i, left);
      && (o.status == Failed <==> ErrorOf(w.replies(i)).Some? && w.replies(i) != Raised(""))
      && (o.status == Completed <==> ErrorOf(w.replies(i)).None? || w.replies(i) == Raised(""))
  {
    if w.replies(i).Returned? && w.replies(i).isError {
      assert ErrorOf(w.replies(i)).value[0] == 't';
    }
  }

  /** So a call that raised an exception without a message counts as completed, and a
      step that aborts on failure does not abort. */
  lemma SilentErrorCompletes(c: Setup, w: World, i: nat, left: Left)
    requires i < |c.workflow| && Sends(c, w, i, left) && w.replies(i) == Raised("")
    ensures Take(c, w, i, left).outcome.status == Completed && !Take(c, w, i, left).aborts
    ensures Take(c, w, i, left).outcome.output == Some(Obj([]))
  {
    FailedIffText(c, w, i, left);
  }

  /** What a step's record calls permitted. */
  predicate RecordedPermitted(o: Outcome) { o.status == Completed || o.status == Failed }

  /** A record says permitted of a call that was never sent if and only if the step's
      templates could not be resolved. */
  lemma PermittedUnsentIff(c: Setup, w: World, i: nat, left: Left)
    requires i < |c.workflow|
    ensures var o := StepOutcome(c, w, i, left);
      RecordedPermitted(o) && !Sent(o) <==> Resolve(c.workflow[i].inputs, Context(c.incident, left), c.render).None?
  {
  }

  // ------------------------------------------------------------ what templates read

  function LeftBy(outcomes: seq<Outcome>): Left {
    if outcomes == [] then [] else Keep(LeftBy(outcomes[..|outcomes| - 1]), outcomes[|outcomes| - 1])
  }

  lemma {:induction false} LeftAfter(steps: seq<Left -> Taken>, n: nat)
    requires n <= |steps|
    ensures After(steps, n).left == LeftBy(After(steps, n).outcomes)
  {
    if n > 0 {
      var p := After(steps, n - 1);
      LeftAfter(steps, n - 1);
      if p.aborted.None? {
        var outcomes := p.outcomes + [steps[n - 1](p.left).outcome];
        assert outcomes[..|outcomes| - 1] == p.outcomes;
      }
    }
  }

  lemma {:induction false} FieldPut(fields: Left, name: string, v: Value, id: string)
    ensures Field(Put(fields, name, v), id) == if id == name then Some(v) else Field(fields, id)
  {
    if fields != [] {
      if fields[0].0 == name {
        assert ([(name, v)] + fields[1..])[1..] == fields[1..];
      } else {
        FieldPut(fields[1..], name, v, id);
        assert ([fields[0]] + Put(fields[1..], name, v))[1..] == Put(fields[1..], name, v);
      }
    }
  }

  /** The last completed outcome of step `id` among the first `n`. */
  function LastCompleted(outcomes: seq<Outcome>, n: nat, id: string): (k: Option<nat>)
    requires n <= |outcomes|
    ensures k.Some? ==>
      && k.value < n && outcomes[k.value].id == id && outcomes[k.value].status == Completed
      && outcomes[k.value].output.Some?
    ensures forall j | 0 <= j < n && (k.None? || j > k.value) ::
      !(outcomes[j].id == id && outcomes[j].status == Completed && outcomes[j].output.Some?)
  {
    if n == 0 then None
    else if outcomes[n - 1].id == id && outcomes[n - 1].status == Completed
      && outcomes[n - 1].output.Some? then Some(n - 1)
    else LastCompleted(outcomes, n - 1, id)
  }

  /** What can be read of a step is the output of its last completed outcome. */
  lemma {:induction false} LeftIsLastCompleted(outcomes: seq<Outcome>, n: nat, id: string)
    requires n <= |outcomes|
    ensures Field(LeftBy(outcomes[..n]), id) ==
      match LastCompleted(outcomes, n, id)
      case None => None
      case Some(k) => Some(Obj([("output", outcomes[k].output.value)]))
  {
    if n > 0 {
      var o := outcomes[n - 1];
      LeftIsLastCompleted(outcomes, n - 1, id);
      assert outcomes[..n][..n - 1] == outcomes[..n - 1];
      if o.status == Completed && o.output.Some? {
        FieldPut(LeftBy(outcomes[..n - 1]), o.id, Obj([("output", o.output.value)]), id);
      }
    }
  }

  /** Every step a resolved template names was completed before, by a step in front. */
  lemma TemplatesReadBack(c: Setup, w: World, i: nat, id: string)
    requires i < |Workflow(c, w).outcomes| <= |c.workflow| && Some(id) in Names(c.workflow[i].inputs)
    requires Workflow(c, w).outcomes[i].tier.Some?
    ensures CompletedBefore(Workflow(c, w).outcomes, i, id)
  {
    var steps := Takes(c, w);
    TakesAre(c, w);
    OutcomeIs(steps, |steps|, i);
    assert TakesAt(c, w, steps, i, After(steps, i).left);
    ResolvedReadBack(c, w, steps, i, id);
  }

  ghost predicate CompletedBefore(outcomes: seq<Outcome>, i: nat, id: string) {
    exists j | 0 <= j < i && j < |outcomes| :: outcomes[j].id == id && outcomes[j].status == Completed
  }

  lemma ResolvedReadBack(c: Setup, w: World, steps: seq<Left -> Taken>, i: nat, id: string)
    requires |steps| == |c.workflow| && i < |After(steps, |steps|).outcomes| && i < |steps|
    requires Some(id) in Names(c.workflow[i].inputs)
    requires Resolve(c.workflow[i].inputs, Context(c.incident, After(steps, i).left), c.render).Some?
    ensures CompletedBefore(After(steps, |steps|).outcomes, i, id)
  {
    var ctx, outcomes := Context(c.incident, After(steps, i).left), After(steps, |steps|).outcomes;
    ResolveReads(c.workflow[i].inputs, ctx, ctx, c.render);
    LeftAfter(steps, i);
    AfterPrefix(steps, i);
    LeftIsLastCompleted(outcomes, i, id);
    assert LastCompleted(outcomes, i, id).Some?;
  }

  lemma AfterPrefix(steps: seq<Left -> Taken>, m: nat)
    requires m <= |steps| && m < |After(steps, |steps|).outcomes|
    ensures After(steps, |steps|).outcomes[..m] == After(steps, m).outcomes
  {
    OutcomeIs(steps, |steps|, m);
    AfterLength(steps, m);
    forall i: nat | i < m ensures After(steps, |steps|).outcomes[i] == After(steps, m).outcomes[i] {
      OutcomeIs(steps, |steps|, i);
      OutcomeIs(steps, m, i);
    }
  }

  // ------------------------------------------------------------ once a session

  lemma EmptyPlanGrantsNothing(p: G.Pass, strip: string -> string, end: G.Ending)
    requires p.plan == []
    ensures !G.Passed(p, strip, end).redirect && G.Passed(p, strip, end).granted == []
  {
    assert G.Outcomes(p) == [];
  }

  lemma WorkflowIsNotRedirected(g: AgentSession.Graph, w: AgentSession.World)
    requires w.plans(0) == []
    ensures !AgentSession.Steering(g, w)(0) && AgentRun.Steers(g.order, AgentSession.Steering(g, w))
    ensures AgentRun.Redirects(g.order, AgentSession.Steering(g, w), 0) == 0
  {
    EmptyPlanGrantsNothing(AgentSession.PassAt(g, w, 0), w.strip, w.end);
    AgentSession.SessionSteers(g, w);
  }

  lemma NothingGrantedNothingCalled(g: AgentSession.Graph)
    ensures AgentSession.CallsWith(g, []) == []
  {
  }

  /** The node that runs a workflow leaves an empty plan, so its session is never
      redirected, runs it once, and makes no other call. */
  lemma WorkflowRunsOnce(g: AgentSession.Graph, w: AgentSession.World)
    requires Sound(g.order) && forall k: nat :: w.plans(k) == []
    ensures AgentRun.Steers(g.order, AgentSession.Steering(g, w))
    ensures |AgentRun.Run(g.order, AgentSession.Steering(g, w))| == |g.order|
    ensures CallsOf(AgentSession.SessionTrail(g, w)) == []
  {
    WorkflowIsNotRedirected(g, w);
    AgentRun.RunLength(g.order, AgentSession.Steering(g, w));
    AgentSession.SessionCalls(g, w);
    EmptyPlanGrantsNothing(AgentSession.PassAt(g, w, 0), w.strip, w.end);
    NothingGrantedNothingCalled(g);
  }
}
