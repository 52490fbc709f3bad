/** One audited tool call, and the trail it leaves. */
module ToolAudit {
  import opened Wrappers
  import opened Json
  import opened TierPolicy

  datatype BlockReason =
    | ByPolicy(reason: Reason)
    | NoExecutor
    | NoService(kind: Class)
    | Unasked(why: string)
    | Told(why: string)
    | RejectedByHuman
    | TimedOut
    | ByTier
    | RedirectsSpent

  /** What a server did with a call; the detail of an error is trimmed and cut. */
  datatype Reply = Returned(isError: bool, detail: string) | Raised(text: string)

  /** The audit log's entries and the calls sent, in the order they happen. */
  datatype Event =
    | Start(tool: string, params: Value, kind: Class)
    | Refused(tool: string, params: Value, why: BlockReason, kind: Class)
    | Called(tool: string, params: Value)
    | End(tool: string, reply: Reply, kind: Class)

  class Trail {
    var events: seq<Event>

    constructor ()
      ensures events == []
    {
      events := [];
    }

    method Add(e: Event)
      modifies this
      ensures events == old(events) + [e]
    {
      events := events + [e];
    }
  }

  datatype Audited = Audited(permitted: bool, verdict: Verdict, output: Option<Reply>, error: Option<string>)

  function CallEvents(tool: string, params: Value, tier: int, skill: Skill, reply: Reply): seq<Event> {
    var kind := skill.classify(tool);
    var verdict := Check(tool, tier, skill);
    if verdict.permitted then [Start(tool, params, kind), Called(tool, params), End(tool, reply, kind)]
    else [Start(tool, params, kind), Refused(tool, params, ByPolicy(verdict.reason), kind)]
  }

  /** A server that answers with an error did not run the call; a call that raised
      has its exception's text, which may be empty. */
  function ErrorOf(reply: Reply): Option<string> {
    match reply
    case Raised(text) => Some(text)
    case Returned(isError, detail) =>
      if !isError then None else Some("the tool reported an error" + (if detail == "" then "" else ": " + detail))
  }

  function CallResult(tool: string, tier: int, skill: Skill, reply: Reply): Audited {
    var verdict := Check(tool, tier, skill);
    if verdict.permitted then Audited(true, verdict, if reply.Returned? then Some(reply) else None, ErrorOf(reply))
    else Audited(false, verdict, None, None)
  }

  /** `reply` is what the server would do, were it called. */
  method AuditedToolCall(trail: Trail, tool: string, params: Value, tier: int, skill: Skill, reply: Reply)
    returns (result: Audited)
    modifies trail
    ensures trail.events == old(trail.events) + CallEvents(tool, params, tier, skill, reply)
    ensures result == CallResult(tool, tier, skill, reply)
  {
    var kind := skill.classify(tool);
    trail.Add(Start(tool, params, kind));
    var verdict := Check(tool, tier, skill);
    if !verdict.permitted {
      trail.Add(Refused(tool, params, ByPolicy(verdict.reason), kind));
      return Audited(false, verdict, None, None);
    }
    trail.Add(Called(tool, params));
    trail.Add(End(tool, reply, kind));
    match reply {
      case Returned(isError, detail) => result := Audited(true, verdict, Some(reply), ErrorOf(reply));
      case Raised(text) => result := Audited(true, verdict, None, Some(text));
    }
  }

  // ------------------------------------------------------------ the grammar of a trail

  /** A refusal by the gate; a start and a refusal; or a start, the call and its end,
      all of one tool. Nothing is called that was not announced and checked. */
  ghost predicate Logged(tier: int, skill: Skill, events: seq<Event>)
    decreases |events|
  {
    || events == []
    || (events[0].Refused? && Logged(tier, skill, events[1..]))
    || (&& |events| >= 2 && events[0].Start? && events[1].Refused?
        && events[0].tool == events[1].tool && events[0].params == events[1].params
        && !Check(events[0].tool, tier, skill).permitted
        && Logged(tier, skill, events[2..]))
    || (&& |events| >= 3 && events[0].Start? && events[1].Called? && events[2].End?
        && events[0].tool == events[1].tool == events[2].tool && events[0].params == events[1].params
        && Check(events[1].tool, tier, skill).permitted
        && Logged(tier, skill, events[3..]))
  }

  lemma {:induction false} LoggedCat(tier: int, skill: Skill, xs: seq<Event>, ys: seq<Event>)
    requires Logged(tier, skill, xs) && Logged(tier, skill, ys)
    ensures Logged(tier, skill, xs + ys)
    decreases |xs|
  {
    if xs == [] {
      assert xs + ys == ys;
    } else {
      var n := if xs[0].Refused? then 1 else if xs[1].Refused? then 2 else 3;
      LoggedCat(tier, skill, xs[n..], ys);
      DropCat(xs, ys, n);
    }
  }

  lemma CallIsLogged(tool: string, params: Value, tier: int, skill: Skill, reply: Reply)
    ensures Logged(tier, skill, CallEvents(tool, params, tier, skill, reply))
  {
    var events := CallEvents(tool, params, tier, skill, reply);
    if Check(tool, tier, skill).permitted {
      assert events[3..] == [];
    } else {
      assert events[2..] == [];
    }
  }

  /** In a trail of the grammar every call was announced just before and recorded just
      after, and the check permits its tool. */
  lemma {:induction false} CallsAreEnclosed(tier: int, skill: Skill, events: seq<Event>, k: nat)
    requires Logged(tier, skill, events) && k < |events| && events[k].Called?
    ensures Check(events[k].tool, tier, skill).permitted
    ensures 0 < k < |events| - 1
    ensures events[k - 1].Start? && events[k - 1].tool == events[k].tool && events[k - 1].params == events[k].params
    ensures events[k + 1].End? && events[k + 1].tool == events[k].tool
    decreases |events|
  {
    var n := if events[0].Refused? then 1 else if events[1].Refused? then 2 else 3;
    if k >= n {
      CallsAreEnclosed(tier, skill, events[n..], k - n);
    }
  }

  function CallsOf(events: seq<Event>): seq<(string, Value)> {
    if events == [] then []
    else CallOfEvent(events[0]) + CallsOf(events[1..])
  }

  function CallOfEvent(e: Event): seq<(string, Value)> { if e.Called? then [(e.tool, e.params)] else [] }

  lemma CallsOfCons(e: Event, events: seq<Event>)
    ensures CallsOf([e] + events) == CallOfEvent(e) + CallsOf(events)
  {
    assert ([e] + events)[1..] == events;
  }

  lemma {:induction false} CallsOfCat(xs: seq<Event>, ys: seq<Event>)
    ensures CallsOf(xs + ys) == CallsOf(xs) + CallsOf(ys)
  {
    if xs == [] {
      assert xs + ys == ys;
    } else {
      var e, rest := xs[0], xs[1..];
      CallsOfCat(rest, ys);
      assert xs + ys == [e] + (rest + ys) && xs == [e] + rest;
      CallsOfCons(e, rest + ys);
      CallsOfCons(e, rest);
      Assoc(CallOfEvent(e), CallsOf(rest), CallsOf(ys));
    }
  }

  lemma CallsOfCall(tool: string, params: Value, tier: int, skill: Skill, reply: Reply)
    ensures CallsOf(CallEvents(tool, params, tier, skill, reply)) ==
      if Check(tool, tier, skill).permitted then [(tool, params)] else []
  {
    var events := CallEvents(tool, params, tier, skill, reply);
    CallsOfCat([events[0]], [events[1]]);
    if Check(tool, tier, skill).permitted {
      CallsOfCat([events[0]] + [events[1]], [events[2]]);
      assert events == [events[0]] + [events[1]] + [events[2]];
    } else {
      assert events == [events[0]] + [events[1]];
    }
  }
}
