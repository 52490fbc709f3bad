/** A session of the agent from start to end: the trail it leaves and every call it
    makes. */
module AgentSession {
  import opened Json
  import opened TierPolicy
  import opened ToolAudit
  import G = TierGate
  import opened TierExecute
  import opened AgentGraph
  import opened AgentRun

  /** A built graph: its order, whether it has a server's session, an audit log and an
      approval service, the tier its gate was built for and the one in the session's
      state. */
  datatype Graph = Graph(
    order: seq<Node>, server: bool, log: bool, service: bool, tier: int, stateTier: int, skill: Skill)

  predicate HasExecutor(g: Graph) { g.server && g.log }

  /** The part of the world a session depends on: the plan each pass proposes, the
      answers its requests get, and the servers' replies. */
  datatype World = World(
    plans: nat -> seq<G.Action>, answers: nat -> (nat -> G.Answer), replies: nat -> Reply,
    strip: string -> string, end: G.Ending)

  predicate CanRun(g: Graph) {
    HasExecutor(g) && Plan in g.order && TierGate in g.order && IndexOf(g.order, Plan) < IndexOf(g.order, TierGate)
  }

  function GateOf(g: Graph): G.Gate { if !CanRun(g) then G.NoRun else if !g.service then G.Plain else G.Asking }

  /** The pass after `k` redirects. */
  function PassAt(g: Graph, w: World, k: nat): G.Pass {
    G.Pass(GateOf(g), g.tier, g.skill, k, if Plan in g.order then w.plans(k) else [], w.answers(k))
  }

  function UpdateAt(g: Graph, w: World, k: nat): G.Update { G.Passed(PassAt(g, w, k), w.strip, w.end) }

  function Steering(g: Graph, w: World): nat -> bool { (k: nat) => UpdateAt(g, w, k).redirect }

  /** Only a gate that asks is redirected, only with a plan to go back to, and not
      once the redirects are spent. */
  lemma RedirectsAreBounded(g: Graph, w: World, k: nat)
    requires Steering(g, w)(k)
    ensures GateOf(g) == G.Asking && Looped(g.order) && k < G.MAX_TIER1_REDIRECTS
  {
    var p := PassAt(g, w, k);
    PassKeepsPlan(p, w.strip, w.end);
    var n := G.Reached(G.Outcomes(p), 0);
    assert G.OutcomeAt(p, n).fate.Redirect?;
  }

  lemma SessionSteers(g: Graph, w: World)
    ensures Steers(g.order, Steering(g, w))
  {
    forall k: nat | Steering(g, w)(k) ensures k < G.MAX_TIER1_REDIRECTS && Looped(g.order) {
      RedirectsAreBounded(g, w, k);
    }
  }

  /** The last pass of a session: the one that is not redirected. */
  function LastPass(g: Graph, w: World): G.Pass {
    SessionSteers(g, w);
    PassAt(g, w, Redirects(g.order, Steering(g, w), 0))
  }

  // ------------------------------------------------------------ the trail

  /** What the gate's refusals of pass `k` leave, redirected or not. */
  function GateEvents(g: Graph, w: World, k: nat): seq<Event> {
    var os := G.Outcomes(PassAt(g, w, k));
    if g.log then G.RefusalEvents(G.RefusedTo(os, G.Reached(os, 0))) else []
  }

  function ExecuteEvents(g: Graph, w: World, granted: seq<G.Granted>): seq<Event> {
    if HasExecutor(g) then Executed(granted, g.stateTier, g.skill, w.replies) else []
  }

  /** The trail of some visits, `granted` being what the last gate granted. */
  function TrailOf(g: Graph, w: World, visits: seq<Visit>, granted: seq<G.Granted>): seq<Event> {
    if visits == [] then []
    else
      match visits[0].node
      case TierGate => GateEvents(g, w, visits[0].k) + TrailOf(g, w, visits[1..], UpdateAt(g, w, visits[0].k).granted)
      case Execute => ExecuteEvents(g, w, granted) + TrailOf(g, w, visits[1..], granted)
      case _ => TrailOf(g, w, visits[1..], granted)
  }

  function SessionTrail(g: Graph, w: World): seq<Event>
    requires Sound(g.order)
  {
    SessionSteers(g, w);
    TrailOf(g, w, Run(g.order, Steering(g, w)), [])
  }

  lemma GateEventsAreLogged(g: Graph, w: World, k: nat)
    ensures Logged(g.stateTier, g.skill, GateEvents(g, w, k)) && CallsOf(GateEvents(g, w, k)) == []
  {
    var os := G.Outcomes(PassAt(g, w, k));
    RefusalsAreLogged(g.stateTier, g.skill, G.RefusedTo(os, G.Reached(os, 0)));
  }

  lemma {:induction false} TrailIsLogged(g: Graph, w: World, visits: seq<Visit>, granted: seq<G.Granted>)
    ensures Logged(g.stateTier, g.skill, TrailOf(g, w, visits, granted))
    decreases |visits|
  {
    if visits != [] {
      var rest, k := visits[1..], visits[0].k;
      match visits[0].node {
        case TierGate =>
          GateEventsAreLogged(g, w, k);
          TrailIsLogged(g, w, rest, UpdateAt(g, w, k).granted);
          LoggedCat(g.stateTier, g.skill, GateEvents(g, w, k), TrailOf(g, w, rest, UpdateAt(g, w, k).granted));
        case Execute =>
          ExecuteCalls(granted, g.stateTier, g.skill, w.replies);
          TrailIsLogged(g, w, rest, granted);
          LoggedCat(g.stateTier, g.skill, ExecuteEvents(g, w, granted), TrailOf(g, w, rest, granted));
        case _ =>
          TrailIsLogged(g, w, rest, granted);
      }
    }
  }

  /** Every session's trail is of the grammar: no call without its announcement, its
      check and its end. */
  lemma SessionIsLogged(g: Graph, w: World)
    requires Sound(g.order)
    ensures Logged(g.stateTier, g.skill, SessionTrail(g, w))
  {
    SessionSteers(g, w);
    TrailIsLogged(g, w, Run(g.order, Steering(g, w)), []);
  }

  // ------------------------------------------------------------ the calls

  /** The calls of an execute node that is left `granted`. */
  function CallsWith(g: Graph, granted: seq<G.Granted>): seq<(string, Value)> {
    if HasExecutor(g) then FlattenTo(CallLists(granted, g.stateTier, g.skill), |granted|) else []
  }

  lemma ExecuteCallsWith(g: Graph, w: World, granted: seq<G.Granted>)
    ensures CallsOf(ExecuteEvents(g, w, granted)) == CallsWith(g, granted)
  {
    ExecuteCalls(granted, g.stateTier, g.skill, w.replies);
  }

  function GrantedAfter(g: Graph, w: World): nat -> seq<G.Granted> { (k: nat) => UpdateAt(g, w, k).granted }

  function Calling(g: Graph): seq<G.Granted> -> seq<(string, Value)> {
    (granted: seq<G.Granted>) => CallsWith(g, granted)
  }

  lemma {:induction false} TrailCalls(g: Graph, w: World, visits: seq<Visit>, granted: seq<G.Granted>)
    ensures CallsOf(TrailOf(g, w, visits, granted)) == Along(GrantedAfter(g, w), Calling(g), visits, granted)
    decreases |visits|
  {
    if visits != [] {
      var rest, k := visits[1..], visits[0].k;
      match visits[0].node {
        case TierGate =>
          GateEventsAreLogged(g, w, k);
          TrailCalls(g, w, rest, UpdateAt(g, w, k).granted);
          CallsOfCat(GateEvents(g, w, k), TrailOf(g, w, rest, UpdateAt(g, w, k).granted));
        case Execute =>
          ExecuteCallsWith(g, w, granted);
          TrailCalls(g, w, rest, granted);
          CallsOfCat(ExecuteEvents(g, w, granted), TrailOf(g, w, rest, granted));
        case _ =>
          TrailCalls(g, w, rest, granted);
      }
    }
  }

  /** A session calls what its last pass granted and the executor lets through, in
      order, and nothing else: no approval of a redirected pass leads to a call. */
  lemma SessionCalls(g: Graph, w: World)
    requires Sound(g.order)
    ensures CallsOf(SessionTrail(g, w)) ==
      if Execute in g.order then CallsWith(g, G.Passed(LastPass(g, w), w.strip, w.end).granted) else []
  {
    SessionSteers(g, w);
    TrailCalls(g, w, Run(g.order, Steering(g, w)), []);
    RunUsesLastPass(GrantedAfter(g, w), Calling(g), g.order, Steering(g, w), []);
  }

  lemma {:induction false} FlattenHas<T>(xss: seq<seq<T>>, n: nat, x: T) returns (i: nat)
    requires n <= |xss| && x in FlattenTo(xss, n)
    ensures i < n && x in xss[i]
  {
    if x in xss[n - 1] {
      i := n - 1;
    } else {
      i := FlattenHas(xss, n - 1, x);
    }
  }

  /** Who stands behind a call: an action the last pass granted, which that pass was
      not redirected from, whose policy runs it or whose own request was approved. */
  ghost predicate Backed(g: Graph, w: World, call: (string, Value)) {
    exists i: nat | i < |G.Passed(LastPass(g, w), w.strip, w.end).granted| ::
      BackedBy(LastPass(g, w), G.Passed(LastPass(g, w), w.strip, w.end).granted[i], call)
  }

  ghost predicate BackedBy(p: G.Pass, grant: G.Granted, call: (string, Value)) {
    call == (G.CheckedName(grant.action), grant.action.params) && Authorised(p, grant) && !G.IsRedirected(p)
  }

  lemma CallsWithHas(g: Graph, granted: seq<G.Granted>, call: (string, Value)) returns (i: nat)
    requires call in CallsWith(g, granted)
    ensures i < |granted| && call == (G.CheckedName(granted[i].action), granted[i].action.params)
    ensures Check(call.0, g.stateTier, g.skill).permitted
  {
    i := FlattenHas(CallLists(granted, g.stateTier, g.skill), |granted|, call);
    assert call in CallOf(granted[i], g.stateTier, g.skill);
  }

  lemma PassBacks(p: G.Pass, strip: string -> string, end: G.Ending, i: nat)
    requires i < |G.Passed(p, strip, end).granted|
    ensures Authorised(p, G.Passed(p, strip, end).granted[i]) && !G.IsRedirected(p)
  {
    PassKeepsPlan(p, strip, end);
    GrantsAreAuthorised(p, G.Outcomes(p), |G.Outcomes(p)|, i);
  }

  /** The authority of every call of every session. */
  lemma EveryCallIsBacked(g: Graph, w: World, call: (string, Value))
    requires Sound(g.order) && call in CallsOf(SessionTrail(g, w))
    ensures Check(call.0, g.stateTier, g.skill).permitted && Backed(g, w, call)
  {
    var p := LastPass(g, w);
    var granted := G.Passed(p, w.strip, w.end).granted;
    SessionCalls(g, w);
    var i := CallsWithHas(g, granted, call);
    PassBacks(p, w.strip, w.end, i);
    assert BackedBy(p, granted[i], call);
  }

  /** A session calls exactly what the planner was shown as running, and of what waits
      for approval exactly what was approved, in the last plan. */
  lemma SessionKeepsPromises(g: Graph, w: World)
    requires Sound(g.order) && CanRun(g) && g.stateTier == g.tier
    ensures CallsOf(SessionTrail(g, w)) == FlattenTo(Promises(LastPass(g, w)), |LastPass(g, w).plan|)
  {
    var p := LastPass(g, w);
    SessionCalls(g, w);
    SessionSteers(g, w);
    PassKeepsPlan(p, w.strip, w.end);
    MarksAgree(p, w.strip, w.end, w.replies);
    ExecuteCalls(G.Passed(p, w.strip, w.end).granted, g.tier, g.skill, w.replies);
  }

  /** Without an executor, or without a plan in front of the gate, nobody is asked and
      nothing is called. */
  lemma NoRunAsksNobody(g: Graph, w: World)
    requires Sound(g.order) && !CanRun(g)
    ensures CallsOf(SessionTrail(g, w)) == [] && UpdateAt(g, w, 0).requests == [] && !UpdateAt(g, w, 0).redirect
  {
    var p := PassAt(g, w, 0);
    var os := G.Outcomes(p);
    if Steering(g, w)(0) {
      RedirectsAreBounded(g, w, 0);
    }
    SessionSteers(g, w);
    PassKeepsPlan(p, w.strip, w.end);
    SessionCalls(g, w);
    G.NoneMade(os, |os|, w.end);
    G.NoneGranted(os, |os|);
  }
}
