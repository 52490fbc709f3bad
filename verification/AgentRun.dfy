/** Runs of the wired graph: which nodes they visit, and how often. A run depends on
    the rest of the world only through which passes are redirected. */
module AgentRun {
  import opened Wrappers
  import G = TierGate
  import opened AgentGraph

  /** How many node visits an interactive session is allowed. */
  const INTERACTIVE_RECURSION_LIMIT: nat := 60

  /** Which passes are redirected: at most fifteen of them, and none without a plan to
      go back to. */
  ghost predicate Steers(order: seq<Node>, redirected: nat -> bool) {
    forall k: nat | redirected(k) :: k < G.MAX_TIER1_REDIRECTS && Plan in order && TierGate in order
  }

  /** A visit to a node, after `k` redirects. */
  datatype Visit = Visit(node: Node, k: nat)

  predicate GoesBack(order: seq<Node>, redirected: nat -> bool, i: nat, k: nat) {
    i < |order| && order[i] == TierGate && redirected(k)
  }

  /** The visits of a run from the node at `i` on, after `k` redirects. */
  function Visits(order: seq<Node>, redirected: nat -> bool, i: nat, k: nat): seq<Visit>
    requires Sound(order) && Steers(order, redirected) && i <= |order| && k <= G.MAX_TIER1_REDIRECTS
    decreases G.MAX_TIER1_REDIRECTS - k, |order| - i
  {
    if i == |order| then []
    else if GoesBack(order, redirected, i, k) then
      [Visit(order[i], k)] + Visits(order, redirected, IndexOf(order, Plan), k + 1)
    else [Visit(order[i], k)] + Visits(order, redirected, i + 1, k)
  }

  function Run(order: seq<Node>, redirected: nat -> bool): seq<Visit>
    requires Sound(order) && Steers(order, redirected)
  {
    Visits(order, redirected, 0, 0)
  }

  /** The visits follow the edges of the graph. */
  lemma VisitsFollowEdges(order: seq<Node>, redirected: nat -> bool, i: nat, k: nat)
    requires Sound(order) && Steers(order, redirected) && i < |order| && k <= G.MAX_TIER1_REDIRECTS
    ensures var visits := Visits(order, redirected, i, k);
      && visits[0] == Visit(order[i], k)
      && (|visits| > 1 <==> RouteAfter(EdgeOf(order, i), redirected(k)).Some?)
      && (|visits| > 1 ==> RouteAfter(EdgeOf(order, i), redirected(k)) == Some(visits[1].node))
  {
    if GoesBack(order, redirected, i, k) {
      var plan := IndexOf(order, Plan);
      assert Visits(order, redirected, plan, k + 1)[0].node == Plan;
    } else if i + 1 < |order| {
      assert Visits(order, redirected, i + 1, k)[0].node == order[i + 1];
    }
  }

  /** How often a run is redirected, once it has been `k` times. */
  function Redirects(order: seq<Node>, redirected: nat -> bool, k: nat): (n: nat)
    requires Steers(order, redirected) && k <= G.MAX_TIER1_REDIRECTS
    ensures k <= n <= G.MAX_TIER1_REDIRECTS && !redirected(n) && forall j | k <= j < n :: redirected(j)
    decreases G.MAX_TIER1_REDIRECTS - k
  {
    if redirected(k) then Redirects(order, redirected, k + 1) else k
  }

  predicate Looped(order: seq<Node>) { Plan in order && TierGate in order }

  /** The nodes from the plan to the gate: what a redirect repeats. */
  function LoopLength(order: seq<Node>): int {
    if Looped(order) then IndexOf(order, TierGate) - IndexOf(order, Plan) + 1 else 0
  }

  /** Of a run from `i` on, what is still to be repeated. */
  function Repeated(order: seq<Node>, redirected: nat -> bool, i: nat, k: nat): int
    requires Steers(order, redirected) && k <= G.MAX_TIER1_REDIRECTS
  {
    if Looped(order) && i <= IndexOf(order, TierGate)
    then (Redirects(order, redirected, k) - k) * LoopLength(order) else 0
  }

  lemma DistinctAt(order: seq<Node>, i: nat, node: Node)
    requires Distinct(order) && i < |order| && order[i] == node
    ensures IndexOf(order, node) == i
  {
  }

  lemma OnceMore(n: int, m: int)
    ensures (n + 1) * m == n * m + m
  {
  }

  lemma RepeatedOnce(order: seq<Node>, redirected: nat -> bool, i: nat, k: nat)
    requires Sound(order) && Steers(order, redirected) && k <= G.MAX_TIER1_REDIRECTS
      && GoesBack(order, redirected, i, k)
    ensures Repeated(order, redirected, i, k) ==
            Repeated(order, redirected, IndexOf(order, Plan), k + 1) + (i - IndexOf(order, Plan) + 1)
  {
    DistinctAt(order, i, TierGate);
    OnceMore(Redirects(order, redirected, k + 1) - k - 1, LoopLength(order));
  }

  lemma RepeatedOn(order: seq<Node>, redirected: nat -> bool, i: nat, k: nat)
    requires Sound(order) && Steers(order, redirected) && i < |order| && k <= G.MAX_TIER1_REDIRECTS
    requires !GoesBack(order, redirected, i, k)
    ensures Repeated(order, redirected, i, k) == Repeated(order, redirected, i + 1, k)
  {
    if Looped(order) && i == IndexOf(order, TierGate) {
      assert Redirects(order, redirected, k) == k;
    }
  }

  lemma {:induction false} VisitsLength(order: seq<Node>, redirected: nat -> bool, i: nat, k: nat)
    requires Sound(order) && Steers(order, redirected) && i <= |order| && k <= G.MAX_TIER1_REDIRECTS
    ensures |Visits(order, redirected, i, k)| == |order| - i + Repeated(order, redirected, i, k)
    decreases G.MAX_TIER1_REDIRECTS - k, |order| - i
  {
    if GoesBack(order, redirected, i, k) {
      VisitsLength(order, redirected, IndexOf(order, Plan), k + 1);
      RepeatedOnce(order, redirected, i, k);
    } else if i < |order| {
      VisitsLength(order, redirected, i + 1, k);
      RepeatedOn(order, redirected, i, k);
    }
  }

  /** Every run visits each node of the order once, and the nodes from the plan to the
      gate once more for each redirect. */
  lemma RunLength(order: seq<Node>, redirected: nat -> bool)
    requires Sound(order) && Steers(order, redirected)
    ensures |Run(order, redirected)| == |order| + Redirects(order, redirected, 0) * LoopLength(order)
  {
    VisitsLength(order, redirected, 0, 0);
  }

  // ------------------------------------------------------------ into execute

  /** Visit `j` enters execute straight from the gate, in the pass that is not
      redirected. */
  predicate EnteredFromGate(order: seq<Node>, redirected: nat -> bool, visits: seq<Visit>, j: nat, last: nat)
    requires j < |visits|
  {
    visits[j].node == Execute ==>
      j > 0 && visits[j - 1] == Visit(TierGate, last) && visits[j].k == last && !redirected(last)
  }

  /** From the gate that execute follows, when its pass is not redirected. */
  lemma ExecuteIsNext(order: seq<Node>, redirected: nat -> bool, i: nat, k: nat, j: nat)
    requires Sound(order) && Steers(order, redirected) && i + 1 < |order| && order[i + 1] == Execute
    requires k <= G.MAX_TIER1_REDIRECTS && !GoesBack(order, redirected, i, k)
    requires j < |Visits(order, redirected, i, k)|
    ensures EnteredFromGate(order, redirected, Visits(order, redirected, i, k), j, k) && !redirected(k)
  {
    GateHolds(order, redirected, i, k);
    DistinctAt(order, i + 1, Execute);
    NothingAfterExecute(order, redirected, i + 2, k);
    GateThenExecute(order, redirected, i, k);
  }

  lemma GateThenExecute(order: seq<Node>, redirected: nat -> bool, i: nat, k: nat)
    requires Sound(order) && Steers(order, redirected) && i + 1 < |order| && order[i + 1] == Execute
    requires order[i] == TierGate && k <= G.MAX_TIER1_REDIRECTS && !redirected(k)
    ensures Visits(order, redirected, i, k) ==
      [Visit(TierGate, k), Visit(Execute, k)] + Visits(order, redirected, i + 2, k)
  {
    assert Visits(order, redirected, i + 1, k) == [Visit(Execute, k)] + Visits(order, redirected, i + 2, k);
  }

  lemma EnteredLater(order: seq<Node>, redirected: nat -> bool, v: Visit, rest: seq<Visit>, j: nat, last: nat)
    requires v.node != Execute && j < |rest| + 1
    requires j > 0 ==> EnteredFromGate(order, redirected, rest, j - 1, last)
    ensures EnteredFromGate(order, redirected, [v] + rest, j, last)
  {
  }

  /** Visit `j` of what is left of the run from place `i` of pass `k`, as any visit. */
  predicate EnteredAhead(order: seq<Node>, redirected: nat -> bool, i: nat, k: nat, j: nat)
    requires Sound(order) && Steers(order, redirected) && i <= |order| && k <= G.MAX_TIER1_REDIRECTS
  {
    j < |Visits(order, redirected, i, k)| ==>
      EnteredFromGate(order, redirected, Visits(order, redirected, i, k), j, Redirects(order, redirected, k))
  }

  lemma EnteredBack(order: seq<Node>, redirected: nat -> bool, i: nat, k: nat, j: nat)
    requires Sound(order) && Steers(order, redirected) && k <= G.MAX_TIER1_REDIRECTS
    requires i < |order| && GoesBack(order, redirected, i, k)
    requires j > 0 ==> EnteredAhead(order, redirected, IndexOf(order, Plan), k + 1, j - 1)
    ensures EnteredAhead(order, redirected, i, k, j)
  {
    var rest := Visits(order, redirected, IndexOf(order, Plan), k + 1);
    if j <= |rest| {
      EnteredLater(order, redirected, Visit(TierGate, k), rest, j, Redirects(order, redirected, k));
    }
  }

  lemma EnteredOn(order: seq<Node>, redirected: nat -> bool, i: nat, k: nat, j: nat)
    requires Sound(order) && Steers(order, redirected) && k <= G.MAX_TIER1_REDIRECTS
    requires i < |order| && order[i] != Execute && !GoesBack(order, redirected, i, k)
    requires j > 0 ==> EnteredAhead(order, redirected, i + 1, k, j - 1)
    ensures EnteredAhead(order, redirected, i, k, j)
  {
    var rest := Visits(order, redirected, i + 1, k);
    if j <= |rest| {
      EnteredLater(order, redirected, Visit(order[i], k), rest, j, Redirects(order, redirected, k));
    }
  }

  lemma {:induction false} ExecuteIsEntered(order: seq<Node>, redirected: nat -> bool, i: nat, k: nat, j: nat)
    requires Sound(order) && Steers(order, redirected) && k <= G.MAX_TIER1_REDIRECTS
    requires i <= |order| && (i < |order| ==> order[i] != Execute)
    ensures EnteredAhead(order, redirected, i, k, j)
    decreases G.MAX_TIER1_REDIRECTS - k, |order| - i
  {
    if i == |order| {
    } else if GoesBack(order, redirected, i, k) {
      if j > 0 {
        ExecuteIsEntered(order, redirected, IndexOf(order, Plan), k + 1, j - 1);
      }
      EnteredBack(order, redirected, i, k, j);
    } else if i + 1 < |order| && order[i + 1] == Execute {
      if j < |Visits(order, redirected, i, k)| {
        ExecuteIsNext(order, redirected, i, k, j);
      }
    } else {
      if j > 0 {
        ExecuteIsEntered(order, redirected, i + 1, k, j - 1);
      }
      EnteredOn(order, redirected, i, k, j);
    }
  }

  lemma ExecuteFollowsGate(order: seq<Node>, i: nat)
    requires Sound(order) && i < |order| && order[i] == Execute
    ensures i > 0 && order[i - 1] == TierGate && IndexOf(order, TierGate) == i - 1
  {
    DistinctAt(order, i, Execute);
  }

  lemma {:induction false} NothingAfterExecute(order: seq<Node>, redirected: nat -> bool, i: nat, k: nat)
    requires Sound(order) && Steers(order, redirected) && i <= |order| && k <= G.MAX_TIER1_REDIRECTS
    requires Execute in order && i > IndexOf(order, Execute)
    ensures forall v | v in Visits(order, redirected, i, k) :: v.node != Execute && v.node != TierGate
    decreases |order| - i
  {
    if i < |order| {
      if order[i] == TierGate || order[i] == Execute {
        DistinctAt(order, i, order[i]);
      }
      NothingAfterExecute(order, redirected, i + 1, k);
    }
  }

  lemma ExecuteIsNotFirst(order: seq<Node>)
    requires Sound(order)
    ensures order[0] != Execute
  {
    assert Execute in order ==> IndexOf(order, Execute) > 0;
  }

  /** Execute is entered only straight from a gate whose pass was not redirected. */
  lemma ExecuteOnlyAfterGate(order: seq<Node>, redirected: nat -> bool, j: nat)
    requires Sound(order) && Steers(order, redirected) && j < |Run(order, redirected)|
    ensures EnteredFromGate(order, redirected, Run(order, redirected), j, Redirects(order, redirected, 0))
  {
    ExecuteIsNotFirst(order);
    ExecuteIsEntered(order, redirected, 0, 0, j);
  }

  /** What execute makes of what the gates leave: `left(k)` is left by the gate of pass
      `k`, and execute makes `made` of what it is left. */
  function Along<A, B>(left: nat -> A, made: A -> seq<B>, visits: seq<Visit>, held: A): seq<B> {
    if visits == [] then []
    else
      match visits[0].node
      case TierGate => Along(left, made, visits[1..], left(visits[0].k))
      case Execute => made(held) + Along(left, made, visits[1..], held)
      case _ => Along(left, made, visits[1..], held)
  }

  lemma AlongCons<A, B>(left: nat -> A, made: A -> seq<B>, v: Visit, rest: seq<Visit>, held: A)
    ensures Along(left, made, [v] + rest, held) ==
      (if v.node == Execute then made(held) else []) +
        Along(left, made, rest, if v.node == TierGate then left(v.k) else held)
  {
    assert ([v] + rest)[1..] == rest;
  }

  /** What execute makes of the last pass, if it is still to come. */
  function Ahead<A, B>(left: nat -> A, made: A -> seq<B>, order: seq<Node>, i: nat, last: nat): seq<B> {
    if Execute in order && i <= IndexOf(order, Execute) then made(left(last)) else []
  }

  lemma AheadOn<A, B>(left: nat -> A, made: A -> seq<B>, order: seq<Node>, i: nat, last: nat, held: A)
    requires Sound(order) && i < |order| && (order[i] == Execute ==> held == left(last))
    ensures Ahead(left, made, order, i, last) ==
            (if order[i] == Execute then made(held) else []) + Ahead(left, made, order, i + 1, last)
  {
    if order[i] == Execute {
      DistinctAt(order, i, Execute);
    }
  }

  lemma AheadBack<A, B>(left: nat -> A, made: A -> seq<B>, order: seq<Node>, i: nat, last: nat)
    requires Sound(order) && i < |order| && order[i] == TierGate && Plan in order
    ensures Ahead(left, made, order, i, last) == Ahead(left, made, order, IndexOf(order, Plan), last)
  {
    DistinctAt(order, i, TierGate);
  }

  /** What a gate holds for the node behind it is what it left. */
  lemma GateHolds(order: seq<Node>, redirected: nat -> bool, i: nat, k: nat)
    requires Sound(order) && i + 1 < |order| && order[i + 1] == Execute && !GoesBack(order, redirected, i, k)
    ensures order[i] == TierGate && !redirected(k)
  {
    ExecuteFollowsGate(order, i + 1);
  }

  /** From place `i` of pass `k` on, execute works on what the last pass leaves. */
  ghost predicate UsesLastPass<A, B>(
    left: nat -> A, made: A -> seq<B>, order: seq<Node>, redirected: nat -> bool, i: nat, k: nat, held: A)
    requires Sound(order) && Steers(order, redirected) && i <= |order| && k <= G.MAX_TIER1_REDIRECTS
  {
    Along(left, made, Visits(order, redirected, i, k), held) ==
    Ahead(left, made, order, i, Redirects(order, redirected, k))
  }

  lemma BackUsesLastPass<A, B>(
    left: nat -> A, made: A -> seq<B>, order: seq<Node>, redirected: nat -> bool, i: nat, k: nat, held: A)
    requires Sound(order) && Steers(order, redirected) && k <= G.MAX_TIER1_REDIRECTS
    requires i < |order| && GoesBack(order, redirected, i, k)
    requires UsesLastPass(left, made, order, redirected, IndexOf(order, Plan), k + 1, left(k))
    ensures UsesLastPass(left, made, order, redirected, i, k, held)
  {
    AlongCons(left, made, Visit(TierGate, k), Visits(order, redirected, IndexOf(order, Plan), k + 1), held);
    AheadBack(left, made, order, i, Redirects(order, redirected, k));
  }

  lemma OnUsesLastPass<A, B>(
    left: nat -> A, made: A -> seq<B>, order: seq<Node>, redirected: nat -> bool, i: nat, k: nat, held: A)
    requires Sound(order) && Steers(order, redirected) && k <= G.MAX_TIER1_REDIRECTS
    requires i < |order| && !GoesBack(order, redirected, i, k)
    requires order[i] == Execute ==> held == left(k) && !redirected(k)
    requires UsesLastPass(left, made, order, redirected, i + 1, k, if order[i] == TierGate then left(k) else held)
    ensures UsesLastPass(left, made, order, redirected, i, k, held)
  {
    AlongCons(left, made, Visit(order[i], k), Visits(order, redirected, i + 1, k), held);
    AheadOn(left, made, order, i, Redirects(order, redirected, k), held);
  }

  lemma {:induction false} VisitsUseLastPass<A, B>(
    left: nat -> A, made: A -> seq<B>, order: seq<Node>, redirected: nat -> bool, i: nat, k: nat, held: A)
    requires Sound(order) && Steers(order, redirected) && i <= |order| && k <= G.MAX_TIER1_REDIRECTS
    requires i < |order| && order[i] == Execute ==> held == left(k) && !redirected(k)
    ensures UsesLastPass(left, made, order, redirected, i, k, held)
    decreases G.MAX_TIER1_REDIRECTS - k, |order| - i
  {
    if GoesBack(order, redirected, i, k) {
      VisitsUseLastPass(left, made, order, redirected, IndexOf(order, Plan), k + 1, left(k));
      BackUsesLastPass(left, made, order, redirected, i, k, held);
    } else if i < |order| {
      if i + 1 < |order| && order[i + 1] == Execute {
        GateHolds(order, redirected, i, k);
      }
      VisitsUseLastPass(left, made, order, redirected, i + 1, k, if order[i] == TierGate then left(k) else held);
      OnUsesLastPass(left, made, order, redirected, i, k, held);
    }
  }

  /** Execute works on what the last pass left, once, and on nothing of any pass that
      was redirected. */
  lemma RunUsesLastPass<A, B>(left: nat -> A, made: A -> seq<B>, order: seq<Node>, redirected: nat -> bool, held: A)
    requires Sound(order) && Steers(order, redirected)
    ensures Along(left, made, Run(order, redirected), held) ==
            if Execute in order then made(left(Redirects(order, redirected, 0))) else []
  {
    ExecuteIsNotFirst(order);
    VisitsUseLastPass(left, made, order, redirected, 0, 0, held);
  }

  // ------------------------------------------------------------ within the limit

  lemma AllNodes(order: seq<Node>)
    requires Distinct(order)
    ensures |order| <= 9
  {
    var all := {Recall, Observe, Diagnose, Plan, TierGate, Execute, Verify, Summarize, Remember};
    SetSize(order);
    forall n | n in order ensures n in all {
      match n {
        case Recall => case Observe => case Diagnose => case Plan => case TierGate =>
        case Execute => case Verify => case Summarize => case Remember =>
      }
    }
    SubsetSize((set n | n in order), all);
  }

  lemma {:induction false} SubsetSize<T>(xs: set<T>, ys: set<T>)
    requires xs <= ys
    ensures |xs| <= |ys|
  {
    if xs != {} {
      var x :| x in xs;
      SubsetSize(xs - {x}, ys - {x});
    }
  }

  /** Every run of an order stays within the limit if and only if the plan is at most
      two places before the gate. */
  lemma FitsLimitIff(order: seq<Node>)
    requires Sound(order) && Looped(order)
    ensures (forall redirected | Steers(order, redirected) :: |Run(order, redirected)| <= INTERACTIVE_RECURSION_LIMIT)
       <==> IndexOf(order, TierGate) - IndexOf(order, Plan) <= 2
  {
    AllNodes(order);
    if IndexOf(order, TierGate) - IndexOf(order, Plan) <= 2 {
      forall redirected | Steers(order, redirected)
        ensures |Run(order, redirected)| <= INTERACTIVE_RECURSION_LIMIT
      {
        RunLength(order, redirected);
        AtMost(Redirects(order, redirected, 0), LoopLength(order));
      }
    } else {
      LongLoopExceeds(order);
    }
  }

  /** Redirected as often as it may be, a longer loop does not fit. */
  lemma LongLoopExceeds(order: seq<Node>)
    requires Sound(order) && Looped(order) && IndexOf(order, TierGate) - IndexOf(order, Plan) > 2
    ensures exists redirected :: Steers(order, redirected) && |Run(order, redirected)| > INTERACTIVE_RECURSION_LIMIT
  {
    var always := (k: nat) => k < G.MAX_TIER1_REDIRECTS;
    RunLength(order, always);
    assert Redirects(order, always, 0) == 15;
    assert Steers(order, always);
  }

  lemma AtMost(n: int, m: int)
    requires 0 <= n <= 15 && 0 <= m <= 3
    ensures n * m <= 45
  {
  }

  /** An order of nine with the gate right behind the plan, as the default is, needs
      at most 39 visits. */
  lemma ShortLoopLength(order: seq<Node>, redirected: nat -> bool)
    requires Sound(order) && Steers(order, redirected) && Looped(order) && |order| == 9
    requires IndexOf(order, TierGate) == IndexOf(order, Plan) + 1
    ensures |Run(order, redirected)| == 9 + 2 * Redirects(order, redirected, 0) <= 39
  {
    RunLength(order, redirected);
  }

  lemma DefaultIsShort(order: seq<Node>)
    requires order == DEFAULT_ORDER
    ensures ValidateNodeOrder(None) == Ok(order) && Sound(order) && Looped(order) && |order| == 9
    ensures IndexOf(order, TierGate) == IndexOf(order, Plan) + 1
  {
    assert order[3] == Plan && order[4] == TierGate && order[5] == Execute;
    DefaultIsDistinct(order);
    DistinctAt(order, 3, Plan);
    DistinctAt(order, 4, TierGate);
    DistinctAt(order, 5, Execute);
  }

  lemma DefaultIsDistinct(order: seq<Node>)
    requires order == DEFAULT_ORDER
    ensures Distinct(order)
  {
  }
}
