/** The agent's node order, and the wiring made of it. */
module AgentGraph {
  import opened Wrappers
  import opened Text

  datatype Node = Recall | Observe | Diagnose | Plan | TierGate | Execute | Verify | Summarize | Remember

  const DEFAULT_ORDER: seq<Node> := [Recall, Observe, Diagnose, Plan, TierGate, Execute, Verify, Summarize, Remember]

  function NodeOf(name: string): Option<Node> {
    if name == "recall" then Some(Recall)
    else if name == "observe" then Some(Observe)
    else if name == "diagnose" then Some(Diagnose)
    else if name == "plan" then Some(Plan)
    else if name == "tier_gate" then Some(TierGate)
    else if name == "execute" then Some(Execute)
    else if name == "verify" then Some(Verify)
    else if name == "summarize" then Some(Summarize)
    else if name == "remember" then Some(Remember)
    else None
  }

  datatype Invalid =
    | EmptyOrder
    | BlankNode
    | DuplicateNode
    | Unsupported(names: seq<string>)
    | ExecuteWithoutGate
    | GateNotBeforeExecute
    | GateWithoutExecute
    | PlanAfterGate

  function IndexOf(order: seq<Node>, node: Node): (i: nat)
    requires node in order
    ensures i < |order| && order[i] == node && forall k | 0 <= k < i :: order[k] != node
  {
    if order[0] == node then 0 else 1 + IndexOf(order[1..], node)
  }

  /** The names without surrounding blanks, blank ones dropped. */
  function Cleaned(raw: seq<string>): seq<string> {
    if raw == [] then []
    else (if Strip(raw[0]) == "" then [] else [Strip(raw[0])]) + Cleaned(raw[1..])
  }

  function Unknown(names: seq<string>): seq<string> {
    if names == [] then [] else (if NodeOf(names[0]).None? then [names[0]] else []) + Unknown(names[1..])
  }

  function NodesOf(names: seq<string>): seq<Node>
    requires forall i | 0 <= i < |names| :: NodeOf(names[i]).Some?
  {
    seq(|names|, i requires 0 <= i < |names| => NodeOf(names[i]).value)
  }

  function Misplaced(order: seq<Node>): Option<Invalid> {
    if Execute in order && TierGate !in order then Some(ExecuteWithoutGate)
    else if Execute in order && IndexOf(order, TierGate) + 1 != IndexOf(order, Execute) then Some(GateNotBeforeExecute)
    else if TierGate in order && Execute !in order then Some(GateWithoutExecute)
    else if Plan in order && TierGate in order && IndexOf(order, Plan) > IndexOf(order, TierGate)
      then Some(PlanAfterGate)
    else None
  }

  function ValidateNodeOrder(given: Option<seq<string>>): Result<seq<Node>, Invalid> {
    if given.None? then Ok(DEFAULT_ORDER)
    else if given.value == [] then Err(EmptyOrder)
    else
      var names := Cleaned(given.value);
      UnknownIs(names);
      if |names| != |given.value| then Err(BlankNode)
      else if |set n | n in names| != |names| then Err(DuplicateNode)
      else if Unknown(names) != [] then Err(Unsupported(Unknown(names)))
      else
        var order := NodesOf(names);
        if Misplaced(order).Some? then Err(Misplaced(order).value) else Ok(order)
  }

  predicate Distinct<T(==)>(xs: seq<T>) { forall i, j | 0 <= i < j < |xs| :: xs[i] != xs[j] }

  /** Each node at most once; the gate comes right before execute, each only with the
      other, and never before the plan it checks. */
  predicate Sound(order: seq<Node>) {
    && order != []
    && Distinct(order)
    && (Execute in order <==> TierGate in order)
    && (TierGate in order ==> IndexOf(order, Execute) == IndexOf(order, TierGate) + 1)
    && (TierGate in order && Plan in order ==> IndexOf(order, Plan) < IndexOf(order, TierGate))
  }

  function Stripped(raw: seq<string>): seq<string> { seq(|raw|, i requires 0 <= i < |raw| => Strip(raw[i])) }

  lemma StrippedCons(raw: seq<string>)
    requires raw != []
    ensures Stripped(raw) == [Strip(raw[0])] + Stripped(raw[1..])
  {
  }

  lemma {:induction false} CleanedIs(raw: seq<string>)
    ensures |Cleaned(raw)| <= |raw|
    ensures |Cleaned(raw)| == |raw| ==> Cleaned(raw) == Stripped(raw)
    ensures |Cleaned(raw)| == |raw| <==> "" !in Stripped(raw)
  {
    if raw != [] {
      StrippedCons(raw);
      CleanedIs(raw[1..]);
    }
  }

  lemma {:induction false} UnknownIs(names: seq<string>)
    ensures Unknown(names) == [] <==> forall i | 0 <= i < |names| :: NodeOf(names[i]).Some?
  {
    if names != [] {
      var rest := names[1..];
      UnknownIs(rest);
      assert forall i | 0 <= i < |rest| :: rest[i] == names[i + 1];
      if forall i | 0 <= i < |rest| :: NodeOf(rest[i]).Some? {
        assert forall i | 0 < i < |names| :: names[i] == rest[i - 1];
      }
    }
  }

  lemma {:induction false} SetSize<T>(xs: seq<T>)
    ensures |set x | x in xs| <= |xs|
    ensures |set x | x in xs| == |xs| <==> Distinct(xs)
  {
    if xs != [] {
      var rest := xs[1..];
      SetSize(rest);
      DistinctCons(xs[0], rest);
      assert xs == [xs[0]] + rest;
      var all, less := set x | x in xs, set x | x in rest;
      assert all == less + {xs[0]};
      if xs[0] in rest {
        assert all == less;
      }
    }
  }

  lemma DistinctCons<T>(x: T, xs: seq<T>)
    ensures Distinct([x] + xs) <==> x !in xs && Distinct(xs)
  {
    var all := [x] + xs;
    if Distinct(all) {
      forall i, j | 0 <= i < j < |xs| ensures xs[i] != xs[j] {
        assert all[i + 1] != all[j + 1];
      }
      forall j | 0 <= j < |xs| ensures xs[j] != x {
        assert all[0] != all[j + 1];
      }
    }
  }

  lemma NamesTellNodesApart(s: string, t: string)
    requires NodeOf(s).Some? && NodeOf(s) == NodeOf(t)
    ensures s == t
  {
  }

  lemma NodesDistinct(names: seq<string>)
    requires forall i | 0 <= i < |names| :: NodeOf(names[i]).Some?
    ensures Distinct(NodesOf(names)) <==> Distinct(names)
  {
    var order := NodesOf(names);
    forall i, j | 0 <= i < j < |names| ensures order[i] == order[j] <==> names[i] == names[j] {
      if order[i] == order[j] {
        NamesTellNodesApart(names[i], names[j]);
      }
    }
  }

  lemma MisplacedIff(order: seq<Node>)
    requires order != [] && Distinct(order)
    ensures Misplaced(order).None? <==> Sound(order)
  {
    if Plan in order && TierGate in order {
      assert IndexOf(order, Plan) != IndexOf(order, TierGate);
    }
  }

  /** An order is accepted exactly when, blanks around its names aside, it names known
      nodes in a sound order; and that order is the one returned. */
  lemma ValidIff(raw: seq<string>)
    ensures var names, result := Stripped(raw), ValidateNodeOrder(Some(raw));
      (result.Ok? <==> (forall i | 0 <= i < |names| :: NodeOf(names[i]).Some?) && Sound(NodesOf(names)))
      && (result.Ok? ==> (forall i | 0 <= i < |names| :: NodeOf(names[i]).Some?) && result.value == NodesOf(names))
  {
    var names := Cleaned(raw);
    CleanedIs(raw);
    if |names| == |raw| {
      UnknownIs(names);
      SetSize(names);
      if Unknown(names) == [] && raw != [] {
        NodesDistinct(names);
        if Distinct(names) {
          MisplacedIff(NodesOf(names));
        }
      }
    } else {
      assert NodeOf("").None?;
    }
  }

  // ------------------------------------------------------------ the wiring

  /** Where a node leads: on to another or to the end, or, from the gate, back to the
      plan when the pass was redirected. */
  datatype Edge = Linear(next: Option<Node>) | Conditional(back: Node, onward: Node)

  function EdgeOf(order: seq<Node>, i: nat): Edge
    requires i < |order|
  {
    if i == |order| - 1 then Linear(None)
    else if order[i] == TierGate && Plan in order then Conditional(Plan, order[i + 1])
    else Linear(Some(order[i + 1]))
  }

  function RouteAfter(edge: Edge, redirected: bool): Option<Node> {
    match edge
    case Linear(next) => next
    case Conditional(back, onward) => Some(if redirected then back else onward)
  }

  ghost predicate Wired(edges: map<Node, Edge>, order: seq<Node>, n: nat)
    requires n <= |order|
  {
    && (forall i | 0 <= i < n :: order[i] in edges && edges[order[i]] == EdgeOf(order, i))
    && (forall x | x in edges :: x in order[..n])
  }

  lemma WiredNext(edges: map<Node, Edge>, order: seq<Node>, n: nat)
    requires n < |order| && Distinct(order) && Wired(edges, order, n)
    ensures Wired(edges[order[n] := EdgeOf(order, n)], order, n + 1)
  {
    assert order[..n + 1] == order[..n] + [order[n]];
  }

  /** The edges of the graph, laid between neighbours in the order. */
  method WireEdges(order: seq<Node>) returns (edges: map<Node, Edge>)
    requires Sound(order)
    ensures Wired(edges, order, |order|)
  {
    edges := map[];
    var canLoop := Plan in order;
    for i := 0 to |order| - 1
      invariant Wired(edges, order, i)
    {
      WiredNext(edges, order, i);
      var edge := if order[i] == TierGate && canLoop then Conditional(Plan, order[i + 1])
        else Linear(Some(order[i + 1]));
      edges := edges[order[i] := edge];
    }
    WiredNext(edges, order, |order| - 1);
    edges := edges[order[|order| - 1] := Linear(None)];
  }
}
