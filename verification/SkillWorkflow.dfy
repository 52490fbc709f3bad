/** The executor of workflows that a Skill declares. */
module SkillWorkflow {
  import opened Wrappers
  import opened Json
  import opened TierPolicy

  // ------------------------------------------------------------ templates

  /** A piece of a template string: literal text, or a path to look up. */
  datatype Piece = Lit(text: string) | Look(path: seq<string>)

  /** A step's inputs before their templates are resolved. */
  datatype Template =
    | Fixed(value: Value)
    | Whole(path: seq<string>)
    | Mixed(pieces: seq<Piece>)
    | Items(items: seq<Template>)
    | Fields(names: seq<string>, values: seq<Template>)

  /** What templates may read: the incident, and what steps left under their ids. */
  datatype Context = Context(incident: Value, steps: seq<(string, Value)>)

  function Walk(value: Value, path: seq<string>): Option<Value>
    decreases |path|
  {
    if path == [] then Some(value)
    else if value.Obj? && Field(value.fields, path[0]).Some? then Walk(Field(value.fields, path[0]).value, path[1..])
    else None
  }

  function Lookup(path: seq<string>, ctx: Context): Option<Value> {
    if path == [] then None
    else if path[0] == "incident" then Walk(ctx.incident, path[1..])
    else if path[0] == "steps" then Walk(Obj(ctx.steps), path[1..])
    else None
  }

  function PieceText(piece: Piece, ctx: Context, render: Value -> string): Option<string> {
    match piece
    case Lit(text) => Some(text)
    case Look(path) =>
      var v := Lookup(path, ctx);
      if v.None? then None else Some(if v.value.Null? then "" else render(v.value))
  }

  function PiecesText(pieces: seq<Piece>, ctx: Context, render: Value -> string): Option<string> {
    if pieces == [] then Some("")
    else
      var head, rest := PieceText(pieces[0], ctx, render), PiecesText(pieces[1..], ctx, render);
      if head.None? || rest.None? then None else Some(head.value + rest.value)
  }

  /** A template's value, or None when something it refers to is unavailable. */
  function Resolve(t: Template, ctx: Context, render: Value -> string): Option<Value>
    decreases t
  {
    match t
    case Fixed(value) => Some(value)
    case Whole(path) => Lookup(path, ctx)
    case Mixed(pieces) =>
      var text := PiecesText(pieces, ctx, render);
      if text.None? then None else Some(Str(text.value))
    case Items(items) =>
      var values := ResolveItems(items, ctx, render);
      if values.None? then None else Some(Arr(values.value))
    case Fields(names, templates) =>
      var values := ResolveItems(templates, ctx, render);
      if values.None? then None else Some(Obj(Zip(names, values.value)))
  }

  function ResolveItems(items: seq<Template>, ctx: Context, render: Value -> string): Option<seq<Value>>
    decreases items
  {
    if items == [] then Some([])
    else
      var head, rest := Resolve(items[0], ctx, render), ResolveItems(items[1..], ctx, render);
      if head.None? || rest.None? then None else Some([head.value] + rest.value)
  }

  function Zip(names: seq<string>, values: seq<Value>): seq<(string, Value)>
    decreases |names|
  {
    if names == [] || values == [] then [] else [(names[0], values[0])] + Zip(names[1..], values[1..])
  }

  /** The ids of the steps a template names; None stands for all of them at once. */
  function PathNames(path: seq<string>): set<Option<string>> {
    if path == [] || path[0] != "steps" then {} else if |path| == 1 then {None} else {Some(path[1])}
  }

  function Names(t: Template): set<Option<string>>
    decreases t
  {
    match t
    case Fixed(_) => {}
    case Whole(path) => PathNames(path)
    case Mixed(pieces) => PieceNames(pieces)
    case Items(items) => ItemNames(items)
    case Fields(_, values) => ItemNames(values)
  }

  function PieceNames(pieces: seq<Piece>): set<Option<string>> {
    if pieces == [] then {}
    else (if pieces[0].Look? then PathNames(pieces[0].path) else {}) + PieceNames(pieces[1..])
  }

  function ItemNames(items: seq<Template>): set<Option<string>>
    decreases items
  {
    if items == [] then {} else Names(items[0]) + ItemNames(items[1..])
  }

  /** The named steps left something, and the same in both contexts. */
  ghost predicate Alike(names: set<Option<string>>, ctx: Context, other: Context) {
    && ctx.incident == other.incident
    && (None in names ==> ctx.steps == other.steps)
    && forall id: string | Some(id) in names :: Field(ctx.steps, id) == Field(other.steps, id)
  }

  ghost predicate AllThere(names: set<Option<string>>, ctx: Context) {
    forall id: string | Some(id) in names :: Field(ctx.steps, id).Some?
  }

  /** A template that resolves names only steps that left something, and its value
      depends on nothing any other step left. */
  lemma {:induction false} ResolveReads(t: Template, ctx: Context, other: Context, render: Value -> string)
    requires Resolve(t, ctx, render).Some?
    ensures AllThere(Names(t), ctx)
    ensures Alike(Names(t), ctx, other) ==> Resolve(t, other, render) == Resolve(t, ctx, render)
    decreases t
  {
    match t {
      case Fixed(_) =>
      case Whole(path) => LookupReads(path, ctx, other);
      case Mixed(pieces) => PiecesRead(pieces, ctx, other, render);
      case Items(items) => ItemsRead(items, ctx, other, render);
      case Fields(_, values) => ItemsRead(values, ctx, other, render);
    }
  }

  lemma LookupReads(path: seq<string>, ctx: Context, other: Context)
    requires Lookup(path, ctx).Some?
    ensures AllThere(PathNames(path), ctx)
    ensures Alike(PathNames(path), ctx, other) ==> Lookup(path, other) == Lookup(path, ctx)
  {
    if path[0] == "steps" && |path| > 1 {
      assert path[1..][0] == path[1];
      assert Some(path[1]) in PathNames(path);
    }
  }

  lemma {:induction false} PiecesRead(pieces: seq<Piece>, ctx: Context, other: Context, render: Value -> string)
    requires PiecesText(pieces, ctx, render).Some?
    ensures AllThere(PieceNames(pieces), ctx)
    ensures Alike(PieceNames(pieces), ctx, other) ==>
      PiecesText(pieces, other, render) == PiecesText(pieces, ctx, render)
    decreases |pieces|
  {
    if pieces != [] {
      if pieces[0].Look? {
        LookupReads(pieces[0].path, ctx, other);
      }
      PiecesRead(pieces[1..], ctx, other, render);
    }
  }

  lemma {:induction false} ItemsRead(items: seq<Template>, ctx: Context, other: Context, render: Value -> string)
    requires ResolveItems(items, ctx, render).Some?
    ensures AllThere(ItemNames(items), ctx)
    ensures Alike(ItemNames(items), ctx, other) ==>
      ResolveItems(items, other, render) == ResolveItems(items, ctx, render)
    decreases items
  {
    if items != [] {
      ResolveReads(items[0], ctx, other, render);
      ItemsRead(items[1..], ctx, other, render);
    }
  }

  // ------------------------------------------------------------ steps

  datatype Override = NoOverride | ToMode(mode: Mode) | ToTier(tier: nat)

  datatype Step = Step(id: string, tool: string, inputs: Template, aborts: bool, override: Override)

  /** The verdict a step runs under, and whether it must be approved in any case. */
  function EffectiveEnforcement(step: Step, tier: int, skill: Skill): (Verdict, bool) {
    match step.override
    case ToMode(mode) =>
      var v := Check(step.tool, tier, skill);
      if mode == Blocked || mode == Advisory then
        (v.(permitted := false, requiresApproval := false, reason := Reason.Override(mode)), false)
      else (v, mode == Approval && v.permitted)
    case ToTier(n) => (Check(step.tool, if n > tier then n else tier, skill), false)
    case NoOverride => (Check(step.tool, tier, skill), false)
  }

  /** More permissive: it runs what the other refuses, or runs unasked what the other
      asks about. */
  predicate Looser(permitted: bool, asks: bool, than: Verdict) {
    permitted && (!than.permitted || (than.requiresApproval && !asks))
  }

  /** A policy that runs a tool, with a person or without. */
  predicate Running(p: Option<Policy>) { p.Some? && p.value.enabled && p.value.mode in {Autonomous, Mode.Approval} }

  /** A Skill's own table lets a tool run at a tier. */
  predicate TableRuns(tool: string, tier: int, skill: Skill) {
    Running(skill.policy(tool, tier)) && (tier == 0 ==> skill.floorViolation(tool).None?)
  }

  predicate TableAsks(tool: string, tier: int, skill: Skill) {
    skill.policy(tool, tier).Some? && skill.policy(tool, tier).value.mode == Mode.Approval
  }

  /** An override makes a step more permissive than its session exactly when it names a
      higher tier at which the Skill holds the tool back less: a generic tool that is
      not opted out, moved to Tier 1, where it is asked about; or a tool whose
      policy at the higher tier runs it, while the session's tier does not, or runs it
      only with approval that the higher one does without. No order between a Skill's
      policies keeps it from that. */
  lemma OverrideLoosensIff(step: Step, tier: int, skill: Skill)
    ensures var (v, force) := EffectiveEnforcement(step, tier, skill);
      Looser(v.permitted, v.requiresApproval || force, Check(step.tool, tier, skill)) <==>
      && step.override.ToTier? && step.override.tier > tier && !skill.denied(step.tool)
      && var own, n := NormalizeTier(tier), NormalizeTier(step.override.tier);
         if skill.generic(step.tool) && !skill.allowsGeneric(step.tool) then n == 1 != own
         else
           && TableRuns(step.tool, n, skill)
           && (!TableRuns(step.tool, own, skill) ||
               (TableAsks(step.tool, own, skill) && !TableAsks(step.tool, n, skill)))
  {
  }

  /** A Skill that blocks a tool at Tier 0 and runs it at Tier 1: a step that overrides
      to Tier 1 runs it unasked in a Tier 0 session. */
  lemma OverrideMayLoosen(step: Step, skill: Skill)
    requires step.override == ToTier(1) && !skill.denied(step.tool) && !skill.generic(step.tool)
    requires skill.policy(step.tool, 0) == Some(Policy(false, Blocked))
    requires skill.policy(step.tool, 1) == Some(Policy(true, Autonomous))
    ensures !Check(step.tool, 0, skill).permitted
    ensures var (v, force) := EffectiveEnforcement(step, 0, skill); v.permitted && !v.requiresApproval && !force
  {
  }
}
