/** Actions applied once: each use of a button or of a link reserves its key first. */
module ActionUse {
  import opened Wrappers

  datatype Result = Applied(actor: nat, status: string)

  /** How the action itself goes: it runs, is refused, or fails otherwise. */
  datatype Attempt = Runs(result: Result) | Refused(code: string) | Breaks

  datatype Row = InProgress | Finished(result: Result) | Rejected(code: string)

  datatype Error =
    | CannotUse(reason: string)
    | Taken
    | Rejection(code: string)
    | StillInProgress
    | SessionRefused
    | Failed

  /** Whether the caller's text says something; an empty one is replaced. */
  function Or(s: string, otherwise: string): string { if s == "" then otherwise else s }

  datatype Reply = Done(result: Result, again: bool) | Refusal(error: Error)

  /** What a second use of a button is told. */
  function Replay(row: Row): Reply {
    match row
    case Finished(r) => Done(Applied(r.actor, Or(r.status, "deduplicated")), true)
    case Rejected(code) => Refusal(Rejection(Or(code, "action_rejected")))
    case InProgress => Refusal(StillInProgress)
  }

  class Invocations {
    var rows: map<string, Row>
    /** The keys whose action took effect, each time it did. */
    ghost var effects: seq<string>

    /** A key's action took effect once when its row is finished, else not at all. */
    ghost predicate Valid()
      reads this
    {
      && (forall key | key in rows && rows[key].Finished? :: multiset(effects)[key] == 1)
      && (forall key | !(key in rows && rows[key].Finished?) :: multiset(effects)[key] == 0)
    }

    constructor ()
      ensures Valid() && rows == map[]
    {
      rows, effects := map[], [];
    }

    /** Inserts a row for the key unless there is one. */
    method Reserve(key: string) returns (reserved: bool)
      modifies this`rows
      ensures reserved <==> key !in old(rows)
      ensures rows == if reserved then old(rows)[key := InProgress] else old(rows)
    {
      reserved := key !in rows;
      if reserved {
        rows := rows[key := InProgress];
      }
    }

    /** What becomes of a use that has its key, `begun` being the rows before it had. */
    method Settle(key: string, attempt: Attempt, begun: map<string, Row>) returns (reply: Reply)
      modifies this
      ensures match attempt
        case Runs(result) =>
          && rows == old(rows)[key := Finished(result)] && effects == old(effects) + [key]
          && reply == Done(result, false)
        case Refused(code) =>
          rows == old(rows)[key := Rejected(code)] && effects == old(effects) && reply == Refusal(Rejection(code))
        case Breaks => rows == begun && effects == old(effects) && reply == Refusal(Failed)
    {
      match attempt {
        case Refused(code) =>
          rows := rows[key := Rejected(code)];
          return Refusal(Rejection(code));
        case Runs(result) =>
          effects := effects + [key];
          rows := rows[key := Finished(result)];
          return Done(result, false);
        case Breaks =>
          rows := begun;
          return Refusal(Failed);
      }
    }

    /** A button in a chat. A use of a key already used runs nothing and repeats the
        first outcome; a refusal is recorded, and committed; any other failure leaves
        through the request, which rolls all of it back. */
    method Press(key: string, attempt: Attempt) returns (reply: Reply)
      requires Valid()
      modifies this
      ensures Valid()
      ensures key in old(rows) ==> rows == old(rows) && effects == old(effects) && reply == Replay(old(rows)[key])
      ensures key !in old(rows) && attempt.Runs? ==>
        && rows == old(rows)[key := Finished(attempt.result)] && effects == old(effects) + [key]
        && reply == Done(attempt.result, false)
      ensures key !in old(rows) && attempt.Refused? ==>
        && rows == old(rows)[key := Rejected(attempt.code)] && effects == old(effects)
        && reply == Refusal(Rejection(attempt.code))
      ensures key !in old(rows) && attempt.Breaks? ==>
        rows == old(rows) && effects == old(effects) && reply == Refusal(Failed)
    {
      var begun := rows;
      var reserved := Reserve(key);
      if !reserved {
        return Replay(rows[key]);
      }
      reply := Settle(key, attempt, begun);
    }

    /** A link, read as ready before. The use and the action share a savepoint: unless
        the action runs, nothing is recorded. */
    method UseLink(key: string, refusal: Option<string>, attempt: Attempt) returns (reply: Reply)
      requires Valid()
      modifies this
      ensures Valid()
      ensures reply.Done? <==> refusal.None? && key !in old(rows) && attempt.Runs?
      ensures reply.Done? ==>
        && rows == old(rows)[key := Finished(attempt.result)] && effects == old(effects) + [key]
        && reply == Done(attempt.result, false)
      ensures reply.Refusal? ==> rows == old(rows) && effects == old(effects)
      ensures refusal.None? && key in old(rows) ==> reply == Refusal(Taken)
    {
      if refusal.Some? {
        return Refusal(CannotUse(refusal.value));
      }
      var savepoint := rows;
      var reserved := Reserve(key);
      if !reserved {
        return Refusal(Taken);
      }
      match attempt {
        case Runs(result) =>
          effects := effects + [key];
          rows := rows[key := Finished(result)];
          reply := Done(result, false);
        case Refused(code) =>
          rows := savepoint;
          reply := Refusal(Rejection(code));
        case Breaks =>
          rows := savepoint;
          reply := Refusal(SessionRefused);
      }
    }
  }

  // ------------------------------------------------------------ any interleaving

  /** Uses in flight at the same time, each by the key it reserved, and the effects
      committed. Reserving is the atomic insert; the rest of a use comes later. */
  datatype State = State(rows: map<string, Row>, holders: map<nat, string>, effects: seq<string>)

  datatype Step =
    | Begin(use: nat, key: string)
    | Commit(use: nat, result: Result)
    | Reject(use: nat, code: string)
    | RollBack(use: nat)

  function Next(s: State, step: Step): State {
    match step
    case Begin(use, key) =>
      if key in s.rows || use in s.holders then s
      else s.(rows := s.rows[key := InProgress], holders := s.holders[use := key])
    case Commit(use, result) =>
      if use !in s.holders then s
      else s.(rows := s.rows[s.holders[use] := Finished(result)], holders := s.holders - {use},
              effects := s.effects + [s.holders[use]])
    case Reject(use, code) =>
      if use !in s.holders then s
      else s.(rows := s.rows[s.holders[use] := Rejected(code)], holders := s.holders - {use})
    case RollBack(use) =>
      if use !in s.holders then s
      else s.(rows := s.rows - {s.holders[use]}, holders := s.holders - {use})
  }

  function Run(s: State, steps: seq<Step>): State
    decreases |steps|
  {
    if steps == [] then s else Run(Next(s, steps[0]), steps[1..])
  }

  /** Each key in progress is held by one use, and took effect only if finished. */
  ghost predicate Sound(s: State) {
    && (forall u | u in s.holders :: s.holders[u] in s.rows && s.rows[s.holders[u]] == InProgress)
    && (forall u, v | u in s.holders && v in s.holders && s.holders[u] == s.holders[v] :: u == v)
    && (forall key: string :: EffectsMatch(s, key))
  }

  predicate EffectsMatch(s: State, key: string) {
    multiset(s.effects)[key] == if key in s.rows && s.rows[key].Finished? then 1 else 0
  }

  lemma StepKeepsSound(s: State, step: Step)
    requires Sound(s)
    ensures Sound(Next(s, step))
  {
    var t := Next(s, step);
    forall key: string ensures EffectsMatch(t, key) {
      assert EffectsMatch(s, key);
    }
  }

  /** What is finished or rejected stays so. */
  predicate Settled(s: State, key: string) { key in s.rows && !s.rows[key].InProgress? }

  lemma StepKeepsSettled(s: State, step: Step, key: string)
    requires Sound(s) && Settled(s, key)
    ensures Settled(Next(s, step), key) && Next(s, step).rows[key] == s.rows[key]
  {
  }

  /** Over any interleaving of uses, a key's action takes effect at most once, and its
      first outcome, once committed, is its last. */
  lemma {:induction false} AtMostOnce(s: State, steps: seq<Step>, key: string)
    requires Sound(s)
    ensures Sound(Run(s, steps)) && multiset(Run(s, steps).effects)[key] <= 1
    ensures Settled(s, key) ==> Settled(Run(s, steps), key) && Run(s, steps).rows[key] == s.rows[key]
    decreases |steps|
  {
    if steps == [] {
      assert EffectsMatch(s, key);
    } else {
      StepKeepsSound(s, steps[0]);
      if Settled(s, key) {
        StepKeepsSettled(s, steps[0], key);
      }
      AtMostOnce(Next(s, steps[0]), steps[1..], key);
    }
  }

  /** A use that was rolled back leaves its key free to be used again. */
  lemma RolledBackIsFree(s: State, use: nat, again: nat)
    requires Sound(s) && use in s.holders && again !in s.holders
    ensures var key := s.holders[use];
      var t := Next(s, RollBack(use));
      key !in t.rows && t.effects == s.effects && again in Next(t, Begin(again, key)).holders
  {
  }

  /** The second press of a button repeats what the first was told, word for word if
      and only if the first's word is not empty. */
  lemma ReplayRepeatsIff(attempt: Attempt)
    requires !attempt.Breaks?
    ensures match attempt
      case Runs(r) => Replay(Finished(r)) == Done(r, true) <==> r.status != ""
      case Refused(code) => Replay(Rejected(code)) == Refusal(Rejection(code)) <==> code != ""
      case Breaks => true
  {
  }
}
