/** The manager of one process: the Slack connectors it serves over Socket Mode,
    the sockets it holds, and the tick that takes, renews and gives up leases.
    What it does to one connector's row and socket is one process's part of the
    protocol in SlackLease. */
module SlackSocket {
  import opened Wrappers
  import Lease = SlackLease

  type Id = nat

  /** A connector with the tokens its environment and credentials resolve to. */
  datatype Connector = Connector(
    id: Id,
    name: string,
    socketMode: bool,
    appToken: Option<string>,
    botToken: Option<string>,
    tokenEnv: string
  )

  datatype Token = App(value: string) | Bot(value: string)

  predicate Holds(c: Connector, t: Token) {
    c.socketMode &&
    match t
    case App(v) => c.appToken == Some(v)
    case Bot(v) => c.botToken == Some(v)
  }

  predicate DistinctIds(cs: seq<Connector>) {
    forall i, j | 0 <= i < j < |cs| :: cs[i].id != cs[j].id
  }

  /** Two connectors of one Slack app: the same app-level or the same bot token. */
  predicate Shares(c: Connector, d: Connector) {
    c != d && c.socketMode && d.socketMode &&
    ((c.appToken.Some? && c.appToken == d.appToken) || (c.botToken.Some? && c.botToken == d.botToken))
  }

  lemma SharesAToken(c: Connector, d: Connector)
    ensures Shares(c, d) <==> c != d && exists t :: Holds(c, t) && Holds(d, t)
  {
    if Shares(c, d) {
      if c.appToken.Some? && c.appToken == d.appToken {
        assert Holds(c, App(c.appToken.value)) && Holds(d, App(c.appToken.value));
      } else {
        assert Holds(c, Bot(c.botToken.value)) && Holds(d, Bot(c.botToken.value));
      }
    }
  }

  // ------------------------------------------------------- connectors in conflict

  /** The connectors among the first `i` that hold token `t`. */
  ghost function Holders(cs: seq<Connector>, i: nat, t: Token): seq<Connector>
    requires i <= |cs|
  {
    if i == 0 then []
    else if Holds(cs[i - 1], t) then Holders(cs, i - 1, t) + [cs[i - 1]]
    else Holders(cs, i - 1, t)
  }

  function Members(groups: map<Token, seq<Connector>>, t: Token): seq<Connector> {
    if t in groups then groups[t] else []
  }

  function Joined(groups: map<Token, seq<Connector>>, t: Token, c: Connector): map<Token, seq<Connector>> {
    groups[t := Members(groups, t) + [c]]
  }

  function JoinedBoth(groups: map<Token, seq<Connector>>, c: Connector): map<Token, seq<Connector>> {
    if !c.socketMode then groups
    else
      var g := if c.appToken.Some? then Joined(groups, App(c.appToken.value), c) else groups;
      if c.botToken.Some? then Joined(g, Bot(c.botToken.value), c) else g
  }

  lemma JoinedAt(groups: map<Token, seq<Connector>>, c: Connector, t: Token)
    ensures Members(JoinedBoth(groups, c), t) == if Holds(c, t) then Members(groups, t) + [c] else Members(groups, t)
  {
  }

  /** Each token's group is its holders among the first `i` connectors. */
  ghost predicate Grouped(groups: map<Token, seq<Connector>>, cs: seq<Connector>, i: nat)
    requires i <= |cs|
  {
    forall t :: Members(groups, t) == Holders(cs, i, t)
  }

  lemma GroupedNext(groups: map<Token, seq<Connector>>, cs: seq<Connector>, i: nat)
    requires i < |cs| && Grouped(groups, cs, i)
    ensures Grouped(JoinedBoth(groups, cs[i]), cs, i + 1)
  {
    forall t ensures Members(JoinedBoth(groups, cs[i]), t) == Holders(cs, i + 1, t) {
      JoinedAt(groups, cs[i], t);
    }
  }

  method GroupByToken(connectors: seq<Connector>) returns (groups: map<Token, seq<Connector>>)
    ensures forall t :: Members(groups, t) == Holders(connectors, |connectors|, t)
  {
    groups := map[];
    for i := 0 to |connectors|
      invariant Grouped(groups, connectors, i)
    {
      var c := connectors[i];
      GroupedNext(groups, connectors, i);
      ghost var before := groups;
      if c.socketMode {
        if c.appToken.Some? {
          groups := Joined(groups, App(c.appToken.value), c);
        }
        if c.botToken.Some? {
          groups := Joined(groups, Bot(c.botToken.value), c);
        }
      }
      assert groups == JoinedBoth(before, c);
    }
  }

  lemma {:induction false} HoldersAreThose(cs: seq<Connector>, i: nat, t: Token)
    requires i <= |cs| && DistinctIds(cs)
    ensures DistinctIds(Holders(cs, i, t))
    ensures forall c :: c in Holders(cs, i, t) <==> c in cs[..i] && Holds(c, t)
  {
    if i > 0 {
      HoldersAreThose(cs, i - 1, t);
      assert cs[..i] == cs[..i - 1] + [cs[i - 1]];
      assert forall c | c in Holders(cs, i - 1, t) :: c in cs[..i - 1] && c.id != cs[i - 1].id;
    }
  }

  /** Another connector that shares one of the tokens `done` with `c`. */
  ghost predicate Linked(done: set<Token>, c: Connector, d: Connector) {
    d != c && exists t :: t in done && Holds(c, t) && Holds(d, t)
  }

  ghost predicate CollectedFor(others: map<Id, set<string>>, cs: seq<Connector>, done: set<Token>, c: Connector) {
    && (c.id in others <==> exists d :: d in cs && Linked(done, c, d))
    && (c.id in others ==>
          forall n :: n in others[c.id] <==> exists d :: d in cs && Linked(done, c, d) && d.name == n)
  }

  ghost predicate Collected(others: map<Id, set<string>>, cs: seq<Connector>, done: set<Token>) {
    && (forall id | id in others :: exists c :: c in cs && c.id == id)
    && (forall c | c in cs :: CollectedFor(others, cs, done, c))
  }

  function NamesAt(others: map<Id, set<string>>, id: Id): set<string> {
    if id in others then others[id] else {}
  }

  function OthersIn(group: seq<Connector>, c: Connector): set<string> {
    set d | d in group && d != c :: d.name
  }

  function WithOthers(others: map<Id, set<string>>, group: seq<Connector>, i: nat): map<Id, set<string>>
    requires i <= |group|
  {
    if i == 0 then others
    else
      var m := WithOthers(others, group, i - 1);
      m[group[i - 1].id := NamesAt(m, group[i - 1].id) + OthersIn(group, group[i - 1])]
  }

  lemma {:induction false} WithOthersElsewhere(others: map<Id, set<string>>, group: seq<Connector>, i: nat, id: Id)
    requires i <= |group| && forall j | 0 <= j < i :: group[j].id != id
    ensures id in WithOthers(others, group, i) <==> id in others
    ensures NamesAt(WithOthers(others, group, i), id) == NamesAt(others, id)
  {
    if i > 0 {
      WithOthersElsewhere(others, group, i - 1, id);
    }
  }

  lemma {:induction false} WithOthersAt(others: map<Id, set<string>>, group: seq<Connector>, i: nat, k: nat)
    requires k < i <= |group| && DistinctIds(group)
    ensures group[k].id in WithOthers(others, group, i)
    ensures WithOthers(others, group, i)[group[k].id] == NamesAt(others, group[k].id) + OthersIn(group, group[k])
  {
    if k < i - 1 {
      WithOthersAt(others, group, i - 1, k);
    } else {
      WithOthersElsewhere(others, group, i - 1, group[k].id);
    }
  }

  lemma {:induction false} WithOthersKeys(others: map<Id, set<string>>, group: seq<Connector>, i: nat)
    requires i <= |group|
    ensures forall id | id in WithOthers(others, group, i) :: id in others || exists c :: c in group && c.id == id
  {
    if i > 0 {
      WithOthersKeys(others, group, i - 1);
      assert group[i - 1] in group;
    }
  }

  method AddGroup(others: map<Id, set<string>>, group: seq<Connector>) returns (more: map<Id, set<string>>)
    ensures more == WithOthers(others, group, |group|)
  {
    more := others;
    for i := 0 to |group|
      invariant more == WithOthers(others, group, i)
    {
      var c := group[i];
      more := more[c.id := NamesAt(more, c.id) + OthersIn(group, c)];
    }
  }

  lemma LinkedMore(done: set<Token>, t: Token, c: Connector, d: Connector)
    ensures Linked(done + {t}, c, d) <==> Linked(done, c, d) || (d != c && Holds(c, t) && Holds(d, t))
  {
    if Holds(c, t) && Holds(d, t) {
      assert t in done + {t};
    }
  }

  /** A token `c` does not share with another connector adds nothing. */
  lemma NothingCollected(others: map<Id, set<string>>, more: map<Id, set<string>>,
      cs: seq<Connector>, done: set<Token>, t: Token, c: Connector)
    requires CollectedFor(others, cs, done, c)
    requires (c.id in more <==> c.id in others) && NamesAt(more, c.id) == NamesAt(others, c.id)
    requires forall d | d in cs && d != c :: !(Holds(c, t) && Holds(d, t))
    ensures CollectedFor(more, cs, done + {t}, c)
  {
    forall d | d in cs ensures Linked(done + {t}, c, d) <==> Linked(done, c, d) {
      LinkedMore(done, t, c, d);
    }
    assert c.id in others ==> more[c.id] == others[c.id];
  }

  lemma GroupCollected(others: map<Id, set<string>>, more: map<Id, set<string>>, group: seq<Connector>,
      cs: seq<Connector>, done: set<Token>, t: Token, c: Connector)
    requires CollectedFor(others, cs, done, c) && c in group
    requires forall d :: d in group <==> d in cs && Holds(d, t)
    requires exists d :: d in group && d != c
    requires c.id in more && more[c.id] == NamesAt(others, c.id) + OthersIn(group, c)
    ensures CollectedFor(more, cs, done + {t}, c)
  {
    forall d | d in cs ensures Linked(done + {t}, c, d) <==> Linked(done, c, d) || (d in group && d != c) {
      LinkedMore(done, t, c, d);
    }
  }

  lemma SharedGroup(cs: seq<Connector>, group: seq<Connector>, t: Token, c: Connector)
    requires DistinctIds(group) && c in cs && forall d :: d in group <==> d in cs && Holds(d, t)
    ensures |group| > 1 && c in group ==> exists d :: d in group && d != c
    ensures !(|group| > 1 && c in group) ==> forall d | d in cs && d != c :: !(Holds(c, t) && Holds(d, t))
  {
    if |group| > 1 && c in group {
      assert group[0] in group && group[1] in group && group[0] != group[1];
    } else {
      forall d | d in cs && d != c ensures !(Holds(c, t) && Holds(d, t)) {
        assert Holds(c, t) <==> c in group;
        assert Holds(d, t) <==> d in group;
      }
    }
  }

  lemma GroupCollectedFor(others: map<Id, set<string>>, more: map<Id, set<string>>, group: seq<Connector>,
      cs: seq<Connector>, done: set<Token>, t: Token, c: Connector)
    requires DistinctIds(cs) && DistinctIds(group) && c in cs && CollectedFor(others, cs, done, c)
    requires forall d :: d in group <==> d in cs && Holds(d, t)
    requires if |group| > 1 then more == WithOthers(others, group, |group|) else more == others
    ensures CollectedFor(more, cs, done + {t}, c)
  {
    SharedGroup(cs, group, t, c);
    if |group| > 1 && c in group {
      var k :| 0 <= k < |group| && group[k] == c;
      WithOthersAt(others, group, |group|, k);
      GroupCollected(others, more, group, cs, done, t, c);
    } else {
      if |group| > 1 {
        forall j | 0 <= j < |group| ensures group[j].id != c.id {
          assert group[j] in group;
        }
        WithOthersElsewhere(others, group, |group|, c.id);
      }
      NothingCollected(others, more, cs, done, t, c);
    }
  }

  lemma LinkedIsShares(cs: seq<Connector>, groups: map<Token, seq<Connector>>, c: Connector, d: Connector)
    requires DistinctIds(cs) && c in cs && d in cs
    requires forall t :: Members(groups, t) == Holders(cs, |cs|, t)
    ensures Linked(groups.Keys, c, d) <==> Shares(c, d)
  {
    SharesAToken(c, d);
    forall t | Holds(c, t) ensures t in groups {
      HoldersAreThose(cs, |cs|, t);
      assert c in cs[..|cs|] && c in Members(groups, t);
    }
  }

  /** The connectors that share their Slack app with another of the given ones. */
  ghost function ConflictIds(cs: seq<Connector>): set<Id> {
    set c, d | c in cs && d in cs && Shares(c, d) :: c.id
  }

  /** For each connector that shares its Slack app with another of the given
      ones, the names of those others. */
  method TokenConflicts(connectors: seq<Connector>) returns (conflicts: map<Id, set<string>>)
    requires DistinctIds(connectors)
    ensures conflicts.Keys == ConflictIds(connectors)
    ensures forall c, n | c in connectors && c.id in conflicts ::
      n in conflicts[c.id] <==> exists d :: d in connectors && Shares(c, d) && d.name == n
  {
    var groups := GroupByToken(connectors);
    conflicts := map[];
    var todo := groups.Keys;
    while todo != {}
      invariant todo <= groups.Keys
      invariant Collected(conflicts, connectors, groups.Keys - todo)
    {
      var t :| t in todo;
      ghost var before, done := conflicts, groups.Keys - todo;
      var group := groups[t];
      assert group == Members(groups, t);
      HoldersAreThose(connectors, |connectors|, t);
      assert connectors[..|connectors|] == connectors;
      if |group| > 1 {
        conflicts := AddGroup(conflicts, group);
        WithOthersKeys(before, group, |group|);
      }
      todo := todo - {t};
      assert groups.Keys - todo == done + {t};
      forall c | c in connectors ensures CollectedFor(conflicts, connectors, done + {t}, c) {
        GroupCollectedFor(before, conflicts, group, connectors, done, t, c);
      }
    }
    assert groups.Keys - todo == groups.Keys;
    forall c | c in connectors
      ensures c.id in conflicts <==> exists d :: d in connectors && Shares(c, d)
      ensures c.id in conflicts ==>
        forall n :: n in conflicts[c.id] <==> exists d :: d in connectors && Shares(c, d) && d.name == n
    {
      assert CollectedFor(conflicts, connectors, groups.Keys, c);
      forall d | d in connectors ensures Linked(groups.Keys, c, d) <==> Shares(c, d) {
        LinkedIsShares(connectors, groups, c, d);
      }
    }
  }

  // ------------------------------------------------------------ the manager

  /** `renewed` is when the tick that last renewed its lease began, and
      `seenConnected` the last tick that found it connected, or its start. */
  datatype Socket = Socket(token: string, renewed: real, seenConnected: real)

  /** What a socket's client shows at a tick. */
  datatype Seen = Seen(connected: bool, wrongApp: bool, done: bool)

  /** The tokens with which a socket greeted for another app. */
  datatype Fingerprint = Fingerprint(appToken: Option<string>, botToken: Option<string>, tokenEnv: string)

  function PrintOf(c: Connector): Fingerprint { Fingerprint(c.appToken, c.botToken, c.tokenEnv) }

  function Noted(held: Socket, seen: Seen, now: real): Socket {
    if seen.connected then held.(seenConnected := now) else held
  }

  function RowOf(rows: map<Id, Lease.Lease>, id: Id): Lease.Row {
    if id in rows then Some(rows[id]) else None
  }

  /** The lease rows of the database. */
  class LeaseTable {
    var rows: map<Id, Lease.Lease>

    function Row(id: Id): Lease.Row
      reads this
    {
      RowOf(rows, id)
    }

    method TakeLease(id: Id, holder: Lease.ProcId, now: real, lease: real) returns (taken: bool)
      modifies this
      ensures taken == Lease.CanTake(old(Row(id)), holder, now, lease)
      ensures Row(id) == Lease.TakeLease(old(Row(id)), holder, now, lease)
      ensures forall other | other != id :: Row(other) == old(Row(other))
    {
      if id in rows && (rows[id].holder == holder || rows[id].stamp < now - lease) {
        rows := rows[id := Lease.Lease(holder, now)];
        return true;
      }
      if id in rows {
        return false;
      }
      rows := rows[id := Lease.Lease(holder, now)];
      return true;
    }

    method ReleaseLease(id: Id, holder: Lease.ProcId)
      modifies this
      ensures Row(id) == Lease.ReleaseLease(old(Row(id)), holder)
      ensures forall other | other != id :: Row(other) == old(Row(other))
    {
      if id in rows && rows[id].holder == holder {
        rows := rows - {id};
      }
    }
  }

  /** What a tick knows when it begins. */
  datatype Before = Before(
    sockets: map<Id, Socket>,
    resting: map<Id, real>,
    wrongApp: map<Id, Fingerprint>,
    seen: map<Id, Seen>,
    now: real
  ) {
    predicate GivesUp(id: Id, grace: real) {
      id in sockets && id in seen && now - Noted(sockets[id], seen[id], now).seenConnected >= grace
    }

    predicate GreetedForAnother(id: Id) {
      id in sockets && id in seen && seen[id].wrongApp
    }

    /** Whether the tick tries to take or renew the lease of `c`. */
    ghost predicate Tries(c: Connector, connectors: seq<Connector>, grace: real) {
      && c.appToken.Some?
      && c.id !in ConflictIds(connectors)
      && !GreetedForAnother(c.id)
      && !(c.id in wrongApp && wrongApp[c.id] == PrintOf(c))
      && !GivesUp(c.id, grace)
      && !(c.id in resting && resting[c.id] > now)
    }

    /** Those of the first `i` connectors the tick tries for. */
    ghost function Tried(connectors: seq<Connector>, i: nat, grace: real): set<Id>
      requires i <= |connectors|
    {
      if i == 0 then {}
      else Tried(connectors, i - 1, grace) +
           if Tries(connectors[i - 1], connectors, grace) then {connectors[i - 1].id} else {}
    }

    lemma {:induction false} TriedAreThose(connectors: seq<Connector>, i: nat, grace: real)
      requires i <= |connectors|
      ensures forall id :: id in Tried(connectors, i, grace) <==>
                           exists j :: 0 <= j < i && connectors[j].id == id && Tries(connectors[j], connectors, grace)
    {
      if i > 0 {
        TriedAreThose(connectors, i - 1, grace);
      }
    }
  }

  /** Where rows and taken leases stand once the connectors `tried` had their try. */
  ghost predicate Midway(b: Before, tried: set<Id>, p: Lease.ProcId, grace: real,
      rows: map<Id, Lease.Lease>, rows': map<Id, Lease.Lease>, held: map<Id, string>)
  {
    && (forall id :: id in held <==> id in tried && Lease.CanTake(RowOf(rows, id), p, b.now, grace))
    && (forall id :: RowOf(rows', id) ==
                     if id in tried then Lease.TakeLease(RowOf(rows, id), p, b.now, grace) else RowOf(rows, id))
  }

  /** The tokens a connector was found with on a wrong app: noted when its socket greeted
      for another, forgotten once one of them has changed. */
  function WrongAfter(m: map<Id, Fingerprint>, c: Connector, conflicted: bool, wrong: bool): map<Id, Fingerprint> {
    if c.appToken.None? || conflicted then m
    else if wrong then m[c.id := PrintOf(c)]
    else if c.id in m && m[c.id] == PrintOf(c) then m
    else m - {c.id}
  }

  function At<V>(m: map<Id, V>, id: Id): Option<V> { if id in m then Some(m[id]) else None }

  /** What the tick remembers once the first `i` connectors have had their turn. */
  ghost predicate Remembers(b: Before, connectors: seq<Connector>, i: nat, wrongApp: map<Id, Fingerprint>)
    requires i <= |connectors|
  {
    && (forall j | 0 <= j < i :: TurnedAt(b, connectors, j, wrongApp))
    && (forall id | !HadTurn(connectors, i, id) :: At(wrongApp, id) == At(b.wrongApp, id))
  }

  ghost predicate TurnedAt(b: Before, connectors: seq<Connector>, j: nat, wrongApp: map<Id, Fingerprint>) {
    j < |connectors| ==>
      var c := connectors[j];
      At(wrongApp, c.id) ==
        At(WrongAfter(b.wrongApp, c, c.id in ConflictIds(connectors), b.GreetedForAnother(c.id)), c.id)
  }

  ghost predicate HadTurn(connectors: seq<Connector>, i: nat, id: Id)
    requires i <= |connectors|
  {
    exists j | 0 <= j < i :: connectors[j].id == id
  }

  lemma TurnElsewhere(m: map<Id, Fingerprint>, c: Connector, conflicted: bool, wrong: bool, id: Id)
    requires id != c.id
    ensures At(WrongAfter(m, c, conflicted, wrong), id) == At(m, id)
  {
  }

  lemma TurnHere(m: map<Id, Fingerprint>, m': map<Id, Fingerprint>, c: Connector, conflicted: bool, wrong: bool)
    requires At(m, c.id) == At(m', c.id)
    ensures At(WrongAfter(m, c, conflicted, wrong), c.id) == At(WrongAfter(m', c, conflicted, wrong), c.id)
  {
  }

  /** Held are app tokens of their connectors. */
  ghost predicate TokensAre(connectors: seq<Connector>, held: map<Id, string>) {
    forall j | 0 <= j < |connectors| && connectors[j].id in held ::
      connectors[j].appToken == Some(held[connectors[j].id])
  }

  lemma TokensNext(connectors: seq<Connector>, i: nat, held: map<Id, string>)
    requires DistinctIds(connectors) && TokensAre(connectors, held)
    requires i < |connectors| && connectors[i].appToken.Some?
    ensures TokensAre(connectors, held[connectors[i].id := connectors[i].appToken.value])
  {
  }

  lemma RemembersNext(b: Before, connectors: seq<Connector>, i: nat,
                      before: map<Id, Fingerprint>, after: map<Id, Fingerprint>)
    requires DistinctIds(connectors) && i < |connectors| && Remembers(b, connectors, i, before)
    requires var c := connectors[i];
      after == WrongAfter(before, c, c.id in ConflictIds(connectors), b.GreetedForAnother(c.id))
    ensures Remembers(b, connectors, i + 1, after)
  {
    var c := connectors[i];
    var conflicted, wrong := c.id in ConflictIds(connectors), b.GreetedForAnother(c.id);
    assert !HadTurn(connectors, i, c.id);
    TurnHere(before, b.wrongApp, c, conflicted, wrong);
    assert TurnedAt(b, connectors, i, after);
    forall j: nat | j < i ensures TurnedAt(b, connectors, j, after) {
      assert TurnedAt(b, connectors, j, before);
      TurnElsewhere(before, c, conflicted, wrong, connectors[j].id);
    }
    forall id | !HadTurn(connectors, i + 1, id) ensures At(after, id) == At(b.wrongApp, id) {
      assert !HadTurn(connectors, i, id) && id != c.id;
      TurnElsewhere(before, c, conflicted, wrong, id);
    }
  }

  /** Until when each connector rests: those tried no longer do, those given up rest
      anew, the others as before. */
  ghost predicate RestsAre(b: Before, tried: set<Id>, grace: real, rest: real, resting: map<Id, real>) {
    forall id :: At(resting, id) ==
      if id in tried then None else if b.GivesUp(id, grace) then Some(b.now + rest) else At(b.resting, id)
  }

  /** Only the rows of the connectors tried have changed, each as taking it changes it. */
  lemma MidwayNext(b: Before, tried: set<Id>, p: Lease.ProcId, grace: real, rows: map<Id, Lease.Lease>,
                   before: map<Id, Lease.Lease>, after: map<Id, Lease.Lease>, held: map<Id, string>,
                   c: Connector, tries: bool)
    requires Midway(b, tried, p, grace, rows, before, held) && c.id !in tried && (tries ==> c.appToken.Some?)
    requires forall id | id != c.id :: RowOf(after, id) == RowOf(before, id)
    requires RowOf(after, c.id) ==
      if tries then Lease.TakeLease(RowOf(before, c.id), p, b.now, grace) else RowOf(before, c.id)
    ensures RowOf(before, c.id) == RowOf(rows, c.id)
    ensures var taken := tries && Lease.CanTake(RowOf(rows, c.id), p, b.now, grace);
      Midway(b, tried + if tries then {c.id} else {}, p, grace, rows, after,
             if taken then held[c.id := c.appToken.value] else held)
  {
  }

  class SlackSocketManager {
    const holder: Lease.ProcId
    const lease: real
    const renew: real
    var sockets: map<Id, Socket>
    var resting: map<Id, real>
    var wrongApp: map<Id, Fingerprint>

    constructor (holder: Lease.ProcId, lease: real, renew: real)
      ensures this.holder == holder && this.lease == lease && this.renew == renew
      ensures sockets == map[] && resting == map[] && wrongApp == map[]
    {
      this.holder, this.lease, this.renew := holder, lease, renew;
      sockets, resting, wrongApp := map[], map[], map[];
    }

    function Fence(): real { lease - renew / 2.0 }

    /** Seconds until the first socket must be closed. */
    method FenceDueIn(now: real) returns (due: Option<real>)
      ensures due.None? <==> sockets == map[]
      ensures due.Some? ==> forall id | id in sockets :: due.value <= sockets[id].renewed + Fence() - now
      ensures due.Some? ==>
        exists id :: id in sockets && due == Lease.FenceDueIn(Some(sockets[id].renewed), Fence(), now)
    {
      due := None;
      var todo := sockets.Keys;
      while todo != {}
        invariant todo <= sockets.Keys
        invariant due.None? <==> todo == sockets.Keys
        invariant due.Some? ==>
          forall id | id in sockets.Keys - todo :: due.value <= sockets[id].renewed + Fence() - now
        invariant due.Some? ==> exists id :: id in sockets && due.value == sockets[id].renewed + Fence() - now
      {
        var id :| id in todo;
        todo := todo - {id};
        var deadline := sockets[id].renewed + Fence() - now;
        if due.None? || deadline < due.value {
          due := Some(deadline);
        }
      }
      assert sockets == map[] <==> sockets.Keys == {};
    }

    /** Seconds a tick may take: what the most urgent socket leaves it. */
    method TickBudget(now: real) returns (budget: real)
      ensures forall id | id in sockets ::
        budget <= Lease.TickBudget(Lease.FenceDueIn(Some(sockets[id].renewed), Fence(), now), renew)
      ensures budget == Lease.TickBudget(None, renew) ||
        exists id :: (id in sockets &&
          budget == Lease.TickBudget(Lease.FenceDueIn(Some(sockets[id].renewed), Fence(), now), renew))
    {
      budget := renew;
      var todo := sockets.Keys;
      while todo != {}
        invariant todo <= sockets.Keys
        invariant budget <= renew
        invariant forall id | id in sockets.Keys - todo :: budget <= sockets[id].renewed + Fence() - now
        invariant budget == renew || exists id :: id in sockets && budget == sockets[id].renewed + Fence() - now
      {
        var id :| id in todo;
        todo := todo - {id};
        budget := Lease.Min(budget, sockets[id].renewed + Fence() - now);
      }
      budget := Lease.Max(budget, Lease.FENCE_SLACK);
    }

    /** Close every socket whose lease has not been renewed in time. */
    method CloseFenced(now: real) returns (closed: set<Id>)
      modifies this`sockets
      ensures forall id :: id in closed <==>
        id in old(sockets) && Lease.MustFence(Some(old(sockets)[id].renewed), Fence(), now)
      ensures sockets == old(sockets) - closed
    {
      closed := set id | id in sockets && now - sockets[id].renewed >= Fence();
      var todo := closed;
      while todo != {}
        invariant todo <= closed
        invariant sockets == old(sockets) - (closed - todo)
      {
        var id :| id in todo;
        todo := todo - {id};
        sockets := sockets - {id};
      }
      assert closed - {} == closed;
    }

    ghost function BeforeTick(seen: map<Id, Seen>, now: real): Before
      reads this
    {
      Before(sockets, resting, wrongApp, seen, now)
    }

    /** One connector's turn in a tick's transaction. */
    method TickConnector(db: LeaseTable, now: real, c: Connector, conflicted: bool, wrong: bool, givenUp: bool)
      returns (tries: bool, taken: bool)
      modifies `resting, `wrongApp, db
      ensures tries == (
        c.appToken.Some? && !conflicted && !wrong && !givenUp &&
        !(c.id in old(wrongApp) && old(wrongApp)[c.id] == PrintOf(c)) &&
        !(c.id in old(resting) && old(resting)[c.id] > now))
      ensures taken <==> tries && Lease.CanTake(old(db.Row(c.id)), holder, now, lease)
      ensures db.Row(c.id) ==
        if tries then Lease.TakeLease(old(db.Row(c.id)), holder, now, lease) else old(db.Row(c.id))
      ensures forall id | id != c.id :: db.Row(id) == old(db.Row(id))
      ensures resting == if tries then old(resting) - {c.id} else old(resting)
      ensures wrongApp == WrongAfter(old(wrongApp), c, conflicted, wrong)
    {
      tries, taken := false, false;
      if c.appToken.None? || conflicted {
        return;
      }
      if wrong {
        wrongApp := wrongApp[c.id := PrintOf(c)];
        return;
      }
      if c.id in wrongApp && wrongApp[c.id] == PrintOf(c) {
        return;
      }
      wrongApp := wrongApp - {c.id};
      if givenUp {
        return;
      }
      if c.id in resting && resting[c.id] > now {
        return;
      }
      resting := resting - {c.id};
      tries := true;
      taken := db.TakeLease(c.id, holder, now, lease);
    }

    /** Give back the lease of every open socket this tick did not keep. */
    method ReleaseUnheld(db: LeaseTable, held: map<Id, string>)
      modifies db
      ensures forall id :: db.Row(id) ==
                           if id in sockets && id !in held
                           then Lease.ReleaseLease(old(db.Row(id)), holder) else old(db.Row(id))
    {
      var todo := sockets.Keys;
      while todo != {}
        invariant todo <= sockets.Keys
        invariant forall id :: db.Row(id) ==
                               if id in sockets && id !in todo && id !in held
                               then Lease.ReleaseLease(old(db.Row(id)), holder) else old(db.Row(id))
      {
        var id :| id in todo;
        todo := todo - {id};
        if id !in held {
          db.ReleaseLease(id, holder);
        }
      }
    }

    /** Where everything stands once the first `i` connectors have had their turn. */
    ghost predicate Stands(db: LeaseTable, connectors: seq<Connector>, i: nat, b: Before,
                           rows: map<Id, Lease.Lease>, held: map<Id, string>)
      requires i <= |connectors|
      reads this, db
    {
      && Midway(b, b.Tried(connectors, i, lease), holder, lease, rows, db.rows, held)
      && RestsAre(b, b.Tried(connectors, i, lease), lease, renew + Lease.REST_EXTRA, resting)
      && Remembers(b, connectors, i, wrongApp)
      && TokensAre(connectors, held)
    }

    method TakeTurn(db: LeaseTable, connectors: seq<Connector>, i: nat, conflicts: map<Id, set<string>>,
                    wrong: set<Id>, givenUp: set<Id>, b: Before, held: map<Id, string>,
                    ghost start: map<Id, Lease.Lease>) returns (more: map<Id, string>)
      requires DistinctIds(connectors) && i < |connectors| && conflicts.Keys == ConflictIds(connectors)
      requires forall id :: (id in givenUp <==> b.GivesUp(id, lease)) && (id in wrong <==> b.GreetedForAnother(id))
      requires Stands(db, connectors, i, b, start, held)
      modifies `resting, `wrongApp, db
      ensures Stands(db, connectors, i + 1, b, start, more)
    {
      ghost var tried, rows, before := b.Tried(connectors, i, lease), db.rows, wrongApp;
      var c := connectors[i];
      b.TriedAreThose(connectors, i, lease);
      assert !HadTurn(connectors, i, c.id) && c.id !in tried;
      label Turn:
      var tries, taken := TickConnector(db, b.now, c, c.id in conflicts, c.id in wrong, c.id in givenUp);
      assert tries == b.Tries(c, connectors, lease);
      forall id ensures id != c.id ==> RowOf(db.rows, id) == RowOf(rows, id) {
        assert id != c.id ==> db.Row(id) == old@Turn(db.Row(id));
      }
      MidwayNext(b, tried, holder, lease, start, rows, db.rows, held, c, tries);
      RemembersNext(b, connectors, i, before, wrongApp);
      if taken {
        TokensNext(connectors, i, held);
      }
      more := if taken then held[c.id := c.appToken.value] else held;
    }

    /** Each connector's turn, in order. */
    method TakeLeases(db: LeaseTable, connectors: seq<Connector>, wrong: set<Id>, givenUp: set<Id>, b: Before)
      returns (held: map<Id, string>)
      requires DistinctIds(connectors) && wrongApp == b.wrongApp
      requires forall id :: (id in givenUp <==> b.GivesUp(id, lease)) && (id in wrong <==> b.GreetedForAnother(id))
      requires RestsAre(b, {}, lease, renew + Lease.REST_EXTRA, resting)
      modifies `resting, `wrongApp, db
      ensures Stands(db, connectors, |connectors|, b, old(db.rows), held)
    {
      held := map[];
      var conflicts := TokenConflicts(connectors);
      for i := 0 to |connectors|
        invariant Stands(db, connectors, i, b, old(db.rows), held)
      {
        held := TakeTurn(db, connectors, i, conflicts, wrong, givenUp, b, held, old(db.rows));
      }
    }

    /** A socket not seen connected for a lease is given up, and its connector rests. */
    method GiveUp(b: Before) returns (givenUp: set<Id>)
      requires b.sockets == sockets && b.resting == resting && sockets.Keys <= b.seen.Keys
      modifies `sockets, `resting
      ensures sockets == map id | id in b.sockets :: Noted(b.sockets[id], b.seen[id], b.now)
      ensures forall id :: id in givenUp <==> b.GivesUp(id, lease)
      ensures RestsAre(b, {}, lease, renew + Lease.REST_EXTRA, resting)
    {
      sockets := map id | id in sockets :: Noted(sockets[id], b.seen[id], b.now);
      givenUp := set id | id in sockets && b.now - sockets[id].seenConnected >= lease;
      resting := map id | id in resting.Keys + givenUp ::
        if id in givenUp then b.now + (renew + Lease.REST_EXTRA) else resting[id];
    }

    /** The part of a tick inside its transaction, up to the commit. */
    method TickTransaction(db: LeaseTable, now: real, connectors: seq<Connector>, seen: map<Id, Seen>)
      returns (held: map<Id, string>)
      requires DistinctIds(connectors) && sockets.Keys <= seen.Keys
      modifies this, db
      ensures sockets == map id | id in old(sockets) :: Noted(old(sockets)[id], seen[id], now)
      ensures forall id :: id in held <==>
                           id in old(BeforeTick(seen, now)).Tried(connectors, |connectors|, lease) &&
                           Lease.CanTake(old(db.Row(id)), holder, now, lease)
      ensures forall j | 0 <= j < |connectors| && connectors[j].id in held ::
        connectors[j].appToken == Some(held[connectors[j].id])
      ensures forall id :: db.Row(id) ==
                           Lease.CommitRow(old(db.Row(id)), holder, now, lease,
                                           id in old(BeforeTick(seen, now)).Tried(connectors, |connectors|, lease),
                                           id in old(sockets))
      ensures RestsAre(old(BeforeTick(seen, now)), old(BeforeTick(seen, now)).Tried(connectors, |connectors|, lease),
                       lease, renew + Lease.REST_EXTRA, resting)
      ensures Remembers(old(BeforeTick(seen, now)), connectors, |connectors|, wrongApp)
    {
      var b := Before(sockets, resting, wrongApp, seen, now);
      var givenUp := GiveUp(b);
      var wrong := set id | id in sockets && seen[id].wrongApp;
      held := TakeLeases(db, connectors, wrong, givenUp, b);
      forall id ensures db.Row(id) ==
        if id in b.Tried(connectors, |connectors|, lease)
        then Lease.TakeLease(old(db.Row(id)), holder, now, lease) else old(db.Row(id))
      {
        assert db.Row(id) == RowOf(db.rows, id);
      }
      ReleaseUnheld(db, held);
    }

    /** Close the sockets this tick does not keep and renew the others. */
    method CloseOrRenew(held: map<Id, string>, now: real, seen: map<Id, Seen>)
      requires sockets.Keys <= seen.Keys
      modifies `sockets
      ensures forall id :: id in sockets <==>
                           id in old(sockets) && id in held && !seen[id].done && old(sockets)[id].token == held[id]
      ensures forall id | id in sockets :: sockets[id] == old(sockets)[id].(renewed := now)
    {
      var todo := sockets.Keys;
      ghost var before := sockets;
      while todo != {}
        invariant todo <= sockets.Keys <= before.Keys
        invariant forall id | id in todo :: sockets[id] == before[id]
        invariant forall id | id in before && id !in todo ::
          (id in sockets <==> id in held && !seen[id].done && before[id].token == held[id])
        invariant forall id | id in sockets && id !in todo :: sockets[id] == before[id].(renewed := now)
      {
        var id :| id in todo;
        todo := todo - {id};
        if id !in held || seen[id].done || sockets[id].token != held[id] {
          sockets := sockets - {id};
        } else {
          sockets := sockets[id := sockets[id].(renewed := now)];
        }
      }
    }

    /** The part of a tick after the commit: close what is no longer held, renew
        the rest and open what was taken. Nothing else runs meanwhile. */
    method TickApply(held: map<Id, string>, now: real, seen: map<Id, Seen>)
      requires sockets.Keys <= seen.Keys
      modifies `sockets
      ensures sockets.Keys == held.Keys
      ensures forall id | id in held ::
        && sockets[id].token == held[id] && sockets[id].renewed == now
        && sockets[id].seenConnected ==
             if id in old(sockets) && !seen[id].done && old(sockets)[id].token == held[id]
             then old(sockets)[id].seenConnected else now
    {
      CloseOrRenew(held, now, seen);
      ghost var kept := sockets;
      var todo := held.Keys;
      while todo != {}
        invariant todo <= held.Keys
        invariant sockets.Keys == kept.Keys + (held.Keys - todo)
        invariant forall id | id in kept :: sockets[id] == kept[id]
        invariant forall id | id in sockets && id !in kept :: sockets[id] == Socket(held[id], now, now)
      {
        var id :| id in todo;
        todo := todo - {id};
        if id !in sockets {
          sockets := sockets[id := Socket(held[id], now, now)];
        }
      }
    }

    /** Shutdown closes every socket first, and only then releases the leases. */
    method Stop(db: LeaseTable)
      modifies `sockets, db
      ensures sockets == map[]
      ensures forall id :: db.Row(id) ==
                           if id in old(sockets) then Lease.ReleaseLease(old(db.Row(id)), holder) else old(db.Row(id))
    {
      var open := sockets.Keys;
      sockets := map[];
      var todo := open;
      while todo != {}
        invariant sockets == map[] && todo <= open
        invariant forall id :: db.Row(id) ==
                               if id in open - todo
                               then Lease.ReleaseLease(old(db.Row(id)), holder) else old(db.Row(id))
      {
        var id :| id in todo;
        todo := todo - {id};
        db.ReleaseLease(id, holder);
      }
    }
  }

  /** One tick never takes two connectors of one Slack app. */
  lemma HeldTokensDiffer(b: Before, connectors: seq<Connector>, grace: real, c: Connector, d: Connector)
    requires (forall c | c in connectors :: c.socketMode)
    requires c in connectors && d in connectors && c != d
    requires b.Tries(c, connectors, grace) && b.Tries(d, connectors, grace)
    ensures c.appToken != d.appToken
    ensures c.botToken == d.botToken ==> c.botToken.None?
  {
    assert !Shares(c, d);
  }
}
