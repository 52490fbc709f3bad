/** A CLI run that honours a Stop it can only read of, and the printout that tells the
    calls it held back from those a server answered. */
module CliStopWatch {
  import opened Wrappers
  import opened Approvals
  import opened ApprovalService

  /** A call as the run records it: its tool, its error, and whether it was held back. */
  datatype Record = Record(tool: string, error: Option<string>, held: bool)

  datatype End = ByPerson(reason: EndReason) | ByCtrlC

  type Key = (string, Option<string>)

  /** What a run knows of its end, the calls it held back, and, of the calls it sent,
      how many left with the session ended, and how many after a Stop took effect,
      whatever came of it since. */
  class StopWatch {
    const tier: int
    /** The error a held back call is recorded with. */
    const text: End -> string
    var ended: Option<End>
    var heldBack: seq<Key>
    ghost var late: nat
    ghost var afterStop: nat

    constructor (tier: int, text: End -> string)
      ensures this.tier == tier && this.text == text && ended.None? && heldBack == [] && late == 0 && afterStop == 0
    {
      this.tier, this.text, ended, heldBack, late, afterStop := tier, text, None, [], 0, 0;
    }

    /** Reads the session's row unless the end is known; a failed read tells nothing. */
    method IsStopped(row: Option<Session>) returns (stopped: bool)
      modifies this`ended
      ensures stopped == ended.Some?
      ensures old(ended).Some? ==> ended == old(ended)
      ensures old(ended).None? ==>
        ended == if row.Some? && Lost(row.value, Some(tier))
          then Some(ByPerson(SessionEndReason(row.value, Some(tier)).value)) else None
    {
      if ended.Some? || row.None? {
        return ended.Some?;
      }
      var reason := SessionEndReason(row.value, Some(tier));
      if reason.Some? {
        ended := Some(ByPerson(reason.value));
      }
      stopped := ended.Some?;
    }

    /** Ctrl-C ends the run without a read; an end already found stays. */
    method Interrupt()
      modifies this`ended
      ensures ended == if old(ended).Some? then old(ended) else Some(ByCtrlC)
    {
      if ended.None? {
        ended := Some(ByCtrlC);
      }
    }

    /** One tool call: held back once the run has ended, else sent. A Stop may come
        between the check and the call, or have come before it, `stopped`. */
    method Call(d: Database, tool: string, answer: Option<string>, between: seq<Stmt>, ghost stopped: bool)
      returns (r: Record)
      modifies this, d`db
      ensures d.db == ExecAll(old(d.db), between)
      ensures old(ended).Some? ==> ended == old(ended)
      ensures ended.Some? <==> old(ended).Some? || Lost(old(d.db).session, Some(tier))
      ensures r.held == ended.Some? && r.tool == tool
      ensures !r.held ==> heldBack == old(heldBack) && r.error == answer
      ensures r.held ==> r.error.Some? && heldBack == old(heldBack) + [(tool, r.error)]
      ensures late == old(late) + OneIf(!r.held && Ended(d.db.session))
      ensures afterStop == old(afterStop) + OneIf(!r.held && (stopped || Stops(old(d.db), between)))
    {
      ghost var after := stopped || Stops(d.db, between);
      var holds := IsStopped(Some(d.db.session));
      d.Others(between);
      if holds {
        var error := text(ended.value);
        heldBack := heldBack + [(tool, Some(error))];
        return Record(tool, Some(error), true);
      }
      late := late + OneIf(Ended(d.db.session));
      afterStop := afterStop + OneIf(after);
      r := Record(tool, answer, false);
    }
  }

  /** How often, in some statements, a forced write brings an ended session back: a late
      answer's or an Override's, never a Stop's. */
  function Revivals(db: Db, ss: seq<Stmt>): nat
    decreases |ss|
  {
    if ss == [] then 0
    else (if Ended(db.session) && !Ended(Exec(db, ss[0]).session) then 1 else 0) + Revivals(Exec(db, ss[0]), ss[1..])
  }

  function OneIf(b: bool): nat { if b then 1 else 0 }

  /** A Stop takes effect among some statements: one of them ends a session not ended. */
  predicate Stops(db: Db, ss: seq<Stmt>)
    decreases |ss|
  {
    && ss != []
    && ((!Ended(db.session) && Ended(Exec(db, ss[0]).session)) || Stops(Exec(db, ss[0]), ss[1..]))
  }

  /** A session can be ended once more than it is brought back. */
  lemma {:induction false} EndsAndRevivals(db: Db, ss: seq<Stmt>)
    ensures OneIf(!Ended(ExecAll(db, ss).session)) <= OneIf(!Ended(db.session)) + Revivals(db, ss)
    decreases |ss|
  {
    if ss != [] {
      EndsAndRevivals(Exec(db, ss[0]), ss[1..]);
    }
  }

  /** The database, and the revivals, after the first `n` parts of a script. */
  function DbAfter(db: Db, script: Script, n: nat): Db {
    if n == 0 then db else ExecAll(DbAfter(db, script, n - 1), script(n - 1))
  }

  function RevivalsIn(db: Db, script: Script, n: nat): nat {
    if n == 0 then 0 else RevivalsIn(db, script, n - 1) + Revivals(DbAfter(db, script, n - 1), script(n - 1))
  }

  /** A Stop took effect in the first `n` parts, whatever came of it since. */
  predicate StoppedIn(db: Db, script: Script, n: nat) {
    n > 0 && (StoppedIn(db, script, n - 1) || Stops(DbAfter(db, script, n - 1), script(n - 1)))
  }

  lemma TwoMore(db: Db, script: Script, n: nat)
    ensures var met := DbAfter(db, script, n + 1);
      && met == ExecAll(DbAfter(db, script, n), script(n))
      && DbAfter(db, script, n + 2) == ExecAll(met, script(n + 1))
      && RevivalsIn(db, script, n + 2) ==
         RevivalsIn(db, script, n) + Revivals(DbAfter(db, script, n), script(n)) + Revivals(met, script(n + 1))
  {
  }

  function KeyOf(r: Record): Key { (r.tool, r.error) }

  function KeysOf(rs: seq<Record>): seq<Key> { seq(|rs|, i requires 0 <= i < |rs| => KeyOf(rs[i])) }

  function HeldOf(rs: seq<Record>): seq<Key> {
    if rs == [] then []
    else HeldOf(rs[..|rs| - 1]) + if rs[|rs| - 1].held then [KeyOf(rs[|rs| - 1])] else []
  }

  lemma HeldOfSnoc(rs: seq<Record>, r: Record)
    ensures HeldOf(rs + [r]) == HeldOf(rs) + if r.held then [KeyOf(r)] else []
  {
    assert (rs + [r])[..|rs|] == rs;
  }

  /** Nothing is sent behind a call that was held back. */
  predicate HeldLast(rs: seq<Record>) { forall i, j | 0 <= i < j < |rs| :: rs[i].held ==> rs[j].held }

  /** Whether call `k` is sent: no check up to its own finds the session lost. */
  predicate Sends(tier: int, db: Db, script: Script, k: nat) {
    !Lost(DbAfter(db, script, 2 * k + 1).session, Some(tier)) && (k > 0 ==> Sends(tier, db, script, k - 1))
  }

  /** Of the first `n` calls, how many leave with the session ended. */
  function LateIn(tier: int, db: Db, script: Script, n: nat): nat {
    if n == 0 then 0
    else
      LateIn(tier, db, script, n - 1) +
      OneIf(Sends(tier, db, script, n - 1) && Ended(DbAfter(db, script, 2 * n).session))
  }

  /** Of the first `n` calls, how many are sent after a Stop took effect. */
  function AfterStopIn(tier: int, db: Db, script: Script, n: nat): nat {
    if n == 0 then 0
    else
      AfterStopIn(tier, db, script, n - 1) +
      OneIf(Sends(tier, db, script, n - 1) && StoppedIn(db, script, 2 * n))
  }

  lemma {:induction false} SendsBefore(tier: int, db: Db, script: Script, i: nat, j: nat)
    requires i <= j && Sends(tier, db, script, j)
    ensures Sends(tier, db, script, i)
  {
    if i < j {
      SendsBefore(tier, db, script, i, j - 1);
    }
  }

  /** The records are those of the calls sent and held back, in order. */
  ghost predicate Recorded(tier: int, db: Db, script: Script, rs: seq<Record>) {
    forall k: nat | k < |rs| :: RecordedAt(tier, db, script, rs, k)
  }

  predicate RecordedAt(tier: int, db: Db, script: Script, rs: seq<Record>, k: nat) {
    k < |rs| ==> rs[k].held == !Sends(tier, db, script, k)
  }

  lemma RecordedMore(tier: int, db: Db, script: Script, rs: seq<Record>, r: Record)
    requires Recorded(tier, db, script, rs) && r.held == !Sends(tier, db, script, |rs|)
    ensures Recorded(tier, db, script, rs + [r])
  {
    forall k: nat | k < |rs| + 1 ensures RecordedAt(tier, db, script, rs + [r], k) {
      assert k < |rs| ==> RecordedAt(tier, db, script, rs, k);
    }
  }

  /** Once a read finds the end, nothing more is sent. */
  lemma RecordedHeldLast(tier: int, db: Db, script: Script, rs: seq<Record>)
    requires Recorded(tier, db, script, rs)
    ensures HeldLast(rs)
  {
    forall i, j | 0 <= i < j < |rs| && rs[i].held ensures rs[j].held {
      assert RecordedAt(tier, db, script, rs, i) && RecordedAt(tier, db, script, rs, j);
      if Sends(tier, db, script, j) {
        SendsBefore(tier, db, script, i, j);
      }
    }
  }

  /** One call more, others coming in before its check and before it leaves. */
  method NextCall(
    w: StopWatch, d: Database, call: (string, Option<string>), ghost start: Db, script: Script, k: nat, n: nat)
    returns (r: Record)
    requires n == 2 * k && d.db == DbAfter(start, script, n)
    requires w.ended.None? <==> k > 0 ==> Sends(w.tier, start, script, k - 1)
    modifies w, d`db
    ensures d.db == DbAfter(start, script, n + 2)
    ensures r.held == w.ended.Some? == !Sends(w.tier, start, script, k)
    ensures w.late == old(w.late) + OneIf(Sends(w.tier, start, script, k) && Ended(d.db.session))
    ensures w.afterStop == old(w.afterStop) + OneIf(Sends(w.tier, start, script, k) && StoppedIn(start, script, n + 2))
    ensures w.heldBack == old(w.heldBack) + if r.held then [KeyOf(r)] else []
  {
    d.Others(script(n));
    assert d.db == DbAfter(start, script, n + 1);
    r := w.Call(d, call.0, call.1, script(n + 1), StoppedIn(start, script, n + 1));
  }

  /** What a run has counted, and the calls it held back. */
  datatype Counts = Counts(late: nat, afterStop: nat, heldBack: seq<Key>)

  ghost predicate Counted(c: Counts, tier: int, start: Db, script: Script, rs: seq<Record>) {
    && c.late == LateIn(tier, start, script, |rs|) && c.afterStop == AfterStopIn(tier, start, script, |rs|)
    && Recorded(tier, start, script, rs) && c.heldBack == HeldOf(rs)
  }

  lemma CountedMore(
    c: Counts, more: Counts, tier: int, start: Db, script: Script, rs: seq<Record>, r: Record, k: nat, n: nat, now: Db)
    requires k == |rs| && n == 2 * k && now == DbAfter(start, script, n + 2)
    requires Counted(c, tier, start, script, rs) && r.held == !Sends(tier, start, script, k)
    requires more.late == c.late + OneIf(Sends(tier, start, script, k) && Ended(now.session))
    requires more.afterStop == c.afterStop + OneIf(Sends(tier, start, script, k) && StoppedIn(start, script, n + 2))
    requires more.heldBack == c.heldBack + if r.held then [KeyOf(r)] else []
    ensures Counted(more, tier, start, script, rs + [r])
  {
    RecordedMore(tier, start, script, rs, r);
    HeldOfSnoc(rs, r);
  }

  /** The calls of a run whose reads succeed, others coming in wherever they like. */
  method RunCalls(w: StopWatch, d: Database, calls: seq<(string, Option<string>)>, script: Script)
    returns (records: seq<Record>)
    requires w.ended.None? && w.heldBack == [] && w.late == 0 && w.afterStop == 0
    modifies w, d`db
    ensures d.db == DbAfter(old(d.db), script, 2 * |calls|)
    ensures w.late == LateIn(w.tier, old(d.db), script, |calls|)
    ensures w.afterStop == AfterStopIn(w.tier, old(d.db), script, |calls|)
    ensures |records| == |calls| && Recorded(w.tier, old(d.db), script, records)
    ensures HeldLast(records) && w.heldBack == HeldOf(records)
  {
    records := [];
    ghost var start := d.db;
    var n: nat := 0;
    for k := 0 to |calls|
      invariant |records| == k && n == 2 * k && d.db == DbAfter(start, script, n)
      invariant w.ended.None? <==> k > 0 ==> Sends(w.tier, start, script, k - 1)
      invariant Counted(Counts(w.late, w.afterStop, w.heldBack), w.tier, start, script, records)
    {
      ghost var before := Counts(w.late, w.afterStop, w.heldBack);
      var r := NextCall(w, d, calls[k], start, script, k, n);
      ghost var more := Counts(w.late, w.afterStop, w.heldBack);
      CountedMore(before, more, w.tier, start, script, records, r, k, n, d.db);
      records, n := records + [r], n + 2;
    }
    RecordedHeldLast(w.tier, start, script, records);
  }

  // ------------------------------------------------------------ calls that leave with the session ended

  /** Of the calls sent, at most one more leaves with the session ended than it is
      brought back in between. */
  lemma LateAtMost(tier: int, db: Db, script: Script, n: nat)
    ensures LateIn(tier, db, script, n) + OneIf(!Ended(DbAfter(db, script, 2 * n).session)) <=
            1 + RevivalsIn(db, script, 2 * n)
  {
    FewLate(tier, db, script, n, 2 * n);
  }

  predicate IsFew(late: nat, met: Session, revivals: nat) { late + OneIf(!Ended(met)) <= 1 + revivals }

  /** In a turn from `a`, through `b`, to `c`, a session is not more often brought back
      than the revivals grow. */
  predicate TurnFits(a: Session, b: Session, c: Session, before: nat, after: nat) {
    && OneIf(!Ended(b)) + before <= OneIf(!Ended(a)) + after
    && OneIf(!Ended(c)) + before <= OneIf(!Ended(a)) + after
  }

  predicate LateFits(late: nat, more: nat, b: Session, c: Session) { more <= late + OneIf(!Ended(b) && Ended(c)) }

  lemma FewOn(late: nat, more: nat, a: Session, b: Session, c: Session, before: nat, after: nat)
    requires IsFew(late, a, before) && TurnFits(a, b, c, before, after) && LateFits(late, more, b, c)
    ensures IsFew(more, c, after)
  {
  }

  lemma {:induction false} FewLate(tier: int, db: Db, script: Script, n: nat, m: nat)
    requires m == 2 * n
    ensures IsFew(LateIn(tier, db, script, n), DbAfter(db, script, m).session, RevivalsIn(db, script, m))
  {
    if n > 0 {
      FewLate(tier, db, script, n - 1, m - 2);
      var a, b, c := DbAfter(db, script, m - 2), DbAfter(db, script, m - 1), DbAfter(db, script, m);
      var before, after := RevivalsIn(db, script, m - 2), RevivalsIn(db, script, m);
      var late, more := LateIn(tier, db, script, n - 1), LateIn(tier, db, script, n);
      OneTurn(db, script, m - 2, m);
      LateStep(tier, db, script, n, m - 1, m);
      FewOn(late, more, a.session, b.session, c.session, before, after);
    }
  }

  lemma LateStep(tier: int, db: Db, script: Script, n: nat, k: nat, m: nat)
    requires n > 0 && k == 2 * n - 1 && m == 2 * n
    ensures LateFits(LateIn(tier, db, script, n - 1), LateIn(tier, db, script, n),
                     DbAfter(db, script, k).session, DbAfter(db, script, m).session)
  {
  }

  lemma OneTurn(db: Db, script: Script, m: nat, n: nat)
    requires n == m + 2
    ensures TurnFits(DbAfter(db, script, m).session, DbAfter(db, script, m + 1).session, DbAfter(db, script, n).session,
                     RevivalsIn(db, script, m), RevivalsIn(db, script, n))
  {
    TwoMore(db, script, m);
    EndsAndRevivals(DbAfter(db, script, m), script(m));
    EndsAndRevivals(DbAfter(db, script, m + 1), script(m + 1));
  }

  /** A forced write other than a Stop's, and a write that ends the session. */
  predicate Revives(s: Stmt) { s.ForceStatus? && s.to != Halted && s.to != Cancelled }

  predicate Ends(s: Stmt) { (s.ForceStatus? || s.SetStatus?) && (s.to == Halted || s.to == Cancelled) }

  ghost predicate Drawn(allowed: Stmt -> bool, script: Script) {
    forall k: nat :: AllAllowed(allowed, script(k))
  }

  predicate AllAllowed(allowed: Stmt -> bool, ss: seq<Stmt>) { forall s | s in ss :: allowed(s) }

  lemma {:induction false} NoneRevived(db: Db, ss: seq<Stmt>)
    requires forall s | s in ss :: !Revives(s)
    ensures Revivals(db, ss) == 0
    decreases |ss|
  {
    if ss != [] {
      assert ss[0] in ss && forall s | s in ss[1..] :: s in ss;
      NoneRevived(Exec(db, ss[0]), ss[1..]);
    }
  }

  lemma {:induction false} NoneRevivedIn(allowed: Stmt -> bool, db: Db, script: Script, n: nat)
    requires Drawn(allowed, script) && forall s: Stmt | allowed(s) :: !Revives(s)
    ensures RevivalsIn(db, script, n) == 0
  {
    if n > 0 {
      NoneRevivedIn(allowed, db, script, n - 1);
      assert AllAllowed(allowed, script(n - 1));
      NoneRevived(DbAfter(db, script, n - 1), script(n - 1));
    }
  }

  lemma {:induction false} NoneEnded(db: Db, ss: seq<Stmt>)
    requires !Ended(db.session) && forall s | s in ss :: !Ends(s)
    ensures !Ended(ExecAll(db, ss).session)
    decreases |ss|
  {
    if ss != [] {
      assert ss[0] in ss && forall s | s in ss[1..] :: s in ss;
      NoneEnded(Exec(db, ss[0]), ss[1..]);
    }
  }

  lemma {:induction false} NoneLate(allowed: Stmt -> bool, tier: int, db: Db, script: Script, n: nat)
    requires Drawn(allowed, script) && forall s: Stmt | allowed(s) :: !Ends(s)
    ensures LateIn(tier, db, script, n) == 0
  {
    if n > 0 {
      NoneLate(allowed, tier, db, script, n - 1);
      if Sends(tier, db, script, n - 1) {
        assert AllAllowed(allowed, script(2 * n - 1));
        NoneEnded(DbAfter(db, script, 2 * n - 1), script(2 * n - 1));
      }
    }
  }

  ghost predicate AtMostOneLate(allowed: Stmt -> bool) {
    forall tier: int, db: Db, script: Script, n: nat | Drawn(allowed, script) :: LateIn(tier, db, script, n) <= 1
  }

  /** A session ended, brought back and ended again: two calls leave with it ended. */
  lemma TwoLateCalls(revive: Stmt, end: Stmt) returns (tier: int, db: Db, script: Script)
    requires Revives(revive) && Ends(end)
    ensures LateIn(tier, db, script, 2) == 2
    ensures forall k: nat :: script(k) == [] || script(k) == [revive] || script(k) == [end]
  {
    tier := if end.SetStatus? && end.run.Some? then end.run.value else 0;
    db := Db(Session(Active, tier), map[], 0);
    script := (k: nat) => if k == 1 || k == 3 then [end] else if k == 2 then [revive] else [];
    var ended := Exec(db, end);
    var back := Exec(ended, revive);
    ExecOne(db, end);
    ExecOne(ended, revive);
    ExecOne(back, end);
    assert DbAfter(db, script, 1) == db && DbAfter(db, script, 2) == ended;
    assert DbAfter(db, script, 3) == back && DbAfter(db, script, 4) == Exec(back, end);
    assert Sends(tier, db, script, 0) && Sends(tier, db, script, 1);
    assert LateIn(tier, db, script, 1) == 1;
  }

  /** In every run at most one call leaves while the session is ended, if and only if
      what others may write does not both end a session and bring an ended one back. */
  lemma OneLateIff(allowed: Stmt -> bool)
    ensures AtMostOneLate(allowed) <==>
      (forall s: Stmt | allowed(s) :: !Revives(s)) || (forall s: Stmt | allowed(s) :: !Ends(s))
  {
    if forall s: Stmt | allowed(s) :: !Revives(s) {
      forall tier: int, db: Db, script: Script, n: nat | Drawn(allowed, script)
        ensures LateIn(tier, db, script, n) <= 1 {
        NoneRevivedIn(allowed, db, script, 2 * n);
        LateAtMost(tier, db, script, n);
      }
    } else if forall s: Stmt | allowed(s) :: !Ends(s) {
      forall tier: int, db: Db, script: Script, n: nat | Drawn(allowed, script)
        ensures LateIn(tier, db, script, n) <= 1 {
        NoneLate(allowed, tier, db, script, n);
      }
    } else {
      var revive: Stmt :| allowed(revive) && Revives(revive);
      var end: Stmt :| allowed(end) && Ends(end);
      var tier, db, script := TwoLateCalls(revive, end);
      assert Drawn(allowed, script);
    }
  }

  // ------------------------------------------------------------ calls sent after a Stop

  /** While nothing brings it back, a session once ended stays ended. */
  lemma {:induction false} StopsStay(db: Db, ss: seq<Stmt>)
    requires Revivals(db, ss) == 0 && (Ended(db.session) || Stops(db, ss))
    ensures Ended(ExecAll(db, ss).session)
    decreases |ss|
  {
    if ss != [] {
      StopsStay(Exec(db, ss[0]), ss[1..]);
    }
  }

  lemma {:induction false} StoppedStays(db: Db, script: Script, n: nat)
    requires RevivalsIn(db, script, n) == 0 && StoppedIn(db, script, n)
    ensures Ended(DbAfter(db, script, n).session)
  {
    if StoppedIn(db, script, n - 1) {
      StoppedStays(db, script, n - 1);
    }
    StopsStay(DbAfter(db, script, n - 1), script(n - 1));
  }

  lemma {:induction false} AfterStopIsLate(tier: int, db: Db, script: Script, n: nat)
    requires RevivalsIn(db, script, 2 * n) == 0
    ensures AfterStopIn(tier, db, script, n) <= LateIn(tier, db, script, n)
  {
    if n > 0 {
      TwoMore(db, script, 2 * n - 2);
      AfterStopIsLate(tier, db, script, n - 1);
      if StoppedIn(db, script, 2 * n) {
        StoppedStays(db, script, 2 * n);
      }
    }
  }

  /** In a run in which nothing brings an ended session back, at most one call is sent
      after a Stop took effect: the one whose check came before it. */
  lemma OneAfterStop(tier: int, db: Db, script: Script, n: nat)
    requires RevivalsIn(db, script, 2 * n) == 0
    ensures AfterStopIn(tier, db, script, n) <= 1
  {
    AfterStopIsLate(tier, db, script, n);
    LateAtMost(tier, db, script, n);
  }

  lemma {:induction false} NoneStops(db: Db, ss: seq<Stmt>)
    requires forall s | s in ss :: !Ends(s)
    ensures !Stops(db, ss)
    decreases |ss|
  {
    if ss != [] {
      assert ss[0] in ss && forall s | s in ss[1..] :: s in ss;
      NoneStops(Exec(db, ss[0]), ss[1..]);
    }
  }

  lemma {:induction false} NoneStopped(allowed: Stmt -> bool, db: Db, script: Script, n: nat)
    requires Drawn(allowed, script) && forall s: Stmt | allowed(s) :: !Ends(s)
    ensures !StoppedIn(db, script, n)
  {
    if n > 0 {
      NoneStopped(allowed, db, script, n - 1);
      assert AllAllowed(allowed, script(n - 1));
      NoneStops(DbAfter(db, script, n - 1), script(n - 1));
    }
  }

  lemma {:induction false} NoneAfterStop(allowed: Stmt -> bool, tier: int, db: Db, script: Script, n: nat)
    requires Drawn(allowed, script) && forall s: Stmt | allowed(s) :: !Ends(s)
    ensures AfterStopIn(tier, db, script, n) == 0
  {
    if n > 0 {
      NoneAfterStop(allowed, tier, db, script, n - 1);
      NoneStopped(allowed, db, script, 2 * n);
    }
  }

  /** Between the first check and its call a Stop comes, and what brings the session
      back. */
  function StopUndone(end: Stmt, revive: Stmt): Script { (k: nat) => if k == 1 then [end, revive] else [] }

  lemma {:induction false} StopUndoneRuns(tier: int, db: Db, end: Stmt, revive: Stmt, n: nat)
    requires Revives(revive) && Ends(end) && db.session == Session(Active, tier)
    requires end.SetStatus? && end.run.Some? ==> end.run.value == tier
    ensures var met := DbAfter(db, StopUndone(end, revive), n).session; !Ended(met) && met.tier == tier
    ensures n >= 2 ==> StoppedIn(db, StopUndone(end, revive), n)
    ensures RevivalsIn(db, StopUndone(end, revive), n) <= 1
  {
    var script := StopUndone(end, revive);
    if n == 2 {
      StopUndoneRuns(tier, db, end, revive, 1);
      var met := DbAfter(db, script, 1);
      assert DbAfter(db, script, 0) == met && RevivalsIn(db, script, 1) == 0;
      StopAndBack(met, end, revive);
    } else if n > 0 {
      StopUndoneRuns(tier, db, end, revive, n - 1);
    }
  }

  lemma StopAndBack(db: Db, end: Stmt, revive: Stmt)
    requires Revives(revive) && Ends(end) && !Ended(db.session)
    requires end.SetStatus? ==> !Lost(db.session, end.run)
    ensures var back := ExecAll(db, [end, revive]).session; !Ended(back) && back.tier == db.session.tier
    ensures Stops(db, [end, revive]) && Revivals(db, [end, revive]) == 1
  {
    var ended := Exec(db, end);
    ExecTwo(db, end, revive);
    assert [end, revive][1..] == [revive] && [revive][1..] == [];
    assert Ended(ended.session) && Revivals(Exec(ended, revive), []) == 0;
    assert Revivals(ended, [revive]) == 1;
  }

  lemma {:induction false} AllSend(tier: int, db: Db, script: Script, n: nat)
    requires forall k: nat :: !Lost(DbAfter(db, script, k).session, Some(tier))
    requires forall k: nat | k >= 2 :: StoppedIn(db, script, k)
    ensures AfterStopIn(tier, db, script, n) == n
    ensures n > 0 ==> Sends(tier, db, script, n - 1)
  {
    if n > 0 {
      AllSend(tier, db, script, n - 1);
    }
  }

  /** One Stop between a check and its call, undone before the next check: however long
      the run, every call of it is sent after the Stop. */
  lemma AllSentAfterStop(end: Stmt, revive: Stmt) returns (tier: int, db: Db, script: Script)
    requires Ends(end) && Revives(revive)
    ensures forall k: nat :: script(k) == if k == 1 then [end, revive] else []
    ensures forall n: nat :: AfterStopIn(tier, db, script, n) == n
    ensures forall n: nat :: RevivalsIn(db, script, n) <= 1
  {
    tier := if end.SetStatus? && end.run.Some? then end.run.value else 0;
    db, script := Db(Session(Active, tier), map[], 0), StopUndone(end, revive);
    forall n: nat
      ensures !Lost(DbAfter(db, script, n).session, Some(tier))
      ensures n >= 2 ==> StoppedIn(db, script, n)
      ensures RevivalsIn(db, script, n) <= 1
    {
      StopUndoneRuns(tier, db, end, revive, n);
    }
    forall n: nat ensures AfterStopIn(tier, db, script, n) == n {
      AllSend(tier, db, script, n);
    }
  }

  ghost predicate AtMostOneAfterStop(allowed: Stmt -> bool) {
    forall tier: int, db: Db, script: Script, n: nat | Drawn(allowed, script) :: AfterStopIn(tier, db, script, n) <= 1
  }

  /** In every run at most one call is sent after a Stop took effect, if and only if what
      others may write does not both end a session and bring an ended one back. */
  lemma OneAfterStopIff(allowed: Stmt -> bool)
    ensures AtMostOneAfterStop(allowed) <==>
      (forall s: Stmt | allowed(s) :: !Revives(s)) || (forall s: Stmt | allowed(s) :: !Ends(s))
  {
    if forall s: Stmt | allowed(s) :: !Revives(s) {
      forall tier: int, db: Db, script: Script, n: nat | Drawn(allowed, script)
        ensures AfterStopIn(tier, db, script, n) <= 1 {
        NoneRevivedIn(allowed, db, script, 2 * n);
        OneAfterStop(tier, db, script, n);
      }
    } else if forall s: Stmt | allowed(s) :: !Ends(s) {
      forall tier: int, db: Db, script: Script, n: nat | Drawn(allowed, script)
        ensures AfterStopIn(tier, db, script, n) <= 1 {
        NoneAfterStop(allowed, tier, db, script, n);
      }
    } else {
      var revive: Stmt :| allowed(revive) && Revives(revive);
      var end: Stmt :| allowed(end) && Ends(end);
      var tier, db, script := AllSentAfterStop(end, revive);
      assert Drawn(allowed, script) && AfterStopIn(tier, db, script, 2) == 2;
    }
  }

  // ------------------------------------------------------------ the printout

  function RemoveFirst(keys: seq<Key>, key: Key): (rest: seq<Key>)
    requires key in keys
    ensures multiset(rest) == multiset(keys) - multiset{key}
    decreases |keys|
  {
    assert keys == [keys[0]] + keys[1..];
    if keys[0] == key then keys[1..] else [keys[0]] + RemoveFirst(keys[1..], key)
  }

  /** How many of the records from `i` on have a key. */
  function CountFrom(rs: seq<Record>, i: nat, key: Key): nat
    requires i <= |rs|
    decreases |rs| - i
  {
    if i == |rs| then 0 else (if KeyOf(rs[i]) == key then 1 else 0) + CountFrom(rs, i + 1, key)
  }

  function CountHeldFrom(rs: seq<Record>, i: nat, key: Key): nat
    requires i <= |rs|
    decreases |rs| - i
  {
    if i == |rs| then 0 else (if rs[i].held && KeyOf(rs[i]) == key then 1 else 0) + CountHeldFrom(rs, i + 1, key)
  }

  function Min(a: nat, b: nat): nat { if a < b then a else b }

  /** How often a key is still to be matched before record `i`. */
  predicate LeftAt(unmatched: seq<Key>, heldBack: seq<Key>, rs: seq<Record>, i: nat, key: Key)
    requires i <= |rs|
  {
    multiset(unmatched)[key] == multiset(heldBack)[key] - Min(CountFrom(rs, i, key), multiset(heldBack)[key])
  }

  ghost predicate Left(unmatched: seq<Key>, heldBack: seq<Key>, rs: seq<Record>, i: nat)
    requires i <= |rs|
  {
    forall key: Key :: LeftAt(unmatched, heldBack, rs, i, key)
  }

  /** Whether record `i` is among the last with its key, as many as were held back. */
  predicate IsMarked(rs: seq<Record>, heldBack: seq<Key>, i: nat)
    requires i < |rs|
  {
    CountFrom(rs, i + 1, KeyOf(rs[i])) < multiset(heldBack)[KeyOf(rs[i])]
  }

  function MatchedOff(unmatched: seq<Key>, key: Key): seq<Key> {
    if key in unmatched then RemoveFirst(unmatched, key) else unmatched
  }

  lemma MatchOne(unmatched: seq<Key>, heldBack: seq<Key>, rs: seq<Record>, i: nat)
    requires i < |rs| && Left(unmatched, heldBack, rs, i + 1)
    ensures KeyOf(rs[i]) in unmatched <==> IsMarked(rs, heldBack, i)
    ensures Left(MatchedOff(unmatched, KeyOf(rs[i])), heldBack, rs, i)
  {
    var own := KeyOf(rs[i]);
    assert LeftAt(unmatched, heldBack, rs, i + 1, own);
    assert own in unmatched <==> multiset(unmatched)[own] > 0;
    forall key: Key ensures LeftAt(MatchedOff(unmatched, own), heldBack, rs, i, key) {
      assert LeftAt(unmatched, heldBack, rs, i + 1, key);
    }
  }

  /** Matches the calls held back with the records, from the end, each once. */
  method NotSent(rs: seq<Record>, heldBack: seq<Key>) returns (marks: seq<bool>)
    ensures |marks| == |rs|
    ensures forall i: nat | i < |rs| :: marks[i] == IsMarked(rs, heldBack, i)
  {
    var unmatched := heldBack;
    marks := [];
    for i := |rs| downto 0
      invariant |marks| == |rs| - i
      invariant forall k: nat | i <= k < |rs| :: marks[k - i] == IsMarked(rs, heldBack, k)
      invariant Left(unmatched, heldBack, rs, i)
    {
      MatchOne(unmatched, heldBack, rs, i);
      var key := KeyOf(rs[i]);
      var found := key in unmatched;
      if found {
        unmatched := RemoveFirst(unmatched, key);
      }
      marks := [found] + marks;
    }
  }

  lemma {:induction false} HeldCounts(rs: seq<Record>, n: nat, key: Key)
    requires n <= |rs|
    ensures multiset(HeldOf(rs[..n]))[key] + CountHeldFrom(rs, n, key) == CountHeldFrom(rs, 0, key)
  {
    if n > 0 {
      HeldCounts(rs, n - 1, key);
      assert rs[..n] == rs[..n - 1] + [rs[n - 1]];
      HeldOfSnoc(rs[..n - 1], rs[n - 1]);
    }
  }

  lemma {:induction false} HeldAtMost(rs: seq<Record>, i: nat, key: Key)
    requires i <= |rs|
    ensures CountHeldFrom(rs, i, key) <= CountFrom(rs, i, key)
    ensures (forall k | i <= k < |rs| && KeyOf(rs[k]) == key :: rs[k].held) <==>
      CountHeldFrom(rs, i, key) == CountFrom(rs, i, key)
    decreases |rs| - i
  {
    if i < |rs| {
      HeldAtMost(rs, i + 1, key);
    }
  }

  lemma {:induction false} HeldGrow(rs: seq<Record>, i: nat, j: nat, key: Key)
    requires i <= j <= |rs|
    ensures CountHeldFrom(rs, j, key) <= CountHeldFrom(rs, i, key)
    ensures (forall k | i <= k < j && KeyOf(rs[k]) == key :: !rs[k].held) <==>
      CountHeldFrom(rs, i, key) == CountHeldFrom(rs, j, key)
    decreases j - i
  {
    if i < j {
      HeldGrow(rs, i + 1, j, key);
    }
  }

  /** A server's answer that reads like a held back call comes before it. */
  predicate HeldLastOfTheirKey(rs: seq<Record>) {
    forall i, j | 0 <= i < j < |rs| && KeyOf(rs[i]) == KeyOf(rs[j]) :: rs[i].held ==> rs[j].held
  }

  /** Whether the mark of record `i` is right. */
  predicate MarkedRight(rs: seq<Record>, i: nat)
    requires i < |rs|
  {
    IsMarked(rs, HeldOf(rs), i) == rs[i].held
  }

  lemma MarkIsRight(rs: seq<Record>, i: nat)
    requires HeldLastOfTheirKey(rs) && i < |rs|
    ensures MarkedRight(rs, i)
  {
    var key := KeyOf(rs[i]);
    HeldCounts(rs, |rs|, key);
    assert rs[..|rs|] == rs;
    HeldAtMost(rs, i + 1, key);
    HeldGrow(rs, 0, i, key);
  }

  lemma {:induction false} CountGrows(rs: seq<Record>, i: nat, j: nat, key: Key)
    requires i <= j < |rs| && KeyOf(rs[j]) == key
    ensures CountFrom(rs, i, key) > CountFrom(rs, j + 1, key)
    decreases j - i
  {
    if i < j {
      CountGrows(rs, i + 1, j, key);
    }
  }

  /** The printout labels exactly the calls that were held back if and only if no
      answer that reads like one of them came behind it. */
  lemma MarksAreRightIff(rs: seq<Record>)
    ensures (forall i: nat | i < |rs| :: MarkedRight(rs, i)) <==> HeldLastOfTheirKey(rs)
  {
    if HeldLastOfTheirKey(rs) {
      forall i: nat | i < |rs| ensures MarkedRight(rs, i) {
        MarkIsRight(rs, i);
      }
    } else {
      var i: nat, j: nat :| i < j < |rs| && KeyOf(rs[i]) == KeyOf(rs[j]) && rs[i].held && !rs[j].held;
      CountGrows(rs, i + 1, j, KeyOf(rs[j]));
      assert !MarkedRight(rs, i) || !MarkedRight(rs, j);
    }
  }

  /** A run that sends nothing behind its first held back call meets that. */
  lemma HeldAreMarked(rs: seq<Record>)
    requires HeldLast(rs)
    ensures forall i: nat | i < |rs| :: MarkedRight(rs, i)
  {
    MarksAreRightIff(rs);
  }
}
