/** What people and the CLI do to a session that a run may be waiting in: answers,
    Stop, and the CLI's close. */
module ApprovalActions {
  import opened Wrappers
  import opened Approvals
  import opened ApprovalService

  datatype Decision = NotFound | NotPending | Forbidden | Failed | ExpiredNow | Decided

  /** Which decisions write the session. */
  predicate Writes(o: Decision) { o == ExpiredNow || o == Decided }

  /** Whether an answer comes to write the session: its request was pending when it
      looked, the person may answer, and when it writes the request is past the expiry
      it saw, or still pending. */
  predicate Lands(db: Db, id: nat, allowed: bool, script: Script) {
    && id in db.requests && db.requests[id].status == Pending && allowed
    && (IsLate(db, id, script) || IsStillPending(db, id, script))
  }

  predicate IsLate(db: Db, id: nat, script: Script)
    requires id in db.requests
  {
    ExecAll(db, script(0)).now >= db.requests[id].expiresAt
  }

  predicate IsStillPending(db: Db, id: nat, script: Script) {
    var met := ExecAll(db, script(0));
    id in met.requests && met.requests[id].status == Pending
  }

  /** What others alone make of the database while an answer is given. */
  function Alone(db: Db, script: Script): Db { ExecAll(ExecAll(db, script(0)), script(1)) }

  /** An answer to a request, others coming in after its look and before its last
      write, which does not look at what the session's status has become: it overwrites
      an ended session if and only if it comes to write and others leave it ended. */
  method Decide(d: Database, id: nat, answer: Status, note: string, allowed: bool, script: Script)
    returns (o: Decision, ghost overwrote: bool)
    requires answer != Pending
    modifies d`db
    ensures Later(old(d.db), d.db)
    ensures o == NotFound <==> id !in old(d.db).requests
    ensures o == NotPending <==> id in old(d.db).requests && old(d.db).requests[id].status != Pending
    ensures o == Forbidden <==> id in old(d.db).requests && old(d.db).requests[id].status == Pending && !allowed
    ensures o == ExpiredNow <==> Lands(old(d.db), id, allowed, script) && IsLate(old(d.db), id, script)
    ensures o == Decided <==> Lands(old(d.db), id, allowed, script) && !IsLate(old(d.db), id, script)
    ensures overwrote <==> Lands(old(d.db), id, allowed, script) && Ended(Alone(old(d.db), script).session)
    ensures Writes(o) ==>
      d.db.session == Alone(old(d.db), script).session.(status := if o == ExpiredNow then TimedOut else Active)
    ensures o == Decided ==> id in d.db.requests && d.db.requests[id].status == answer && d.db.requests[id].note == note
    ensures o == ExpiredNow ==> id in d.db.requests && d.db.requests[id].status != Pending
    ensures o == NotFound || o == NotPending ==> d.db == old(d.db)
    ensures o == Forbidden || o == Failed ==> d.db == ExecAll(old(d.db), script(0))
  {
    overwrote := false;
    if id !in d.db.requests {
      return NotFound, false;
    }
    var seen := d.db.requests[id];
    if seen.status != Pending {
      return NotPending, false;
    }
    d.Others(script(0));
    if !allowed {
      return Forbidden, false;
    }
    ghost var met := d.db;
    if d.db.now >= seen.expiresAt {
      d.Do(Resolve(id, Expired, ""));
      SessionIgnoresResolve(met, Resolve(id, Expired, ""), script(1));
      d.Others(script(1));
      overwrote := Ended(d.db.session);
      d.Force(TimedOut);
      return ExpiredNow, overwrote;
    }
    if d.db.requests[id].status != Pending {
      return Failed, false;
    }
    d.Do(Resolve(id, answer, note));
    SessionIgnoresResolve(met, Resolve(id, answer, note), script(1));
    d.Others(script(1));
    overwrote := Ended(d.db.session);
    d.Force(Active);
    return Decided, overwrote;
  }

  /** Nobody's session writes depend on how a request is resolved. */
  lemma SessionIgnoresResolve(db: Db, s: Stmt, ss: seq<Stmt>)
    requires s.Resolve?
    ensures ExecAll(Exec(db, s), ss).session == ExecAll(db, ss).session
  {
    SessionsAgree(Exec(db, s), db, ss);
  }

  lemma {:induction false} SessionsAgree(a: Db, b: Db, ss: seq<Stmt>)
    requires a.session == b.session && a.requests.Keys == b.requests.Keys
    ensures ExecAll(a, ss).session == ExecAll(b, ss).session
    decreases |ss|
  {
    if ss != [] {
      SessionsAgree(Exec(a, ss[0]), Exec(b, ss[0]), ss[1..]);
    }
  }

  /** What a Stop writes that finds one request pending. */
  function StopOf(id: nat): seq<Stmt> { [Resolve(id, Expired, ""), ForceStatus(Halted)] }

  /** What it writes when it does not find it: the request came as it looked. */
  function StopMissing(): seq<Stmt> { [ForceStatus(Halted)] }

  function Between(ss: seq<Stmt>): Script { (k: nat) => if k == 0 then ss else [] }

  /** A late answer overwrites a Stop that comes behind its look, though the Stop has
      expired the request: the session is timed out, not stopped. */
  method LateAnswerOverwritesStop(d: Database, id: nat, answer: Status, note: string)
    requires id in d.db.requests && d.db.requests[id].status == Pending && d.db.now >= d.db.requests[id].expiresAt
    requires answer != Pending
    modifies d`db
    ensures var stopped := ExecAll(old(d.db), StopOf(id));
      Ended(stopped.session) && id in stopped.requests && stopped.requests[id].status == Expired
    ensures d.db.session.status == TimedOut
  {
    ExecTwo(d.db, Resolve(id, Expired, ""), ForceStatus(Halted));
    var o, overwrote := Decide(d, id, answer, note, true, Between(StopOf(id)));
    assert o == ExpiredNow && overwrote;
  }

  /** In time, it overwrites a Stop that missed the request. */
  method AnswerOverwritesMissingStop(d: Database, id: nat, answer: Status, note: string)
    requires id in d.db.requests && d.db.requests[id].status == Pending && d.db.now < d.db.requests[id].expiresAt
    requires answer != Pending
    modifies d`db
    ensures Ended(ExecAll(old(d.db), StopMissing()).session)
    ensures d.db.session.status == Active
  {
    ExecOne(d.db, ForceStatus(Halted));
    var o, overwrote := Decide(d, id, answer, note, true, Between(StopMissing()));
    assert o == Decided && overwrote;
  }

  /** In time, it does not overwrite a Stop that expired the request. */
  method AnswerLosesToStop(d: Database, id: nat, answer: Status, note: string) returns (o: Decision)
    requires id in d.db.requests && d.db.requests[id].status == Pending && d.db.now < d.db.requests[id].expiresAt
    requires answer != Pending
    modifies d`db
    ensures o == Failed && d.db == ExecAll(old(d.db), StopOf(id)) && d.db.session.status == Halted
  {
    ExecTwo(d.db, Resolve(id, Expired, ""), ForceStatus(Halted));
    ghost var overwrote;
    o, overwrote := Decide(d, id, answer, note, true, Between(StopOf(id)));
  }

  // ------------------------------------------------------------ stopping

  predicate IsRunning(s: SessionStatus) { s == Queued || s == Active || s == AwaitingApproval }

  function PendingIn(db: Db): set<nat> { set id | id in db.requests && db.requests[id].status == Pending }

  /** Expires the listed requests, others coming in between. */
  method ExpireAll(d: Database, ids: set<nat>, script: Script)
    requires forall id | id in ids :: id in d.db.requests
    modifies d`db
    ensures Later(old(d.db), d.db)
    ensures forall id | id in ids :: id in d.db.requests && d.db.requests[id].status != Pending
  {
    var left, n := ids, 0;
    while left != {}
      invariant left <= ids && n >= 0 && Later(old(d.db), d.db)
      invariant forall id | id in ids - left :: id in d.db.requests && d.db.requests[id].status != Pending
      decreases left
    {
      var id :| id in left;
      d.Others(script(n));
      d.Do(Resolve(id, Expired, ""));
      left, n := left - {id}, n + 1;
    }
  }

  /** A person's Stop, or that of an incident being resolved: what was pending when it
      looked is expired, and the session is stopped, or cancelled while still queued. */
  method Stop(d: Database, script: Script) returns (stopped: bool)
    modifies d`db
    ensures stopped == IsRunning(old(d.db).session.status)
    ensures !stopped ==> d.db == old(d.db)
    ensures stopped ==> Later(old(d.db), d.db) && Ended(d.db.session)
    ensures stopped ==> (d.db.session.status == Cancelled <==> old(d.db).session.status == Queued)
    ensures stopped ==>
      forall id | id in PendingIn(old(d.db)) :: id in d.db.requests && d.db.requests[id].status != Pending
  {
    stopped := IsRunning(d.db.session.status);
    if stopped {
      var to := if d.db.session.status == Queued then Cancelled else Halted;
      ExpireAll(d, PendingIn(d.db), script);
      d.Force(to);
    }
  }

  /** The CLI closes its own session row, unless a person ended it or an Override gave
      it to the app; and what is then pending is expired. */
  method CloseCliSession(d: Database, tier: int, to: SessionStatus, script: Script) returns (closed: bool)
    requires Spared(d.own, Some(tier))
    modifies d
    ensures Spared(d.own, Some(tier)) && Later(old(d.db), d.db)
    ensures closed == !Lost(old(d.db).session, Some(tier))
    ensures !closed ==> d.db == old(d.db)
    ensures closed ==>
      forall id | id in PendingIn(old(d.db)) :: id in d.db.requests && d.db.requests[id].status != Pending
  {
    closed := d.SetSessionStatus(to, Some(tier));
    if closed {
      ExpireAll(d, PendingIn(d.db), script);
    }
  }
}
