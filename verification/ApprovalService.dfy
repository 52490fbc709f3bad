/** The approval service against a database that others write at the same time. */
module ApprovalService {
  import opened Wrappers
  import opened Approvals

  datatype Resolution = Resolution(answer: Status, reason: Option<Reason>, guidance: Option<string>)

  datatype Reason = RejectedByHuman | TimedOutFirst | EndedDuringWait(end: EndReason)

  datatype NotAsked = NotAsked(why: Option<EndReason>)

  function BlockReason(answer: Status): Option<Reason> {
    match answer
    case Rejected => Some(RejectedByHuman)
    case Expired => Some(TimedOutFirst)
    case _ => None
  }

  /** The database, and of the service's own writes the session before and after. */
  class Database {
    var db: Db
    ghost var own: seq<(Session, Session)>

    constructor (db: Db)
      ensures this.db == db && own == []
    {
      this.db, own := db, [];
    }

    /** What others do meanwhile. */
    method Others(ss: seq<Stmt>)
      modifies this`db
      ensures db == ExecAll(old(db), ss) && Later(old(db), db)
      ensures forall id | id in old(db).requests && !Extends(ss, id) ::
        db.requests[id].expiresAt == old(db).requests[id].expiresAt
    {
      RunIsLater(db, ss);
      forall id | id in db.requests && !Extends(ss, id)
        ensures id in ExecAll(db, ss).requests && ExecAll(db, ss).requests[id].expiresAt == db.requests[id].expiresAt
      {
        ExpiryStays(db, ss, id);
      }
      for i := 0 to |ss|
        invariant ExecAll(db, ss[i..]) == ExecAll(old(db), ss)
      {
        assert ss[i..][1..] == ss[i + 1..];
        db := Exec(db, ss[i]);
      }
    }

    /** A statement of the service that does not write the session. */
    method Do(s: Stmt)
      requires s.Resolve? || s.Tick?
      modifies this`db
      ensures db == Exec(old(db), s)
    {
      db := Exec(db, s);
    }

    /** A write of the session that does not look at its status. */
    method Force(to: SessionStatus)
      modifies this`db
      ensures db == Exec(old(db), ForceStatus(to))
    {
      db := Exec(db, ForceStatus(to));
    }

    /** The conditional update: true when the row was written. */
    method SetSessionStatus(to: SessionStatus, run: Option<int>) returns (written: bool)
      modifies this
      ensures db == Exec(old(db), SetStatus(to, run)) && written == !Lost(old(db).session, run)
      ensures own == old(own) + [(old(db).session, db.session)]
    {
      written := !Lost(db.session, run);
      ghost var before := db.session;
      db := Exec(db, SetStatus(to, run));
      own := own + [(before, db.session)];
    }

    /** A request is asked with the session waiting for it, or not at all. */
    method AskFor(id: nat, expiresAt: int, run: Option<int>) returns (asked: bool)
      requires id !in db.requests
      modifies this
      ensures db == Exec(old(db), Ask(id, expiresAt, run)) && asked == !Lost(old(db).session, run)
      ensures asked <==> id in db.requests
      ensures !asked ==> db == old(db)
      ensures own == old(own) + [(old(db).session, db.session)]
    {
      var saved := db;
      ghost var before := db.session;
      db := db.(requests := db.requests[id := Request(Pending, "", expiresAt)]);
      if Lost(db.session, run) {
        db := saved;
        asked := false;
      } else {
        db := db.(session := db.session.(status := AwaitingApproval));
        asked := true;
      }
      own := own + [(before, db.session)];
    }

    /** The session's status follows a resolved request; true when it was written. */
    method SyncSessionStatus(answer: Status, run: Option<int>) returns (written: bool)
      modifies this
      ensures db == Exec(old(db), SetStatus(if answer == Expired then TimedOut else Active, run))
      ensures written == !Lost(old(db).session, run)
      ensures own == old(own) + [(old(db).session, db.session)]
    {
      written := SetSessionStatus(if answer == Expired then TimedOut else Active, run);
    }
  }

  /** Of some writes, none changed a session that was lost to the run. */
  ghost predicate Spared(own: seq<(Session, Session)>, run: Option<int>) {
    forall w | w in own :: Lost(w.0, run) ==> w.1 == w.0
  }

  /** What others do, at every point where they may come in between. */
  type Script = nat -> seq<Stmt>

  /** Nobody extends request `id` from point `n` on. */
  ghost predicate NotExtendedFrom(script: Script, id: nat, n: nat) {
    forall k: nat | k >= n :: !Extends(script(k), id)
  }

  /** How long a request may still keep its run waiting. */
  function Waiting(db: Db, id: nat): nat
    requires id in db.requests
  {
    var r := db.requests[id];
    if r.status != Pending then 0 else if r.expiresAt > db.now then 1 + (r.expiresAt - db.now) else 1
  }

  /** Asks, and waits for the answer. `last` bounds the points at which the request's
      expiry may still be moved. */
  method RequestAndWait(
    d: Database, id: nat, timeout: nat, poll: nat, run: Option<int>, script: Script, ghost last: nat)
    returns (r: Result<Resolution, NotAsked>)
    requires id !in d.db.requests && poll > 0 && NotExtendedFrom(script, id, last)
    requires forall k: nat :: NoAsk(script(k), id)
    requires Spared(d.own, run)
    modifies d
    ensures Spared(d.own, run)
    ensures r.Err? ==> id !in d.db.requests
    ensures r.Ok? ==> id in d.db.requests && Tells(r.value, d.db.requests[id])
  {
    var expiresAt := d.db.now + timeout;
    AskedByNobody(d.db, script(0), id);
    d.Others(script(0));
    var asked := d.AskFor(id, expiresAt, run);
    if !asked {
      AskedByNobody(d.db, script(1), id);
      d.Others(script(1));
      return Err(NotAsked(SessionEndReason(d.db.session, run)));
    }
    var answered := Wait(d, id, poll, run, script, last, 1);
    r := Ok(answered);
  }

  predicate NoAsk(ss: seq<Stmt>, id: nat) { forall s | s in ss :: s.Ask? ==> s.id != id }

  /** Ids are never given twice. */
  lemma {:induction false} AskedByNobody(db: Db, ss: seq<Stmt>, id: nat)
    requires id !in db.requests && NoAsk(ss, id)
    ensures id !in ExecAll(db, ss).requests
    decreases |ss|
  {
    if ss != [] {
      assert ss[0] in ss && forall s | s in ss[1..] :: s in ss;
      AskedByNobody(Exec(db, ss[0]), ss[1..], id);
    }
  }

  /** A resolution is the request's own answer, with its note when it redirects. */
  predicate Tells(r: Resolution, q: Request) {
    && r.answer == q.status != Pending
    && (r.answer in {Rejected, Expired} ==> r.reason.Some?)
    && (r.guidance.Some? ==> r.answer == Redirected && r.guidance == Some(q.note))
  }

  /** Why the run's session ended or moved, when a request expired because of it: the
      run had lost its session as it came to write, and has when it reads again. */
  function CutShort(db: Db, id: nat, run: Option<int>, script: Script, n: nat): Option<EndReason>
    requires id in db.requests
  {
    var writing := ExecAll(db, script(n));
    if db.requests[id].status == Expired && Lost(writing.session, run) then
      SessionEndReason(ExecAll(writing, script(n + 1)).session, run)
    else None
  }

  /** A request found resolved: the session follows it, unless the run has lost it. */
  method Answered(d: Database, id: nat, run: Option<int>, script: Script, n: nat) returns (r: Resolution)
    requires id in d.db.requests && d.db.requests[id].status != Pending && Spared(d.own, run)
    modifies d
    ensures Spared(d.own, run) && Later(old(d.db), d.db) && Tells(r, d.db.requests[id])
    ensures r.guidance == if r.answer == Redirected then Some(old(d.db).requests[id].note) else None
    ensures r.reason == if CutShort(old(d.db), id, run, script, n).Some?
                        then Some(EndedDuringWait(CutShort(old(d.db), id, run, script, n).value))
                        else BlockReason(old(d.db).requests[id].status)
  {
    var seen := d.db.requests[id];
    d.Others(script(n));
    var written := d.SyncSessionStatus(seen.status, run);
    d.Others(script(n + 1));
    if !written && seen.status == Expired {
      var ended := SessionEndReason(d.db.session, run);
      if ended.Some? {
        return Resolution(Expired, Some(EndedDuringWait(ended.value)), None);
      }
    }
    r := Resolution(seen.status, BlockReason(seen.status), if seen.status == Redirected then Some(seen.note) else None);
  }

  /** The answer that landed while a run came to expire its request, if one did. */
  function LandedFirst(db: Db, id: nat, ss: seq<Stmt>): Option<Request>
    requires id in db.requests
  {
    RunIsLater(db, ss);
    var q := ExecAll(db, ss).requests[id];
    if q.status == Pending || q.status == Expired then None else Some(q)
  }

  /** A request found past its expiry: it expires unless an answer landed first. That
      answer is kept, but told with the reason of a timeout, and without the note of a
      redirect. */
  method Expire(d: Database, id: nat, run: Option<int>, script: Script, n: nat) returns (r: Resolution)
    requires id in d.db.requests && Spared(d.own, run)
    modifies d
    ensures Spared(d.own, run) && Later(old(d.db), d.db) && Tells(r, d.db.requests[id])
    ensures r.reason == Some(TimedOutFirst) && r.guidance.None?
    ensures r.answer != Expired <==> LandedFirst(old(d.db), id, script(n)).Some?
    ensures r.answer != Expired ==> d.db.requests[id] == LandedFirst(old(d.db), id, script(n)).value
  {
    d.Others(script(n));
    d.Do(Resolve(id, Expired, ""));
    d.Others(script(n + 1));
    var answer := d.db.requests[id].status;
    var _ := d.SyncSessionStatus(answer, run);
    d.Others(script(n + 2));
    r := Resolution(answer, Some(TimedOutFirst), None);
  }

  /** An approval that lands as the request expires is told with a timeout's reason. */
  method ApprovedAsItExpires(d: Database, id: nat) returns (r: Resolution)
    requires id in d.db.requests && d.db.requests[id].status == Pending && Spared(d.own, None)
    modifies d
    ensures r == Resolution(Approved, Some(TimedOutFirst), None) && BlockReason(Approved).None?
  {
    var landing := Resolve(id, Approved, "");
    ExecOne(d.db, landing);
    r := Expire(d, id, None, (k: nat) => if k == 0 then [landing] else [], 0);
  }

  /** A redirect that does loses its guidance. */
  method RedirectedAsItExpires(d: Database, id: nat, note: string) returns (r: Resolution)
    requires id in d.db.requests && d.db.requests[id].status == Pending && Spared(d.own, None)
    modifies d
    ensures r == Resolution(Redirected, Some(TimedOutFirst), None)
    ensures id in d.db.requests && d.db.requests[id].note == note
  {
    var landing := Resolve(id, Redirected, note);
    ExecOne(d.db, landing);
    r := Expire(d, id, None, (k: nat) => if k == 0 then [landing] else [], 0);
  }

  /** How many points a turn has at which others may come in. */
  const TURN: nat := 6

  /** The run has lost its session: the request expires, unless an answer comes first. */
  method ExpireAtOnce(d: Database, id: nat, meanwhile: seq<Stmt>)
    requires id in d.db.requests
    modifies d`db
    ensures Later(old(d.db), d.db) && d.db.requests[id].status != Pending
  {
    d.Others(meanwhile);
    d.Do(Resolve(id, Expired, ""));
  }

  /** One turn of the polling loop. It looks at the request, then at the session, then
      at the clock; others come in between all of these. */
  method Turn(d: Database, id: nat, poll: nat, run: Option<int>, script: Script, n: nat, ghost last: nat)
    returns (r: Option<Resolution>)
    requires id in d.db.requests && poll > 0 && NotExtendedFrom(script, id, last) && Spared(d.own, run)
    modifies d
    ensures Spared(d.own, run) && Later(old(d.db), d.db)
    ensures r.Some? ==> Tells(r.value, d.db.requests[id])
    ensures old(d.db).requests[id].status != Pending ==> r.Some?
    ensures r.None? && n >= last ==> Waiting(d.db, id) < Waiting(old(d.db), id)
  {
    d.Others(script(n));
    var seen := d.db.requests[id];
    if seen.status != Pending {
      var answered := Answered(d, id, run, script, n + 1);
      return Some(answered);
    }
    d.Others(script(n + 1));
    if SessionEndReason(d.db.session, run).Some? {
      ExpireAtOnce(d, id, script(n + 2));
      return None;
    }
    d.Others(script(n + 2));
    if d.db.now >= seen.expiresAt {
      var expired := Expire(d, id, run, script, n + 3);
      return Some(expired);
    }
    d.Do(Tick(poll));
    return None;
  }

  /** The polling loop ends: after the last extension every turn that does not return
      resolves the request or brings its expiry nearer. */
  method Wait(d: Database, id: nat, poll: nat, run: Option<int>, script: Script, ghost last: nat, from: nat)
    returns (r: Resolution)
    requires id in d.db.requests && poll > 0 && NotExtendedFrom(script, id, last) && Spared(d.own, run)
    modifies d
    ensures Spared(d.own, run) && Later(old(d.db), d.db) && Tells(r, d.db.requests[id])
  {
    var n := from;
    while true
      invariant id in d.db.requests && Spared(d.own, run) && Later(old(d.db), d.db)
      decreases if last > n then last - n else 0, Waiting(d.db, id)
    {
      var found := Turn(d, id, poll, run, script, n, last);
      if found.Some? {
        return found.value;
      }
      n := n + TURN;
    }
  }
}
