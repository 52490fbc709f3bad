/** A session and its approval requests in the database, and every statement that
    writes them: the approval service's, a person's Stop, Override and answers, and
    the CLI's close. A run of statements is any interleaving of theirs. */
module Approvals {
  import opened Wrappers

  datatype SessionStatus = Queued | Active | AwaitingApproval | Done | TimedOut | SessionFailed | Halted | Cancelled

  datatype Status = Pending | Approved | Rejected | Redirected | Expired

  datatype Session = Session(status: SessionStatus, tier: int)

  datatype Request = Request(status: Status, note: string, expiresAt: int)

  datatype Db = Db(session: Session, requests: map<nat, Request>, now: int)

  /** A person stopped or cancelled the session. */
  predicate Ended(s: Session) { s.status == Halted || s.status == Cancelled }

  /** The session no longer belongs to a run that drives it at `tier`, if bound to one. */
  predicate Lost(s: Session, tier: Option<int>) { Ended(s) || (tier.Some? && s.tier != tier.value) }

  datatype EndReason = WasEnded(status: SessionStatus) | WasOverridden(tier: int)

  function SessionEndReason(s: Session, tier: Option<int>): Option<EndReason> {
    if Ended(s) then Some(WasEnded(s.status))
    else if tier.Some? && s.tier != tier.value then Some(WasOverridden(s.tier))
    else None
  }

  datatype Stmt =
    /** Asks under a new id, unless the session is lost to the asking run. */
    | Ask(id: nat, expiresAt: int, run: Option<int>)
    /** Resolves a request that is still pending. */
    | Resolve(id: nat, answer: Status, note: string)
    /** Writes the session's status unless it is lost to the writing run. */
    | SetStatus(to: SessionStatus, run: Option<int>)
    /** Writes the session's status whatever it is. */
    | ForceStatus(to: SessionStatus)
    | MoveTier(tier: int)
    | Extend(id: nat, expiresAt: int)
    | Tick(time: nat)

  function Exec(db: Db, s: Stmt): Db {
    match s
    case Ask(id, expiresAt, tier) =>
      if id in db.requests || Lost(db.session, tier) then db
      else db.(requests := db.requests[id := Request(Pending, "", expiresAt)],
               session := db.session.(status := AwaitingApproval))
    case Resolve(id, status, note) =>
      if id in db.requests && db.requests[id].status == Pending && status != Pending then
        db.(requests := db.requests[id := Request(status, note, db.requests[id].expiresAt)])
      else db
    case SetStatus(status, tier) =>
      if Lost(db.session, tier) then db else db.(session := db.session.(status := status))
    case ForceStatus(status) => db.(session := db.session.(status := status))
    case MoveTier(tier) => db.(session := db.session.(tier := tier))
    case Extend(id, expiresAt) =>
      if id in db.requests && db.requests[id].status == Pending then
        db.(requests := db.requests[id := db.requests[id].(expiresAt := expiresAt)])
      else db
    case Tick(time) => db.(now := db.now + time)
  }

  function ExecAll(db: Db, ss: seq<Stmt>): Db
    decreases |ss|
  {
    if ss == [] then db else ExecAll(Exec(db, ss[0]), ss[1..])
  }

  lemma ExecOne(db: Db, s: Stmt)
    ensures ExecAll(db, [s]) == Exec(db, s)
  {
    assert [s][1..] == [];
  }

  lemma ExecTwo(db: Db, s: Stmt, t: Stmt)
    ensures ExecAll(db, [s, t]) == Exec(Exec(db, s), t)
  {
    assert [s, t][1..] == [t];
    ExecOne(Exec(db, s), t);
  }

  // ------------------------------------------------------------ what every run keeps

  /** Between two moments: no request disappears, none is resolved twice, time goes on. */
  predicate Later(a: Db, b: Db) {
    && a.now <= b.now
    && (forall id | id in a.requests ::
          id in b.requests && (a.requests[id].status != Pending ==> b.requests[id] == a.requests[id]))
  }

  lemma {:induction false} RunIsLater(db: Db, ss: seq<Stmt>)
    ensures Later(db, ExecAll(db, ss))
    decreases |ss|
  {
    if ss != [] {
      RunIsLater(Exec(db, ss[0]), ss[1..]);
    }
  }

  /** The first answer to a request is its last: no later statement of anyone changes
      it. */
  lemma FirstAnswerStays(db: Db, ss: seq<Stmt>, id: nat)
    requires id in db.requests && db.requests[id].status != Pending
    ensures id in ExecAll(db, ss).requests && ExecAll(db, ss).requests[id] == db.requests[id]
  {
    RunIsLater(db, ss);
  }

  predicate Forces(s: Stmt) { s.ForceStatus? }

  /** A session a person ended stays as it is in every run without a forced write: the
      service's asks and syncs and the CLI's close never bring it back. */
  lemma {:induction false} EndedStays(db: Db, ss: seq<Stmt>)
    requires Ended(db.session) && forall s | s in ss :: !Forces(s)
    ensures ExecAll(db, ss).session.status == db.session.status
    decreases |ss|
  {
    if ss != [] {
      assert ss[0] in ss && forall s | s in ss[1..] :: s in ss;
      EndedStays(Exec(db, ss[0]), ss[1..]);
    }
  }

  /** What the service of a run bound to a tier, and the CLI's close, write of the
      session. */
  predicate OfRunAt(s: Stmt, tier: int) { (s.Ask? || s.SetStatus?) && s.run == Some(tier) }

  /** The statements of all others, and of that run those on its requests. */
  function Without(ss: seq<Stmt>, tier: int): seq<Stmt> {
    if ss == [] then [] else (if OfRunAt(ss[0], tier) then [] else [ss[0]]) + Without(ss[1..], tier)
  }

  /** Once an Override moved the session to another tier, and while it stays away from
      the run's, what that run asks and writes changes nothing at all, in any
      interleaving with others. */
  lemma {:induction false} MovedStays(db: Db, ss: seq<Stmt>, tier: int)
    requires db.session.tier != tier && forall s | s in ss && s.MoveTier? :: s.tier != tier
    ensures ExecAll(db, ss) == ExecAll(db, Without(ss, tier))
    decreases |ss|
  {
    if ss != [] {
      var s, rest := ss[0], ss[1..];
      assert s in ss && forall t | t in rest :: t in ss;
      MovedStays(Exec(db, s), rest, tier);
      if OfRunAt(s, tier) {
        assert Without(ss, tier) == Without(rest, tier) && Exec(db, s) == db;
      } else {
        assert Without(ss, tier) == [s] + Without(rest, tier);
        assert ([s] + Without(rest, tier))[1..] == Without(rest, tier);
      }
    }
  }

  lemma {:induction false} ExecAllCat(db: Db, ss: seq<Stmt>, ts: seq<Stmt>)
    ensures ExecAll(db, ss + ts) == ExecAll(ExecAll(db, ss), ts)
    decreases |ss|
  {
    if ss == [] {
      assert ss + ts == ts;
    } else {
      ExecAllCat(Exec(db, ss[0]), ss[1..], ts);
      assert (ss + ts)[1..] == ss[1..] + ts;
    }
  }

  predicate Extends(ss: seq<Stmt>, id: nat) { exists s | s in ss :: s.Extend? && s.id == id }

  lemma {:induction false} ExpiryStays(db: Db, ss: seq<Stmt>, id: nat)
    requires id in db.requests && !Extends(ss, id)
    ensures id in ExecAll(db, ss).requests && ExecAll(db, ss).requests[id].expiresAt == db.requests[id].expiresAt
    decreases |ss|
  {
    if ss != [] {
      assert ss[0] in ss && forall s | s in ss[1..] :: s in ss;
      ExpiryStays(Exec(db, ss[0]), ss[1..], id);
    }
  }
}
