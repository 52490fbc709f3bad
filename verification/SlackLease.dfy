/** The lease row of one Slack connector, and the protocol by which any number
    of processes share it: tick, commit, open or close, fence, shut down.

    Time is real-valued true time in seconds. A process only reads its own
    clock, which never runs backwards and is within `skew` of true time; its
    timers run at most `delay` late. Nothing else is assumed of scheduling. */
module SlackLease {
  import opened Wrappers

  type ProcId = nat

  /** The constants of the deployment, and the two bounds on its environment. */
  datatype Config = Config(lease: real, renew: real, skew: real, delay: real) {

    /** A holder that has not renewed for this long closes its socket. */
    function Fence(): real { lease - renew / 2.0 }

    /** The last true moment at which a socket renewed at `renewed` (on its
        holder's clock) can still be open. */
    function LastOpen(renewed: real): real {
      renewed + Fence() + skew + FENCE_SLACK + delay
    }

    predicate Sane() {
      0.0 < renew && 0.0 <= skew && 0.0 <= delay && 3.0 * renew < 2.0 * lease
    }

    /** Lateness and clock difference together fit into half a renewal. */
    predicate MarginHolds() {
      2.0 * skew + FENCE_SLACK + delay <= renew / 2.0
    }
  }

  const LEASE_SECONDS := 60.0
  const RENEW_SECONDS := 20.0
  /** A sleep that waits for a fence lasts this much past it; a tick is never
      given less than this. */
  const FENCE_SLACK := 0.05
  /** A holder that gave up rests this much longer than a renewal. */
  const REST_EXTRA := 5.0

  function Shipped(skew: real, delay: real): Config {
    Config(LEASE_SECONDS, RENEW_SECONDS, skew, delay)
  }

  function Min(a: real, b: real): real { if a <= b then a else b }

  function Max(a: real, b: real): real { if a <= b then b else a }

  // ------------------------------------------------------------------ the row

  datatype Lease = Lease(holder: ProcId, stamp: real)

  type Row = Option<Lease>

  /** An update takes the row its holder renews or whose stamp is older than the
      lease; an insert takes it when there is none. */
  predicate CanTake(row: Row, p: ProcId, now: real, lease: real) {
    row.None? || row.value.holder == p || row.value.stamp < now - lease
  }

  function TakeLease(row: Row, p: ProcId, now: real, lease: real): Row {
    if CanTake(row, p, now, lease) then Some(Lease(p, now)) else row
  }

  function ReleaseLease(row: Row, p: ProcId): Row {
    if row.Some? && row.value.holder == p then None else row
  }

  /** What a tick's transaction does to the row: take or renew it when the
      process tries and may; otherwise give back the lease of an open socket. */
  function CommitRow(row: Row, p: ProcId, now: real, lease: real, tries: bool, open: bool): Row {
    if tries && CanTake(row, p, now, lease) then Some(Lease(p, now))
    else if open then ReleaseLease(row, p)
    else row
  }

  // ------------------------------------------------------------ one process

  datatype Phase =
    | Down
    | Idle                                 // asleep, or just out of a tick
    | Ticking(now: real)                   // before the transaction commits
    | Committed(now: real, keeps: bool)    // committed, sockets not yet touched
    | Closing                              // shutdown: sockets closed, lease not yet released

  /** `renewed` is the clock reading of the open socket's last renewal, `timer`
      the moment the process may next run and `deadline` the moment by which it
      has run. `gaveAway` remembers that a tick committed the release of the
      lease of a socket that is still open, `rest` until when the process, having given
      up, does not try. */
  datatype Proc = Proc(
    phase: Phase,
    renewed: Option<real>,
    gaveAway: bool,
    started: real,
    timer: real,
    deadline: real,
    lastRead: real,
    rest: Option<real>
  )

  datatype Sys = Sys(t: real, row: Row, procs: map<ProcId, Proc>)

  /** Seconds until the socket must be closed, or None without one. */
  function FenceDueIn(renewed: Option<real>, fence: real, clock: real): Option<real> {
    if renewed.Some? then Some(renewed.value + fence - clock) else None
  }

  /** Seconds a tick may take. */
  function TickBudget(due: Option<real>, renew: real): real {
    Max(if due.Some? then Min(renew, due.value) else renew, FENCE_SLACK)
  }

  /** Seconds the loop sleeps when `left` seconds remain to the next tick. */
  function SleepFor(left: real, due: Option<real>): real {
    if due.None? then left else Max(0.0, Min(left, due.value + FENCE_SLACK))
  }

  predicate MustFence(renewed: Option<real>, fence: real, clock: real) {
    renewed.Some? && clock - renewed.value >= fence
  }

  function Sooner(a: Option<real>, b: Option<real>): Option<real> {
    if a.None? then b else if b.None? then a else Some(Min(a.value, b.value))
  }

  /** The process runs at true time `t`: it fences, then sleeps on, or begins a
      tick once a renewal has passed since the last one began. The clock is read
      three times on the way: by the fence, for the timer, and by the tick.
      `other` is when the first of its sockets for other connectors is due. */
  function Wake(cfg: Config, pr: Proc, t: real, c0: real, c1: real, c2: real, other: Option<real>): Proc {
    var fenced :=
      if MustFence(pr.renewed, cfg.Fence(), c0) then pr.(renewed := None, gaveAway := false) else pr;
    var left := cfg.renew - (t - pr.started);
    var due := Sooner(FenceDueIn(fenced.renewed, cfg.Fence(), c1), other);
    if left > 0.0 then
      var s := SleepFor(left, due);
      fenced.(timer := t + s, deadline := t + s + cfg.delay, lastRead := c1)
    else
      var b := TickBudget(due, cfg.renew);
      fenced.(phase := Ticking(c2), started := t, timer := t, deadline := t + b + cfg.delay, lastRead := c2)
  }

  // ------------------------------------------------------------ the protocol

  datatype Label =
    | Boot(p: ProcId, c: real)
    | Run(p: ProcId, c0: real, c1: real, c2: real, other: Option<real>)
    | GiveUp(p: ProcId)           // the tick finds the socket long not connected
    | Commit(p: ProcId, tries: bool)
    | Apply(p: ProcId)            // open, renew or close, after the commit
    | FailTick(p: ProcId)         // the tick raised or timed out
    | Stop(p: ProcId)
    | StopRelease(p: ProcId)
    | Crash(p: ProcId)
    | Pass(t: real)

  predicate Readable(cfg: Config, s: Sys, p: ProcId, c: real)
    requires p in s.procs
  {
    s.procs[p].lastRead <= c && s.t - cfg.skew <= c <= s.t + cfg.skew
  }

  predicate Rests(rest: Option<real>, now: real) { rest.Some? && rest.value > now }

  predicate Enabled(cfg: Config, s: Sys, l: Label) {
    match l
    case Boot(p, c) => p in s.procs && s.procs[p].phase.Down? && Readable(cfg, s, p, c)
    case Run(p, c0, c1, c2, other) =>
      && p in s.procs && s.procs[p].phase.Idle? && s.procs[p].timer <= s.t
      && Readable(cfg, s, p, c0) && c0 <= c1 <= c2 && Readable(cfg, s, p, c2)
    case GiveUp(p) => p in s.procs && s.procs[p].phase.Ticking? && s.procs[p].renewed.Some?
    case Commit(p, tries) =>
      p in s.procs && s.procs[p].phase.Ticking? && (tries ==> !Rests(s.procs[p].rest, s.procs[p].phase.now))
    case Apply(p) => p in s.procs && s.procs[p].phase.Committed?
    case FailTick(p) => p in s.procs && (s.procs[p].phase.Ticking? || s.procs[p].phase.Committed?)
    case Stop(p) => p in s.procs && !s.procs[p].phase.Down? && !s.procs[p].phase.Closing?
    case StopRelease(p) => p in s.procs && s.procs[p].phase.Closing?
    case Crash(p) => p in s.procs
    case Pass(t) =>
      s.t <= t && forall p | p in s.procs && Runs(s.procs[p]) :: t <= s.procs[p].deadline
  }

  predicate Runs(pr: Proc) { !pr.phase.Down? && !pr.phase.Closing? }

  function Step(cfg: Config, s: Sys, l: Label): Sys
    requires Enabled(cfg, s, l)
  {
    match l
    case Boot(p, c) =>
      s.(procs := s.procs[p := Proc(Idle, None, false, s.t - cfg.renew, s.t, s.t + cfg.delay, c, None)])
    case Run(p, c0, c1, c2, other) =>
      s.(procs := s.procs[p := Wake(cfg, s.procs[p], s.t, c0, c1, c2, other)])
    case GiveUp(p) =>
      var rest := Some(s.procs[p].phase.now + cfg.renew + REST_EXTRA);
      s.(procs := s.procs[p := s.procs[p].(rest := rest)])
    case Commit(p, tries) =>
      var pr := s.procs[p];
      var now := pr.phase.now;
      var keeps := tries && CanTake(s.row, p, now, cfg.lease);
      var row := CommitRow(s.row, p, now, cfg.lease, tries, pr.renewed.Some?);
      var gave := !keeps && pr.renewed.Some? && (pr.gaveAway || row != s.row);
      var rest := if tries then None else pr.rest;
      s.(row := row, procs := s.procs[p := pr.(phase := Committed(now, keeps), gaveAway := gave, rest := rest)])
    case Apply(p) =>
      var pr := s.procs[p];
      var open := if pr.phase.keeps then Some(pr.phase.now) else None;
      s.(procs := s.procs[p := pr.(phase := Idle, renewed := open, gaveAway := false, timer := s.t)])
    case FailTick(p) =>
      s.(procs := s.procs[p := s.procs[p].(phase := Idle, timer := s.t)])
    case Stop(p) =>
      s.(procs := s.procs[p := s.procs[p].(phase := Closing, renewed := None, gaveAway := false)])
    case StopRelease(p) =>
      s.(row := ReleaseLease(s.row, p), procs := s.procs[p := s.procs[p].(phase := Down)])
    case Crash(p) =>
      s.(procs := s.procs[p := s.procs[p].(phase := Down, renewed := None, gaveAway := false)])
    case Pass(t) =>
      s.(t := t)
  }

  /** No process runs yet; the row may be left over from an earlier deployment. */
  predicate Initial(cfg: Config, s: Sys) {
    forall p | p in s.procs ::
      var pr := s.procs[p];
      pr.phase.Down? && pr.renewed.None? && !pr.gaveAway && pr.lastRead <= s.t + cfg.skew
  }

  /** `ls` is a run from `s`. */
  predicate Legal(cfg: Config, s: Sys, ls: seq<Label>)
    decreases |ls|
  {
    ls == [] || (Enabled(cfg, s, ls[0]) && Legal(cfg, Step(cfg, s, ls[0]), ls[1..]))
  }

  function After(cfg: Config, s: Sys, ls: seq<Label>): Sys
    requires Legal(cfg, s, ls)
    decreases |ls|
  {
    if ls == [] then s else After(cfg, Step(cfg, s, ls[0]), ls[1..])
  }

  predicate Open(s: Sys, p: ProcId) {
    p in s.procs && s.procs[p].renewed.Some?
  }

  predicate GaveAway(s: Sys, p: ProcId) {
    p in s.procs && s.procs[p].gaveAway
  }

  /** Two open sockets, neither of whose leases its holder's own tick released. */
  ghost predicate Split(s: Sys) {
    exists p, q :: p != q && Open(s, p) && Open(s, q) && !GaveAway(s, p) && !GaveAway(s, q)
  }

  // ------------------------------------------------------------ the invariant

  predicate ProcInv(cfg: Config, t: real, row: Row, p: ProcId, pr: Proc) {
    && pr.lastRead <= t + cfg.skew
    && (Runs(pr) ==> t <= pr.deadline)
    && (!Runs(pr) ==> pr.renewed.None?)
    && (pr.gaveAway ==> pr.renewed.Some?)
    && (pr.renewed.Some? ==>
          && pr.renewed.value <= pr.lastRead
          && pr.deadline <= cfg.LastOpen(pr.renewed.value)
          && (!pr.gaveAway ==> OwnsSince(row, p, pr.renewed.value)))
    && (pr.phase.Ticking? || pr.phase.Committed? ==>
          && pr.phase.now <= pr.lastRead
          && pr.deadline <= cfg.LastOpen(pr.phase.now)
          && (pr.renewed.Some? ==> pr.renewed.value <= pr.phase.now))
    && (pr.phase.Committed? && pr.phase.keeps ==> OwnsSince(row, p, pr.phase.now))
  }

  /** The row is p's, renewed no earlier than `since`. */
  predicate OwnsSince(row: Row, p: ProcId, since: real) {
    row.Some? && row.value.holder == p && since <= row.value.stamp
  }

  predicate Inv(cfg: Config, s: Sys) {
    forall p | p in s.procs :: ProcInv(cfg, s.t, s.row, p, s.procs[p])
  }

  /** The heart of the protocol: a lease that some process still needs, because
      its socket is open or about to open, has not expired on any clock. */
  lemma NoEarlyTakeover(cfg: Config, t: real, row: Row, p: ProcId, since: real, deadline: real, q: ProcId, now: real)
    requires cfg.Sane() && cfg.MarginHolds()
    requires OwnsSince(row, p, since) && t <= deadline <= cfg.LastOpen(since)
    requires q != p && now <= t + cfg.skew
    ensures !CanTake(row, q, now, cfg.lease)
  {
  }

  lemma CommitKeepsInv(cfg: Config, s: Sys, q: ProcId, tries: bool)
    requires cfg.Sane() && cfg.MarginHolds() && Inv(cfg, s) && Enabled(cfg, s, Commit(q, tries))
    ensures Inv(cfg, Step(cfg, s, Commit(q, tries)))
  {
    var s' := Step(cfg, s, Commit(q, tries));
    assert ProcInv(cfg, s.t, s.row, q, s.procs[q]);
    forall p | p in s'.procs ensures ProcInv(cfg, s'.t, s'.row, p, s'.procs[p]) {
      var pr := s.procs[p];
      assert ProcInv(cfg, s.t, s.row, p, pr);
      if p != q {
        if pr.renewed.Some? && !pr.gaveAway {
          NoEarlyTakeover(cfg, s.t, s.row, p, pr.renewed.value, pr.deadline, q, s.procs[q].phase.now);
        }
        if pr.phase.Committed? && pr.phase.keeps {
          NoEarlyTakeover(cfg, s.t, s.row, p, pr.phase.now, pr.deadline, q, s.procs[q].phase.now);
        }
      }
    }
  }

  lemma WakeKeepsInv(cfg: Config, t: real, row: Row, p: ProcId, pr: Proc, c0: real, c1: real, c2: real,
      other: Option<real>)
    requires cfg.Sane() && ProcInv(cfg, t, row, p, pr) && pr.phase.Idle?
    requires pr.lastRead <= c0 <= c1 <= c2 && t - cfg.skew <= c0 && c2 <= t + cfg.skew
    ensures ProcInv(cfg, t, row, p, Wake(cfg, pr, t, c0, c1, c2, other))
  {
  }

  /** The steps of one process that leave the row alone. */
  lemma OwnStepKeepsInv(cfg: Config, s: Sys, l: Label)
    requires cfg.Sane() && cfg.MarginHolds() && Inv(cfg, s) && Enabled(cfg, s, l)
    requires l.Boot? || l.GiveUp? || l.Apply? || l.FailTick?
    ensures Inv(cfg, Step(cfg, s, l))
  {
    var s' := Step(cfg, s, l);
    forall p | p in s'.procs ensures ProcInv(cfg, s'.t, s'.row, p, s'.procs[p]) {
      assert ProcInv(cfg, s.t, s.row, p, s.procs[p]);
    }
  }

  lemma EndKeepsInv(cfg: Config, s: Sys, l: Label)
    requires cfg.Sane() && cfg.MarginHolds() && Inv(cfg, s) && Enabled(cfg, s, l)
    requires l.Stop? || l.StopRelease? || l.Crash?
    ensures Inv(cfg, Step(cfg, s, l))
  {
    var s' := Step(cfg, s, l);
    forall p | p in s'.procs ensures ProcInv(cfg, s'.t, s'.row, p, s'.procs[p]) {
      assert ProcInv(cfg, s.t, s.row, p, s.procs[p]);
    }
  }

  lemma StepKeepsInv(cfg: Config, s: Sys, l: Label)
    requires cfg.Sane() && cfg.MarginHolds() && Inv(cfg, s) && Enabled(cfg, s, l)
    ensures Inv(cfg, Step(cfg, s, l))
  {
    match l {
      case Commit(q, tries) => CommitKeepsInv(cfg, s, q, tries);
      case Run(q, c0, c1, c2, other) => WakeKeepsInv(cfg, s.t, s.row, q, s.procs[q], c0, c1, c2, other);
      case Pass(_) =>
      case Stop(_) => EndKeepsInv(cfg, s, l);
      case StopRelease(_) => EndKeepsInv(cfg, s, l);
      case Crash(_) => EndKeepsInv(cfg, s, l);
      case _ => OwnStepKeepsInv(cfg, s, l);
    }
  }

  lemma {:induction false} RunKeepsInv(cfg: Config, s: Sys, ls: seq<Label>)
    requires cfg.Sane() && cfg.MarginHolds() && Inv(cfg, s) && Legal(cfg, s, ls)
    ensures Inv(cfg, After(cfg, s, ls))
    decreases |ls|
  {
    if ls != [] {
      StepKeepsInv(cfg, s, ls[0]);
      RunKeepsInv(cfg, Step(cfg, s, ls[0]), ls[1..]);
    }
  }

  // ------------------------------------------------------------ main results

  /** In every run of any number of processes: of two open sockets, one belongs
      to a lease its holder's own tick gave back, and every open socket, given
      back or not, is closed by the time another clock can see its lease expire. */
  lemma OverlapsAreGiveAways(cfg: Config, s: Sys, ls: seq<Label>)
    requires cfg.Sane() && cfg.MarginHolds() && Initial(cfg, s) && Legal(cfg, s, ls)
    ensures !Split(After(cfg, s, ls))
    ensures forall p :: Open(After(cfg, s, ls), p) ==>
      After(cfg, s, ls).t + cfg.skew <= After(cfg, s, ls).procs[p].renewed.value + cfg.lease
  {
    RunKeepsInv(cfg, s, ls);
    var e := After(cfg, s, ls);
    assert forall p | p in e.procs :: ProcInv(cfg, e.t, e.row, p, e.procs[p]);
  }

  /** Every commit by the holder of an open socket tries to renew its lease. */
  predicate KeepsTrying(cfg: Config, s: Sys, ls: seq<Label>)
    requires Legal(cfg, s, ls)
    decreases |ls|
  {
    ls != [] ==>
      && (ls[0].Commit? && Open(s, ls[0].p) ==> ls[0].tries)
      && KeepsTrying(cfg, Step(cfg, s, ls[0]), ls[1..])
  }

  predicate NoneGivenAway(s: Sys) {
    forall p | p in s.procs :: !s.procs[p].gaveAway
  }

  lemma {:induction false} TryingGivesNothingAway(cfg: Config, s: Sys, ls: seq<Label>)
    requires cfg.Sane() && cfg.MarginHolds() && Inv(cfg, s) && NoneGivenAway(s)
    requires Legal(cfg, s, ls) && KeepsTrying(cfg, s, ls)
    ensures NoneGivenAway(After(cfg, s, ls))
    decreases |ls|
  {
    if ls != [] {
      StepKeepsInv(cfg, s, ls[0]);
      if ls[0].Commit? {
        assert ProcInv(cfg, s.t, s.row, ls[0].p, s.procs[ls[0].p]);
      }
      TryingGivesNothingAway(cfg, Step(cfg, s, ls[0]), ls[1..]);
    }
  }

  /** Expiry takeovers, failed ticks, crashes and shutdowns never let two
      sockets be open at once. */
  lemma StrictExclusion(cfg: Config, s: Sys, ls: seq<Label>, p: ProcId, q: ProcId)
    requires cfg.Sane() && cfg.MarginHolds() && Initial(cfg, s)
    requires Legal(cfg, s, ls) && KeepsTrying(cfg, s, ls)
    requires Open(After(cfg, s, ls), p) && Open(After(cfg, s, ls), q)
    ensures p == q
  {
    TryingGivesNothingAway(cfg, s, ls);
    OverlapsAreGiveAways(cfg, s, ls);
  }

  // --------------------------------------------------- how tight the result is

  lemma {:induction false} Concat(cfg: Config, s: Sys, ls: seq<Label>, ms: seq<Label>)
    requires Legal(cfg, s, ls) && Legal(cfg, After(cfg, s, ls), ms)
    ensures Legal(cfg, s, ls + ms) && After(cfg, s, ls + ms) == After(cfg, After(cfg, s, ls), ms)
    decreases |ls|
  {
    if ls == [] {
      assert ls + ms == ms;
    } else {
      Concat(cfg, Step(cfg, s, ls[0]), ls[1..], ms);
      assert (ls + ms)[1..] == ls[1..] + ms;
    }
  }

  lemma Then(cfg: Config, s: Sys, ls: seq<Label>, l: Label) returns (more: seq<Label>)
    requires Legal(cfg, s, ls) && Enabled(cfg, After(cfg, s, ls), l)
    ensures Legal(cfg, s, more) && After(cfg, s, more) == Step(cfg, After(cfg, s, ls), l)
  {
    assert ([l])[1..] == [];
    Concat(cfg, s, ls, [l]);
    more := ls + [l];
  }

  /** A process that starts at clock reading `c` and may take the lease opens its
      socket, all at one moment. */
  lemma OpensAtOnce(cfg: Config, s: Sys, ls: seq<Label>, p: ProcId, c: real) returns (more: seq<Label>)
    requires cfg.Sane() && FENCE_SLACK <= cfg.renew && Legal(cfg, s, ls)
    requires var e := After(cfg, s, ls);
      p in e.procs && e.procs[p].phase.Down? && e.procs[p].renewed.None? &&
      Readable(cfg, e, p, c) && CanTake(e.row, p, c, cfg.lease)
    ensures Legal(cfg, s, more)
    ensures var e := After(cfg, s, ls);
      After(cfg, s, more) == Sys(e.t, Some(Lease(p, c)),
        e.procs[p := Proc(Idle, Some(c), false, e.t, e.t, e.t + cfg.renew + cfg.delay, c, None)])
  {
    more := Then(cfg, s, ls, Boot(p, c));
    more := Then(cfg, s, more, Run(p, c, c, c, None));
    more := Then(cfg, s, more, Commit(p, true));
    more := Then(cfg, s, more, Apply(p));
  }

  /** One process has the socket open, the other is down, and a tick of the first has
      committed the release. */
  predicate HasReleased(cfg: Config, e: Sys) {
    && e.t == cfg.renew && e.row.None? && e.procs.Keys == {0, 1}
    && Open(e, 0) && GaveAway(e, 0) && e.t <= e.procs[0].deadline
    && e.procs[1] == Proc(Down, None, false, 0.0, 0.0, 0.0, 0.0, None)
  }

  lemma ReleasesFirst(cfg: Config) returns (s: Sys, ls: seq<Label>)
    requires cfg.Sane() && FENCE_SLACK <= cfg.renew
    ensures Initial(cfg, s) && Legal(cfg, s, ls) && HasReleased(cfg, After(cfg, s, ls))
  {
    var down := Proc(Down, None, false, 0.0, 0.0, 0.0, 0.0, None);
    s := Sys(0.0, None, map[0 := down, 1 := down]);
    var r := cfg.renew;
    ls := OpensAtOnce(cfg, s, [], 0, 0.0);
    ls := Then(cfg, s, ls, Run(0, 0.0, 0.0, 0.0, None));
    ls := Then(cfg, s, ls, Pass(r));
    ls := Then(cfg, s, ls, Run(0, r, r, r, None));
    ls := Then(cfg, s, ls, Commit(0, false));
  }

  /** Whatever the margins, a tick that gives its lease away can leave two
      sockets open: it commits the release before it closes the socket. */
  lemma GiveAwayOverlaps(cfg: Config) returns (s: Sys, ls: seq<Label>)
    requires cfg.Sane() && FENCE_SLACK <= cfg.renew
    ensures Initial(cfg, s) && Legal(cfg, s, ls)
    ensures Open(After(cfg, s, ls), 0) && Open(After(cfg, s, ls), 1) && GaveAway(After(cfg, s, ls), 0)
  {
    s, ls := ReleasesFirst(cfg);
    ls := OpensAtOnce(cfg, s, ls, 1, cfg.renew);
  }

  /** The holder of a socket renewed at clock reading 0 (true time `skew`) whose
      next tick fails: it sleeps until its next tick, or until its fence. */
  lemma FailsAndSleeps(cfg: Config, s: Sys, ls: seq<Label>, c: real) returns (more: seq<Label>)
    requires cfg.Sane() && Legal(cfg, s, ls) && cfg == Shipped(cfg.skew, cfg.delay) && 0.0 <= c <= 20.0
    requires var e := After(cfg, s, ls);
      e.t == c + cfg.skew && 0 in e.procs &&
      e.procs[0] == Proc(Idle, Some(0.0), false, e.t, e.t, e.procs[0].deadline, c, None) &&
      (forall p | p in e.procs && p != 0 :: e.procs[p].phase.Down?)
    ensures Legal(cfg, s, more)
    ensures var e := After(cfg, s, ls); var e' := After(cfg, s, more);
      e'.t == e.t + cfg.renew && e'.row == e.row && e'.procs.Keys == e.procs.Keys &&
      e'.procs[0] == Proc(Idle, Some(0.0), false, e'.t, e'.t, e'.procs[0].deadline, c + cfg.renew, None) &&
      (forall p | p in e.procs && p != 0 :: e'.procs[p] == e.procs[p])
  {
    var c' := c + cfg.renew;
    more := Then(cfg, s, ls, Run(0, c, c, c, None));
    more := Then(cfg, s, more, Pass(c' + cfg.skew));
    more := Then(cfg, s, more, Run(0, c', c', c', None));
    more := Then(cfg, s, more, FailTick(0));
  }

  /** One process has the socket open, the other is down, and on a clock that runs ahead
      the lease has expired. */
  predicate HoldsOn(cfg: Config, e: Sys) {
    && e.procs.Keys == {0, 1} && Open(e, 0) && !GaveAway(e, 0)
    && e.procs[1] == Proc(Down, None, false, 0.0, 0.0, 0.0, 0.0, None)
    && e.row == Some(Lease(0, 0.0)) && e.t + cfg.skew > cfg.lease
  }

  lemma HoldsTooLong(cfg: Config) returns (s: Sys, ls: seq<Label>)
    requires cfg == Shipped(cfg.skew, cfg.delay) && 0.0 <= cfg.skew && 0.0 <= cfg.delay && !cfg.MarginHolds()
    ensures Initial(cfg, s) && Legal(cfg, s, ls) && HoldsOn(cfg, After(cfg, s, ls))
  {
    var down := Proc(Down, None, false, 0.0, 0.0, 0.0, 0.0, None);
    s := Sys(cfg.skew, None, map[0 := down, 1 := down]);
    ls := OpensAtOnce(cfg, s, [], 0, 0.0);
    ls := FailsAndSleeps(cfg, s, ls, 0.0);
    ls := FailsAndSleeps(cfg, s, ls, 20.0);
    ls := Then(cfg, s, ls, Run(0, 40.0, 40.0, 40.0, None));
    ls := Then(cfg, s, ls, Pass(After(cfg, s, ls).procs[0].deadline));
  }

  /** With the shipped constants a larger delay or clock difference than the
      margin allows does let a lease expire under an open socket. */
  lemma MarginIsNeeded(cfg: Config) returns (s: Sys, ls: seq<Label>)
    requires cfg == Shipped(cfg.skew, cfg.delay) && 0.0 <= cfg.skew && 0.0 <= cfg.delay && !cfg.MarginHolds()
    ensures Initial(cfg, s) && Legal(cfg, s, ls) && Split(After(cfg, s, ls))
  {
    s, ls := HoldsTooLong(cfg);
    ls := OpensAtOnce(cfg, s, ls, 1, After(cfg, s, ls).t + cfg.skew);
    var e := After(cfg, s, ls);
    assert Open(e, 0) && Open(e, 1) && !GaveAway(e, 0) && !GaveAway(e, 1);
  }

  ghost predicate NeverSplits(cfg: Config) {
    forall s, ls | Initial(cfg, s) && Legal(cfg, s, ls) :: !Split(After(cfg, s, ls))
  }

  /** With the shipped lease of 60 and renewal of 20 seconds, no run splits a
      connector between two sockets if and only if lateness plus clock
      difference stay within half a renewal. */
  lemma ExclusionIffMargin(skew: real, delay: real)
    requires 0.0 <= skew && 0.0 <= delay
    ensures NeverSplits(Shipped(skew, delay)) <==> 2.0 * skew + FENCE_SLACK + delay <= 10.0
  {
    var cfg := Shipped(skew, delay);
    if cfg.MarginHolds() {
      forall s, ls | Initial(cfg, s) && Legal(cfg, s, ls) ensures !Split(After(cfg, s, ls)) {
        OverlapsAreGiveAways(cfg, s, ls);
      }
    } else {
      var s, ls := MarginIsNeeded(cfg);
    }
  }

  // ------------------------------------------------------------ giving up

  /** A running process began its last tick, or started, at most a renewal and the
      delay ago; and its rest is counted from a clock reading of its own. */
  predicate Paced(cfg: Config, t: real, pr: Proc) {
    Runs(pr) ==>
      && pr.started <= t <= pr.deadline <= pr.started + cfg.renew + cfg.delay
      && (pr.rest.Some? ==> pr.rest.value <= pr.lastRead + cfg.renew + REST_EXTRA)
      && (pr.phase.Ticking? ==> pr.phase.now == pr.lastRead)
      && (pr.phase.Ticking? || pr.phase.Committed? ==>
            pr.started - cfg.skew <= pr.phase.now <= pr.started + cfg.skew)
  }

  predicate AllPaced(cfg: Config, s: Sys) { forall p | p in s.procs :: Paced(cfg, s.t, s.procs[p]) }

  lemma WakeIsPaced(cfg: Config, t: real, pr: Proc, c0: real, c1: real, c2: real, other: Option<real>)
    requires cfg.Sane() && FENCE_SLACK <= cfg.renew && Paced(cfg, t, pr) && pr.phase.Idle?
    requires pr.lastRead <= c0 <= c1 <= c2 && t - cfg.skew <= c0 && c2 <= t + cfg.skew
    ensures Paced(cfg, t, Wake(cfg, pr, t, c0, c1, c2, other))
  {
  }

  lemma StepIsPaced(cfg: Config, s: Sys, l: Label)
    requires cfg.Sane() && FENCE_SLACK <= cfg.renew && AllPaced(cfg, s) && Enabled(cfg, s, l)
    ensures AllPaced(cfg, Step(cfg, s, l))
  {
    var s' := Step(cfg, s, l);
    if l.Run? {
      WakeIsPaced(cfg, s.t, s.procs[l.p], l.c0, l.c1, l.c2, l.other);
    }
    forall p | p in s'.procs ensures Paced(cfg, s'.t, s'.procs[p]) {
      assert Paced(cfg, s.t, s.procs[p]);
    }
  }

  lemma {:induction false} RunIsPaced(cfg: Config, s: Sys, ls: seq<Label>)
    requires cfg.Sane() && FENCE_SLACK <= cfg.renew && AllPaced(cfg, s) && Legal(cfg, s, ls)
    ensures AllPaced(cfg, After(cfg, s, ls)) && s.t <= After(cfg, s, ls).t
    decreases |ls|
  {
    if ls != [] {
      StepIsPaced(cfg, s, ls[0]);
      RunIsPaced(cfg, Step(cfg, s, ls[0]), ls[1..]);
    }
  }

  /** In this step the process neither tries for the lease nor starts anew. */
  predicate LeavesAlone(l: Label, p: ProcId) { l != Commit(p, true) && !(l.Boot? && l.p == p) }

  lemma StepKeepsRest(cfg: Config, s: Sys, l: Label, p: ProcId, until: real)
    requires cfg.Sane() && AllPaced(cfg, s) && Enabled(cfg, s, l) && LeavesAlone(l, p)
    requires p in s.procs && s.procs[p].rest.Some? && s.procs[p].rest.value >= until
    ensures var s' := Step(cfg, s, l); p in s'.procs && s'.procs[p].rest.Some? && s'.procs[p].rest.value >= until
  {
    assert Paced(cfg, s.t, s.procs[p]);
  }

  lemma {:induction false} RunKeepsRest(cfg: Config, s: Sys, ls: seq<Label>, p: ProcId, until: real)
    requires cfg.Sane() && FENCE_SLACK <= cfg.renew && AllPaced(cfg, s) && Legal(cfg, s, ls)
    requires forall l | l in ls :: LeavesAlone(l, p)
    requires p in s.procs && s.procs[p].rest.Some? && s.procs[p].rest.value >= until
    ensures var e := After(cfg, s, ls); p in e.procs && e.procs[p].rest.Some? && e.procs[p].rest.value >= until
    decreases |ls|
  {
    if ls != [] {
      assert ls[0] in ls && forall l | l in ls[1..] :: l in ls;
      StepKeepsRest(cfg, s, ls[0], p, until);
      StepIsPaced(cfg, s, ls[0]);
      RunKeepsRest(cfg, Step(cfg, s, ls[0]), ls[1..], p, until);
    }
  }

  /** In every run: when a process that gave its lease up, in a tick begun at `began` and
      committed by now, tries again, any process then running has begun a tick since the
      release, or has just started; the commit's delay, a tick's lateness and the clocks
      together must stay below the extra. */
  lemma RestLetsAnotherTry(cfg: Config, s: Sys, ls: seq<Label>, p: ProcId, q: ProcId, began: real)
    requires cfg.Sane() && FENCE_SLACK <= cfg.renew && AllPaced(cfg, s) && Legal(cfg, s, ls)
    requires p in s.procs && s.procs[p].rest.Some?
    requires s.procs[p].rest.value >= began - cfg.skew + cfg.renew + REST_EXTRA
    requires (s.t - began) + cfg.delay + 2.0 * cfg.skew < REST_EXTRA
    requires forall l | l in ls :: LeavesAlone(l, p)
    requires Enabled(cfg, After(cfg, s, ls), Commit(p, true))
    requires q in After(cfg, s, ls).procs && Runs(After(cfg, s, ls).procs[q])
    ensures s.t < After(cfg, s, ls).procs[q].started
  {
    var e := After(cfg, s, ls);
    RunIsPaced(cfg, s, ls);
    RunKeepsRest(cfg, s, ls, p, s.procs[p].rest.value);
    assert Paced(cfg, e.t, e.procs[p]) && Paced(cfg, e.t, e.procs[q]);
  }

  /** That is the rest a tick leaves that gives up, and it stays through its commit. */
  lemma GiveUpRests(cfg: Config, s: Sys, p: ProcId)
    requires cfg.Sane() && AllPaced(cfg, s) && Enabled(cfg, s, GiveUp(p))
    ensures var s' := Step(cfg, s, GiveUp(p));
      && s'.procs[p].rest.Some? && s'.procs[p].rest.value >= s'.procs[p].started - cfg.skew + cfg.renew + REST_EXTRA
      && !Enabled(cfg, s', Commit(p, true)) && Enabled(cfg, s', Commit(p, false))
      && Step(cfg, s', Commit(p, false)).procs[p].rest == s'.procs[p].rest
  {
    assert Paced(cfg, s.t, s.procs[p]);
  }

  /** A run of which `p` gives up in some tick and commits the release, and then neither
      tries nor starts anew. */
  function GivingUp(before: seq<Label>, p: ProcId, meanwhile: seq<Label>): seq<Label> {
    before + [GiveUp(p)] + meanwhile + [Commit(p, false)]
  }

  lemma GivenUpRests(cfg: Config, s: Sys, p: ProcId, meanwhile: seq<Label>)
    requires cfg.Sane() && FENCE_SLACK <= cfg.renew && AllPaced(cfg, s)
    requires Legal(cfg, s, [GiveUp(p)] + meanwhile + [Commit(p, false)])
    requires forall l | l in meanwhile :: LeavesAlone(l, p)
    ensures var e := After(cfg, s, [GiveUp(p)] + meanwhile + [Commit(p, false)]);
      && p in e.procs && e.procs[p].rest.Some?
      && e.procs[p].rest.value >= s.procs[p].started - cfg.skew + cfg.renew + REST_EXTRA
  {
    var ls := [GiveUp(p)] + meanwhile + [Commit(p, false)];
    var rest := meanwhile + [Commit(p, false)];
    assert ls[0] == GiveUp(p) && ls[1..] == rest;
    GiveUpRests(cfg, s, p);
    StepIsPaced(cfg, s, GiveUp(p));
    RunKeepsRest(cfg, Step(cfg, s, GiveUp(p)), rest, p, s.procs[p].started - cfg.skew + cfg.renew + REST_EXTRA);
  }

  /** So from the first start: when a process tries again that once gave its lease up,
      any process then running has begun a tick since the release was committed, or has
      just started. */
  lemma GivenUpTriesLater(
    cfg: Config, s: Sys, before: seq<Label>, p: ProcId, meanwhile: seq<Label>, later: seq<Label>, q: ProcId)
    requires cfg.Sane() && FENCE_SLACK <= cfg.renew && Initial(cfg, s)
    requires Legal(cfg, s, before) && Legal(cfg, s, GivingUp(before, p, meanwhile))
    requires Legal(cfg, s, GivingUp(before, p, meanwhile) + later)
    requires forall l | l in meanwhile + later :: LeavesAlone(l, p)
    requires Enabled(cfg, After(cfg, s, GivingUp(before, p, meanwhile) + later), Commit(p, true))
    requires p in After(cfg, s, before).procs
    requires (After(cfg, s, GivingUp(before, p, meanwhile)).t - After(cfg, s, before).procs[p].started)
             + cfg.delay + 2.0 * cfg.skew < REST_EXTRA
    ensures var e := After(cfg, s, GivingUp(before, p, meanwhile) + later);
      q in e.procs && Runs(e.procs[q]) ==> After(cfg, s, GivingUp(before, p, meanwhile)).t < e.procs[q].started
  {
    var givingUp := [GiveUp(p)] + meanwhile + [Commit(p, false)];
    assert GivingUp(before, p, meanwhile) == before + givingUp;
    SplitsAt(cfg, s, before, givingUp);
    SplitsAt(cfg, s, before + givingUp, later);
    var began := After(cfg, s, before);
    var released := After(cfg, began, givingUp);
    InitialIsPaced(cfg, s);
    RunIsPaced(cfg, s, before);
    RunIsPaced(cfg, began, givingUp);
    GivenUpRests(cfg, began, p, meanwhile);
    var e := After(cfg, released, later);
    if q in e.procs && Runs(e.procs[q]) {
      RestLetsAnotherTry(cfg, released, later, p, q, began.procs[p].started);
    }
  }

  lemma {:induction false} SplitsAt(cfg: Config, s: Sys, ls: seq<Label>, ms: seq<Label>)
    requires Legal(cfg, s, ls + ms)
    ensures Legal(cfg, s, ls) && Legal(cfg, After(cfg, s, ls), ms)
    ensures After(cfg, s, ls + ms) == After(cfg, After(cfg, s, ls), ms)
    decreases |ls|
  {
    if ls == [] {
      assert ls + ms == ms;
    } else {
      Uncons(ls, ms);
      SplitsAt(cfg, Step(cfg, s, ls[0]), ls[1..], ms);
    }
  }

  /** No process runs before the first start, so all are paced then. */
  lemma InitialIsPaced(cfg: Config, s: Sys)
    requires Initial(cfg, s)
    ensures AllPaced(cfg, s)
  {
  }
}
