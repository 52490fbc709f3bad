/** What the audit of configuration changes folds row changes into, as values,
    and the proof that the fold is the net change of the transaction. */
module AdminHistory {
  import opened Wrappers

  type Key = nat          // a row: its table and identity
  type Field = nat        // a column, numbered in name order
  type OrgId = nat
  type SavepointId = nat

  datatype Val = Null | Flag(b: bool) | Number(n: int) | Text(s: string) | Items(count: nat)

  datatype Operation = Created | Updated | Deleted

  type Changes = map<Field, (Val, Val)>

  /** The open transaction's record of one row. */
  datatype Rec = Rec(org: OrgId, operation: Operation, changes: Changes)

  /** The changes of a row, with those of a later change of it merged in. */
  function Merge(first: Changes, more: Changes): Changes {
    map f | f in first.Keys + more.Keys ::
      if f !in more then first[f] else (if f in first then first[f].0 else more[f].0, more[f].1)
  }

  function Emptied(changes: Changes): Changes {
    map f | f in changes :: (changes[f].0, Null)
  }

  function Fold(rows: map<Key, Rec>, key: Key, org: OrgId, operation: Operation, changes: Changes): map<Key, Rec> {
    if key !in rows then rows[key := Rec(org, operation, changes)]
    else if operation.Deleted? && rows[key].operation.Created? then rows - {key}
    else if operation.Deleted? then
      rows[key := rows[key].(operation := Deleted, changes := Merge(Emptied(rows[key].changes), changes))]
    else rows[key := rows[key].(changes := Merge(rows[key].changes, changes))]
  }

  // ---------------------------------------------------- the database's own story

  type Vals = map<Field, Val>

  /** A stored row; `inserted` when this transaction inserted it. */
  datatype DbRow = DbRow(vals: Vals, inserted: bool)

  /** The columns of each row's table, and the organisation each row belongs to. */
  datatype Schema = Schema(columns: Key -> set<Field>, org: Key -> OrgId)

  /** A change of the database as the hooks see it. A delete flushed by the
      session shows every column, a delete statement shows none. */
  datatype Change =
    | Create(k: Key, vals: Vals)
    | Update(k: Key, vals: Vals)
    | Delete(k: Key, flushed: bool)
    | Begin(id: SavepointId)
    | Release(id: SavepointId)
    | Rollback(id: SavepointId)

  /** The tables, and for each row which columns a change has touched so far and
      which of them a re-insert touched first. */
  datatype Tables = Tables(rows: map<Key, DbRow>, touched: map<Key, set<Field>>, lost: map<Key, set<Field>>)

  /** The database, the fold, and what both were when each savepoint began. */
  datatype World = World(
    tables: Tables,
    folded: map<Key, Rec>,
    saved: map<SavepointId, (Tables, map<Key, Rec>)>
  )

  function At<V>(m: map<Key, V>, k: Key): Option<V> {
    if k in m then Some(m[k]) else None
  }

  function SetAt(m: map<Key, set<Field>>, k: Key): set<Field> {
    if k in m then m[k] else {}
  }

  predicate Enabled(sc: Schema, w: World, c: Change) {
    match c
    case Create(k, vals) => k !in w.tables.rows && vals.Keys == sc.columns(k) && vals.Keys != {}
    case Update(k, vals) => k in w.tables.rows && vals.Keys <= w.tables.rows[k].vals.Keys && vals.Keys != {}
    case Delete(k, _) => k in w.tables.rows
    case Begin(id) => id !in w.saved
    case Release(id) => id in w.saved
    case Rollback(id) => id in w.saved
  }

  /** The before and after values the hooks hand to the fold. */
  function Seen(tables: Tables, c: Change): Changes
    requires c.Update? || c.Delete? ==> c.k in tables.rows
    requires c.Update? ==> c.vals.Keys <= tables.rows[c.k].vals.Keys
  {
    match c
    case Create(k, vals) => map f | f in vals :: (Null, vals[f])
    case Update(k, vals) => Diff(tables.rows[k], vals)
    case Delete(k, true) => map f | f in tables.rows[k].vals :: (tables.rows[k].vals[f], Null)
    case _ => map[]
  }

  function Execute(start: map<Key, Vals>, tables: Tables, c: Change): Tables
    requires c.Update? || c.Delete? ==> c.k in tables.rows
  {
    match c
    case Create(k, vals) =>
      var touched := SetAt(tables.touched, k);
      tables.(rows := tables.rows[k := DbRow(vals, true)],
              touched := tables.touched[k := touched + vals.Keys],
              lost :=
                if k in start then tables.lost[k := SetAt(tables.lost, k) + (vals.Keys - touched)] else tables.lost)
    case Update(k, vals) =>
      tables.(rows := tables.rows[k := tables.rows[k].(vals := tables.rows[k].vals + vals)],
              touched := tables.touched[k := SetAt(tables.touched, k) + vals.Keys])
    case Delete(k, flushed) =>
      tables.(rows := tables.rows - {k},
              touched := tables.touched[k := SetAt(tables.touched, k) +
                if flushed then tables.rows[k].vals.Keys else {}])
    case _ => tables
  }

  function OperationOf(c: Change): Operation {
    match c case Create(_, _) => Created case Delete(_, _) => Deleted case _ => Updated
  }

  function Step(sc: Schema, start: map<Key, Vals>, w: World, c: Change): World
    requires Enabled(sc, w, c)
  {
    match c
    case Begin(id) => w.(saved := w.saved[id := (w.tables, w.folded)])
    case Release(id) => w.(saved := w.saved - {id})
    case Rollback(id) => World(w.saved[id].0, w.saved[id].1, w.saved - {id})
    case _ =>
      w.(tables := Execute(start, w.tables, c),
         folded := Fold(w.folded, c.k, sc.org(c.k), OperationOf(c), Seen(w.tables, c)))
  }

  predicate Legal(sc: Schema, start: map<Key, Vals>, w: World, cs: seq<Change>)
    decreases |cs|
  {
    cs == [] || (Enabled(sc, w, cs[0]) && Legal(sc, start, Step(sc, start, w, cs[0]), cs[1..]))
  }

  function Run(sc: Schema, start: map<Key, Vals>, w: World, cs: seq<Change>): World
    requires Legal(sc, start, w, cs)
    decreases |cs|
  {
    if cs == [] then w else Run(sc, start, Step(sc, start, w, cs[0]), cs[1..])
  }

  function Opened(start: map<Key, Vals>): World {
    World(Tables(map k | k in start :: DbRow(start[k], false), map[], map[]), map[], map[])
  }

  // ------------------------------------------------------------ the statement

  function Stored(tables: Tables, k: Key): Option<Vals> {
    if k in tables.rows then Some(tables.rows[k].vals) else None
  }

  /** The record says what happened between two states of a row. */
  predicate Describes(before: Option<Vals>, after: Option<Vals>, r: Option<Rec>) {
    match (before, after)
    case (None, None) => r.None?
    case (None, Some(v)) =>
      r.Some? && r.value.operation.Created? && r.value.changes == (map f | f in v :: (Null, v[f]))
    case (Some(s), None) =>
      r.Some? && r.value.operation.Deleted? &&
      forall f | f in r.value.changes :: f in s && r.value.changes[f] == (s[f], Null)
    case (Some(s), Some(v)) =>
      && (r.None? ==> s == v)
      && (r.Some? ==>
            && r.value.operation.Updated?
            && s.Keys == v.Keys
            && (forall f | f in r.value.changes :: f in s && r.value.changes[f] == (s[f], v[f]))
            && (forall f | f in s && f !in r.value.changes :: s[f] == v[f]))
  }

  /** The row existed at the start, was deleted, and a new one took its place. */
  predicate Replaced(start: map<Key, Vals>, tables: Tables, k: Key) {
    k in start && k in tables.rows && tables.rows[k].inserted
  }

  /** A re-insert was the first change to touch a column that had a value. */
  predicate LostBefore(start: map<Key, Vals>, tables: Tables, k: Key) {
    k in start && exists f :: f in SetAt(tables.lost, k) && f in start[k] && start[k][f] != Null
  }

  // ------------------------------------------------------------ the invariant

  /** What the record of a row that existed at the start holds, when `touched`
      are the columns changed so far and `lost` those a re-insert changed first. */
  predicate Tracks(s: Vals, d: Option<DbRow>, touched: set<Field>, lost: set<Field>, rec: Rec) {
    && rec.changes.Keys == touched
    && (forall f | f in touched && f in s :: rec.changes[f].0 == if f in lost then Null else s[f])
    && (rec.operation.Updated? <==> d.Some? && !d.value.inserted)
    && !rec.operation.Created?
    && (d.None? ==> forall f | f in touched :: rec.changes[f].1 == Null)
    && (d.Some? ==> forall f | f in touched && f in d.value.vals :: rec.changes[f].1 == d.value.vals[f])
  }

  predicate RowInv(columns: set<Field>, s: Option<Vals>, d: Option<DbRow>, touched: set<Field>,
                   lost: set<Field>, r: Option<Rec>) {
    && (d.Some? ==> d.value.vals.Keys == columns)
    && if s.None? then
         if d.None? then r.None?
         else d.value.inserted && r.Some? && r.value.operation.Created? &&
              r.value.changes == (map f | f in d.value.vals :: (Null, d.value.vals[f]))
       else
         && s.value.Keys == columns
         && lost <= touched <= columns
         && (r.None? ==> d == Some(DbRow(s.value, false)) && touched == {})
         && (r.Some? ==> Tracks(s.value, d, touched, lost, r.value))
         && (d.Some? && d.value.inserted ==> touched == columns)
         && (d.Some? && !d.value.inserted ==>
               lost == {} && forall f | f in columns && f !in touched :: d.value.vals[f] == s.value[f])
  }

  /** One row's part of the fold. */
  function FoldRec(r: Option<Rec>, org: OrgId, operation: Operation, changes: Changes): Option<Rec> {
    if r.None? then Some(Rec(org, operation, changes))
    else if operation.Deleted? && r.value.operation.Created? then None
    else if operation.Deleted? then
      Some(r.value.(operation := Deleted, changes := Merge(Emptied(r.value.changes), changes)))
    else Some(r.value.(changes := Merge(r.value.changes, changes)))
  }

  lemma CreateKeepsTrack(s: Vals, touched: set<Field>, lost: set<Field>, rec: Rec, vals: Vals)
    requires Tracks(s, None, touched, lost, rec) && vals.Keys == s.Keys && lost <= touched <= s.Keys
    ensures Tracks(s, Some(DbRow(vals, true)), touched + s.Keys, lost + (s.Keys - touched),
                   rec.(changes := Merge(rec.changes, map f | f in vals :: (Null, vals[f]))))
  {
  }

  lemma CreateKeepsRow(columns: set<Field>, s: Option<Vals>, touched: set<Field>, lost: set<Field>,
                       r: Option<Rec>, org: OrgId, vals: Vals)
    requires RowInv(columns, s, None, touched, lost, r) && vals.Keys == columns
    ensures RowInv(columns, s, Some(DbRow(vals, true)), touched + columns,
                   lost + if s.Some? then columns - touched else {},
                   FoldRec(r, org, Created, map f | f in vals :: (Null, vals[f])))
  {
    if s.Some? && r.Some? {
      CreateKeepsTrack(s.value, touched, lost, r.value, vals);
    }
  }

  function Diff(row: DbRow, vals: Vals): Changes
    requires vals.Keys <= row.vals.Keys
  {
    map f | f in vals :: (row.vals[f], vals[f])
  }

  lemma UpdateKeepsTrack(s: Vals, row: DbRow, touched: set<Field>, lost: set<Field>, rec: Rec, vals: Vals)
    requires s.Keys == row.vals.Keys && vals.Keys <= s.Keys && lost <= touched <= s.Keys
    requires Tracks(s, Some(row), touched, lost, rec)
    requires forall f | f in s && f !in touched :: row.vals[f] == s[f]
    ensures Tracks(s, Some(row.(vals := row.vals + vals)), touched + vals.Keys, lost,
                   rec.(changes := Merge(rec.changes, Diff(row, vals))))
  {
  }

  lemma UpdateKeepsRow(columns: set<Field>, s: Option<Vals>, row: DbRow, touched: set<Field>, lost: set<Field>,
                       r: Option<Rec>, org: OrgId, vals: Vals)
    requires RowInv(columns, s, Some(row), touched, lost, r) && vals.Keys <= columns
    ensures RowInv(columns, s, Some(row.(vals := row.vals + vals)), touched + vals.Keys, lost,
                   FoldRec(r, org, Updated, Diff(row, vals)))
  {
    if s.Some? && r.Some? {
      UpdateKeepsTrack(s.value, row, touched, lost, r.value, vals);
    }
  }

  lemma DeleteKeepsRow(columns: set<Field>, s: Option<Vals>, row: DbRow, touched: set<Field>, lost: set<Field>,
                       r: Option<Rec>, org: OrgId, flushed: bool)
    requires RowInv(columns, s, Some(row), touched, lost, r)
    ensures RowInv(columns, s, None, touched + (if flushed then columns else {}), lost,
                   FoldRec(r, org, Deleted, if flushed then map f | f in row.vals :: (row.vals[f], Null) else map[]))
  {
  }

  predicate KeyInv(sc: Schema, start: map<Key, Vals>, tables: Tables, folded: map<Key, Rec>, k: Key) {
    RowInv(sc.columns(k), At(start, k), At(tables.rows, k), SetAt(tables.touched, k),
      SetAt(tables.lost, k), At(folded, k))
  }

  ghost predicate Inv(sc: Schema, start: map<Key, Vals>, w: World) {
    && (forall k :: KeyInv(sc, start, w.tables, w.folded, k))
    && (forall id, k | id in w.saved :: KeyInv(sc, start, w.saved[id].0, w.saved[id].1, k))
  }

  lemma FoldAt(rows: map<Key, Rec>, key: Key, org: OrgId, operation: Operation, changes: Changes, k: Key)
    ensures At(Fold(rows, key, org, operation, changes), k) ==
            if k == key then FoldRec(At(rows, k), org, operation, changes) else At(rows, k)
  {
  }

  lemma ChangeKeepsKey(sc: Schema, start: map<Key, Vals>, w: World, c: Change)
    requires Enabled(sc, w, c) && (c.Create? || c.Update? || c.Delete?) && KeyInv(sc, start, w.tables, w.folded, c.k)
    ensures var w' := Step(sc, start, w, c); KeyInv(sc, start, w'.tables, w'.folded, c.k)
  {
    var k := c.k;
    var touched, lost, r := SetAt(w.tables.touched, k), SetAt(w.tables.lost, k), At(w.folded, k);
    FoldAt(w.folded, k, sc.org(k), OperationOf(c), Seen(w.tables, c), k);
    match c {
      case Create(_, vals) => CreateKeepsRow(sc.columns(k), At(start, k), touched, lost, r, sc.org(k), vals);
      case Update(_, vals) =>
        UpdateKeepsRow(sc.columns(k), At(start, k), w.tables.rows[k], touched, lost, r, sc.org(k), vals);
      case Delete(_, flushed) =>
        DeleteKeepsRow(sc.columns(k), At(start, k), w.tables.rows[k], touched, lost, r, sc.org(k), flushed);
    }
  }

  lemma StepKeepsInv(sc: Schema, start: map<Key, Vals>, w: World, c: Change)
    requires Inv(sc, start, w) && Enabled(sc, w, c)
    ensures Inv(sc, start, Step(sc, start, w, c))
  {
    var w' := Step(sc, start, w, c);
    if c.Create? || c.Update? || c.Delete? {
      forall k ensures KeyInv(sc, start, w'.tables, w'.folded, k) {
        assert KeyInv(sc, start, w.tables, w.folded, k);
        if k == c.k {
          ChangeKeepsKey(sc, start, w, c);
        } else {
          FoldAt(w.folded, c.k, sc.org(c.k), OperationOf(c), Seen(w.tables, c), k);
        }
      }
    }
  }

  lemma {:induction false} RunKeepsInv(sc: Schema, start: map<Key, Vals>, w: World, cs: seq<Change>)
    requires Inv(sc, start, w) && Legal(sc, start, w, cs)
    ensures Inv(sc, start, Run(sc, start, w, cs))
    decreases |cs|
  {
    if cs != [] {
      StepKeepsInv(sc, start, w, cs[0]);
      RunKeepsInv(sc, start, Step(sc, start, w, cs[0]), cs[1..]);
    }
  }

  /** For every history of inserts, updates and deletes with savepoints released
      or rolled back, the fold says of each row exactly what changed between the
      start and now, if and only if the row was not replaced by a new one and no
      re-insert came before its old values were seen. */
  lemma FoldIsNetChange(sc: Schema, start: map<Key, Vals>, cs: seq<Change>, k: Key)
    requires forall k | k in start :: start[k].Keys == sc.columns(k)
    requires Legal(sc, start, Opened(start), cs)
    ensures var w := Run(sc, start, Opened(start), cs);
      Describes(At(start, k), Stored(w.tables, k), At(w.folded, k))
      <==> !Replaced(start, w.tables, k) && !LostBefore(start, w.tables, k)
  {
    RunKeepsInv(sc, start, Opened(start), cs);
    var w := Run(sc, start, Opened(start), cs);
    assert KeyInv(sc, start, w.tables, w.folded, k);
  }

  lemma First(sc: Schema, start: map<Key, Vals>, w: World, c: Change, cs: seq<Change>) returns (more: seq<Change>)
    requires Enabled(sc, w, c) && Legal(sc, start, Step(sc, start, w, c), cs)
    ensures Legal(sc, start, w, more) && Run(sc, start, w, more) == Run(sc, start, Step(sc, start, w, c), cs)
  {
    more := [c] + cs;
    assert more[1..] == cs;
  }

  /** The two exceptions are real: a replaced row is reported as deleted, and a
      delete statement, a re-insert and another delete lose the old value. */
  lemma ReplacedReadsAsDeleted(sc: Schema, start: map<Key, Vals>, k: Key) returns (cs: seq<Change>)
    requires k in start && start[k].Keys == sc.columns(k) != {}
    ensures Legal(sc, start, Opened(start), cs)
    ensures var w := Run(sc, start, Opened(start), cs);
      k in w.tables.rows && k in w.folded && w.folded[k].operation.Deleted?
  {
    var w := Opened(start);
    var c1, c2 := Delete(k, true), Create(k, start[k]);
    var w1 := Step(sc, start, w, c1);
    cs := First(sc, start, w1, c2, []);
    cs := First(sc, start, w, c1, cs);
  }

  lemma EarlyReinsertLosesValue(sc: Schema, start: map<Key, Vals>, k: Key) returns (cs: seq<Change>)
    requires k in start && start[k].Keys == sc.columns(k) != {}
    ensures Legal(sc, start, Opened(start), cs)
    ensures var w := Run(sc, start, Opened(start), cs);
      && k !in w.tables.rows && k in w.folded
      && forall f | f in start[k] :: f in w.folded[k].changes && w.folded[k].changes[f] == (Null, Null)
  {
    var w := Opened(start);
    var c1, c2, c3 := Delete(k, false), Create(k, start[k]), Delete(k, true);
    var w1 := Step(sc, start, w, c1);
    var w2 := Step(sc, start, w1, c2);
    cs := First(sc, start, w2, c3, []);
    cs := First(sc, start, w1, c2, cs);
    cs := First(sc, start, w, c1, cs);
  }

  // ------------------------------------------------------------ entries

  /** What an entry shows of a value: never the text or number itself, unless the
      column is one of the enum-like ones. */
  datatype Shown = Nothing | Boolean(b: bool) | Plain(v: Val) | Count(n: nat) | IsSet

  function Summary(v: Val, readable: bool): Shown {
    match v
    case Null => Nothing
    case Flag(b) => Boolean(b)
    case Items(n) => Count(n)
    case _ => if readable then Plain(v) else IsSet
  }

  datatype Side = Existing | Absent | Columns(shown: map<Field, Shown>)

  datatype Entry = Entry(org: OrgId, key: Key, operation: Operation, fields: seq<Field>, before: Side, after: Side)

  const MOST_FIELDS := 12

  predicate IsLeast(f: Field, fields: set<Field>) {
    f in fields && forall g | g in fields :: f <= g
  }

  function Least(fields: set<Field>): (f: Field)
    requires fields != {}
    ensures IsLeast(f, fields)
  {
    LeastExists(fields);
    var f :| IsLeast(f, fields);
    f
  }

  lemma {:induction false} LeastExists(fields: set<Field>)
    requires fields != {}
    ensures exists f :: IsLeast(f, fields)
  {
    var f :| f in fields;
    if fields == {f} {
      assert IsLeast(f, fields);
    } else {
      LeastExists(fields - {f});
      var m :| IsLeast(m, fields - {f});
      assert forall g | g in fields :: g == f || g in fields - {f};
      assert IsLeast(if f <= m then f else m, fields);
    }
  }

  predicate Ascending(s: seq<Field>) { forall i, j | 0 <= i < j < |s| :: s[i] < s[j] }

  lemma LeastFirst(f: Field, s: seq<Field>, fields: set<Field>)
    requires IsLeast(f, fields) && Ascending(s) && forall g :: g in s <==> g in fields - {f}
    ensures Ascending([f] + s) && forall g :: g in [f] + s <==> g in fields
  {
    var all := [f] + s;
    forall i, j | 0 <= i < j < |all| ensures all[i] < all[j] {
      assert all[j] == s[j - 1] && s[j - 1] in s;
      assert i > 0 ==> all[i] == s[i - 1];
    }
  }

  /** The fields in name order. */
  function Sorted(fields: set<Field>): (s: seq<Field>)
    ensures forall f :: f in s <==> f in fields
    ensures Ascending(s)
    ensures |s| == |fields|
  {
    if fields == {} then []
    else
      var f := Least(fields);
      LeastFirst(f, Sorted(fields - {f}), fields);
      [f] + Sorted(fields - {f})
  }

  function Shortened(s: seq<Field>): seq<Field> {
    if |s| <= MOST_FIELDS then s else s[..MOST_FIELDS]
  }

  /** The changes an entry reports: of an update, those that changed something. */
  function Reported(rec: Rec): Changes {
    if rec.operation.Updated? then map f | f in rec.changes && rec.changes[f].0 != rec.changes[f].1 :: rec.changes[f]
    else rec.changes
  }

  function ShownBefore(changes: Changes, fields: set<Field>, readable: set<Field>): map<Field, Shown> {
    map f | f in fields && f in changes :: Summary(changes[f].0, f in readable)
  }

  function ShownAfter(changes: Changes, fields: set<Field>, readable: set<Field>): map<Field, Shown> {
    map f | f in fields && f in changes :: Summary(changes[f].1, f in readable)
  }

  /** The entry that lists some fields of the changes. */
  function EntryListing(key: Key, org: OrgId, operation: Operation, changes: Changes, fields: seq<Field>,
                        readable: set<Field>): Entry {
    var listed := set f | f in fields;
    if operation.Deleted? && fields == [] then Entry(org, key, operation, fields, Existing, Absent)
    else
      Entry(org, key, operation, fields,
            Columns(ShownBefore(changes, listed, readable)), Columns(ShownAfter(changes, listed, readable)))
  }

  function RowEntry(key: Key, rec: Rec, readable: set<Field>): Option<Entry> {
    var changes := Reported(rec);
    if rec.operation.Updated? && changes.Keys == {} then None
    else Some(EntryListing(key, rec.org, rec.operation, changes, Shortened(Sorted(changes.Keys)), readable))
  }

  /** An entry lists a set's least fields, in order, and no more than it may. */
  predicate Lists(l: seq<Field>, fields: set<Field>) {
    && |l| <= MOST_FIELDS
    && (forall i, j | 0 <= i < j < |l| :: l[i] < l[j])
    && (forall f | f in l :: f in fields)
    && (|l| < MOST_FIELDS ==> forall f | f in fields :: f in l)
    && (forall f, g | f in fields && f !in l && g in l :: g < f)
  }

  lemma PrefixHas(all: seq<Field>, l: seq<Field>)
    requires l <= all
    ensures forall i | 0 <= i < |l| :: all[i] in l
  {
    forall i | 0 <= i < |l| ensures all[i] in l {
      assert l[i] == all[i];
    }
  }

  lemma FirstAreLeast(all: seq<Field>, l: seq<Field>, f: Field, g: Field)
    requires Ascending(all) && l <= all
    requires f in all && f !in l && g in l
    ensures g < f
  {
    var i :| 0 <= i < |all| && all[i] == f;
    var j :| 0 <= j < |l| && l[j] == g;
    PrefixHas(all, l);
    assert all[j] == g;
  }

  lemma ShortenedOf(all: seq<Field>, fields: set<Field>)
    requires (forall f :: f in all <==> f in fields) && Ascending(all)
    ensures Lists(Shortened(all), fields)
  {
    var l := Shortened(all);
    forall f, g | f in fields && f !in l && g in l ensures g < f {
      FirstAreLeast(all, l, f, g);
    }
  }

  lemma ReportedOfUpdate(s: Vals, v: Vals, rec: Rec)
    requires Describes(Some(s), Some(v), Some(rec))
    ensures forall f :: f in Reported(rec) <==> f in s && s[f] != v[f]
  {
  }

  lemma UpdateEnteredIff(key: Key, readable: set<Field>, s: Vals, v: Vals, rec: Rec)
    requires Describes(Some(s), Some(v), Some(rec))
    ensures RowEntry(key, rec, readable).Some? <==> s != v
  {
    ReportedOfUpdate(s, v, rec);
    if Reported(rec).Keys == {} {
      assert forall f | f in s :: s[f] == v[f];
      assert s == v;
    } else {
      var f :| f in Reported(rec);
    }
  }

  lemma EntryHasOperation(key: Key, readable: set<Field>, rec: Rec)
    ensures !rec.operation.Updated? ==> RowEntry(key, rec, readable).Some?
    ensures RowEntry(key, rec, readable).Some? ==> RowEntry(key, rec, readable).value.operation == rec.operation
  {
  }

  /** A row gets an entry exactly when the transaction changed it, of what it did. */
  lemma EntryIffChanged(key: Key, readable: set<Field>, before: Option<Vals>, after: Option<Vals>, r: Option<Rec>)
    requires Describes(before, after, r)
    ensures (r.Some? && RowEntry(key, r.value, readable).Some?) <==> before != after
    ensures before != after ==>
      RowEntry(key, r.value, readable).value.operation ==
      if before.None? then Created else if after.None? then Deleted else Updated
  {
    if r.Some? {
      EntryHasOperation(key, readable, r.value);
      if before.Some? && after.Some? {
        UpdateEnteredIff(key, readable, before.value, after.value, r.value);
      }
    }
  }

  /** In every history, a row gets an entry if and only if its state differs from the one
      at the start, unless it was replaced or its old values were lost. */
  lemma EntryIffNetChange(sc: Schema, start: map<Key, Vals>, cs: seq<Change>, k: Key, readable: set<Field>)
    requires forall k | k in start :: start[k].Keys == sc.columns(k)
    requires Legal(sc, start, Opened(start), cs)
    ensures var w := Run(sc, start, Opened(start), cs);
      !Replaced(start, w.tables, k) && !LostBefore(start, w.tables, k) ==>
        ((k in w.folded && RowEntry(k, w.folded[k], readable).Some?) <==> At(start, k) != Stored(w.tables, k))
  {
    var w := Run(sc, start, Opened(start), cs);
    FoldIsNetChange(sc, start, cs, k);
    if !Replaced(start, w.tables, k) && !LostBefore(start, w.tables, k) {
      EntryIffChanged(k, readable, At(start, k), Stored(w.tables, k), At(w.folded, k));
    }
  }

  /** The entry of an update names the columns that changed: the first twelve of them in
      order, or all when they are fewer. */
  lemma EntryNamesChangedColumns(key: Key, readable: set<Field>, s: Vals, v: Vals, rec: Rec)
    requires Describes(Some(s), Some(v), Some(rec)) && s != v
    ensures RowEntry(key, rec, readable).Some?
    ensures Lists(RowEntry(key, rec, readable).value.fields, Changed(s, v))
  {
    EntryIffChanged(key, readable, Some(s), Some(v), Some(rec));
    ReportedIsChanged(s, v, rec);
    FieldsOfUpdate(key, rec, readable, Changed(s, v));
    ShortenedOf(Sorted(Changed(s, v)), Changed(s, v));
  }

  function Changed(s: Vals, v: Vals): set<Field>
    requires s.Keys == v.Keys
  {
    set f | f in s && s[f] != v[f]
  }

  lemma ReportedIsChanged(s: Vals, v: Vals, rec: Rec)
    requires Describes(Some(s), Some(v), Some(rec))
    ensures Reported(rec).Keys == Changed(s, v)
  {
    ReportedOfUpdate(s, v, rec);
  }

  lemma FieldsOfUpdate(key: Key, rec: Rec, readable: set<Field>, fields: set<Field>)
    requires rec.operation.Updated? && fields == Reported(rec).Keys && RowEntry(key, rec, readable).Some?
    ensures RowEntry(key, rec, readable).value.fields == Shortened(Sorted(fields))
  {
  }

  /** Two values an entry must not tell apart. */
  predicate Alike(v: Val, w: Val, readable: bool) {
    v == w || (!readable && (v.Text? || v.Number?) && (w.Text? || w.Number?))
  }

  /** Records that differ only in texts and numbers of columns that are not
      readable give the same entry. */
  lemma SecretsDoNotShow(key: Key, readable: set<Field>, r1: Rec, r2: Rec)
    requires r1.org == r2.org && r1.operation == r2.operation
    requires Reported(r1).Keys == Reported(r2).Keys
    requires forall f | f in Reported(r1) ::
      && Alike(Reported(r1)[f].0, Reported(r2)[f].0, f in readable)
      && Alike(Reported(r1)[f].1, Reported(r2)[f].1, f in readable)
    ensures RowEntry(key, r1, readable) == RowEntry(key, r2, readable)
  {
    SameListing(key, r1.org, r1.operation, Reported(r1), Reported(r2), Shortened(Sorted(Reported(r1).Keys)), readable);
  }

  lemma SameListing(
    key: Key, org: OrgId, operation: Operation, c1: Changes, c2: Changes, fields: seq<Field>, readable: set<Field>)
    requires c1.Keys == c2.Keys
    requires forall f | f in c1 ::
      Alike(c1[f].0, c2[f].0, f in readable) && Alike(c1[f].1, c2[f].1, f in readable)
    ensures EntryListing(key, org, operation, c1, fields, readable) ==
      EntryListing(key, org, operation, c2, fields, readable)
  {
    SameBefore(c1, c2, (set f | f in fields), readable);
    SameAfter(c1, c2, (set f | f in fields), readable);
  }

  lemma SameBefore(c1: Changes, c2: Changes, fields: set<Field>, readable: set<Field>)
    requires c1.Keys == c2.Keys && forall f | f in c1 :: Alike(c1[f].0, c2[f].0, f in readable)
    ensures ShownBefore(c1, fields, readable) == ShownBefore(c2, fields, readable)
  {
  }

  lemma SameAfter(c1: Changes, c2: Changes, fields: set<Field>, readable: set<Field>)
    requires c1.Keys == c2.Keys && forall f | f in c1 :: Alike(c1[f].1, c2[f].1, f in readable)
    ensures ShownAfter(c1, fields, readable) == ShownAfter(c2, fields, readable)
  {
  }
}
