/** The audit context of one request: row records changed in place, copied when
    a savepoint begins, put back when it rolls back, and turned into entries when
    the transaction commits. */
module AdminAudit {
  import opened Wrappers
  import opened AdminHistory

  lemma MergeOneMore(first: Changes, done: Changes, f: Field, pair: (Val, Val))
    requires f !in done
    ensures Merge(first, done[f := pair]) ==
      Merge(first, done)[f := (if f in first then first[f].0 else pair.0, pair.1)]
    ensures f in Merge(first, done) <==> f in first
    ensures f in first ==> Merge(first, done)[f] == first[f]
  {
  }

  class RowRecord {
    const org: OrgId
    var operation: Operation
    var changes: Changes

    constructor (org: OrgId, operation: Operation, changes: Changes)
      ensures Value() == Rec(org, operation, changes)
    {
      this.org, this.operation, this.changes := org, operation, changes;
    }

    function Value(): Rec
      reads this
    {
      Rec(org, operation, changes)
    }

    /** First value before, last value after, column by column. */
    method MergeIn(more: Changes)
      modifies `changes
      ensures changes == Merge(old(changes), more)
    {
      var todo := more.Keys;
      ghost var done: Changes := map[];
      while todo != {}
        invariant todo <= more.Keys && done.Keys == more.Keys - todo
        invariant forall f | f in done :: done[f] == more[f]
        invariant changes == Merge(old(changes), done)
      {
        var f :| f in todo;
        todo := todo - {f};
        MergeOneMore(old(changes), done, f, more[f]);
        done := done[f := more[f]];
        var before := if f in changes then changes[f].0 else more[f].0;
        changes := changes[f := (before, more[f].1)];
      }
      assert done == more;
    }

    /** A later change of a row that stays recorded. */
    method Fold(operation': Operation, more: Changes)
      requires !(operation'.Deleted? && operation.Created?)
      modifies this
      ensures Some(Value()) == FoldRec(Some(old(Value())), org, operation', more)
    {
      if operation'.Deleted? {
        operation := Deleted;
        changes := Emptied(changes);
      }
      MergeIn(more);
    }
  }

  type Rows = map<Key, RowRecord>

  function Values(rows: Rows): map<Key, Rec>
    reads rows.Values
  {
    map k | k in rows :: rows[k].Value()
  }

  ghost predicate Injective(rows: Rows) {
    forall k, l | k in rows && l in rows && k != l :: rows[k] != rows[l]
  }

  twostate lemma SameValues(rows: Rows)
    requires forall k | k in rows :: old(allocated(rows[k])) && unchanged(rows[k])
    ensures Values(rows) == old(Values(rows))
  {
  }

  method Copied(rows: Rows) returns (copy: Rows)
    ensures Values(copy) == Values(rows)
    ensures Injective(copy) && forall k | k in copy :: fresh(copy[k])
  {
    copy := map[];
    var todo := rows.Keys;
    while todo != {}
      invariant todo <= rows.Keys && copy.Keys == rows.Keys - todo
      invariant forall k | k in copy :: fresh(copy[k]) && copy[k].Value() == rows[k].Value()
      invariant Injective(copy)
      invariant forall k | k in rows :: rows[k].Value() == old(rows[k].Value())
    {
      var k :| k in todo;
      todo := todo - {k};
      var r := new RowRecord(rows[k].org, rows[k].operation, rows[k].changes);
      copy := copy[k := r];
    }
  }

  ghost function Collect(keys: set<Key>, entryOf: Key -> Option<Entry>): set<Entry> {
    set k | k in keys && entryOf(k).Some? :: entryOf(k).value
  }

  lemma CollectOneMore(keys: set<Key>, k: Key, entryOf: Key -> Option<Entry>)
    ensures Collect(keys + {k}, entryOf) ==
            Collect(keys, entryOf) + if entryOf(k).Some? then {entryOf(k).value} else {}
  {
  }

  ghost function EntryOf(values: map<Key, Rec>, readable: set<Field>): Key -> Option<Entry> {
    k => if k in values then RowEntry(k, values[k], readable) else None
  }

  /** The entries of a transaction's records. */
  ghost function EntriesOf(values: map<Key, Rec>, readable: set<Field>): set<Entry> {
    Collect(values.Keys, EntryOf(values, readable))
  }

  /** An entry the commit adds: of a row, or of a request no row accounts for. */
  datatype Added = OfRow(entry: Entry) | OfRoute(org: OrgId)

  ghost function AsAdded(entry: Option<Entry>): seq<Added> {
    if entry.Some? then [OfRow(entry.value)] else []
  }

  /** `news` are the entries of `keys`. */
  ghost predicate Entered(news: seq<Added>, keys: set<Key>, entryOf: Key -> Option<Entry>) {
    forall a :: a in news <==> a.OfRow? && a.entry in Collect(keys, entryOf)
  }

  lemma EnteredOneMore(news: seq<Added>, keys: set<Key>, k: Key, entryOf: Key -> Option<Entry>)
    requires Entered(news, keys, entryOf)
    ensures Entered(news + AsAdded(entryOf(k)), keys + {k}, entryOf)
  {
    CollectOneMore(keys, k, entryOf);
  }

  /** `news` are the rows' entries, and one of the request when there is a `route`. */
  ghost predicate NewsAre(news: seq<Added>, entered: set<Entry>, route: Option<OrgId>) {
    forall a :: a in news <==> if a.OfRow? then a.entry in entered else route == Some(a.org)
  }

  lemma NoneEntered(news: seq<Added>, entered: set<Entry>)
    requires forall a :: a in news <==> a.OfRow? && a.entry in entered
    ensures news == [] <==> entered == {}
    ensures NewsAre(news, entered, None)
  {
    if news != [] {
      assert news[0] in news;
    }
    if entered != {} {
      var e :| e in entered;
      assert OfRow(e) in news;
    }
  }

  lemma AllEntered(news: seq<Added>, values: map<Key, Rec>, readable: set<Field>)
    requires Entered(news, values.Keys, EntryOf(values, readable))
    ensures NewsAre(news, EntriesOf(values, readable), None)
    ensures news == [] <==> EntriesOf(values, readable) == {}
  {
    NoneEntered(news, EntriesOf(values, readable));
  }

  lemma NewsWithRoute(news: seq<Added>, entered: set<Entry>, more: seq<Added>, route: Option<OrgId>)
    requires NewsAre(news, entered, None) && more == if route.Some? then [OfRoute(route.value)] else []
    ensures NewsAre(news + more, entered, route)
  {
  }

  class AuditContext {
    const org: Option<OrgId>
    const configMutation: bool
    const readable: set<Field>
    var rows: Rows
    var writes: bool
    var pending: nat
    var entries: nat
    var savepoints: map<SavepointId, (Rows, bool)>
    var added: seq<Added>

    constructor (org: Option<OrgId>, configMutation: bool, readable: set<Field>)
      ensures Separate({}) && Values(rows) == map[] && savepoints == map[] && !writes && pending == entries == 0
    {
      this.org, this.configMutation, this.readable := org, configMutation, readable;
      rows, writes, pending, entries, savepoints, added := map[], false, 0, 0, map[], [];
    }

    /** No record is shared: between two rows, between the live rows and a
        savepoint's copy (but for the savepoints in `but`), or between two copies. */
    ghost predicate Separate(but: set<SavepointId>)
      reads this
    {
      && Injective(rows)
      && (forall id | id in savepoints :: Injective(savepoints[id].0))
      && (forall id | id in savepoints && id !in but :: rows.Values !! savepoints[id].0.Values)
      && (forall i, j | i in savepoints && j in savepoints && i != j ::
            savepoints[i].0.Values !! savepoints[j].0.Values)
    }

    /** The first change of a row. */
    method FoldFirst(key: Key, org: OrgId, operation: Operation, changes: Changes)
      requires Separate({}) && key !in rows
      modifies `rows
      ensures Separate({}) && Values(rows) == old(Values(rows))[key := Rec(org, operation, changes)]
      ensures forall r | r in rows.Values :: r in old(rows.Values) || fresh(r)
    {
      var record := new RowRecord(org, operation, changes);
      rows := rows[key := record];
    }

    /** A row created and deleted in the same transaction. */
    method FoldAway(key: Key)
      requires Separate({})
      modifies `rows
      ensures Separate({}) && Values(rows) == old(Values(rows)) - {key}
      ensures rows.Values <= old(rows.Values)
    {
      rows := rows - {key};
    }

    /** A later change of a recorded row, in place. */
    method FoldMore(key: Key, operation: Operation, changes: Changes)
      requires Injective(rows) && key in rows && !(operation.Deleted? && rows[key].operation.Created?)
      modifies rows[key]
      ensures Values(rows) ==
        old(Values(rows))[key := FoldRec(Some(old(rows[key].Value())), rows[key].org, operation, changes).value]
    {
      rows[key].Fold(operation, changes);
      assert Values(rows) == old(Values(rows))[key := rows[key].Value()];
    }

    method FoldRow(key: Key, rowOrg: Option<OrgId>, operation: Operation, changes: Changes)
      requires Separate({})
      modifies `rows, `writes, rows.Values
      ensures Separate({}) && savepoints == old(savepoints)
      ensures Values(rows) == if rowOrg.None? then old(Values(rows))
                              else Fold(old(Values(rows)), key, rowOrg.value, operation, changes)
      ensures forall id | id in savepoints :: Values(savepoints[id].0) == old(Values(savepoints[id].0))
      ensures writes == (old(writes) || rowOrg.None?)
      ensures forall r | r in rows.Values :: r in old(rows.Values) || fresh(r)
    {
      if rowOrg.None? {
        writes := true;
      } else if key !in rows {
        FoldFirst(key, rowOrg.value, operation, changes);
      } else if operation.Deleted? && rows[key].operation.Created? {
        FoldAway(key);
      } else {
        FoldMore(key, operation, changes);
        forall id | id in savepoints ensures Values(savepoints[id].0) == old(Values(savepoints[id].0)) {
          SameValues(savepoints[id].0);
        }
      }
    }

    method Save(id: SavepointId, copy: Rows)
      requires Separate({}) && id !in savepoints && Injective(copy) && copy.Values !! rows.Values
      requires forall i | i in savepoints :: copy.Values !! savepoints[i].0.Values
      modifies `savepoints
      ensures Separate({}) && savepoints == old(savepoints)[id := (copy, writes)]
    {
      savepoints := savepoints[id := (copy, writes)];
    }

    method SavepointBegin(id: SavepointId)
      requires Separate({}) && id !in savepoints
      modifies `savepoints
      ensures Separate({})
      ensures savepoints.Keys == old(savepoints).Keys + {id}
      ensures Values(savepoints[id].0) == Values(rows) == old(Values(rows)) && savepoints[id].1 == writes
      ensures forall other | other in old(savepoints) :: savepoints[other] == old(savepoints)[other]
      ensures forall r | r in savepoints[id].0.Values :: fresh(r)
    {
      var copy := Copied(rows);
      Save(id, copy);
    }

    /** The whole transaction rolled back, or the innermost open savepoint did. */
    method AfterRollback(nested: Option<SavepointId>)
      requires Separate({})
      modifies `rows, `writes, `pending
      ensures Separate(if nested.Some? then {nested.value} else {})
      ensures nested.None? ==> Values(rows) == map[] && !writes && pending == 0
      ensures nested.Some? && nested.value in savepoints ==>
        rows == savepoints[nested.value].0 && writes == savepoints[nested.value].1
      ensures nested.Some? && nested.value !in savepoints ==> rows == old(rows) && writes == old(writes)
      ensures nested.Some? ==> pending == old(pending)
    {
      if nested.None? {
        rows, writes, pending := map[], false, 0;
      } else if nested.value in savepoints {
        rows, writes := savepoints[nested.value].0, savepoints[nested.value].1;
      }
    }

    /** Once its copy is forgotten, the rows put back are shared with nothing. */
    method SavepointEnd(id: SavepointId)
      requires Separate({id})
      modifies `savepoints
      ensures Separate({}) && savepoints == old(savepoints) - {id}
    {
      savepoints := savepoints - {id};
    }

    method AddRowEntry(k: Key, ghost entryOf: Key -> Option<Entry>) returns (ghost more: seq<Added>)
      requires k in rows && entryOf(k) == RowEntry(k, rows[k].Value(), readable)
      modifies `pending, `added
      ensures added == old(added) + more && pending == old(pending) + |more|
      ensures more == AsAdded(entryOf(k))
    {
      var entry := RowEntry(k, rows[k].Value(), readable);
      more := AsAdded(entry);
      if entry.Some? {
        added := added + [OfRow(entry.value)];
        pending := pending + 1;
      }
    }

    /** One entry for each row that changed. */
    method AddRowEntries() returns (ghost news: seq<Added>)
      modifies `pending, `added
      ensures added == old(added) + news && pending == old(pending) + |news|
      ensures NewsAre(news, old(EntriesOf(Values(rows), readable)), None)
      ensures news == [] <==> old(EntriesOf(Values(rows), readable)) == {}
    {
      ghost var values := Values(rows);
      ghost var entryOf := EntryOf(values, readable);
      forall k | k in rows ensures EntersAs(k, entryOf) {
        assert values[k] == rows[k].Value();
      }
      assert rows.Keys == values.Keys;
      news := AddEntries(values.Keys, entryOf);
      AllEntered(news, values, readable);
    }

    ghost predicate EntersAs(k: Key, entryOf: Key -> Option<Entry>)
      reads this, rows.Values
    {
      k in rows && entryOf(k) == RowEntry(k, rows[k].Value(), readable)
    }

    method AddEntries(ghost keys: set<Key>, ghost entryOf: Key -> Option<Entry>) returns (ghost news: seq<Added>)
      requires keys == rows.Keys && forall k | k in rows :: EntersAs(k, entryOf)
      modifies `pending, `added
      ensures added == old(added) + news && pending == old(pending) + |news| && Entered(news, keys, entryOf)
    {
      var todo := rows.Keys;
      news := [];
      while todo != {}
        invariant todo <= keys
        invariant added == old(added) + news && pending == old(pending) + |news|
        invariant Entered(news, keys - todo, entryOf)
      {
        var k :| k in todo;
        EnteredOneMore(news, keys - todo, k, entryOf);
        assert keys - (todo - {k}) == (keys - todo) + {k};
        todo := todo - {k};
        assert EntersAs(k, entryOf);
        ghost var more := AddRowEntry(k, entryOf);
        Assoc(old(added), news, more);
        news := news + more;
      }
      assert keys - todo == keys;
    }

    /** Whether nothing but the request itself accounts for its writes. */
    predicate NeedsRouteEntry()
      reads this
    {
      configMutation && writes && entries == 0 && pending == 0 && org.Some?
    }

    method AddRouteEntry() returns (ghost more: seq<Added>)
      modifies `pending, `added
      ensures more == if old(NeedsRouteEntry()) then [OfRoute(org.value)] else []
      ensures added == old(added) + more && pending == old(pending) + |more|
    {
      more := [];
      if NeedsRouteEntry() {
        added := added + [OfRoute(org.value)];
        pending := pending + 1;
        more := [OfRoute(org.value)];
      }
    }

    /** The rows' entries, and the request's own if it wrote and there are none. */
    method AddNews() returns (ghost news: seq<Added>)
      modifies `rows, `pending, `added
      ensures added == old(added) + news && pending == old(pending) + |news| && rows == map[]
      ensures NewsAre(news, old(EntriesOf(Values(rows), readable)),
                      if old(NeedsRouteEntry()) && old(EntriesOf(Values(rows), readable)) == {} then org else None)
    {
      news := AddRowEntries();
      rows := map[];
      ghost var more := AddRouteEntry();
      NewsWithRoute(news, old(EntriesOf(Values(rows), readable)), more, if more == [] then None else org);
      Assoc(old(added), news, more);
      news := news + more;
    }

    /** Before the outermost commit, the transaction's entries join it: one for
        each row that changed, or one for the request when it wrote but none did. */
    method BeforeCommit(nested: bool) returns (ghost news: seq<Added>)
      modifies `rows, `pending, `added
      ensures added == old(added) + news && pending == old(pending) + |news|
      ensures nested ==> rows == old(rows) && news == []
      ensures !nested ==> rows == map[]
      ensures !nested ==>
        NewsAre(news, old(EntriesOf(Values(rows), readable)),
                if old(NeedsRouteEntry()) && old(EntriesOf(Values(rows), readable)) == {} then org else None)
    {
      news := [];
      if !nested {
        news := AddNews();
      }
    }

    method AfterCommit(nested: bool)
      modifies `rows, `writes, `pending, `entries
      ensures nested ==>
        rows == old(rows) && writes == old(writes) && pending == old(pending) && entries == old(entries)
      ensures !nested ==> rows == map[] && !writes && pending == 0 && entries == old(entries) + old(pending)
    {
      if !nested {
        entries := entries + pending;
        rows, writes, pending := map[], false, 0;
      }
    }

    // ---------------------------------------------------------- a whole transaction

    /** The live rows and every savepoint's copy hold the fold of the same history. */
    ghost predicate Follows(w: World)
      reads this, Records()
    {
      && Values(rows) == w.folded && savepoints.Keys == w.saved.Keys
      && forall id | id in savepoints :: Values(savepoints[id].0) == w.saved[id].1
    }

    /** Every record there is, live or saved. */
    ghost function Records(): set<RowRecord>
      reads this
    {
      rows.Values + set id, r | id in savepoints && r in savepoints[id].0.Values :: r
    }

    method FollowBegin(w: World, id: SavepointId)
      requires Separate({}) && Follows(w) && id !in w.saved
      modifies `savepoints
      ensures Separate({}) && Follows(w.(saved := w.saved[id := (w.tables, w.folded)]))
      ensures forall r | r in Records() :: r in old(Records()) || fresh(r)
    {
      SavepointBegin(id);
    }

    method FollowRelease(w: World, id: SavepointId)
      requires Separate({}) && Follows(w) && id in w.saved
      modifies `savepoints
      ensures Separate({}) && Follows(w.(saved := w.saved - {id}))
      ensures Records() <= old(Records())
    {
      SavepointEnd(id);
    }

    /** The copy of a savepoint becomes the live rows, and is forgotten as a copy. */
    method Restore(id: SavepointId)
      requires Separate({}) && id in savepoints
      modifies `rows, `writes, `pending, `savepoints
      ensures Separate({}) && rows == old(savepoints[id].0) && savepoints == old(savepoints) - {id}
    {
      AfterRollback(Some(id));
      SavepointEnd(id);
    }

    method FollowRollback(w: World, id: SavepointId)
      requires Separate({}) && Follows(w) && id in w.saved
      modifies `rows, `writes, `pending, `savepoints
      ensures Separate({}) && Follows(World(w.saved[id].0, w.saved[id].1, w.saved - {id}))
      ensures Records() <= old(Records())
    {
      Restore(id);
    }

    method FollowChange(w: World, k: Key, org: OrgId, operation: Operation, changes: Changes, tables: Tables)
      requires Separate({}) && Follows(w)
      modifies `rows, `writes, rows.Values
      ensures Separate({}) && Follows(w.(tables := tables, folded := Fold(w.folded, k, org, operation, changes)))
      ensures forall r | r in Records() :: r in old(Records()) || fresh(r)
    {
      FoldRow(k, Some(org), operation, changes);
    }

    /** One change of the database, as the hooks are told of it. */
    method Follow(sc: Schema, start: map<Key, Vals>, w: World, c: Change)
      requires Separate({}) && Follows(w) && Enabled(sc, w, c)
      modifies this, Records()
      ensures Separate({}) && Follows(Step(sc, start, w, c))
      ensures forall r | r in Records() :: r in old(Records()) || fresh(r)
    {
      match c {
        case Begin(id) => FollowBegin(w, id);
        case Release(id) => FollowRelease(w, id);
        case Rollback(id) => FollowRollback(w, id);
        case _ => FollowChange(w, c.k, sc.org(c.k), OperationOf(c), Seen(w.tables, c), Execute(start, w.tables, c));
      }
    }

    /** A whole transaction: the changes of a history, and the commit. Of every row not
        replaced and not robbed of its old values, an entry is added if and only if its
        state differs from the one at the start. */
    method Transact(sc: Schema, start: map<Key, Vals>, cs: seq<Change>) returns (ghost news: seq<Added>)
      requires forall k | k in start :: start[k].Keys == sc.columns(k)
      requires Legal(sc, start, Opened(start), cs)
      requires Separate({}) && Follows(Opened(start))
      modifies this, Records()
      ensures var w := Run(sc, start, Opened(start), cs);
        forall k | !Replaced(start, w.tables, k) && !LostBefore(start, w.tables, k) ::
          HasEntry(news, k) <==> At(start, k) != Stored(w.tables, k)
    {
      var w := Opened(start);
      for i := 0 to |cs|
        invariant Legal(sc, start, w, cs[i..]) && Run(sc, start, w, cs[i..]) == Run(sc, start, Opened(start), cs)
        invariant Separate({}) && Follows(w)
        invariant forall r | r in Records() :: r in old(Records()) || fresh(r)
      {
        assert cs[i..][0] == cs[i] && cs[i..][1..] == cs[i + 1..];
        Follow(sc, start, w, cs[i]);
        w := Step(sc, start, w, cs[i]);
      }
      ghost var route := if NeedsRouteEntry() && EntriesOf(w.folded, readable) == {} then org else None;
      news := BeforeCommit(false);
      EntriesAreNetChanges(sc, start, cs, readable);
      NewsHave(news, w.folded, readable, route);
    }
  }

  ghost predicate HasEntry(news: seq<Added>, k: Key) { exists e :: OfRow(e) in news && e.key == k }

  lemma EntryKeepsKey(k: Key, rec: Rec, readable: set<Field>)
    requires RowEntry(k, rec, readable).Some?
    ensures RowEntry(k, rec, readable).value.key == k
  {
  }

  lemma EntryCollected(folded: map<Key, Rec>, readable: set<Field>, k: Key)
    requires k in folded && RowEntry(k, folded[k], readable).Some?
    ensures RowEntry(k, folded[k], readable).value in EntriesOf(folded, readable)
  {
    assert EntryOf(folded, readable)(k) == RowEntry(k, folded[k], readable);
  }

  lemma CollectedHasRow(folded: map<Key, Rec>, readable: set<Field>, e: Entry)
    requires e in EntriesOf(folded, readable)
    ensures e.key in folded && RowEntry(e.key, folded[e.key], readable).Some?
  {
    var k :| k in folded && EntryOf(folded, readable)(k) == Some(e);
    EntryKeepsKey(k, folded[k], readable);
  }

  lemma NewsHave(news: seq<Added>, folded: map<Key, Rec>, readable: set<Field>, route: Option<OrgId>)
    requires NewsAre(news, EntriesOf(folded, readable), route)
    ensures forall k :: HasEntry(news, k) <==> k in folded && RowEntry(k, folded[k], readable).Some?
  {
    forall k ensures HasEntry(news, k) <==> k in folded && RowEntry(k, folded[k], readable).Some? {
      if k in folded && RowEntry(k, folded[k], readable).Some? {
        var e := RowEntry(k, folded[k], readable).value;
        EntryCollected(folded, readable, k);
        EntryKeepsKey(k, folded[k], readable);
        assert OfRow(e) in news;
      }
      if HasEntry(news, k) {
        var e :| OfRow(e) in news && e.key == k;
        CollectedHasRow(folded, readable, e);
      }
    }
  }

  lemma EntriesAreNetChanges(sc: Schema, start: map<Key, Vals>, cs: seq<Change>, readable: set<Field>)
    requires forall k | k in start :: start[k].Keys == sc.columns(k)
    requires Legal(sc, start, Opened(start), cs)
    ensures var w := Run(sc, start, Opened(start), cs);
      forall k | !Replaced(start, w.tables, k) && !LostBefore(start, w.tables, k) ::
        (k in w.folded && RowEntry(k, w.folded[k], readable).Some?) <==> At(start, k) != Stored(w.tables, k)
  {
    var w := Run(sc, start, Opened(start), cs);
    forall k | !Replaced(start, w.tables, k) && !LostBefore(start, w.tables, k)
      ensures (k in w.folded && RowEntry(k, w.folded[k], readable).Some?) <==> At(start, k) != Stored(w.tables, k)
    {
      EntryIffNetChange(sc, start, cs, k, readable);
    }
  }
}
