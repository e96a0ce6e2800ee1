/** Undoing a scan: every declared cell goes back in one transaction of full-row compare-and-set updates. */
module CellInverse {
  import opened Common
  import opened CellDelta
  import opened CellDeltaTheorems

  /** A cell the scanner may change, with what it may become: a fixed value, a clock reading or a colour. */
  datatype Allowance = Allowance(table: string, id: int, field: string, before: Cell, after: Option<Cell>, clock: bool,
      color: bool)
  datatype Packet = Packet(catalog: seq<Change>, allowances: seq<Allowance>)

  predicate IsColor(cell: Cell) {
    || cell == "null:"
    || (|cell| == 12 && cell[..6] == "text:#" && forall i | 6 <= i < 12 ::
          '0' <= cell[i] <= '9' || 'A' <= cell[i] <= 'F')
  }

  /** The scanner's value for an allowed cell meets that cell's own rule. */
  predicate Meets(env: Env, a: Allowance, actual: Cell) {
    && (a.color || actual != a.before)
    && (if a.clock then
          env.clock(a.field, actual)
          && (a.table == "Series" && a.field == "LastFolderScanned" ==> actual != a.before)
        else if a.color then IsColor(actual)
        else a.after == Some(actual))
  }

  predicate HasField(env: Env, s: Snapshot, table: string, id: int, field: string) {
    Known(env, s, table, id) && field in RowAt(env, s, table, id)
  }

  predicate ScanCell(env: Env, before: Snapshot, after: Snapshot, a: Allowance) {
    && HasField(env, after, a.table, a.id, a.field) && HasCell(env, before, a.table, a.id, a.field, a.before)
    && Meets(env, a, RowAt(env, after, a.table, a.id)[a.field])
  }

  function ScanChange(env: Env, after: Snapshot, a: Allowance): Change
    requires HasField(env, after, a.table, a.id, a.field)
  {
    Change(a.table, a.id, a.field, a.before, RowAt(env, after, a.table, a.id)[a.field])
  }

  function ScanChanges(env: Env, after: Snapshot, allowances: seq<Allowance>): (changes: seq<Change>)
    requires forall i | 0 <= i < |allowances| :: HasField(env, after, allowances[i].table, allowances[i].id,
             allowances[i].field)
  {
    seq(|allowances|, i requires 0 <= i < |allowances| => ScanChange(env, after, allowances[i]))
  }

  predicate ScanDelta(env: Env, before: Snapshot, after: Snapshot, allowances: seq<Allowance>) {
    && after.schema == before.schema
    && (forall i | 0 <= i < |allowances| :: ScanCell(env, before, after, allowances[i]))
    && Delta(env, before, after, ScanChanges(env, after, allowances))
  }

  method RequireScanDelta(env: Env, before: Snapshot, after: Snapshot, allowances: seq<Allowance>) returns (ok: bool)
    ensures ok <==> ScanDelta(env, before, after, allowances)
    ensures ok ==> forall k | 0 <= k < |allowances| && !allowances[k].clock && !allowances[k].color ::
                     HasField(env, after, allowances[k].table, allowances[k].id, allowances[k].field)
                     && Some(RowAt(env, after, allowances[k].table, allowances[k].id)[allowances[k].field])
                        == allowances[k].after
  {
    if after.schema != before.schema { return false; }
    var changes: seq<Change> := [];
    var i := 0;
    while i < |allowances|
      invariant 0 <= i <= |allowances| && |changes| == i
      invariant forall k | 0 <= k < i ::
                  ScanCell(env, before, after, allowances[k]) && changes[k] == ScanChange(env, after, allowances[k])
    {
      if !ScanCell(env, before, after, allowances[i]) { return false; }
      changes := changes + [ScanChange(env, after, allowances[i])];
      i := i + 1;
    }
    assert changes == ScanChanges(env, after, allowances);
    ok := RequireDelta(env, before, after, changes);
  }

  // ---- What has to go back ----

  datatype CellRef = CellRef(table: string, id: int, field: string)

  function Refs(p: Packet): (refs: seq<CellRef>)
    ensures |refs| == |p.catalog| + |p.allowances|
  {
    seq(|p.catalog|, i requires 0 <= i < |p.catalog| => CellRef(p.catalog[i].table, p.catalog[i].id,
        p.catalog[i].field))
    + seq(|p.allowances|, i requires 0 <= i < |p.allowances| => CellRef(p.allowances[i].table, p.allowances[i].id,
        p.allowances[i].field))
  }

  predicate DistinctRefs(refs: seq<CellRef>) { forall i, j | 0 <= i < j < |refs| :: refs[i] != refs[j] }

  /** The rows of the cells, in order of first appearance. */
  function Groups(refs: seq<CellRef>): seq<(string, int)> {
    if refs == [] then []
    else
      var groups, last := Groups(refs[..|refs| - 1]), refs[|refs| - 1];
      if (last.table, last.id) in groups then groups else groups + [(last.table, last.id)]
  }

  predicate DistinctGroups(groups: seq<(string, int)>) { forall i, j | 0 <= i < j < |groups| :: groups[i] != groups[j] }

  lemma {:induction false} GroupsCover(refs: seq<CellRef>)
    ensures DistinctGroups(Groups(refs))
    ensures forall i | 0 <= i < |refs| :: (refs[i].table, refs[i].id) in Groups(refs)
    ensures forall g | g in Groups(refs) :: exists i :: 0 <= i < |refs| && (refs[i].table, refs[i].id) == g
  {
    if refs != [] {
      var less, last := refs[..|refs| - 1], refs[|refs| - 1];
      GroupsCover(less);
      forall g | g in Groups(refs)
        ensures exists i :: 0 <= i < |refs| && (refs[i].table, refs[i].id) == g
      {
        if g in Groups(less) {
          var i :| 0 <= i < |less| && (less[i].table, less[i].id) == g;
          assert (refs[i].table, refs[i].id) == g;
        } else {
          assert (last.table, last.id) == g;
        }
      }
      forall i | 0 <= i < |refs|
        ensures (refs[i].table, refs[i].id) in Groups(refs)
      {
        if i < |less| { assert less[i] == refs[i]; }
      }
    }
  }

  function FieldsOf(refs: seq<CellRef>, g: (string, int)): set<string> {
    set i | 0 <= i < |refs| && (refs[i].table, refs[i].id) == g :: refs[i].field
  }

  predicate ExactRestoration(refs: seq<CellRef>) { |refs| == 32 && DistinctRefs(refs) && |Groups(refs)| == 5 }

  predicate PlainColumns(row: Row) { forall k | k in row :: '"' !in k }

  // ---- One UPDATE ----

  predicate Agrees(row: Row, current: Row) { forall k | k in current :: k in row && row[k] == current[k] }

  function Hits(rows: seq<Row>, current: Row): nat {
    if rows == [] then 0 else (if Agrees(rows[0], current) then 1 else 0) + Hits(rows[1..], current)
  }

  function Updated(rows: seq<Row>, current: Row, patch: Row): seq<Row> {
    if rows == [] then []
    else [if Agrees(rows[0], current) then rows[0] + patch else rows[0]] + Updated(rows[1..], current, patch)
  }

  lemma {:induction false} NoHit(rows: seq<Row>, current: Row, patch: Row)
    requires forall j | 0 <= j < |rows| :: !Agrees(rows[j], current)
    ensures Hits(rows, current) == 0 && Updated(rows, current, patch) == rows
  {
    if rows != [] {
      assert forall j | 0 <= j < |rows[1..]| :: rows[1..][j] == rows[j + 1];
      NoHit(rows[1..], current, patch);
    }
  }

  /** The compare-and-set touches exactly the row with that key. */
  lemma {:induction false} HitsOne(env: Env, rows: seq<Row>, id: int, i: nat, current: Row, patch: Row)
    requires Single(env, rows, id, i) && rows[i] == current
    ensures Hits(rows, current) == 1 && Updated(rows, current, patch) == rows[i := current + patch]
  {
    forall j | 0 <= j < |rows| && j != i
      ensures !Agrees(rows[j], current)
    {
      assert !HasId(env, rows[j], id);
    }
    assert forall j | 0 <= j < |rows[1..]| :: rows[1..][j] == rows[j + 1];
    if i == 0 {
      NoHit(rows[1..], current, patch);
    } else {
      HitsOne(env, rows[1..], id, i - 1, current, patch);
    }
  }

  // ---- Before the transaction: the approved after-state is exact ----

  predicate NoKeyFields(p: Packet) {
    NoKeyChange(p.catalog) && forall i | 0 <= i < |p.allowances| :: p.allowances[i].field != ID
  }

  /** Everything InvertCatalog checks before it starts to write. */
  predicate Invertible(env: Env, p: Packet, original: Snapshot, before: Snapshot, after: Snapshot, database: Snapshot) {
    && Delta(env, original, before, p.catalog) && ScanDelta(env, before, after, p.allowances)
    && ExactRestoration(Refs(p)) && Delta(env, after, SortAll(env, database), [])
  }

  /** The whole change from the original, catalog cells first and then the scanner's. */
  function AllChanges(env: Env, p: Packet, after: Snapshot): (changes: seq<Change>)
    requires forall i | 0 <= i < |p.allowances| :: HasField(env, after, p.allowances[i].table, p.allowances[i].id,
             p.allowances[i].field)
    ensures |changes| == |p.catalog| + |p.allowances|
  {
    p.catalog + ScanChanges(env, after, p.allowances)
  }

  predicate Declares(env: Env, p: Packet, original: Snapshot, before: Snapshot, after: Snapshot) {
    Delta(env, original, before, p.catalog) && ScanDelta(env, before, after, p.allowances) && DistinctRefs(Refs(p))
  }

  function RefOf(c: Change): CellRef { CellRef(c.table, c.id, c.field) }

  lemma {:induction false} RefsAreCells(env: Env, p: Packet, after: Snapshot)
    requires forall i | 0 <= i < |p.allowances| :: HasField(env, after, p.allowances[i].table, p.allowances[i].id,
             p.allowances[i].field)
    ensures |AllChanges(env, p, after)| == |Refs(p)|
    ensures forall i | 0 <= i < |Refs(p)| :: Refs(p)[i] == RefOf(AllChanges(env, p, after)[i])
    ensures DistinctRefs(Refs(p)) ==> DistinctCells(AllChanges(env, p, after))
    ensures NoKeyFields(p) ==> NoKeyChange(AllChanges(env, p, after))
  {
    var changes := AllChanges(env, p, after);
    assert forall i | 0 <= i < |Refs(p)| :: Refs(p)[i] == RefOf(changes[i]);
    if DistinctRefs(Refs(p)) {
      forall i, j | 0 <= i < j < |changes|
        ensures RefOf(changes[i]) != RefOf(changes[j])
      {
        assert Refs(p)[i] != Refs(p)[j];
      }
    }
  }

  /** Both declared steps together take the original exactly to the after-state, and each cell's two values are where
      the inverse will look for them. */
  lemma ApprovedStateIsExact(env: Env, p: Packet, original: Snapshot, before: Snapshot, after: Snapshot)
    requires Sound(env) && NoKeyFields(p) && Declares(env, p, original, before, after)
    ensures var changes := AllChanges(env, p, after);
            && Delta(env, original, after, changes) && DistinctCells(changes) && NoKeyChange(changes)
            && forall i | 0 <= i < |changes| ::
                 && HasCell(env, original, changes[i].table, changes[i].id, changes[i].field, changes[i].before)
                 && HasCell(env, after, changes[i].table, changes[i].id, changes[i].field, changes[i].after)
  {
    var changes := AllChanges(env, p, after);
    DeltasCompose(env, original, before, after, p.catalog, ScanChanges(env, after, p.allowances));
    RefsAreCells(env, p, after);
    var z := ApplyAll(env, original, changes).value;
    CanonicalIsSame(env, z);
    hide DistinctCells, NoKeyChange, ApplyAll, SortAll, Same, Declares, HasCell, AllChanges, Sound;
    assert Same(after, z);
    SameSym(after, z);
    forall i | 0 <= i < |changes|
      ensures HasCell(env, original, changes[i].table, changes[i].id, changes[i].field, changes[i].before)
      ensures HasCell(env, after, changes[i].table, changes[i].id, changes[i].field, changes[i].after)
    {
      CellsAtBothEnds(env, original, changes, i);
      SameCell(env, z, after, changes[i].table, changes[i].id, changes[i].field, changes[i].after);
    }
  }

  // ---- Inside the transaction ----

  /** Some of the first `k` rows have been put back, every other row is still as the scan left it. */
  ghost predicate InGroups(env: Env, groups: seq<(string, int)>, table: string, row: Row) {
    exists i :: 0 <= i < |groups| && groups[i].0 == table && HasId(env, row, groups[i].1)
  }

  ghost predicate Restored(env: Env, original: Snapshot, z: Snapshot, groups: seq<(string, int)>, w: Snapshot) {
    && w.schema == original.schema == z.schema && w.tables.Keys == original.tables.Keys == z.tables.Keys
    && forall t | t in original.tables ::
         RowsRestored(env, groups, t, original.tables[t], z.tables[t], w.tables[t])
  }

  ghost predicate RowsRestored(env: Env, groups: seq<(string, int)>, t: string, o: seq<Row>, z: seq<Row>, w: seq<Row>) {
    && |w| == |o| == |z|
    && forall i | 0 <= i < |o| :: w[i] == if InGroups(env, groups, t, o[i]) then o[i] else z[i]
  }

  lemma NothingRestored(env: Env, changes: seq<Change>, original: Snapshot, z: Snapshot)
    requires OnlyDeclared(env, changes, original, z)
    ensures Restored(env, original, z, [], z)
  {
    forall t | t in original.tables
      ensures RowsRestored(env, [], t, original.tables[t], z.tables[t], z.tables[t])
    {
      assert RowsDiffer(env, changes, t, original.tables[t], z.tables[t]);
    }
  }

  /** When every declared row is back, everything is. */
  lemma {:induction false} AllRestored(env: Env, changes: seq<Change>, original: Snapshot, z: Snapshot,
      groups: seq<(string, int)>, w: Snapshot)
    requires OnlyDeclared(env, changes, original, z) && Restored(env, original, z, groups, w)
    requires forall i | 0 <= i < |changes| :: (changes[i].table, changes[i].id) in groups
    ensures w == original
  {
    forall t | t in original.tables
      ensures w.tables[t] == original.tables[t]
    {
      assert RowsRestored(env, groups, t, original.tables[t], z.tables[t], w.tables[t]);
      assert RowsDiffer(env, changes, t, original.tables[t], z.tables[t]);
      forall i | 0 <= i < |original.tables[t]|
        ensures w.tables[t][i] == original.tables[t][i]
      {
        if !InGroups(env, groups, t, original.tables[t][i]) {
          UndeclaredRow(env, changes, t, original.tables[t][i], z.tables[t][i], groups);
        }
      }
    }
    assert w.tables == original.tables;
  }

  lemma UndeclaredRow(env: Env, changes: seq<Change>, t: string, o: Row, z: Row, groups: seq<(string, int)>)
    requires RowDiffers(env, changes, t, o, z) && !InGroups(env, groups, t, o)
    requires forall i | 0 <= i < |changes| :: (changes[i].table, changes[i].id) in groups
    ensures o == z
  {
    forall f | f in o
      ensures !Declared(env, changes, t, o, f)
    {
      forall i | 0 <= i < |changes| && changes[i].table == t
        ensures !HasId(env, o, changes[i].id)
      {
        var g :| 0 <= g < |groups| && groups[g] == (changes[i].table, changes[i].id);
        assert groups[g].0 == t;
      }
    }
  }

  /** Putting back one more row. */
  lemma {:induction false} OneMoreRow(env: Env, changes: seq<Change>, original: Snapshot, z: Snapshot,
      groups: seq<(string, int)>, k: nat, w: Snapshot)
    requires Sound(env) && OnlyDeclared(env, changes, original, z) && k < |groups|
             && Restored(env, original, z, groups[..k], w)
    requires DistinctGroups(groups)
    requires Known(env, original, groups[k].0, groups[k].1)
    ensures var (t, id) := groups[k];
            && Known(env, z, t, id) && Known(env, w, t, id) && RowAt(env, w, t, id) == RowAt(env, z, t, id)
            && HasId(env, RowAt(env, original, t, id), id)
            && RowDiffers(env, changes, t, RowAt(env, original, t, id), RowAt(env, z, t, id))
            && Restored(env, original, z, groups[..k + 1], PutRow(env, w, t, id, RowAt(env, original, t, id)))
  {
    var (t, id) := groups[k];
    var o := original.tables[t];
    var p := Find(env, o, id).value;
    assert RowsDiffer(env, changes, t, o, z.tables[t]);
    assert RowsRestored(env, groups[..k], t, o, z.tables[t], w.tables[t]);
    SameKeysSameFind(env, changes, t, o, z.tables[t], id);
    assert !InGroups(env, groups[..k], t, o[p]);
    WhereItWas(env, changes, groups[..k], t, o, z.tables[t], w.tables[t], id);
    var done := PutRow(env, w, t, id, o[p]);
    forall u | u in original.tables
      ensures RowsRestored(env, groups[..k + 1], u, original.tables[u], z.tables[u], done.tables[u])
    {
      assert RowsRestored(env, groups[..k], u, original.tables[u], z.tables[u], w.tables[u]);
      hide Find;
      forall i | 0 <= i < |original.tables[u]|
        ensures InGroups(env, groups[..k + 1], u, original.tables[u][i])
                <==> InGroups(env, groups[..k], u, original.tables[u][i]) || (u == t && i == p)
      {
        InOneMore(env, groups, k, u, original.tables[u][i]);
      }
    }
  }

  lemma InOneMore(env: Env, groups: seq<(string, int)>, k: nat, u: string, row: Row)
    requires k < |groups|
    ensures InGroups(env, groups[..k + 1], u, row) <==>
              InGroups(env, groups[..k], u, row) || (u == groups[k].0 && HasId(env, row, groups[k].1))
  {
    var more, less := groups[..k + 1], groups[..k];
    assert forall i | 0 <= i < k :: more[i] == less[i];
    assert more[k] == groups[k];
    if InGroups(env, less, u, row) {
      var i :| 0 <= i < |less| && less[i].0 == u && HasId(env, row, less[i].1);
      assert more[i] == less[i];
    }
  }

  lemma WhereItWas(env: Env, changes: seq<Change>, groups: seq<(string, int)>, t: string, o: seq<Row>, z: seq<Row>,
      w: seq<Row>, id: int)
    requires RowsDiffer(env, changes, t, o, z) && RowsRestored(env, groups, t, o, z, w)
    ensures Find(env, w, id) == Find(env, o, id)
  {
    forall i | 0 <= i < |o|
      ensures HasId(env, w[i], id) <==> HasId(env, o[i], id)
    {
      assert RowDiffers(env, changes, t, o[i], z[i]);
    }
    if Find(env, o, id).Some? { assert Single(env, w, id, Find(env, o, id).value); }
    if Find(env, w, id).Some? { assert Single(env, o, id, Find(env, w, id).value); }
  }

  /** The scanned row with the original's values in all its declared fields is the original row. */
  lemma {:induction false} PatchedIsInitial(env: Env, changes: seq<Change>, refs: seq<CellRef>, t: string, id: int,
      initial: Row, current: Row)
    requires Sound(env) && RowDiffers(env, changes, t, initial, current) && HasId(env, initial, id)
    requires |refs| == |changes| && forall i | 0 <= i < |refs| :: refs[i] == RefOf(changes[i])
    requires FieldsOf(refs, (t, id)) <= initial.Keys
    ensures current + (map f | f in FieldsOf(refs, (t, id)) :: initial[f]) == initial
  {
    var fields := FieldsOf(refs, (t, id));
    forall f | f in initial && initial[f] != current[f]
      ensures f in fields
    {
      var i :| 0 <= i < |changes| && changes[i].table == t && HasId(env, initial, changes[i].id)
          && changes[i].field == f;
      assert refs[i] == RefOf(changes[i]);
      assert (refs[i].table, refs[i].id) == (t, id);
    }
  }

  predicate QuoteFree(env: Env, after: Snapshot, groups: seq<(string, int)>) {
    forall i | 0 <= i < |groups| && Known(env, after, groups[i].0, groups[i].1) ::
      PlainColumns(RowAt(env, after, groups[i].0, groups[i].1))
  }

  lemma QuoteFreeNext(env: Env, after: Snapshot, groups: seq<(string, int)>, k: nat)
    requires k < |groups| && Known(env, after, groups[k].0, groups[k].1) && QuoteFree(env, after, groups[..k])
    ensures QuoteFree(env, after, groups[..k + 1]) <==> PlainColumns(RowAt(env, after, groups[k].0, groups[k].1))
    ensures QuoteFree(env, after, groups) ==> QuoteFree(env, after, groups[..k + 1])
  {
    hide PlainColumns, Known;
    assert forall i | 0 <= i < k :: groups[..k + 1][i] == groups[..k][i];
    assert forall i | 0 <= i < k + 1 :: groups[..k + 1][i] == groups[i];
    assert groups[..k + 1][k] == groups[k];
  }

  /** What holds between two updates: the database is, up to row order, the scanned state with some rows put back. */
  ghost predicate Halfway(env: Env, original: Snapshot, z: Snapshot, groups: seq<(string, int)>, k: nat,
      content: Snapshot) {
    k <= |groups| && exists w :: Restored(env, original, z, groups[..k], w) && Same(content, w)
  }

  /** One update: it finds its row exactly as the scan left it, hits nothing else, and leaves the next halfway state. */
  lemma {:induction false} OneUpdate(env: Env, changes: seq<Change>, refs: seq<CellRef>, original: Snapshot,
      z: Snapshot, after: Snapshot,
                  groups: seq<(string, int)>, k: nat, content: Snapshot)
    requires Sound(env) && OnlyDeclared(env, changes, original, z) && Same(after, z) && k < |groups|
    requires Halfway(env, original, z, groups, k, content)
    requires DistinctGroups(groups)
    requires |refs| == |changes| && forall i | 0 <= i < |refs| :: refs[i] == RefOf(changes[i])
    requires Known(env, original, groups[k].0, groups[k].1)
    requires FieldsOf(refs, groups[k]) <= RowAt(env, original, groups[k].0, groups[k].1).Keys
    ensures var (t, id) := groups[k];
            && Known(env, after, t, id) && t in content.tables
            && var initial, current := RowAt(env, original, t, id), RowAt(env, after, t, id);
            && initial.Keys == current.Keys
            && var patch := map f | f in FieldsOf(refs, groups[k]) :: initial[f];
            && Hits(content.tables[t], current) == 1
            && Halfway(env, original, z, groups, k + 1, content.(tables
                 := content.tables[t := Updated(content.tables[t], current, patch)]))
  {
    var (t, id) := groups[k];
    var w :| Restored(env, original, z, groups[..k], w) && Same(content, w);
    var initial := RowAt(env, original, t, id);
    hide Same, OnlyDeclared, Restored, Find, Sound, RowDiffers;
    OneMoreRow(env, changes, original, z, groups, k, w);
    var current := RowAt(env, z, t, id);
    SameRow(env, after, z, t, id);
    SameRow(env, content, w, t, id);
    assert initial.Keys == current.Keys by { ShapesMatch(env, changes, t, initial, current); }
    PatchedIsInitial(env, changes, refs, t, id, initial, current);
    var patch := map f | f in FieldsOf(refs, groups[k]) :: initial[f];
    FoundSingle(env, content, t, id);
    HitsOne(env, content.tables[t], id, Find(env, content.tables[t], id).value, current, patch);
    SamePut(env, content, w, t, id, initial);
  }

  lemma ShapesMatch(env: Env, changes: seq<Change>, t: string, a: Row, b: Row)
    requires RowDiffers(env, changes, t, a, b)
    ensures a.Keys == b.Keys
  {
  }

  lemma FoundSingle(env: Env, s: Snapshot, t: string, id: int)
    requires Known(env, s, t, id)
    ensures Single(env, s.tables[t], id, Find(env, s.tables[t], id).value)
  {
  }

  /** Every row to restore is in the original, with every field to restore in it. */
  predicate RowsReady(env: Env, original: Snapshot, refs: seq<CellRef>, groups: seq<(string, int)>) {
    forall k | 0 <= k < |groups| ::
      Known(env, original, groups[k].0, groups[k].1) && FieldsOf(refs, groups[k])
          <= RowAt(env, original, groups[k].0, groups[k].1).Keys
  }

  lemma {:induction false} FieldsExist(env: Env, original: Snapshot, changes: seq<Change>, refs: seq<CellRef>)
    requires |refs| == |changes| && forall i | 0 <= i < |refs| :: refs[i] == RefOf(changes[i])
    requires forall i | 0 <= i < |changes| :: HasCell(env, original, changes[i].table, changes[i].id, changes[i].field,
             changes[i].before)
    ensures RowsReady(env, original, refs, Groups(refs))
  {
    GroupsCover(refs);
    var groups := Groups(refs);
    forall k, i | 0 <= k < |groups| && 0 <= i < |refs| && (refs[i].table, refs[i].id) == groups[k]
      ensures Known(env, original, groups[k].0, groups[k].1)
              && refs[i].field in RowAt(env, original, groups[k].0, groups[k].1)
    {
      assert HasCell(env, original, changes[i].table, changes[i].id, changes[i].field, changes[i].before);
    }
    forall k | 0 <= k < |groups|
      ensures Known(env, original, groups[k].0, groups[k].1)
    {
      assert groups[k] in groups;
    }
  }

  /** After the last update the database holds the original, up to row order. */
  lemma {:induction false} LastUpdate(env: Env, changes: seq<Change>, refs: seq<CellRef>, original: Snapshot,
      z: Snapshot, content: Snapshot)
    requires OnlyDeclared(env, changes, original, z) && Halfway(env, original, z, Groups(refs), |Groups(refs)|, content)
    requires |refs| == |changes| && forall i | 0 <= i < |refs| :: refs[i] == RefOf(changes[i])
    ensures Same(content, original)
  {
    GroupsCover(refs);
    var groups := Groups(refs);
    var w :| Restored(env, original, z, groups[..|groups|], w) && Same(content, w);
    assert groups[..|groups|] == groups;
    forall i | 0 <= i < |changes|
      ensures (changes[i].table, changes[i].id) in groups
    {
      assert refs[i] == RefOf(changes[i]);
    }
    AllRestored(env, changes, original, z, groups, w);
  }

  /** The database file under restoration. */
  class Candidate {
    var content: Snapshot

    constructor (content: Snapshot)
      ensures this.content == content
    {
      this.content := content;
    }

    method Update(table: string, current: Row, patch: Row) returns (count: nat)
      requires table in content.tables
      modifies this
      ensures count == Hits(old(content).tables[table], current)
      ensures content == old(content).(tables := old(content).tables[table
              := Updated(old(content).tables[table], current, patch)])
    {
      count := Hits(content.tables[table], current);
      content := content.(tables := content.tables[table := Updated(content.tables[table], current, patch)]);
    }

    /** One row: compared with the original's shape and put back by one full-row compare-and-set. */
    method RestoreRow(env: Env, restore: seq<CellRef>, g: (string, int), original: Snapshot, after: Snapshot)
        returns (ok: bool)
      requires Known(env, original, g.0, g.1) && Known(env, after, g.0, g.1) && g.0 in content.tables
      requires FieldsOf(restore, g) <= RowAt(env, original, g.0, g.1).Keys
      modifies this
      ensures var current, initial := RowAt(env, after, g.0, g.1), RowAt(env, original, g.0, g.1);
              var patch := map f | f in FieldsOf(restore, g) :: initial[f];
              var rows := old(content).tables[g.0];
              && (ok <==> current.Keys == initial.Keys && PlainColumns(current) && Hits(rows, current) == 1)
              && (ok ==> content == old(content).(tables := old(content).tables[g.0 := Updated(rows, current, patch)]))
    {
      hide Hits, Updated, FieldsOf, PlainColumns, Find;
      var current, initial := RowAt(env, after, g.0, g.1), RowAt(env, original, g.0, g.1);
      if current.Keys != initial.Keys || !PlainColumns(current) { return false; }
      var count := Update(g.0, current, map f | f in FieldsOf(restore, g) :: initial[f]);
      return count == 1;
    }

    /** The next row of the transaction: refused only for a double quote in a column name. */
    method RestoreNext(env: Env, ghost changes: seq<Change>, restore: seq<CellRef>, original: Snapshot,
        ghost z: Snapshot,
                       after: Snapshot, groups: seq<(string, int)>, k: nat) returns (ok: bool)
      requires Sound(env) && OnlyDeclared(env, changes, original, z) && Same(after, z)
      requires k < |groups| && DistinctGroups(groups) && RowsReady(env, original, restore, groups)
      requires |restore| == |changes| && forall i | 0 <= i < |restore| :: restore[i] == RefOf(changes[i])
      requires Halfway(env, original, z, groups, k, content)
      modifies this
      ensures Known(env, after, groups[k].0, groups[k].1)
      ensures ok <==> PlainColumns(RowAt(env, after, groups[k].0, groups[k].1))
      ensures ok ==> Halfway(env, original, z, groups, k + 1, content)
    {
      assert Known(env, original, groups[k].0, groups[k].1);
      hide Same, Find, OnlyDeclared, Sound, Halfway, Hits, Updated, FieldsOf, PlainColumns, DistinctGroups;
      OneUpdate(env, changes, restore, original, z, after, groups, k, content);
      ok := RestoreRow(env, restore, groups[k], original, after);
    }

    /** The updates of one transaction, row by row. */
    method Restore(env: Env, changes: seq<Change>, restore: seq<CellRef>, original: Snapshot, after: Snapshot)
        returns (ok: bool)
      requires Sound(env) && NoKeyChange(changes) && Delta(env, original, after, changes)
               && Delta(env, after, SortAll(env, content), [])
      requires |restore| == |changes| && forall i | 0 <= i < |restore| :: restore[i] == RefOf(changes[i])
      requires forall i | 0 <= i < |changes| :: HasCell(env, original, changes[i].table, changes[i].id,
               changes[i].field, changes[i].before)
      modifies this
      ensures ok <==> QuoteFree(env, after, Groups(restore))
      ensures ok ==> Same(content, original)
    {
      hide *;
      var groups := Groups(restore);
      ghost var z := Begin(env, changes, original, after, content, groups);
      FieldsExist(env, original, changes, restore);
      GroupsCover(restore);
      var k := 0;
      while k < |groups|
        invariant 0 <= k <= |groups| && Halfway(env, original, z, groups, k, content)
        invariant QuoteFree(env, after, groups[..k])
      {
        ok := RestoreNext(env, changes, restore, original, z, after, groups, k);
        QuoteFreeNext(env, after, groups, k);
        if !ok { return; }
        k := k + 1;
      }
      assert groups[..k] == groups;
      LastUpdate(env, changes, restore, original, z, content);
      ok := true;
    }

    /** Undoes the catalog and scan changes.  Once the checks before the transaction pass, only a double quote in a
        column name can still refuse; refusal leaves the database as it was. */
    method InvertCatalog(env: Env, p: Packet, original: Snapshot, before: Snapshot, after: Snapshot) returns (ok: bool)
      requires Sound(env) && NoKeyFields(p)
      modifies this
      ensures ok <==>
                Invertible(env, p, original, before, after, old(content)) && QuoteFree(env, after, Groups(Refs(p)))
      ensures ok ==> Same(content, original) && SortAll(env, content) == SortAll(env, original)
      ensures !ok ==> content == old(content)
    {
      hide Same, Find, SortAll, Sound, NoKeyFields, DistinctCells, NoKeyChange, HasCell, Delta, QuoteFree;
      var catalogOk := RequireDelta(env, original, before, p.catalog);
      if !catalogOk { return false; }
      var scanOk := RequireScanDelta(env, before, after, p.allowances);
      if !scanOk { return false; }
      var restore := Refs(p);
      if !ExactRestoration(restore) { return false; }
      ApprovedStateIsExact(env, p, original, before, after);
      RefsAreCells(env, p, after);
      var changes := AllChanges(env, p, after);
      var exact := RequireDelta(env, original, after, changes);
      if !exact { return false; }
      var matching := RequireDelta(env, after, SortAll(env, content), []);
      if !matching { return false; }
      var saved := content;
      var updated := Restore(env, changes, restore, original, after);
      if updated {
        RestoredCompares(env, original, content);
        updated := RequireDelta(env, original, SortAll(env, content), []);
      }
      if !updated { content := saved; }
      return updated;
    }
  }

  lemma Begin(env: Env, changes: seq<Change>, original: Snapshot, after: Snapshot, content: Snapshot,
      groups: seq<(string, int)>) returns (z: Snapshot)
    requires Sound(env) && NoKeyChange(changes) && Delta(env, original, after, changes)
             && Delta(env, after, SortAll(env, content), [])
    ensures OnlyDeclared(env, changes, original, z) && Same(after, z) && Halfway(env, original, z, groups, 0, content)
    ensures QuoteFree(env, after, groups[..0])
  {
    z := ApplyAll(env, original, changes).value;
    ApplyIsDeclared(env, original, changes);
    NothingRestored(env, changes, original, z);
    CanonicalIsSame(env, z);
    SortedComparison(env, after, content);
    assert groups[..0] == [];
    assert Same(content, z);
  }

  lemma RestoredCompares(env: Env, original: Snapshot, content: Snapshot)
    requires Sound(env) && Same(content, original)
    ensures Delta(env, original, SortAll(env, content), []) && SortAll(env, content) == SortAll(env, original)
  {
    SortedComparison(env, original, content);
    SameSym(content, original);
  }
}
