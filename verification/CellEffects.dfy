/** What the delta and scan checks say about the cells themselves: which cells hold what before and after, and that
    every other cell stayed.  The checks pass exactly then. */
module CellEffects {
  import opened Common
  import opened CellDelta
  import opened CellDeltaTheorems
  import opened CellInverse

  // ---- Cells ----

  predicate Keyed(env: Env, row: Row, id: int) { "Id" in row && row["Id"] == env.idCell(id) }

  /** Row i is the only one of the table with this key, and holds this value in this field. */
  predicate CellAt(env: Env, rows: seq<Row>, i: nat, id: int, field: string, value: Cell) {
    && i < |rows| && Keyed(env, rows[i], id) && field in rows[i] && rows[i][field] == value
    && forall j | 0 <= j < |rows| && j != i :: !Keyed(env, rows[j], id)
  }

  ghost predicate CellIs(env: Env, s: Snapshot, table: string, id: int, field: string, value: Cell) {
    table in s.tables && exists i: nat :: CellAt(env, s.tables[table], i, id, field, value)
  }

  /** The change declares this field of this row. */
  predicate Names(env: Env, c: Change, table: string, row: Row, field: string) {
    c.table == table && c.field == field && Keyed(env, row, c.id)
  }

  ghost predicate Named(env: Env, changes: seq<Change>, table: string, row: Row, field: string) {
    exists k :: 0 <= k < |changes| && Names(env, changes[k], table, row, field)
  }

  /** The same columns, and every field not declared holds the same value. */
  ghost predicate SameButFor(env: Env, changes: seq<Change>, table: string, x: Row, y: Row) {
    x.Keys == y.Keys && forall f | f in x && x[f] != y[f] :: Named(env, changes, table, x, f)
  }

  ghost predicate RowsSameButFor(env: Env, changes: seq<Change>, table: string, xs: seq<Row>, ys: seq<Row>) {
    |xs| == |ys| && forall i | 0 <= i < |xs| :: SameButFor(env, changes, table, xs[i], ys[i])
  }

  /** Row for row `z` is `before` outside the declared cells, and `after` is `z` in another order. */
  ghost predicate OnlyThese(env: Env, changes: seq<Change>, before: Snapshot, z: Snapshot, after: Snapshot) {
    && before.schema == z.schema == after.schema && before.tables.Keys == z.tables.Keys == after.tables.Keys
    && (forall t | t in before.tables :: RowsSameButFor(env, changes, t, before.tables[t], z.tables[t]))
    && (forall t | t in before.tables :: multiset(z.tables[t]) == multiset(after.tables[t]))
  }

  predicate Ordered(env: Env, rows: seq<Row>) { forall i, j | 0 <= i < j < |rows| :: env.le(rows[i], rows[j]) }

  /** Every declared cell holds its two values, nothing else changed, and the tables are in canonical order. */
  ghost predicate ExactDelta(env: Env, before: Snapshot, after: Snapshot, changes: seq<Change>) {
    && (forall k | 0 <= k < |changes| ::
          && CellIs(env, before, changes[k].table, changes[k].id, changes[k].field, changes[k].before)
          && CellIs(env, after, changes[k].table, changes[k].id, changes[k].field, changes[k].after))
    && (exists z :: OnlyThese(env, changes, before, z, after))
    && (forall t | t in after.tables :: Ordered(env, after.tables[t]))
  }

  /** Declared cells are different cells, and none is a key. */
  ghost predicate Separate(changes: seq<Change>) {
    && (forall k | 0 <= k < |changes| :: changes[k].field != "Id")
    && forall k, l | 0 <= k < l < |changes| ::
         (changes[k].table, changes[k].id, changes[k].field) != (changes[l].table, changes[l].id, changes[l].field)
  }

  lemma CellIsExactly(env: Env, s: Snapshot, table: string, id: int, field: string, value: Cell)
    ensures CellIs(env, s, table, id, field, value) <==> HasCell(env, s, table, id, field, value)
  {
    if CellIs(env, s, table, id, field, value) {
      var i: nat :| CellAt(env, s.tables[table], i, id, field, value);
      assert Single(env, s.tables[table], id, i);
    }
    if HasCell(env, s, table, id, field, value) {
      assert CellAt(env, s.tables[table], Find(env, s.tables[table], id).value, id, field, value);
    }
  }

  lemma NamedIsDeclared(env: Env, changes: seq<Change>, table: string, row: Row, field: string)
    ensures Named(env, changes, table, row, field) <==> Declared(env, changes, table, row, field)
  {
    if Declared(env, changes, table, row, field) {
      var k :| 0 <= k < |changes| && changes[k].table == table && HasId(env, row, changes[k].id)
        && changes[k].field == field;
      assert Names(env, changes[k], table, row, field);
    }
  }

  lemma {:induction false} OrderedIsSorted(env: Env, rows: seq<Row>)
    requires TotalOrder(env.le)
    ensures Ordered(env, rows) <==> Sorted(env, rows)
  {
    if rows != [] {
      var rest := rows[1..];
      OrderedIsSorted(env, rest);
      assert forall j | 0 <= j < |rest| :: rest[j] == rows[j + 1];
      if Ordered(env, rows) {
        forall r | r in rest ensures env.le(rows[0], r) {
          var j :| 0 <= j < |rest| && rest[j] == r;
          assert rows[j + 1] == r;
        }
      }
      if Sorted(env, rows) {
        forall i, j | 0 <= i < j < |rows| ensures env.le(rows[i], rows[j]) {
          assert rows[j] == rest[j - 1];
          if i > 0 { assert rows[i] == rest[i - 1]; }
        }
      }
    }
  }

  lemma SortedExactly(env: Env, w: Snapshot, after: Snapshot)
    requires TotalOrder(env.le)
    ensures SortAll(env, w) == after <==>
              Same(w, after) && forall t | t in after.tables :: Ordered(env, after.tables[t])
  {
    hide TotalOrder, Ordered, Sorted, SortRows;
    forall t | t in w.tables
      ensures multiset(SortRows(env, w.tables[t])) == multiset(w.tables[t]) && Sorted(env, SortRows(env, w.tables[t]))
    {
      SortSorts(env, w.tables[t]);
    }
    forall t | t in after.tables
      ensures Ordered(env, after.tables[t]) <==> Sorted(env, after.tables[t])
    {
      OrderedIsSorted(env, after.tables[t]);
    }
    if Same(w, after) && forall t | t in after.tables :: Ordered(env, after.tables[t]) {
      forall t | t in w.tables
        ensures SortRows(env, w.tables[t]) == after.tables[t]
      {
        SortedIsUnique(env, SortRows(env, w.tables[t]), after.tables[t]);
      }
      assert SortAll(env, w).tables == after.tables;
    }
  }

  // ---- A passing delta ----

  lemma RowSameExactly(env: Env, changes: seq<Change>, table: string, x: Row, y: Row)
    requires NoKeyChange(changes)
    ensures SameButFor(env, changes, table, x, y) <==> RowDiffers(env, changes, table, x, y)
  {
    forall f ensures Named(env, changes, table, x, f) <==> Declared(env, changes, table, x, f) {
      NamedIsDeclared(env, changes, table, x, f);
    }
    hide Named;
  }

  lemma OnlyTheseExactly(env: Env, changes: seq<Change>, before: Snapshot, z: Snapshot, after: Snapshot)
    requires NoKeyChange(changes)
    ensures OnlyThese(env, changes, before, z, after) <==> OnlyDeclared(env, changes, before, z) && Same(z, after)
  {
    forall t, i | t in before.tables && t in z.tables && 0 <= i < |before.tables[t]|
        && |before.tables[t]| == |z.tables[t]|
      ensures SameButFor(env, changes, t, before.tables[t][i], z.tables[t][i])
              <==> RowDiffers(env, changes, t, before.tables[t][i], z.tables[t][i])
    {
      RowSameExactly(env, changes, t, before.tables[t][i], z.tables[t][i]);
    }
    hide SameButFor, RowDiffers;
    forall t | t in before.tables && t in z.tables
      ensures RowsSameButFor(env, changes, t, before.tables[t], z.tables[t])
              <==> RowsDiffer(env, changes, t, before.tables[t], z.tables[t])
    {
    }
    hide RowsSameButFor, RowsDiffer;
  }

  lemma SeparateExactly(changes: seq<Change>)
    ensures Separate(changes) <==> NoKeyChange(changes) && DistinctCells(changes)
  {
  }

  lemma DeltaMeans(env: Env, before: Snapshot, after: Snapshot, changes: seq<Change>)
    requires Sound(env) && Separate(changes) && Delta(env, before, after, changes)
    ensures ExactDelta(env, before, after, changes)
  {
    SeparateExactly(changes);
    var z := ApplyAll(env, before, changes).value;
    ApplyIsDeclared(env, before, changes);
    SortedExactly(env, z, after);
    OnlyTheseExactly(env, changes, before, z, after);
    hide OnlyThese, Ordered, Same, OnlyDeclared, CellIs, HasCell, Find, DistinctCells, NoKeyChange;
    forall k | 0 <= k < |changes|
      ensures CellIs(env, before, changes[k].table, changes[k].id, changes[k].field, changes[k].before)
      ensures CellIs(env, after, changes[k].table, changes[k].id, changes[k].field, changes[k].after)
    {
      var c := changes[k];
      CellsAtBothEnds(env, before, changes, k);
      SameCell(env, z, after, c.table, c.id, c.field, c.after);
      CellIsExactly(env, before, c.table, c.id, c.field, c.before);
      CellIsExactly(env, after, c.table, c.id, c.field, c.after);
    }
  }

  // ---- An exact change passes ----

  /** A cell none of these changes declares keeps its value when they are applied. */
  lemma UndeclaredStays(env: Env, s: Snapshot, less: seq<Change>, c: Change)
    requires Sound(env) && ApplyAll(env, s, less).Some? && NoKeyChange(less + [c]) && DistinctCells(less + [c])
    requires HasCell(env, s, c.table, c.id, c.field, c.before)
    ensures Applies(env, ApplyAll(env, s, less).value, c)
  {
    var t := ApplyAll(env, s, less).value;
    assert forall i | 0 <= i < |less| :: less[i] == (less + [c])[i];
    assert (less + [c])[|less|] == c;
    ApplyIsDeclared(env, s, less);
    SameKeysSameFind(env, less, c.table, s.tables[c.table], t.tables[c.table], c.id);
    var p := Find(env, s.tables[c.table], c.id).value;
    assert RowDiffers(env, less, c.table, s.tables[c.table][p], t.tables[c.table][p]);
    assert !Declared(env, less, c.table, s.tables[c.table][p], c.field);
  }

  lemma {:induction false} ApplySucceeds(env: Env, s: Snapshot, changes: seq<Change>)
    requires Sound(env) && NoKeyChange(changes) && DistinctCells(changes)
    requires forall k | 0 <= k < |changes| ::
               HasCell(env, s, changes[k].table, changes[k].id, changes[k].field, changes[k].before)
    ensures ApplyAll(env, s, changes).Some?
    decreases |changes|
  {
    if changes != [] {
      var less, c := changes[..|changes| - 1], changes[|changes| - 1];
      assert changes == less + [c];
      assert forall k | 0 <= k < |less| :: less[k] == changes[k];
      ApplySucceeds(env, s, less);
      hide HasCell, Sound, Applies;
      UndeclaredStays(env, s, less, c);
    }
  }

  /** A declared cell of a row is at the row's own place, whatever else changed. */
  lemma CellInRow(env: Env, changes: seq<Change>, a: Snapshot, b: Snapshot, c: Change, i: nat)
    requires OnlyDeclared(env, changes, a, b) && c.table in a.tables && i < |a.tables[c.table]|
    requires HasId(env, a.tables[c.table][i], c.id) && HasCell(env, a, c.table, c.id, c.field, c.before)
    requires HasCell(env, b, c.table, c.id, c.field, c.after)
    ensures i < |b.tables[c.table]| && c.field in b.tables[c.table][i] && b.tables[c.table][i][c.field] == c.after
  {
    var rows := a.tables[c.table];
    SameKeysSameFind(env, changes, c.table, rows, b.tables[c.table], c.id);
    assert Single(env, rows, c.id, Find(env, rows, c.id).value);
  }

  lemma SameRows(env: Env, changes: seq<Change>, before: Snapshot, w: Snapshot, z: Snapshot, t: string, i: nat)
    requires OnlyDeclared(env, changes, before, w) && OnlyDeclared(env, changes, before, z)
    requires forall k | 0 <= k < |changes| ::
               && HasCell(env, before, changes[k].table, changes[k].id, changes[k].field, changes[k].before)
               && HasCell(env, w, changes[k].table, changes[k].id, changes[k].field, changes[k].after)
               && HasCell(env, z, changes[k].table, changes[k].id, changes[k].field, changes[k].after)
    requires t in before.tables && i < |before.tables[t]|
    ensures i < |w.tables[t]| && i < |z.tables[t]| && w.tables[t][i] == z.tables[t][i]
  {
    assert RowsDiffer(env, changes, t, before.tables[t], w.tables[t]);
    assert RowsDiffer(env, changes, t, before.tables[t], z.tables[t]);
    var row, x, y := before.tables[t][i], w.tables[t][i], z.tables[t][i];
    assert RowDiffers(env, changes, t, row, x) && RowDiffers(env, changes, t, row, y);
    hide HasCell, OnlyDeclared, RowsDiffer;
    forall f | f in row
      ensures x[f] == y[f]
    {
      if Declared(env, changes, t, row, f) {
        var k :| 0 <= k < |changes| && changes[k].table == t && HasId(env, row, changes[k].id) && changes[k].field == f;
        CellInRow(env, changes, before, w, changes[k], i);
        CellInRow(env, changes, before, z, changes[k], i);
      }
    }
    assert x == y;
  }

  lemma SameSnapshots(env: Env, changes: seq<Change>, before: Snapshot, w: Snapshot, z: Snapshot)
    requires OnlyDeclared(env, changes, before, w) && OnlyDeclared(env, changes, before, z)
    requires forall k | 0 <= k < |changes| ::
               && HasCell(env, before, changes[k].table, changes[k].id, changes[k].field, changes[k].before)
               && HasCell(env, w, changes[k].table, changes[k].id, changes[k].field, changes[k].after)
               && HasCell(env, z, changes[k].table, changes[k].id, changes[k].field, changes[k].after)
    ensures w == z
  {
    forall t | t in before.tables
      ensures w.tables[t] == z.tables[t]
    {
      assert RowsDiffer(env, changes, t, before.tables[t], w.tables[t]);
      assert RowsDiffer(env, changes, t, before.tables[t], z.tables[t]);
      hide HasCell, OnlyDeclared, RowsDiffer;
      forall i | 0 <= i < |before.tables[t]| ensures w.tables[t][i] == z.tables[t][i] {
        SameRows(env, changes, before, w, z, t, i);
      }
    }
    assert w.tables == z.tables;
  }

  lemma ExactMeansDelta(env: Env, before: Snapshot, after: Snapshot, changes: seq<Change>)
    requires Sound(env) && Separate(changes) && ExactDelta(env, before, after, changes)
    ensures Delta(env, before, after, changes)
  {
    SeparateExactly(changes);
    var z :| OnlyThese(env, changes, before, z, after);
    OnlyTheseExactly(env, changes, before, z, after);
    hide OnlyThese, OnlyDeclared, CellIs, HasCell, Same, Ordered, DistinctCells, NoKeyChange, SortAll, Separate;
    SameSym(z, after);
    forall k | 0 <= k < |changes|
      ensures HasCell(env, before, changes[k].table, changes[k].id, changes[k].field, changes[k].before)
      ensures HasCell(env, z, changes[k].table, changes[k].id, changes[k].field, changes[k].after)
    {
      var c := changes[k];
      CellIsExactly(env, before, c.table, c.id, c.field, c.before);
      CellIsExactly(env, after, c.table, c.id, c.field, c.after);
      SameCell(env, after, z, c.table, c.id, c.field, c.after);
    }
    ApplySucceeds(env, before, changes);
    ApplyIsDeclared(env, before, changes);
    var w := ApplyAll(env, before, changes).value;
    forall k | 0 <= k < |changes|
      ensures HasCell(env, w, changes[k].table, changes[k].id, changes[k].field, changes[k].after)
    {
      CellsAtBothEnds(env, before, changes, k);
    }
    SameSnapshots(env, changes, before, w, z);
    SortedExactly(env, w, after);
  }

  /** The delta check passes exactly when every declared cell holds its before-value first and its after-value then, no
      other cell changed, and the tables are sorted. */
  lemma DeltaExactly(env: Env, before: Snapshot, after: Snapshot, changes: seq<Change>)
    requires Sound(env) && Separate(changes)
    ensures Delta(env, before, after, changes) <==> ExactDelta(env, before, after, changes)
  {
    if Delta(env, before, after, changes) { DeltaMeans(env, before, after, changes); }
    if ExactDelta(env, before, after, changes) { ExactMeansDelta(env, before, after, changes); }
  }

  // ---- The scan ----

  /** The colour grammar: no colour, or six upper-case hexadecimal digits. */
  ghost predicate Colour(v: Cell) {
    || v == "null:"
    || exists digits: string ::
         |digits| == 6 && v == "text:#" + digits && forall c | c in digits :: c in "0123456789ABCDEF"
  }

  /** What the scanner may write into an allowed cell: a clock reading, a colour or the reviewed value, and except for a
      colour something new. */
  ghost predicate Ruled(env: Env, a: Allowance, v: Cell) {
    && (!a.color ==> v != a.before)
    && (a.clock ==> env.clock(a.field, v) && (a.table == "Series" && a.field == "LastFolderScanned" ==> v != a.before))
    && (!a.clock && a.color ==> Colour(v))
    && (!a.clock && !a.color ==> a.after.Some? && v == a.after.value)
  }

  ghost predicate ScannedTo(env: Env, before: Snapshot, after: Snapshot, a: Allowance, v: Cell) {
    && CellIs(env, before, a.table, a.id, a.field, a.before)
    && CellIs(env, after, a.table, a.id, a.field, v) && Ruled(env, a, v)
  }

  ghost predicate Scanned(env: Env, before: Snapshot, after: Snapshot, a: Allowance) {
    exists v :: ScannedTo(env, before, after, a, v)
  }

  /** The cells the scanner may change. */
  function Allowed(allowances: seq<Allowance>): seq<Change> {
    seq(|allowances|, k requires 0 <= k < |allowances| =>
      Change(allowances[k].table, allowances[k].id, allowances[k].field, allowances[k].before, allowances[k].before))
  }

  /** Every allowed cell held its before-value and now holds what it may, and no other cell changed. */
  ghost predicate ApprovedScan(env: Env, before: Snapshot, after: Snapshot, allowances: seq<Allowance>) {
    && (forall k | 0 <= k < |allowances| :: Scanned(env, before, after, allowances[k]))
    && (exists z :: OnlyThese(env, Allowed(allowances), before, z, after))
    && (forall t | t in after.tables :: Ordered(env, after.tables[t]))
  }

  lemma {:induction false} ColourExactly(v: Cell)
    ensures IsColor(v) <==> Colour(v)
  {
    if v != "null:" {
      if IsColor(v) {
        var digits := v[6..];
        forall c | c in digits ensures c in "0123456789ABCDEF" {
          var i :| 0 <= i < 6 && digits[i] == c;
          assert v[i + 6] == c;
          HexDigit(c);
        }
        assert v == "text:#" + digits;
      }
      if Colour(v) {
        var digits: string :|
          |digits| == 6 && v == "text:#" + digits && forall c | c in digits :: c in "0123456789ABCDEF";
        forall i | 6 <= i < 12 ensures '0' <= v[i] <= '9' || 'A' <= v[i] <= 'F' {
          assert v[i] == digits[i - 6] && digits[i - 6] in digits;
          HexDigit(v[i]);
        }
        assert v[..6] == "text:#";
      }
    }
  }

  lemma HexDigit(c: char)
    ensures '0' <= c <= '9' || 'A' <= c <= 'F' <==> c in "0123456789ABCDEF"
  {
    var digits := "0123456789ABCDEF";
    if '0' <= c <= '9' { assert digits[c as int - 48] == c; }
    if 'A' <= c <= 'F' { assert digits[c as int - 55] == c; }
  }

  lemma RuledExactly(env: Env, a: Allowance, v: Cell)
    ensures Meets(env, a, v) <==> Ruled(env, a, v)
  {
    ColourExactly(v);
    hide IsColor, Colour;
  }

  /** A cell has one value. */
  lemma OneValue(env: Env, s: Snapshot, table: string, id: int, field: string, v: Cell, w: Cell)
    requires CellIs(env, s, table, id, field, v) && CellIs(env, s, table, id, field, w)
    ensures v == w
  {
    CellIsExactly(env, s, table, id, field, v);
    CellIsExactly(env, s, table, id, field, w);
  }

  lemma ScanCellExactly(env: Env, before: Snapshot, after: Snapshot, a: Allowance)
    ensures ScanCell(env, before, after, a) <==> Scanned(env, before, after, a)
    ensures ScanCell(env, before, after, a) ==>
              ScannedTo(env, before, after, a, RowAt(env, after, a.table, a.id)[a.field])
  {
    CellIsExactly(env, before, a.table, a.id, a.field, a.before);
    hide CellIs, Find, Ruled, Meets;
    if ScanCell(env, before, after, a) {
      var v := RowAt(env, after, a.table, a.id)[a.field];
      CellIsExactly(env, after, a.table, a.id, a.field, v);
      RuledExactly(env, a, v);
      assert ScannedTo(env, before, after, a, v);
    }
    if v :| ScannedTo(env, before, after, a, v) {
      CellIsExactly(env, after, a.table, a.id, a.field, v);
      RuledExactly(env, a, v);
    }
  }

  /** Which cells are declared does not depend on the values declared for them. */
  lemma SameCellsSameRows(env: Env, xs: seq<Change>, ys: seq<Change>, before: Snapshot, z: Snapshot, after: Snapshot)
    requires |xs| == |ys|
    requires forall k | 0 <= k < |xs| :: (xs[k].table, xs[k].id, xs[k].field) == (ys[k].table, ys[k].id, ys[k].field)
    requires OnlyThese(env, xs, before, z, after)
    ensures OnlyThese(env, ys, before, z, after)
  {
    forall t | t in before.tables
      ensures RowsSameButFor(env, ys, t, before.tables[t], z.tables[t])
    {
      forall i | 0 <= i < |before.tables[t]|
        ensures SameButFor(env, ys, t, before.tables[t][i], z.tables[t][i])
      {
        var x, y := before.tables[t][i], z.tables[t][i];
        assert SameButFor(env, xs, t, x, y);
        forall f | f in x && x[f] != y[f]
          ensures Named(env, ys, t, x, f)
        {
          var k :| 0 <= k < |xs| && Names(env, xs[k], t, x, f);
          assert Names(env, ys[k], t, x, f);
        }
      }
    }
  }

  /** The scan check passes exactly for an approved scan. */
  lemma ScanExactly(env: Env, before: Snapshot, after: Snapshot, allowances: seq<Allowance>)
    requires Sound(env) && Separate(Allowed(allowances))
    ensures ScanDelta(env, before, after, allowances) <==> ApprovedScan(env, before, after, allowances)
  {
    hide Find, CellIs, ScanCell, Scanned, Delta, OnlyThese, Ordered, Sound;
    forall k | 0 <= k < |allowances|
      ensures ScanCell(env, before, after, allowances[k]) <==> Scanned(env, before, after, allowances[k])
    {
      ScanCellExactly(env, before, after, allowances[k]);
    }
    if ScanDelta(env, before, after, allowances) {
      assert forall k | 0 <= k < |allowances| :: Allowed(allowances)[k].field == allowances[k].field;
      ScanMeans(env, before, after, allowances);
    }
    if ApprovedScan(env, before, after, allowances) { ApprovedPasses(env, before, after, allowances); }
  }

  /** Whatever the scan was allowed to change, nothing else changed, and the tables are in canonical order. */
  lemma ScanMeans(env: Env, before: Snapshot, after: Snapshot, allowances: seq<Allowance>)
    requires Sound(env) && ScanDelta(env, before, after, allowances)
    requires forall k | 0 <= k < |allowances| :: allowances[k].field != "Id"
    ensures exists z :: OnlyThese(env, Allowed(allowances), before, z, after)
    ensures forall t | t in after.tables :: Ordered(env, after.tables[t])
  {
    var changes := ScanChanges(env, after, allowances);
    assert NoKeyChange(changes);
    var z := ApplyAll(env, before, changes).value;
    hide Find, CellIs, ScanDelta, OnlyThese, Ordered, Same, OnlyDeclared;
    ApplyIsDeclared(env, before, changes);
    SortedExactly(env, z, after);
    OnlyTheseExactly(env, changes, before, z, after);
    SameCellsSameRows(env, changes, Allowed(allowances), before, z, after);
  }

  lemma SeparateByCell(xs: seq<Change>, ys: seq<Change>)
    requires |xs| == |ys| && Separate(xs)
    requires forall k | 0 <= k < |xs| :: (xs[k].table, xs[k].id, xs[k].field) == (ys[k].table, ys[k].id, ys[k].field)
    ensures Separate(ys)
  {
    forall k, l | 0 <= k < l < |ys|
      ensures (ys[k].table, ys[k].id, ys[k].field) != (ys[l].table, ys[l].id, ys[l].field)
    {
      assert (xs[k].table, xs[k].id, xs[k].field) != (xs[l].table, xs[l].id, xs[l].field);
    }
  }

  lemma ApprovedPasses(env: Env, before: Snapshot, after: Snapshot, allowances: seq<Allowance>)
    requires Sound(env) && Separate(Allowed(allowances)) && ApprovedScan(env, before, after, allowances)
    ensures ScanDelta(env, before, after, allowances)
  {
    hide Find, CellIs, Delta, Ordered, Sound, Ruled, Meets;
    forall k | 0 <= k < |allowances|
      ensures ScanCell(env, before, after, allowances[k])
      ensures ScannedTo(env, before, after, allowances[k],
                        RowAt(env, after, allowances[k].table, allowances[k].id)[allowances[k].field])
    {
      ScanCellExactly(env, before, after, allowances[k]);
    }
    hide ScanCell;
    var z :| OnlyThese(env, Allowed(allowances), before, z, after);
    var changes := ScanChanges(env, after, allowances);
    SameCellsSameRows(env, Allowed(allowances), changes, before, z, after);
    SeparateByCell(Allowed(allowances), changes);
    assert after.schema == before.schema;
    hide OnlyThese;
    DeltaExactly(env, before, after, changes);
  }

  /** Cell by cell: after a passing scan a fixed cell holds its reviewed value, a colour cell a colour, a clock cell an
      accepted reading, and each one that is not a colour holds something new. */
  lemma ScannedCells(env: Env, before: Snapshot, after: Snapshot, allowances: seq<Allowance>, k: nat)
    requires ScanDelta(env, before, after, allowances) && k < |allowances|
    ensures var a := allowances[k];
            && CellIs(env, before, a.table, a.id, a.field, a.before)
            && (!a.clock && !a.color ==> a.after.Some? && CellIs(env, after, a.table, a.id, a.field, a.after.value))
            && exists v :: CellIs(env, after, a.table, a.id, a.field, v)
                           && (!a.color ==> v != a.before)
                           && (a.clock ==> env.clock(a.field, v))
                           && (!a.clock && a.color ==> Colour(v))
  {
    ScanCellExactly(env, before, after, allowances[k]);
    hide CellIs, Colour, ScanCell, Delta;
    var v :| ScannedTo(env, before, after, allowances[k], v);
  }

  /** And every other cell is as it was. */
  lemma OtherCellsStay(env: Env, before: Snapshot, after: Snapshot, allowances: seq<Allowance>, table: string, id: int,
      field: string, v: Cell)
    requires Sound(env) && ScanDelta(env, before, after, allowances)
    requires forall k | 0 <= k < |allowances| :: allowances[k].field != "Id"
    requires forall k | 0 <= k < |allowances| ::
               (allowances[k].table, allowances[k].id, allowances[k].field) != (table, id, field)
    ensures before.schema == after.schema
    ensures CellIs(env, before, table, id, field, v) <==> CellIs(env, after, table, id, field, v)
  {
    ScanMeans(env, before, after, allowances);
    var changes := Allowed(allowances);
    var z :| OnlyThese(env, changes, before, z, after);
    assert NoKeyChange(changes);
    OnlyTheseExactly(env, changes, before, z, after);
    CellIsExactly(env, before, table, id, field, v);
    CellIsExactly(env, after, table, id, field, v);
    hide OnlyThese, CellIs, ScanDelta, Same;
    SameRow(env, z, after, table, id);
    assert table in before.tables <==> table in z.tables;
    if table in before.tables { StaysInRow(env, changes, before, z, table, id, field); }
  }

  lemma StaysInRow(env: Env, changes: seq<Change>, a: Snapshot, b: Snapshot, table: string, id: int, field: string)
    requires Sound(env) && OnlyDeclared(env, changes, a, b) && table in a.tables
    requires forall k | 0 <= k < |changes| :: (changes[k].table, changes[k].id, changes[k].field) != (table, id, field)
    ensures Known(env, a, table, id) <==> Known(env, b, table, id)
    ensures Known(env, a, table, id) ==>
              var x, y := RowAt(env, a, table, id), RowAt(env, b, table, id);
              x.Keys == y.Keys && (field in x ==> x[field] == y[field])
  {
    SameKeysSameFind(env, changes, table, a.tables[table], b.tables[table], id);
    if Known(env, a, table, id) {
      var p := Find(env, a.tables[table], id).value;
      assert RowDiffers(env, changes, table, a.tables[table][p], b.tables[table][p]);
      assert !Declared(env, changes, table, a.tables[table][p], field);
    }
  }

  // ---- The inverse ----

  /** The rows the cells to restore are in. */
  function RowsOf(refs: seq<CellRef>): set<(string, int)> { set i | 0 <= i < |refs| :: (refs[i].table, refs[i].id) }

  lemma {:induction false} GroupCount(groups: seq<(string, int)>)
    requires DistinctGroups(groups)
    ensures |set i | 0 <= i < |groups| :: groups[i]| == |groups|
  {
    if groups != [] {
      var less := groups[..|groups| - 1];
      GroupCount(less);
      assert (set i | 0 <= i < |groups| :: groups[i]) == (set i | 0 <= i < |less| :: less[i]) + {groups[|groups| - 1]};
    }
  }

  /** The restoration is exact when it names thirty-two different cells in five rows. */
  lemma RestorationExactly(refs: seq<CellRef>)
    ensures ExactRestoration(refs) <==>
            |refs| == 32 && (forall i, j | 0 <= i < j < |refs| :: refs[i] != refs[j]) && |RowsOf(refs)| == 5
  {
    GroupsCover(refs);
    var groups := Groups(refs);
    GroupCount(groups);
    var named := set i | 0 <= i < |groups| :: groups[i];
    forall g | g in RowsOf(refs) ensures g in named {
      var i :| 0 <= i < |refs| && (refs[i].table, refs[i].id) == g;
      assert g in groups;
    }
    forall g | g in named ensures g in RowsOf(refs) {
      assert g in groups;
      var i :| 0 <= i < |refs| && (refs[i].table, refs[i].id) == g;
    }
    assert named == RowsOf(refs);
  }

  /** Two databases compare as equal exactly when their tables hold the same rows in any order. */
  lemma ComparesExactly(env: Env, after: Snapshot, database: Snapshot)
    requires Sound(env)
    ensures Delta(env, after, SortAll(env, database), []) <==>
            after.schema == database.schema && after.tables.Keys == database.tables.Keys
            && forall t | t in after.tables :: multiset(after.tables[t]) == multiset(database.tables[t])
  {
    assert ApplyAll(env, after, []) == Some(after);
    SortedComparison(env, after, database);
  }

  /** The inverse is refused only for an undeclared difference, an allowance the scan broke, a restoration that is not
      the exact one, a database that is not the scanned one, or a quoted column name in a row to restore. */
  lemma InvertsExactly(env: Env, p: Packet, original: Snapshot, before: Snapshot, after: Snapshot, database: Snapshot)
    requires Sound(env) && Separate(p.catalog) && Separate(Allowed(p.allowances))
    ensures Invertible(env, p, original, before, after, database) <==>
            && ExactDelta(env, original, before, p.catalog) && ApprovedScan(env, before, after, p.allowances)
            && |p.catalog| + |p.allowances| == 32
            && (forall i, j | 0 <= i < j < |Refs(p)| :: Refs(p)[i] != Refs(p)[j]) && |RowsOf(Refs(p))| == 5
            && after.schema == database.schema && after.tables.Keys == database.tables.Keys
            && forall t | t in after.tables :: multiset(after.tables[t]) == multiset(database.tables[t])
  {
    DeltaExactly(env, original, before, p.catalog);
    ScanExactly(env, before, after, p.allowances);
    RestorationExactly(Refs(p));
    ComparesExactly(env, after, database);
    hide Delta, ExactDelta, ScanDelta, ApprovedScan, ExactRestoration, RowsOf, SortAll;
  }

  /** No column of the row to restore has a double quote in its name. */
  predicate Unquoted(env: Env, after: Snapshot, r: CellRef)
    requires Known(env, after, r.table, r.id)
  {
    forall name | name in RowAt(env, after, r.table, r.id) :: '"' !in name
  }

  lemma {:induction false} QuotesExactly(env: Env, after: Snapshot, refs: seq<CellRef>)
    requires forall i | 0 <= i < |refs| :: Known(env, after, refs[i].table, refs[i].id)
    ensures QuoteFree(env, after, Groups(refs)) <==> forall i | 0 <= i < |refs| :: Unquoted(env, after, refs[i])
  {
    GroupsCover(refs);
    var groups := Groups(refs);
    if QuoteFree(env, after, groups) {
      forall i | 0 <= i < |refs| ensures Unquoted(env, after, refs[i]) {
        var g :| 0 <= g < |groups| && groups[g] == (refs[i].table, refs[i].id);
        assert PlainColumns(RowAt(env, after, groups[g].0, groups[g].1));
      }
    }
    if forall i | 0 <= i < |refs| :: Unquoted(env, after, refs[i]) {
      forall g | 0 <= g < |groups| && Known(env, after, groups[g].0, groups[g].1)
        ensures PlainColumns(RowAt(env, after, groups[g].0, groups[g].1))
      {
        assert groups[g] in groups;
        var i :| 0 <= i < |refs| && (refs[i].table, refs[i].id) == groups[g];
        assert Unquoted(env, after, refs[i]);
      }
    }
  }
}
