/** Deltas do not depend on row order, compose, and touch nothing they do not declare. */
module CellDeltaTheorems {
  import opened CellDelta

  // ---- Row order does not matter ----

  lemma OneOccurrence(env: Env, rows: seq<Row>, id: int, i: nat)
    requires Single(env, rows, id, i)
    ensures multiset(rows)[rows[i]] == 1
  {
    assert rows == rows[..i] + [rows[i]] + rows[i + 1..];
    assert rows[i] !in rows[..i] && rows[i] !in rows[i + 1..];
  }

  lemma TwoOccurrences(rows: seq<Row>, i: nat, j: nat)
    requires i < j < |rows| && rows[i] == rows[j]
    ensures multiset(rows)[rows[i]] >= 2
  {
    assert rows == rows[..j] + [rows[j]] + rows[j + 1..];
    assert rows[..j][i] == rows[i];
    assert rows[i] in multiset(rows[..j]);
  }

  lemma SameFindOneWay(env: Env, a: seq<Row>, b: seq<Row>, id: int)
    requires multiset(a) == multiset(b) && Find(env, a, id).Some?
    ensures Find(env, b, id).Some? && b[Find(env, b, id).value] == a[Find(env, a, id).value]
  {
    var i := Find(env, a, id).value;
    assert a[i] in multiset(b);
    var j: nat :| j < |b| && b[j] == a[i];
    OneOccurrence(env, a, id, i);
    forall k: nat | k < |b| && k != j
      ensures !HasId(env, b[k], id)
    {
      if HasId(env, b[k], id) {
        assert b[k] in multiset(a);
        var m :| 0 <= m < |a| && a[m] == b[k];
        assert m == i;
        TwoOccurrences(b, if j < k then j else k, if j < k then k else j);
        assert false;
      }
    }
    assert Single(env, b, id, j);
  }

  lemma SameFind(env: Env, a: seq<Row>, b: seq<Row>, id: int)
    requires multiset(a) == multiset(b)
    ensures Find(env, a, id).Some? <==> Find(env, b, id).Some?
    ensures Find(env, a, id).Some? ==> a[Find(env, a, id).value] == b[Find(env, b, id).value]
  {
    if Find(env, a, id).Some? { SameFindOneWay(env, a, b, id); }
    if Find(env, b, id).Some? { SameFindOneWay(env, b, a, id); }
  }

  lemma SameRow(env: Env, a: Snapshot, b: Snapshot, table: string, id: int)
    requires Same(a, b)
    ensures Known(env, a, table, id) <==> Known(env, b, table, id)
    ensures Known(env, a, table, id) ==> RowAt(env, a, table, id) == RowAt(env, b, table, id)
  {
    if table in a.tables { SameFind(env, a.tables[table], b.tables[table], id); }
  }

  lemma SamePut(env: Env, a: Snapshot, b: Snapshot, table: string, id: int, row: Row)
    requires Same(a, b) && Known(env, a, table, id) && Known(env, b, table, id)
    ensures Same(PutRow(env, a, table, id, row), PutRow(env, b, table, id, row))
  {
    SameRow(env, a, b, table, id);
  }

  lemma {:induction false} SameApply(env: Env, a: Snapshot, b: Snapshot, changes: seq<Change>)
    requires Same(a, b)
    ensures ApplyAll(env, a, changes).Some? <==> ApplyAll(env, b, changes).Some?
    ensures ApplyAll(env, a, changes).Some? ==> Same(ApplyAll(env, a, changes).value, ApplyAll(env, b, changes).value)
    decreases |changes|
  {
    if changes != [] {
      var c := changes[|changes| - 1];
      SameApply(env, a, b, changes[..|changes| - 1]);
      var x, y := ApplyAll(env, a, changes[..|changes| - 1]), ApplyAll(env, b, changes[..|changes| - 1]);
      hide Same, Find;
      if x.Some? {
        SameRow(env, x.value, y.value, c.table, c.id);
        if Applies(env, x.value, c) {
          SamePut(env, x.value, y.value, c.table, c.id, RowAt(env, x.value, c.table, c.id)[c.field := c.after]);
        }
      }
    }
  }

  lemma {:induction false} ApplyInTwo(env: Env, s: Snapshot, first: seq<Change>, second: seq<Change>)
    requires ApplyAll(env, s, first).Some?
    ensures ApplyAll(env, s, first + second) == ApplyAll(env, ApplyAll(env, s, first).value, second)
    decreases |second|
  {
    if second == [] {
      assert first + second == first;
    } else {
      assert (first + second)[..|first + second| - 1] == first + second[..|second| - 1];
      ApplyInTwo(env, s, first, second[..|second| - 1]);
    }
  }

  lemma SameSym(a: Snapshot, b: Snapshot)
    requires Same(a, b)
    ensures Same(b, a)
  {
  }

  /** Two declared steps in a row are one step declaring both. */
  lemma DeltasCompose(env: Env, original: Snapshot, before: Snapshot, after: Snapshot, first: seq<Change>,
      second: seq<Change>)
    requires TotalOrder(env.le) && Delta(env, original, before, first) && Delta(env, before, after, second)
    ensures Delta(env, original, after, first + second)
  {
    var x := ApplyAll(env, original, first).value;
    CanonicalIsSame(env, x);
    SameApply(env, before, x, second);
    ApplyInTwo(env, original, first, second);
    SortedComparison(env, ApplyAll(env, before, second).value, ApplyAll(env, x, second).value);
  }

  // ---- Only what is declared changes ----

  predicate NoKeyChange(changes: seq<Change>) { forall i | 0 <= i < |changes| :: changes[i].field != ID }

  ghost predicate Declared(env: Env, changes: seq<Change>, table: string, row: Row, field: string) {
    exists i :: 0 <= i < |changes| && changes[i].table == table && HasId(env, row, changes[i].id)
        && changes[i].field == field
  }

  /** The same table, row by row: same columns, same key, and every other difference declared. */
  ghost predicate RowsDiffer(env: Env, changes: seq<Change>, table: string, a: seq<Row>, b: seq<Row>) {
    |a| == |b| && forall i | 0 <= i < |a| :: RowDiffers(env, changes, table, a[i], b[i])
  }

  ghost predicate RowDiffers(env: Env, changes: seq<Change>, table: string, a: Row, b: Row) {
    && a.Keys == b.Keys && (ID in a ==> a[ID] == b[ID])
    && forall f | f in a && a[f] != b[f] :: Declared(env, changes, table, a, f)
  }

  ghost predicate OnlyDeclared(env: Env, changes: seq<Change>, a: Snapshot, b: Snapshot) {
    a.schema == b.schema && a.tables.Keys == b.tables.Keys
    && forall t | t in a.tables :: RowsDiffer(env, changes, t, a.tables[t], b.tables[t])
  }

  lemma DeclaredGrows(env: Env, changes: seq<Change>, c: Change, table: string, row: Row, field: string)
    requires Declared(env, changes, table, row, field)
    ensures Declared(env, changes + [c], table, row, field)
  {
    var i :| 0 <= i < |changes| && changes[i].table == table && HasId(env, row, changes[i].id)
        && changes[i].field == field;
    assert (changes + [c])[i] == changes[i];
  }

  lemma RowKeepsDiffering(env: Env, changes: seq<Change>, c: Change, table: string, a: Row, b: Row)
    requires RowDiffers(env, changes, table, a, b)
    ensures RowDiffers(env, changes + [c], table, a, b)
  {
    forall f | f in a && a[f] != b[f]
      ensures Declared(env, changes + [c], table, a, f)
    {
      DeclaredGrows(env, changes, c, table, a, f);
    }
  }

  lemma ChangedRowDiffers(env: Env, changes: seq<Change>, c: Change, a: Row, b: Row)
    requires RowDiffers(env, changes, c.table, a, b) && HasId(env, a, c.id) && c.field != ID && c.field in b
    ensures RowDiffers(env, changes + [c], c.table, a, b[c.field := c.after])
  {
    forall f | f in a && a[f] != b[c.field := c.after][f]
      ensures Declared(env, changes + [c], c.table, a, f)
    {
      if f == c.field {
        assert (changes + [c])[|changes|] == c;
      } else {
        DeclaredGrows(env, changes, c, c.table, a, f);
      }
    }
  }

  /** Applying a change does not move a row or change its key, so keys are found where they were. */
  lemma SameKeysSameFind(env: Env, changes: seq<Change>, table: string, a: seq<Row>, b: seq<Row>, id: int)
    requires RowsDiffer(env, changes, table, a, b)
    ensures Find(env, a, id) == Find(env, b, id)
  {
    forall i | 0 <= i < |a|
      ensures HasId(env, a[i], id) <==> HasId(env, b[i], id)
    {
      assert RowDiffers(env, changes, table, a[i], b[i]);
    }
    if Find(env, a, id).Some? { assert Single(env, b, id, Find(env, a, id).value); }
    if Find(env, b, id).Some? { assert Single(env, a, id, Find(env, b, id).value); }
  }

  lemma OneMoreDeclared(env: Env, changes: seq<Change>, c: Change, a: Snapshot, b: Snapshot)
    requires OnlyDeclared(env, changes, a, b) && Applies(env, b, c) && c.field != ID
    ensures OnlyDeclared(env, changes + [c], a, ApplyOne(env, b, c))
  {
    var d := ApplyOne(env, b, c);
    var p := Find(env, b.tables[c.table], c.id).value;
    SameKeysSameFind(env, changes, c.table, a.tables[c.table], b.tables[c.table], c.id);
    forall t | t in a.tables
      ensures RowsDiffer(env, changes + [c], t, a.tables[t], d.tables[t])
    {
      assert RowsDiffer(env, changes, t, a.tables[t], b.tables[t]);
      hide Find;
      forall i | 0 <= i < |a.tables[t]|
        ensures RowDiffers(env, changes + [c], t, a.tables[t][i], d.tables[t][i])
      {
        assert RowDiffers(env, changes, t, a.tables[t][i], b.tables[t][i]);
        if t == c.table && i == p { ChangedRowDiffers(env, changes, c, a.tables[t][i], b.tables[t][i]); }
        else { RowKeepsDiffering(env, changes, c, t, a.tables[t][i], b.tables[t][i]); }
      }
    }
  }

  lemma {:induction false} ApplyIsDeclared(env: Env, s: Snapshot, changes: seq<Change>)
    requires ApplyAll(env, s, changes).Some? && NoKeyChange(changes)
    ensures OnlyDeclared(env, changes, s, ApplyAll(env, s, changes).value)
    decreases |changes|
  {
    if changes == [] {
      forall t | t in s.tables ensures RowsDiffer(env, changes, t, s.tables[t], s.tables[t]) { }
    } else {
      var less, c := changes[..|changes| - 1], changes[|changes| - 1];
      assert forall i | 0 <= i < |less| :: less[i] == changes[i];
      ApplyIsDeclared(env, s, less);
      assert less + [c] == changes;
      OneMoreDeclared(env, less, c, s, ApplyAll(env, s, less).value);
    }
  }

  // ---- The two ends of a declared step ----

  predicate DistinctCells(changes: seq<Change>) {
    forall i, j | 0 <= i < j < |changes| ::
      changes[i].table != changes[j].table || changes[i].id != changes[j].id || changes[i].field != changes[j].field
  }

  predicate HasCell(env: Env, s: Snapshot, table: string, id: int, field: string, value: Cell) {
    Known(env, s, table, id) && field in RowAt(env, s, table, id) && RowAt(env, s, table, id)[field] == value
  }

  /** Writing one row under its own key changes that row and no other. */
  lemma PutThenRow(env: Env, s: Snapshot, table: string, id: int, row: Row, other: string, key: int)
    requires Known(env, s, table, id) && HasId(env, row, id) && (env.idCell(key) == env.idCell(id) ==> key == id)
    ensures Known(env, PutRow(env, s, table, id, row), other, key) <==> Known(env, s, other, key)
    ensures Known(env, s, other, key) ==>
              RowAt(env, PutRow(env, s, table, id, row), other, key)
              == if other == table && key == id then row else RowAt(env, s, other, key)
  {
    if other == table {
      var rows := s.tables[table];
      var p := Find(env, rows, id).value;
      var put := rows[p := row];
      forall i | 0 <= i < |rows|
        ensures HasId(env, put[i], key) <==> HasId(env, rows[i], key)
      {
      }
      if Find(env, rows, key).Some? { assert Single(env, put, key, Find(env, rows, key).value); }
      if Find(env, put, key).Some? { assert Single(env, rows, key, Find(env, put, key).value); }
    }
  }

  lemma LastCell(env: Env, s: Snapshot, less: seq<Change>, c: Change)
    requires Sound(env) && ApplyAll(env, s, less).Some? && Applies(env, ApplyAll(env, s, less).value, c)
    requires NoKeyChange(less + [c]) && DistinctCells(less + [c])
    ensures HasCell(env, s, c.table, c.id, c.field, c.before)
  {
    var t := ApplyAll(env, s, less).value;
    assert forall i | 0 <= i < |less| :: less[i] == (less + [c])[i];
    assert (less + [c])[|less|] == c;
    ApplyIsDeclared(env, s, less);
    SameKeysSameFind(env, less, c.table, s.tables[c.table], t.tables[c.table], c.id);
    var p := Find(env, t.tables[c.table], c.id).value;
    assert RowDiffers(env, less, c.table, s.tables[c.table][p], t.tables[c.table][p]);
    assert !Declared(env, less, c.table, s.tables[c.table][p], c.field);
  }

  lemma OneApplied(env: Env, s: Snapshot, c: Change, table: string, id: int, field: string, value: Cell)
    requires Sound(env) && Applies(env, s, c) && c.field != ID && HasCell(env, s, table, id, field, value)
    requires c.table != table || c.id != id || c.field != field
    ensures HasCell(env, ApplyOne(env, s, c), table, id, field, value)
    ensures HasCell(env, ApplyOne(env, s, c), c.table, c.id, c.field, c.after)
  {
    var row := RowAt(env, s, c.table, c.id)[c.field := c.after];
    PutThenRow(env, s, c.table, c.id, row, table, id);
    PutThenRow(env, s, c.table, c.id, row, c.table, c.id);
  }

  lemma AppliedCell(env: Env, s: Snapshot, c: Change)
    requires Sound(env) && Applies(env, s, c) && c.field != ID
    ensures HasCell(env, ApplyOne(env, s, c), c.table, c.id, c.field, c.after)
  {
    PutThenRow(env, s, c.table, c.id, RowAt(env, s, c.table, c.id)[c.field := c.after], c.table, c.id);
  }

  /** Over distinct cells every declared before-value is in the first snapshot and every after-value in the last. */
  lemma {:induction false} CellsAtBothEnds(env: Env, s: Snapshot, changes: seq<Change>, i: nat)
    requires Sound(env) && ApplyAll(env, s, changes).Some? && NoKeyChange(changes) && DistinctCells(changes)
             && i < |changes|
    ensures HasCell(env, s, changes[i].table, changes[i].id, changes[i].field, changes[i].before)
    ensures HasCell(env, ApplyAll(env, s, changes).value, changes[i].table, changes[i].id, changes[i].field,
            changes[i].after)
    decreases |changes|
  {
    var n := |changes| - 1;
    var less, c := changes[..n], changes[n];
    assert changes == less + [c];
    var t := ApplyAll(env, s, less).value;
    if i == n {
      LastCell(env, s, less, c);
      AppliedCell(env, t, c);
    } else {
      assert forall k | 0 <= k < n :: less[k] == changes[k];
      CellsAtBothEnds(env, s, less, i);
      hide HasCell, ApplyOne, Applies, Sound;
      OneApplied(env, t, c, less[i].table, less[i].id, less[i].field, less[i].after);
    }
  }

  lemma SameCell(env: Env, a: Snapshot, b: Snapshot, table: string, id: int, field: string, value: Cell)
    requires Same(a, b) && HasCell(env, a, table, id, field, value)
    ensures HasCell(env, b, table, id, field, value)
  {
    SameRow(env, a, b, table, id);
  }
}
