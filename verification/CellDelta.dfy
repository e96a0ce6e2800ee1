/** Snapshots of a small database, the cell changes declared between them, and comparison after canonical sorting. */
module CellDelta {
  import opened Common

  type Cell = string
  type Row = map<string, Cell>
  const ID := "Id"

  datatype Snapshot = Snapshot(schema: string, tables: map<string, seq<Row>>)
  datatype Change = Change(table: string, id: int, field: string, before: Cell, after: Cell)

  /** How an integer key is written as a cell, and the order rows are sorted in (that of their JSON text). */
  datatype Env = Env(idCell: int -> Cell, le: (Row, Row) -> bool, clock: (string, Cell) -> bool)

  ghost predicate TotalOrder(le: (Row, Row) -> bool) {
    && (forall a, b :: le(a, b) || le(b, a))
    && (forall a, b | le(a, b) && le(b, a) :: a == b)
    && (forall a, b, c | le(a, b) && le(b, c) :: le(a, c))
  }

  /** The assumptions: different keys are different cells, and different rows have different JSON text. */
  ghost predicate Sound(env: Env) {
    TotalOrder(env.le) && forall a, b | env.idCell(a) == env.idCell(b) :: a == b
  }

  // ---- Rows by key ----

  predicate HasId(env: Env, row: Row, id: int) { ID in row && row[ID] == env.idCell(id) }

  /** Row `i` is the only one with this key. */
  predicate Single(env: Env, rows: seq<Row>, id: int, i: nat) {
    i < |rows| && HasId(env, rows[i], id) && forall j | 0 <= j < |rows| && j != i :: !HasId(env, rows[j], id)
  }

  /** Where the only row with this key is; None when there is none or more than one. */
  function Find(env: Env, rows: seq<Row>, id: int): (found: Option<nat>)
    ensures found.Some? ==> Single(env, rows, id, found.value)
    ensures forall i | 0 <= i < |rows| && Single(env, rows, id, i) :: found == Some(i)
  {
    if i: nat :| i < |rows| && Single(env, rows, id, i) then Some(i) else None
  }

  predicate Known(env: Env, s: Snapshot, table: string, id: int) {
    table in s.tables && Find(env, s.tables[table], id).Some?
  }

  function RowAt(env: Env, s: Snapshot, table: string, id: int): Row
    requires Known(env, s, table, id)
  {
    s.tables[table][Find(env, s.tables[table], id).value]
  }

  function PutRow(env: Env, s: Snapshot, table: string, id: int, row: Row): Snapshot
    requires Known(env, s, table, id)
  {
    s.(tables := s.tables[table := s.tables[table][Find(env, s.tables[table], id).value := row]])
  }

  // ---- Declared changes ----

  predicate Applies(env: Env, s: Snapshot, c: Change) {
    Known(env, s, c.table, c.id) && c.field in RowAt(env, s, c.table, c.id)
        && RowAt(env, s, c.table, c.id)[c.field] == c.before
  }

  function ApplyOne(env: Env, s: Snapshot, c: Change): Snapshot
    requires Applies(env, s, c)
  {
    PutRow(env, s, c.table, c.id, RowAt(env, s, c.table, c.id)[c.field := c.after])
  }

  function ApplyAll(env: Env, s: Snapshot, changes: seq<Change>): Option<Snapshot>
    decreases |changes|
  {
    if changes == [] then Some(s)
    else
      var so := ApplyAll(env, s, changes[..|changes| - 1]);
      if so.None? || !Applies(env, so.value, changes[|changes| - 1]) then None
      else Some(ApplyOne(env, so.value, changes[|changes| - 1]))
  }

  // ---- Canonical sorting ----

  function Insert(env: Env, row: Row, rows: seq<Row>): seq<Row> {
    if rows == [] || env.le(row, rows[0]) then [row] + rows else [rows[0]] + Insert(env, row, rows[1..])
  }

  function SortRows(env: Env, rows: seq<Row>): seq<Row> {
    if rows == [] then [] else Insert(env, rows[0], SortRows(env, rows[1..]))
  }

  function SortAll(env: Env, s: Snapshot): Snapshot {
    s.(tables := map t | t in s.tables :: SortRows(env, s.tables[t]))
  }

  predicate Sorted(env: Env, rows: seq<Row>) {
    rows == [] || ((forall r | r in rows[1..] :: env.le(rows[0], r)) && Sorted(env, rows[1..]))
  }

  /** Equal up to the order of rows within each table. */
  predicate Same(a: Snapshot, b: Snapshot) {
    && a.schema == b.schema && a.tables.Keys == b.tables.Keys
    && forall t | t in a.tables :: multiset(a.tables[t]) == multiset(b.tables[t])
  }

  /** `after` is the canonical form of `before` with exactly these cells changed. */
  predicate Delta(env: Env, before: Snapshot, after: Snapshot, changes: seq<Change>) {
    ApplyAll(env, before, changes).Some? && SortAll(env, ApplyAll(env, before, changes).value) == after
  }

  method RequireDelta(env: Env, before: Snapshot, after: Snapshot, changes: seq<Change>) returns (ok: bool)
    ensures ok <==> Delta(env, before, after, changes)
  {
    var expected := before;
    var i := 0;
    while i < |changes|
      invariant 0 <= i <= |changes| && ApplyAll(env, before, changes[..i]) == Some(expected)
    {
      assert changes[..i + 1][..i] == changes[..i];
      if !Applies(env, expected, changes[i]) {
        StaysRefused(env, before, changes, i + 1);
        return false;
      }
      expected := ApplyOne(env, expected, changes[i]);
      i := i + 1;
    }
    assert changes[..i] == changes;
    expected := Sort(env, expected);
    return expected == after;
  }

  method Sort(env: Env, value: Snapshot) returns (sorted: Snapshot)
    ensures sorted == SortAll(env, value)
  {
    var names := value.tables.Keys;
    sorted := value;
    while names != {}
      invariant names <= value.tables.Keys && sorted.schema == value.schema && sorted.tables.Keys == value.tables.Keys
      invariant forall t | t in value.tables ::
                  sorted.tables[t] == if t in names then value.tables[t] else SortRows(env, value.tables[t])
      decreases |names|
    {
      var name :| name in names;
      sorted := sorted.(tables := sorted.tables[name := SortRows(env, sorted.tables[name])]);
      names := names - {name};
    }
  }

  lemma {:induction false} StaysRefused(env: Env, s: Snapshot, changes: seq<Change>, i: nat)
    requires i <= |changes| && ApplyAll(env, s, changes[..i]).None?
    ensures ApplyAll(env, s, changes).None?
    decreases |changes|
  {
    if i < |changes| {
      assert changes[..|changes| - 1][..i] == changes[..i];
      StaysRefused(env, s, changes[..|changes| - 1], i);
    } else {
      assert changes[..i] == changes;
    }
  }

  // ---- Sorting forgets exactly the order ----

  lemma {:induction false} InsertSorts(env: Env, row: Row, rows: seq<Row>)
    requires TotalOrder(env.le) && Sorted(env, rows)
    ensures multiset(Insert(env, row, rows)) == multiset(rows) + multiset{row} && Sorted(env, Insert(env, row, rows))
  {
    if rows == [] || env.le(row, rows[0]) {
      var out := [row] + rows;
      assert out[1..] == rows;
      forall r | r in rows
        ensures env.le(row, r)
      {
        if r != rows[0] { assert r in rows[1..]; }
      }
    } else {
      InsertSorts(env, row, rows[1..]);
      var rest := Insert(env, row, rows[1..]);
      var out := [rows[0]] + rest;
      assert out[1..] == rest && rows == [rows[0]] + rows[1..];
      forall r | r in rest
        ensures env.le(rows[0], r)
      {
        assert r in multiset(rest);
        assert r == row || r in multiset(rows[1..]);
      }
    }
  }

  lemma {:induction false} SortSorts(env: Env, rows: seq<Row>)
    requires TotalOrder(env.le)
    ensures multiset(SortRows(env, rows)) == multiset(rows) && Sorted(env, SortRows(env, rows))
  {
    if rows != [] {
      SortSorts(env, rows[1..]);
      InsertSorts(env, rows[0], SortRows(env, rows[1..]));
      assert rows == [rows[0]] + rows[1..];
    }
  }

  lemma LeastFirst(env: Env, rows: seq<Row>, x: Row)
    requires TotalOrder(env.le) && Sorted(env, rows) && x in rows
    ensures env.le(rows[0], x)
  {
    if x != rows[0] { assert x in rows[1..]; }
  }

  lemma HeadsAgree(env: Env, a: seq<Row>, b: seq<Row>)
    requires TotalOrder(env.le) && Sorted(env, a) && Sorted(env, b) && multiset(a) == multiset(b) && a != []
    ensures b != [] && a[0] == b[0]
  {
    assert a[0] in multiset(a);
    assert a[0] in b;
    assert b[0] in multiset(b);
    assert b[0] in a;
    LeastFirst(env, a, b[0]);
    LeastFirst(env, b, a[0]);
  }

  lemma TailsAgree(a: seq<Row>, b: seq<Row>)
    requires a != [] && b != [] && a[0] == b[0] && multiset(a) == multiset(b)
    ensures multiset(a[1..]) == multiset(b[1..])
  {
    assert a == [a[0]] + a[1..] && b == [b[0]] + b[1..];
    assert multiset(a[1..]) == multiset(a) - multiset{a[0]};
    assert multiset(b[1..]) == multiset(b) - multiset{b[0]};
  }

  lemma {:induction false} SortedIsUnique(env: Env, a: seq<Row>, b: seq<Row>)
    requires TotalOrder(env.le) && Sorted(env, a) && Sorted(env, b) && multiset(a) == multiset(b)
    ensures a == b
  {
    if a == [] {
      assert |multiset(b)| == 0;
    } else {
      HeadsAgree(env, a, b);
      TailsAgree(a, b);
      hide TotalOrder;
      SortedIsUnique(env, a[1..], b[1..]);
      assert a == [a[0]] + a[1..] && b == [b[0]] + b[1..];
    }
  }

  lemma SortIsCanonical(env: Env, a: seq<Row>, b: seq<Row>)
    requires TotalOrder(env.le)
    ensures SortRows(env, a) == SortRows(env, b) <==> multiset(a) == multiset(b)
  {
    SortSorts(env, a);
    SortSorts(env, b);
    if multiset(a) == multiset(b) { SortedIsUnique(env, SortRows(env, a), SortRows(env, b)); }
  }

  lemma CanonicalIsSame(env: Env, s: Snapshot)
    requires TotalOrder(env.le)
    ensures Same(SortAll(env, s), s)
  {
    forall t | t in s.tables
      ensures multiset(SortRows(env, s.tables[t])) == multiset(s.tables[t])
    {
      SortSorts(env, s.tables[t]);
    }
  }

  /** Comparing sorted snapshots is comparing their tables as multisets of rows. */
  lemma SortedComparison(env: Env, a: Snapshot, b: Snapshot)
    requires TotalOrder(env.le)
    ensures SortAll(env, a) == SortAll(env, b) <==> Same(a, b)
  {
    CanonicalIsSame(env, a);
    CanonicalIsSame(env, b);
    if Same(a, b) {
      forall t | t in a.tables
        ensures SortRows(env, a.tables[t]) == SortRows(env, b.tables[t])
      {
        SortIsCanonical(env, a.tables[t], b.tables[t]);
      }
      hide TotalOrder, Sorted, SortRows;
      assert SortAll(env, a).tables == SortAll(env, b).tables;
    }
  }
}
