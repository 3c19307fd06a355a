/** What every run keeps about rows: where they came from, and that they stay. */
module Provenance {
  import opened Events
  import opened Protocol

  lemma {:induction false} RunExtends(s: State, steps: seq<Step>)
    requires Inv(s)
    ensures Extends(s.table, Run(s, steps).table)
  {
    if steps == [] {
    } else {
      var rest := steps[..|steps| - 1];
      RunExtends(s, rest);
      InvRun(s, rest);
      TableExtends(Run(s, rest), steps[|steps| - 1]);
    }
  }

  /** Once stored, a row is never lost and its fixed columns never change, at any later point of any run. */
  lemma RowsAreKept(width: nat, steps: seq<Step>, i: nat, j: nat)
    requires i <= j <= |steps|
    ensures Extends(After(width, steps[..i]).table, After(width, steps[..j]).table)
  {
    InvInit(width);
    InvRun(Init(width), steps[..i]);
    RunSplit(Init(width), steps[..j], i);
    assert steps[..j][..i] == steps[..i];
    RunExtends(Run(Init(width), steps[..i]), steps[..j][i..]);
  }

  /** The same, column by column. */
  lemma ColumnsAreKept(width: nat, steps: seq<Step>, i: nat, j: nat, id: string)
    requires i <= j <= |steps| && id in After(width, steps[..i]).table
    ensures id in After(width, steps[..j]).table
    ensures var row, row' := After(width, steps[..i]).table[id], After(width, steps[..j]).table[id];
            && row'.id == row.id && row'.typ == row.typ && row'.headers == row.headers && row'.payload == row.payload
            && row'.createdAt == row.createdAt && row'.repository == row.repository && row'.sender == row.sender
  {
    RowsAreKept(width, steps, i, j);
    assert After(width, steps[..i]).table[id].Fixed() == After(width, steps[..j]).table[id].Fixed();
  }

  /** Step k stored this row: a handler's insert took place and the id was new. */
  ghost predicate Stores(width: nat, steps: seq<Step>, k: nat, columns: FixedColumns) {
    && Fires(Init(width), steps, k)
    && steps[k].Receive?
    && columns.id !in After(width, steps[..k]).table
    && steps[k].event.Fixed() == columns
  }

  lemma StoresPrefix(width: nat, steps: seq<Step>, k: nat, columns: FixedColumns)
    requires steps != [] && k < |steps| - 1 && Stores(width, steps[..|steps| - 1], k, columns)
    ensures Stores(width, steps, k, columns)
  {
    assert steps[..|steps| - 1][..k] == steps[..k];
  }

  /** Only a handler's insert makes a row appear, and it makes the one it was given. */
  lemma NewRow(s: State, x: Step, id: string)
    requires id !in s.table && id in Next(s, x).table
    ensures Enabled(s, x) && x.Receive? && x.event.id == id && Next(s, x).table[id].Fixed() == x.event.Fixed()
  {
  }

  /** Every row of the table was stored by the handler's insert of exactly these columns. */
  lemma {:induction false} RowsHaveOrigin(width: nat, steps: seq<Step>, id: string)
    requires id in After(width, steps).table
    ensures exists k :: 0 <= k < |steps| && Stores(width, steps, k, After(width, steps).table[id].Fixed())
  {
    var rest, x := steps[..|steps| - 1], steps[|steps| - 1];
    var s := After(width, rest);
    var columns := After(width, steps).table[id].Fixed();
    if id in s.table {
      assert s.table[id].Fixed() == columns by {
        InvInit(width);
        InvRun(Init(width), rest);
        TableExtends(s, x);
      }
      RowsHaveOrigin(width, rest, id);
      var k :| 0 <= k < |rest| && Stores(width, rest, k, columns);
      StoresPrefix(width, steps, k, columns);
    } else {
      NewRow(s, x, id);
      assert Stores(width, steps, |rest|, columns);
    }
  }

  /**
   Whatever was sent to the target, in any interleaving, from a stale snapshot or after any
   number of replays: it is the payload and headers that some handler first stored under that id.
   */
  lemma SentAsStored(width: nat, steps: seq<Step>, i: nat)
    requires i < |After(width, steps).log|
    ensures exists k :: 0 <= k < |steps| && Stores(width, steps, k, After(width, steps).log[i].event.Fixed())
  {
    InvInit(width);
    InvRun(Init(width), steps);
    var e := After(width, steps).log[i].event;
    assert Agrees(After(width, steps).table, e);
    RowsHaveOrigin(width, steps, e.id);
  }

  /** An id has one origin: the columns it was stored with are unique over the whole run. */
  lemma OriginIsUnique(width: nat, steps: seq<Step>, j: nat, k: nat, a: FixedColumns, b: FixedColumns)
    requires Stores(width, steps, j, a) && Stores(width, steps, k, b) && a.id == b.id
    ensures j == k && a == b
  {
    if j < k {
      StoredAfter(width, steps, j, k, a);
    } else if k < j {
      StoredAfter(width, steps, k, j, b);
    }
  }

  lemma StoredAfter(width: nat, steps: seq<Step>, j: nat, k: nat, columns: FixedColumns)
    requires Stores(width, steps, j, columns) && j < k <= |steps|
    ensures columns.id in After(width, steps[..k]).table
  {
    assert steps[..j + 1][..j] == steps[..j];
    assert columns.id in After(width, steps[..j + 1]).table;
    RowsAreKept(width, steps, j + 1, k);
  }

  // ---- counting and listing as two statements ----

  /** Rows that match a query which ignores the forwarding state match it for ever. */
  lemma MatchesForEver(t: Table, t': Table, o: QueryOptions)
    requires Extends(t, t') && !o.onlyNonForwarded
    ensures Selected(t, o) <= Selected(t', o)
    ensures Count(t, o) <= Count(t', o)
  {
    forall id | id in Selected(t, o) ensures id in Selected(t', o) {
      assert t[id].Fixed() == t'[id].Fixed();
    }
    SubsetSize(Selected(t, o), Selected(t', o));
  }

  lemma SubsetSize<T>(a: set<T>, b: set<T>)
    requires a <= b
    ensures |a| <= |b|
  {
    assert b == a + (b - a);
  }

  /**
   Storage.ListEvents counts first and selects later; any steps of any actors may fall between
   (i to j). The page is never shorter than the reported total promises.
   */
  lemma CountThenList(width: nat, steps: seq<Step>, i: nat, j: nat, o: QueryOptions, scan: seq<string>)
    requires i <= j <= |steps| && !o.onlyNonForwarded
    requires IsScan(After(width, steps[..j]).table, scan)
    ensures var total := Count(After(width, steps[..i]).table, o);
            var rows := Rows(After(width, steps[..j]).table, o, scan);
            |rows| >= PageLength(total, o.limit, o.offset)
  {
    var t, t' := After(width, steps[..i]).table, After(width, steps[..j]).table;
    RowsAreKept(width, steps, i, j);
    MatchesForEver(t, t', o);
    RowsOfQuery(t', o, scan);
    LengthGrows(Count(t, o), Count(t', o), o.limit, o.offset);
  }

  lemma LengthGrows(total: nat, total': nat, limit: int, offset: int)
    requires total <= total'
    ensures PageLength(total, limit, offset) <= PageLength(total', limit, offset)
  {
  }

  /** BaseStorage.ListEvents drops the offset when there is no limit. */
  function OrderedPage(rows: seq<Event>, o: QueryOptions): seq<Event> {
    if o.limit > 0 then Page(rows, o.limit, o.offset) else rows
  }

  /**
   BaseStorage.ListEvents selects first and counts later: a page that is not empty lies
   within the reported total.
   */
  lemma ListThenCount(width: nat, steps: seq<Step>, i: nat, j: nat, o: QueryOptions, scan: seq<string>)
    requires i <= j <= |steps| && !o.onlyNonForwarded
    requires IsScan(After(width, steps[..i]).table, scan)
    ensures var rows := OrderedPage(Filter(After(width, steps[..i]).table, o, scan), o);
            var total := Count(After(width, steps[..j]).table, o);
            rows != [] ==> (if o.limit > 0 then Max(0, o.offset) else 0) + |rows| <= total
  {
    var t, t' := After(width, steps[..i]).table, After(width, steps[..j]).table;
    RowsAreKept(width, steps, i, j);
    MatchesForEver(t, t', o);
    FilterIsSelection(t, o, scan);
    PageWithin(Filter(t, o, scan), o.limit, o.offset);
  }
}
