/**
 The storage object over the events table. `up` says whether the database executes a statement;
 `scan` is the order in which it visits rows, which no query fixes.
 */
module SqlStorage {
  import opened Wrappers
  import opened Sequences
  import opened Events

  datatype Dialect = SQLite | Postgres | MySQL

  datatype StorageError = Unavailable | SyntaxError | EventNotFound

  /** The database's answer to GROUP BY type: one line for each type that occurs, in any order. */
  predicate IsGrouping(t: Table, since: Time, groups: seq<(string, nat)>) {
    && (forall i, j :: 0 <= i < j < |groups| ==> groups[i].0 != groups[j].0)
    && (forall i :: 0 <= i < |groups| ==> groups[i].0 in Types(t, since) && groups[i].1 == |OfType(t, since, groups[i].0)|)
    && (forall typ :: typ in Types(t, since) ==> exists i :: 0 <= i < |groups| && groups[i].0 == typ)
  }

  /** There is such an answer. */
  lemma GroupingExists(t: Table, since: Time) returns (groups: seq<(string, nat)>)
    ensures IsGrouping(t, since, groups)
  {
    var types := Enumerate(Types(t, since));
    assert forall typ :: typ in types <==> typ in ToSet(types);
    groups := seq(|types|, i requires 0 <= i < |types| => (types[i], |OfType(t, since, types[i])|));
    forall typ | typ in Types(t, since) ensures exists i :: 0 <= i < |groups| && groups[i].0 == typ {
      var i :| 0 <= i < |types| && types[i] == typ;
      assert groups[i].0 == typ;
    }
  }

  class Storage {
    const dialect: Dialect
    var rows: Table

    constructor (dialect: Dialect)
      ensures this.dialect == dialect && rows == map[]
    {
      this.dialect := dialect;
      rows := map[];
    }

    method StoreEvent(event: Event, uuid: string, up: bool) returns (stored: Event, r: Result<(), StorageError>)
      modifies this
      ensures stored == Assigned(event, uuid)
      ensures stored == if event.id == "" then event.(id := uuid) else event
      ensures r.Ok? <==> up
      ensures rows == if up then Insert(old(rows), stored) else old(rows)
      ensures forall id :: id in rows <==> id in old(rows) || (up && id == stored.id)
      ensures forall id :: id in rows ==>
                rows[id] == if id in old(rows) then old(rows)[id] else stored.(replayedFrom := "", replayedTime := ZERO_TIME)
    {
      stored := event;
      if stored.id == "" {
        stored := stored.(id := uuid);
      }
      if !up {
        return stored, Err(Unavailable);
      }
      if stored.id !in rows {
        rows := rows[stored.id := stored.(replayedFrom := "", replayedTime := ZERO_TIME)];
      }
      r := Ok(());
    }

    method UpdateEvent(event: Event, up: bool) returns (r: Result<(), StorageError>)
      modifies this
      ensures r.Ok? <==> up
      ensures rows == if up then Update(old(rows), event) else old(rows)
      ensures forall id :: id in rows <==> id in old(rows)
      ensures forall id :: id in rows ==> rows[id] == if up && id == event.id then event else old(rows)[id]
    {
      if !up {
        return Err(Unavailable);
      }
      if event.id in rows {
        rows := rows[event.id := event];
      }
      r := Ok(());
    }

    /** Sets one column of one row; an id without a row is an error. */
    method MarkForwarded(id: string, now: Time, up: bool) returns (r: Result<(), StorageError>)
      modifies this
      ensures r == if !up then Err(Unavailable) else if id !in old(rows) then Err(EventNotFound) else Ok(())
      ensures rows == if up then Mark(old(rows), id, now) else old(rows)
      ensures forall key :: key in rows <==> key in old(rows)
      ensures forall key :: key in rows ==>
                rows[key] == if up && key == id then old(rows)[key].(forwardedAt := Some(now)) else old(rows)[key]
    {
      if !up {
        return Err(Unavailable);
      }
      if id !in rows {
        return Err(EventNotFound);
      }
      rows := rows[id := rows[id].(forwardedAt := Some(now))];
      r := Ok(());
    }

    method GetEvent(id: string, up: bool) returns (r: Result<Option<Event>, StorageError>)
      ensures r == if !up then Err(Unavailable) else if id in rows then Ok(Some(rows[id])) else Ok(None)
    {
      if !up {
        return Err(Unavailable);
      }
      r := Ok(if id in rows then Some(rows[id]) else None);
    }

    method CountEvents(o: QueryOptions, scan: seq<string>, up: bool) returns (r: Result<nat, StorageError>)
      requires IsScan(rows, scan)
      ensures r == if up then Ok(Count(rows, o)) else Err(Unavailable)
    {
      if !up {
        return Err(Unavailable);
      }
      assert forall id :: id in scan ==> id in ToSet(scan);
      var count := 0;
      for i := 0 to |scan|
        invariant count == |Filter(rows, o, scan[..i])|
      {
        assert scan[..i + 1][..i] == scan[..i];
        if Matches(o, rows[scan[i]]) {
          count := count + 1;
        }
      }
      assert scan[..|scan|] == scan;
      FilterIsSelection(rows, o, scan);
      r := Ok(count);
    }

    /**
     Counts, then selects, then reads the rows one by one; here nothing runs in between. Only SQLite
     and MySQL reject an OFFSET that has no LIMIT.
     */
    method ListEvents(o: QueryOptions, scan: seq<string>, countUp: bool, up: bool)
      returns (r: Result<(seq<Event>, nat), StorageError>)
      requires IsScan(rows, scan)
      ensures r.Ok? <==> countUp && up && (o.limit > 0 || o.offset <= 0 || dialect == Postgres)
      ensures r.Ok? ==> r == Ok((Rows(rows, o, scan), Count(rows, o)))
    {
      var counted := CountEvents(o, scan, countUp);
      if counted.Err? {
        return Err(counted.error);
      }
      if !up {
        return Err(Unavailable);
      }
      if o.limit <= 0 && o.offset > 0 && !dialect.Postgres? {
        return Err(SyntaxError);
      }
      assert forall id :: id in scan ==> id in ToSet(scan);
      var cursor := Page(Filter(rows, o, scan), o.limit, o.offset);
      var events: seq<Event> := [];
      while |events| < |cursor|
        invariant |events| <= |cursor| && events == cursor[..|events|]
      {
        events := events + [cursor[|events|]];
      }
      assert events == cursor == Rows(rows, o, scan);
      r := Ok((events, counted.value));
    }

    method GetStats(since: Time, groups: seq<(string, nat)>, up: bool) returns (r: Result<map<string, nat>, StorageError>)
      requires IsGrouping(rows, since, groups)
      ensures r == if up then Ok(Stats(rows, since)) else Err(Unavailable)
    {
      if !up {
        return Err(Unavailable);
      }
      var stats: map<string, nat> := map[];
      for i := 0 to |groups|
        invariant forall typ :: typ in stats <==> exists j :: 0 <= j < i && groups[j].0 == typ
        invariant forall j :: 0 <= j < i ==> groups[j].0 in stats && stats[groups[j].0] == groups[j].1
      {
        stats := stats[groups[i].0 := groups[i].1];
      }
      assert stats == Stats(rows, since);
      r := Ok(stats);
    }
  }
}
