/** The events table: its rows, the SQL statements run on it, and what a query selects. */
module Events {
  import opened Wrappers
  import opened Sequences
  import opened Hex

  /** An instant; the zero time stands for "not given". */
  type Time = int
  const ZERO_TIME: Time := 0

  /** Text columns hold byte strings; NULL in replayed_from and replayed_time reads as "" and the zero time. */
  datatype Event = Event(
    id: string,
    typ: string,
    headers: string,
    payload: Bytes,
    createdAt: Time,
    forwardedAt: Option<Time>,
    error: string,
    repository: string,
    sender: string,
    replayedFrom: string,
    replayedTime: Time)
  {
    /** The columns that no part of the program is meant to change once the row exists. */
    function Fixed(): FixedColumns {
      FixedColumns(id, typ, headers, payload, createdAt, repository, sender)
    }

    predicate Pending() { forwardedAt.None? }
  }

  datatype FixedColumns = FixedColumns(
    id: string, typ: string, headers: string, payload: Bytes, createdAt: Time, repository: string, sender: string)

  /** Rows by primary key. */
  type Table = t: map<string, Event> | forall id :: id in t ==> t[id].id == id

  // ---- the statements that write ----

  /** INSERT OR IGNORE; replayed_from and replayed_time are not among the inserted columns. */
  function Insert(t: Table, e: Event): Table {
    if e.id in t then t else t[e.id := e.(replayedFrom := "", replayedTime := ZERO_TIME)]
  }

  /** UPDATE of every column but the id; no row, no effect and no error. */
  function Update(t: Table, e: Event): Table {
    if e.id in t then t[e.id := e] else t
  }

  lemma UpdateAt(t: Table, e: Event, id: string)
    ensures id in Update(t, e) <==> id in t
    ensures id in t ==> Update(t, e)[id] == if id == e.id then e else t[id]
  {
  }

  /** UPDATE ... SET forwarded_at = now */
  function Mark(t: Table, id: string, now: Time): Table {
    if id in t then t[id := t[id].(forwardedAt := Some(now))] else t
  }

  /** The row a replay writes back for the row it has read. */
  function Replayed(e: Event, uuid: string, now: Time): Event {
    Event(e.id, e.typ, e.headers, e.payload, e.createdAt, None, "", e.repository, e.sender, uuid, now)
  }

  // ---- the statements that read ----

  datatype QueryOptions = QueryOptions(
    types: seq<string>,
    repository: string,
    sender: string,
    since: Time,
    until: Time,
    limit: int,
    offset: int,
    onlyNonForwarded: bool)

  const EVERYTHING := QueryOptions([], "", "", ZERO_TIME, ZERO_TIME, 0, 0, false)
  const NON_FORWARDED := EVERYTHING.(onlyNonForwarded := true)

  /** addQueryConditions: the conjunction of the conditions that are present. */
  predicate Matches(o: QueryOptions, e: Event) {
    && (o.types != [] ==> e.typ in o.types)
    && (o.since != ZERO_TIME ==> o.since <= e.createdAt)
    && (o.until != ZERO_TIME ==> e.createdAt <= o.until)
    && (o.repository != "" ==> e.repository == o.repository)
    && (o.sender != "" ==> e.sender == o.sender)
    && (o.onlyNonForwarded ==> e.Pending())
  }

  function Selected(t: Table, o: QueryOptions): set<string> {
    set id | id in t && Matches(o, t[id])
  }

  /** SELECT COUNT(*) */
  function Count(t: Table, o: QueryOptions): nat { |Selected(t, o)| }

  /** The ids of rows not yet forwarded. */
  function PendingIds(t: Table): set<string> {
    set id | id in t && t[id].Pending()
  }

  /** An order in which the database may visit the rows; no statement used asks for a particular one. */
  predicate IsScan(t: Table, scan: seq<string>) {
    Distinct(scan) && ToSet(scan) == t.Keys
  }

  /** The rows a scan finds, in its order. */
  function Filter(t: Table, o: QueryOptions, scan: seq<string>): seq<Event>
    requires forall id :: id in scan ==> id in t
  {
    if scan == [] then []
    else
      var last := scan[|scan| - 1];
      Filter(t, o, scan[..|scan| - 1]) + if Matches(o, t[last]) then [t[last]] else []
  }

  /** LIMIT and OFFSET, each written only when positive. */
  function Page<T>(rows: seq<T>, limit: int, offset: int): seq<T> {
    var lo := if offset <= 0 then 0 else if offset < |rows| then offset else |rows|;
    var hi := if 0 < limit < |rows| - lo then lo + limit else |rows|;
    rows[lo..hi]
  }

  function Ids(es: seq<Event>): (r: seq<string>)
    ensures |r| == |es| && forall i :: 0 <= i < |es| ==> r[i] == es[i].id
  {
    seq(|es|, i requires 0 <= i < |es| => es[i].id)
  }

  /** Rows as some SELECT may have returned them: each is in the table as it stands, none twice. */
  predicate IsRead(t: Table, es: seq<Event>) {
    Distinct(Ids(es)) && forall e :: e in es ==> e.id in t && t[e.id] == e
  }

  /** What the forwarder's SELECT returns: every row not yet forwarded, in some order. */
  predicate IsPendingList(t: Table, es: seq<Event>) {
    IsRead(t, es) && ToSet(Ids(es)) == PendingIds(t)
  }

  /** A scan finds exactly the matching rows, each once, and so as many as COUNT(*) says. */
  lemma FilterIsSelection(t: Table, o: QueryOptions, scan: seq<string>)
    requires IsScan(t, scan)
    ensures IsRead(t, Filter(t, o, scan))
    ensures ToSet(Ids(Filter(t, o, scan))) == Selected(t, o)
    ensures |Filter(t, o, scan)| == Count(t, o)
  {
    assert forall id :: id in t ==> id in ToSet(scan);
    FilterSound(t, o, scan);
    FilterDistinct(t, o, scan);
    var es := Filter(t, o, scan);
    IdsOf(es);
    DistinctSize(Ids(es));
  }

  lemma IdsOf(es: seq<Event>)
    ensures forall e :: e in es ==> e.id in Ids(es)
    ensures forall id :: id in Ids(es) ==> exists e :: e in es && e.id == id
  {
    forall e | e in es ensures e.id in Ids(es) {
      var i :| 0 <= i < |es| && es[i] == e;
      assert Ids(es)[i] == e.id;
    }
  }

  lemma {:induction false} FilterSound(t: Table, o: QueryOptions, scan: seq<string>)
    requires forall id :: id in scan ==> id in t
    ensures forall e :: e in Filter(t, o, scan) <==> e.id in scan && t[e.id] == e && Matches(o, e)
  {
    if scan == [] {
    } else {
      FilterSound(t, o, scan[..|scan| - 1]);
      assert scan == scan[..|scan| - 1] + [scan[|scan| - 1]];
    }
  }

  lemma {:induction false} FilterDistinct(t: Table, o: QueryOptions, scan: seq<string>)
    requires forall id :: id in scan ==> id in t
    requires Distinct(scan)
    ensures Distinct(Ids(Filter(t, o, scan)))
  {
    if scan == [] {
    } else {
      var rest, last := scan[..|scan| - 1], scan[|scan| - 1];
      FilterDistinct(t, o, rest);
      FilterSound(t, o, rest);
      assert last !in rest;
      var es := Filter(t, o, rest);
      forall i | 0 <= i < |es| ensures es[i].id != last {
        assert es[i] in es;
      }
      if Matches(o, t[last]) {
        assert Ids(es + [t[last]]) == Ids(es) + [last];
      }
    }
  }

  /** The rows of a table can be visited in some order. */
  lemma ScanExists(t: Table)
    ensures exists scan :: IsScan(t, scan)
  {
    var scan := Enumerate(t.Keys);
    assert IsScan(t, scan);
  }

  /** A page of a read is a read. */
  lemma PageIsRead(t: Table, es: seq<Event>, limit: int, offset: int)
    requires IsRead(t, es)
    ensures IsRead(t, Page(es, limit, offset))
  {
    var page := Page(es, limit, offset);
    var lo := if offset <= 0 then 0 else if offset < |es| then offset else |es|;
    assert forall i :: 0 <= i < |page| ==> Ids(page)[i] == Ids(es)[lo + i];
  }

  lemma PrefixIsRead(t: Table, es: seq<Event>, k: nat)
    requires IsRead(t, es) && k <= |es|
    ensures IsRead(t, es[..k])
  {
    assert forall i :: 0 <= i < k ==> Ids(es[..k])[i] == Ids(es)[i];
  }

  /** The forwarder's query is the pending list. */
  lemma PendingQuery(t: Table, scan: seq<string>)
    requires IsScan(t, scan)
    ensures IsPendingList(t, Page(Filter(t, NON_FORWARDED, scan), 0, 0))
  {
    FilterIsSelection(t, NON_FORWARDED, scan);
    var rows := Filter(t, NON_FORWARDED, scan);
    assert Page(rows, 0, 0) == rows;
    assert Selected(t, NON_FORWARDED) == PendingIds(t);
  }

  /** How many of `total` rows a page has. */
  function PageLength(total: nat, limit: int, offset: int): int {
    var rest := Max(0, total - Max(0, offset));
    if limit > 0 then Min(limit, rest) else rest
  }

  /** The size of a page, for every limit and offset. */
  lemma PageSize<T>(rows: seq<T>, limit: int, offset: int)
    ensures |Page(rows, limit, offset)| == PageLength(|rows|, limit, offset)
  {
  }

  /** Row i of a page is the one `offset` places further on. */
  lemma PageAt<T>(rows: seq<T>, limit: int, offset: int, i: nat)
    requires i < |Page(rows, limit, offset)|
    ensures Max(0, offset) + i < |rows| && Page(rows, limit, offset)[i] == rows[Max(0, offset) + i]
  {
  }

  /** A page that is not empty lies within the rows. */
  lemma PageWithin<T>(rows: seq<T>, limit: int, offset: int)
    ensures Page(rows, limit, offset) != [] ==> Max(0, offset) + |Page(rows, limit, offset)| <= |rows|
  {
  }

  function Min(a: int, b: int): int { if a < b then a else b }
  function Max(a: int, b: int): int { if a < b then b else a }

  /** The rows selected by a query, as the database hands them out. */
  function Rows(t: Table, o: QueryOptions, scan: seq<string>): seq<Event>
    requires IsScan(t, scan)
  {
    assert forall id :: id in scan ==> id in ToSet(scan);
    Page(Filter(t, o, scan), o.limit, o.offset)
  }

  /** Such rows are a read, and match: what is proved of replays of reads holds of range replays. */
  lemma RowsAreRead(t: Table, o: QueryOptions, scan: seq<string>)
    requires IsScan(t, scan)
    ensures IsRead(t, Rows(t, o, scan))
    ensures forall e :: e in Rows(t, o, scan) ==> Matches(o, e)
  {
    assert forall id :: id in scan ==> id in ToSet(scan);
    FilterIsSelection(t, o, scan);
    FilterSound(t, o, scan);
    PageIsRead(t, Filter(t, o, scan), o.limit, o.offset);
  }

  /** What such rows say of a query: how many there are, and that without limit and offset they are all that match. */
  lemma RowsOfQuery(t: Table, o: QueryOptions, scan: seq<string>)
    requires IsScan(t, scan)
    ensures |Rows(t, o, scan)| == PageLength(Count(t, o), o.limit, o.offset)
    ensures ToSet(Ids(Rows(t, o, scan))) <= Selected(t, o)
    ensures o.offset <= 0 && (o.limit <= 0 || Count(t, o) <= o.limit) ==> ToSet(Ids(Rows(t, o, scan))) == Selected(t, o)
  {
    assert forall id :: id in scan ==> id in ToSet(scan);
    var all := Filter(t, o, scan);
    FilterIsSelection(t, o, scan);
    PageSize(all, o.limit, o.offset);
    RowsAreRead(t, o, scan);
    IdsOf(Rows(t, o, scan));
    if o.offset <= 0 && (o.limit <= 0 || Count(t, o) <= o.limit) {
      assert Rows(t, o, scan) == all;
    }
  }

  /**
   What a query answers, condition by condition: the total is the number of rows that meet them
   all, and the rows listed are such rows as they stand, none twice, as many as limit and offset
   leave; without those two they are all such rows.
   */
  lemma QueryExactly(t: Table, o: QueryOptions, scan: seq<string>)
    requires IsScan(t, scan)
    ensures var matching := set id | id in t
                              && (o.types != [] ==> t[id].typ in o.types)
                              && (o.repository != "" ==> t[id].repository == o.repository)
                              && (o.sender != "" ==> t[id].sender == o.sender)
                              && (o.since != ZERO_TIME ==> t[id].createdAt >= o.since)
                              && (o.until != ZERO_TIME ==> t[id].createdAt <= o.until)
                              && (o.onlyNonForwarded ==> t[id].forwardedAt == None);
            var rows := Rows(t, o, scan);
            && Count(t, o) == |matching|
            && |rows| == PageLength(|matching|, o.limit, o.offset)
            && Distinct(Ids(rows))
            && (forall e :: e in rows ==> e.id in matching && t[e.id] == e)
            && (o.limit <= 0 && o.offset <= 0 ==> ToSet(Ids(rows)) == matching)
  {
    var matching := set id | id in t
                      && (o.types != [] ==> t[id].typ in o.types)
                      && (o.repository != "" ==> t[id].repository == o.repository)
                      && (o.sender != "" ==> t[id].sender == o.sender)
                      && (o.since != ZERO_TIME ==> t[id].createdAt >= o.since)
                      && (o.until != ZERO_TIME ==> t[id].createdAt <= o.until)
                      && (o.onlyNonForwarded ==> t[id].forwardedAt == None);
    assert Selected(t, o) == matching;
    RowsOfQuery(t, o, scan);
    RowsAreRead(t, o, scan);
    IdsOf(Rows(t, o, scan));
  }

  /** No order of visiting the rows is ruled out: from any one, exchanging two rows gives another. */
  lemma ScansAreFree(t: Table, scan: seq<string>, i: nat, j: nat)
    requires IsScan(t, scan) && i < |scan| && j < |scan|
    ensures IsScan(t, scan[i := scan[j]][j := scan[i]])
  {
    SwapKeeps(scan, i, j);
  }

  /** The first n pages of the given size, one after the other. */
  function Pages<T>(rows: seq<T>, limit: nat, n: nat): seq<T> {
    if n == 0 then [] else Pages(rows, limit, n - 1) + Page(rows, limit, (n - 1) * limit)
  }

  /** Consecutive pages over one scan order leave no gap and repeat nothing. */
  lemma {:induction false} PagesCover<T>(rows: seq<T>, limit: nat, n: nat)
    requires limit > 0
    ensures Pages(rows, limit, n) == rows[..Min(n * limit, |rows|)]
  {
    if n == 0 {
    } else {
      PagesCover(rows, limit, n - 1);
      var from := (n - 1) * limit;
      assert n * limit == from + limit;
      assert from >= 0;
    }
  }

  // ---- statistics ----

  predicate Since(e: Event, since: Time) { since != ZERO_TIME ==> since <= e.createdAt }

  function OfType(t: Table, since: Time, typ: string): set<string> {
    set id | id in t && Since(t[id], since) && t[id].typ == typ
  }

  function Types(t: Table, since: Time): set<string> {
    set id | id in t && Since(t[id], since) :: t[id].typ
  }

  /** SELECT type, COUNT(*) ... GROUP BY type */
  function Stats(t: Table, since: Time): map<string, nat> {
    map typ | typ in Types(t, since) :: |OfType(t, since, typ)|
  }

  /** The query that counts one type from an instant on, and the one that counts all types. */
  function TypeSince(types: seq<string>, since: Time): QueryOptions {
    EVERYTHING.(types := types, since := since)
  }

  /**
   The statistics conserve the rows: a type is listed exactly when CountEvents for it is not
   zero, with that count, and the counts add up to CountEvents over all types.
   */
  lemma StatsConservation(t: Table, since: Time)
    ensures forall typ :: typ in Stats(t, since) <==> Count(t, TypeSince([typ], since)) > 0
    ensures forall typ :: typ in Stats(t, since) ==> Stats(t, since)[typ] == Count(t, TypeSince([typ], since))
    ensures Sum(Stats(t, since)) == Count(t, TypeSince([], since))
  {
    forall typ
      ensures Selected(t, TypeSince([typ], since)) == OfType(t, since, typ)
      ensures typ in Stats(t, since) <==> Count(t, TypeSince([typ], since)) > 0
    {
      assert Selected(t, TypeSince([typ], since)) == OfType(t, since, typ);
      if Count(t, TypeSince([typ], since)) > 0 {
        var id :| id in OfType(t, since, typ);
        assert t[id].typ in Types(t, since);
      } else {
        assert forall id :: id in t && Since(t[id], since) ==> id in OfType(t, since, t[id].typ);
      }
    }
    var all := Selected(t, TypeSince([], since));
    forall typ | typ in Stats(t, since)
      ensures Stats(t, since)[typ] == |set id | id in all && t[id].typ == typ|
    {
      assert OfType(t, since, typ) == set id | id in all && t[id].typ == typ;
    }
    Partition(t, all, Stats(t, since));
  }

  /** Splitting a set of rows by type splits its size. */
  lemma {:induction false} Partition(t: Table, ids: set<string>, counts: map<string, nat>)
    requires forall id :: id in ids ==> id in t && t[id].typ in counts
    requires forall typ :: typ in counts ==> counts[typ] == |set id | id in ids && t[id].typ == typ|
    ensures Sum(counts) == |ids|
    decreases |counts|
  {
    if counts == map[] {
      assert ids == {};
    } else {
      var typ :| typ in counts;
      var group := set id | id in ids && t[id].typ == typ;
      forall other | other in counts - {typ}
        ensures (set id | id in ids - group && t[id].typ == other) == set id | id in ids && t[id].typ == other
      {
      }
      Partition(t, ids - group, counts - {typ});
      SumTake(counts, typ);
      assert |ids| == |group| + |ids - group|;
    }
  }

  // ---- runs of stores ----

  /** The event StoreEvent inserts: one that comes without an id gets the uuid drawn for it. */
  function Assigned(e: Event, uuid: string): Event {
    if e.id == "" then e.(id := uuid) else e
  }

  function StoreAll(t: Table, es: seq<Event>): Table {
    if es == [] then t else Insert(StoreAll(t, es[..|es| - 1]), es[|es| - 1])
  }

  /** After any run of stores the rows are the old ones, untouched, plus one for each new id. */
  lemma {:induction false} StoresAddIds(t: Table, es: seq<Event>)
    ensures forall id :: id in StoreAll(t, es) <==> id in t || id in Ids(es)
    ensures forall id :: id in t ==> StoreAll(t, es)[id] == t[id]
  {
    if es == [] {
    } else {
      var rest, last := es[..|es| - 1], es[|es| - 1];
      StoresAddIds(t, rest);
      assert Ids(es) == Ids(rest) + [last.id];
    }
  }

  lemma {:induction false} NotStored(t: Table, es: seq<Event>, id: string)
    requires id !in t && forall i :: 0 <= i < |es| ==> es[i].id != id
    ensures id !in StoreAll(t, es)
  {
    if es == [] {
    } else {
      NotStored(t, es[..|es| - 1], id);
    }
  }

  /** Each new id keeps its first write, whatever is stored under it later. */
  lemma {:induction false} FirstWriteWins(t: Table, es: seq<Event>, i: nat)
    requires i < |es| && es[i].id !in t
    requires forall j :: 0 <= j < i ==> es[j].id != es[i].id
    ensures var r := StoreAll(t, es);
            es[i].id in r && r[es[i].id] == es[i].(replayedFrom := "", replayedTime := ZERO_TIME)
  {
    var rest, last := es[..|es| - 1], es[|es| - 1];
    if i < |rest| {
      FirstWriteWins(t, rest, i);
    } else {
      NotStored(t, rest, last.id);
    }
  }

  /** A call of StoreEvent: the event, and the uuid it draws if the event has no id. */
  datatype Put = Put(event: Event, uuid: string)

  predicate Unnamed(put: Put) { put.event.id == "" }

  function Inserts(puts: seq<Put>): (r: seq<Event>)
    ensures |r| == |puts| && forall i :: 0 <= i < |puts| ==> r[i] == Assigned(puts[i].event, puts[i].uuid)
  {
    seq(|puts|, i requires 0 <= i < |puts| => Assigned(puts[i].event, puts[i].uuid))
  }

  /** A run of StoreEvent calls, with or without ids. */
  function StoreRun(t: Table, puts: seq<Put>): Table { StoreAll(t, Inserts(puts)) }

  /** The uuids drawn are new: not empty, no row's id, no id given, no two alike. */
  predicate FreshUuids(t: Table, puts: seq<Put>) {
    forall i :: 0 <= i < |puts| && Unnamed(puts[i]) ==>
      && puts[i].uuid != "" && puts[i].uuid !in t
      && forall j :: 0 <= j < |puts| ==>
           puts[j].event.id != puts[i].uuid && (j != i && Unnamed(puts[j]) ==> puts[j].uuid != puts[i].uuid)
  }

  /** The distinct ids given. */
  function GivenIds(puts: seq<Put>): set<string> {
    set put | put in puts && !Unnamed(put) :: put.event.id
  }

  function UnnamedCount(puts: seq<Put>): nat {
    if puts == [] then 0
    else UnnamedCount(puts[..|puts| - 1]) + if Unnamed(puts[|puts| - 1]) then 1 else 0
  }

  /** The ids after a run: the old ones, those given, and the uuids drawn. */
  lemma StoreRunIds(t: Table, puts: seq<Put>, id: string)
    ensures id in StoreRun(t, puts) <==>
              id in t || id in GivenIds(puts) || exists i :: 0 <= i < |puts| && Unnamed(puts[i]) && puts[i].uuid == id
  {
    var es := Inserts(puts);
    StoresAddIds(t, es);
    if id in Ids(es) {
      var i :| 0 <= i < |es| && Ids(es)[i] == id;
      assert puts[i] in puts;
    }
    if id in GivenIds(puts) {
      var put :| put in puts && !Unnamed(put) && put.event.id == id;
      var i :| 0 <= i < |puts| && puts[i] == put;
      assert Ids(es)[i] == id;
    }
    if exists i :: 0 <= i < |puts| && Unnamed(puts[i]) && puts[i].uuid == id {
      var i :| 0 <= i < |puts| && Unnamed(puts[i]) && puts[i].uuid == id;
      assert Ids(es)[i] == id;
    }
  }

  /** One call more: whether it adds a row. */
  lemma StoreRunGrows(t: Table, puts: seq<Put>)
    requires puts != []
    ensures var rest, last := puts[..|puts| - 1], puts[|puts| - 1];
            StoreRun(t, puts) == Insert(StoreRun(t, rest), Assigned(last.event, last.uuid))
    ensures var rest, last := puts[..|puts| - 1], puts[|puts| - 1];
            GivenIds(puts) == GivenIds(rest) + if Unnamed(last) then {} else {last.event.id}
  {
    var rest, last := puts[..|puts| - 1], puts[|puts| - 1];
    assert Inserts(puts)[..|puts| - 1] == Inserts(rest);
    assert puts == rest + [last];
    assert forall put :: put in puts <==> put in rest || put == last;
  }

  lemma FreshPrefix(t: Table, puts: seq<Put>)
    requires FreshUuids(t, puts) && puts != []
    ensures FreshUuids(t, puts[..|puts| - 1])
  {
    var rest := puts[..|puts| - 1];
    assert forall i :: 0 <= i < |rest| ==> rest[i] == puts[i];
  }

  /** Whether the last call of a run with fresh uuids meets a row of its id. */
  lemma LastIsNew(t: Table, puts: seq<Put>)
    requires FreshUuids(t, puts) && puts != []
    ensures var rest, last := puts[..|puts| - 1], puts[|puts| - 1];
            Assigned(last.event, last.uuid).id in StoreRun(t, rest)
            <==> !Unnamed(last) && (last.event.id in t || last.event.id in GivenIds(rest))
  {
    var rest, last := puts[..|puts| - 1], puts[|puts| - 1];
    var id := Assigned(last.event, last.uuid).id;
    StoreRunIds(t, rest, id);
    assert forall i :: 0 <= i < |rest| ==> rest[i] == puts[i];
  }

  /** A new row adds one to every count whose conditions it meets. */
  lemma InsertCounts(t: Table, e: Event, o: QueryOptions)
    requires e.id !in t
    ensures Count(Insert(t, e), o) == Count(t, o) + if Matches(o, e) then 1 else 0
  {
    var t' := Insert(t, e);
    if Matches(o, e) {
      assert Selected(t', o) == Selected(t, o) + {e.id};
    } else {
      assert Selected(t', o) == Selected(t, o);
    }
  }

  lemma InsertSize(t: Table, e: Event)
    ensures |Insert(t, e)| == |t| + if e.id in t then 0 else 1
  {
  }

  /** The new ids given, after one call more. */
  lemma NewIdsGrow(t: Table, before: set<string>, last: Put)
    ensures var after := before + if Unnamed(last) then {} else {last.event.id};
            |after - t.Keys| == |before - t.Keys|
              + if Unnamed(last) || last.event.id in t || last.event.id in before then 0 else 1
  {
    var id := last.event.id;
    if Unnamed(last) || id in t || id in before {
      assert before + (if Unnamed(last) then {} else {id}) - t.Keys == before - t.Keys;
    } else {
      assert before + {id} - t.Keys == (before - t.Keys) + {id};
    }
  }

  /**
   After any run of stores with fresh uuids there are as many rows as before, plus one for each
   distinct new id given, plus one for each event stored without an id.
   */
  lemma {:induction false} StoreRunSize(t: Table, puts: seq<Put>)
    requires FreshUuids(t, puts)
    ensures |StoreRun(t, puts)| == |t| + |GivenIds(puts) - t.Keys| + UnnamedCount(puts)
  {
    if puts == [] {
      assert Inserts(puts) == [];
      assert GivenIds(puts) - t.Keys == {};
    } else {
      var rest, last := puts[..|puts| - 1], puts[|puts| - 1];
      FreshPrefix(t, puts);
      StoreRunSize(t, rest);
      StoreRunGrows(t, puts);
      LastIsNew(t, puts);
      InsertSize(StoreRun(t, rest), Assigned(last.event, last.uuid));
      NewIdsGrow(t, GivenIds(rest), last);
    }
  }
}
