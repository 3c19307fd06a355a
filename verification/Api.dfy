/** The REST handlers that replay events. */
module Api {
  import opened Wrappers
  import opened Sequences
  import opened Events
  import opened SqlStorage
  import opened Forwarding

  /** A query parameter: missing or empty, not parsable, or a value. */
  datatype Param<+T> = Absent | Malformed | Given(value: T)

  datatype RangeQuery = RangeQuery(
    limit: Param<int>, since: Param<Time>, until: Param<Time>, typ: string, repository: string, sender: string)

  const STATUS_OK := 200
  const STATUS_BAD_REQUEST := 400
  const STATUS_NOT_FOUND := 404
  const STATUS_METHOD_NOT_ALLOWED := 405
  const STATUS_INTERNAL_SERVER_ERROR := 500

  const DEFAULT_REPLAY_LIMIT := 100

  /** The range replay is well posed: both ends of the range parse, and a limit, if there is one, is positive. */
  predicate WellPosed(q: RangeQuery) {
    && (q.limit.Absent? || (q.limit.Given? && q.limit.value > 0))
    && q.since.Given?
    && q.until.Given?
  }

  /** The query a well-posed range replay runs. */
  function Selection(q: RangeQuery): QueryOptions
    requires WellPosed(q)
  {
    QueryOptions(
      if q.typ == "" then [] else [q.typ], q.repository, q.sender, q.since.value, q.until.value,
      if q.limit.Given? then q.limit.value else DEFAULT_REPLAY_LIMIT, 0, false)
  }

  /** No update fails. */
  ghost predicate NoneFails(stamps: nat -> Stamp) { forall i: nat :: stamps(i).up }

  /** Of n updates, the first k are executed and then, if there are more, one fails. */
  predicate StopsAfter(stamps: nat -> Stamp, n: nat, k: nat) {
    && k <= n
    && (forall i :: 0 <= i < k ==> stamps(i).up)
    && (k < n ==> !stamps(k).up)
  }

  /**
   What a range replay that stops after k rows has done to the table: exactly the first k rows it
   listed are pending again and stamped, with all other columns kept; every other row is untouched.
   */
  lemma PartialReplay(t: Table, o: QueryOptions, scan: seq<string>, stamps: nat -> Stamp, k: nat)
    requires IsScan(t, scan) && k <= |Rows(t, o, scan)|
    ensures var first := Rows(t, o, scan)[..k];
            var t' := ReplayTable(t, first, stamps);
            && IsRead(t, first)
            && t'.Keys == t.Keys
            && (forall i :: 0 <= i < k ==> first[i].id in t)
            && (forall i :: 0 <= i < k ==>
                  t'[first[i].id]
                  == first[i].(forwardedAt := None, error := "", replayedFrom := stamps(i).uuid, replayedTime := stamps(i).now))
            && (forall id :: id in t && id !in Ids(first) ==> t'[id] == t[id])
            && PendingIds(t') == PendingIds(t) + ToSet(Ids(first))
  {
    RowsAreRead(t, o, scan);
    var first := Rows(t, o, scan)[..k];
    PrefixIsRead(t, Rows(t, o, scan), k);
    ReplayRows(t, first, stamps);
    assert forall i :: 0 <= i < k ==> first[i] in first;
  }

  /**
   Which rows a replay of a query's first rows touches: only selected ones, of which it sets the four
   columns of a replay; and all of them, if it does not stop and the limit leaves none out.
   */
  lemma RangeReplayed(t: Table, o: QueryOptions, scan: seq<string>, stamps: nat -> Stamp, k: nat)
    requires IsScan(t, scan) && k <= |Rows(t, o, scan)| && o.offset <= 0
    ensures var t' := ReplayTable(t, Rows(t, o, scan)[..k], stamps);
            && t'.Keys == t.Keys
            && (forall id :: id in t && t'[id] != t[id] ==> id in Selected(t, o))
            && (forall id :: id in t && t'[id] != t[id] ==>
                  t'[id] == t[id].(forwardedAt := None, error := "",
                                   replayedFrom := t'[id].replayedFrom, replayedTime := t'[id].replayedTime))
            && (k == |Rows(t, o, scan)| && (o.limit <= 0 || Count(t, o) <= o.limit) ==>
                  Selected(t, o) <= PendingIds(t'))
  {
    var first := Rows(t, o, scan)[..k];
    var t' := ReplayTable(t, first, stamps);
    PartialReplay(t, o, scan, stamps, k);
    RowsOfQuery(t, o, scan);
    forall id | id in t && t'[id] != t[id]
      ensures id in Selected(t, o)
      ensures t'[id] == t[id].(forwardedAt := None, error := "", replayedFrom := t'[id].replayedFrom, replayedTime := t'[id].replayedTime)
    {
      assert id in Ids(first);
      var i := Find(t, first, id);
      assert Ids(Rows(t, o, scan))[i] == id;
      assert id in ToSet(Ids(Rows(t, o, scan)));
    }
    if k == |Rows(t, o, scan)| {
      assert first == Rows(t, o, scan);
    }
  }

  /** The rows a range replay's query selects, spelled out. */
  lemma InRange(t: Table, since: Time, until: Time, typ: string, repository: string, sender: string, limit: int)
    ensures var o := QueryOptions(if typ == "" then [] else [typ], repository, sender, since, until, limit, 0, false);
            Selected(t, o)
            == set id | id in t
                 && (since != ZERO_TIME ==> t[id].createdAt >= since)
                 && (until != ZERO_TIME ==> t[id].createdAt <= until)
                 && (typ != "" ==> t[id].typ == typ)
                 && (repository != "" ==> t[id].repository == repository)
                 && (sender != "" ==> t[id].sender == sender)
  {
  }

  /** From t, rows were written back one by one, all of them or those before the first failure. */
  ghost predicate WrittenBack(t: Table, t': Table, rows: seq<Event>, stamps: nat -> Stamp, complete: bool) {
    exists k: nat ::
      StopsAfter(stamps, |rows|, k) && t' == ReplayTable(t, rows[..k], stamps) && (complete <==> k == |rows|)
  }

  /** All that a range replay does to the table and answers, in terms of the rows that qualify. */
  lemma RangeExactly(t: Table, since: Time, until: Time, typ: string, repository: string, sender: string, limit: int,
                     scan: seq<string>, stamps: nat -> Stamp, rows: seq<Event>, complete: bool, t': Table)
    requires IsScan(t, scan) && limit > 0
    requires rows == Rows(t, QueryOptions(if typ == "" then [] else [typ], repository, sender, since, until, limit, 0, false), scan)
    requires WrittenBack(t, t', rows, stamps, complete)
    ensures t'.Keys == t.Keys
    ensures var qualify := set id | id in t
                             && (since != ZERO_TIME ==> t[id].createdAt >= since)
                             && (until != ZERO_TIME ==> t[id].createdAt <= until)
                             && (typ != "" ==> t[id].typ == typ)
                             && (repository != "" ==> t[id].repository == repository)
                             && (sender != "" ==> t[id].sender == sender);
            && (forall id :: id in t && id in t' && t'[id] != t[id] ==> id in qualify)
            && |rows| == Min(|qualify|, limit)
            && (rows == [] <==> qualify == {})
            && (NoneFails(stamps) ==>
                  && complete
                  && (|qualify| <= limit ==> forall id :: id in qualify ==> id in t' && t'[id].forwardedAt == None))
  {
    var o := QueryOptions(if typ == "" then [] else [typ], repository, sender, since, until, limit, 0, false);
    InRange(t, since, until, typ, repository, sender, limit);
    RowsOfQuery(t, o, scan);
    var k: nat :| StopsAfter(stamps, |rows|, k) && t' == ReplayTable(t, rows[..k], stamps) && (complete <==> k == |rows|);
    RangeReplayed(t, o, scan, stamps, k);
    assert Count(t, o) == 0 <==> Selected(t, o) == {};
    if NoneFails(stamps) {
      assert k == |rows|;
      forall id | id in Selected(t, o) && Count(t, o) <= limit ensures t'[id].forwardedAt == None {
        assert id in PendingIds(t');
      }
    }
  }

  /** What the handlers answer with for rows written back. */
  predicate Answers(events: seq<Event>, rows: seq<Event>, stamps: nat -> Stamp) {
    && |events| == |rows|
    && forall i :: 0 <= i < |rows| ==> events[i] == Replayed(rows[i], stamps(i).uuid, stamps(i).now)
  }

  lemma WrittenUpTo(t: Table, rows: seq<Event>, stamps: nat -> Stamp, k: nat)
    requires StopsAfter(stamps, |rows|, k)
    ensures WrittenBack(t, ReplayTable(t, rows[..k], stamps), rows, stamps, k == |rows|)
  {
  }

  lemma NothingWritten(t: Table, stamps: nat -> Stamp)
    ensures WrittenBack(t, t, [], stamps, true)
  {
    assert StopsAfter(stamps, 0, 0);
  }

  /** The loop of both range replays: writes rows back one by one and stops at the first failure. */
  method WriteBack(store: Storage, rows: seq<Event>, stamps: nat -> Stamp) returns (k: nat, events: seq<Event>)
    modifies store
    ensures StopsAfter(stamps, |rows|, k)
    ensures store.rows == ReplayTable(old(store.rows), rows[..k], stamps)
    ensures Answers(events, rows[..k], stamps)
  {
    events := [];
    for i := 0 to |rows|
      invariant store.rows == ReplayTable(old(store.rows), rows[..i], stamps)
      invariant forall j :: 0 <= j < i ==> stamps(j).up
      invariant Answers(events, rows[..i], stamps)
    {
      var event, stamp := rows[i], stamps(i);
      var replay := Event(event.id, event.typ, event.headers, event.payload, event.createdAt, None, "",
                          event.repository, event.sender, stamp.uuid, stamp.now);
      ReplayGrows(old(store.rows), rows, stamps, i);
      var updated := store.UpdateEvent(replay, stamp.up);
      if updated.Err? {
        return i, events;
      }
      events := events + [replay];
    }
    k := |rows|;
  }

  datatype ReplayFailure = ListFailed | NoneFound | UpdateFailed

  /** What both range replays do once they have their query: list, stop if nothing is found, write back. */
  method ReplayListed(store: Storage, o: QueryOptions, scan: seq<string>, stamps: nat -> Stamp, countUp: bool, listUp: bool)
    returns (r: Result<seq<Event>, ReplayFailure>)
    requires IsScan(store.rows, scan)
    modifies store
    ensures r == Err(ListFailed) <==> !(countUp && listUp && (o.limit > 0 || o.offset <= 0 || store.dialect == Postgres))
    ensures r == Err(ListFailed) ==> store.rows == old(store.rows)
    ensures r != Err(ListFailed) ==>
      var rows := old(Rows(store.rows, o, scan));
      && WrittenBack(old(store.rows), store.rows, rows, stamps, r.Ok? || rows == [])
      && (r == Err(NoneFound) <==> rows == [])
      && (r.Ok? ==> Answers(r.value, rows, stamps))
  {
    var listed := store.ListEvents(o, scan, countUp, listUp);
    if listed.Err? {
      return Err(ListFailed);
    }
    var rows := listed.value.0;
    if |rows| == 0 {
      NothingWritten(store.rows, stamps);
      return Err(NoneFound);
    }
    ghost var before := store.rows;
    var k, events := WriteBack(store, rows, stamps);
    WrittenUpTo(before, rows, stamps, k);
    if k < |rows| {
      return Err(UpdateFailed);
    }
    assert rows[..k] == rows;
    r := Ok(events);
  }

  class Handler {
    const store: Storage

    constructor (store: Storage)
      ensures this.store == store
    {
      this.store := store;
    }

    /** Replays one event; `parts` is the request path split at its slashes. */
    method ReplayEvent(isPost: bool, parts: seq<string>, uuid: string, now: Time, getUp: bool, updateUp: bool)
      returns (status: nat, events: seq<Event>)
      modifies store
      ensures status == STATUS_OK ==>
        && isPost && |parts| >= 4 && parts[|parts| - 1] == "replay"
        && var id := parts[|parts| - 2];
        && id in old(store.rows)
        && events == [Replayed(old(store.rows)[id], uuid, now)]
        && store.rows == ReplayTable(old(store.rows), [old(store.rows)[id]], _ => Stamp(uuid, now, true))
      ensures status == 200 ==>
        && store.rows.Keys == old(store.rows).Keys
        && forall id :: id in old(store.rows) ==>
             store.rows[id] == if id == parts[|parts| - 2]
                               then old(store.rows)[id].(forwardedAt := None, error := "", replayedFrom := uuid, replayedTime := now)
                               else old(store.rows)[id]
      ensures status in {200, 400, 404, 405, 500}
      ensures status == 405 <==> !isPost
      ensures status == 400 <==> isPost && (|parts| < 4 || parts[|parts| - 1] != "replay")
      ensures status != STATUS_OK ==> store.rows == old(store.rows) && events == []
      ensures status == STATUS_NOT_FOUND <==>
        isPost && |parts| >= 4 && parts[|parts| - 1] == "replay" && getUp && parts[|parts| - 2] !in old(store.rows)
      ensures status == STATUS_OK <==>
        && isPost && |parts| >= 4 && parts[|parts| - 1] == "replay"
        && getUp && updateUp && parts[|parts| - 2] in old(store.rows)
    {
      if !isPost {
        return STATUS_METHOD_NOT_ALLOWED, [];
      }
      if |parts| < 4 || parts[|parts| - 1] != "replay" {
        return STATUS_BAD_REQUEST, [];
      }
      var id := parts[|parts| - 2];
      var found := store.GetEvent(id, getUp);
      if found.Err? {
        return STATUS_INTERNAL_SERVER_ERROR, [];
      }
      if found.value.None? {
        return STATUS_NOT_FOUND, [];
      }
      var event := found.value.value;
      var replay := Event(event.id, event.typ, event.headers, event.payload, event.createdAt, None, "",
                          event.repository, event.sender, uuid, now);
      ghost var before := store.rows;
      var updated := store.UpdateEvent(replay, updateUp);
      if updated.Err? {
        return STATUS_INTERNAL_SERVER_ERROR, [];
      }
      assert store.rows == ReplayTable(before, [event], _ => Stamp(uuid, now, true)) by {
        assert [event][..0] == [];
        assert ReplayTable(before, [], _ => Stamp(uuid, now, true)) == before;
      }
      return STATUS_OK, [replay];
    }

    /** The parameters of a range replay, checked and collected one by one. */
    static method ParseRange(q: RangeQuery) returns (r: Result<QueryOptions, nat>)
      ensures r == if WellPosed(q) then Ok(Selection(q)) else Err(STATUS_BAD_REQUEST)
      ensures r.Err? <==>
        q.limit.Malformed? || (q.limit.Given? && q.limit.value <= 0) || !q.since.Given? || !q.until.Given?
      ensures r.Ok? ==>
        r.value == QueryOptions(if q.typ == "" then [] else [q.typ], q.repository, q.sender, q.since.value, q.until.value,
                                if q.limit.Given? then q.limit.value else 100, 0, false)
    {
      var opts := EVERYTHING.(limit := DEFAULT_REPLAY_LIMIT);
      if !q.limit.Absent? {
        if q.limit.Malformed? {
          return Err(STATUS_BAD_REQUEST);
        }
        if q.limit.value <= 0 {
          return Err(STATUS_BAD_REQUEST);
        }
        opts := opts.(limit := q.limit.value);
      }
      if !q.since.Given? {
        return Err(STATUS_BAD_REQUEST);
      }
      opts := opts.(since := q.since.value);
      if !q.until.Given? {
        return Err(STATUS_BAD_REQUEST);
      }
      opts := opts.(until := q.until.value);
      if q.typ != "" {
        opts := opts.(types := [q.typ]);
      }
      if q.repository != "" {
        opts := opts.(repository := q.repository);
      }
      if q.sender != "" {
        opts := opts.(sender := q.sender);
      }
      r := Ok(opts);
    }

    /**
     Replays the events of a time range. A well-posed request that finds rows writes them back
     in the order listed, all of them or, when an update fails, exactly those before it.
     */
    method ReplayRange(isPost: bool, q: RangeQuery, scan: seq<string>, stamps: nat -> Stamp, countUp: bool, listUp: bool)
      returns (status: nat, events: seq<Event>)
      requires IsScan(store.rows, scan)
      modifies store
      ensures status in {200, 400, 404, 405, 500}
      ensures status == 405 <==> !isPost
      ensures status == 400 <==>
        isPost && (q.limit.Malformed? || (q.limit.Given? && q.limit.value <= 0) || !q.since.Given? || !q.until.Given?)
      ensures q.since.Given? && q.until.Given? ==>
        var before, after := old(store.rows), store.rows;
        var qualify := set id | id in before
                         && (q.since.value != ZERO_TIME ==> before[id].createdAt >= q.since.value)
                         && (q.until.value != ZERO_TIME ==> before[id].createdAt <= q.until.value)
                         && (q.typ != "" ==> before[id].typ == q.typ)
                         && (q.repository != "" ==> before[id].repository == q.repository)
                         && (q.sender != "" ==> before[id].sender == q.sender);
        var limit := if q.limit.Given? then q.limit.value else 100;
        && after.Keys == before.Keys
        && (forall id :: id in before && after[id] != before[id] ==> id in qualify)
        && (isPost && !q.limit.Malformed? && limit > 0 && countUp && listUp && NoneFails(stamps) ==>
              && status == (if qualify == {} then 404 else 200)
              && |events| == Min(|qualify|, limit)
              && (|qualify| <= limit ==> forall id :: id in qualify ==> after[id].forwardedAt == None))
      ensures isPost && WellPosed(q) && countUp && listUp && old(Rows(store.rows, Selection(q), scan)) == []
         <==> status == STATUS_NOT_FOUND
      ensures isPost && WellPosed(q) && countUp && listUp ==>
        var rows := old(Rows(store.rows, Selection(q), scan));
        && WrittenBack(old(store.rows), store.rows, rows, stamps, status == 200 || rows == [])
        && (status == 200 ==> rows != [] && Answers(events, rows, stamps))
      ensures !(isPost && WellPosed(q) && countUp && listUp) ==> status != STATUS_OK && store.rows == old(store.rows)
    {
      if !isPost {
        return STATUS_METHOD_NOT_ALLOWED, [];
      }
      var parsed := ParseRange(q);
      if parsed.Err? {
        return parsed.error, [];
      }
      ghost var before := store.rows;
      var r := ReplayListed(store, parsed.value, scan, stamps, countUp, listUp);
      if r != Err(ListFailed) {
        ghost var rows := Rows(before, parsed.value, scan);
        RangeExactly(before, q.since.value, q.until.value, q.typ, q.repository, q.sender, parsed.value.limit,
                     scan, stamps, rows, r.Ok? || rows == [], store.rows);
      }
      match r
      case Ok(events) => return STATUS_OK, events;
      case Err(NoneFound) => return STATUS_NOT_FOUND, [];
      case Err(_) => return STATUS_INTERNAL_SERVER_ERROR, [];
    }
  }
}
