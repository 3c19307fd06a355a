/** The GraphQL resolvers: a second implementation of the replay operations, and the statistics. */
module Graphql {
  import opened Wrappers
  import opened Sequences
  import opened Headers
  import opened Events
  import opened SqlStorage
  import opened Forwarding
  import opened Api

  datatype ResolveError = InvalidId | NotFound | MissingParameter | NoneInRange | StoreError(error: StorageError)

  /** The arguments of replayRange; None is an absent one. */
  datatype RangeArgs = RangeArgs(
    limit: Option<int>, since: Option<Time>, until: Option<Time>,
    typ: Option<string>, repository: Option<string>, sender: Option<string>)

  predicate Complete(a: RangeArgs) { a.since.Some? && a.until.Some? }

  function OrEmpty(s: Option<string>): string { if s.Some? then s.value else "" }

  /** The query a complete range replay runs; a limit that is not positive is ignored. */
  function ArgsSelection(a: RangeArgs): QueryOptions
    requires Complete(a)
  {
    QueryOptions(
      if OrEmpty(a.typ) == "" then [] else [a.typ.value], OrEmpty(a.repository), OrEmpty(a.sender),
      a.since.value, a.until.value,
      if a.limit.Some? && a.limit.value > 0 then a.limit.value else DEFAULT_REPLAY_LIMIT, 0, false)
  }

  /** The REST form of the same arguments. */
  function AsQuery(a: RangeArgs): RangeQuery {
    RangeQuery(
      if a.limit.Some? then Given(a.limit.value) else Absent,
      if a.since.Some? then Given(a.since.value) else Absent,
      if a.until.Some? then Given(a.until.value) else Absent,
      OrEmpty(a.typ), OrEmpty(a.repository), OrEmpty(a.sender))
  }

  /**
   The two range replays select the same rows exactly when the limit is absent or positive, or is
   refused by one and replaced by the default in the other.
   */
  lemma SameSelection(a: RangeArgs)
    ensures WellPosed(AsQuery(a)) <==> Complete(a) && (a.limit.Some? ==> a.limit.value > 0)
    ensures WellPosed(AsQuery(a)) ==> ArgsSelection(a) == Selection(AsQuery(a))
    ensures Complete(a) && !WellPosed(AsQuery(a)) ==> ArgsSelection(a).limit == DEFAULT_REPLAY_LIMIT
  {
  }

  /**
   So, wherever REST accepts the request and the same updates fail, both forms stop after the same
   number of rows and have the same effect on the table, up to uuids and the clock.
   */
  lemma SameEffect(a: RangeArgs, t: Table, scan: seq<string>, graphql: nat -> Stamp, rest: nat -> Stamp, j: nat, k: nat)
    requires IsScan(t, scan) && WellPosed(AsQuery(a)) && forall i :: graphql(i).up == rest(i).up
    requires Complete(a) && StopsAfter(graphql, |Rows(t, ArgsSelection(a), scan)|, j)
    requires StopsAfter(rest, |Rows(t, Selection(AsQuery(a)), scan)|, k)
    ensures j == k
    ensures var one := ReplayTable(t, Rows(t, ArgsSelection(a), scan)[..j], graphql);
            var two := ReplayTable(t, Rows(t, Selection(AsQuery(a)), scan)[..k], rest);
            one.Keys == two.Keys && forall id :: id in one ==> Unstamped(one[id]) == Unstamped(two[id])
  {
    SameSelection(a);
    assert j == k;
    RowsAreRead(t, ArgsSelection(a), scan);
    PrefixIsRead(t, Rows(t, ArgsSelection(a), scan), j);
    StampsOnly(t, Rows(t, ArgsSelection(a), scan)[..j], graphql, rest);
  }

  /** A list that holds each entry of a map once. */
  predicate Lists(list: seq<(string, nat)>, m: map<string, nat>) {
    && |list| == |m|
    && (forall i, j :: 0 <= i < j < |list| ==> list[i].0 != list[j].0)
    && (forall i :: 0 <= i < |list| ==> list[i].0 in m && list[i].1 == m[list[i].0])
  }

  lemma RangeLists(m: map<string, nat>, order: seq<string>, list: seq<(string, nat)>)
    requires IsRange(m, order) && |list| == |order|
    requires forall j :: 0 <= j < |order| ==> order[j] in m && list[j] == (order[j], m[order[j]])
    ensures Lists(list, m)
  {
    DistinctSize(order);
    assert |m.Keys| == |order|;
  }

  class Schema {
    const store: Storage

    constructor (store: Storage)
      ensures this.store == store
    {
      this.store := store;
    }

    method ResolveReplayEvent(id: string, uuid: string, now: Time, getUp: bool, updateUp: bool)
      returns (r: Result<seq<Event>, ResolveError>)
      modifies store
      ensures r.Ok? <==> id != "" && getUp && updateUp && id in old(store.rows)
      ensures r == Err(NotFound) <==> id != "" && getUp && id !in old(store.rows)
      ensures r.Ok? ==>
        && r.value == [Replayed(old(store.rows)[id], uuid, now)]
        && store.rows == ReplayTable(old(store.rows), [old(store.rows)[id]], _ => Stamp(uuid, now, true))
      ensures r.Ok? ==>
        && store.rows.Keys == old(store.rows).Keys
        && forall key :: key in old(store.rows) ==>
             store.rows[key] == if key == id
                                then old(store.rows)[key].(forwardedAt := None, error := "", replayedFrom := uuid, replayedTime := now)
                                else old(store.rows)[key]
      ensures r == Err(InvalidId) <==> id == ""
      ensures r.Err? ==> store.rows == old(store.rows)
    {
      if id == "" {
        return Err(InvalidId);
      }
      var found := store.GetEvent(id, getUp);
      if found.Err? {
        return Err(StoreError(found.error));
      }
      if found.value.None? {
        return Err(NotFound);
      }
      var event := found.value.value;
      var replay := Event(event.id, event.typ, event.headers, event.payload, event.createdAt, None, "",
                          event.repository, event.sender, uuid, now);
      ghost var before := store.rows;
      var updated := store.UpdateEvent(replay, updateUp);
      if updated.Err? {
        return Err(StoreError(updated.error));
      }
      assert store.rows == ReplayTable(before, [event], _ => Stamp(uuid, now, true)) by {
        assert [event][..0] == [];
        assert ReplayTable(before, [], _ => Stamp(uuid, now, true)) == before;
      }
      r := Ok([replay]);
    }

    /** The arguments of a range replay, collected one by one. */
    static method ParseArgs(a: RangeArgs) returns (r: Result<QueryOptions, ResolveError>)
      ensures r == if Complete(a) then Ok(ArgsSelection(a)) else Err(MissingParameter)
      ensures r.Err? <==> a.since.None? || a.until.None?
      ensures r.Ok? ==>
        && r.value.since == a.since.value && r.value.until == a.until.value
        && r.value.types == (if a.typ.None? || a.typ.value == "" then [] else [a.typ.value])
        && r.value.repository == (if a.repository.None? then "" else a.repository.value)
        && r.value.sender == (if a.sender.None? then "" else a.sender.value)
        && r.value.limit == (if a.limit.Some? && a.limit.value > 0 then a.limit.value else 100)
        && r.value.offset == 0 && !r.value.onlyNonForwarded
    {
      var opts := EVERYTHING.(limit := DEFAULT_REPLAY_LIMIT);
      if a.limit.Some? && a.limit.value > 0 {
        opts := opts.(limit := a.limit.value);
      }
      if a.since.None? {
        return Err(MissingParameter);
      }
      opts := opts.(since := a.since.value);
      if a.until.None? {
        return Err(MissingParameter);
      }
      opts := opts.(until := a.until.value);
      if a.typ.Some? && a.typ.value != "" {
        opts := opts.(types := [a.typ.value]);
      }
      if a.repository.Some? && a.repository.value != "" {
        opts := opts.(repository := a.repository.value);
      }
      if a.sender.Some? && a.sender.value != "" {
        opts := opts.(sender := a.sender.value);
      }
      r := Ok(opts);
    }

    method ResolveReplayRange(a: RangeArgs, scan: seq<string>, stamps: nat -> Stamp, countUp: bool, listUp: bool)
      returns (r: Result<seq<Event>, ResolveError>)
      requires IsScan(store.rows, scan)
      modifies store
      ensures r == Err(MissingParameter) <==> a.since.None? || a.until.None?
      ensures a.since.Some? && a.until.Some? ==>
        var before, after := old(store.rows), store.rows;
        var typ := if a.typ.Some? then a.typ.value else "";
        var repository := if a.repository.Some? then a.repository.value else "";
        var sender := if a.sender.Some? then a.sender.value else "";
        var qualify := set id | id in before
                         && (a.since.value != ZERO_TIME ==> before[id].createdAt >= a.since.value)
                         && (a.until.value != ZERO_TIME ==> before[id].createdAt <= a.until.value)
                         && (typ != "" ==> before[id].typ == typ)
                         && (repository != "" ==> before[id].repository == repository)
                         && (sender != "" ==> before[id].sender == sender);
        var limit := if a.limit.Some? && a.limit.value > 0 then a.limit.value else 100;
        && after.Keys == before.Keys
        && (forall id :: id in before && after[id] != before[id] ==> id in qualify)
        && (countUp && listUp && NoneFails(stamps) ==>
              && (r.Ok? <==> qualify != {})
              && (r.Ok? ==> |r.value| == Min(|qualify|, limit))
              && (|qualify| <= limit ==> forall id :: id in qualify ==> after[id].forwardedAt == None))
      ensures r == Err(NoneInRange) <==> Complete(a) && countUp && listUp && old(Rows(store.rows, ArgsSelection(a), scan)) == []
      ensures Complete(a) && countUp && listUp ==>
        var rows := old(Rows(store.rows, ArgsSelection(a), scan));
        && WrittenBack(old(store.rows), store.rows, rows, stamps, r.Ok? || rows == [])
        && (r.Ok? ==> rows != [] && Answers(r.value, rows, stamps))
      ensures !(Complete(a) && countUp && listUp) ==> r.Err? && store.rows == old(store.rows)
    {
      var parsed := ParseArgs(a);
      if parsed.Err? {
        return Err(parsed.error);
      }
      ghost var before := store.rows;
      var replayed := ReplayListed(store, parsed.value, scan, stamps, countUp, listUp);
      if replayed != Err(ListFailed) {
        ghost var rows := Rows(before, parsed.value, scan);
        RangeExactly(before, a.since.value, a.until.value, OrEmpty(a.typ), OrEmpty(a.repository), OrEmpty(a.sender), parsed.value.limit,
                     scan, stamps, rows, replayed.Ok? || rows == [], store.rows);
      }
      match replayed
      case Ok(events) => return Ok(events);
      case Err(NoneFound) => return Err(NoneInRange);
      case Err(_) => return Err(StoreError(Unavailable));
    }

    /** The statistics as a list: one entry for each type, with its count, whatever the order of ranging. */
    method ResolveStats(since: Option<Time>, groups: seq<(string, nat)>, order: seq<string>, up: bool)
      returns (r: Result<seq<(string, nat)>, ResolveError>)
      requires var from := if since.Some? then since.value else ZERO_TIME;
               IsGrouping(store.rows, from, groups) && IsRange(Stats(store.rows, from), order)
      ensures r.Ok? <==> up
      ensures r.Ok? ==>
        var stats := Stats(store.rows, if since.Some? then since.value else ZERO_TIME);
        Lists(r.value, stats)
    {
      var from := ZERO_TIME;
      if since.Some? {
        from := since.value;
      }
      var answer := store.GetStats(from, groups, up);
      if answer.Err? {
        return Err(StoreError(answer.error));
      }
      var counts := answer.value;
      assert forall typ :: typ in order <==> typ in ToSet(order);
      var stats: seq<(string, nat)> := [];
      for i := 0 to |order|
        invariant |stats| == i && forall j :: 0 <= j < i ==> order[j] in counts && stats[j] == (order[j], counts[order[j]])
      {
        assert order[i] in counts;
        stats := stats + [(order[i], counts[order[i]])];
      }
      RangeLists(counts, order, stats);
      r := Ok(stats);
    }
  }
}
