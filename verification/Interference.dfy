/** Exactly which queries keep their promise when other actors run between the count and the select. */
module Interference {
  import opened Wrappers
  import opened Sequences
  import opened Events
  import opened Protocol
  import opened Provenance
  import opened Refinement

  /** The page selected at point j is as long as the total counted at point i promises. */
  ghost predicate Kept(width: nat, steps: seq<Step>, i: nat, j: nat, o: QueryOptions, scan: seq<string>)
    requires i <= j <= |steps| && IsScan(After(width, steps[..j]).table, scan)
  {
    |Rows(After(width, steps[..j]).table, o, scan)| >= PageLength(Count(After(width, steps[..i]).table, o), o.limit, o.offset)
  }

  /** ... in every run, at any two points, whatever the order of the rows. */
  ghost predicate Promised(width: nat, o: QueryOptions) {
    forall steps: seq<Step>, i: nat, j: nat, scan: seq<string> ::
      i <= j <= |steps| && IsScan(After(width, steps[..j]).table, scan) ==> Kept(width, steps, i, j, o, scan)
  }

  /** The query asks for a range of time that ends before it begins. */
  predicate Hopeless(o: QueryOptions) {
    o.since != ZERO_TIME && o.until != ZERO_TIME && o.until < o.since
  }

  /** A new event that satisfies all the query's conditions that can be satisfied. */
  function Sought(o: QueryOptions): Event {
    Event("", if o.types == [] then "" else o.types[0], "", [], if o.since != ZERO_TIME then o.since else o.until,
          None, "", o.repository, o.sender, "", ZERO_TIME)
  }

  /** Only such a query matches no event that a handler may store. */
  lemma HopelessExactly(o: QueryOptions)
    ensures Hopeless(o) <==> forall e :: IsNew(e) ==> !Matches(o, e)
  {
    if !Hopeless(o) {
      assert IsNew(Sought(o)) && Matches(o, Sought(o));
    }
  }

  lemma HopelessSelectsNothing(t: Table, o: QueryOptions)
    requires Hopeless(o)
    ensures Count(t, o) == 0
  {
    assert Selected(t, o) == {};
  }

  // ---- the run that breaks the promise ----

  function CopyId(k: nat): (r: string)
    ensures |r| == k
  {
    seq(k, _ => 'a')
  }

  /** Handlers store n copies of an event under different ids. */
  function Receives(e: Event, n: nat): seq<Step> {
    if n == 0 then [] else Receives(e, n - 1) + [Receive(e.(id := CopyId(n - 1)))]
  }

  predicate Copies(t: Table, e: Event, n: nat) {
    && |t| == n
    && forall id :: id in t ==> t[id] == e.(id := id) && |id| < n
  }

  lemma {:induction false} ReceivesRun(width: nat, e: Event, n: nat)
    requires IsNew(e)
    ensures var s := After(width, Receives(e, n));
            Copies(s.table, e, n) && s.workers == Init(width).workers
  {
    if n == 0 {
    } else {
      ReceivesRun(width, e, n - 1);
      var s, x := After(width, Receives(e, n - 1)), Receive(e.(id := CopyId(n - 1)));
      assert Receives(e, n)[..|Receives(e, n)| - 1] == Receives(e, n - 1);
      OneWorkerMoves(s, x);
      assert CopyId(n - 1) !in s.table;
      assert Next(s, x).table == s.table[CopyId(n - 1) := e.(id := CopyId(n - 1))];
    }
  }

  /** A pass gets its first event accepted. */
  function FirstAccepted(rows: seq<Event>): seq<Step> {
    [EnqueueForward, TakeForwardJob(0)] + [List(0, rows)] + [Post(0, Accepted)]
  }

  lemma FirstAcceptedRun(s: State, rows: seq<Event>)
    requires s.workers != [] && s.workers[0] == Idle && IsPendingList(s.table, rows) && rows != []
    ensures var s' := Run(s, FirstAccepted(rows));
            && s'.workers != [] && s'.workers[0] == Unmarked(rows[0], rows[1..])
            && s'.table == s.table && s'.replays == s.replays && s'.log == s.log + [Sent(0, rows[0], Accepted)]
  {
    var s1 := SetWorker(s, 0, Woken).(forwardJob := false);
    var s2 := SetWorker(s1, 0, Busy(rows));
    var s3 := SetWorker(s2, 0, Unmarked(rows[0], rows[1..])).(log := s.log + [Sent(0, rows[0], Accepted)]);
    assert Run(s, [EnqueueForward, TakeForwardJob(0)]) == s1 by { WakeUp(s); }
    assert Run(s1, [List(0, rows)]) == s2 by { ListStep(s1, 0, rows); }
    assert Run(s2, [Post(0, Accepted)]) == s3 by {
      assert rows == [rows[0]] + rows[1..];
      PostStep(s2, 0, rows[0], rows[1..], Accepted);
    }
    RunVia(s, [EnqueueForward, TakeForwardJob(0)], s1, [List(0, rows)], s2);
    RunVia(s, [EnqueueForward, TakeForwardJob(0)] + [List(0, rows)], s2, [Post(0, Accepted)], s3);
  }

  /** With one row too few the page falls short of the total counted just before. */
  lemma ShortPage(t: Table, id: string, o: QueryOptions, scan: seq<string>)
    requires o.onlyNonForwarded
    requires Count(t, o) == Max(0, o.offset) + 1 && id in Selected(t, o)
    requires IsScan(Mark(t, id, 1), scan)
    ensures |Rows(Mark(t, id, 1), o, scan)| < PageLength(Count(t, o), o.limit, o.offset)
  {
    var t' := Mark(t, id, 1);
    assert forall i :: i in scan ==> i in ToSet(scan);
    assert |Filter(t', o, scan)| == Count(t', o) by { FilterIsSelection(t', o, scan); }
    assert Selected(t', o) == Selected(t, o) - {id};
    PageSize(Filter(t', o, scan), o.limit, o.offset);
  }

  lemma CopiesSelected(t: Table, e: Event, n: nat, o: QueryOptions)
    requires Copies(t, e, n) && Matches(o, e) && e.Pending()
    ensures Selected(t, o) == t.Keys == PendingIds(t) && Count(t, o) == n
  {
    assert Selected(t, o) == t.Keys;
    assert PendingIds(t) == t.Keys;
  }

  /** A run that stores n copies and gets one of them, with its mark to come, accepted. */
  lemma AcceptOne(width: nat, e: Event, n: nat) returns (before: seq<Step>, id: string)
    requires width > 0 && n > 0 && IsNew(e)
    ensures var s := After(width, before);
            && Copies(s.table, e, n) && id in s.table
            && s.workers != [] && s.workers[0].Owes(id)
  {
    var stores := Receives(e, n);
    var s := After(width, stores);
    ReceivesRun(width, e, n);
    CopiesSelected(s.table, e, n, NON_FORWARDED);
    ScanExists(s.table);
    var order :| IsScan(s.table, order);
    PendingQuery(s.table, order);
    var rows := Page(Filter(s.table, NON_FORWARDED, order), 0, 0);
    PendingCount(s.table, rows);
    assert rows[0] in rows;
    before, id := stores + FirstAccepted(rows), rows[0].id;
    FirstAcceptedRun(s, rows);
    RunConcat(Init(width), stores, FirstAccepted(rows));
  }

  lemma MarkOwed(s: State, id: string)
    requires s.workers != [] && s.workers[0].Owes(id)
    ensures Run(s, [MarkApplied(0, 1)]).table == Mark(s.table, id, 1)
  {
    RunOne(s, MarkApplied(0, 1));
  }

  /** Any pending event that can be stored and matches leads to a run in which a mark makes the page short. */
  lemma BrokenPromise(width: nat, o: QueryOptions, e: Event)
    requires width > 0 && o.onlyNonForwarded && IsNew(e) && Matches(o, e)
    ensures !Promised(width, o)
  {
    var n := Max(0, o.offset) + 1;
    var before, id := AcceptOne(width, e, n);
    var t := After(width, before).table;
    var all := before + [MarkApplied(0, 1)];
    MarkOwed(After(width, before), id);
    RunConcat(Init(width), before, [MarkApplied(0, 1)]);
    assert all[..|before|] == before && all[..|all|] == all;
    CopiesSelected(t, e, n, o);
    ScanExists(Mark(t, id, 1));
    var scan :| IsScan(Mark(t, id, 1), scan);
    ShortPage(t, id, o, scan);
    NotKept(width, all, |before|, |all|, o, scan);
  }

  lemma NotKept(width: nat, steps: seq<Step>, i: nat, j: nat, o: QueryOptions, scan: seq<string>)
    requires i <= j <= |steps| && IsScan(After(width, steps[..j]).table, scan) && !Kept(width, steps, i, j, o, scan)
    ensures !Promised(width, o)
  {
  }

  lemma PendingCount(t: Table, rows: seq<Event>)
    requires IsPendingList(t, rows) && PendingIds(t) != {}
    ensures rows != []
  {
    var id :| id in PendingIds(t);
    assert id in ToSet(Ids(rows));
  }

  /**
   Counting first and selecting later keeps the promise of the total, for every interleaving,
   if and only if the query does not ask for the forwarding state, or for a range of time that ends before it begins. Any limit, any offset.
   */
  lemma CountThenListExactly(width: nat, o: QueryOptions)
    requires width > 0
    ensures Promised(width, o) <==> !o.onlyNonForwarded || Hopeless(o)
  {
    if !o.onlyNonForwarded {
      forall steps: seq<Step>, i: nat, j: nat, scan: seq<string>
        | i <= j <= |steps| && IsScan(After(width, steps[..j]).table, scan)
        ensures Kept(width, steps, i, j, o, scan)
      {
        CountThenList(width, steps, i, j, o, scan);
      }
    } else if Hopeless(o) {
      forall steps: seq<Step>, i: nat, j: nat, scan: seq<string>
        | i <= j <= |steps| && IsScan(After(width, steps[..j]).table, scan)
        ensures Kept(width, steps, i, j, o, scan)
      {
        HopelessSelectsNothing(After(width, steps[..i]).table, o);
      }
    } else {
      HopelessExactly(o);
      BrokenPromise(width, o, Sought(o));
    }
  }
}
