/** The per-type gauges as a cache of the table, refreshed through a one-slot queue that drops full sends. */
module GaugeCache {
  import opened Sequences
  import opened Events
  import opened Protocol
  import opened Provenance

  function Current(s: State): map<string, nat> { Stats(s.table, ZERO_TIME) }

  ghost predicate Below(a: map<string, nat>, b: map<string, nat>) {
    forall typ :: typ in a ==> typ in b && a[typ] <= b[typ]
  }

  lemma StatsGrow(t: Table, t': Table)
    requires Extends(t, t')
    ensures Below(Stats(t, ZERO_TIME), Stats(t', ZERO_TIME))
  {
    forall typ | typ in Stats(t, ZERO_TIME)
      ensures typ in Stats(t', ZERO_TIME) && Stats(t, ZERO_TIME)[typ] <= Stats(t', ZERO_TIME)[typ]
    {
      var a, b := OfType(t, ZERO_TIME, typ), OfType(t', ZERO_TIME, typ);
      forall id | id in a ensures id in b {
        assert t[id].Fixed() == t'[id].Fixed();
      }
      var id :| id in t && t[id].typ == typ;
      assert id in b;
      SubsetSize(a, b);
    }
  }

  /** The counts depend on the types of the rows only. */
  lemma StatsSame(t: Table, t': Table)
    requires Extends(t, t') && t.Keys == t'.Keys
    ensures Stats(t, ZERO_TIME) == Stats(t', ZERO_TIME)
  {
    assert Extends(t', t);
    StatsGrow(t, t');
    StatsGrow(t', t);
  }

  lemma StatsSum(t: Table)
    ensures Sum(Stats(t, ZERO_TIME)) == |t.Keys|
  {
    StatsConservation(t, ZERO_TIME);
    assert Selected(t, TypeSince([], ZERO_TIME)) == t.Keys;
  }

  /** ... and, since rows are never removed, they tell which rows there are. */
  lemma StatsTellRows(t: Table, t': Table)
    requires Extends(t, t')
    ensures Stats(t, ZERO_TIME) == Stats(t', ZERO_TIME) <==> t.Keys == t'.Keys
  {
    StatsSum(t);
    StatsSum(t');
    if Stats(t, ZERO_TIME) == Stats(t', ZERO_TIME) {
      SameSize(t.Keys, t'.Keys);
    }
    if t.Keys == t'.Keys {
      StatsSame(t, t');
    }
  }

  lemma SameSize<T>(a: set<T>, b: set<T>)
    requires a <= b && |a| == |b|
    ensures a == b
  {
    assert |b - a| == |b| - |a|;
  }

  // ---- the table the gauges show ----

  /** The table as the last query of this process found it; none has run since the start: no rows. */
  function Seen(width: nat, steps: seq<Step>): Table {
    if steps == [] then map[]
    else
      var rest, x := steps[..|steps| - 1], steps[|steps| - 1];
      if !Enabled(After(width, rest), x) then Seen(width, rest)
      else if x.QueryStats? then After(width, rest).table
      else if x.Restart? then map[]
      else Seen(width, rest)
  }

  /** The gauges are these counts, except those of a gather in progress that are still to be set, which are lower. */
  ghost predicate Shows(gauges: map<string, nat>, gatherer: Gatherer, counts: map<string, nat>) {
    && Below(gauges, counts)
    && match gatherer
       case Setting(stats, todo) =>
         && stats == counts
         && forall typ :: typ in stats && typ !in todo ==> typ in gauges && gauges[typ] == stats[typ]
       case _ => gauges == counts
  }

  /** The steps of the metrics goroutine, and the restart that resets it. */
  predicate Gathers(x: Step) {
    x.TakeGaugeJob? || x.QueryStats? || x.QueryStatsFailed? || x.SetGauge? || x.GatherDone? || x.Restart?
  }

  lemma OthersLeaveGauges(s: State, x: Step)
    requires !Gathers(x)
    ensures Next(s, x).gauges == s.gauges && Next(s, x).gatherer == s.gatherer
  {
  }

  lemma SetOne(gauges: map<string, nat>, stats: map<string, nat>, todo: set<string>, typ: string, counts: map<string, nat>)
    requires Shows(gauges, Setting(stats, todo), counts) && typ in todo && typ in stats
    ensures Shows(gauges[typ := stats[typ]], Setting(stats, todo - {typ}), counts)
    ensures Below(gauges, gauges[typ := stats[typ]])
  {
  }

  lemma AllSet(gauges: map<string, nat>, stats: map<string, nat>, counts: map<string, nat>)
    requires Shows(gauges, Setting(stats, {}), counts)
    ensures gauges == counts
  {
    assert forall typ :: typ in gauges <==> typ in counts;
  }

  /** Apart from its queries, the metrics goroutine only brings the gauges closer to the counts it has read. */
  lemma GatherMoves(s: State, x: Step, counts: map<string, nat>)
    requires Gathers(x) && Enabled(s, x) && !x.QueryStats? && !x.Restart?
    requires Shows(s.gauges, s.gatherer, counts)
    ensures Shows(Do(s, x).gauges, Do(s, x).gatherer, counts)
    ensures Below(s.gauges, Do(s, x).gauges)
  {
    if x.SetGauge? {
      SetOne(s.gauges, s.gatherer.stats, s.gatherer.todo, x.typ, counts);
    } else if x.GatherDone? {
      AllSet(s.gauges, s.gatherer.stats, counts);
    }
  }

  /** A query shows a later table; until its counts are set the gauges show at most those. */
  lemma QueryShows(s: State, counts: map<string, nat>)
    requires s.gatherer.Asked? && Shows(s.gauges, s.gatherer, counts) && Below(counts, Current(s))
    ensures var s' := Do(s, QueryStats);
            Shows(s'.gauges, s'.gatherer, Current(s)) && s'.gauges == s.gauges
  {
  }

  lemma RestartShows(s: State)
    ensures var s' := Do(s, Restart);
            Shows(s'.gauges, s'.gatherer, Stats(map[], ZERO_TIME))
  {
    assert Stats(map[], ZERO_TIME) == map[];
  }

  /** At every point the gauges show the table last seen, and every row then seen is still there. */
  lemma {:induction false} ShowsSeen(width: nat, steps: seq<Step>)
    ensures var s := After(width, steps);
            && Extends(Seen(width, steps), s.table)
            && Shows(s.gauges, s.gatherer, Stats(Seen(width, steps), ZERO_TIME))
  {
    if steps == [] {
      assert Stats(map[], ZERO_TIME) == map[];
    } else {
      var rest, x := steps[..|steps| - 1], steps[|steps| - 1];
      var s := After(width, rest);
      ShowsSeen(width, rest);
      assert Extends(s.table, Next(s, x).table) by {
        InvInit(width);
        InvRun(Init(width), rest);
        TableExtends(s, x);
      }
      if Enabled(s, x) {
        ShowsStep(s, x, Seen(width, rest));
      }
    }
  }

  lemma ShowsStep(s: State, x: Step, seen: Table)
    requires Enabled(s, x) && Extends(seen, s.table)
    requires Shows(s.gauges, s.gatherer, Stats(seen, ZERO_TIME))
    ensures var seen' := if x.QueryStats? then s.table else if x.Restart? then map[] else seen;
            Shows(Do(s, x).gauges, Do(s, x).gatherer, Stats(seen', ZERO_TIME))
  {
    if x.QueryStats? {
      StatsGrow(seen, s.table);
      QueryShows(s, Stats(seen, ZERO_TIME));
    } else if x.Restart? {
      RestartShows(s);
    } else if Gathers(x) {
      GatherMoves(s, x, Stats(seen, ZERO_TIME));
    } else {
      OthersLeaveGauges(s, x);
    }
  }

  // ---- what that says of the gauges ----

  /**
   In every reachable state, failed and half-finished gathers included, each gauge is at most
   the number of rows of its type.
   */
  lemma GaugesUnderApproximate(width: nat, steps: seq<Step>, typ: string)
    requires typ in After(width, steps).gauges
    ensures After(width, steps).gauges[typ] <= Count(After(width, steps).table, TypeSince([typ], ZERO_TIME))
  {
    ShowsSeen(width, steps);
    StatsGrow(Seen(width, steps), After(width, steps).table);
    StatsConservation(After(width, steps).table, ZERO_TIME);
  }

  /** No gauge is ever lowered by a step other than a restart. */
  lemma GaugesNeverFall(width: nat, steps: seq<Step>, x: Step)
    requires x != Restart
    ensures Below(After(width, steps).gauges, Next(After(width, steps), x).gauges)
  {
    ShowsSeen(width, steps);
    GaugesRise(After(width, steps), x, Stats(Seen(width, steps), ZERO_TIME));
  }

  lemma GaugesRise(s: State, x: Step, counts: map<string, nat>)
    requires x != Restart && Shows(s.gauges, s.gatherer, counts)
    ensures Below(s.gauges, Next(s, x).gauges)
  {
    if !Gathers(x) {
      OthersLeaveGauges(s, x);
    } else if Enabled(s, x) && !x.QueryStats? {
      GatherMoves(s, x, counts);
    }
  }

  /**
   Exactly when the gauges are right. Whenever no gather is setting them, they are the table's
   counts by type if and only if no row has been added since the last query of this process ran.
   */
  lemma GaugesExact(width: nat, steps: seq<Step>)
    ensures var s := After(width, steps);
            !s.gatherer.Setting? ==> (s.gauges == Stats(s.table, ZERO_TIME) <==> s.table.Keys == Seen(width, steps).Keys)
  {
    ShowsSeen(width, steps);
    StatsTellRows(Seen(width, steps), After(width, steps).table);
  }

  // ---- wakeups ----

  /** Some wakeup is still on its way to a query not yet run. */
  predicate Dirty(s: State) { s.gaugeJob || s.unannounced > 0 || s.gatherer.Asked? }

  lemma DirtyStep(s: State, x: Step)
    requires Enabled(s, x) && !x.QueryStats? && !x.QueryStatsFailed?
    ensures Dirty(s) || x.Receive? || x.Restart? ==> Dirty(Do(s, x))
    ensures !x.Receive? ==> Do(s, x).table.Keys == s.table.Keys
  {
  }

  /** The last query the gatherer ran failed, and no restart has queued a new one since. */
  predicate LastQueryFailed(width: nat, steps: seq<Step>) {
    if steps == [] then false
    else
      var rest, x := steps[..|steps| - 1], steps[|steps| - 1];
      if !Enabled(After(width, rest), x) then LastQueryFailed(width, rest)
      else if x.QueryStatsFailed? then true
      else if x.QueryStats? || x.Restart? then false
      else LastQueryFailed(width, rest)
  }

  /** A row not yet seen has a wakeup on its way, unless a failed query used it up. */
  lemma {:induction false} UnseenIsDirty(width: nat, steps: seq<Step>)
    ensures var s := After(width, steps);
            LastQueryFailed(width, steps) || Dirty(s) || s.table.Keys == Seen(width, steps).Keys
  {
    if steps == [] {
      assert Dirty(Init(width));
    } else {
      var rest, x := steps[..|steps| - 1], steps[|steps| - 1];
      var s := After(width, rest);
      UnseenIsDirty(width, rest);
      if Enabled(s, x) && !x.QueryStats? && !x.QueryStatsFailed? {
        DirtyStep(s, x);
      }
    }
  }

  /**
   No wakeup is lost: whenever the queue is empty, the gatherer idle and no handler sits between
   its store and its enqueue, the gauges are exactly the table's counts by type, unless the last
   GetStats failed. Dropped sends to a full queue never matter.
   */
  lemma NoLostWakeup(width: nat, steps: seq<Step>)
    ensures var s := After(width, steps);
            !s.gaugeJob && s.gatherer.Waiting? && s.unannounced == 0 && !LastQueryFailed(width, steps)
            ==> s.gauges == Stats(s.table, ZERO_TIME)
  {
    UnseenIsDirty(width, steps);
    GaugesExact(width, steps);
  }

  lemma {:induction false} NeverFailed(width: nat, steps: seq<Step>)
    requires QueryStatsFailed !in steps
    ensures !LastQueryFailed(width, steps)
  {
    if steps == [] {
    } else {
      NeverFailed(width, steps[..|steps| - 1]);
    }
  }

  /** The promise for runs in which GetStats never fails. */
  lemma NoLostWakeupWithoutErrors(width: nat, steps: seq<Step>)
    requires QueryStatsFailed !in steps
    ensures var s := After(width, steps);
            !s.gaugeJob && s.gatherer.Waiting? && s.unannounced == 0 ==> s.gauges == Stats(s.table, ZERO_TIME)
  {
    NeverFailed(width, steps);
    NoLostWakeup(width, steps);
  }

  /** The exception is real: after one store and one failed query all is quiet and the count is missing. */
  lemma FailedQueryLeavesStale(width: nat, e: Event)
    requires IsNew(e)
    ensures var s := After(width, [Receive(e), Announce, TakeGaugeJob, QueryStatsFailed]);
            && !s.gaugeJob && s.gatherer.Waiting? && s.unannounced == 0
            && s.gauges == map[] && Count(s.table, TypeSince([e.typ], ZERO_TIME)) == 1
  {
    var t: Table := map[e.id := e];
    var s1 := Init(width).(table := t, unannounced := 1);
    var steps := [Announce, TakeGaugeJob, QueryStatsFailed];
    assert Run(Init(width), [Receive(e)]) == s1 by {
      RunOne(Init(width), Receive(e));
      OneWorkerMoves(Init(width), Receive(e));
    }
    FailedGather(s1);
    RunConcat(Init(width), [Receive(e)], steps);
    assert [Receive(e)] + steps == [Receive(e), Announce, TakeGaugeJob, QueryStatsFailed];
    assert Selected(t, TypeSince([e.typ], ZERO_TIME)) == {e.id};
  }

  /** A gather that fails uses up the wakeup and sets nothing. */
  lemma FailedGather(s: State)
    requires s.gaugeJob && s.gatherer.Waiting? && s.unannounced == 1
    ensures Run(s, [Announce, TakeGaugeJob, QueryStatsFailed]) == s.(unannounced := 0, gaugeJob := false)
  {
    var s1 := s.(unannounced := 0);
    var s2 := s1.(gaugeJob := false, gatherer := Asked);
    var s3 := s1.(gaugeJob := false);
    OneWorkerMoves(s, Announce);
    RunOne(s, Announce);
    OneWorkerMoves(s1, TakeGaugeJob);
    RunTo(s, [Announce], s1, TakeGaugeJob, s2);
    assert [Announce] + [TakeGaugeJob] == [Announce, TakeGaugeJob];
    OneWorkerMoves(s2, QueryStatsFailed);
    RunTo(s, [Announce, TakeGaugeJob], s2, QueryStatsFailed, s3);
    assert [Announce, TakeGaugeJob] + [QueryStatsFailed] == [Announce, TakeGaugeJob, QueryStatsFailed];
  }
}
