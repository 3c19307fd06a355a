/**
 Whole operations as runs of the protocol from their first step on: replays, refreshes of the
 gauges, prompted passes, failures and starts of the process. Each is stated for every state in
 which its actor is at that point, so none of these steps is ever skipped there.
 */
module Undisturbed {
  import opened Wrappers
  import opened Headers
  import opened Events
  import opened Protocol
  import opened GaugeCache
  import opened Forwarding
  import opened Refinement

  // ---- replays ----

  /** The steps of a replay request that reads these rows and writes k of them back. */
  function RequestSteps(r: nat, rows: seq<Event>, stamps: nat -> Stamp, k: nat): seq<Step> {
    [ReplayRead(r, rows)] + ReplaySteps(r, stamps, k) + [ReplayEnd(r)]
  }

  lemma ReadStep(s: State, r: nat, rows: seq<Event>)
    requires r !in s.replays && IsRead(s.table, rows)
    ensures Run(s, [ReplayRead(r, rows)]) == s.(replays := s.replays[r := rows])
  {
    RunOne(s, ReplayRead(r, rows));
    OneWorkerMoves(s, ReplayRead(r, rows));
  }

  lemma EndStep(s: State, r: nat)
    requires r in s.replays
    ensures Run(s, [ReplayEnd(r)]) == s.(replays := s.replays - {r})
  {
    RunOne(s, ReplayEnd(r));
    OneWorkerMoves(s, ReplayEnd(r));
  }

  lemma RequestRun(s: State, r: nat, rows: seq<Event>, stamps: nat -> Stamp, k: nat)
    requires r !in s.replays && IsRead(s.table, rows) && k <= |rows|
    ensures Run(s, RequestSteps(r, rows, stamps, k)) == s.(table := ReplayTable(s.table, rows[..k], stamps))
  {
    var s1 := s.(replays := s.replays[r := rows]);
    var s2 := Written(s1, r, stamps, k);
    assert Run(s, [ReplayRead(r, rows)]) == s1 by { ReadStep(s, r, rows); }
    assert Run(s1, ReplaySteps(r, stamps, k)) == s2 by { ReplayIsRun(s1, r, stamps, k); }
    RunVia(s, [ReplayRead(r, rows)], s1, ReplaySteps(r, stamps, k), s2);
    EndStep(s2, r);
    assert s2.replays - {r} == s.replays;
    RunConcat(s, [ReplayRead(r, rows)] + ReplaySteps(r, stamps, k), [ReplayEnd(r)]);
  }

  /** A range replay with any query, in any order of the rows, that stops after any number of them. */
  lemma RangeReplayIsRun(s: State, r: nat, o: QueryOptions, scan: seq<string>, stamps: nat -> Stamp, k: nat)
    requires r !in s.replays && IsScan(s.table, scan) && k <= |Rows(s.table, o, scan)|
    ensures var rows := Rows(s.table, o, scan);
            Run(s, RequestSteps(r, rows, stamps, k)) == s.(table := ReplayTable(s.table, rows[..k], stamps))
  {
    RowsAreRead(s.table, o, scan);
    RequestRun(s, r, Rows(s.table, o, scan), stamps, k);
  }

  /** A replay of one event: its row is pending again, with the stamps; if the update fails nothing changes. */
  lemma EventReplayIsRun(s: State, r: nat, id: string, stamp: Stamp)
    requires r !in s.replays && id in s.table
    ensures var row := s.table[id];
            var row' := row.(forwardedAt := None, error := "", replayedFrom := stamp.uuid, replayedTime := stamp.now);
            && Run(s, RequestSteps(r, [row], _ => stamp, 1)) == s.(table := s.table[id := row'])
            && Run(s, RequestSteps(r, [row], _ => stamp, 0)) == s
  {
    var rows := [s.table[id]];
    RequestRun(s, r, rows, _ => stamp, 1);
    RequestRun(s, r, rows, _ => stamp, 0);
    OneReplayed(s.table, rows[0], _ => stamp);
    assert rows[..1] == rows && rows[..0] == [];
  }

  lemma OneReplayed(t: Table, e: Event, stamps: nat -> Stamp)
    requires e.id in t && t[e.id] == e
    ensures ReplayTable(t, [e], stamps)
         == t[e.id := e.(forwardedAt := None, error := "", replayedFrom := stamps(0).uuid, replayedTime := stamps(0).now)]
  {
    assert [e][..0] == [];
    assert ReplayTable(t, [], stamps) == t;
  }

  // ---- gauges ----

  /** A tick asks for metrics, whatever else is going on. */
  lemma TickIsStep(s: State)
    ensures Run(s, [Tick]) == s.(gaugeJob := true)
  {
    RunOne(s, Tick);
    OneWorkerMoves(s, Tick);
  }

  lemma TakeGauge(s: State)
    requires s.gaugeJob && s.gatherer.Waiting?
    ensures Run(s, [TakeGaugeJob]) == s.(gaugeJob := false, gatherer := Asked)
  {
    RunOne(s, TakeGaugeJob);
    OneWorkerMoves(s, TakeGaugeJob);
  }

  /** A gather from its wakeup on. */
  function GatherSteps(order: seq<string>): seq<Step> {
    [TakeGaugeJob] + ([QueryStats] + SetAll(order) + [GatherDone])
  }

  lemma GatherRun(s: State, order: seq<string>)
    requires s.gaugeJob && s.gatherer.Waiting? && IsRange(Stats(s.table, ZERO_TIME), order)
    requires Below(s.gauges, Stats(s.table, ZERO_TIME))
    ensures Run(s, GatherSteps(order)) == s.(gaugeJob := false, gauges := Stats(s.table, ZERO_TIME))
  {
    var s1 := s.(gaugeJob := false, gatherer := Asked);
    TakeGauge(s);
    GatherIsRun(s1, order);
    RunConcat(s, [TakeGaugeJob], [QueryStats] + SetAll(order) + [GatherDone]);
  }

  /** A gather that fails uses up its wakeup and sets nothing, as GatherMetrics does. */
  lemma FailedGatherIsRun(s: State)
    requires s.gaugeJob && s.gatherer.Waiting?
    ensures Run(s, [TakeGaugeJob] + [QueryStatsFailed]) == s.(gaugeJob := false)
  {
    var s1 := s.(gaugeJob := false, gatherer := Asked);
    TakeGauge(s);
    RunOne(s1, QueryStatsFailed);
    OneWorkerMoves(s1, QueryStatsFailed);
    RunConcat(s, [TakeGaugeJob], [QueryStatsFailed]);
  }

  lemma ReachableBelow(width: nat, steps: seq<Step>)
    ensures Below(After(width, steps).gauges, Stats(After(width, steps).table, ZERO_TIME))
  {
    ShowsSeen(width, steps);
    StatsGrow(Seen(width, steps), After(width, steps).table);
  }

  /**
   The ticker repairs whatever failed queries left stale: from any reachable state with the
   gatherer waiting, a tick and an undisturbed gather make the gauges the table's counts.
   */
  lemma TickRefreshes(width: nat, steps: seq<Step>, order: seq<string>)
    requires var s := After(width, steps);
             s.gatherer.Waiting? && IsRange(Stats(s.table, ZERO_TIME), order)
    ensures var s := After(width, steps);
            Run(s, [Tick] + GatherSteps(order)) == s.(gaugeJob := false, gauges := Stats(s.table, ZERO_TIME))
  {
    var s := After(width, steps);
    ReachableBelow(width, steps);
    TickIsStep(s);
    GatherRun(s.(gaugeJob := true), order);
    RunConcat(s, [Tick], GatherSteps(order));
  }

  // ---- passes ----

  /** A request wakes any worker that is idle. */
  lemma PromptWakes(s: State, w: nat)
    requires w < |s.workers| && s.workers[w].Idle?
    ensures Run(s, [EnqueueForward] + [TakeForwardJob(w)]) == SetWorker(s, w, Woken).(forwardJob := false)
  {
    RunOne(s, EnqueueForward);
    OneWorkerMoves(s, EnqueueForward);
    TakeForward(s.(forwardJob := true), w);
    RunConcat(s, [EnqueueForward], [TakeForwardJob(w)]);
  }

  lemma TakeForward(s: State, w: nat)
    requires w < |s.workers| && s.workers[w].Idle? && s.forwardJob
    ensures Run(s, [TakeForwardJob(w)]) == SetWorker(s, w, Woken).(forwardJob := false)
  {
    RunOne(s, TakeForwardJob(w));
    OneWorkerMoves(s, TakeForwardJob(w));
  }

  /** A pass whose list fails ends at once and changes nothing else. */
  lemma FailedPassIsRun(s: State, w: nat)
    requires w < |s.workers| && s.workers[w].Woken?
    ensures Run(s, [ListFailed(w)]) == SetWorker(s, w, Idle)
  {
    RunOne(s, ListFailed(w));
    OneWorkerMoves(s, ListFailed(w));
  }

  // ---- starts ----

  /** Of what there was before a restart only the table, and what the target has seen, is left. */
  lemma StartIsFirstStart(s: State)
    ensures Run(s, [Restart]) == Init(|s.workers|).(table := s.table, log := s.log)
  {
    RunOne(s, Restart);
    OneWorkerMoves(s, Restart);
  }

  /** Every start refreshes the gauges: from any state, a restart and an undisturbed gather make them the table's counts. */
  lemma StartRefreshes(s: State, order: seq<string>)
    requires IsRange(Stats(s.table, ZERO_TIME), order)
    ensures Run(s, [Restart] + GatherSteps(order)).gauges == Stats(s.table, ZERO_TIME)
  {
    StartIsFirstStart(s);
    GatherRun(Init(|s.workers|).(table := s.table, log := s.log), order);
    RunConcat(s, [Restart], GatherSteps(order));
  }

  /** Every start makes one pass: any worker then lists and attempts whatever is pending. */
  lemma StartForwards(s: State, w: nat, es: seq<Event>, trials: seq<Trial>)
    requires w < |s.workers| && IsPendingList(s.table, es) && |es| == |trials|
    ensures var s' := Run(s, [Restart] + ([TakeForwardJob(w)] + ([List(w, es)] + PassSteps(w, trials) + [PassDone(w)])));
            s'.table == PassTable(s.table, es, trials) && s'.log == s.log + PassLog(w, es, trials)
  {
    var s1 := Init(|s.workers|).(table := s.table, log := s.log);
    var s2 := SetWorker(s1, w, Woken).(forwardJob := false);
    var pass := [List(w, es)] + PassSteps(w, trials) + [PassDone(w)];
    StartIsFirstStart(s);
    assert Run(s1, [TakeForwardJob(w)]) == s2 by { TakeForward(s1, w); }
    PassIsRun(s2, w, es, trials);
    RunConcat(s1, [TakeForwardJob(w)], pass);
    RunConcat(s, [Restart], [TakeForwardJob(w)] + pass);
  }
}
