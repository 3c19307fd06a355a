/** Calls of the components that nothing disturbs are runs of the protocol. */
module Refinement {
  import opened Sequences
  import opened Headers
  import opened Events
  import opened Protocol
  import opened GaugeCache
  import opened Forwarding
  import opened Metrics
  import opened Envelope
  import opened Forwarder

  // ---- a gather ----

  /** The steps of a gather after its query. */
  function SetAll(order: seq<string>): seq<Step> {
    seq(|order|, i requires 0 <= i < |order| => SetGauge(order[i]))
  }

  lemma SetStep(s: State, stats: map<string, nat>, todo: set<string>, typ: string)
    requires s.gatherer == Setting(stats, todo) && typ in todo && typ in stats
    ensures Next(s, SetGauge(typ)) == s.(gatherer := Setting(stats, todo - {typ}), gauges := s.gauges[typ := stats[typ]])
  {
  }

  lemma TodoShrinks(all: set<string>, order: seq<string>)
    requires order != [] && Distinct(order)
    ensures var rest, last := order[..|order| - 1], order[|order| - 1];
            && last !in ToSet(rest)
            && all - ToSet(rest) - {last} == all - ToSet(order)
  {
    assert order == order[..|order| - 1] + [order[|order| - 1]];
  }

  lemma {:induction false} SetAllRun(s: State, stats: map<string, nat>, order: seq<string>)
    requires s.gatherer == Setting(stats, stats.Keys) && Distinct(order)
    requires forall typ :: typ in order ==> typ in stats
    ensures Run(s, SetAll(order))
         == s.(gatherer := Setting(stats, stats.Keys - ToSet(order)), gauges := SetGauges(s.gauges, stats, order))
  {
    if order == [] {
      assert stats.Keys - ToSet(order) == stats.Keys;
    } else {
      var rest, last := order[..|order| - 1], order[|order| - 1];
      SetAllRun(s, stats, rest);
      assert SetAll(order)[..|order| - 1] == SetAll(rest);
      TodoShrinks(stats.Keys, order);
      SetStep(Run(s, SetAll(rest)), stats, stats.Keys - ToSet(rest), last);
    }
  }

  lemma RunThree(s: State, first: Step, middle: seq<Step>, last: Step)
    ensures Run(s, [first] + middle + [last]) == Next(Run(Next(s, first), middle), last)
  {
    var steps := [first] + middle + [last];
    var front := [first] + middle;
    assert steps[..|steps| - 1] == front;
    RunSplit(s, front, 1);
    assert front[..1] == [first] && front[1..] == middle;
    assert [first][..0] == [];
    assert Run(s, [first]) == Next(Run(s, []), first);
  }

  /**
   A gather that nothing disturbs is a run of the protocol: it leaves the gauges the collector's
   method computes, and from gauges that under-approximate the table these are the table's counts.
   */
  lemma GatherIsRun(s: State, order: seq<string>)
    requires s.gatherer == Asked && IsRange(Stats(s.table, ZERO_TIME), order)
    ensures var s' := Run(s, [QueryStats] + SetAll(order) + [GatherDone]);
            && s' == s.(gauges := s.gauges + Stats(s.table, ZERO_TIME), gatherer := Waiting)
            && (Below(s.gauges, Stats(s.table, ZERO_TIME)) ==> s'.gauges == Stats(s.table, ZERO_TIME))
  {
    GatherWith(s, Stats(s.table, ZERO_TIME), order);
    if Below(s.gauges, Stats(s.table, ZERO_TIME)) {
      SettingIsExact(s.gauges, Stats(s.table, ZERO_TIME));
    }
  }

  /** Setting all the counts makes gauges that are below them exact. */
  lemma SettingIsExact(gauges: map<string, nat>, counts: map<string, nat>)
    requires Below(gauges, counts)
    ensures gauges + counts == counts
  {
  }

  lemma FirstAndLast(s: State, stats: map<string, nat>)
    requires s.gatherer == Asked && stats == Stats(s.table, ZERO_TIME)
    ensures Next(s, QueryStats) == s.(gatherer := Setting(stats, stats.Keys))
    ensures forall g :: Next(s.(gauges := g, gatherer := Setting(stats, {})), GatherDone) == s.(gauges := g, gatherer := Waiting)
  {
  }

  lemma GatherWith(s: State, stats: map<string, nat>, order: seq<string>)
    requires s.gatherer == Asked && IsRange(stats, order) && stats == Stats(s.table, ZERO_TIME)
    ensures Run(s, [QueryStats] + SetAll(order) + [GatherDone]) == s.(gauges := s.gauges + stats, gatherer := Waiting)
  {
    AllOnce(s.gauges, stats, order);
    RunThree(s, QueryStats, SetAll(order), GatherDone);
    FirstAndLast(s, stats);
    var s1 := s.(gatherer := Setting(stats, stats.Keys));
    SetAllRun(s1, stats, order);
    assert Run(s1, SetAll(order)) == s.(gauges := s.gauges + stats, gatherer := Setting(stats, {}));
  }

  // ---- a pass ----

  function SetWorker(s: State, w: nat, worker: Worker): State
    requires w < |s.workers|
  {
    s.(workers := s.workers[w := worker])
  }

  function TrialSteps(w: nat, trial: Trial): seq<Step> {
    if !trial.outcome.Accepted? then [Post(w, trial.outcome)]
    else [Post(w, Accepted), if trial.markUp then MarkApplied(w, trial.now) else MarkFailed(w)]
  }

  /** The steps of a pass after its list. */
  function PassSteps(w: nat, trials: seq<Trial>): seq<Step> {
    if trials == [] then [] else PassSteps(w, trials[..|trials| - 1]) + TrialSteps(w, trials[|trials| - 1])
  }

  function LogOne(w: nat, e: Event, trial: Trial): seq<Sent> {
    if trial.outcome.NotSent? then [] else [Sent(w, e, trial.outcome)]
  }

  /** What a pass adds to the log: each event once, except those no request was made for. */
  function PassLog(w: nat, es: seq<Event>, trials: seq<Trial>): seq<Sent>
    requires |es| == |trials|
  {
    if es == [] then []
    else
      var n := |es| - 1;
      PassLog(w, es[..n], trials[..n]) + LogOne(w, es[n], trials[n])
  }

  /** Two runs end to end, by way of a named state. */
  lemma RunVia(s: State, a: seq<Step>, mid: State, b: seq<Step>, end: State)
    requires Run(s, a) == mid && Run(mid, b) == end
    ensures Run(s, a + b) == end
  {
    RunConcat(s, a, b);
  }

  lemma PostStep(s: State, w: nat, e: Event, todo: seq<Event>, outcome: Outcome)
    requires w < |s.workers| && s.workers[w] == Busy([e] + todo)
    ensures Run(s, [Post(w, outcome)])
         == SetWorker(s, w, if outcome.Accepted? then Unmarked(e, todo) else Busy(todo))
            .(log := s.log + if outcome.NotSent? then [] else [Sent(w, e, outcome)])
  {
    RunOne(s, Post(w, outcome));
    OneWorkerMoves(s, Post(w, outcome));
    assert ([e] + todo)[1..] == todo;
    assert s.log + [] == s.log;
  }

  lemma MarkStep(s: State, w: nat, e: Event, todo: seq<Event>, x: Step)
    requires w < |s.workers| && s.workers[w] == Unmarked(e, todo)
    requires (x.MarkApplied? && x.worker == w) || x == MarkFailed(w)
    ensures Run(s, [x]) == SetWorker(s, w, Busy(todo)).(table := if x.MarkApplied? then Mark(s.table, e.id, x.now) else s.table)
  {
    RunOne(s, x);
    OneWorkerMoves(s, x);
  }

  lemma AcceptedRun(s: State, w: nat, e: Event, todo: seq<Event>, mark: Step)
    requires w < |s.workers| && s.workers[w] == Busy([e] + todo)
    requires (mark.MarkApplied? && mark.worker == w) || mark == MarkFailed(w)
    ensures Run(s, [Post(w, Accepted)] + [mark])
         == SetWorker(s, w, Busy(todo))
            .(table := if mark.MarkApplied? then Mark(s.table, e.id, mark.now) else s.table, log := s.log + [Sent(w, e, Accepted)])
  {
    var s1 := SetWorker(s, w, Unmarked(e, todo)).(log := s.log + [Sent(w, e, Accepted)]);
    var s2 := SetWorker(s1, w, Busy(todo)).(table := if mark.MarkApplied? then Mark(s.table, e.id, mark.now) else s.table);
    assert Run(s, [Post(w, Accepted)]) == s1 by { PostStep(s, w, e, todo, Accepted); }
    assert Run(s1, [mark]) == s2 by { MarkStep(s1, w, e, todo, mark); }
    RunVia(s, [Post(w, Accepted)], s1, [mark], s2);
    assert s1.workers[w := Busy(todo)] == s.workers[w := Busy(todo)];
  }

  /** One forwardEvent call is a post and, if accepted, a mark. */
  lemma TrialRun(s: State, w: nat, e: Event, todo: seq<Event>, trial: Trial)
    requires w < |s.workers| && s.workers[w] == Busy([e] + todo)
    ensures Run(s, TrialSteps(w, trial))
         == SetWorker(s, w, Busy(todo)).(table := ForwardOne(s.table, e.id, trial), log := s.log + LogOne(w, e, trial))
  {
    if trial.outcome.Accepted? {
      AcceptedTrial(s, w, e, todo, trial);
    } else {
      PostStep(s, w, e, todo, trial.outcome);
    }
  }

  lemma AcceptedTrial(s: State, w: nat, e: Event, todo: seq<Event>, trial: Trial)
    requires w < |s.workers| && s.workers[w] == Busy([e] + todo) && trial.outcome.Accepted?
    ensures Run(s, TrialSteps(w, trial))
         == SetWorker(s, w, Busy(todo)).(table := ForwardOne(s.table, e.id, trial), log := s.log + [Sent(w, e, Accepted)])
  {
    var mark := if trial.markUp then MarkApplied(w, trial.now) else MarkFailed(w);
    AcceptedRun(s, w, e, todo, mark);
    assert [Post(w, Accepted)] + [mark] == TrialSteps(w, trial);
  }

  /** The state once a worker has forwarded es, with todo still ahead. */
  function Worked(s: State, w: nat, es: seq<Event>, todo: seq<Event>, trials: seq<Trial>): State
    requires w < |s.workers| && |es| == |trials|
  {
    SetWorker(s, w, Busy(todo)).(table := PassTable(s.table, es, trials), log := s.log + PassLog(w, es, trials))
  }

  lemma WorkedNone(s: State, w: nat, todo: seq<Event>)
    requires w < |s.workers| && s.workers[w] == Busy(todo)
    ensures Worked(s, w, [], todo, []) == s
  {
    assert s.workers[w := Busy(todo)] == s.workers;
    assert s.log + [] == s.log;
  }

  lemma WorkedNext(s: State, w: nat, es: seq<Event>, todo: seq<Event>, trials: seq<Trial>)
    requires w < |s.workers| && |es| == |trials| > 0
    ensures var n := |es| - 1;
            Run(Worked(s, w, es[..n], [es[n]] + todo, trials[..n]), TrialSteps(w, trials[n])) == Worked(s, w, es, todo, trials)
  {
    var n := |es| - 1;
    var s1 := Worked(s, w, es[..n], [es[n]] + todo, trials[..n]);
    TrialRun(s1, w, es[n], todo, trials[n]);
    assert s1.workers[w := Busy(todo)] == s.workers[w := Busy(todo)];
    assert s1.log + LogOne(w, es[n], trials[n]) == s.log + PassLog(w, es, trials);
  }

  lemma {:induction false} PassRun(s: State, w: nat, es: seq<Event>, todo: seq<Event>, trials: seq<Trial>)
    requires w < |s.workers| && s.workers[w] == Busy(es + todo) && |es| == |trials|
    ensures Run(s, PassSteps(w, trials)) == Worked(s, w, es, todo, trials)
  {
    if es == [] {
      assert es + todo == todo;
      WorkedNone(s, w, todo);
    } else {
      var n := |es| - 1;
      assert es[..n] + ([es[n]] + todo) == es + todo;
      PassRun(s, w, es[..n], [es[n]] + todo, trials[..n]);
      WorkedNext(s, w, es, todo, trials);
      RunConcat(s, PassSteps(w, trials[..n]), TrialSteps(w, trials[n]));
    }
  }

  /**
   A pass that nothing disturbs is a run of the protocol: it leaves the table that the
   forwarder's method leaves, and the log grows by its attempts.
   */
  lemma PassIsRun(s: State, w: nat, es: seq<Event>, trials: seq<Trial>)
    requires w < |s.workers| && s.workers[w] == Woken && |es| == |trials|
    requires IsPendingList(s.table, es)
    ensures Run(s, [List(w, es)] + PassSteps(w, trials) + [PassDone(w)])
         == s.(table := PassTable(s.table, es, trials), log := s.log + PassLog(w, es, trials),
               workers := s.workers[w := Idle], gaugeJob := s.gaugeJob || es != [])
  {
    if es == [] {
      EmptyPassRun(s, w);
    } else {
      FullPassRun(s, w, es, trials);
    }
  }

  /** A pass that lists nothing is over at once and asks for no metrics. */
  lemma EmptyPassRun(s: State, w: nat)
    requires w < |s.workers| && s.workers[w] == Woken && IsPendingList(s.table, [])
    ensures Run(s, [List(w, [])] + PassSteps(w, []) + [PassDone(w)]) == s.(workers := s.workers[w := Idle])
  {
    var s1 := s.(workers := s.workers[w := Idle]);
    RunOne(s, List(w, []));
    OneWorkerMoves(s, List(w, []));
    assert [List(w, [])] + PassSteps(w, []) == [List(w, [])];
    RunTo(s, [List(w, [])], s1, PassDone(w), s1);
  }

  lemma FullPassRun(s: State, w: nat, es: seq<Event>, trials: seq<Trial>)
    requires w < |s.workers| && s.workers[w] == Woken && |es| == |trials|
    requires IsPendingList(s.table, es) && es != []
    ensures Run(s, [List(w, es)] + PassSteps(w, trials) + [PassDone(w)])
         == s.(table := PassTable(s.table, es, trials), log := s.log + PassLog(w, es, trials),
               workers := s.workers[w := Idle], gaugeJob := true)
  {
    assert es + [] == es;
    var s1 := SetWorker(s, w, Busy(es));
    var s2 := SetWorker(s1, w, Busy([])).(table := PassTable(s.table, es, trials), log := s.log + PassLog(w, es, trials));
    var s3 := SetWorker(s2, w, Idle).(gaugeJob := true);
    assert Run(s, [List(w, es)]) == s1 by { ListStep(s, w, es); }
    assert Run(s1, PassSteps(w, trials)) == s2 by { PassRun(s1, w, es, [], trials); }
    assert Run(s2, [PassDone(w)]) == s3 by { DoneStep(s2, w); }
    RunVia(s, [List(w, es)], s1, PassSteps(w, trials), s2);
    RunVia(s, [List(w, es)] + PassSteps(w, trials), s2, [PassDone(w)], s3);
    assert s3.workers == s.workers[w := Idle];
  }

  lemma WakeUp(s: State)
    requires s.workers != [] && s.workers[0] == Idle
    ensures Run(s, [EnqueueForward, TakeForwardJob(0)]) == SetWorker(s, 0, Woken).(forwardJob := false)
  {
    RunOne(s, EnqueueForward);
    OneWorkerMoves(s, EnqueueForward);
    var s1 := s.(forwardJob := true);
    OneWorkerMoves(s1, TakeForwardJob(0));
    RunTo(s, [EnqueueForward], s1, TakeForwardJob(0), SetWorker(s, 0, Woken).(forwardJob := false));
    assert [EnqueueForward] + [TakeForwardJob(0)] == [EnqueueForward, TakeForwardJob(0)];
  }

  lemma ListStep(s: State, w: nat, es: seq<Event>)
    requires w < |s.workers| && s.workers[w] == Woken && IsPendingList(s.table, es) && es != []
    ensures Run(s, [List(w, es)]) == SetWorker(s, w, Busy(es))
  {
    RunOne(s, List(w, es));
    OneWorkerMoves(s, List(w, es));
  }

  lemma DoneStep(s: State, w: nat)
    requires w < |s.workers| && s.workers[w] == Busy([])
    ensures Run(s, [PassDone(w)]) == SetWorker(s, w, Idle).(gaugeJob := true)
  {
    RunOne(s, PassDone(w));
    OneWorkerMoves(s, PassDone(w));
  }

  /** The requests a pass hands to the HTTP client are the entries it makes in the log, one for one. */
  lemma {:induction false} RequestsAreLogged(env: Env, urlOk: bool, w: nat, es: seq<Event>, fates: seq<Fate>)
    requires AllFit(env, es, fates)
    ensures var log, requests := PassLog(w, es, TrialsOf(env, urlOk, es, fates)), Requests(env, urlOk, es, fates);
            && |log| == |requests|
            && forall k :: 0 <= k < |log| ==> IsRequestOf(env, log[k].event, requests[k])
  {
    if es == [] {
    } else {
      var n := |es| - 1;
      var trials := TrialsOf(env, urlOk, es, fates);
      RequestsAreLogged(env, urlOk, w, es[..n], fates[..n]);
      assert trials[..n] == TrialsOf(env, urlOk, es[..n], fates[..n]);
      assert Fits(env, es[n], fates[n]);
      LastIsLogged(env, urlOk, w, es[n], fates[n]);
    }
  }

  /** The request carries the event's payload, and its header rebuilt in some order. */
  ghost predicate IsRequestOf(env: Env, e: Event, r: WebhookRequest) {
    && r.payload == e.payload
    && env.unmarshal(e.headers).Some?
    && exists order :: IsRange(env.unmarshal(e.headers).value, order) && r.header == ForwardHeader(env, e.headers, order)
  }

  /** One request for each event, in order. */
  ghost predicate AreRequestsOf(env: Env, es: seq<Event>, requests: seq<WebhookRequest>) {
    |requests| == |es| && forall i :: 0 <= i < |es| ==> IsRequestOf(env, es[i], requests[i])
  }

  /** One request for each row that the events come from, in order. */
  ghost predicate AreRequestsOfRows(env: Env, t: Table, es: seq<Event>, requests: seq<WebhookRequest>) {
    && |requests| == |es|
    && forall i :: 0 <= i < |es| ==> es[i].id in t && IsRequestOf(env, t[es[i].id], requests[i])
  }

  lemma LastIsLogged(env: Env, urlOk: bool, w: nat, e: Event, fate: Fate)
    requires Fits(env, e, fate)
    ensures var log, requests := LogOne(w, e, TrialOf(env, urlOk, e, fate)), RequestFor(env, urlOk, e, fate);
            && |log| == |requests|
            && forall k :: 0 <= k < |log| ==> IsRequestOf(env, log[k].event, requests[k])
  {
  }

  /** With headers that parse, a pass makes exactly one request for each event it lists, in order. */
  lemma {:induction false} OneRequestEach(env: Env, es: seq<Event>, fates: seq<Fate>)
    requires AllFit(env, es, fates) && forall i :: 0 <= i < |es| ==> env.unmarshal(es[i].headers).Some?
    ensures AreRequestsOf(env, es, Requests(env, true, es, fates))
  {
    if es == [] {
    } else {
      var n := |es| - 1;
      assert Fits(env, es[n], fates[n]);
      OneRequestEach(env, es[..n], fates[..n]);
      OneRequest(env, es[n], fates[n]);
      RequestAdded(env, es, Requests(env, true, es[..n], fates[..n]), RequestFor(env, true, es[n], fates[n]));
    }
  }

  lemma OneRequest(env: Env, e: Event, fate: Fate)
    requires Fits(env, e, fate) && env.unmarshal(e.headers).Some?
    ensures AreRequestsOf(env, [e], RequestFor(env, true, e, fate))
  {
  }

  lemma RequestAdded(env: Env, es: seq<Event>, before: seq<WebhookRequest>, last: seq<WebhookRequest>)
    requires es != [] && AreRequestsOf(env, es[..|es| - 1], before) && AreRequestsOf(env, [es[|es| - 1]], last)
    ensures AreRequestsOf(env, es, before + last)
  {
  }

  /**
   Replay, then forward, as the target sees it: an undisturbed pass after a replay, with headers
   that parse and a target that accepts, makes exactly one request for each row that was pending
   or replayed, with that row's stored headers and payload, and leaves nothing pending.
   */
  lemma ReplayThenSend(env: Env, t: Table, replayed: seq<Event>, stamps: nat -> Stamp, es: seq<Event>, fates: seq<Fate>)
    requires IsRead(t, replayed) && IsPendingList(ReplayTable(t, replayed, stamps), es) && AllFit(env, es, fates)
    requires forall i :: 0 <= i < |es| ==>
               env.unmarshal(es[i].headers).Some? && fates[i].markUp && fates[i].reply.Status? && fates[i].reply.code < 400
    ensures ToSet(Ids(es)) == PendingIds(t) + ToSet(Ids(replayed)) && Distinct(Ids(es))
    ensures AreRequestsOfRows(env, t, es, Requests(env, true, es, fates))
    ensures |Requests(env, true, es, fates)| == |PendingIds(t) + ToSet(Ids(replayed))|
    ensures PendingIds(PassTable(ReplayTable(t, replayed, stamps), es, TrialsOf(env, true, es, fates))) == {}
  {
    AllAccepted(env, es, fates);
    ReplayThenForward(t, replayed, stamps, es, TrialsOf(env, true, es, fates));
    DistinctSize(Ids(es));
    RequestsOfRows(env, t, es, fates);
  }

  lemma RequestsOfRows(env: Env, t: Table, es: seq<Event>, fates: seq<Fate>)
    requires AllFit(env, es, fates) && forall i :: 0 <= i < |es| ==> env.unmarshal(es[i].headers).Some?
    requires forall e :: e in es ==> e.id in t && e.Fixed() == t[e.id].Fixed()
    ensures AreRequestsOfRows(env, t, es, Requests(env, true, es, fates))
  {
    var requests := Requests(env, true, es, fates);
    OneRequestEach(env, es, fates);
    forall i | 0 <= i < |es| ensures es[i].id in t && IsRequestOf(env, t[es[i].id], requests[i]) {
      assert es[i] in es;
      SameRequest(env, es[i], t[es[i].id], requests[i]);
    }
  }

  lemma AllAccepted(env: Env, es: seq<Event>, fates: seq<Fate>)
    requires |es| == |fates|
    requires forall i :: 0 <= i < |es| ==>
               env.unmarshal(es[i].headers).Some? && fates[i].markUp && fates[i].reply.Status? && fates[i].reply.code < 400
    ensures forall trial :: trial in TrialsOf(env, true, es, fates) ==> trial.Marks()
  {
  }

  /** The fixed columns alone decide the request. */
  lemma SameRequest(env: Env, e: Event, e': Event, r: WebhookRequest)
    requires IsRequestOf(env, e, r) && e.Fixed() == e'.Fixed()
    ensures IsRequestOf(env, e', r)
  {
    assert e.headers == e'.headers && e.payload == e'.payload;
  }

  // ---- a replay ----

  /** The first n updates of a replay. */
  function ReplaySteps(r: nat, stamps: nat -> Stamp, n: nat): seq<Step> {
    seq(n, i requires 0 <= i < n => ReplayWrite(r, stamps(i).uuid, stamps(i).now))
  }

  lemma WriteStep(s: State, r: nat, e: Event, rest: seq<Event>, uuid: string, now: Time)
    requires r in s.replays && s.replays[r] == [e] + rest
    ensures Run(s, [ReplayWrite(r, uuid, now)])
         == s.(table := Update(s.table, Replayed(e, uuid, now)), replays := s.replays[r := rest])
  {
    RunOne(s, ReplayWrite(r, uuid, now));
    assert ([e] + rest)[1..] == rest;
  }

  /** The state after k of a request's rows have been written back. */
  function Written(s: State, r: nat, stamps: nat -> Stamp, k: nat): State
    requires r in s.replays && k <= |s.replays[r]|
  {
    s.(table := ReplayTable(s.table, s.replays[r][..k], stamps), replays := s.replays[r := s.replays[r][k..]])
  }

  lemma WriteNext(s: State, r: nat, stamps: nat -> Stamp, k: nat)
    requires r in s.replays && k < |s.replays[r]|
    ensures Run(Written(s, r, stamps, k), [ReplayWrite(r, stamps(k).uuid, stamps(k).now)]) == Written(s, r, stamps, k + 1)
  {
    var rows := s.replays[r];
    var s1, s2 := Written(s, r, stamps, k), Written(s, r, stamps, k + 1);
    assert s1.replays[r] == [rows[k]] + rows[k + 1..];
    WriteStep(s1, r, rows[k], rows[k + 1..], stamps(k).uuid, stamps(k).now);
    ReplayGrows(s.table, rows, stamps, k);
    assert s1.replays[r := rows[k + 1..]] == s2.replays;
  }

  /** ... is where the steps that write them lead. */
  ghost predicate WrittenAfter(s: State, r: nat, stamps: nat -> Stamp, k: nat) {
    r in s.replays && k <= |s.replays[r]| ==> Run(s, ReplaySteps(r, stamps, k)) == Written(s, r, stamps, k)
  }

  lemma StepsGrow(r: nat, stamps: nat -> Stamp, k: nat)
    ensures ReplaySteps(r, stamps, k + 1) == ReplaySteps(r, stamps, k) + [ReplayWrite(r, stamps(k).uuid, stamps(k).now)]
  {
  }

  lemma WrittenGrows(s: State, r: nat, stamps: nat -> Stamp, k: nat)
    requires WrittenAfter(s, r, stamps, k)
    ensures WrittenAfter(s, r, stamps, k + 1)
  {
    if r in s.replays && k < |s.replays[r]| {
      StepsGrow(r, stamps, k);
      WriteNext(s, r, stamps, k);
      RunVia(s, ReplaySteps(r, stamps, k), Written(s, r, stamps, k),
             [ReplayWrite(r, stamps(k).uuid, stamps(k).now)], Written(s, r, stamps, k + 1));
    }
  }

  lemma WrittenNone(s: State, r: nat, stamps: nat -> Stamp)
    ensures WrittenAfter(s, r, stamps, 0)
  {
    if r in s.replays {
      assert s.replays[r][0..] == s.replays[r];
      assert s.replays[r := s.replays[r]] == s.replays;
    }
  }

  lemma {:induction false} WrittenRun(s: State, r: nat, stamps: nat -> Stamp, k: nat)
    ensures WrittenAfter(s, r, stamps, k)
    decreases k
  {
    if k == 0 {
      WrittenNone(s, r, stamps);
    } else {
      WrittenRun(s, r, stamps, k - 1);
      WrittenGrows(s, r, stamps, k - 1);
    }
  }

  /**
   Writing back the first k rows a replay has read, undisturbed, leaves the table that the replay
   handlers leave when they stop after k.
   */
  lemma ReplayIsRun(s: State, r: nat, stamps: nat -> Stamp, k: nat)
    requires r in s.replays && k <= |s.replays[r]|
    ensures Run(s, ReplaySteps(r, stamps, k)) == Written(s, r, stamps, k)
    ensures Run(s, ReplaySteps(r, stamps, k)).table == ReplayTable(s.table, s.replays[r][..k], stamps)
  {
    WrittenRun(s, r, stamps, k);
  }
}
