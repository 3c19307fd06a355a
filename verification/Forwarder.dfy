/** The webhook forwarder: posts every pending event to the target and marks what was accepted. */
module Forwarder {
  import opened Wrappers
  import opened Sequences
  import opened Headers
  import opened Events
  import opened Envelope
  import opened SqlStorage
  import opened Metrics
  import opened Protocol
  import opened Forwarding

  datatype Reply = NoReply | Status(code: nat)

  /** What the environment decides about one attempt: map order, the target's reply, the mark's fate, the clock. */
  datatype Fate = Fate(order: seq<string>, reply: Reply, markUp: bool, now: Time)

  /** The order of ranging is one of the header map that was parsed. */
  predicate Fits(env: Env, e: Event, fate: Fate) {
    env.unmarshal(e.headers).Some? ==> IsRange(env.unmarshal(e.headers).value, fate.order)
  }

  /**
   How the attempt ends: a target URL or headers that do not parse make no request; a status of 400
   or more is a refusal.
   */
  function TrialOf(env: Env, urlOk: bool, e: Event, fate: Fate): Trial {
    Trial(
      if !urlOk || env.unmarshal(e.headers).None? then NotSent
      else if fate.reply.NoReply? then NoAnswer
      else if fate.reply.code >= 400 then Rejected
      else Accepted,
      fate.markUp, fate.now)
  }

  function TrialsOf(env: Env, urlOk: bool, es: seq<Event>, fates: seq<Fate>): (r: seq<Trial>)
    requires |es| == |fates|
    ensures |r| == |es| && forall i :: 0 <= i < |es| ==> r[i] == TrialOf(env, urlOk, es[i], fates[i])
  {
    seq(|es|, i requires 0 <= i < |es| => TrialOf(env, urlOk, es[i], fates[i]))
  }

  /** The request an attempt makes: the stored header, rebuilt, and the stored payload. */
  function RequestFor(env: Env, urlOk: bool, e: Event, fate: Fate): seq<WebhookRequest>
    requires Fits(env, e, fate)
  {
    if !urlOk || env.unmarshal(e.headers).None? then []
    else [WebhookRequest(ForwardHeader(env, e.headers, fate.order), e.payload)]
  }

  /**
   One attempt, case by case: it is made when the URL and the stored headers parse, succeeds on an
   answer below 400, and then, if the mark is executed, sets forwarded_at of its row and nothing else.
   */
  lemma AttemptExactly(env: Env, urlOk: bool, t: Table, e: Event, fate: Fate)
    requires Fits(env, e, fate)
    ensures var made := urlOk && env.unmarshal(e.headers).Some?;
            var accepted := made && fate.reply.Status? && fate.reply.code < 400;
            var trial, requests := TrialOf(env, urlOk, e, fate), RequestFor(env, urlOk, e, fate);
            && (trial.outcome == Accepted <==> accepted)
            && (trial.outcome == NotSent <==> !made)
            && |requests| == (if made then 1 else 0)
            && (made ==> requests[0].payload == e.payload)
            && ForwardOne(t, e.id, trial)
               == if accepted && fate.markUp && e.id in t then t[e.id := t[e.id].(forwardedAt := Some(fate.now))] else t
  {
  }

  predicate AllFit(env: Env, es: seq<Event>, fates: seq<Fate>) {
    |es| == |fates| && forall i :: 0 <= i < |es| ==> Fits(env, es[i], fates[i])
  }

  /** The requests a pass makes, in order. */
  function Requests(env: Env, urlOk: bool, es: seq<Event>, fates: seq<Fate>): seq<WebhookRequest>
    requires AllFit(env, es, fates)
  {
    if es == [] then []
    else
      var n := |es| - 1;
      assert Fits(env, es[n], fates[n]);
      Requests(env, urlOk, es[..n], fates[..n]) + RequestFor(env, urlOk, es[n], fates[n])
  }

  /** The passes of Forwarding.Draining are those of ProcessEvents: its table is that of such a pass. */
  lemma ProcessDrains(env: Env, t: Table, es: seq<Event>, fates: seq<Fate>, refusals: string -> nat, pass: nat)
    requires IsPendingList(t, es) && AllFit(env, es, fates)
    requires forall i :: 0 <= i < |es| ==>
               env.unmarshal(es[i].headers).Some? && fates[i].markUp && fates[i].reply.Status?
               && (fates[i].reply.code < 400 <==> refusals(es[i].id) <= pass)
    ensures DrainPass(t, PassTable(t, es, TrialsOf(env, true, es, fates)), refusals, pass)
  {
    assert Refuses(es, TrialsOf(env, true, es, fates), refusals, pass);
  }

  lemma RequestsGrow(env: Env, urlOk: bool, es: seq<Event>, fates: seq<Fate>, i: nat)
    requires AllFit(env, es, fates) && i < |es|
    ensures AllFit(env, es[..i], fates[..i]) && AllFit(env, es[..i + 1], fates[..i + 1]) && Fits(env, es[i], fates[i])
    ensures Requests(env, urlOk, es[..i + 1], fates[..i + 1]) == Requests(env, urlOk, es[..i], fates[..i]) + RequestFor(env, urlOk, es[i], fates[i])
  {
    assert es[..i + 1][..i] == es[..i] && fates[..i + 1][..i] == fates[..i];
  }

  class WebhookForwarder {
    const env: Env
    const urlOk: bool              // http.NewRequest accepts the target URL
    const storage: Storage
    const collector: DBMetricsCollector
    var queue: bool
    var sent: seq<WebhookRequest>  // what the HTTP client was handed
    var forwardedEvents: nat
    var forwardingErrors: nat

    constructor (env: Env, urlOk: bool, storage: Storage, collector: DBMetricsCollector)
      ensures this.env == env && this.urlOk == urlOk && this.storage == storage && this.collector == collector
      ensures !queue && sent == [] && forwardedEvents == 0 && forwardingErrors == 0
    {
      this.env, this.urlOk, this.storage, this.collector := env, urlOk, storage, collector;
      queue, sent, forwardedEvents, forwardingErrors := false, [], 0, 0;
    }

    /** A non-blocking send: a full slot swallows it. */
    method EnqueueProcessEvents()
      modifies this`queue
      ensures queue
    {
      if !queue {
        queue := true;
      }
    }

    /** Exactly one counter goes up; the table changes only after an accepted post, in one column of one row. */
    method ForwardEvent(event: Event, fate: Fate)
      requires Fits(env, event, fate)
      modifies this`sent, this`forwardedEvents, this`forwardingErrors, storage
      ensures var trial := TrialOf(env, urlOk, event, fate);
              && storage.rows == ForwardOne(old(storage.rows), event.id, trial)
              && forwardedEvents == old(forwardedEvents) + (if trial.outcome.Accepted? then 1 else 0)
              && forwardingErrors == old(forwardingErrors) + (if trial.outcome.Accepted? then 0 else 1)
      ensures sent == old(sent) + RequestFor(env, urlOk, event, fate)
      ensures storage.rows != old(storage.rows) ==> |sent| == |old(sent)| + 1 && fate.reply.Status? && fate.reply.code < 400
    {
      if !urlOk {
        forwardingErrors := forwardingErrors + 1;
        return;
      }
      var parsed := env.unmarshal(event.headers);
      if parsed.None? {
        forwardingErrors := forwardingErrors + 1;
        return;
      }
      var header := FillHeader(parsed.value, fate.order);
      sent := sent + [WebhookRequest(header, event.payload)];
      if fate.reply.NoReply? {
        forwardingErrors := forwardingErrors + 1;
        return;
      }
      if fate.reply.code >= 400 {
        forwardingErrors := forwardingErrors + 1;
        return;
      }
      forwardedEvents := forwardedEvents + 1;
      // An error here is logged and otherwise ignored.
      var _ := storage.MarkForwarded(event.id, fate.now, fate.markUp);
    }

    /** The loop of a pass over its snapshot. */
    method ForwardAll(todo: seq<Event>, fates: seq<Fate>)
      requires AllFit(env, todo, fates)
      modifies this`sent, this`forwardedEvents, this`forwardingErrors, storage
      ensures storage.rows == PassTable(old(storage.rows), todo, TrialsOf(env, urlOk, todo, fates))
      ensures sent == old(sent) + Requests(env, urlOk, todo, fates)
      ensures forwardedEvents == old(forwardedEvents) + Accepts(TrialsOf(env, urlOk, todo, fates))
      ensures forwardedEvents + forwardingErrors == old(forwardedEvents) + old(forwardingErrors) + |todo|
    {
      ghost var trials := TrialsOf(env, urlOk, todo, fates);
      ghost var t, log, done, total := storage.rows, sent, forwardedEvents, forwardedEvents + forwardingErrors;
      for i := 0 to |todo|
        invariant AllFit(env, todo[..i], fates[..i])
        invariant sent == log + Requests(env, urlOk, todo[..i], fates[..i])
        invariant storage.rows == PassTable(t, todo[..i], trials[..i])
        invariant forwardedEvents == done + Accepts(trials[..i])
        invariant forwardedEvents + forwardingErrors == total + i
      {
        assert trials[i] == TrialOf(env, urlOk, todo[i], fates[i]);
        PassGrows(t, todo, trials, i);
        RequestsGrow(env, urlOk, todo, fates, i);
        ghost var before := sent;
        ForwardEvent(todo[i], fates[i]);
        assert sent == before + RequestFor(env, urlOk, todo[i], fates[i]);
      }
      assert todo[..|todo|] == todo && trials[..|todo|] == trials && fates[..|todo|] == fates;
    }

    /** The events a pass lists when the database scans in this order. */
    function Listed(scan: seq<string>): seq<Event>
      requires IsScan(storage.rows, scan)
      reads storage
    {
      assert forall id :: id in scan ==> id in ToSet(scan);
      Page(Filter(storage.rows, NON_FORWARDED, scan), 0, 0)
    }

    /**
     One pass. Its snapshot is the whole pending set; the rows, the requests made and the two
     counters are exactly those of trying each event of the snapshot once, in its order.
     */
    method ProcessEvents(scan: seq<string>, fates: seq<Fate>, countUp: bool, up: bool) returns (r: Result<(), StorageError>)
      requires IsScan(storage.rows, scan) && AllFit(env, Listed(scan), fates)
      modifies this`sent, this`forwardedEvents, this`forwardingErrors, storage, collector`queue
      ensures r.Ok? <==> countUp && up
      ensures r.Err? ==>
        storage.rows == old(storage.rows) && sent == old(sent)
        && forwardedEvents == old(forwardedEvents) && forwardingErrors == old(forwardingErrors)
      ensures IsPendingList(old(storage.rows), old(Listed(scan)))
      ensures r.Ok? ==>
        var events := old(Listed(scan));
        && storage.rows == PassTable(old(storage.rows), events, TrialsOf(env, urlOk, events, fates))
        && sent == old(sent) + Requests(env, urlOk, events, fates)
        && forwardedEvents == old(forwardedEvents) + Accepts(TrialsOf(env, urlOk, events, fates))
        && forwardedEvents + forwardingErrors == old(forwardedEvents) + old(forwardingErrors) + |events|
        && PendingIds(storage.rows) == PendingIds(old(storage.rows)) - MarkedIds(events, TrialsOf(env, urlOk, events, fates))
      ensures collector.queue == (old(collector.queue) || (r.Ok? && old(Listed(scan)) != []))
    {
      PendingQuery(storage.rows, scan);
      var listed := storage.ListEvents(NON_FORWARDED, scan, countUp, up);
      if listed.Err? {
        return Err(listed.error);
      }
      var events := listed.value.0;
      if |events| == 0 {
        return Ok(());
      }
      PassEffect(storage.rows, events, TrialsOf(env, urlOk, events, fates));
      ForwardAll(events, fates);
      collector.EnqueueGatherMetrics();
      r := Ok(());
    }
  }
}
