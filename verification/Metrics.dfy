/** The metrics collector: a one-slot queue, and gauges set one by one from a query. */
module Metrics {
  import opened Wrappers
  import opened Sequences
  import opened Headers
  import opened Events
  import opened SqlStorage

  /** The gauges after setting those of `order`, one by one. */
  function SetGauges(gauges: map<string, nat>, stats: map<string, nat>, order: seq<string>): map<string, nat>
    requires forall typ :: typ in order ==> typ in stats
  {
    if order == [] then gauges
    else
      var last := order[|order| - 1];
      SetGauges(gauges, stats, order[..|order| - 1])[last := stats[last]]
  }

  lemma {:induction false} SetGaugesIsUnion(gauges: map<string, nat>, stats: map<string, nat>, order: seq<string>)
    requires forall typ :: typ in order ==> typ in stats
    ensures var r := SetGauges(gauges, stats, order);
            && (forall typ :: typ in r <==> typ in gauges || typ in order)
            && (forall typ :: typ in r ==> r[typ] == if typ in order then stats[typ] else gauges[typ])
  {
    if order == [] {
    } else {
      var rest := order[..|order| - 1];
      SetGaugesIsUnion(gauges, stats, rest);
      assert order == rest + [order[|order| - 1]];
    }
  }

  /** Setting every type once, in any order, sets them all. */
  lemma AllOnce(gauges: map<string, nat>, stats: map<string, nat>, order: seq<string>)
    requires IsRange(stats, order)
    ensures Distinct(order) && forall typ :: typ in order ==> typ in stats
    ensures SetGauges(gauges, stats, order) == gauges + stats
    ensures stats.Keys - ToSet(order) == {}
  {
    assert forall typ :: typ in order <==> typ in ToSet(order);
    SetGaugesIsUnion(gauges, stats, order);
  }

  class DBMetricsCollector {
    const storage: Storage
    var queue: bool
    var gauges: map<string, nat>

    constructor (storage: Storage)
      ensures this.storage == storage && !queue && gauges == map[]
    {
      this.storage := storage;
      queue := false;
      gauges := map[];
    }

    /** A non-blocking send: a full slot swallows it. */
    method EnqueueGatherMetrics()
      modifies this`queue
      ensures queue
    {
      if !queue {
        queue := true;
      }
    }

    /** The loop over the statistics. */
    method SetEach(stats: map<string, nat>, order: seq<string>)
      requires forall typ :: typ in order ==> typ in stats
      modifies this`gauges
      ensures gauges == SetGauges(old(gauges), stats, order)
    {
      for i := 0 to |order|
        invariant gauges == SetGauges(old(gauges), stats, order[..i])
      {
        assert order[..i + 1][..i] == order[..i];
        gauges := gauges[order[i] := stats[order[i]]];
      }
      assert order[..|order|] == order;
    }

    /** `order` is the order in which Go ranges over the statistics. */
    method GatherMetrics(groups: seq<(string, nat)>, order: seq<string>, up: bool) returns (r: Result<(), StorageError>)
      requires IsGrouping(storage.rows, ZERO_TIME, groups)
      requires IsRange(Stats(storage.rows, ZERO_TIME), order)
      modifies this`gauges
      ensures r.Ok? <==> up
      ensures gauges == if up then old(gauges) + Stats(storage.rows, ZERO_TIME) else old(gauges)
    {
      var answer := storage.GetStats(ZERO_TIME, groups, up);
      if answer.Err? {
        return Err(answer.error);
      }
      var stats := answer.value;
      SetEach(stats, order);
      AllOnce(old(gauges), stats, order);
      r := Ok(());
    }
  }
}
