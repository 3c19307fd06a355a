/** What one pass over the pending events does, as functions of the table and of how each attempt ends. */
module Forwarding {
  import opened Wrappers
  import opened Sequences
  import opened Events
  import opened Protocol

  /** One forwardEvent call: how the attempt ended, and whether and when its mark would reach the table. */
  datatype Trial = Trial(outcome: Outcome, markUp: bool, now: Time)
  {
    predicate Marks() { outcome.Accepted? && markUp }
  }

  function ForwardOne(t: Table, id: string, trial: Trial): Table {
    if trial.Marks() then Mark(t, id, trial.now) else t
  }

  function PassTable(t: Table, es: seq<Event>, trials: seq<Trial>): Table
    requires |es| == |trials|
  {
    if es == [] then t
    else
      var n := |es| - 1;
      ForwardOne(PassTable(t, es[..n], trials[..n]), es[n].id, trials[n])
  }

  function Accepts(trials: seq<Trial>): nat {
    if trials == [] then 0
    else Accepts(trials[..|trials| - 1]) + if trials[|trials| - 1].outcome.Accepted? then 1 else 0
  }

  /** One attempt more. */
  lemma PassGrows(t: Table, es: seq<Event>, trials: seq<Trial>, i: nat)
    requires |es| == |trials| && i < |es|
    ensures PassTable(t, es[..i + 1], trials[..i + 1]) == ForwardOne(PassTable(t, es[..i], trials[..i]), es[i].id, trials[i])
    ensures Accepts(trials[..i + 1]) == Accepts(trials[..i]) + if trials[i].outcome.Accepted? then 1 else 0
  {
    assert es[..i + 1][..i] == es[..i] && trials[..i + 1][..i] == trials[..i];
  }

  lemma {:induction false} PassElsewhere(t: Table, es: seq<Event>, trials: seq<Trial>, id: string)
    requires |es| == |trials| && forall i :: 0 <= i < |es| ==> es[i].id != id
    ensures id in PassTable(t, es, trials) <==> id in t
    ensures id in t ==> PassTable(t, es, trials)[id] == t[id]
  {
    if es == [] {
    } else {
      PassElsewhere(t, es[..|es| - 1], trials[..|es| - 1], id);
    }
  }

  /** A listed row is set at most in forwarded_at. */
  lemma {:induction false} PassAt(t: Table, es: seq<Event>, trials: seq<Trial>, i: nat)
    requires |es| == |trials| && i < |es| && es[i].id in t
    requires forall j :: 0 <= j < |es| && j != i ==> es[j].id != es[i].id
    ensures var t' := PassTable(t, es, trials);
            && es[i].id in t'
            && t'[es[i].id] == if trials[i].Marks() then t[es[i].id].(forwardedAt := Some(trials[i].now)) else t[es[i].id]
  {
    var n := |es| - 1;
    if i == n {
      PassElsewhere(t, es[..n], trials[..n], es[n].id);
    } else {
      PassAt(t, es[..n], trials[..n], i);
    }
  }

  /** The ids a pass takes off the pending set. */
  function MarkedIds(es: seq<Event>, trials: seq<Trial>): set<string>
    requires |es| == |trials|
  {
    set i | 0 <= i < |es| && trials[i].Marks() :: es[i].id
  }

  /**
   The exact effect of an undisturbed pass: what was pending and is no longer is what was
   accepted and marked, and no column but forwarded_at of just those rows has changed.
   */
  lemma PassEffect(t: Table, es: seq<Event>, trials: seq<Trial>)
    requires |es| == |trials| && IsPendingList(t, es)
    ensures PendingIds(PassTable(t, es, trials)) == PendingIds(t) - MarkedIds(es, trials)
    ensures Extends(t, PassTable(t, es, trials)) && PassTable(t, es, trials).Keys == t.Keys
    ensures forall id :: id in t && id !in MarkedIds(es, trials) ==> PassTable(t, es, trials)[id] == t[id]
  {
    var t' := PassTable(t, es, trials);
    forall id
      ensures id in t' <==> id in t
      ensures id in t ==> t'[id].Fixed() == t[id].Fixed()
      ensures id in t && id !in MarkedIds(es, trials) ==> t'[id] == t[id]
      ensures id in MarkedIds(es, trials) ==> id in t && !t'[id].Pending() && t[id].Pending()
    {
      if id in Ids(es) {
        var i := Find(t, es, id);
        PassAt(t, es, trials, i);
        assert id in ToSet(Ids(es));
      } else {
        Absent(es, id);
        PassElsewhere(t, es, trials, id);
      }
    }
  }

  /** Where a read has its one row of an id. */
  lemma Find(t: Table, es: seq<Event>, id: string) returns (i: nat)
    requires IsRead(t, es) && id in Ids(es)
    ensures i < |es| && es[i].id == id && id in t && t[id] == es[i]
    ensures forall j :: 0 <= j < |es| && j != i ==> es[j].id != id
  {
    i :| 0 <= i < |es| && Ids(es)[i] == id;
    assert es[i] in es;
    forall j | 0 <= j < |es| && j != i ensures es[j].id != id {
      assert Ids(es)[j] != Ids(es)[i];
    }
  }

  lemma Absent(es: seq<Event>, id: string)
    requires id !in Ids(es)
    ensures forall j :: 0 <= j < |es| ==> es[j].id != id
  {
    forall j | 0 <= j < |es| ensures es[j].id != id {
      assert Ids(es)[j] in Ids(es);
    }
  }

  // ---- passes until nothing is pending ----

  /** The target refuses an id in its first `refusals(id)` passes, accepts it later, and every mark succeeds. */
  predicate Refuses(es: seq<Event>, trials: seq<Trial>, refusals: string -> nat, pass: nat) {
    && |trials| == |es|
    && forall i :: 0 <= i < |es| ==> trials[i].markUp && (trials[i].outcome.Accepted? <==> refusals(es[i].id) <= pass)
  }

  /** An undisturbed pass against such a target. */
  ghost predicate DrainPass(t: Table, t': Table, refusals: string -> nat, pass: nat) {
    exists es: seq<Event>, trials: seq<Trial> ::
      IsPendingList(t, es) && Refuses(es, trials, refusals, pass) && t' == PassTable(t, es, trials)
  }

  lemma DrainStep(t: Table, t': Table, refusals: string -> nat, pass: nat)
    requires DrainPass(t, t', refusals, pass)
    ensures PendingIds(t') == set id | id in PendingIds(t) && refusals(id) > pass
  {
    var es: seq<Event>, trials: seq<Trial> :|
      IsPendingList(t, es) && Refuses(es, trials, refusals, pass) && t' == PassTable(t, es, trials);
    PassEffect(t, es, trials);
    forall id | id in PendingIds(t)
      ensures id in MarkedIds(es, trials) <==> refusals(id) <= pass
    {
      assert id in ToSet(Ids(es));
      var i :| 0 <= i < |es| && Ids(es)[i] == id;
      assert es[i].id == id;
    }
  }

  /**
   Draining: with nothing else running, after n passes exactly those ids are still pending that
   the target refuses at least n times. So passes empty the pending set as soon as their number
   exceeds every refusal count, and not before.
   */
  lemma {:induction false} Draining(tables: seq<Table>, refusals: string -> nat, n: nat)
    requires n < |tables|
    requires forall k :: 0 <= k < |tables| - 1 ==> DrainPass(tables[k], tables[k + 1], refusals, k)
    ensures PendingIds(tables[n]) == set id | id in PendingIds(tables[0]) && refusals(id) >= n
  {
    if n == 0 {
    } else {
      Draining(tables, refusals, n - 1);
      assert DrainPass(tables[n - 1], tables[n - 1 + 1], refusals, n - 1);
      DrainStep(tables[n - 1], tables[n], refusals, n - 1);
    }
  }

  /** Passes against such a target, one after the other. */
  ghost predicate DrainRun(tables: seq<Table>, refusals: string -> nat) {
    tables != [] && forall k :: 0 <= k < |tables| - 1 ==> DrainPass(tables[k], tables[k + 1], refusals, k)
  }

  /** Every run of passes from the table has emptied the pending set once n of them are over. */
  ghost predicate DrainedAfter(t: Table, refusals: string -> nat, n: nat) {
    forall tables :: DrainRun(tables, refusals) && tables[0] == t && n < |tables| ==> PendingIds(tables[n]) == {}
  }

  lemma {:induction false} RefusalBound(ids: set<string>, refusals: string -> nat) returns (n: nat)
    ensures forall id :: id in ids ==> refusals(id) < n
    decreases |ids|
  {
    if ids == {} {
      n := 0;
    } else {
      var id :| id in ids;
      var rest := RefusalBound(ids - {id}, refusals);
      n := Max(rest, refusals(id) + 1);
      assert forall other :: other in ids ==> other == id || other in ids - {id};
    }
  }

  /** A pass can always be made. */
  lemma DrainPassExists(t: Table, refusals: string -> nat, pass: nat)
    ensures exists t' :: DrainPass(t, t', refusals, pass)
  {
    ScanExists(t);
    var scan :| IsScan(t, scan);
    PendingQuery(t, scan);
    var es := Page(Filter(t, NON_FORWARDED, scan), 0, 0);
    var trials := seq(|es|, i requires 0 <= i < |es| =>
      Trial(if refusals(es[i].id) <= pass then Accepted else Rejected, true, 1));
    assert Refuses(es, trials, refusals, pass);
    assert DrainPass(t, PassTable(t, es, trials), refusals, pass);
  }

  /** A run of n passes from the table. */
  ghost predicate DrainRunFrom(t: Table, tables: seq<Table>, refusals: string -> nat, n: nat) {
    DrainRun(tables, refusals) && tables[0] == t && |tables| == n + 1
  }

  /** Any number of passes can be made. */
  lemma {:induction false} RunExists(t: Table, refusals: string -> nat, n: nat) returns (tables: seq<Table>)
    ensures DrainRunFrom(t, tables, refusals, n)
  {
    if n == 0 {
      tables := [t];
    } else {
      var before := RunExists(t, refusals, n - 1);
      DrainPassExists(before[n - 1], refusals, n - 1);
      var t' :| DrainPass(before[n - 1], t', refusals, n - 1);
      tables := before + [t'];
      forall k | 0 <= k < n ensures DrainPass(tables[k], tables[k + 1], refusals, k) {
        assert k < n - 1 ==> DrainPass(before[k], before[k + 1], refusals, k);
      }
    }
  }

  /**
   So some finite number of passes empties the pending set, whatever the target refuses for a
   while: a run of that many passes can be made, and every such run ends with nothing pending.
   */
  lemma DrainsInTime(t: Table, refusals: string -> nat)
    ensures exists n: nat, tables: seq<Table> ::
              DrainRunFrom(t, tables, refusals, n) && PendingIds(tables[n]) == {} && DrainedAfter(t, refusals, n)
  {
    var n := RefusalBound(PendingIds(t), refusals);
    forall tables | DrainRun(tables, refusals) && tables[0] == t && n < |tables|
      ensures PendingIds(tables[n]) == {}
    {
      Draining(tables, refusals, n);
    }
    var tables := RunExists(t, refusals, n);
    assert DrainRunFrom(t, tables, refusals, n) && PendingIds(tables[n]) == {} && DrainedAfter(t, refusals, n);
  }

  // ---- replays ----

  /** The uuid and clock reading a replay stamps a row with, and whether its UPDATE is executed. */
  datatype Stamp = Stamp(uuid: string, now: Time, up: bool)

  /** The rows of a replay written back, in order. */
  function ReplayTable(t: Table, es: seq<Event>, stamps: nat -> Stamp): Table {
    if es == [] then t
    else
      var n := |es| - 1;
      Update(ReplayTable(t, es[..n], stamps), Replayed(es[n], stamps(n).uuid, stamps(n).now))
  }

  /** One row more. */
  lemma ReplayGrows(t: Table, es: seq<Event>, stamps: nat -> Stamp, i: nat)
    requires i < |es|
    ensures ReplayTable(t, es[..i + 1], stamps)
         == Update(ReplayTable(t, es[..i], stamps), Replayed(es[i], stamps(i).uuid, stamps(i).now))
  {
    assert es[..i + 1][..i] == es[..i];
  }

  lemma {:induction false} ReplayElsewhere(t: Table, es: seq<Event>, stamps: nat -> Stamp, id: string)
    requires forall i :: 0 <= i < |es| ==> es[i].id != id
    ensures id in ReplayTable(t, es, stamps) <==> id in t
    ensures id in t ==> ReplayTable(t, es, stamps)[id] == t[id]
  {
    if es == [] {
    } else {
      ReplayElsewhere(t, es[..|es| - 1], stamps, id);
    }
  }

  lemma {:induction false} ReplayAt(t: Table, es: seq<Event>, stamps: nat -> Stamp, i: nat)
    requires i < |es| && es[i].id in t
    requires forall j :: 0 <= j < |es| && j != i ==> es[j].id != es[i].id
    ensures var t' := ReplayTable(t, es, stamps);
            es[i].id in t' && t'[es[i].id] == Replayed(es[i], stamps(i).uuid, stamps(i).now)
  {
    var n := |es| - 1;
    UpdateAt(ReplayTable(t, es[..n], stamps), Replayed(es[n], stamps(n).uuid, stamps(n).now), es[i].id);
    if i == n {
      ReplayElsewhere(t, es[..n], stamps, es[n].id);
    } else {
      assert es[..n][i] == es[i];
      ReplayAt(t, es[..n], stamps, i);
    }
  }

  /**
   A replay resets exactly the rows it was given: each is pending again with its stamps and no
   error, and keeps its other columns; every other row is untouched.
   */
  lemma ReplayRows(t: Table, es: seq<Event>, stamps: nat -> Stamp)
    requires IsRead(t, es)
    ensures ReplayTable(t, es, stamps).Keys == t.Keys && Extends(t, ReplayTable(t, es, stamps))
    ensures forall i :: 0 <= i < |es| ==> es[i].id in t
    ensures forall i :: 0 <= i < |es| ==>
              ReplayTable(t, es, stamps)[es[i].id]
              == t[es[i].id].(forwardedAt := None, error := "", replayedFrom := stamps(i).uuid, replayedTime := stamps(i).now)
    ensures forall id :: id in t && id !in Ids(es) ==> ReplayTable(t, es, stamps)[id] == t[id]
    ensures PendingIds(ReplayTable(t, es, stamps)) == PendingIds(t) + ToSet(Ids(es))
  {
    var t' := ReplayTable(t, es, stamps);
    forall i | 0 <= i < |es|
      ensures es[i].id in t && es[i].id in t'
      ensures t'[es[i].id] == t[es[i].id].(forwardedAt := None, error := "", replayedFrom := stamps(i).uuid, replayedTime := stamps(i).now)
    {
      assert Ids(es)[i] in Ids(es);
      var j := Find(t, es, es[i].id);
      ReplayAt(t, es, stamps, j);
    }
    forall id
      ensures id in t' <==> id in t
      ensures id in t && id !in Ids(es) ==> t'[id] == t[id]
      ensures id in Ids(es) ==> id in t && t'[id].Pending() && t'[id].Fixed() == t[id].Fixed()
    {
      ReplayRow(t, es, stamps, id);
    }
  }

  lemma ReplayRow(t: Table, es: seq<Event>, stamps: nat -> Stamp, id: string)
    requires IsRead(t, es)
    ensures var t' := ReplayTable(t, es, stamps);
            && (id in t' <==> id in t)
            && (id in t && id !in Ids(es) ==> t'[id] == t[id])
            && (id in Ids(es) ==> id in t && t'[id].Pending() && t'[id].Fixed() == t[id].Fixed())
  {
    if id in Ids(es) {
      var j := Find(t, es, id);
      ReplayAt(t, es, stamps, j);
    } else {
      Absent(es, id);
      ReplayElsewhere(t, es, stamps, id);
    }
  }

  /** A row without the stamps of its replays. */
  function Unstamped(e: Event): Event { e.(replayedFrom := "", replayedTime := ZERO_TIME) }

  /** Replaying the same rows twice over, with any stamps, has the same effect but for the stamps. */
  lemma StampsOnly(t: Table, es: seq<Event>, a: nat -> Stamp, b: nat -> Stamp)
    requires IsRead(t, es)
    ensures ReplayTable(t, es, a).Keys == ReplayTable(t, es, b).Keys == t.Keys
    ensures forall id :: id in t ==> Unstamped(ReplayTable(t, es, a)[id]) == Unstamped(ReplayTable(t, es, b)[id])
  {
    forall id
      ensures id in ReplayTable(t, es, a) <==> id in t
      ensures id in ReplayTable(t, es, b) <==> id in t
      ensures id in t ==> Unstamped(ReplayTable(t, es, a)[id]) == Unstamped(ReplayTable(t, es, b)[id])
    {
      if id in Ids(es) {
        var j := Find(t, es, id);
        ReplayAt(t, es, a, j);
        ReplayAt(t, es, b, j);
      } else {
        Absent(es, id);
        ReplayElsewhere(t, es, a, id);
        ReplayElsewhere(t, es, b, id);
      }
    }
  }

  /**
   Replay, then forward: a pass that follows a replay undisturbed lists exactly what was pending
   together with what was replayed, each once; if the target accepts all and all marks succeed,
   nothing is pending afterwards.
   */
  lemma ReplayThenForward(t: Table, replayed: seq<Event>, stamps: nat -> Stamp, es: seq<Event>, trials: seq<Trial>)
    requires IsRead(t, replayed) && |es| == |trials|
    requires IsPendingList(ReplayTable(t, replayed, stamps), es)
    requires forall trial :: trial in trials ==> trial.Marks()
    ensures ToSet(Ids(es)) == PendingIds(t) + ToSet(Ids(replayed)) && Distinct(Ids(es))
    ensures forall e :: e in es ==> e.id in t && e.Fixed() == t[e.id].Fixed()
    ensures PendingIds(PassTable(ReplayTable(t, replayed, stamps), es, trials)) == {}
  {
    var t' := ReplayTable(t, replayed, stamps);
    ReplayRows(t, replayed, stamps);
    assert Extends(t, t');
    AllMarked(t', es, trials);
  }

  lemma AllMarked(t: Table, es: seq<Event>, trials: seq<Trial>)
    requires IsPendingList(t, es) && |es| == |trials| && forall trial :: trial in trials ==> trial.Marks()
    ensures PendingIds(PassTable(t, es, trials)) == {}
  {
    PassEffect(t, es, trials);
    forall id | id in PendingIds(t) ensures id in MarkedIds(es, trials) {
      assert id in ToSet(Ids(es));
      var i := Find(t, es, id);
      assert trials[i] in trials;
    }
  }
}
