/** The delivery protocol and the envelope together: what the target receives in any run. */
module EndToEnd {
  import opened Ascii
  import opened Headers
  import opened Signature
  import opened Events
  import opened Envelope
  import opened Protocol
  import opened Provenance

  /** This insert is that of ServeHTTP for a request it admitted. */
  ghost predicate HandledBy(env: Env, e: Event, r: WebhookRequest) {
    && FromWire(r.header)
    && Admitted(env, r)
    && exists uuid, now :: e == EventOf(env, r, uuid, now)
  }

  /** Rows enter the table through ServeHTTP only. */
  ghost predicate AllHandled(env: Env, steps: seq<Step>) {
    forall k :: 0 <= k < |steps| && steps[k].Receive? ==> exists r :: HandledBy(env, steps[k].event, r)
  }

  /** Such an insert is a step that the machine takes. */
  lemma HandledIsNew(env: Env, e: Event, r: WebhookRequest)
    requires HandledBy(env, e, r)
    ensures IsNew(e)
  {
  }

  /**
   An undisturbed ServeHTTP is a run of the protocol: for an admitted request the table and the
   collector's queue are those its method leaves, whether or not the insert succeeds.
   */
  lemma ServeIsRun(env: Env, s: State, r: WebhookRequest, uuid: string, now: Time, up: bool)
    ensures Run(s, [if up then Receive(EventOf(env, r, uuid, now)) else ReceiveFailed, Announce])
         == s.(table := if up then Insert(s.table, EventOf(env, r, uuid, now)) else s.table, gaugeJob := true)
  {
    var e := EventOf(env, r, uuid, now);
    var x := if up then Receive(e) else ReceiveFailed;
    var s1 := s.(table := if up then Insert(s.table, e) else s.table, unannounced := s.unannounced + 1);
    assert Run(s, [x]) == s1 by {
      RunOne(s, x);
      OneWorkerMoves(s, x);
    }
    Announced(s1);
    RunTo(s, [x], s1, Announce, s1.(unannounced := s.unannounced, gaugeJob := true));
    assert [x] + [Announce] == [x, Announce];
  }

  lemma Announced(s: State)
    requires s.unannounced > 0
    ensures Next(s, Announce) == s.(unannounced := s.unannounced - 1, gaugeJob := true)
  {
    OneWorkerMoves(s, Announce);
  }

  /** Whatever was sent carries the payload and marshalled header of a request that was admitted under that id. */
  lemma SentWasAdmitted(env: Env, width: nat, steps: seq<Step>, i: nat) returns (r: WebhookRequest)
    requires AllHandled(env, steps) && i < |After(width, steps).log|
    ensures FromWire(r.header) && Admitted(env, r)
    ensures After(width, steps).log[i].event.payload == r.payload
    ensures After(width, steps).log[i].event.headers == env.marshal(r.header)
    ensures Get(r.header, DELIVERY_HEADER) != "" ==> After(width, steps).log[i].event.id == Get(r.header, DELIVERY_HEADER)
  {
    SentAsStored(width, steps, i);
    var e := After(width, steps).log[i].event;
    var k :| 0 <= k < |steps| && Stores(width, steps, k, e.Fixed());
    r :| HandledBy(env, steps[k].event, r);
    assert e.Fixed() == steps[k].event.Fixed();
  }

  /**
   End-to-end authenticity. In every run, with any number of workers, stale snapshots, replays
   and restarts, each request made for the target has headers that parse, and whatever order
   the parsed map is ranged over, its signature header and body pass the very check the webhook
   handler makes on the way in.
   */
  lemma EveryRequestVerifies(env: Env, width: nat, steps: seq<Step>, i: nat)
    requires Lawful(env) && AllHandled(env, steps)
    requires i < |After(width, steps).log|
    ensures var e := After(width, steps).log[i].event;
            && env.unmarshal(e.headers).Some?
            && forall order :: IsRange(env.unmarshal(e.headers).value, order) ==>
                 VerifySignature(env.mac, ForwardHeader(env, e.headers, order), e.payload, env.secret).Ok?
  {
    var e := After(width, steps).log[i].event;
    var r := SentWasAdmitted(env, width, steps, i);
    forall order | IsRange(Coerced(env, r.header), order)
      ensures VerifySignature(env.mac, ForwardHeader(env, e.headers, order), e.payload, env.secret).Ok?
    {
      ForwardVerifies(env, r, order);
    }
  }

  /**
   Nothing is lost or altered on the way either: each request made for the target repeats the
   body and the whole header map of an admitted request, up to the replacement of invalid UTF-8.
   */
  lemma EveryRequestRepeats(env: Env, width: nat, steps: seq<Step>, i: nat) returns (r: WebhookRequest)
    requires Lawful(env) && AllHandled(env, steps)
    requires i < |After(width, steps).log|
    ensures FromWire(r.header) && Admitted(env, r)
    ensures var e := After(width, steps).log[i].event;
            && e.payload == r.payload
            && env.unmarshal(e.headers).Some?
            && forall order :: IsRange(env.unmarshal(e.headers).value, order) ==>
                 var header := ForwardHeader(env, e.headers, order);
                 && header == Coerced(env, r.header)
                 && header.Keys == r.header.Keys
                 && forall name :: name in header ==>
                      && |header[name]| == |r.header[name]|
                      && forall j :: 0 <= j < |header[name]| ==>
                           && header[name][j] == env.coerce(r.header[name][j])
                           && (IsAscii(r.header[name][j]) ==> header[name][j] == r.header[name][j])
  {
    var e := After(width, steps).log[i].event;
    r := SentWasAdmitted(env, width, steps, i);
    forall order | IsRange(Coerced(env, r.header), order)
      ensures ForwardHeader(env, e.headers, order) == Coerced(env, r.header)
    {
      ForwardsHeader(env, r, order);
    }
  }
}
