/** The handler of incoming webhooks: verifies, stores, and asks for fresh metrics. */
module WebhookHandler {
  import opened Wrappers
  import opened Headers
  import opened Hex
  import opened Signature
  import opened Events
  import opened Envelope
  import opened SqlStorage
  import opened Metrics

  const STATUS_OK := 200
  const STATUS_BAD_REQUEST := 400
  const STATUS_UNAUTHORIZED := 401
  const STATUS_METHOD_NOT_ALLOWED := 405
  const STATUS_INTERNAL_SERVER_ERROR := 500

  /**
   What a stored webhook adds to the counts: the counts by its event type, its payload's repository
   and its payload's sender rise by one each, and every count by another repository stays.
   */
  lemma StoredIsCounted(env: Env, t: Table, r: WebhookRequest, uuid: string, now: Time, other: string)
    requires EventOf(env, r, uuid, now).id !in t
    ensures var t' := Insert(t, EventOf(env, r, uuid, now));
            var all := EVERYTHING;
            && Count(t', all.(repository := env.repository(r.payload))) == Count(t, all.(repository := env.repository(r.payload))) + 1
            && Count(t', all.(sender := env.sender(r.payload))) == Count(t, all.(sender := env.sender(r.payload))) + 1
            && Count(t', all.(types := [Get(r.header, "X-GitHub-Event")])) == Count(t, all.(types := [Get(r.header, "X-GitHub-Event")])) + 1
            && (other != "" && other != env.repository(r.payload) ==>
                  Count(t', all.(repository := other)) == Count(t, all.(repository := other)))
  {
    var e := EventOf(env, r, uuid, now);
    InsertCounts(t, e, EVERYTHING.(repository := env.repository(r.payload)));
    InsertCounts(t, e, EVERYTHING.(sender := env.sender(r.payload)));
    InsertCounts(t, e, EVERYTHING.(types := [Get(r.header, "X-GitHub-Event")]));
    InsertCounts(t, e, EVERYTHING.(repository := other));
  }

  class Handler {
    const env: Env
    const validateIP: bool
    const store: Storage
    const collector: DBMetricsCollector
    var storedEvents: nat
    var signatureErrors: nat
    var blockedIPs: nat

    constructor (env: Env, validateIP: bool, store: Storage, collector: DBMetricsCollector)
      ensures this.env == env && this.validateIP == validateIP && this.store == store && this.collector == collector
      ensures storedEvents == 0 && signatureErrors == 0 && blockedIPs == 0
    {
      this.env, this.validateIP, this.store, this.collector := env, validateIP, store, collector;
      storedEvents, signatureErrors, blockedIPs := 0, 0, 0;
    }

    /** An event type is required, and a GitHub address if addresses are validated. */
    predicate ValidGitHubEvent(header: HeaderMap, fromGitHub: bool) {
      Get(header, EVENT_HEADER) != "" && (fromGitHub || !validateIP)
    }

    /**
     Serves one request; body None is a read error. A row is inserted only for an admitted
     request, and it is the row of that request; every admitted request is answered with 200
     and asks for metrics, even when the insert fails.
     */
    method ServeHTTP(isPost: bool, header: HeaderMap, body: Option<Bytes>, fromGitHub: bool, uuid: string, now: Time, up: bool)
      returns (status: nat)
      modifies store, collector`queue, this`storedEvents, this`signatureErrors, this`blockedIPs
      ensures status == 200 <==>
        isPost && (fromGitHub || !validateIP) && body.Some? && Admitted(env, WebhookRequest(header, body.value))
      ensures status in {200, 400, 401, 405, 500}
      ensures status == 405 <==> !isPost
      ensures status == 400 <==> isPost && (Get(header, "X-GitHub-Event") == "" || (validateIP && !fromGitHub))
      ensures status == 500 <==>
        isPost && Get(header, "X-GitHub-Event") != "" && (fromGitHub || !validateIP) && body.None?
      ensures status == 401 <==>
        && isPost && Get(header, "X-GitHub-Event") != "" && (fromGitHub || !validateIP) && body.Some?
        && VerifySignature(env.mac, header, body.value, env.secret).Err?
      ensures store.rows == if status == 200 && up
                            then Insert(old(store.rows), EventOf(env, WebhookRequest(header, body.value), uuid, now))
                            else old(store.rows)
      ensures status == 200 && up ==>
        var given := Get(header, "X-GitHub-Delivery");
        var id := if given == "" then uuid else given;
        store.rows == if id in old(store.rows) then old(store.rows)
                      else old(store.rows)[id := Event(id, Get(header, "X-GitHub-Event"), env.marshal(header), body.value, now,
                                                       None, "", env.repository(body.value), env.sender(body.value), "", ZERO_TIME)]
      ensures collector.queue == (old(collector.queue) || status == 200)
      ensures storedEvents == old(storedEvents) + (if status == 200 && up then 1 else 0)
      ensures signatureErrors == old(signatureErrors) + (if status == 401 then 1 else 0)
      ensures blockedIPs == old(blockedIPs) + (if status == 400 then 1 else 0)
    {
      if !isPost {
        return STATUS_METHOD_NOT_ALLOWED;
      }
      if !ValidGitHubEvent(header, fromGitHub) {
        blockedIPs := blockedIPs + 1;
        return STATUS_BAD_REQUEST;
      }
      if body.None? {
        return STATUS_INTERNAL_SERVER_ERROR;
      }
      var payload := body.value;
      var verified := VerifySignature(env.mac, header, payload, env.secret);
      if verified.Err? {
        signatureErrors := signatureErrors + 1;
        return STATUS_UNAUTHORIZED;
      }
      var event := Event(Get(header, DELIVERY_HEADER), Get(header, EVENT_HEADER), env.marshal(header), payload,
                         now, None, "", "", "", "", ZERO_TIME);
      event := event.(repository := env.repository(payload), sender := env.sender(payload));
      var _, stored := store.StoreEvent(event, uuid, up);
      if stored.Ok? {
        storedEvents := storedEvents + 1;
      }
      collector.EnqueueGatherMetrics();
      return STATUS_OK;
    }
  }
}
