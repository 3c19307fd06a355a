/** From a webhook request to a stored event and from a stored event to the forwarded request. */
module Envelope {
  import opened Ascii
  import opened Wrappers
  import opened Sequences
  import opened Hex
  import opened Headers
  import opened Signature
  import opened Events

  /** The library functions the program relies on, and the configured secret. */
  datatype Env = Env(
    mac: Mac,
    secret: Bytes,
    marshal: HeaderMap -> string,            // json.Marshal of a header map, which cannot fail
    unmarshal: string -> Option<HeaderMap>,  // json.Unmarshal into map[string][]string
    coerce: string -> string,                // invalid UTF-8 replaced, as encoding/json does
    repository: Bytes -> string,             // repository.full_name of the payload, "" if absent
    sender: Bytes -> string)                 // sender.login of the payload, "" if absent

  /** A header map as Go's server parses it from the wire. */
  predicate FromWire(h: HeaderMap) {
    forall name :: name in h ==> IsTokens(name) && IsCanonical(name) && h[name] != []
  }

  /** Header lines with token names, added as they arrive, make such a map. */
  lemma AddedFromWire(h: HeaderMap, name: string, value: string)
    requires FromWire(h) && IsTokens(name)
    ensures FromWire(map[]) && FromWire(Add(h, name, value))
  {
    CanonicalIsTokens(name);
    CanonicalTwice(name);
  }

  function Coerced(env: Env, h: HeaderMap): HeaderMap {
    map name | name in h :: seq(|h[name]|, i requires 0 <= i < |h[name]| => env.coerce(h[name][i]))
  }

  /** What encoding/json promises for such maps: a round trip up to the coercion of values, which leaves ASCII alone. */
  ghost predicate Lawful(env: Env) {
    && (forall h: HeaderMap :: FromWire(h) ==> env.unmarshal(env.marshal(h)) == Some(Coerced(env, h)))
    && (forall v: string :: IsAscii(v) ==> env.coerce(v) == v)
  }

  const EVENT_HEADER := "X-GitHub-Event"
  const DELIVERY_HEADER := "X-GitHub-Delivery"

  datatype WebhookRequest = WebhookRequest(header: HeaderMap, payload: Bytes)

  /** The request passed both gates of the handler: an event type and a valid signature. */
  predicate Admitted(env: Env, r: WebhookRequest) {
    && Get(r.header, EVENT_HEADER) != ""
    && VerifySignature(env.mac, r.header, r.payload, env.secret).Ok?
  }

  /** The event the handler stores for a request; the uuid serves when no delivery id was sent. */
  function EventOf(env: Env, r: WebhookRequest, uuid: string, now: Time): Event {
    var delivery := Get(r.header, DELIVERY_HEADER);
    Event(if delivery == "" then uuid else delivery, Get(r.header, EVENT_HEADER), env.marshal(r.header), r.payload,
          now, None, "", env.repository(r.payload), env.sender(r.payload), "", ZERO_TIME)
  }

  /** The header a stored event is forwarded with, for one order of ranging over the parsed map. */
  function ForwardHeader(env: Env, headers: string, order: seq<string>): HeaderMap
    requires env.unmarshal(headers).Some? && IsRange(env.unmarshal(headers).value, order)
  {
    assert forall name :: name in order ==> name in ToSet(order);
    Rebuild(env.unmarshal(headers).value, order)
  }

  /** Forwarding a stored request hands on its whole header, value for value, in any order of ranging. */
  lemma ForwardsHeader(env: Env, r: WebhookRequest, order: seq<string>)
    requires Lawful(env) && FromWire(r.header)
    requires IsRange(Coerced(env, r.header), order)
    ensures env.unmarshal(env.marshal(r.header)) == Some(Coerced(env, r.header))
    ensures ForwardHeader(env, env.marshal(r.header), order) == Coerced(env, r.header)
  {
    HeaderRoundTrip(Coerced(env, r.header), order);
  }

  /** Whatever coercion does to other values, the signature still verifies. */
  lemma ForwardVerifies(env: Env, r: WebhookRequest, order: seq<string>)
    requires Lawful(env) && FromWire(r.header) && Admitted(env, r)
    requires IsRange(Coerced(env, r.header), order)
    ensures env.unmarshal(env.marshal(r.header)) == Some(Coerced(env, r.header))
    ensures VerifySignature(env.mac, ForwardHeader(env, env.marshal(r.header), order), r.payload, env.secret).Ok?
  {
    ForwardsHeader(env, r, order);
    AcceptedIsAscii(env.mac, r.header, r.payload, env.secret);
    assert Get(Coerced(env, r.header), SIGNATURE_HEADER) == Get(r.header, SIGNATURE_HEADER);
  }
}
