/** `test_proxy`: send one request through the proxy and turn what happens
    into an (active, network type) pair. */
module Prober {
  import opened Wrappers
  import opened Json
  import opened Classifier

  /** What `requests.get(test_url, proxies=..., timeout=5)` did:
      - `NetError`: raised a `RequestException` (timeout, refused connection,
        DNS failure, proxy error, ...);
      - `UncaughtError`: raised some other exception, which the
        `except RequestException` clause lets through;
      - `Response`: returned, with its status code and its body parsed as JSON
        (None when the body is not valid JSON). */
  datatype Probe =
    | NetError
    | UncaughtError
    | Response(status: int, body: Option<Value>)

  /** What a call of `test_proxy` comes to: the pair it returns, or an
      exception that leaves it. */
  datatype ProbeOutcome = Returned(active: bool, kind: NetworkType) | Raised

  /** The body of a 200 response from which `response.json()['origin']` reads
      without raising: a JSON object with an "origin" key. */
  predicate HasOrigin(body: Option<Value>) {
    body.Some? && body.value.JObject? && "origin" in body.value.fields
  }

  /** `test_proxy(proxy)` given what the request through that proxy did and
      the oracle for the classification lookup. */
  function TestProxy(reply: Probe, lookup: Value -> Lookup): (o: ProbeOutcome)
    // active exactly for a 200 answer that names its origin, and then the
    // type is the classification of that origin
    ensures (o.Returned? && o.active) <==> reply.Response? && reply.status == 200 && HasOrigin(reply.body)
    ensures o.Returned? && o.active ==> o.kind == GetProxyType(reply.body.value.fields["origin"], lookup)
    // every failure that is caught comes back as (False, "Unknown")
    ensures o.Returned? && !o.active ==> o.kind == Unknown
    ensures o == Returned(false, Unknown) <==>
              reply.NetError? || (reply.Response? && (reply.status != 200 || reply.body.None?))
    // the exceptions that escape
    ensures o.Raised? <==>
              reply.UncaughtError? || (reply.Response? && reply.status == 200 && reply.body.Some? && !HasOrigin(reply.body))
  {
    match reply
    case NetError => Returned(false, Unknown)
    case UncaughtError => Raised
    case Response(status, body) =>
      if status != 200 then Returned(false, Unknown)
      else
        match body
        // requests' JSONDecodeError is itself a RequestException
        case None => Returned(false, Unknown)
        case Some(json) =>
          // `json['origin']` raises KeyError on an object without "origin"
          // and TypeError on any other JSON value
          if json.JObject? && "origin" in json.fields then
            Returned(true, GetProxyType(json.fields["origin"], lookup))
          else Raised
  }

  /** The classification lookup never decides whether a proxy is active or
      whether the probe raises: only the network type depends on it. */
  lemma LookupCannotChangeLiveness(reply: Probe, lookup1: Value -> Lookup, lookup2: Value -> Lookup)
    ensures TestProxy(reply, lookup1).Raised? == TestProxy(reply, lookup2).Raised?
    ensures TestProxy(reply, lookup1).Returned? ==>
              TestProxy(reply, lookup1).active == TestProxy(reply, lookup2).active
  {
  }

  /** A working proxy whose classification lookup fails is still active,
      with type Unknown. */
  lemma LookupFailureKeepsActive(reply: Probe, lookup: Value -> Lookup)
    requires reply.Response? && reply.status == 200 && HasOrigin(reply.body)
    requires lookup(reply.body.value.fields["origin"]) == LookupFailed
    ensures TestProxy(reply, lookup) == Returned(true, Unknown)
  {
  }
}
