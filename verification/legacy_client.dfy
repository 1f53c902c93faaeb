/** The earlier firmware's client: no pairing, the compile-time secret on
    every request, and a different URL prefix. */
module LegacyClient {
  import opened Wrappers
  import opened Ints
  import opened JsonValue
  import opened Http
  import opened ScheduleStore
  import opened ConfigPayload
  import opened EventPayload
  import Urls

  /** The compile-time settings, including the fixed device secret. */
  datatype Settings = Settings(baseUrl: string, serial: string, deviceSecret: string)

  /** The schedule request: a GET of the legacy config endpoint carrying
      the compiled-in secret. */
  function ConfigRequest(cfg: Settings): (r: Request)
    ensures r.verb == GET && r.body == NoBody
    ensures Urls.UrlShape(r.url, cfg.baseUrl, Urls.DISPENSERS_DEVICES + cfg.serial + Urls.CONFIG_LEAF)
    ensures HeaderValue(r.headers, "X-Device-Secret") == Some(cfg.deviceSecret)
  {
    Request(GET, Urls.LegacyConfigUrl(cfg.baseUrl, cfg.serial), [Header("X-Device-Secret", cfg.deviceSecret)], NoBody)
  }

  /** The event report: a JSON POST to the legacy events endpoint carrying
      the compiled-in secret. */
  function EventRequest(cfg: Settings, body: Json): (r: Request)
    ensures r.verb == POST && r.body == JsonBody(body)
    ensures Urls.UrlShape(r.url, cfg.baseUrl, Urls.DISPENSERS_DEVICES + cfg.serial + Urls.EVENTS_LEAF)
    ensures HeaderValue(r.headers, "Content-Type") == Some("application/json")
    ensures HeaderValue(r.headers, "X-Device-Secret") == Some(cfg.deviceSecret)
  {
    Request(POST, Urls.LegacyEventsUrl(cfg.baseUrl, cfg.serial),
            [Header("Content-Type", "application/json"), Header("X-Device-Secret", cfg.deviceSecret)],
            JsonBody(body))
  }

  datatype FetchResult = FetchResult(store: Store, ok: bool, sent: seq<Request>)

  /** Fetch the schedule and apply it; only a 200 answer is parsed. */
  function FetchConfig(cfg: Settings, store: Store, outcome: Outcome): (r: FetchResult)
    ensures r.sent == (if outcome.Response? then [ConfigRequest(cfg)] else [])
    ensures outcome.BeginFailed? ==> !r.ok && r.store == store
    ensures outcome.Response? && outcome.code != HTTP_CODE_OK ==> !r.ok && r.store == store
    ensures outcome.Response? && outcome.code == HTTP_CODE_OK ==>
              r.ok == outcome.payload.Some?
              && r.store == ParseConfigPayload(outcome.payload, store).store
    ensures !r.ok ==> r.store == store
  {
    match outcome
    case BeginFailed => FetchResult(store, false, [])
    case Response(code, payload) =>
      if code != HTTP_CODE_OK then FetchResult(store, false, [ConfigRequest(cfg)])
      else
        var parsed := ParseConfigPayload(payload, store);
        FetchResult(parsed.store, parsed.ok, [ConfigRequest(cfg)])
  }

  datatype PostResult = PostResult(ok: bool, sent: seq<Request>)

  /** Report one event; true exactly when the answer is 204. */
  function PostEvent(cfg: Settings, status: string, occurredAt: string,
                     containerSlot: int32, scheduleId: int32, outcome: Outcome): (r: PostResult)
    ensures r.ok <==> outcome.Response? && outcome.code == HTTP_CODE_NO_CONTENT
    ensures r.sent == if outcome.BeginFailed? then []
                      else [EventRequest(cfg, EventBody(status, occurredAt, containerSlot, scheduleId))]
  {
    match outcome
    case BeginFailed => PostResult(false, [])
    case Response(code, _) =>
      PostResult(code == HTTP_CODE_NO_CONTENT,
                 [EventRequest(cfg, EventBody(status, occurredAt, containerSlot, scheduleId))])
  }

  /** Every request of this firmware authenticates with the same fixed
      secret: there is no pairing path that could change it. */
  lemma AlwaysTheCompiledSecret(cfg: Settings, store: Store, o1: Outcome,
                                status: string, occurredAt: string, slot: int32, id: int32, o2: Outcome)
    ensures forall q :: q in FetchConfig(cfg, store, o1).sent ==>
              HeaderValue(q.headers, "X-Device-Secret") == Some(cfg.deviceSecret)
    ensures forall q :: q in PostEvent(cfg, status, occurredAt, slot, id, o2).sent ==>
              HeaderValue(q.headers, "X-Device-Secret") == Some(cfg.deviceSecret)
  {
  }
}
