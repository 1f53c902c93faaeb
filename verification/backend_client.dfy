/** The paired firmware's authenticated calls: fetching the schedule and
    reporting a dispensing event. Each takes the outcomes the transport
    would give to the requests it may make; a request that is never made
    leaves its outcome unused. */
module BackendClient {
  import opened Wrappers
  import opened Ints
  import opened JsonValue
  import opened Http
  import opened ScheduleStore
  import opened ConfigPayload
  import opened EventPayload
  import opened Pairing
  import Urls

  /** The authenticated schedule request: a GET of the device's config
      endpoint whose only credential is the secret header. */
  function ConfigRequest(cfg: Settings, secret: string): (r: Request)
    ensures r.verb == GET && r.body == NoBody
    ensures Urls.UrlShape(r.url, cfg.baseUrl, Urls.API_DEVICES + cfg.serial + Urls.CONFIG_LEAF)
    ensures HeaderValue(r.headers, "X-Device-Secret") == Some(secret)
  {
    Request(GET, Urls.ConfigUrl(cfg.baseUrl, cfg.serial), [Header("X-Device-Secret", secret)], NoBody)
  }

  /** The authenticated event report: a JSON POST to the device's events
      endpoint carrying the secret header. */
  function EventRequest(cfg: Settings, secret: string, body: Json): (r: Request)
    ensures r.verb == POST && r.body == JsonBody(body)
    ensures Urls.UrlShape(r.url, cfg.baseUrl, Urls.API_DEVICES + cfg.serial + Urls.EVENTS_LEAF)
    ensures HeaderValue(r.headers, "Content-Type") == Some("application/json")
    ensures HeaderValue(r.headers, "X-Device-Secret") == Some(secret)
  {
    Request(POST, Urls.EventsUrl(cfg.baseUrl, cfg.serial),
            [Header("Content-Type", "application/json"), Header("X-Device-Secret", secret)],
            JsonBody(body))
  }

  datatype FetchResult = FetchResult(client: Client, store: Store, ok: bool, sent: seq<Request>)

  /** Fetch the schedule and apply it. The guards run in order: Wi-Fi,
      pairing, a non-empty secret, the connection, status 200; only then
      is the payload parsed. */
  function FetchConfig(cfg: Settings, c: Client, store: Store, wifiUp: bool,
                       pairOutcome: Outcome, configOutcome: Outcome): (r: FetchResult)
    // Wi-Fi down: nothing happens at all, even with a secret cached.
    ensures !wifiUp ==> r == FetchResult(c, store, false, [])
    // Whatever fails leaves the schedule as it was.
    ensures !r.ok ==> r.store == store
    // The pairing step is exactly the one `EnsurePaired` takes.
    ensures wifiUp ==> r.client == EnsurePaired(cfg, c, pairOutcome).client
    // Without pairing there is no configuration request.
    ensures wifiUp && !EnsurePaired(cfg, c, pairOutcome).ok ==>
              !r.ok && r.sent == EnsurePaired(cfg, c, pairOutcome).sent
    // Success: the request carried the persisted secret, the answer was 200
    // with a document, and the store holds that document's schedule.
    ensures r.ok ==>
              && configOutcome.Response? && configOutcome.code == HTTP_CODE_OK
              && configOutcome.payload.Some?
              && r.client.deviceSecret != ""
    ensures r.ok && Valid(c) ==> r.client.stored == Some(r.client.deviceSecret)
    ensures r.ok ==> |r.sent| >= 1 && r.sent[|r.sent| - 1] == ConfigRequest(cfg, r.client.deviceSecret)
    ensures r.ok ==> r == FetchResult(r.client, ParseConfigPayload(configOutcome.payload, store).store, true, r.sent)
    // A 200 answer yields the parse's result.
    ensures wifiUp && EnsurePaired(cfg, c, pairOutcome).ok && configOutcome.Response?
            && configOutcome.code == HTTP_CODE_OK ==>
              r.ok == configOutcome.payload.Some?
    // Any other status fails without parsing.
    ensures configOutcome.Response? && configOutcome.code != HTTP_CODE_OK ==> !r.ok
    // Once paired, the config GET goes out exactly when the connection
    // begins, whatever the answer turns out to be.
    ensures wifiUp && EnsurePaired(cfg, c, pairOutcome).ok && configOutcome.BeginFailed? ==>
              r.sent == EnsurePaired(cfg, c, pairOutcome).sent
    ensures wifiUp && EnsurePaired(cfg, c, pairOutcome).ok && configOutcome.Response? ==>
              var p := EnsurePaired(cfg, c, pairOutcome);
              r.sent == p.sent + [ConfigRequest(cfg, p.client.deviceSecret)]
  {
    if !wifiUp then FetchResult(c, store, false, [])
    else
      var p := EnsurePaired(cfg, c, pairOutcome);
      if !p.ok then FetchResult(p.client, store, false, p.sent)
      else if |p.client.deviceSecret| == 0 then FetchResult(p.client, store, false, p.sent)
      else
        match configOutcome
        case BeginFailed => FetchResult(p.client, store, false, p.sent)
        case Response(code, payload) =>
          var sent := p.sent + [ConfigRequest(cfg, p.client.deviceSecret)];
          if code != HTTP_CODE_OK then FetchResult(p.client, store, false, sent)
          else
            var parsed := ParseConfigPayload(payload, store);
            FetchResult(p.client, parsed.store, parsed.ok, sent)
  }

  /** Report one dispensing event; true exactly when the backend answers 204. */
  function PostEvent(cfg: Settings, c: Client, status: string, occurredAt: string,
                     containerSlot: int32, scheduleId: int32,
                     pairOutcome: Outcome, eventOutcome: Outcome): (r: Step)
    ensures r.client == EnsurePaired(cfg, c, pairOutcome).client
    ensures !EnsurePaired(cfg, c, pairOutcome).ok ==> !r.ok && r.sent == EnsurePaired(cfg, c, pairOutcome).sent
    ensures r.ok <==> EnsurePaired(cfg, c, pairOutcome).ok
                      && eventOutcome.Response? && eventOutcome.code == HTTP_CODE_NO_CONTENT
    ensures EnsurePaired(cfg, c, pairOutcome).ok && eventOutcome.BeginFailed? ==>
              r.sent == EnsurePaired(cfg, c, pairOutcome).sent
    ensures EnsurePaired(cfg, c, pairOutcome).ok && eventOutcome.Response? ==>
              var p := EnsurePaired(cfg, c, pairOutcome);
              r.sent == p.sent + [EventRequest(cfg, p.client.deviceSecret,
                                               EventBody(status, occurredAt, containerSlot, scheduleId))]
  {
    var p := EnsurePaired(cfg, c, pairOutcome);
    if !p.ok then p
    else
      match eventOutcome
      case BeginFailed => Step(p.client, false, p.sent)
      case Response(code, _) =>
        var body := EventBody(status, occurredAt, containerSlot, scheduleId);
        Step(p.client, code == HTTP_CODE_NO_CONTENT, p.sent + [EventRequest(cfg, p.client.deviceSecret, body)])
  }

  // ---------------------------------------------------------------------
  // Properties of the fetch path.

  /** The defensive "secret is empty" check after pairing never fires:
      pairing success always leaves a secret. */
  lemma SecretCheckIsUnreachable(cfg: Settings, c: Client, pairOutcome: Outcome)
    requires EnsurePaired(cfg, c, pairOutcome).ok
    ensures EnsurePaired(cfg, c, pairOutcome).client.deviceSecret != ""
  {
  }

  /** With a persisted secret a fetch makes exactly one request, the
      authenticated schedule request carrying that secret. */
  lemma PairedFetchMakesOneRequest(cfg: Settings, c: Client, store: Store, pairOutcome: Outcome, code: int, payload: Option<Json>)
    requires Valid(c) && c.stored.Some? && c.stored.value != ""
    ensures FetchConfig(cfg, c, store, true, pairOutcome, Response(code, payload)).sent
            == [ConfigRequest(cfg, c.stored.value)]
  {
  }

  /** An unpaired device's first fetch pairs and then authenticates with
      exactly the secret the backend handed out, which is also persisted. */
  lemma FreshPairingAuthenticatesFetch(cfg: Settings, c: Client, store: Store,
                                       pairOutcome: Outcome, configOutcome: Outcome)
    requires Valid(c) && c.stored.GetOr("") == ""
    requires PairingAccepted(pairOutcome) && configOutcome.Response?
    ensures var secret := ReceivedSecret(pairOutcome.payload.value);
            var r := FetchConfig(cfg, c, store, true, pairOutcome, configOutcome);
            && r.sent == [PairRequest(cfg), ConfigRequest(cfg, secret)]
            && r.client.stored == Some(secret)
  {
  }

  /** A 500 answer leaves the schedule exactly as it was. */
  lemma ServerErrorKeepsSchedule(cfg: Settings, c: Client, store: Store, pairOutcome: Outcome, payload: Option<Json>)
    ensures FetchConfig(cfg, c, store, true, pairOutcome, Response(500, payload)).store == store
  {
  }
}
