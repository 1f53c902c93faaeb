/** The device's credential state: the lazily loaded copy of the persisted
    device secret, the paired flag, and the pairing exchange with the
    backend. The persisted key-value slot (key "device_secret" in the
    "aurora" namespace) is part of the state; its durability is assumed. */
module Pairing {
  import opened Wrappers
  import opened JsonValue
  import opened Http
  import Urls

  /** The compile-time settings the client reads. */
  datatype Settings = Settings(baseUrl: string, serial: string)

  /** `prefsReady`: the persisted store has been opened and read.
      `deviceSecret`: the cached secret ("" when there is none).
      `isPaired`: the paired flag. `stored`: the persisted slot, `None`
      while nothing was ever written to it. */
  datatype Client = Client(prefsReady: bool, deviceSecret: string, isPaired: bool, stored: Option<string>)

  /** A freshly constructed client over whatever the slot holds. */
  function NewClient(stored: Option<string>): Client {
    Client(false, "", false, stored)
  }

  /** The consistency the client keeps: before the first load nothing is
      cached; afterwards the cache is exactly the persisted value (absent
      reads as ""), and the paired flag says whether it is non-empty. */
  ghost predicate Valid(c: Client) {
    if !c.prefsReady then c.deviceSecret == "" && !c.isPaired
    else c.deviceSecret == c.stored.GetOr("") && (c.isPaired <==> c.deviceSecret != "")
  }

  /** Read the slot into the cache; does nothing before the store is open. */
  function LoadSecret(c: Client): (r: Client)
    ensures !c.prefsReady ==> r == c
    ensures c.prefsReady ==> r.prefsReady && r.stored == c.stored
                             && r.deviceSecret == c.stored.GetOr("")
                             && (r.isPaired <==> r.deviceSecret != "")
  {
    if !c.prefsReady then c
    else
      var secret := c.stored.GetOr("");
      c.(deviceSecret := secret, isPaired := |secret| > 0)
  }

  /** Open the store and load the secret the first time only. */
  function EnsurePrefs(c: Client): (r: Client)
    ensures c.prefsReady ==> r == c
    ensures !c.prefsReady ==> r.prefsReady && r.stored == c.stored
                              && r.deviceSecret == c.stored.GetOr("")
                              && (r.isPaired <==> r.deviceSecret != "")
    ensures !c.prefsReady ==> Valid(r)
  {
    if c.prefsReady then c
    else LoadSecret(c.(prefsReady := true))
  }

  /** Cache a secret and write it to the slot. */
  function SaveSecret(c: Client, secret: string): (r: Client)
    ensures r.prefsReady && r.deviceSecret == secret && r.stored == Some(secret)
    ensures r.isPaired == EnsurePrefs(c).isPaired
  {
    EnsurePrefs(c).(deviceSecret := secret, stored := Some(secret))
  }

  /** The pairing request: an empty POST to the device's pair endpoint. */
  function PairRequest(cfg: Settings): (r: Request)
    ensures r.verb == POST && r.body == Text("") && r.headers == []
    ensures Urls.UrlShape(r.url, cfg.baseUrl, Urls.API_DEVICES + cfg.serial + Urls.PAIR_LEAF)
    ensures HeaderValue(r.headers, "X-Device-Secret").None?
  {
    Request(POST, Urls.PairUrl(cfg.baseUrl, cfg.serial), [], Text(""))
  }

  /** The `device_secret` string of a pairing response, "" when it is
      missing or not a string. */
  function ReceivedSecret(doc: Json): (r: string)
    ensures r == "" || Get(doc, "device_secret") == Some(JString(r))
    ensures forall s :: Get(doc, "device_secret") == Some(JString(s)) ==> r == s
  {
    StrOr(Get(doc, "device_secret"), "")
  }

  /** The one outcome that pairs the device: status 200 with a document
      whose `device_secret` is a non-empty string. */
  predicate PairingAccepted(outcome: Outcome)
    ensures PairingAccepted(outcome) <==>
              exists secret: string ::
                && secret != ""
                && outcome.Response? && outcome.code == HTTP_CODE_OK && outcome.payload.Some?
                && Get(outcome.payload.value, "device_secret") == Some(JString(secret))
  {
    && outcome.Response?
    && outcome.code == HTTP_CODE_OK
    && outcome.payload.Some?
    && ReceivedSecret(outcome.payload.value) != ""
  }

  /** The client after one call, whether it reported success, and the
      requests it put on the wire. */
  datatype Step = Step(client: Client, ok: bool, sent: seq<Request>)

  /** One pairing attempt; `outcome` is what the transport makes of the
      pairing request. A 409 (already paired on the backend) is a failure
      like any other: nothing records it, so the next attempt asks again. */
  function PairDevice(cfg: Settings, c: Client, outcome: Outcome): (r: Step)
    // Already paired: no request.
    ensures c.isPaired && c.deviceSecret != "" ==> r == Step(c, true, [])
    // Otherwise the request goes out unless the connection could not begin.
    ensures !(c.isPaired && c.deviceSecret != "") ==>
              r.sent == (if outcome.Response? then [PairRequest(cfg)] else [])
    // Success means exactly an accepted response, whose secret is then
    // both cached and persisted.
    ensures !(c.isPaired && c.deviceSecret != "") ==> (r.ok <==> PairingAccepted(outcome))
    ensures !(c.isPaired && c.deviceSecret != "") && r.ok ==>
              var secret := ReceivedSecret(outcome.payload.value);
              r.client.deviceSecret == secret && r.client.stored == Some(secret) && r.client.isPaired
    // Every failure leaves the client and the slot untouched.
    ensures !r.ok ==> r.client == c
    ensures Valid(c) ==> Valid(r.client)
  {
    if c.isPaired && |c.deviceSecret| > 0 then Step(c, true, [])
    else
      match outcome
      case BeginFailed => Step(c, false, [])
      case Response(code, payload) =>
        var sent := [PairRequest(cfg)];
        if code == HTTP_CODE_CONFLICT then Step(c, false, sent)
        else if code != HTTP_CODE_OK then Step(c, false, sent)
        else if payload.None? then Step(c, false, sent)
        else
          var secret := ReceivedSecret(payload.value);
          if |secret| == 0 then Step(c, false, sent)
          else Step(SaveSecret(c, secret).(isPaired := true), true, sent)
  }

  /** Make sure the device holds a secret, pairing if it does not. */
  function EnsurePaired(cfg: Settings, c: Client, outcome: Outcome): (r: Step)
    // Fast path: a cached (or just loaded) secret means success without
    // any request.
    ensures EnsurePrefs(c).deviceSecret != "" ==>
              r == Step(EnsurePrefs(c).(isPaired := true), true, [])
    // No secret: pairing is attempted, every time.
    ensures EnsurePrefs(c).deviceSecret == "" ==>
              r.sent == (if outcome.Response? then [PairRequest(cfg)] else [])
              && (r.ok <==> PairingAccepted(outcome))
    // Success always leaves a non-empty secret, cached and flagged.
    ensures r.ok ==> r.client.deviceSecret != "" && r.client.isPaired && r.client.prefsReady
    // A fresh pairing caches and persists exactly the secret the backend
    // sent; a failed one leaves the client as `ensurePrefs` left it.
    ensures EnsurePrefs(c).deviceSecret == "" && r.ok ==>
              var s := ReceivedSecret(outcome.payload.value);
              r.client.deviceSecret == s && r.client.stored == Some(s)
    ensures EnsurePrefs(c).deviceSecret == "" && !r.ok ==> r.client == EnsurePrefs(c)
    // The slot is written only by a successful pairing.
    ensures r.client.stored != c.stored ==> r.ok && r.sent != []
    ensures Valid(c) ==> Valid(r.client)
  {
    var c1 := EnsurePrefs(c);
    if |c1.deviceSecret| > 0 then Step(c1.(isPaired := true), true, [])
    else
      var p := PairDevice(cfg, c1, outcome);
      if p.ok then Step(p.client.(isPaired := true), true, p.sent) else p
  }

  // ---------------------------------------------------------------------
  // Properties of the credential lifecycle.

  lemma NewClientIsValid(stored: Option<string>)
    ensures Valid(NewClient(stored))
  {
  }

  /** The first call loads the slot; later calls do not read it again, so
      a value written behind the client's back is not picked up. */
  lemma LoadsOnce(c: Client, other: Option<string>)
    requires !c.prefsReady
    ensures EnsurePrefs(EnsurePrefs(c)) == EnsurePrefs(c)
    ensures EnsurePrefs(EnsurePrefs(c).(stored := other)).deviceSecret == EnsurePrefs(c).deviceSecret
  {
  }

  /** What `saveSecret` writes survives a restart: a client started on the
      saved slot loads the same secret and counts as paired iff it is
      non-empty. */
  lemma SavedSecretReloads(c: Client, secret: string)
    ensures var reloaded := EnsurePrefs(NewClient(SaveSecret(c, secret).stored));
            && reloaded.deviceSecret == secret
            && (reloaded.isPaired <==> secret != "")
  {
  }

  /** A device that has a persisted secret never pairs again: no request
      goes out and the slot keeps its value, whatever the backend would say. */
  lemma PersistedSecretIsNeverReplaced(cfg: Settings, c: Client, outcome: Outcome)
    requires Valid(c)
    requires c.stored.Some? && c.stored.value != ""
    ensures EnsurePaired(cfg, c, outcome).ok
    ensures EnsurePaired(cfg, c, outcome).sent == []
    ensures EnsurePaired(cfg, c, outcome).client.stored == c.stored
  {
  }

  /** A 409 answer leaves no trace: the client is unchanged and the next
      call pairs again. */
  lemma ConflictIsNotSticky(cfg: Settings, c: Client, payload: Option<Json>, again: Outcome)
    requires Valid(c) && EnsurePrefs(c).deviceSecret == ""
    requires again.Response?
    ensures var first := EnsurePaired(cfg, c, Response(HTTP_CODE_CONFLICT, payload));
            && !first.ok
            && first.client == EnsurePrefs(c)
            && first.sent == [PairRequest(cfg)]
            && EnsurePaired(cfg, first.client, again).sent == [PairRequest(cfg)]
  {
  }

  /** Once paired, the device stays paired for the rest of the session
      without further requests. */
  lemma PairedStaysPaired(cfg: Settings, c: Client, o1: Outcome, o2: Outcome)
    requires Valid(c)
    requires EnsurePaired(cfg, c, o1).ok
    ensures var c1 := EnsurePaired(cfg, c, o1).client;
            EnsurePaired(cfg, c1, o2) == Step(c1, true, [])
  {
  }
}
