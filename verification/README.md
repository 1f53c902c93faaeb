# Pill dispenser sync client — a Dafny model

This project models the device-side synchronisation client of a networked
pill dispenser (ESP32 firmware). It covers two firmware variants:

- the paired firmware (`aurora_esp32/`): it obtains a per-device secret by
  pairing with the backend, keeps it in the ESP32's persistent key-value store,
  fetches the dosing schedule, and reports dispensing events;
- the earlier static-secret firmware (`src/`): it sends a compile-time secret
  and has no pairing path. Its main loop polls the schedule on a fixed interval.

Everything is modelled as pure functions over immutable values. Network,
persistent storage and JSON text parsing are turned into plain inputs and
outputs:

- An HTTP exchange is an input `Outcome`. Either `http.begin` failed, or the
  exchange gave a status code and the response body as ArduinoJson parsed it
  (`None` is a deserialization error).
- Every request the client makes is recorded in a `sent` list of `Request`
  values: method, URL, headers and body. "No network access" therefore reads
  as `sent == []`.
- The persisted secret is a field `stored` of the client state (key
  `device_secret` in namespace `aurora`). `None` means it was never written.
- Wi-Fi status and the `millis()` clock are parameters.
- `BACKEND_BASE_URL`, `DEVICE_SERIAL_ID`, `DEVICE_SECRET` and `POLL_INTERVAL_MS`
  are parameters too.

Modules:

- `Ints`: 32-bit `int`, `int64_t`, `uint8_t` and 32-bit `unsigned long`, plus
  C's truncating byte conversion and wrapping unsigned subtraction.
- `JsonValue`: the parsed document and ArduinoJson's `doc["key"]` lookup. Each
  `value | default` read is a total lookup-with-default:
  - the value is used when it has the default's C++ type;
  - otherwise the default is used.
- `Http`: requests, outcomes and the status codes 200, 204 and 409.
- `Urls`: the endpoint URL builders of both variants.
- `ScheduleStore`: schedule entries, containers and the store with its
  replace-everything `ApplyConfig`.
- `ConfigPayload`: decoding of the configuration document. It includes an
  encoder for the backend's document and the round-trip proof.
- `EventPayload`: the event report body.
- `Pairing`: the lazy credential load, `ensurePaired` and `pairDevice`.
- `BackendClient`: the paired firmware's `fetchConfig` and `postEvent`.
- `LegacyClient`: the static-secret firmware's `fetchConfig` and `postEvent`.
- `Session`: any sequence of fetches and reports within one power-on session, for the credential guarantees that span calls.
- `Poll`: `pollConfigIfNeeded`, the interval gate of the static-secret main loop.

Decisions where a reader could expect something else:

- **No conflict state.** Pairing follows the code. A 409 answer returns false
  and records nothing (aurora_esp32/backend_client.cpp:130-135), so the next
  `ensurePaired` asks again. The code has no terminal "conflict, do not
  retry" state, and neither does the model.
- **No save-failure path.** A failed secret write is not detected: the code
  ignores `putString`'s return value (aurora_esp32/backend_client.cpp:81), so
  the model has no such path.
- **Integer defaults are 32-bit `int`.** ArduinoJson's `v | d` takes `v` only
  when `v.is<T>()` holds for the type `T` of the default. Every integer
  default in the decoder is an `int`, so:
  - an integer member outside the 32-bit range reads as its default;
  - this includes `schedule_version`, although the store keeps 64 bits
    (`WideVersionReadsAsZero`).
- **Byte fields wrap.** `day_of_week`, `hour` and `minute` are assigned from
  an `int` to `uint8_t`, so they are reduced modulo 256. Nothing checks that
  the day is at most 6, the hour at most 23 or the minute at most 59.
- **Permissive element decoding.**
  - An element of `containers` or `schedules` that is not an object still
    yields one record, with every field at its default.
  - A `containers` or `schedules` member that is not an array yields no
    elements.
  - A document that parses but is not an object is accepted and empties the
    store (`NonObjectDocumentEmptiesStore`).
- **Duplicate keys.** ArduinoJson 6's deserializer looks a key up before it
  adds a member, so an object keeps one member per key, holding the value
  that came last in the text. A lookup in the model therefore returns the
  value of the last member with the key (`JsonValue.FindSpec`).

## Model

| member | source | states |
|---|---|---|
| `Urls.DeviceUrl` | aurora_esp32/backend_client.cpp:39-64 | The URL is the base, then a slash exactly when the base does not end with one, then the path prefix, serial and leaf; the base is a prefix of the URL. |
| `Urls.ShapeDeterminesUrl` | aurora_esp32/backend_client.cpp:39-64 | That shape description is complete: only one string has a given shape. |
| `Urls.ConfigUrl` | aurora_esp32/backend_client.cpp:39-46 | Config URL is base, optional slash, `api/devices/`, serial, `/config/`. |
| `Urls.EventsUrl` | aurora_esp32/backend_client.cpp:48-55 | Events URL is base, optional slash, `api/devices/`, serial, `/events/`. |
| `Urls.PairUrl` | aurora_esp32/backend_client.cpp:57-64 | Pair URL is base, optional slash, `api/devices/`, serial, `/pair/`. |
| `Urls.LegacyConfigUrl` | src/backend_client.cpp:15-22 | Config URL of the static-secret firmware uses `dispensers/devices/` instead. |
| `Urls.LegacyEventsUrl` | src/backend_client.cpp:24-31 | Events URL of the static-secret firmware uses `dispensers/devices/` instead. |
| `Urls.TrailingSlashIrrelevant` | aurora_esp32/backend_client.cpp:39-46 | A base with or without a trailing slash gives the same URL. |
| `Urls.SerialDeterminesUrl` | aurora_esp32/backend_client.cpp:39-64 | Different serials give different URLs under the same base. |
| `Urls.IsHttpsBaseUrl` | aurora_esp32/backend_client.cpp:23-25 | True exactly when the first eight characters of the base are `https://`. |
| `Urls.TlsChoiceMatchesUrl` | aurora_esp32/backend_client.cpp:27-29 | TLS is chosen from the base alone. That choice agrees with the request URL's own scheme for any path not starting with a slash, including bases shorter than the scheme. |
| `JsonValue.FindSpec` | aurora_esp32/backend_client.cpp:167-187 | A member lookup is absent exactly when no member has the key; otherwise it returns the value of the last member with that key, as the deserializer keeps it. |
| `JsonValue.FindLast` | aurora_esp32/backend_client.cpp:167-187 | A member whose key does not occur later in the object is the one the lookup returns. |
| `JsonValue.DuplicateKeyReadsLast` | aurora_esp32/backend_client.cpp:185 | In `{"hour": 8, "hour": 9}` the hour read is 9. |
| `JsonValue.IntOr` | aurora_esp32/backend_client.cpp:175 | `v \| d` with an `int` default is either `d` or the member's own integer. It is the member exactly when that is an integer in the 32-bit range, and `d` for a wider integer. |
| `JsonValue.StrOr` | aurora_esp32/backend_client.cpp:176 | `v \| ""` is either the default or the member's own string, and it is the member whenever that is a string. |
| `JsonValue.BoolOr` | aurora_esp32/backend_client.cpp:187 | `v \| true` is either the default or the member's own boolean, and it is the member whenever that is a boolean. |
| `JsonValue.ElementsOf` | aurora_esp32/backend_client.cpp:168 | `as<JsonArray>()` gives the member's own elements when it is an array, and no elements otherwise. |
| `Ints.ToUint8` | src/schedule_store.h:8-10 | Storing an `int` in a `uint8_t` field keeps it modulo 256 and keeps in-range values unchanged. |
| `Ints.SubUint32` | src/main.cpp:36 | Unsigned 32-bit subtraction: adding the result back to the subtrahend gives the minuend modulo 2^32; it equals the true difference, or the difference plus 2^32 when that is negative. |
| `ScheduleStore.ApplyConfig` | aurora_esp32/schedule_store.cpp:3-6 | After `applyConfig(v, cs)`, `version()` is `v` and `containers()` is `cs` (same length, same order). |
| `ScheduleStore.LastWriteWins` | aurora_esp32/schedule_store.cpp:3-6 | The result does not depend on the prior contents, so a lower version than the current one is accepted. |
| `ScheduleStore.ApplyIdempotent` | aurora_esp32/schedule_store.cpp:3-6 | Applying the same pair twice equals applying it once. |
| `ScheduleStore.Defaults` | src/schedule_store.h:6-31 | A fresh store has version 0 and no containers. A default entry is id -1, day/hour/minute 0, repeat true. A default container is slot -1, empty name, no entries. |
| `ScheduleStore.AccessorsDetermineStore` | src/schedule_store.h:26-27 | `version()` and `containers()` read exactly the stored fields: two stores agree iff both accessors agree. |
| `ConfigPayload.DecodeEntries` | aurora_esp32/backend_client.cpp:178-189 | One entry per element of the `schedules` array, in element order. |
| `ConfigPayload.DecodeContainers` | aurora_esp32/backend_client.cpp:168-192 | One container per element of the `containers` array, in element order. |
| `ConfigPayload.ParseConfigPayload` | aurora_esp32/backend_client.cpp:159-196 | A deserialization error returns false with the store untouched. Any parsed document returns true and replaces the store with its decoded version and containers: count, order and every element's decoding. |
| `ConfigPayload.ParseIgnoresPriorStore` | aurora_esp32/backend_client.cpp:194-195 | The store after a successful parse is the same whatever it held before: one wholesale replacement. |
| `ConfigPayload.NonObjectDecodesToDefaults` | src/backend_client.cpp:46-59 | An element that is not an object, or an empty object, decodes to the default entry and the default container. |
| `ConfigPayload.DecodeEntry` | aurora_esp32/backend_client.cpp:181-188 | Each of `id`, `day_of_week`, `hour` and `minute` is the member when it is a 32-bit integer, and else -1 for the id and 0 for the others. The three time fields keep its value modulo 256. `repeat` is the member when it is a boolean, and else true. |
| `ConfigPayload.DecodeContainer` | aurora_esp32/backend_client.cpp:173-189 | `slot_number` is the member when it is a 32-bit integer, and else -1. `pill_name` is the member when it is a string, and else "". There is one entry per element of `schedules`, in order. |
| `ConfigPayload.DecodeVersion` | aurora_esp32/backend_client.cpp:167 | The version is the member when it is a 32-bit integer, and else 0. So the 64-bit stored value always lies in the 32-bit range. |
| `ConfigPayload.MissingRepeatIsTrue` | src/backend_client.cpp:59 | Every entry whose `repeat` is missing or not a boolean decodes with repeat true, instead of failing. |
| `ConfigPayload.MissingFieldsExample` | src/backend_client.cpp:55-59 | `{id 1, hour 8}` decodes to id 1, day 0, 08:00, repeat true. |
| `ConfigPayload.TimeFieldsAreTruncatedToBytes` | src/schedule_store.h:8-10 | Time fields are not range-checked: hour 300 is stored as 44, day -1 as 255. |
| `ConfigPayload.WideVersionReadsAsZero` | src/backend_client.cpp:41 | Every document whose `schedule_version` is an integer outside the 32-bit `int` range reads as version 0. |
| `ConfigPayload.NonObjectDocumentEmptiesStore` | src/backend_client.cpp:41-66 | A parsed document that is not an object is accepted and leaves version 0 and no containers. |
| `ConfigPayload.EntriesRoundTrip` | src/backend_client.cpp:53-61 | Decoding the backend's encoding of a list of entries gives back the list. |
| `ConfigPayload.ContainersRoundTrip` | src/backend_client.cpp:46-63 | Decoding the backend's encoding of a list of containers gives back the list. |
| `ConfigPayload.ConfigRoundTrip` | src/backend_client.cpp:33-67 | Parsing the backend's document for (version, containers) succeeds and stores exactly that pair, every field and order preserved. |
| `ConfigPayload.AspirinExample` | aurora_esp32/backend_client.cpp:167-194 | Version 7 with one container {slot 0, "Aspirin", entry {id 1, day 0, 08:00, repeat}} is stored exactly so. |
| `EventPayload.EventBody` | aurora_esp32/backend_client.cpp:267-271 | The body always has `status` and `occurred_at`. It has `container_slot` or `schedule_id` iff that value is >= 0, carrying that value. It has no other keys. |
| `EventPayload.OptionalFieldsRoundTrip` | src/backend_client.cpp:114-118 | Reading the body back with default -1 gives each optional value when it is >= 0 and -1 otherwise; status and time come back unchanged. |
| `Pairing.NewClientIsValid` | aurora_esp32/backend_client.h:26-28 | A new client (not loaded, empty secret, not paired) satisfies the cache/persisted-value invariant. |
| `Pairing.LoadSecret` | aurora_esp32/backend_client.cpp:66-76 | Before the store is open nothing changes. Afterwards the cache is the persisted value ("" when absent) and the paired flag is set iff it is non-empty. |
| `Pairing.EnsurePrefs` | aurora_esp32/backend_client.cpp:32-37 | The first call opens the store and loads the secret, establishing the invariant. Later calls change nothing. |
| `Pairing.LoadsOnce` | aurora_esp32/backend_client.cpp:32-37 | A second `ensurePrefs` is a no-op and does not re-read the slot, even if it changed meanwhile. |
| `Pairing.SaveSecret` | aurora_esp32/backend_client.cpp:78-82 | After saving, the cache and the persisted slot both hold the new secret. |
| `Pairing.SavedSecretReloads` | aurora_esp32/backend_client.cpp:66-82 | A client started after a restart on the slot `saveSecret` wrote loads the same secret, and it counts as paired iff that secret is non-empty. |
| `Pairing.ReceivedSecret` | aurora_esp32/backend_client.cpp:147 | The received secret is "" or the response's own `device_secret` string, and it is that string whenever the member is a string. |
| `Pairing.PairingAccepted` | aurora_esp32/backend_client.cpp:138-148 | A pairing answer is accepted exactly when it is status 200 with a parsed document whose `device_secret` is a non-empty string. |
| `Pairing.PairRequest` | aurora_esp32/backend_client.cpp:116-124 | The pairing request is a POST of an empty body to the device's `api/devices/<serial>/pair/` URL, with no headers and so no secret. |
| `Pairing.PairDevice` | aurora_esp32/backend_client.cpp:103-157 | Already paired with a secret: true, no request. Otherwise one POST to the pair URL unless `begin` failed. It succeeds iff status 200 with a parsed document whose `device_secret` is a non-empty string; that secret is then cached and persisted and the flag set. Every failure (begin, 409, other status, JSON error, missing or empty secret) leaves client and slot unchanged. The invariant is preserved. |
| `Pairing.EnsurePaired` | aurora_esp32/backend_client.cpp:88-101 | With a cached or loaded secret: true and paired, no request. Without one: a pairing attempt on every call, succeeding exactly when pairing does. On success the cache and the slot hold exactly the secret the backend sent; on failure the client is as `ensurePrefs` left it. Success always leaves a non-empty secret. The slot changes only on a successful pairing. The invariant is preserved. |
| `Pairing.PersistedSecretIsNeverReplaced` | aurora_esp32/backend_client.cpp:88-94 | A device with a non-empty persisted secret succeeds without any request and never overwrites the slot. |
| `Pairing.ConflictIsNotSticky` | aurora_esp32/backend_client.cpp:96-100 | A 409, with or without a parsable body, returns false and leaves only the loaded state. The next `ensurePaired` sends the pairing request again. |
| `Pairing.PairedStaysPaired` | aurora_esp32/backend_client.cpp:88-94 | After a successful `ensurePaired`, later calls succeed with no request and no change. |
| `BackendClient.ConfigRequest` | aurora_esp32/backend_client.cpp:223-233 | The schedule request is a GET of the device's `api/devices/<serial>/config/` URL with no body. Its `X-Device-Secret` header is the given secret. |
| `BackendClient.EventRequest` | aurora_esp32/backend_client.cpp:256-276 | The event report is a POST of the given JSON body to the device's `api/devices/<serial>/events/` URL. It has `Content-Type: application/json` and the given secret in `X-Device-Secret`. |
| `BackendClient.FetchConfig` | aurora_esp32/backend_client.cpp:198-244 | Guards in order. Wi-Fi down: nothing changes and nothing is sent, even with a secret. Pairing failure: false, only the pairing request may have gone out. Once paired, the config GET carrying the cached secret is sent exactly when `begin` succeeds, and nothing more is sent when it fails. Non-200: false without parsing. On 200 the result is the parse result. Every failure leaves the schedule unchanged. Success means the last request was the config GET carrying the persisted secret. |
| `BackendClient.FreshPairingAuthenticatesFetch` | aurora_esp32/backend_client.cpp:208-233 | A device with no stored secret whose pairing is accepted sends the pair POST and then the config GET carrying exactly the secret the backend sent. That secret is persisted. |
| `BackendClient.SecretCheckIsUnreachable` | aurora_esp32/backend_client.cpp:214-218 | The "secret is empty" re-check after a successful `ensurePaired` can never fire. |
| `BackendClient.PairedFetchMakesOneRequest` | aurora_esp32/backend_client.cpp:226-233 | With a persisted secret, a fetch sends exactly one request: the config GET with that secret in `X-Device-Secret`. |
| `BackendClient.ServerErrorKeepsSchedule` | aurora_esp32/backend_client.cpp:239 | A 500 answer leaves the schedule as it was. |
| `BackendClient.PostEvent` | aurora_esp32/backend_client.cpp:246-283 | Requires a successful `ensurePaired`, else false with no event request. Once paired, a `begin` failure sends no event request. True iff the answer is 204. The request is the events POST with JSON content type, the secret and the event body. |
| `Session.PerformKeepsCredential` | aurora_esp32/backend_client.cpp:198-282 | One fetch or event report keeps the cache equal to the persisted value. It changes the slot only by writing a non-empty secret where none was. |
| `Session.RunKeepsCredential` | aurora_esp32/backend_client.cpp:88-157 | Over any sequence of fetches and reports with any outcomes, the invariant holds throughout and a non-empty persisted secret is never replaced. The slot is written at most once, with a non-empty secret. |
| `Session.PairedDeviceNeverPairs` | aurora_esp32/backend_client.cpp:88-94 | With a persisted secret, no fetch or report sends a pairing request. Every request then carries that secret. |
| `LegacyClient.ConfigRequest` | src/backend_client.cpp:73-81 | The static-secret firmware's schedule request is a GET of `dispensers/devices/<serial>/config/` with no body. It carries the compiled-in secret in `X-Device-Secret`. |
| `LegacyClient.EventRequest` | src/backend_client.cpp:105-123 | Its event report is a POST of the given JSON body to `dispensers/devices/<serial>/events/`. It has `Content-Type: application/json` and the compiled-in secret. |
| `LegacyClient.FetchConfig` | src/backend_client.cpp:69-98 | Sends the config GET unless `begin` fails. Non-200 is false with the store unchanged. On 200 the result and the store are the parse's. |
| `LegacyClient.PostEvent` | src/backend_client.cpp:100-132 | True iff the answer is 204. The body omits negative `container_slot` or `schedule_id`. |
| `LegacyClient.AlwaysTheCompiledSecret` | src/backend_client.cpp:81-112 | Every request this firmware sends carries the compile-time secret in `X-Device-Secret`. |
| `Poll.Due` | src/main.cpp:36 | The poll is due exactly when the time since the last attempt reaches the interval, counting across one wrap of the 32-bit clock. |
| `Poll.PollConfigIfNeeded` | src/main.cpp:34-48 | Elapsed time (unsigned, wrapping) below the interval: nothing changes. Otherwise `last_poll_ms` becomes `now` first. It stays so when Wi-Fi is down (no fetch) and when the fetch fails. The fetch runs iff the gate passes with Wi-Fi up, at most once, and only it changes the schedule. |
| `Poll.GateSurvivesWraparound` | src/main.cpp:35-36 | If k ms pass after the last attempt, the poll is due exactly when k reaches the interval, even when the 32-bit clock wraps in between. |
| `Poll.BootPollNeedsFullInterval` | src/main.cpp:62-67 | Since `last_poll_ms` starts at 0 (line 11), the boot-time poll fetches only if `millis()` has reached the interval (and Wi-Fi is up). |
| `Poll.OneAttemptPerInterval` | src/main.cpp:35-37 | After an attempt at t1, a call less than an interval later does nothing. |
| `Poll.WifiDownStillAdvancesTimestamp` | src/main.cpp:37-42 | Wi-Fi down after the gate: no fetch, but the timestamp has already advanced. |

## Left out

- Wi-Fi association, `setup`/`loop` plumbing, `delay` and busy-waiting (src/main.cpp:13-32, 62-77): these are I/O. Wi-Fi status is a boolean input; the boot poll is covered as one call of the gate.
- HTTP/TLS client construction, `beginHttp`, `setCACert`/`setInsecure` and timeouts: these are foreign library calls. Whether `begin` succeeds, and the response, are the input `Outcome`. Only the choice of TLS from the base URL is modelled (`Urls.IsHttpsBaseUrl`).
- JSON text: deserialization, serialization of the event body to text, `StaticJsonDocument` capacity limits (256/4096 bytes). A document that does not fit shows up as a deserialization error (`None`). JSON numbers with a fraction are not represented.
- Persistent storage durability, and a failure of `prefs_.begin`. The return value of `putString` is ignored by the code, so there is no write-failure path.
- C strings: a secret or pill name containing a NUL character would be cut short by `strlen`/`String(const char*)`. Strings are modelled as whole character sequences.
- Serial logging (`printHttpResult` and all prints, including the schedule dump after a successful poll in src/main.cpp:50-59).
- `deviceSecret()`: it only reads the cached field, which the model reads directly.
- The paired firmware's own main loop is not part of this model. The poll gate modelled is the static-secret firmware's, composed with that firmware's `fetchConfig`.
- The stepper, I2C and catch-up constants of the configuration headers: the modelled logic does not use them.
