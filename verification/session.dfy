/** A run of the paired firmware's client over one power-on session: any
    sequence of schedule fetches and event reports, each with the outcomes
    the network gives it. The properties here are the credential guarantees
    that must hold however the calls and outcomes interleave. */
module Session {
  import opened Wrappers
  import opened Ints
  import opened Http
  import opened ScheduleStore
  import opened Pairing
  import opened BackendClient

  datatype Call =
    | Fetch(wifiUp: bool, pairOutcome: Outcome, configOutcome: Outcome)
    | Report(status: string, occurredAt: string, containerSlot: int32, scheduleId: int32,
             pairOutcome: Outcome, eventOutcome: Outcome)

  datatype State = State(client: Client, store: Store)

  /** The state after one call. */
  function Perform(cfg: Settings, s: State, call: Call): State {
    match call
    case Fetch(wifiUp, po, co) =>
      var r := FetchConfig(cfg, s.client, s.store, wifiUp, po, co);
      State(r.client, r.store)
    case Report(status, at, slot, id, po, eo) =>
      State(PostEvent(cfg, s.client, status, at, slot, id, po, eo).client, s.store)
  }

  /** The state after the calls, in order. */
  function Run(cfg: Settings, s: State, calls: seq<Call>): State
    decreases |calls|
  {
    if calls == [] then s else Run(cfg, Perform(cfg, s, calls[0]), calls[1..])
  }

  /** The secret the device holds persistently ("" when none). */
  function PersistedSecret(c: Client): string {
    c.stored.GetOr("")
  }

  /** One call keeps the cache consistent with the slot, and changes the
      slot only by writing a non-empty secret where there was none. */
  lemma PerformKeepsCredential(cfg: Settings, s: State, call: Call)
    requires Valid(s.client)
    ensures Valid(Perform(cfg, s, call).client)
    ensures var c' := Perform(cfg, s, call).client;
            c'.stored == s.client.stored
            || (PersistedSecret(s.client) == "" && PersistedSecret(c') != "")
  {
  }

  /** Over a whole session the cache stays consistent with the slot, and a
      persisted secret, once there, is never replaced: the slot is written
      at most once, and only with a non-empty secret. */
  lemma {:induction false} RunKeepsCredential(cfg: Settings, s: State, calls: seq<Call>)
    requires Valid(s.client)
    ensures Valid(Run(cfg, s, calls).client)
    ensures PersistedSecret(s.client) != "" ==> Run(cfg, s, calls).client.stored == s.client.stored
    ensures var c' := Run(cfg, s, calls).client;
            c'.stored == s.client.stored
            || (PersistedSecret(s.client) == "" && PersistedSecret(c') != "")
    decreases |calls|
  {
    if calls != [] {
      var s1 := Perform(cfg, s, calls[0]);
      PerformKeepsCredential(cfg, s, calls[0]);
      RunKeepsCredential(cfg, s1, calls[1..]);
    }
  }

  /** Once the device holds a persisted secret, no call of the session ever
      sends a pairing request, and every authenticated request carries
      that secret. */
  lemma PairedDeviceNeverPairs(cfg: Settings, s: State, call: Call)
    requires Valid(s.client) && PersistedSecret(s.client) != ""
    ensures call.Fetch? ==>
              var r := FetchConfig(cfg, s.client, s.store, call.wifiUp, call.pairOutcome, call.configOutcome);
              PairRequest(cfg) !in r.sent
              && forall q :: q in r.sent ==> q == ConfigRequest(cfg, PersistedSecret(s.client))
    ensures call.Report? ==>
              var r := PostEvent(cfg, s.client, call.status, call.occurredAt, call.containerSlot,
                                 call.scheduleId, call.pairOutcome, call.eventOutcome);
              PairRequest(cfg) !in r.sent
              && forall q :: q in r.sent ==> HeaderValue(q.headers, "X-Device-Secret") == Some(PersistedSecret(s.client))
  {
  }
}
