/** The periodic schedule poll of the static-secret firmware's main loop:
    a fixed-interval gate on the 32-bit millisecond clock, then a Wi-Fi
    check, then at most one fetch. */
module Poll {
  import opened Ints
  import opened Http
  import opened ScheduleStore
  import LegacyClient

  /** The time of the last attempt and the schedule the loop owns. */
  datatype Poller = Poller(lastPollMs: uint32, store: Store)

  /** The state at boot: no attempt yet recorded, an empty schedule. */
  const BOOT: Poller := Poller(0, EMPTY_STORE)

  /** The gate: at least `interval` milliseconds have elapsed since the last
      attempt, the difference taken in wrapping 32-bit arithmetic. */
  predicate Due(now: uint32, last: uint32, interval: uint32)
    // The elapsed time counts across at most one wrap of the clock.
    ensures Due(now, last, interval) <==>
              (if last <= now then now - last else now + TWO_POW_32 - last) >= interval
  {
    SubUint32(now, last) >= interval
  }

  datatype PollStep = PollStep(poller: Poller, fetched: bool, sent: seq<Request>)

  /** One call of the poll routine at clock value `now`. */
  function PollConfigIfNeeded(cfg: LegacyClient.Settings, interval: uint32, now: uint32, p: Poller,
                              wifiUp: bool, outcome: Outcome): (r: PollStep)
    // Not yet due: nothing at all changes.
    ensures !Due(now, p.lastPollMs, interval) ==> r == PollStep(p, false, [])
    // Due: the timestamp advances before anything else is checked, and
    // stays advanced whether or not the fetch happens or succeeds.
    ensures Due(now, p.lastPollMs, interval) ==> r.poller.lastPollMs == now
    // The fetch is made exactly when the gate is passed with Wi-Fi up, at
    // most once, and its effect on the schedule is the call's only effect.
    ensures r.fetched <==> Due(now, p.lastPollMs, interval) && wifiUp
    ensures r.fetched ==>
              var f := LegacyClient.FetchConfig(cfg, p.store, outcome);
              r.poller.store == f.store && r.sent == f.sent
    ensures !r.fetched ==> r.poller.store == p.store && r.sent == []
    ensures |r.sent| <= 1
  {
    if !Due(now, p.lastPollMs, interval) then PollStep(p, false, [])
    else
      var p1 := p.(lastPollMs := now);
      if !wifiUp then PollStep(p1, false, [])
      else
        var f := LegacyClient.FetchConfig(cfg, p1.store, outcome);
        PollStep(p1.(store := f.store), true, f.sent)
  }

  /** The gate measures true elapsed time across a wrap of the clock: if
      `k` milliseconds pass after the last attempt (k < 2^32), the clock
      reads `(last + k) mod 2^32` and the poll is due exactly when
      `k >= interval`. */
  lemma GateSurvivesWraparound(last: uint32, k: uint32, interval: uint32)
    ensures Due((last + k) % TWO_POW_32, last, interval) <==> k >= interval
  {
  }

  /** The boot-time poll runs only once the clock has reached the interval,
      because the last attempt starts out at 0. */
  lemma BootPollNeedsFullInterval(cfg: LegacyClient.Settings, interval: uint32, now: uint32,
                                  wifiUp: bool, outcome: Outcome)
    ensures PollConfigIfNeeded(cfg, interval, now, BOOT, wifiUp, outcome).fetched
            <==> now >= interval && wifiUp
  {
  }

  /** After an attempt at `t1`, a call at `t2` less than an interval later
      (in wrapping time) does nothing: at most one fetch per interval. */
  lemma OneAttemptPerInterval(cfg: LegacyClient.Settings, interval: uint32, t1: uint32, t2: uint32,
                              p: Poller, w1: bool, w2: bool, o1: Outcome, o2: Outcome)
    requires Due(t1, p.lastPollMs, interval)
    requires SubUint32(t2, t1) < interval
    ensures var p1 := PollConfigIfNeeded(cfg, interval, t1, p, w1, o1).poller;
            PollConfigIfNeeded(cfg, interval, t2, p1, w2, o2) == PollStep(p1, false, [])
  {
  }

  /** Wi-Fi down after the gate: no fetch, yet the attempt is recorded. */
  lemma WifiDownStillAdvancesTimestamp(cfg: LegacyClient.Settings, interval: uint32, now: uint32,
                                       p: Poller, outcome: Outcome)
    requires Due(now, p.lastPollMs, interval)
    ensures PollConfigIfNeeded(cfg, interval, now, p, false, outcome)
            == PollStep(p.(lastPollMs := now), false, [])
  {
  }
}
