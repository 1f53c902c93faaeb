/** The in-memory schedule: a version tag and the per-container dosing
    entries, replaced together by one apply operation. */
module ScheduleStore {
  import opened Ints

  /** One dose time. `dayOfWeek` is 0 for Monday by the backend's contract;
      the three time fields are unsigned bytes with no further range check. */
  datatype ScheduleEntry = ScheduleEntry(id: int32, dayOfWeek: uint8, hour: uint8, minute: uint8, repeat: bool)

  /** A pill compartment; slot -1 is the "unset" sentinel. */
  datatype ContainerSchedules = ContainerSchedules(slotNumber: int32, pillName: string, schedules: seq<ScheduleEntry>)

  /** The value a default-constructed entry holds. */
  const DEFAULT_ENTRY: ScheduleEntry := ScheduleEntry(-1, 0, 0, 0, true)

  /** The value a default-constructed container holds. */
  const DEFAULT_CONTAINER: ContainerSchedules := ContainerSchedules(-1, "", [])

  datatype Store = Store(currentVersion: int64, currentContainers: seq<ContainerSchedules>) {

    /** The stored version. */
    function Version(): int64 {
      currentVersion
    }

    /** The stored containers, in the order they were applied. */
    function Containers(): seq<ContainerSchedules> {
      currentContainers
    }
  }

  /** A default-constructed store. */
  const EMPTY_STORE: Store := Store(0, [])

  /** Replace both fields at once: the new state does not depend on the old. */
  function ApplyConfig(s: Store, version: int64, containers: seq<ContainerSchedules>): (r: Store)
    ensures r.Version() == version
    ensures r.Containers() == containers
  {
    Store(version, containers)
  }

  /** A fresh store and freshly constructed records hold the declared defaults. */
  lemma Defaults()
    ensures EMPTY_STORE.Version() == 0 && EMPTY_STORE.Containers() == []
    ensures DEFAULT_ENTRY.id == -1 && DEFAULT_ENTRY.dayOfWeek == 0 && DEFAULT_ENTRY.hour == 0
            && DEFAULT_ENTRY.minute == 0 && DEFAULT_ENTRY.repeat
    ensures DEFAULT_CONTAINER.slotNumber == -1 && DEFAULT_CONTAINER.pillName == []
            && DEFAULT_CONTAINER.schedules == []
  {
  }

  /** Last write wins: the prior contents, and in particular the prior
      version, play no part, so an older version is accepted too. */
  lemma LastWriteWins(s1: Store, s2: Store, version: int64, containers: seq<ContainerSchedules>)
    ensures ApplyConfig(s1, version, containers) == ApplyConfig(s2, version, containers)
    ensures version < s1.Version() ==> ApplyConfig(s1, version, containers).Version() < s1.Version()
  {
  }

  /** Applying the same configuration twice is the same as applying it once. */
  lemma ApplyIdempotent(s: Store, version: int64, containers: seq<ContainerSchedules>)
    ensures ApplyConfig(ApplyConfig(s, version, containers), version, containers)
            == ApplyConfig(s, version, containers)
  {
  }

  /** The accessors observe exactly what the store holds: a store is
      determined by its version and containers. */
  lemma AccessorsDetermineStore(s1: Store, s2: Store)
    ensures s1 == s2 <==> s1.Version() == s2.Version() && s1.Containers() == s2.Containers()
  {
  }
}
