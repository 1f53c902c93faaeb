/** Decoding of the backend's configuration document into schedule records.
    Every field follows ArduinoJson's `value | default` rule: the member when
    it is present with the default's type, otherwise the default; nothing
    inside a well-formed document makes the decode fail. */
module ConfigPayload {
  import opened Wrappers
  import opened Ints
  import opened JsonValue
  import opened ScheduleStore

  /** One entry from one element of a `schedules` array. An element that is
      not an object reads as an empty one, giving the defaults. Each field is
      the member's value when it has the default's type (an integer in the
      32-bit range, a boolean) and the default otherwise; the time fields
      keep the low byte of the integer. */
  function DecodeEntry(j: Json): (r: ScheduleEntry)
    ensures var v := Get(j, "id");
            r.id == if IsInt32Member(v) then v.value.n else -1
    ensures var v := Get(j, "day_of_week");
            r.dayOfWeek == if IsInt32Member(v) then ToUint8(v.value.n) else 0
    ensures var v := Get(j, "hour");
            r.hour == if IsInt32Member(v) then ToUint8(v.value.n) else 0
    ensures var v := Get(j, "minute");
            r.minute == if IsInt32Member(v) then ToUint8(v.value.n) else 0
    ensures var v := Get(j, "repeat");
            r.repeat == if v.Some? && v.value.JBool? then v.value.b else true
  {
    ScheduleEntry(
      IntOr(Get(j, "id"), -1),
      ToUint8(IntOr(Get(j, "day_of_week"), 0)),
      ToUint8(IntOr(Get(j, "hour"), 0)),
      ToUint8(IntOr(Get(j, "minute"), 0)),
      BoolOr(Get(j, "repeat"), true))
  }

  /** One entry per element, in element order. */
  function DecodeEntries(items: seq<Json>): (r: seq<ScheduleEntry>)
    ensures |r| == |items|
    ensures forall i :: 0 <= i < |items| ==> r[i] == DecodeEntry(items[i])
  {
    if items == [] then []
    else [DecodeEntry(items[0])] + DecodeEntries(items[1..])
  }

  /** One container from one element of the `containers` array: the slot
      and name follow the same rule as entry fields, and there is one entry
      per element of `schedules`, in order. */
  function DecodeContainer(j: Json): (r: ContainerSchedules)
    ensures var v := Get(j, "slot_number");
            r.slotNumber == if IsInt32Member(v) then v.value.n else -1
    ensures var v := Get(j, "pill_name");
            r.pillName == if v.Some? && v.value.JString? then v.value.s else ""
    ensures var items := ElementsOf(Get(j, "schedules"));
            && |r.schedules| == |items|
            && forall i :: 0 <= i < |items| ==> r.schedules[i] == DecodeEntry(items[i])
  {
    ContainerSchedules(
      IntOr(Get(j, "slot_number"), -1),
      StrOr(Get(j, "pill_name"), ""),
      DecodeEntries(ElementsOf(Get(j, "schedules"))))
  }

  /** One container per element, in element order. */
  function DecodeContainers(items: seq<Json>): (r: seq<ContainerSchedules>)
    ensures |r| == |items|
    ensures forall i :: 0 <= i < |items| ==> r[i] == DecodeContainer(items[i])
  {
    if items == [] then []
    else [DecodeContainer(items[0])] + DecodeContainers(items[1..])
  }

  /** The schedule version. The default is an `int`, so a value outside the
      32-bit range reads as 0 even though the store keeps 64 bits. */
  function DecodeVersion(doc: Json): (r: int64)
    ensures IsInt32(r)
    ensures var v := Get(doc, "schedule_version");
            r == if IsInt32Member(v) then v.value.n else 0
  {
    IntOr(Get(doc, "schedule_version"), 0)
  }

  datatype ParseResult = ParseResult(ok: bool, store: Store)

  /** A document that failed to deserialize leaves the store as it was;
      any other document replaces the store's contents exactly once. */
  function ParseConfigPayload(payload: Option<Json>, store: Store): (r: ParseResult)
    ensures payload.None? ==> !r.ok && r.store == store
    ensures payload.Some? ==> r.ok
    ensures payload.Some? ==>
              var items := ElementsOf(Get(payload.value, "containers"));
              && r.store.Version() == DecodeVersion(payload.value)
              && |r.store.Containers()| == |items|
              && forall i :: 0 <= i < |items| ==> r.store.Containers()[i] == DecodeContainer(items[i])
  {
    match payload
    case None => ParseResult(false, store)
    case Some(doc) =>
      ParseResult(true, ApplyConfig(store, DecodeVersion(doc), DecodeContainers(ElementsOf(Get(doc, "containers")))))
  }

  /** Decoding never looks at the store: the outcome of a parse is the same
      whatever schedule was held before. */
  lemma ParseIgnoresPriorStore(payload: Option<Json>, s1: Store, s2: Store)
    requires payload.Some?
    ensures ParseConfigPayload(payload, s1) == ParseConfigPayload(payload, s2)
  {
  }

  /** A value that is not an object (including the null an absent or
      mistyped array element converts to) decodes to the default records. */
  lemma NonObjectDecodesToDefaults(j: Json)
    requires !j.JObject? || j.members == []
    ensures DecodeEntry(j) == DEFAULT_ENTRY
    ensures DecodeContainer(j) == DEFAULT_CONTAINER
  {
  }

  /** A `repeat` member that is missing, or is not a boolean, does not fail
      the parse: the entry repeats. */
  lemma MissingRepeatIsTrue(j: Json)
    requires Get(j, "repeat").None? || !Get(j, "repeat").value.JBool?
    ensures DecodeEntry(j).repeat
  {
  }

  /** An entry with only an id and an hour: the other fields take their
      defaults. */
  lemma MissingFieldsExample()
    ensures DecodeEntry(JObject([Member("id", JInt(1)), Member("hour", JInt(8))]))
            == ScheduleEntry(1, 0, 8, 0, true)
  {
    var j := JObject([Member("id", JInt(1)), Member("hour", JInt(8))]);
    assert Get(j, "id") == Some(JInt(1)) by { FindLast(j.members, "id", 0); }
    assert Get(j, "hour") == Some(JInt(8)) by { FindLast(j.members, "hour", 1); }
    FindSpec(j.members, "day_of_week");
    FindSpec(j.members, "minute");
    FindSpec(j.members, "repeat");
  }

  /** The time fields are not range-checked: the integer is reduced to a
      byte, so hour 300 becomes 44 and day -1 becomes 255. */
  lemma TimeFieldsAreTruncatedToBytes()
    ensures DecodeEntry(JObject([Member("hour", JInt(300))])).hour == 44
    ensures DecodeEntry(JObject([Member("day_of_week", JInt(-1))])).dayOfWeek == 255
  {
    var h := JObject([Member("hour", JInt(300))]);
    assert Get(h, "hour") == Some(JInt(300)) by { FindLast(h.members, "hour", 0); }
    var d := JObject([Member("day_of_week", JInt(-1))]);
    assert Get(d, "day_of_week") == Some(JInt(-1)) by { FindLast(d.members, "day_of_week", 0); }
  }

  /** A schedule version beyond the 32-bit range reads as the default 0. */
  lemma WideVersionReadsAsZero(doc: Json, n: int)
    requires Get(doc, "schedule_version") == Some(JInt(n)) && !IsInt32(n)
    ensures DecodeVersion(doc) == 0
  {
  }

  /** A document that deserializes but is not an object (say `[]` or
      `null`) is accepted and empties the schedule. */
  lemma NonObjectDocumentEmptiesStore(doc: Json, store: Store)
    requires !doc.JObject?
    ensures ParseConfigPayload(Some(doc), store) == ParseResult(true, EMPTY_STORE)
  {
  }

  // ---------------------------------------------------------------------
  // The document the backend sends for a given schedule, and the round trip.

  function EncodeEntry(e: ScheduleEntry): Json {
    JObject([
      Member("id", JInt(e.id)),
      Member("day_of_week", JInt(e.dayOfWeek)),
      Member("hour", JInt(e.hour)),
      Member("minute", JInt(e.minute)),
      Member("repeat", JBool(e.repeat))])
  }

  function EncodeEntries(es: seq<ScheduleEntry>): (r: seq<Json>)
    ensures |r| == |es|
    ensures forall i :: 0 <= i < |es| ==> r[i] == EncodeEntry(es[i])
  {
    if es == [] then [] else [EncodeEntry(es[0])] + EncodeEntries(es[1..])
  }

  function EncodeContainer(c: ContainerSchedules): Json {
    JObject([
      Member("slot_number", JInt(c.slotNumber)),
      Member("pill_name", JString(c.pillName)),
      Member("schedules", JArray(EncodeEntries(c.schedules)))])
  }

  function EncodeContainers(cs: seq<ContainerSchedules>): (r: seq<Json>)
    ensures |r| == |cs|
    ensures forall i :: 0 <= i < |cs| ==> r[i] == EncodeContainer(cs[i])
  {
    if cs == [] then [] else [EncodeContainer(cs[0])] + EncodeContainers(cs[1..])
  }

  function EncodeConfig(version: int32, cs: seq<ContainerSchedules>): Json {
    JObject([
      Member("schedule_version", JInt(version)),
      Member("containers", JArray(EncodeContainers(cs)))])
  }

  /** The members of an encoded entry, as lookups see them. */
  lemma EntryLookups(e: ScheduleEntry)
    ensures var j := EncodeEntry(e);
            && Get(j, "id") == Some(JInt(e.id))
            && Get(j, "day_of_week") == Some(JInt(e.dayOfWeek))
            && Get(j, "hour") == Some(JInt(e.hour))
            && Get(j, "minute") == Some(JInt(e.minute))
            && Get(j, "repeat") == Some(JBool(e.repeat))
  {
    var j := EncodeEntry(e);
    assert Get(j, "id") == Some(JInt(e.id)) by { FindLast(j.members, "id", 0); }
    assert Get(j, "day_of_week") == Some(JInt(e.dayOfWeek)) by { FindLast(j.members, "day_of_week", 1); }
    assert Get(j, "hour") == Some(JInt(e.hour)) by { FindLast(j.members, "hour", 2); }
    assert Get(j, "minute") == Some(JInt(e.minute)) by { FindLast(j.members, "minute", 3); }
    assert Get(j, "repeat") == Some(JBool(e.repeat)) by { FindLast(j.members, "repeat", 4); }
  }

  lemma EntryRoundTrip(e: ScheduleEntry)
    ensures DecodeEntry(EncodeEntry(e)) == e
  {
    EntryLookups(e);
  }

  lemma {:induction false} EntriesRoundTrip(es: seq<ScheduleEntry>)
    ensures DecodeEntries(EncodeEntries(es)) == es
  {
    if es != [] {
      EntryRoundTrip(es[0]);
      EntriesRoundTrip(es[1..]);
      assert EncodeEntries(es) == [EncodeEntry(es[0])] + EncodeEntries(es[1..]);
      assert EncodeEntries(es)[1..] == EncodeEntries(es[1..]);
    }
  }

  lemma ContainerRoundTrip(c: ContainerSchedules)
    ensures DecodeContainer(EncodeContainer(c)) == c
  {
    var j := EncodeContainer(c);
    assert Get(j, "slot_number") == Some(JInt(c.slotNumber)) by { FindLast(j.members, "slot_number", 0); }
    assert Get(j, "pill_name") == Some(JString(c.pillName)) by { FindLast(j.members, "pill_name", 1); }
    assert Get(j, "schedules") == Some(JArray(EncodeEntries(c.schedules))) by { FindLast(j.members, "schedules", 2); }
    EntriesRoundTrip(c.schedules);
  }

  lemma {:induction false} ContainersRoundTrip(cs: seq<ContainerSchedules>)
    ensures DecodeContainers(EncodeContainers(cs)) == cs
  {
    if cs != [] {
      ContainerRoundTrip(cs[0]);
      ContainersRoundTrip(cs[1..]);
      assert EncodeContainers(cs)[1..] == EncodeContainers(cs[1..]);
    }
  }

  /** Version 7 with one container in slot 0 holding "Aspirin" and one
      Monday 08:00 repeating entry with id 1 is stored exactly so. */
  lemma AspirinExample(store: Store)
    ensures var entry := ScheduleEntry(1, 0, 8, 0, true);
            var c := ContainerSchedules(0, "Aspirin", [entry]);
            var r := ParseConfigPayload(Some(EncodeConfig(7, [c])), store);
            r.ok && r.store.Version() == 7 && r.store.Containers() == [c]
  {
    ConfigRoundTrip(7, [ContainerSchedules(0, "Aspirin", [ScheduleEntry(1, 0, 8, 0, true)])], store);
  }

  /** Every schedule survives the trip through its backend document
      unchanged: version, containers, entries, order and every field. */
  lemma ConfigRoundTrip(version: int32, cs: seq<ContainerSchedules>, store: Store)
    ensures ParseConfigPayload(Some(EncodeConfig(version, cs)), store)
            == ParseResult(true, Store(version, cs))
  {
    var j := EncodeConfig(version, cs);
    assert Get(j, "schedule_version") == Some(JInt(version)) by { FindLast(j.members, "schedule_version", 0); }
    assert Get(j, "containers") == Some(JArray(EncodeContainers(cs))) by { FindLast(j.members, "containers", 1); }
    ContainersRoundTrip(cs);
  }
}
