/** The JSON body of a dispensing-event report. */
module EventPayload {
  import opened Wrappers
  import opened Ints
  import opened JsonValue

  /** `status` and `occurred_at` always, then `container_slot` and
      `schedule_id` each only when it is not negative (-1 means "none"). */
  function EventBody(status: string, occurredAt: string, containerSlot: int32, scheduleId: int32): (r: Json)
    ensures r.JObject?
    ensures Get(r, "status") == Some(JString(status))
    ensures Get(r, "occurred_at") == Some(JString(occurredAt))
    ensures Get(r, "container_slot").Some? <==> containerSlot >= 0
    ensures Get(r, "container_slot").Some? ==> Get(r, "container_slot").value == JInt(containerSlot)
    ensures Get(r, "schedule_id").Some? <==> scheduleId >= 0
    ensures Get(r, "schedule_id").Some? ==> Get(r, "schedule_id").value == JInt(scheduleId)
    ensures forall i :: 0 <= i < |r.members| ==>
              r.members[i].key in ["status", "occurred_at", "container_slot", "schedule_id"]
  {
    EventLookups(status, occurredAt, containerSlot, scheduleId);
    JObject(EventMembers(status, occurredAt, containerSlot, scheduleId))
  }

  /** The members in the order the body is built. */
  function EventMembers(status: string, occurredAt: string, containerSlot: int32, scheduleId: int32): seq<Member> {
    var slot := if containerSlot >= 0 then [Member("container_slot", JInt(containerSlot))] else [];
    var sched := if scheduleId >= 0 then [Member("schedule_id", JInt(scheduleId))] else [];
    [Member("status", JString(status)), Member("occurred_at", JString(occurredAt))] + slot + sched
  }

  /** What a lookup finds in an event body. */
  ghost predicate LooksUpAs(r: Json, status: string, occurredAt: string, containerSlot: int32, scheduleId: int32) {
    && Get(r, "status") == Some(JString(status))
    && Get(r, "occurred_at") == Some(JString(occurredAt))
    && (Get(r, "container_slot").Some? <==> containerSlot >= 0)
    && (Get(r, "container_slot").Some? ==> Get(r, "container_slot").value == JInt(containerSlot))
    && (Get(r, "schedule_id").Some? <==> scheduleId >= 0)
    && (Get(r, "schedule_id").Some? ==> Get(r, "schedule_id").value == JInt(scheduleId))
  }

  lemma EventLookups(status: string, occurredAt: string, containerSlot: int32, scheduleId: int32)
    ensures var r := JObject(EventMembers(status, occurredAt, containerSlot, scheduleId));
            && LooksUpAs(r, status, occurredAt, containerSlot, scheduleId)
            && forall i :: 0 <= i < |r.members| ==>
                 r.members[i].key in ["status", "occurred_at", "container_slot", "schedule_id"]
  {
    var st := Member("status", JString(status));
    var at := Member("occurred_at", JString(occurredAt));
    var sl := Member("container_slot", JInt(containerSlot));
    var sc := Member("schedule_id", JInt(scheduleId));
    var ms := EventMembers(status, occurredAt, containerSlot, scheduleId);
    if containerSlot >= 0 && scheduleId >= 0 {
      assert ms == [st, at, sl, sc];
      LookupsWithBoth(st, at, sl, sc);
    } else if containerSlot >= 0 {
      assert ms == [st, at, sl];
      LookupsWithOne(st, at, sl, "schedule_id");
    } else if scheduleId >= 0 {
      assert ms == [st, at, sc];
      LookupsWithOne(st, at, sc, "container_slot");
    } else {
      assert ms == [st, at];
      LookupsWithNone(st, at);
    }
  }

  lemma LookupsWithBoth(st: Member, at: Member, sl: Member, sc: Member)
    requires st.key == "status" && at.key == "occurred_at"
    requires sl.key == "container_slot" && sc.key == "schedule_id"
    ensures var ms := [st, at, sl, sc];
            && Find(ms, "status") == Some(st.value) && Find(ms, "occurred_at") == Some(at.value)
            && Find(ms, "container_slot") == Some(sl.value) && Find(ms, "schedule_id") == Some(sc.value)
  {
    var ms := [st, at, sl, sc];
    FindLast(ms, "status", 0);
    FindLast(ms, "occurred_at", 1);
    FindLast(ms, "container_slot", 2);
    FindLast(ms, "schedule_id", 3);
  }

  lemma LookupsWithOne(st: Member, at: Member, opt: Member, missing: string)
    requires st.key == "status" && at.key == "occurred_at"
    requires opt.key in ["container_slot", "schedule_id"] && missing in ["container_slot", "schedule_id"]
    requires opt.key != missing
    ensures var ms := [st, at, opt];
            && Find(ms, "status") == Some(st.value) && Find(ms, "occurred_at") == Some(at.value)
            && Find(ms, opt.key) == Some(opt.value) && Find(ms, missing).None?
  {
    var ms := [st, at, opt];
    FindLast(ms, "status", 0);
    FindLast(ms, "occurred_at", 1);
    FindLast(ms, opt.key, 2);
    FindSpec(ms, missing);
  }

  lemma LookupsWithNone(st: Member, at: Member)
    requires st.key == "status" && at.key == "occurred_at"
    ensures var ms := [st, at];
            && Find(ms, "status") == Some(st.value) && Find(ms, "occurred_at") == Some(at.value)
            && Find(ms, "container_slot").None? && Find(ms, "schedule_id").None?
  {
    var ms := [st, at];
    FindLast(ms, "status", 0);
    FindLast(ms, "occurred_at", 1);
    FindSpec(ms, "container_slot");
    FindSpec(ms, "schedule_id");
  }

  /** Reading an optional field back with the -1 default gives the value
      when it was sent and -1 when it was omitted: every negative argument
      arrives as the sentinel. */
  lemma OptionalFieldsRoundTrip(status: string, occurredAt: string, containerSlot: int32, scheduleId: int32)
    ensures var body := EventBody(status, occurredAt, containerSlot, scheduleId);
            && IntOr(Get(body, "container_slot"), -1) == (if containerSlot >= 0 then containerSlot else -1)
            && IntOr(Get(body, "schedule_id"), -1) == (if scheduleId >= 0 then scheduleId else -1)
            && StrOr(Get(body, "status"), "") == status
            && StrOr(Get(body, "occurred_at"), "") == occurredAt
  {
  }
}
