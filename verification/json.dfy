/** A JSON document as ArduinoJson holds it after `deserializeJson`, and the
    lookups the client performs on it. Text parsing itself is not modelled:
    a payload reaches the client as `Option<Json>`, `None` standing for a
    deserialization error. */
module JsonValue {
  import opened Wrappers
  import opened Ints

  /** Objects keep their members in document order. Numbers are integers
      only; a JSON number with a fraction is not represented. */
  datatype Json =
    | JNull
    | JBool(b: bool)
    | JInt(n: int)
    | JString(s: string)
    | JArray(items: seq<Json>)
    | JObject(members: seq<Member>)

  datatype Member = Member(key: string, value: Json)

  /** The value a lookup of `key` finds among the members `ms`. The
      deserializer keeps one member per key: a key that occurs again
      overwrites the value already stored, so the value found is the one
      that came last in the document. */
  function Find(ms: seq<Member>, key: string): Option<Json> {
    if ms == [] then None
    else if ms[|ms| - 1].key == key then Some(ms[|ms| - 1].value)
    else Find(ms[..|ms| - 1], key)
  }

  /** A lookup finds nothing exactly when no member has the key, and
      otherwise the value of the last member that has it. */
  lemma {:induction false} FindSpec(ms: seq<Member>, key: string)
    ensures Find(ms, key).None? <==> forall i :: 0 <= i < |ms| ==> ms[i].key != key
    ensures Find(ms, key).Some? ==>
              exists i :: 0 <= i < |ms| && ms[i].key == key && ms[i].value == Find(ms, key).value
                          && forall j :: i < j < |ms| ==> ms[j].key != key
  {
    if ms != [] && ms[|ms| - 1].key != key {
      var init := ms[..|ms| - 1];
      FindSpec(init, key);
      assert forall i :: 0 <= i < |init| ==> ms[i] == init[i];
      if Find(ms, key).Some? {
        var i :| 0 <= i < |init| && init[i].key == key && init[i].value == Find(ms, key).value
                 && forall j :: i < j < |init| ==> init[j].key != key;
        assert ms[i].key == key;
      }
    }
  }

  /** The member at index `i` is what a lookup finds when no later member
      has the same key. */
  lemma {:induction false} FindLast(ms: seq<Member>, key: string, i: nat)
    requires i < |ms| && ms[i].key == key
    requires forall j :: i < j < |ms| ==> ms[j].key != key
    ensures Find(ms, key) == Some(ms[i].value)
  {
    if i < |ms| - 1 {
      var init := ms[..|ms| - 1];
      assert init[i] == ms[i];
      FindLast(init, key, i);
    }
  }

  /** A key given twice reads as its second value. */
  lemma DuplicateKeyReadsLast()
    ensures Get(JObject([Member("hour", JInt(8)), Member("hour", JInt(9))]), "hour") == Some(JInt(9))
  {
  }

  /** `v[key]`: the member value of an object; every other value (including
      the null object an absent or mistyped element converts to) yields nothing. */
  function Get(v: Json, key: string): Option<Json> {
    if v.JObject? then Find(v.members, key) else None
  }

  /** `v.is<int>()`: an integer member that fits in 32 bits. */
  predicate IsInt32Member(v: Option<Json>) {
    v.Some? && v.value.JInt? && IsInt32(v.value.n)
  }

  /** `v | d` with an `int` default: the value when it is an integer that
      fits in `int`, else `d`. */
  function IntOr(v: Option<Json>, d: int32): (r: int32)
    // The result is the default or the member's own value; a member that
    // fits is always taken, and a wider integer reads as the default.
    ensures r == d || v == Some(JInt(r))
    ensures IsInt32Member(v) ==> r == v.value.n
    ensures v.Some? && v.value.JInt? && !IsInt32(v.value.n) ==> r == d
  {
    if IsInt32Member(v) then v.value.n else d
  }

  /** `v | d` with a `const char*` default: the value when it is a string, else `d`. */
  function StrOr(v: Option<Json>, d: string): (r: string)
    ensures r == d || v == Some(JString(r))
    ensures v.Some? && v.value.JString? ==> r == v.value.s
  {
    if v.Some? && v.value.JString? then v.value.s else d
  }

  /** `v | d` with a `bool` default: the value when it is a boolean, else `d`. */
  function BoolOr(v: Option<Json>, d: bool): (r: bool)
    ensures r == d || v == Some(JBool(r))
    ensures v.Some? && v.value.JBool? ==> r == v.value.b
  {
    if v.Some? && v.value.JBool? then v.value.b else d
  }

  /** `v.as<JsonArray>()` iterated: the elements of an array; anything else
      converts to the null array, which has none. */
  function ElementsOf(v: Option<Json>): (r: seq<Json>)
    ensures r == [] || v == Some(JArray(r))
    ensures v.Some? && v.value.JArray? ==> r == v.value.items
  {
    if v.Some? && v.value.JArray? then v.value.items else []
  }
}
