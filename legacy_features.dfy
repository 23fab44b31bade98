/**
  The older stars and export module (`app/js/features.js`): the same record
  update without the installed flag, and a toggle without the id check.
*/
module LegacyFeatures {
  import opened Base
  import Helpers
  import Features

  /** The stars map of the older module. */
  class StarMap {
    var entries: map<string, JsVal>

    constructor (stored: map<string, JsVal>)
      ensures entries == stored
    {
      entries := stored;
    }

    /** `Stars.toggle(toolId, value)`: `map[toolId] = !!value`, for any id
        (a missing one is written under the key "undefined"). */
    method Toggle(toolId: JsVal, value: JsVal) returns (result: map<string, JsVal>)
      modifies this
      ensures entries == old(entries)[ToStr(toolId) := Bool(Truthy(value))] && result == entries
    {
      var m := entries;
      m := m[ToStr(toolId) := Bool(Truthy(value))];
      entries := m;
      result := m;
    }
  }

  /** One record as the older `_updateRegistryRecords` leaves it. */
  function UpdatedRecord(item: Record, stars: map<string, JsVal>, toolsById: map<string, Record>): Record
  {
    if !Truthy(Get(item, "id")) then item
    else
      var noted := Features.WithNotes(item, toolsById);
      var starred := Features.LocalOr(stars, Features.KeyOf(item), Helpers.ReadBestInFlag(noted));
      (noted - Features.LegacyBestKeys)["best_in" := Bool(starred)]
  }

  /** The older `_updateRegistryRecords(registry, stars, tm)`. */
  method UpdateRegistryRecords(registry: array<Record>, stars: map<string, JsVal>, toolsById: map<string, Record>)
    modifies registry
    ensures forall i :: 0 <= i < registry.Length ==> registry[i] == UpdatedRecord(old(registry[i]), stars, toolsById)
  {
    for i := 0 to registry.Length
      invariant forall j :: 0 <= j < i ==> registry[j] == UpdatedRecord(old(registry[j]), stars, toolsById)
      invariant forall j :: i <= j < registry.Length ==> registry[j] == old(registry[j])
    {
      var item := registry[i];
      var id := Get(item, "id");
      if !Truthy(id) {
        continue;
      }
      var key := ToStr(id);
      if key in toolsById {
        item := item["notes" := Or(Get(toolsById[key], "notes"), Str(""))];
      }
      var starred := if key in stars then Truthy(stars[key]) else Helpers.ReadBestInFlag(item);
      item := item - Features.LegacyBestKeys;
      item := item["best_in" := Bool(starred)];
      registry[i] := item;
    }
  }

  /** The older `serialize()`: nothing without a registry, otherwise the
      updated records of a clone; the registry itself is not modified. */
  method Serialize(registry: Option<array<Record>>, stars: map<string, JsVal>, toolsById: map<string, Record>)
    returns (out: Option<seq<Record>>)
    ensures registry.None? <==> out.None?
    ensures registry.Some? ==> |out.value| == registry.value.Length
    ensures registry.Some? ==>
              forall i :: 0 <= i < registry.value.Length ==> out.value[i] == UpdatedRecord(registry.value[i], stars, toolsById)
  {
    if registry.None? {
      return None;
    }
    var original := registry.value;
    var clone := new Record[original.Length](i requires 0 <= i < original.Length reads original => original[i]);
    UpdateRegistryRecords(clone, stars, toolsById);
    out := Some(clone[..]);
  }

  /** The older export writes the same record as the current one, except
      that it leaves `installed` as it was. */
  lemma AgreesWithCurrent(item: Record, stars: map<string, JsVal>, installed: map<string, JsVal>,
                          toolsById: map<string, Record>)
    ensures var older := UpdatedRecord(item, stars, toolsById);
            var current := Features.UpdatedRecord(item, stars, installed, toolsById);
      forall k :: k != "installed" ==> (k in older <==> k in current) && Get(older, k) == Get(current, k)
    ensures Get(UpdatedRecord(item, stars, toolsById), "installed") == Get(item, "installed")
  {
  }

  /** The older `best_in` is always a boolean: the local star, else the
      registry flag; no legacy spelling is left. */
  lemma BestInBoolean(item: Record, stars: map<string, JsVal>, toolsById: map<string, Record>)
    requires Truthy(Get(item, "id"))
    ensures var r := UpdatedRecord(item, stars, toolsById);
      && Get(r, "best_in") == Bool(Features.LocalOr(stars, Features.KeyOf(item), Helpers.ReadBestInFlag(item)))
      && "bestIn" !in r && "best-in" !in r && "best" !in r
  {
    var noted := Features.WithNotes(item, toolsById);
    assert Helpers.BestInValues(noted) == Helpers.BestInValues(item);
    Helpers.ReadBestInFlagSpec(noted);
    Helpers.ReadBestInFlagSpec(item);
  }
}
