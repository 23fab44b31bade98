/**
  Stars, installed flags and the registry export (`app/js/utils/features.js`):
  the local flag maps kept by `Stars`/`Installed`, and the records that
  `JSONExporter` writes, with the user's notes, stars and installed flags
  folded into a clone of the registry.
*/
module Features {
  import opened Base
  import Helpers

  /** The legacy spellings of `best_in` that the export removes. */
  const LegacyBestKeys: set<string> := {"bestIn", "best-in", "best"}

  /** A map of `Stars` or `Installed`, as parsed from local storage. */
  class FlagMap {
    var entries: map<string, JsVal>

    constructor (stored: map<string, JsVal>)
      ensures entries == stored
    {
      entries := stored;
    }

    /** `toggle(toolId, value)`: nothing for a missing id (the result is
        `{}`); otherwise `map[toolId] = !!value`, saved and returned. */
    method Toggle(toolId: JsVal, value: JsVal) returns (result: map<string, JsVal>)
      modifies this
      ensures !Truthy(toolId) ==> result == map[] && entries == old(entries)
      ensures Truthy(toolId) ==> entries == old(entries)[ToStr(toolId) := Bool(Truthy(value))] && result == entries
    {
      if !Truthy(toolId) {
        result := map[];
        return;
      }
      var m := entries;
      m := m[ToStr(toolId) := Bool(Truthy(value))];
      entries := m;
      result := m;
    }
  }

  /** A toggle sets the flag of its id and keeps every other entry. */
  lemma ToggleKeepsOthers(m: map<string, JsVal>, id: string, value: JsVal, other: string)
    requires other != id
    ensures var t := m[id := Bool(Truthy(value))];
      t[id] == Bool(Truthy(value)) && (other in t <==> other in m) && (other in m ==> t[other] == m[other])
  {
  }

  /** The record's id as a key: `String(item.id)`. */
  function KeyOf(item: Record): string
  {
    ToStr(Get(item, "id"))
  }

  /** `item.notes = tool.notes || ''` when the in-memory tool exists. */
  function WithNotes(item: Record, toolsById: map<string, Record>): Record
  {
    if KeyOf(item) in toolsById then item["notes" := Or(Get(toolsById[KeyOf(item)], "notes"), Str(""))] else item
  }

  /** The local flag when the map has the id, else the registry's. */
  function LocalOr(flags: map<string, JsVal>, key: string, registry: bool): bool
  {
    if key in flags then Truthy(flags[key]) else registry
  }

  /** One record as `_updateRegistryRecords` leaves it. */
  function UpdatedRecord(item: Record, stars: map<string, JsVal>, installed: map<string, JsVal>,
                         toolsById: map<string, Record>): Record
  {
    if !Truthy(Get(item, "id")) then item
    else
      var key := KeyOf(item);
      var noted := WithNotes(item, toolsById);
      var starred := LocalOr(stars, key, Helpers.ReadBestInFlag(noted));
      var cleaned := (noted - LegacyBestKeys)["best_in" := Bool(starred)];
      cleaned["installed" := Bool(LocalOr(installed, key, Helpers.ReadInstalledFlag(cleaned)))]
  }

  /** `_updateRegistryRecords(registry, stars, installedMap, tm)`: every
      record with an id updated in place. */
  method UpdateRegistryRecords(registry: array<Record>, stars: map<string, JsVal>, installed: map<string, JsVal>,
                               toolsById: map<string, Record>)
    modifies registry
    ensures forall i :: 0 <= i < registry.Length ==>
              registry[i] == UpdatedRecord(old(registry[i]), stars, installed, toolsById)
  {
    for i := 0 to registry.Length
      invariant forall j :: 0 <= j < i ==> registry[j] == UpdatedRecord(old(registry[j]), stars, installed, toolsById)
      invariant forall j :: i <= j < registry.Length ==> registry[j] == old(registry[j])
    {
      var item := UpdateRecord(registry[i], stars, installed, toolsById);
      registry[i] := item;
    }
  }

  /** The body of the `_updateRegistryRecords` loop on one record. */
  method UpdateRecord(record: Record, stars: map<string, JsVal>, installed: map<string, JsVal>,
                      toolsById: map<string, Record>) returns (item: Record)
    ensures item == UpdatedRecord(record, stars, installed, toolsById)
  {
    item := record;
    var id := Get(item, "id");
    if !Truthy(id) {
      return;
    }
    var key := ToStr(id);
    if key in toolsById {
      item := item["notes" := Or(Get(toolsById[key], "notes"), Str(""))];
    }
    var starred := if key in stars then Truthy(stars[key]) else Helpers.ReadBestInFlag(item);
    item := item - LegacyBestKeys;
    item := item["best_in" := Bool(starred)];
    var inst := if key in installed then Truthy(installed[key]) else Helpers.ReadInstalledFlag(item);
    item := item["installed" := Bool(inst)];
  }

  /** Every record updated. */
  function UpdatedAll(records: seq<Record>, stars: map<string, JsVal>, installed: map<string, JsVal>,
                      toolsById: map<string, Record>): (r: seq<Record>)
    ensures |r| == |records|
    ensures forall i :: 0 <= i < |records| ==> r[i] == UpdatedRecord(records[i], stars, installed, toolsById)
  {
    seq(|records|, i requires 0 <= i < |records| => UpdatedRecord(records[i], stars, installed, toolsById))
  }

  /** `serialize()`: no output (the empty string) without a registry;
      otherwise the updated records of a clone. The method may not modify
      the in-memory registry. */
  method Serialize(registry: Option<array<Record>>, stars: map<string, JsVal>, installed: map<string, JsVal>,
                   toolsById: map<string, Record>) returns (out: Option<seq<Record>>)
    ensures registry.None? <==> out.None?
    ensures registry.Some? ==> out == Some(UpdatedAll(registry.value[..], stars, installed, toolsById))
  {
    if registry.None? {
      return None;
    }
    var original := registry.value;
    var clone := new Record[original.Length](i requires 0 <= i < original.Length reads original => original[i]);
    assert clone[..] == original[..];
    UpdateRegistryRecords(clone, stars, installed, toolsById);
    assert clone[..] == UpdatedAll(original[..], stars, installed, toolsById);
    out := Some(clone[..]);
  }

  /** A record without an id is left as it is. */
  lemma NoIdUntouched(item: Record, stars: map<string, JsVal>, installed: map<string, JsVal>,
                      toolsById: map<string, Record>)
    requires !Truthy(Get(item, "id"))
    ensures UpdatedRecord(item, stars, installed, toolsById) == item
  {
  }

  /** What the export writes into a record with an id: notes only when the
      tool is in memory, `best_in` from the local star or else the registry
      flag, no legacy spelling, and `installed` from the local map or else
      the registry. */
  lemma UpdatedRecordSpec(item: Record, stars: map<string, JsVal>, installed: map<string, JsVal>,
                          toolsById: map<string, Record>)
    requires Truthy(Get(item, "id"))
    ensures var r := UpdatedRecord(item, stars, installed, toolsById);
            var key := KeyOf(item);
      && Get(r, "notes") == (if key in toolsById then Or(Get(toolsById[key], "notes"), Str("")) else Get(item, "notes"))
      && Get(r, "best_in") == Bool(LocalOr(stars, key, Helpers.ReadBestInFlag(item)))
      && "bestIn" !in r && "best-in" !in r && "best" !in r
      && Get(r, "installed") == Bool(LocalOr(installed, key, Helpers.ReadInstalledFlag(item)))
  {
    var noted := WithNotes(item, toolsById);
    assert Helpers.BestInValues(noted) == Helpers.BestInValues(item);
    Helpers.ReadBestInFlagSpec(noted);
    Helpers.ReadBestInFlagSpec(item);
  }

  /** Every other property of the record is kept as it was. */
  lemma UpdatedRecordKeepsOthers(item: Record, stars: map<string, JsVal>, installed: map<string, JsVal>,
                                 toolsById: map<string, Record>, k: string)
    requires k !in LegacyBestKeys && k != "notes" && k != "best_in" && k != "installed"
    ensures var r := UpdatedRecord(item, stars, installed, toolsById);
      (k in r <==> k in item) && Get(r, k) == Get(item, k)
  {
  }

  /** Writing a property with the value it already has changes nothing. */
  lemma SetSame(m: Record, k: string, v: JsVal)
    requires k in m && m[k] == v
    ensures m[k := v] == m
  {
  }

  /** An exported record keeps its notes under a second export. */
  lemma NotesStable(r: Record, noted: Record, toolsById: map<string, Record>)
    requires KeyOf(r) == KeyOf(noted) && noted == WithNotes(noted, toolsById)
    requires "notes" in noted ==> "notes" in r && r["notes"] == noted["notes"]
    requires KeyOf(noted) in toolsById ==> "notes" in noted
    ensures WithNotes(r, toolsById) == r
  {
    if KeyOf(r) in toolsById {
      SetSame(r, "notes", noted["notes"]);
    }
  }

  /** An exported record keeps its notes under a second export. */
  lemma ExportedNotes(item: Record, stars: map<string, JsVal>, installed: map<string, JsVal>,
                      toolsById: map<string, Record>)
    requires Truthy(Get(item, "id"))
    ensures var r := UpdatedRecord(item, stars, installed, toolsById);
      KeyOf(r) == KeyOf(item) && WithNotes(r, toolsById) == r
  {
    var key := KeyOf(item);
    var noted := WithNotes(item, toolsById);
    var starred := LocalOr(stars, key, Helpers.ReadBestInFlag(noted));
    var cleaned := (noted - LegacyBestKeys)["best_in" := Bool(starred)];
    var r := cleaned["installed" := Bool(LocalOr(installed, key, Helpers.ReadInstalledFlag(cleaned)))];
    assert r == UpdatedRecord(item, stars, installed, toolsById);
    assert Get(r, "id") == Get(item, "id");
    assert noted == WithNotes(noted, toolsById) by {
      if key in toolsById {
        SetSame(noted, "notes", noted["notes"]);
      }
    }
    NotesStable(r, noted, toolsById);
  }

  /** An exported record already holds what a second export would write. */
  lemma ExportedFacts(item: Record, stars: map<string, JsVal>, installed: map<string, JsVal>,
                      toolsById: map<string, Record>)
    requires Truthy(Get(item, "id"))
    ensures var r := UpdatedRecord(item, stars, installed, toolsById);
      && Truthy(Get(r, "id")) && KeyOf(r) == KeyOf(item)
      && WithNotes(r, toolsById) == r
      && r - LegacyBestKeys == r
      && "best_in" in r && r["best_in"] == Bool(LocalOr(stars, KeyOf(item), Helpers.ReadBestInFlag(r)))
      && "installed" in r && r["installed"] == Bool(LocalOr(installed, KeyOf(item), Helpers.ReadInstalledFlag(r)))
  {
    var key := KeyOf(item);
    var noted := WithNotes(item, toolsById);
    var starred := LocalOr(stars, key, Helpers.ReadBestInFlag(noted));
    var cleaned := (noted - LegacyBestKeys)["best_in" := Bool(starred)];
    var inst := LocalOr(installed, key, Helpers.ReadInstalledFlag(cleaned));
    var r := cleaned["installed" := Bool(inst)];
    assert r == UpdatedRecord(item, stars, installed, toolsById);
    ExportedNotes(item, stars, installed, toolsById);
    assert Helpers.ReadBestInFlag(r) == starred by {
      assert Get(r, "best_in") == Bool(starred);
    }
    assert r - LegacyBestKeys == r;
  }

  /** Exporting an exported record again changes nothing. */
  lemma UpdatedRecordIdempotent(item: Record, stars: map<string, JsVal>, installed: map<string, JsVal>,
                                toolsById: map<string, Record>)
    ensures var r := UpdatedRecord(item, stars, installed, toolsById);
      UpdatedRecord(r, stars, installed, toolsById) == r
  {
    if Truthy(Get(item, "id")) {
      var r := UpdatedRecord(item, stars, installed, toolsById);
      ExportedFacts(item, stars, installed, toolsById);
      var b := Helpers.ReadBestInFlag(r);
      SetSame(r, "best_in", Bool(LocalOr(stars, KeyOf(r), b)));
      SetSame(r, "installed", Bool(LocalOr(installed, KeyOf(r), Helpers.ReadInstalledFlag(r))));
    }
  }

  /** A star toggled for a record's id is what the next export writes as its
      `best_in`. */
  lemma ToggledStarExported(item: Record, stars: map<string, JsVal>, installed: map<string, JsVal>,
                            toolsById: map<string, Record>, value: JsVal)
    requires Truthy(Get(item, "id"))
    ensures Get(UpdatedRecord(item, stars[KeyOf(item) := Bool(Truthy(value))], installed, toolsById), "best_in")
            == Bool(Truthy(value))
  {
  }
}
