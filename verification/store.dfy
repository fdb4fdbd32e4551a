/** The configuration file as the launcher reads and writes it: a JSON array
    of records. `_load_config_from_file` filters and completes the parsed
    records; `_prepare_data_for_saving` projects the entries back to
    records. */
module Store {
  import opened Wrappers
  import opened Text
  import opened Icons
  import opened Entries

  /** One element of the parsed JSON array: an object (whose values are
      strings), a string, or any other JSON value. */
  datatype Json = JObject(fields: map<string, string>) | JString(s: string) | JOther

  /** What opening and parsing the file gives: the array, or the kind of
      failure the loader reports before touching the entries. */
  datatype ReadOutcome = Parsed(items: seq<Json>) | FileNotFound | InvalidJson | ReadFailed

  /** A write that went through: the records now stored at `path`. */
  datatype FileWrite = FileWrite(path: string, records: seq<Json>)

  /** `item.get(key)` */
  function Lookup(fields: map<string, string>, key: string): Option<string> {
    if key in fields then Some(fields[key]) else None
  }

  // ---------------------------------------------------------------------------
  // Loading
  // ---------------------------------------------------------------------------

  /** The loader keeps an item when it is a mapping holding `program_path`. */
  predicate Accepted(item: Json) {
    item.JObject? && "program_path" in item.fields
  }

  /** The entry built from an accepted item: `name` kept as stored (even when
      empty) or else the program's file stem, `program_path` as stored,
      `icon_path` as stored or else `""`. Its handle is the resolution of
      the icon path it ends up with. */
  function LoadEntry(item: Json, store: IconStore): (b: Button)
    requires Accepted(item)
    ensures "name" in item.fields ==> b.name == item.fields["name"]
    ensures "name" !in item.fields ==> b.name == Stem(item.fields["program_path"])
    ensures b.programPath == item.fields["program_path"]
    ensures "icon_path" in item.fields ==> b.iconPath == item.fields["icon_path"]
    ensures "icon_path" !in item.fields ==> b.iconPath == "" && b.icon.None?
    ensures b.icon == ResolveIcon(Some(b.iconPath), store) && IconNeedsPath(b)
  {
    var f := item.fields;
    Button(if "name" in f then f["name"] else Stem(f["program_path"]),
           f["program_path"],
           if "icon_path" in f then f["icon_path"] else "",
           ResolveIcon(Lookup(f, "icon_path"), store))
  }

  /** The list the loader builds from the parsed array, one item at a time. */
  function Loaded(items: seq<Json>, store: IconStore): (r: seq<Button>)
    ensures |r| <= |items|
    ensures forall j :: 0 <= j < |r| ==> IconNeedsPath(r[j])
  {
    if items == [] then []
    else
      var last := items[|items| - 1];
      Loaded(items[..|items| - 1], store) + (if Accepted(last) then [LoadEntry(last, store)] else [])
  }

  /** The loader's loop over the parsed array: it builds the new list apart
      from the current one and counts one warning per skipped item. */
  method BuildEntries(items: seq<Json>, store: IconStore) returns (entries: seq<Button>, warnings: nat)
    ensures entries == Loaded(items, store)
    ensures warnings == |items| - |entries|
  {
    entries, warnings := [], 0;
    for i := 0 to |items|
      invariant entries == Loaded(items[..i], store)
      invariant warnings == i - |entries|
    {
      assert items[..i + 1][..i] == items[..i];
      var item := items[i];
      if !Accepted(item) {
        warnings := warnings + 1;
        continue;
      }
      var icon := ResolveIcon(Lookup(item.fields, "icon_path"), store);
      entries := entries + [Button(if "name" in item.fields then item.fields["name"] else Stem(item.fields["program_path"]),
                                   item.fields["program_path"],
                                   if "icon_path" in item.fields then item.fields["icon_path"] else "",
                                   icon)];
    }
    assert items[..|items|] == items;
  }

  /** The accepted items of the parsed array, in their order. */
  function Kept(items: seq<Json>): (r: seq<Json>)
    ensures |r| <= |items|
    ensures forall j :: 0 <= j < |r| ==> Accepted(r[j])
  {
    if items == [] then []
    else
      var last := items[|items| - 1];
      Kept(items[..|items| - 1]) + (if Accepted(last) then [last] else [])
  }

  /** The loaded list is the entry of each accepted item, in order. */
  lemma {:induction false} LoadedMapsKept(items: seq<Json>, store: IconStore)
    ensures |Loaded(items, store)| == |Kept(items)|
    ensures forall j :: 0 <= j < |Kept(items)| ==> Loaded(items, store)[j] == LoadEntry(Kept(items)[j], store)
  {
    if items != [] {
      var n := |items| - 1;
      LoadedMapsKept(items[..n], store);
    }
  }

  /** The positions of the accepted items in the parsed array. */
  function AcceptedIndices(items: seq<Json>): (r: seq<nat>)
    ensures |r| <= |items|
    ensures forall j :: 0 <= j < |r| ==> r[j] < |items|
  {
    if items == [] then []
    else
      var n := |items| - 1;
      AcceptedIndices(items[..n]) + (if Accepted(items[n]) then [n] else [])
  }

  /** The accepted items are the items at those positions. */
  lemma {:induction false} KeptAtIndices(items: seq<Json>)
    ensures |AcceptedIndices(items)| == |Kept(items)|
    ensures forall j :: 0 <= j < |Kept(items)| ==> Kept(items)[j] == items[AcceptedIndices(items)[j]]
  {
    if items != [] {
      var n := |items| - 1;
      var front := items[..n];
      KeptAtIndices(front);
      forall j | 0 <= j < |Kept(front)| ensures Kept(items)[j] == items[AcceptedIndices(items)[j]] {
        assert items[AcceptedIndices(front)[j]] == front[AcceptedIndices(front)[j]];
      }
    }
  }

  /** The positions increase, so the order of the array is kept. */
  lemma {:induction false} AcceptedIndicesIncrease(items: seq<Json>)
    ensures forall j, k :: 0 <= j < k < |AcceptedIndices(items)| ==> AcceptedIndices(items)[j] < AcceptedIndices(items)[k]
  {
    if items != [] {
      var n := |items| - 1;
      AcceptedIndicesIncrease(items[..n]);
    }
  }

  /** No accepted item is missed. */
  lemma {:induction false} AcceptedIndicesCover(items: seq<Json>)
    ensures forall i :: 0 <= i < |items| && Accepted(items[i]) ==> i in AcceptedIndices(items)
  {
    if items != [] {
      var n := |items| - 1;
      var front := items[..n];
      AcceptedIndicesCover(front);
      forall i | 0 <= i < n && Accepted(items[i]) ensures i in AcceptedIndices(items) {
        assert front[i] == items[i];
      }
    }
  }

  /** The loader keeps exactly the accepted items, in their original order:
      entry `j` comes from item `idx[j]`, the indices increase, and every
      accepted item has its entry. The other `|items| - |idx|` items are the
      skipped ones. */
  lemma LoadedSelects(items: seq<Json>, store: IconStore) returns (idx: seq<nat>)
    ensures |idx| == |Loaded(items, store)|
    ensures forall j :: 0 <= j < |idx| ==>
      idx[j] < |items| && Accepted(items[idx[j]]) && Loaded(items, store)[j] == LoadEntry(items[idx[j]], store)
    ensures forall j, k :: 0 <= j < k < |idx| ==> idx[j] < idx[k]
    ensures forall i :: 0 <= i < |items| && Accepted(items[i]) ==> i in idx
  {
    LoadedMapsKept(items, store);
    KeptAtIndices(items);
    AcceptedIndicesIncrease(items);
    AcceptedIndicesCover(items);
    idx := AcceptedIndices(items);
  }

  // ---------------------------------------------------------------------------
  // Saving
  // ---------------------------------------------------------------------------

  /** The record written for one entry. */
  function SaveRecord(b: Button): Json {
    JObject(map["name" := b.name, "program_path" := b.programPath, "icon_path" := b.iconPath])
  }

  /** `_prepare_data_for_saving`: one record per entry, in the same order,
      holding exactly `name`, `program_path` and `icon_path`; the icon
      handle is never written. */
  function PrepareForSaving(bs: seq<Button>): (r: seq<Json>)
    ensures |r| == |bs|
    ensures forall i :: 0 <= i < |bs| ==>
      r[i].JObject? && r[i].fields.Keys == {"name", "program_path", "icon_path"}
      && r[i].fields["name"] == bs[i].name
      && r[i].fields["program_path"] == bs[i].programPath
      && r[i].fields["icon_path"] == bs[i].iconPath
  {
    seq(|bs|, i requires 0 <= i < |bs| => SaveRecord(bs[i]))
  }

  /** An entry as it is after being written and read back: the same
      strings, and the handle its icon path resolves to now. */
  function Reloaded(b: Button, store: IconStore): (r: Button)
    ensures r.name == b.name && r.programPath == b.programPath && r.iconPath == b.iconPath
    ensures r.icon == ResolveIcon(Some(b.iconPath), store)
  {
    b.(icon := ResolveIcon(Some(b.iconPath), store))
  }

  /** Round trip: loading what was saved gives back every entry, in order,
      with the same name, program path and icon path; only the handle is
      resolved afresh. */
  lemma {:induction false} LoadSaveRoundTrip(bs: seq<Button>, store: IconStore)
    ensures |Loaded(PrepareForSaving(bs), store)| == |bs|
    ensures forall i :: 0 <= i < |bs| ==> Loaded(PrepareForSaving(bs), store)[i] == Reloaded(bs[i], store)
  {
    if bs != [] {
      var n := |bs| - 1;
      var saved := PrepareForSaving(bs);
      assert saved[..n] == PrepareForSaving(bs[..n]);
      LoadSaveRoundTrip(bs[..n], store);
      assert Accepted(saved[n]);
      assert LoadEntry(saved[n], store) == Reloaded(bs[n], store);
    }
  }

  /** Saving what was loaded from a save writes the same file again. */
  lemma SaveLoadSaveStable(bs: seq<Button>, store: IconStore)
    ensures PrepareForSaving(Loaded(PrepareForSaving(bs), store)) == PrepareForSaving(bs)
  {
    LoadSaveRoundTrip(bs, store);
  }

  /** Loading a record gives the entry the add dialog makes from the same
      answers: the stored name (or no name typed when the record has none),
      the program path, and the icon path (or a cancelled icon dialog when
      the record has none), whatever other keys the record holds. The one
      difference is an empty stored name, which stays empty where the add
      dialog would use the file stem. */
  lemma LoadMatchesAdd(f: map<string, string>, store: IconStore)
    requires "program_path" in f
    ensures "name" !in f || f["name"] != "" ==>
      LoadEntry(JObject(f), store)
      == NewEntry(if "name" in f then f["name"] else "", f["program_path"],
                  if "icon_path" in f then f["icon_path"] else "", store)
    ensures "name" in f && f["name"] == "" ==> LoadEntry(JObject(f), store).name == ""
  {
  }

  // ---------------------------------------------------------------------------
  // Where a save goes
  // ---------------------------------------------------------------------------

  /** The file a save writes to: the current file when there is one,
      otherwise the path chosen in the save-as dialog (`""` when that dialog
      is cancelled, and then nothing is written). */
  function SaveTarget(current: Option<string>, saveAsPath: string): (t: Option<string>)
    ensures !Falsy(current) ==> t == current
    ensures Falsy(current) && saveAsPath != "" ==> t == Some(saveAsPath)
    ensures t.None? <==> Falsy(current) && saveAsPath == ""
    ensures t.Some? ==> t.value != ""
  {
    if !Falsy(current) then current
    else if saveAsPath != "" then Some(saveAsPath)
    else None
  }
}
