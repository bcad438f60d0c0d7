# Danger mapper: the record layer, modelled in Dafny

The danger mapper is a single-page map editor. It is a Leaflet map where the
user draws shapes, names and tags them, and finds them again after a reload.
This project models the part of `main.js` that holds state: the record store
in `localStorage`, the binder that gives every drawn shape a permanent record
id, the save, delete and load-all operations built on them, the records panel's
list, and the pure string helpers those use (`escapeHtml`, `recordTitle`, the
popup summary and the emoji search).

Modules:

- **Records** holds the persisted values and the pure steps of the record layer:
  - the values are records, features, property bags and the raw index entry;
  - the steps are reading the index, upserting and removing an id, choosing a
    layer's id, merging a property patch, and stamping a record on save.
- **Storage**: `localStorage` as a class `LocalStore`. It has one entry per
  record id (`blobs`) and one index entry (`index`). Its methods are
  `setIndex`, `upsertIndex`, `removeFromIndex`, the record writes and removals,
  and the store side of save and delete. `getIndex` is `GetIndex`, and
  `recordKey` is `RecordKey`.
- **Binder** holds the in-place state:
  - a `Layer` class for a drawn shape, whose `props` field is
    `layer.feature.properties`, updated in place. `getLayerProps` is
    `Layer.Props`;
  - a `FeatureGroup` class for `drawnItems`;
  - a `Session` class holding `idToLayer`, `layerToId`, the feature group and
    the store. Its methods are `ensureRecordId`, `setLayerProps`,
    `layerToFeature`, `featureToLayer`, `saveLayerRecord`,
    `deleteLayerRecordById` and `loadAllRecords`. The invariant `Valid()`
    says that every `idToLayer` entry is mirrored in `layerToId` and that
    every bound layer carries its id in `recordId`.
- **Loading**: what `loadAllRecords` builds, as a function of the index, the
  stored entries, the widget's verdict on each geometry and the ids `newId()`
  would mint. The `Session` method is proved against it.
- **Listing**: the filter and sort of `renderRecordsList`, and `recordTitle`.
- **Html**: `escapeHtml`, the decoding a browser applies to escaped text, and
  `uiPopup`.
- **Emoji**: `EMOJI_INDEX` and the picker's search filter.
- **Text**: JavaScript's `trim`, `toLowerCase` and `includes`.
- **Seqs**: generic sequence facts.
- **Wrappers**: `Option` and `Result`.

The randomness and the clock are parameters:

- every method that may mint an id takes the id `newId()` would return
  (`minted`, never empty);
- `saveLayerRecord` takes `now`, the `toISOString()` of the save;
- `loadAllRecords` takes one minted id per index position.

The mapping widget's ability to rebuild a stored geometry (`L.geoJSON`
throwing or not) is the parameter `reconstructs`.

`JSON.parse` on a stored record entry is guarded in one place only:

- `loadAllRecords` wraps each entry in `try`/`catch` (`main.js:256-267`) and
  skips an entry that does not parse.
- `renderRecordsList` parses every indexed entry unguarded (`main.js:581`), so
  one corrupt entry makes it throw; this is the finding below. Save and delete
  both end with this render, so `Binder.Session.SaveLayerRecord` and
  `Binder.Session.DeleteLayerRecordById` report that throw, after their writes.
- `saveLayerRecord` parses the entry under its own id unguarded
  (`main.js:201`), after the layer's properties have already been updated.
  `Records.Stamp` and `Binder.Session.SaveLayerRecord` model that error path.

## Model

| member | source | states |
|---|---|---|
| Records.ReadIndex | media/files/danger-mapper/main.js:102-109 | a stored array is returned as is; a missing or unparsable index entry reads as the empty index |
| Records.Upserted | media/files/danger-mapper/main.js:115-121 | the id is in the result; an index already holding it is unchanged; otherwise the id is appended and the old ids keep their places; no duplicate is introduced |
| Records.UpsertedIdempotent | media/files/danger-mapper/main.js:115-121 | upserting the same id twice is upserting it once |
| Records.Without | media/files/danger-mapper/main.js:123-126 | no occurrence of the id is left; the rest is an in-order subsequence with every other id's multiplicity kept; an index without the id comes back unchanged |
| Records.WithoutKeepsOthers | media/files/danger-mapper/main.js:123-126 | every other id stays present exactly when it was, and a duplicate-free index stays duplicate-free |
| Records.ChooseId | media/files/danger-mapper/main.js:88-94 | a non-empty `recordId` in the properties wins; otherwise the minted id is used |
| Records.Merge | media/files/danger-mapper/main.js:186-189 | after a merge, `recordId` is the bound id; the patch's keys win; other old keys are kept; no key appears from nowhere |
| Records.WithPopup | media/files/danger-mapper/main.js:192-193 | `popupHTML` is stored, and it is the popup of the bag it is stored in, since the popup ignores that key; every other key is kept |
| Records.SavedProps | media/files/danger-mapper/main.js:183-193 | after a save, `recordId` is the bound id whatever the patch says; the patch's keys win; other old keys are kept; no key appears from nowhere; `popupHTML` is the popup of the final bag |
| Records.Stamp | media/files/danger-mapper/main.js:198-206 | the save throws exactly when the stored entry does not parse; a first save has `createdAt == updatedAt == now`; a later save keeps the stored `id` and `createdAt`, replaces the feature and sets `updatedAt` to `now` |
| Storage.RecordKey | media/files/danger-mapper/main.js:66-68 | a record key is the namespaced `:rec:` prefix followed by the id, which can be read back from the key |
| Storage.LocalStore.GetIndex | media/files/danger-mapper/main.js:102-109 | a stored id array is returned as is; a missing or unparsable index entry reads as the empty index |
| Storage.RecordKeysSeparate | media/files/danger-mapper/main.js:66-68 | distinct ids have distinct record keys, and no record key is the index key |
| Storage.SaveKeepsAgreement | media/files/danger-mapper/main.js:208-209 | writing an entry and upserting its id keeps the index listing each stored id exactly once |
| Storage.DeleteKeepsAgreement | media/files/danger-mapper/main.js:243-244 | removing an entry and filtering its id out keeps that agreement |
| Storage.LocalStore.SetIndex | media/files/danger-mapper/main.js:111-113 | a later `getIndex()` returns exactly the ids written; the record entries are untouched |
| Storage.LocalStore.UpsertIndex | media/files/danger-mapper/main.js:115-121 | the index becomes `Upserted` of the old one, and the entry is not rewritten when the id was present |
| Storage.LocalStore.RemoveFromIndex | media/files/danger-mapper/main.js:123-126 | the index becomes `Without` of the old one and is always rewritten |
| Storage.LocalStore.PutRecord | media/files/danger-mapper/main.js:208 | only the entry under the id changes, to the record written |
| Storage.LocalStore.RemoveRecord | media/files/danger-mapper/main.js:243 | only the entry under the id goes |
| Storage.SaveKeepsKeys | media/files/danger-mapper/main.js:198-208 | storing the stamped record of a feature whose `recordId` is its id keeps every record keyed by its own id, in `id` and in `recordId` |
| Storage.DeleteKeepsKeys | media/files/danger-mapper/main.js:243 | removing an entry keeps the others keyed by their own ids |
| Storage.LocalStore.Save | media/files/danger-mapper/main.js:198-209 | the result is `Stamp` of the stored entry; on success the entry is written and the id upserted; on failure the store is unchanged; index and entries stay in agreement; records stay keyed by their own ids when the feature's `recordId` is the id |
| Storage.LocalStore.Delete | media/files/danger-mapper/main.js:243-244 | the entry goes, the index loses every occurrence of the id; agreement is kept and records stay keyed by their own ids |
| Binder.FeatureGroup.AddLayer | media/files/danger-mapper/main.js:261 | the shape joins the map |
| Binder.FeatureGroup.RemoveLayer | media/files/danger-mapper/main.js:247 | the shape leaves the map |
| Binder.Layer.Props | media/files/danger-mapper/main.js:177-179 | a layer with a feature gives its properties, a layer without one the empty bag |
| Binder.Layer.SetProp | media/files/danger-mapper/main.js:161-168 | a layer without a feature gets an empty bag first; then exactly the one key is set |
| Binder.Session.constructor | media/files/danger-mapper/main.js:70-72 | the page starts with empty tables and an empty feature group, satisfying the invariant |
| Binder.Session.EnsureRecordId | media/files/danger-mapper/main.js:84-100 | a bound layer keeps its id and properties, so a second call returns the same id; an unbound layer is bound both ways to `ChooseId` of its properties, and that id is written into its `recordId`; the id is never empty |
| Binder.Session.SetLayerProps | media/files/danger-mapper/main.js:171-175 | the properties become exactly the bag, except that `recordId` is the bound id; the invariant holds afterwards |
| Binder.Session.LayerToFeature | media/files/danger-mapper/main.js:128-139 | the feature has the layer's geometry and exactly the layer's properties, its `recordId` being the bound id |
| Binder.Session.FeatureToLayer | media/files/danger-mapper/main.js:141-158 | a new layer with the feature's geometry, bound both ways to `ChooseId`, carrying the feature's properties with that `recordId` |
| Binder.Session.SaveLayerRecord | media/files/danger-mapper/main.js:182-216 | the layer is bound to a non-empty id; its properties become `SavedProps`; the layer's final feature is stamped against the stored entry: a corrupt entry fails with the store untouched; otherwise the entry holds the record, whose `recordId` is the id, and the id is in the index, and then the save succeeds with that record exactly when no indexed entry of the new store is unparsable, failing with `ListAborted` of the render's error otherwise; store agreement, records keyed by their own ids, and the binder invariant are kept |
| Binder.Session.RenderRecordsList | media/files/danger-mapper/main.js:573-595 | the rows are `ListRecords` of the current index and entries: a throw exactly when an indexed entry does not parse, otherwise the present records newest first |
| Binder.Session.PrepareForSave | media/files/danger-mapper/main.js:183-195 | the layer side of the save: the bound id, the properties `SavedProps`, and the feature built from them |
| Binder.Session.MergePatch | media/files/danger-mapper/main.js:183-189 | the patch is merged, its keys winning, only when it is non-empty; `recordId` stays the bound id |
| Binder.Session.DeleteLayerRecordById | media/files/danger-mapper/main.js:242-251 | the entry and every index occurrence of the id go; the shape shown for it leaves the map and `idToLayer`; nothing else in the store changes; an id unknown everywhere changes nothing; agreement, records keyed by their own ids and the invariant are kept; the closing render is returned, and it fails exactly when an entry still indexed after the deletion does not parse |
| Binder.Session.Forget | media/files/danger-mapper/main.js:245-249 | the shape shown for the id, if any, leaves the map and `idToLayer` |
| Binder.Session.LoadAllRecords | media/files/danger-mapper/main.js:253-269 | the new layers show `LoadPlan` of the index, position by position (geometry, properties, bound id); they are exactly the new bindings and the new shapes on the map; the old bindings are kept; `idToLayer` becomes `Rebind` of the old table by the plan |
| Binder.Session.LoadNext | media/files/danger-mapper/main.js:255-268 | one turn of the `forEach`: the outcome so far extends to one more index position, and the binder invariant holds |
| Binder.Session.LoadEntry | media/files/danger-mapper/main.js:256-267 | one callback loads exactly `LoadOne` of its id, `idToLayer` gaining that id's new layer; a missing, unparsable or unbuildable entry leaves the tables and the map unchanged |
| Binder.Session.ShowFeature | media/files/danger-mapper/main.js:260-261 | the rebuilt layer is new, shows the feature, is on the map, is bound to `ChooseId` in `layerToId`, and `idToLayer` maps that id to it, every other id keeping its layer |
| Binder.Session.RebindKeys | media/files/danger-mapper/main.js:154-155 | after a load, `idToLayer` holds exactly the old ids and the planned ids |
| Binder.Session.RebindAppend | media/files/danger-mapper/main.js:255-268 | rebinding by a concatenated plan is rebinding by the first part, then by the second |
| Binder.Session.RebindLast | media/files/danger-mapper/main.js:154-155 | a planned id maps to the layer of its last position in the plan, so a later duplicate of an id wins |
| Binder.Session.RebindOthers | media/files/danger-mapper/main.js:154-155 | an id the plan does not load keeps its old layer |
| Binder.Session.LoadsAppend | media/files/danger-mapper/main.js:255-268 | loading one part of the index and then the next loads the concatenated plan |
| Loading.LoadOne | media/files/danger-mapper/main.js:256-267 | an id yields one layer exactly when its entry exists, parses and is buildable, bound to `ChooseId` of its feature; otherwise nothing |
| Loading.LoadPlan | media/files/danger-mapper/main.js:253-269 | at most one layer per index position |
| Loading.LoadPlanConcat | media/files/danger-mapper/main.js:255-268 | loading is per item: the plan of a concatenated index is the concatenation of the plans |
| Loading.SaveThenLoad | media/files/danger-mapper/main.js:253-262 | a record stored under a non-empty id whose feature's `recordId` is that id, with a buildable geometry, loads back as exactly its feature bound to that id, its properties unchanged |
| Loading.BadEntryIsolated | media/files/danger-mapper/main.js:256-267 | with a bad entry in the middle of the index, exactly what the entries before and after it load is loaded |
| Listing.Present | media/files/danger-mapper/main.js:578-583 | the records kept are exactly the parseable stored records of index ids, never more than the index has ids |
| Listing.PresentCounts | media/files/danger-mapper/main.js:578-583 | when every record is stored under its own id, each stored record is kept exactly as often as its id occurs in the index, and no other record is kept |
| Listing.PresentEachOnce | media/files/danger-mapper/main.js:578-583 | a duplicate-free index over records stored under their own ids lists each record once |
| Listing.Collect | media/files/danger-mapper/main.js:578-583 | the map-and-filter throws exactly when some index id's entry does not parse; otherwise it gives the present records |
| Listing.Insert | media/files/danger-mapper/main.js:584 | inserting into a newest-first list keeps it newest first and adds exactly the one record |
| Listing.SortNewestFirst | media/files/danger-mapper/main.js:584 | the result is newest first by `updatedAt` and a permutation of the input |
| Listing.NotBeforeTransitive | media/files/danger-mapper/main.js:584 | the comparator's order on `updatedAt` strings is a total preorder |
| Listing.ListRecords | media/files/danger-mapper/main.js:576-584 | as written: the render throws exactly when some entry does not parse; otherwise it shows a newest-first permutation of the present records (each once when `PresentEachOnce` applies) |
| Listing.CorruptEntryHidesList | media/files/danger-mapper/main.js:578-582 | one unparsable entry makes the written list throw, while the skipping list still shows the good record |
| Listing.ListRecordsSkipping | media/files/danger-mapper/main.js:576-584 | corrected: always a newest-first permutation of the present records; it agrees with the written list whenever no entry is corrupt |
| Listing.ListIsNewestFirst | media/files/danger-mapper/main.js:584 | no row is older than any row below it |
| Listing.RecordTitle | media/files/danger-mapper/main.js:378-381 | the trimmed name if non-empty, else the trimmed tag if non-empty, else the first 8 characters of the id; empty only when all three are |
| Html.Entity | media/files/danger-mapper/main.js:597-600 | a replacement holds no `<`, `>`, `"` or `'`, and only the five special characters change |
| Html.EscapeHtml | media/files/danger-mapper/main.js:596-601 | the output holds no `<`, `>`, `"` or `'`; a string without special characters is returned unchanged; output is never shorter |
| Html.UnescapeEscapeHtml | media/files/danger-mapper/main.js:596-601 | decoding the escaped text gives back the original, so escaping loses nothing |
| Html.PopupHtml | media/files/danger-mapper/main.js:655-667 | the popup opens with the escaped name in bold and closes with the first 8 characters of the id; `PopupContents` and `PopupIgnoresOtherKeys` say what lies between and what it depends on |
| Html.PopupIgnoresOtherKeys | media/files/danger-mapper/main.js:655-667 | the popup depends only on `name` and `description`, so writing `popupHTML` does not change it |
| Html.PopupContents | media/files/danger-mapper/main.js:655-667 | the popup shows the escaped name, the escaped description when there is one, and the first 8 characters of the id |
| Html.PopupShowsPlainName | media/files/danger-mapper/main.js:658-661 | a name without special characters appears verbatim in the popup |
| Text.Trim | media/files/danger-mapper/main.js:628 | only whitespace is removed, from both ends; the kept part is contiguous and neither starts nor ends with whitespace; it is empty exactly for all-whitespace input |
| Text.TrimIdempotent | media/files/danger-mapper/main.js:628 | trimming twice is trimming once |
| Text.ToLower | media/files/danger-mapper/main.js:628 | the length is kept, and each character is lowered on its own |
| Text.ContainsIff | media/files/danger-mapper/main.js:630 | `includes` holds exactly when the term occurs at some position |
| Emoji.Filter | media/files/danger-mapper/main.js:629-630 | exactly the matching items, as an in-order subsequence |
| Emoji.FilterCounts | media/files/danger-mapper/main.js:629-630 | each matching item is kept as often as it occurs, and no other item is kept |
| Emoji.Search | media/files/danger-mapper/main.js:627-631 | at most 200 items, an in-order subsequence, each matching the trimmed lower-cased term; a blank term gives the list from the start; when at most 200 items match, all of them are listed |
| Emoji.PickerListsExactlyMatches | media/files/danger-mapper/main.js:627-631 | over the fixed 24-item catalogue, an item is listed exactly when it matches, and a blank query lists the whole catalogue |

## Left out

- Leaflet map setup, the draw and edit controls and their event handlers, the geolocation control, and all DOM building are left out. This covers `uiRow`, `showMetadataPopup`, the picker's buttons, the records panel's elements, `prompt`, `alert` and `confirm`. All of it is foreign library or browser code.
- `applyPresentation` is left out: it only sets the icon and binds the popup. The `renderRecordsList` calls that end save and delete are modelled for their outcome (the rows, or the throw) but not for the rows they draw.
- `renderRecordsList` returns early, without reading the store, when the page has no records panel (`main.js:574`). The model assumes the panel is present.
- `newId()`, `Date`, `toISOString()` and `L.geoJSON` become parameters, as described above. `featureToLayer`'s unwrapping of a one-child layer group is not modelled.
- Geometry is an opaque value. `toGeoJSON` and lat/lng arithmetic are floating point and library code.
- `JSON.stringify`/`JSON.parse` at the byte level, and quota exceptions from `setItem`, are left out. A stored record entry either parses to a record or does not. A stored index entry is missing, unparsable, or an array of string ids: JSON that parses to something other than an array of strings is not modelled. JSON never serialises a record as the empty string, so an empty stored entry is not modelled either.
- `layerToId` is a `WeakMap` in the source. Here it is an ordinary map, so garbage collection is not modelled. As in the source, deleting a record does not unbind its layer from `layerToId`.
- `setLayerProp` with `createFeature = false` returns early on a layer without a feature. No core call uses that path, so `Binder.Layer.SetProp` models `createFeature = true` only.
- `uiPopup` with a non-empty `prefix` is not modelled; the save calls it without one. Its inner `ensureRecordId` call finds the layer already bound, so it is left out.
- The helper methods `PrepareForSave`, `MergePatch`, `Forget`, `LoadNext`, `LoadEntry` and `ShowFeature`, and the function `Records.WithPopup`, split the source's functions into steps so that each can be proved on its own. They do not exist as functions in `main.js`.
- Text.ToLower: lower-cases ASCII letters and the Kelvin sign only, not full Unicode case mapping. The catalogue names are lower-case ASCII, so the search term matters only through which characters can lower to ASCII, and the Kelvin sign is the only character outside ASCII that lowers to one.
- Text.Trim, Text.ContainsIff, Emoji.Search, Listing.Before and Seqs.Take: strings are sequences of Unicode scalar values, whereas JavaScript strings are UTF-16 code units. A search term holding half of a surrogate pair cannot be expressed. `Listing.Before` orders characters by code point where `<` compares code units, and `Seqs.Take` counts scalar values where `slice(0, 8)` counts code units (lines 380 and 665). The two differ only beyond the Basic Multilingual Plane; ids and `toISOString()` timestamps are ASCII.
- Binder.Session.EnsureRecordId: requires the minted id to be non-empty. `newId()` never returns an empty string, and the invariant that bound ids are non-empty depends on it.

## Findings

| source | as written | input that shows it | evidently intended | confidence | as-written member | corrected member |
|---|---|---|---|---|---|---|
| media/files/danger-mapper/main.js:578-582 | `renderRecordsList` calls `JSON.parse` on every stored entry without a guard, so one unparsable entry makes the whole render throw and the panel shows no rows at all | index `["a", "b"]`, where `a` holds a valid record and `b` holds text that does not parse: the list throws instead of showing `a` | skip the bad entry, as `loadAllRecords` does at lines 256-267, and list the other records newest first | medium, not executed | Listing.CorruptEntryHidesList | Listing.ListRecordsSkipping |
