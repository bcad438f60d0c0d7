/**
 * The persisted values: records, their features and property bags, the raw
 * index entry; and the pure steps of the record layer — reading the index,
 * adding an id to it, filtering one out, choosing a layer's id, merging a
 * property patch and stamping a record on save.
 */
module Records {
  import opened Wrappers
  import opened Seqs
  import Html

  type Id = string

  /** `feature.properties`: a bag of string-valued properties. */
  type Props = map<string, string>

  /** The geometry the mapping widget serialises; the model never looks inside it. */
  datatype Geometry = Geometry(geoJson: string)

  datatype Feature = Feature(geometry: Geometry, properties: Props)

  datatype Record = Record(id: Id, feature: Feature, createdAt: string, updatedAt: string)

  /** A stored record entry: JSON that parses to a record, or text that does not. */
  datatype Blob = Parsed(rec: Record) | Unparsable

  /** The stored index entry: missing, unparsable, or a JSON array of ids. */
  datatype RawIndex = NoIndex | UnparsableIndex | IndexIds(ids: seq<Id>)

  /**
   * What makes `saveLayerRecord` throw: `JSON.parse` on the record stored
   * under its own id, or, once the record is written, on the entry stored
   * under `id` when the closing `renderRecordsList()` reads every entry.
   */
  datatype SaveError = CorruptRecord(id: Id) | ListAborted(id: Id)

  const RecordIdKey := "recordId"
  const PopupKey := "popupHTML"

  /** `getIndex()`: the stored ids, or none when the entry is missing or does not parse. */
  function ReadIndex(raw: RawIndex): (ids: seq<Id>)
    ensures raw.IndexIds? ==> ids == raw.ids
    ensures !raw.IndexIds? ==> ids == []
  {
    if raw.IndexIds? then raw.ids else []
  }

  /**
   * The index after `upsertIndex(id)`: `id` is in it; when it already was,
   * nothing changes; otherwise it is appended, the existing ids keeping their
   * places. No duplicate is ever introduced.
   */
  function Upserted(ids: seq<Id>, id: Id): (r: seq<Id>)
    ensures id in r
    ensures id in ids ==> r == ids
    ensures |ids| <= |r| <= |ids| + 1 && r[..|ids|] == ids
    ensures forall x :: x in r <==> x in ids || x == id
    ensures NoDuplicates(ids) ==> NoDuplicates(r)
  {
    if id in ids then ids else ids + [id]
  }

  /** Upserting is idempotent. */
  lemma UpsertedIdempotent(ids: seq<Id>, id: Id)
    ensures Upserted(Upserted(ids, id), id) == Upserted(ids, id)
  {
  }

  /**
   * The index after `removeFromIndex(id)` (`filter(x => x !== id)`): no
   * occurrence of `id` is left, every other id keeps all its occurrences in
   * their relative order, and an index without `id` comes back unchanged.
   */
  function Without(ids: seq<Id>, id: Id): (r: seq<Id>)
    ensures id !in r
    ensures IsSubsequence(r, ids)
    ensures multiset(r) == multiset(ids)[id := 0]
    ensures id !in ids ==> r == ids
  {
    if ids == [] then []
    else
      var rest := Without(ids[1..], id);
      assert ids == [ids[0]] + ids[1..];
      assert multiset(ids) == multiset{ids[0]} + multiset(ids[1..]);
      if ids[0] == id then rest
      else
        assert ([ids[0]] + rest)[1..] == rest;
        [ids[0]] + rest
  }

  /** Removing keeps every other id and, with it, the absence of duplicates. */
  lemma WithoutKeepsOthers(ids: seq<Id>, id: Id)
    ensures forall x :: x != id ==> (x in Without(ids, id) <==> x in ids)
    ensures NoDuplicates(ids) ==> NoDuplicates(Without(ids, id))
  {
    var r := Without(ids, id);
    forall x | x != id ensures x in r <==> x in ids {
      assert x in r <==> multiset(r)[x] > 0;
      assert x in ids <==> multiset(ids)[x] > 0;
    }
    if NoDuplicates(ids) {
      SubsequenceNoDuplicates(r, ids);
    }
  }

  /**
   * The id `ensureRecordId` gives a layer that has none bound yet: the
   * non-empty `recordId` its properties carry, or else a freshly minted one.
   */
  function ChooseId(p: Props, minted: Id): (id: Id)
    ensures RecordIdKey in p && p[RecordIdKey] != "" ==> id == p[RecordIdKey]
    ensures !(RecordIdKey in p && p[RecordIdKey] != "") ==> id == minted
  {
    if RecordIdKey in p && p[RecordIdKey] != "" then p[RecordIdKey] else minted
  }

  /** `{ ...p, ...patch, recordId: id }`, the bag `setLayerProps` installs after a merge. */
  function Merge(p: Props, patch: Props, id: Id): (r: Props)
    ensures RecordIdKey in r && r[RecordIdKey] == id
    ensures forall k :: k in patch && k != RecordIdKey ==> k in r && r[k] == patch[k]
    ensures forall k :: k in p && k !in patch && k != RecordIdKey ==> k in r && r[k] == p[k]
    ensures forall k :: k in r ==> k in p || k in patch || k == RecordIdKey
  {
    (p + patch)[RecordIdKey := id]
  }

  /**
   * The bag after `setLayerProp(layer, 'popupHTML', uiPopup(layer))`: the
   * popup is computed from the bag before the write and stored under
   * `popupHTML`, and, since the popup ignores that key, it is also the popup
   * of the bag after the write; every other key is kept.
   */
  function WithPopup(p: Props, id: Id): (r: Props)
    ensures PopupKey in r && r[PopupKey] == Html.PopupHtml(r, id)
    ensures forall k :: k != PopupKey ==> (k in r <==> k in p)
    ensures forall k :: k in p && k != PopupKey ==> r[k] == p[k]
  {
    Html.PopupIgnoresOtherKeys(p, PopupKey, Html.PopupHtml(p, id), id);
    p[PopupKey := Html.PopupHtml(p, id)]
  }

  /**
   * The layer's properties once `saveLayerRecord(layer, patch)` has run, from
   * those it had before and its bound id: `recordId` is the id (the patch cannot
   * change it), the patch is merged only when it is non-empty and its keys win,
   * other keys are kept, and `popupHTML` is the popup of the final bag.
   */
  function SavedProps(p: Props, patch: Props, id: Id): (r: Props)
    ensures RecordIdKey in r && r[RecordIdKey] == id
    ensures PopupKey in r && r[PopupKey] == Html.PopupHtml(r, id)
    ensures forall k :: k in patch && k != RecordIdKey && k != PopupKey ==> k in r && r[k] == patch[k]
    ensures forall k :: k in p && k !in patch && k != RecordIdKey && k != PopupKey ==> k in r && r[k] == p[k]
    ensures forall k :: k in r ==> k in p || k in patch || k == RecordIdKey || k == PopupKey
  {
    var bound := p[RecordIdKey := id];
    var merged := if |patch| > 0 then Merge(bound, patch, id) else bound;
    WithPopup(merged, id)
  }

  /**
   * The record `saveLayerRecord` writes, given what is stored under the id: a
   * first save creates it with `createdAt == updatedAt == now`; a later save
   * keeps the stored `id` and `createdAt`, replaces the feature and sets
   * `updatedAt` to `now`; a stored entry that does not parse makes the save throw.
   */
  function Stamp(existing: Option<Blob>, id: Id, feature: Feature, now: string): (r: Result<Record, SaveError>)
    ensures r.Failure? <==> existing == Some(Unparsable)
    ensures r.Success? ==> r.value.feature == feature && r.value.updatedAt == now
    ensures existing == None ==> r.Success? && r.value.id == id && r.value.createdAt == now
    ensures existing.Some? && existing.value.Parsed? ==>
              r.Success? && r.value.id == existing.value.rec.id
              && r.value.createdAt == existing.value.rec.createdAt
  {
    match existing
    case None => Success(Record(id, feature, now, now))
    case Some(Parsed(stored)) => Success(stored.(feature := feature, updatedAt := now))
    case Some(Unparsable) => Failure(CorruptRecord(id))
  }
}
