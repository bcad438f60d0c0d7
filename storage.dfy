/**
 * The browser's `localStorage` as the record layer uses it: one entry per
 * record under `RecordKey(id)` and one index entry under `IndexKey`.
 */
module Storage {
  import opened Wrappers
  import opened Records
  import opened Seqs

  const Namespace := "lf.records.v1"
  const IndexKey := Namespace + ":index"
  const RecordPrefix := Namespace + ":rec:"

  /** `recordKey(id)`: the namespaced record prefix followed by the id, which can be read back from the key. */
  function RecordKey(id: Id): (k: string)
    ensures |k| == |RecordPrefix| + |id|
    ensures k[..|RecordPrefix|] == RecordPrefix && k[|RecordPrefix|..] == id
  {
    RecordPrefix + id
  }

  /**
   * Distinct ids have distinct record keys, and no record key is the index key,
   * so the store can be viewed as a map from ids to entries plus one index entry.
   */
  lemma RecordKeysSeparate(a: Id, b: Id)
    ensures RecordKey(a) == RecordKey(b) ==> a == b
    ensures RecordKey(a) != IndexKey
  {
    assert RecordKey(a)[|RecordPrefix|..] == a;
    assert RecordKey(b)[|RecordPrefix|..] == b;
    assert RecordKey(a)[14] == 'r';
    assert IndexKey[14] == 'i';
  }

  /** `ids` lists each id of `blobs` exactly once, and nothing else. */
  ghost predicate Agrees(ids: seq<Id>, blobs: map<Id, Blob>)
  {
    NoDuplicates(ids) && forall id :: id in ids <==> id in blobs
  }

  /**
   * Each parseable stored record carries its own key: its `id` and its
   * feature's `recordId` are the id it is stored under.
   */
  ghost predicate WellKeyed(blobs: map<Id, Blob>)
  {
    forall id :: id in blobs && blobs[id].Parsed? ==>
      blobs[id].rec.id == id
      && RecordIdKey in blobs[id].rec.feature.properties && blobs[id].rec.feature.properties[RecordIdKey] == id
  }

  /**
   * Stamping a feature whose `recordId` is `id` and storing the record under
   * `id` keeps every record keyed by its own id: a first save writes `id`,
   * and a later save keeps the stored `id`, which already was the key.
   */
  lemma SaveKeepsKeys(blobs: map<Id, Blob>, id: Id, feature: Feature, now: string)
    requires WellKeyed(blobs)
    requires RecordIdKey in feature.properties && feature.properties[RecordIdKey] == id
    requires Stamp(EntryFor(blobs, id), id, feature, now).Success?
    ensures WellKeyed(blobs[id := Parsed(Stamp(EntryFor(blobs, id), id, feature, now).value)])
  {
  }

  /** Removing an entry keeps the others keyed by their own ids. */
  lemma DeleteKeepsKeys(blobs: map<Id, Blob>, id: Id)
    requires WellKeyed(blobs)
    ensures WellKeyed(blobs - {id})
  {
  }

  /** The entry stored under `id`, if any. */
  function EntryFor(blobs: map<Id, Blob>, id: Id): (e: Option<Blob>)
    ensures e.Some? <==> id in blobs
    ensures e.Some? ==> e.value == blobs[id]
  {
    if id in blobs then Some(blobs[id]) else None
  }

  /** Writing an entry and upserting its id keeps index and entries in agreement. */
  lemma SaveKeepsAgreement(ids: seq<Id>, blobs: map<Id, Blob>, id: Id, b: Blob)
    requires Agrees(ids, blobs)
    ensures Agrees(Upserted(ids, id), blobs[id := b])
  {
  }

  /** Removing an entry and filtering its id out keeps index and entries in agreement. */
  lemma DeleteKeepsAgreement(ids: seq<Id>, blobs: map<Id, Blob>, id: Id)
    requires Agrees(ids, blobs)
    ensures Agrees(Without(ids, id), blobs - {id})
  {
    WithoutKeepsOthers(ids, id);
  }

  class LocalStore {
    /** The entry under `RecordKey(id)`, for each id that has one. */
    var blobs: map<Id, Blob>
    /** The entry under `IndexKey`. */
    var index: RawIndex

    /** The store as the page finds it: whatever an earlier session left. */
    constructor (blobs: map<Id, Blob>, index: RawIndex)
      ensures this.blobs == blobs && this.index == index
    {
      this.blobs := blobs;
      this.index := index;
    }

    /** `getIndex()` */
    function GetIndex(): (ids: seq<Id>)
      reads this
      ensures index.IndexIds? ==> ids == index.ids
      ensures !index.IndexIds? ==> ids == []
    {
      ReadIndex(index)
    }

    /** `localStorage.getItem(recordKey(id))`, parsed. */
    function Lookup(id: Id): Option<Blob>
      reads this
    {
      EntryFor(blobs, id)
    }

    /** The index lists each stored record exactly once, and nothing else. */
    ghost predicate Consistent()
      reads this
    {
      Agrees(GetIndex(), blobs)
    }

    /** `setIndex(ids)`: a later `getIndex()` returns exactly `ids`. */
    method SetIndex(ids: seq<Id>)
      modifies this
      ensures index == IndexIds(ids) && GetIndex() == ids
      ensures blobs == old(blobs)
    {
      index := IndexIds(ids);
    }

    /** `upsertIndex(id)`: the index is rewritten only when `id` was not in it. */
    method UpsertIndex(id: Id)
      modifies this
      ensures GetIndex() == Upserted(old(GetIndex()), id)
      ensures id in old(GetIndex()) ==> index == old(index)
      ensures blobs == old(blobs)
    {
      var idx := GetIndex();
      if id !in idx {
        SetIndex(idx + [id]);
      }
    }

    /** `removeFromIndex(id)`: the index is always rewritten, filtered. */
    method RemoveFromIndex(id: Id)
      modifies this
      ensures GetIndex() == Without(old(GetIndex()), id) && index.IndexIds?
      ensures blobs == old(blobs)
    {
      SetIndex(Without(GetIndex(), id));
    }

    /** `localStorage.setItem(recordKey(id), JSON.stringify(rec))` */
    method PutRecord(id: Id, rec: Record)
      modifies this
      ensures blobs == old(blobs)[id := Parsed(rec)] && index == old(index)
    {
      blobs := blobs[id := Parsed(rec)];
    }

    /**
     * The store side of `saveLayerRecord`: the record for `id` is stamped
     * against the stored entry and, unless that entry does not parse, written
     * and its id upserted into the index.
     */
    method Save(id: Id, feature: Feature, now: string) returns (r: Result<Record, SaveError>)
      modifies this
      ensures r == Stamp(EntryFor(old(blobs), id), id, feature, now)
      ensures r.Success? ==> blobs == old(blobs)[id := Parsed(r.value)] && GetIndex() == Upserted(old(GetIndex()), id)
      ensures r.Failure? ==> blobs == old(blobs) && index == old(index)
      ensures old(Consistent()) ==> Consistent()
      ensures old(WellKeyed(blobs)) && RecordIdKey in feature.properties && feature.properties[RecordIdKey] == id ==>
        WellKeyed(blobs)
    {
      r := Stamp(Lookup(id), id, feature, now);
      if r.Success? {
        PutRecord(id, r.value);
        UpsertIndex(id);
        if old(Consistent()) {
          SaveKeepsAgreement(old(GetIndex()), old(blobs), id, Parsed(r.value));
        }
        if old(WellKeyed(blobs)) && RecordIdKey in feature.properties && feature.properties[RecordIdKey] == id {
          SaveKeepsKeys(old(blobs), id, feature, now);
        }
      }
    }

    /** The store side of `deleteLayerRecordById`: the entry goes, then every index occurrence of the id. */
    method Delete(id: Id)
      modifies this
      ensures blobs == old(blobs) - {id}
      ensures GetIndex() == Without(old(GetIndex()), id)
      ensures old(Consistent()) ==> Consistent()
      ensures old(WellKeyed(blobs)) ==> WellKeyed(blobs)
    {
      RemoveRecord(id);
      RemoveFromIndex(id);
      if old(Consistent()) {
        DeleteKeepsAgreement(old(GetIndex()), old(blobs), id);
      }
    }

    /** `localStorage.removeItem(recordKey(id))` */
    method RemoveRecord(id: Id)
      modifies this
      ensures blobs == old(blobs) - {id} && index == old(index)
    {
      blobs := blobs - {id};
    }
  }
}
