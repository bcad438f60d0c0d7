/**
 * What `loadAllRecords` builds, as a function of the index, the stored
 * entries, the mapping widget's verdict on each geometry and the ids `newId()`
 * would mint: one layer per index position whose entry parses and whose
 * geometry the widget can rebuild, in index order; every other position is
 * skipped on its own.
 */
module Loading {
  import opened Records

  /** One layer the loader builds: the stored feature and the id the layer is bound to. */
  datatype Loaded = Loaded(feature: Feature, id: Id)

  /** The entry for `id` parses and the widget can rebuild its geometry. */
  predicate Loadable(id: Id, blobs: map<Id, Blob>, reconstructs: Geometry -> bool)
  {
    id in blobs && blobs[id].Parsed? && reconstructs(blobs[id].rec.feature.geometry)
  }

  /**
   * One step of the `forEach`: a missing entry returns early, an unparsable
   * entry or an unbuildable geometry throws and is caught; otherwise one layer,
   * bound to the feature's `recordId` or, lacking one, to a minted id.
   */
  function LoadOne(id: Id, blobs: map<Id, Blob>, reconstructs: Geometry -> bool, minted: Id): (r: seq<Loaded>)
    ensures |r| == (if Loadable(id, blobs, reconstructs) then 1 else 0)
    ensures |r| == 1 ==>
      r[0].feature == blobs[id].rec.feature && r[0].id == ChooseId(blobs[id].rec.feature.properties, minted)
  {
    if Loadable(id, blobs, reconstructs) then
      var feature := blobs[id].rec.feature;
      [Loaded(feature, ChooseId(feature.properties, minted))]
    else []
  }

  /** The layers for all index positions, in order; `minted[i]` is the id minted at position `i`. */
  function LoadPlan(ids: seq<Id>, blobs: map<Id, Blob>, reconstructs: Geometry -> bool, minted: seq<Id>): (plan: seq<Loaded>)
    requires |minted| == |ids|
    ensures |plan| <= |ids|
    decreases |ids|
  {
    if ids == [] then []
    else LoadOne(ids[0], blobs, reconstructs, minted[0]) + LoadPlan(ids[1..], blobs, reconstructs, minted[1..])
  }

  /** The plan of a one-entry index is what that entry loads. */
  lemma LoadPlanSingle(id: Id, m: Id, blobs: map<Id, Blob>, reconstructs: Geometry -> bool)
    ensures LoadPlan([id], blobs, reconstructs, [m]) == LoadOne(id, blobs, reconstructs, m)
  {
    assert [id][1..] == [] && [m][1..] == [];
  }

  /** Loading is per item: the plan for a concatenated index is the concatenation of the plans. */
  lemma {:induction false} LoadPlanConcat(a: seq<Id>, b: seq<Id>, ma: seq<Id>, mb: seq<Id>,
                                          blobs: map<Id, Blob>, reconstructs: Geometry -> bool)
    requires |ma| == |a| && |mb| == |b|
    ensures LoadPlan(a + b, blobs, reconstructs, ma + mb)
            == LoadPlan(a, blobs, reconstructs, ma) + LoadPlan(b, blobs, reconstructs, mb)
    decreases |a|
  {
    if a == [] {
      assert a + b == b && ma + mb == mb;
    } else {
      assert (a + b)[0] == a[0] && (a + b)[1..] == a[1..] + b;
      assert (ma + mb)[0] == ma[0] && (ma + mb)[1..] == ma[1..] + mb;
      LoadPlanConcat(a[1..], b, ma[1..], mb, blobs, reconstructs);
    }
  }

  /** The layers for the first `n` index positions, built one position at a time. */
  function LoadPrefix(ids: seq<Id>, blobs: map<Id, Blob>, reconstructs: Geometry -> bool, minted: seq<Id>, n: nat): seq<Loaded>
    requires |minted| == |ids| && n <= |ids|
  {
    if n == 0 then []
    else LoadPrefix(ids, blobs, reconstructs, minted, n - 1) + LoadOne(ids[n - 1], blobs, reconstructs, minted[n - 1])
  }

  /** The first `n` positions load what the index cut after `n` entries loads. */
  lemma {:induction false} LoadPrefixIsPlan(ids: seq<Id>, blobs: map<Id, Blob>, reconstructs: Geometry -> bool, minted: seq<Id>, n: nat)
    requires |minted| == |ids| && n <= |ids|
    ensures LoadPrefix(ids, blobs, reconstructs, minted, n) == LoadPlan(ids[..n], blobs, reconstructs, minted[..n])
  {
    if n > 0 {
      LoadPrefixIsPlan(ids, blobs, reconstructs, minted, n - 1);
      assert ids[..n] == ids[..n - 1] + [ids[n - 1]] && minted[..n] == minted[..n - 1] + [minted[n - 1]];
      LoadPlanConcat(ids[..n - 1], [ids[n - 1]], minted[..n - 1], [minted[n - 1]], blobs, reconstructs);
      LoadPlanSingle(ids[n - 1], minted[n - 1], blobs, reconstructs);
    }
  }

  /** All positions, taken one at a time, load the plan of the whole index. */
  lemma LoadPrefixAll(ids: seq<Id>, blobs: map<Id, Blob>, reconstructs: Geometry -> bool, minted: seq<Id>)
    requires |minted| == |ids|
    ensures LoadPrefix(ids, blobs, reconstructs, minted, |ids|) == LoadPlan(ids, blobs, reconstructs, minted)
  {
    LoadPrefixIsPlan(ids, blobs, reconstructs, minted, |ids|);
    assert ids[..|ids|] == ids && minted[..|ids|] == minted;
  }

  /**
   * Save, then reload: a record stored under the non-empty `id`, whose
   * feature's `recordId` is `id` and whose geometry the widget rebuilds,
   * loads back as exactly its feature bound to `id`, whatever id would be
   * minted, and the loaded layer's properties are the feature's unchanged.
   */
  lemma SaveThenLoad(blobs: map<Id, Blob>, id: Id, rec: Record, reconstructs: Geometry -> bool, m: Id)
    requires id != "" && RecordIdKey in rec.feature.properties && rec.feature.properties[RecordIdKey] == id
    requires reconstructs(rec.feature.geometry)
    ensures LoadOne(id, blobs[id := Parsed(rec)], reconstructs, m) == [Loaded(rec.feature, id)]
    ensures rec.feature.properties[RecordIdKey := id] == rec.feature.properties
  {
  }

  /** The ids the layers of a plan are bound to. */
  function PlanIds(plan: seq<Loaded>): set<Id>
  {
    set x | x in plan :: x.id
  }

  lemma PlanIdsAppend(a: seq<Loaded>, b: seq<Loaded>)
    ensures PlanIds(a + b) == PlanIds(a) + PlanIds(b)
  {
  }

  /**
   * A bad entry is isolated: the index `a + [bad] + c`, whose middle entry is
   * missing, unparsable or unbuildable, loads exactly what `a` and `c` load.
   */
  lemma BadEntryIsolated(a: seq<Id>, bad: Id, c: seq<Id>, ma: seq<Id>, m: Id, mc: seq<Id>,
                         blobs: map<Id, Blob>, reconstructs: Geometry -> bool)
    requires |ma| == |a| && |mc| == |c|
    requires !Loadable(bad, blobs, reconstructs)
    ensures LoadPlan(a + [bad] + c, blobs, reconstructs, ma + [m] + mc)
            == LoadPlan(a, blobs, reconstructs, ma) + LoadPlan(c, blobs, reconstructs, mc)
  {
    var pa := LoadPlan(a, blobs, reconstructs, ma);
    var pbad := LoadPlan([bad], blobs, reconstructs, [m]);
    LoadPlanSingle(bad, m, blobs, reconstructs);
    assert pbad == [];
    LoadPlanConcat(a, [bad], ma, [m], blobs, reconstructs);
    assert LoadPlan(a + [bad], blobs, reconstructs, ma + [m]) == pa + pbad;
    LoadPlanConcat(a + [bad], c, ma + [m], mc, blobs, reconstructs);
    assert pa + pbad == pa;
  }
}
