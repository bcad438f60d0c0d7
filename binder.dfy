/**
 * The shape-to-record binder and the record operations built on it. A drawn
 * shape (a `Layer`) carries a property bag, `layer.feature.properties`, that
 * the page updates in place; a `Session` holds the two side tables binding
 * layers to record ids, the set of shapes on the map and the store.
 */
module Binder {
  import opened Wrappers
  import opened Seqs
  import opened Records
  import opened Storage
  import opened Loading
  import Html
  import Listing

  /** `drawnItems`, the feature group holding the shapes shown on the map. */
  class FeatureGroup {
    var layers: set<Layer>

    constructor ()
      ensures layers == {}
    {
      layers := {};
    }

    /** `drawnItems.addLayer(layer)` */
    method AddLayer(layer: Layer)
      modifies this
      ensures layers == old(layers) + {layer}
    {
      layers := layers + {layer};
    }

    /** `drawnItems.removeLayer(layer)` */
    method RemoveLayer(layer: Layer)
      modifies this
      ensures layers == old(layers) - {layer}
    {
      layers := layers - {layer};
    }
  }

  /** A shape on the map: an opaque geometry and, once it has a feature, its properties. */
  class Layer {
    var geometry: Geometry
    /** `layer.feature.properties`; `None` while the layer has no feature. */
    var props: Option<Props>

    constructor (geometry: Geometry, props: Option<Props>)
      ensures this.geometry == geometry && this.props == props
    {
      this.geometry := geometry;
      this.props := props;
    }

    /** `getLayerProps(layer)`: a copy of the properties, or an empty bag. */
    function Props(): (p: Props)
      reads this
      ensures props.Some? ==> p == props.value
      ensures props.None? ==> p == map[]
    {
      if props.Some? then props.value else map[]
    }

    /**
     * `setLayerProp(layer, key, value, true)`: a layer without a feature gets
     * one with an empty bag first; then `key` is set and nothing else changes.
     */
    method SetProp(key: string, value: string)
      modifies this
      ensures props == Some(old(Props())[key := value])
      ensures geometry == old(geometry)
    {
      props := Some(Props()[key := value]);
    }
  }

  class Session {
    /** `localStorage` */
    const store: LocalStore
    /** `idToLayer`: record id to the layer shown for it. */
    var idToLayer: map<Id, Layer>
    /** `layerToId`: layer to its permanent record id. */
    var layerToId: map<Layer, Id>
    /** `drawnItems`, the feature group on the map. */
    const drawnItems: FeatureGroup

    /** A page that has just started: no layer bound, nothing drawn. */
    constructor (store: LocalStore)
      ensures this.store == store
      ensures idToLayer == map[] && layerToId == map[] && fresh(drawnItems) && drawnItems.layers == {}
      ensures Valid()
    {
      this.store := store;
      idToLayer := map[];
      layerToId := map[];
      drawnItems := new FeatureGroup();
    }

    /** Every `idToLayer` entry is mirrored by `layerToId`. */
    ghost predicate MapsBack()
      reads this
    {
      forall id :: id in idToLayer ==> idToLayer[id] in layerToId && layerToId[idToLayer[id]] == id
    }

    /** `id` is non-empty and the `recordId` property of `l` carries it. */
    static ghost predicate Labelled(l: Layer, id: Id)
      reads l
    {
      id != "" && RecordIdKey in l.Props() && l.Props()[RecordIdKey] == id
    }

    /** The binder's invariant: the tables agree, and every bound layer is labelled with its id. */
    ghost predicate Valid()
      reads this, layerToId.Keys
    {
      MapsBack() && forall l :: l in layerToId ==> Labelled(l, layerToId[l])
    }

    /** `Valid()`, except that `layer`, if bound, may not carry its id yet. */
    ghost predicate ValidExcept(layer: Layer)
      reads this, layerToId.Keys
    {
      MapsBack()
      && (layer in layerToId ==> layerToId[layer] != "")
      && forall l :: l in layerToId && l != layer ==> Labelled(l, layerToId[l])
    }

    /**
     * The change `ensureRecordId(layer)` makes to the tables: none when the
     * layer is bound; otherwise it is bound, both ways, to the `recordId` its
     * properties had or to `minted`.
     */
    twostate predicate Binds(layer: Layer, minted: Id)
      reads this, layer
    {
      layer in layerToId
      && if old(layer in layerToId) then
           layerToId == old(layerToId) && idToLayer == old(idToLayer)
         else
           var id := ChooseId(old(layer.Props()), minted);
           layerToId == old(layerToId)[layer := id] && idToLayer == old(idToLayer)[id := layer]
    }

    /**
     * `ensureRecordId(layer)`: the bound id if there is one, untouched;
     * otherwise the layer's own non-empty `recordId` or the minted id, bound
     * both ways and written into the layer's `recordId` property.
     */
    method EnsureRecordId(layer: Layer, minted: Id) returns (id: Id)
      requires ValidExcept(layer) && minted != ""
      modifies this, layer
      ensures Binds(layer, minted) && id == layerToId[layer] && id != ""
      ensures old(layer in layerToId) ==> id == old(layerToId[layer]) && layer.props == old(layer.props)
      ensures old(layer !in layerToId) ==> layer.props == Some(old(layer.Props())[RecordIdKey := id])
      ensures layer.geometry == old(layer.geometry)
      ensures ValidExcept(layer)
      ensures old(layer !in layerToId) || old(Valid()) ==> Valid()
    {
      if layer in layerToId && layerToId[layer] != "" {
        return layerToId[layer];
      }
      id := ChooseId(layer.Props(), minted);
      layerToId := layerToId[layer := id];
      idToLayer := idToLayer[id := layer];
      layer.SetProp(RecordIdKey, id);
    }

    /**
     * `setLayerProps(layer, bag)`: the properties become exactly `bag`, except
     * that `recordId` is the layer's bound id, whatever `bag` says.
     */
    method SetLayerProps(layer: Layer, bag: Props, minted: Id)
      requires ValidExcept(layer) && minted != ""
      modifies this, layer
      ensures Binds(layer, minted)
      ensures layer.props == Some(bag[RecordIdKey := layerToId[layer]])
      ensures layer.geometry == old(layer.geometry)
      ensures Valid()
    {
      var id := EnsureRecordId(layer, minted);
      layer.props := Some(bag[RecordIdKey := id]);
    }

    /**
     * `layerToFeature(layer)`: the feature of the layer's geometry whose
     * properties are exactly the layer's, `recordId` being its bound id.
     */
    method LayerToFeature(layer: Layer, minted: Id) returns (f: Feature)
      requires Valid() && minted != ""
      modifies this, layer
      ensures Binds(layer, minted)
      ensures old(layer !in layerToId) ==> layer.props == Some(old(layer.Props())[RecordIdKey := layerToId[layer]])
      ensures old(layer in layerToId) ==> layer.props == old(layer.props)
      ensures f.geometry == layer.geometry && f.properties == layer.Props()
      ensures RecordIdKey in f.properties && f.properties[RecordIdKey] == layerToId[layer]
      ensures layer.geometry == old(layer.geometry)
      ensures Valid()
    {
      // toGeoJSON() copies the feature's properties, or gives an empty bag
      var exported := layer.Props();
      var id := EnsureRecordId(layer, minted);
      var curr := layer.Props();
      f := Feature(layer.geometry, exported[RecordIdKey := id] + curr);
      assert exported.Keys <= curr.Keys;
      assert f.properties == curr;
    }

    /**
     * `featureToLayer(feature)`: a new layer of the feature's geometry, bound
     * both ways to the feature's `recordId` or, lacking one, to `minted`, and
     * carrying the feature's properties with that `recordId`.
     */
    method FeatureToLayer(feature: Feature, minted: Id) returns (layer: Layer)
      requires Valid() && minted != ""
      modifies this
      ensures fresh(layer) && layer.geometry == feature.geometry
      ensures var id := ChooseId(feature.properties, minted);
        layerToId == old(layerToId)[layer := id] && idToLayer == old(idToLayer)[id := layer]
        && layer.props == Some(feature.properties[RecordIdKey := id])
      ensures Valid()
    {
      layer := new Layer(feature.geometry, Some(feature.properties));
      var id := ChooseId(feature.properties, minted);
      layerToId := layerToId[layer := id];
      idToLayer := idToLayer[id := layer];
      // the bound id is found, so nothing further is minted here
      SetLayerProps(layer, feature.properties, minted);
    }

    /**
     * `saveLayerRecord(layer, patch)`. The layer is bound; a non-empty patch is
     * merged into its properties; its `popupHTML` is refreshed; its feature is
     * stamped against what the store holds under its id and, unless that entry
     * does not parse, written back and the id upserted into the index. The
     * closing list render then reads every indexed entry: the save reports
     * `ListAborted` when one of them does not parse, after its writes.
     */
    method SaveLayerRecord(layer: Layer, patch: Props, now: string, minted: Id) returns (r: Result<Record, SaveError>)
      requires Valid() && minted != ""
      modifies this, layer, store
      ensures Binds(layer, minted) && layerToId[layer] != ""
      ensures layer.props == Some(SavedProps(old(layer.Props()), patch, layerToId[layer]))
      ensures var id := layerToId[layer];
        var stamped := Stamp(EntryFor(old(store.blobs), id), id, Feature(layer.geometry, layer.Props()), now);
        && (stamped.Failure? ==> r == stamped && store.blobs == old(store.blobs) && store.index == old(store.index))
        && (stamped.Success? ==>
              && store.blobs == old(store.blobs)[id := Parsed(stamped.value)]
              && store.GetIndex() == Upserted(old(store.GetIndex()), id)
              && stamped.value.feature.properties[RecordIdKey] == id
              && (r.Success? <==> !Listing.SomeUnparsable(store.GetIndex(), store.blobs))
              && (r.Success? ==> r == stamped)
              && (r.Failure? ==> r.error == ListAborted(Listing.ListRecords(store.GetIndex(), store.blobs).error.id)))
      ensures old(store.Consistent()) ==> store.Consistent()
      ensures old(WellKeyed(store.blobs)) ==> WellKeyed(store.blobs)
      ensures layer.geometry == old(layer.geometry)
      ensures Valid()
    {
      var id, feature := PrepareForSave(layer, patch, minted);
      r := store.Save(id, feature, now);
      assert Valid();
      if r.Success? {
        var rows := RenderRecordsList();
        if rows.Failure? {
          r := Failure(ListAborted(rows.error.id));
        }
      }
    }

    /**
     * `renderRecordsList()`: the rows the side panel shows, read from the
     * index and the stored entries; `Failure` is the `JSON.parse` throw that
     * escapes it when an indexed entry does not parse.
     */
    method RenderRecordsList() returns (rows: Result<seq<Record>, Listing.ListError>)
      ensures rows == Listing.ListRecords(store.GetIndex(), store.blobs)
    {
      rows := Listing.ListRecords(store.GetIndex(), store.blobs);
    }

    /**
     * The layer side of `saveLayerRecord(layer, patch)`, up to `layerToFeature`:
     * the bound id and the feature to store, whose properties are the layer's
     * final bag.
     */
    method PrepareForSave(layer: Layer, patch: Props, minted: Id) returns (id: Id, feature: Feature)
      requires Valid() && minted != ""
      modifies this, layer
      ensures Binds(layer, minted) && id == layerToId[layer]
      ensures layer.props == Some(SavedProps(old(layer.Props()), patch, id))
      ensures feature == Feature(layer.geometry, layer.Props())
      ensures layer.geometry == old(layer.geometry)
      ensures Valid()
    {
      id := MergePatch(layer, patch, minted);
      ghost var merged := layer.Props();
      var popup := Html.PopupHtml(layer.Props(), id);
      layer.SetProp(PopupKey, popup);
      assert Labelled(layer, id) by {
        assert layer.Props() == merged[PopupKey := popup];
        assert PopupKey != RecordIdKey;
      }
      feature := LayerToFeature(layer, minted);
    }

    /**
     * The first steps of `saveLayerRecord(layer, patch)`: the layer is bound
     * and, when the patch is non-empty, the patch is merged into its
     * properties, its keys winning and `recordId` staying the bound id.
     */
    method MergePatch(layer: Layer, patch: Props, minted: Id) returns (id: Id)
      requires Valid() && minted != ""
      modifies this, layer
      ensures Binds(layer, minted) && id == layerToId[layer]
      ensures var bound := old(layer.Props())[RecordIdKey := id];
        layer.props == Some(if |patch| > 0 then Merge(bound, patch, id) else bound)
      ensures layer.geometry == old(layer.geometry)
      ensures Valid()
    {
      id := EnsureRecordId(layer, minted);
      ghost var bound := layer.Props();
      assert bound == old(layer.Props())[RecordIdKey := id];
      if |patch| > 0 {
        SetLayerProps(layer, layer.Props() + patch, minted);
      } else {
        assert layer.props == Some(bound);
      }
    }

    /**
     * `deleteLayerRecordById(id)`: the entry and every index occurrence of the
     * id go, and a layer shown for it leaves the map and `idToLayer`. The
     * closing list render is returned: `Failure` is the throw that escapes
     * the deletion, after its writes, when a remaining entry does not parse.
     */
    method DeleteLayerRecordById(id: Id) returns (rows: Result<seq<Record>, Listing.ListError>)
      requires Valid()
      modifies this, store, drawnItems
      ensures store.blobs == old(store.blobs) - {id}
      ensures store.GetIndex() == Without(old(store.GetIndex()), id)
      ensures idToLayer == old(idToLayer) - {id} && layerToId == old(layerToId)
      ensures drawnItems.layers == if id in old(idToLayer) then old(drawnItems.layers) - {old(idToLayer)[id]} else old(drawnItems.layers)
      ensures id !in old(store.blobs) && id !in old(store.GetIndex()) && id !in old(idToLayer) ==>
        store.blobs == old(store.blobs) && store.GetIndex() == old(store.GetIndex())
        && idToLayer == old(idToLayer)
      ensures old(store.Consistent()) ==> store.Consistent()
      ensures old(WellKeyed(store.blobs)) ==> WellKeyed(store.blobs)
      ensures rows == Listing.ListRecords(store.GetIndex(), store.blobs)
      ensures rows.Failure? <==> Listing.SomeUnparsable(Without(old(store.GetIndex()), id), old(store.blobs) - {id})
      ensures Valid()
    {
      store.Delete(id);
      Forget(id);
      rows := RenderRecordsList();
    }

    /** The map side of `deleteLayerRecordById(id)`: the layer shown for `id` leaves the map and `idToLayer`. */
    method Forget(id: Id)
      requires Valid()
      modifies this, drawnItems
      ensures idToLayer == old(idToLayer) - {id} && layerToId == old(layerToId)
      ensures drawnItems.layers == if id in old(idToLayer) then old(drawnItems.layers) - {old(idToLayer)[id]} else old(drawnItems.layers)
      ensures Valid()
    {
      if id in idToLayer {
        var layer := idToLayer[id];
        drawnItems.RemoveLayer(layer);
        idToLayer := idToLayer - {id};
      }
    }

    /**
     * The layers `loaded` show the plan `plan`, position by position: same
     * geometry, the planned properties with the planned `recordId`, bound in
     * `bindings` to the planned id, which is among `shown`.
     */
    static ghost predicate Shows(loaded: seq<Layer>, plan: seq<Loaded>, bindings: map<Layer, Id>, shown: set<Id>)
      reads loaded
    {
      |loaded| == |plan|
      && forall k :: 0 <= k < |loaded| ==>
           loaded[k].geometry == plan[k].feature.geometry
           && loaded[k].props == Some(plan[k].feature.properties[RecordIdKey := plan[k].id])
           && loaded[k] in bindings && bindings[loaded[k]] == plan[k].id
           && plan[k].id in shown
    }

    /** Showing a plan survives new bindings that keep the old ones. */
    static lemma ShowsGrow(loaded: seq<Layer>, plan: seq<Loaded>, bindings: map<Layer, Id>, shown: set<Id>,
                           bindings': map<Layer, Id>, shown': set<Id>)
      requires Shows(loaded, plan, bindings, shown)
      requires forall l :: l in bindings ==> l in bindings' && bindings'[l] == bindings[l]
      requires shown <= shown'
      ensures Shows(loaded, plan, bindings', shown')
    {
    }

    /** Layers showing two plans, side by side, show the concatenated plan. */
    static lemma ShowsAppend(loaded: seq<Layer>, plan: seq<Loaded>, step: seq<Layer>, planned: seq<Loaded>,
                             bindings: map<Layer, Id>, shown: set<Id>)
      requires Shows(loaded, plan, bindings, shown) && Shows(step, planned, bindings, shown)
      ensures Shows(loaded + step, plan + planned, bindings, shown)
    {
      forall k | 0 <= k < |loaded + step|
        ensures (loaded + step)[k] == if k < |loaded| then loaded[k] else step[k - |loaded|]
        ensures (plan + planned)[k] == if k < |loaded| then plan[k] else planned[k - |loaded|]
      {
      }
    }

    /**
     * `idToLayer` once `featureToLayer` has bound each planned id, in plan
     * order, to the layer at its position, starting from `table`: a later
     * position with the same id overwrites an earlier one.
     */
    static function Rebind(table: map<Id, Layer>, plan: seq<Loaded>, loaded: seq<Layer>): map<Id, Layer>
      requires |plan| == |loaded|
      decreases |plan|
    {
      if plan == [] then table
      else Rebind(table, plan[..|plan| - 1], loaded[..|plan| - 1])[plan[|plan| - 1].id := loaded[|plan| - 1]]
    }

    /** Rebinding adds exactly the planned ids to those already bound. */
    static lemma {:induction false} RebindKeys(table: map<Id, Layer>, plan: seq<Loaded>, loaded: seq<Layer>)
      requires |plan| == |loaded|
      ensures Rebind(table, plan, loaded).Keys == table.Keys + PlanIds(plan)
      decreases |plan|
    {
      if plan != [] {
        var n := |plan| - 1;
        RebindKeys(table, plan[..n], loaded[..n]);
        assert plan == plan[..n] + [plan[n]];
        PlanIdsAppend(plan[..n], [plan[n]]);
        assert PlanIds([plan[n]]) == {plan[n].id};
      }
    }

    /** The last plan position is bound after all the others. */
    static lemma RebindLastStep(table: map<Id, Layer>, plan: seq<Loaded>, loaded: seq<Layer>)
      requires |plan| == |loaded| && plan != []
      ensures Rebind(table, plan, loaded)
              == Rebind(table, plan[..|plan| - 1], loaded[..|plan| - 1])[plan[|plan| - 1].id := loaded[|plan| - 1]]
    {
    }

    /** Rebinding along two plans in turn is rebinding along the concatenated plan. */
    static lemma {:induction false} RebindAppend(table: map<Id, Layer>, plan: seq<Loaded>, loaded: seq<Layer>,
                                                 planned: seq<Loaded>, step: seq<Layer>)
      requires |plan| == |loaded| && |planned| == |step|
      ensures Rebind(table, plan + planned, loaded + step) == Rebind(Rebind(table, plan, loaded), planned, step)
      decreases |planned|
    {
      if planned == [] {
        assert plan + planned == plan && loaded + step == loaded;
      } else {
        var n := |planned| - 1;
        var whole, layers := plan + planned, loaded + step;
        var m := |plan| + n;
        assert whole[..m] == plan + planned[..n] && whole[m] == planned[n];
        assert layers[..m] == loaded + step[..n] && layers[m] == step[n];
        var before := Rebind(table, plan + planned[..n], loaded + step[..n]);
        RebindLastStep(table, whole, layers);
        assert Rebind(table, whole, layers) == before[planned[n].id := step[n]];
        RebindAppend(table, plan, loaded, planned[..n], step[..n]);
        assert before == Rebind(Rebind(table, plan, loaded), planned[..n], step[..n]);
      }
    }

    /** The id of the last plan position carrying it is bound to that position's layer. */
    static lemma {:induction false} RebindLast(table: map<Id, Layer>, plan: seq<Loaded>, loaded: seq<Layer>, k: nat)
      requires |plan| == |loaded| && k < |plan|
      requires forall j :: k < j < |plan| ==> plan[j].id != plan[k].id
      ensures plan[k].id in Rebind(table, plan, loaded) && Rebind(table, plan, loaded)[plan[k].id] == loaded[k]
      decreases |plan|
    {
      var n := |plan| - 1;
      if k < n {
        RebindLast(table, plan[..n], loaded[..n], k);
      }
    }

    /** An id no plan position carries keeps its entry. */
    static lemma {:induction false} RebindOthers(table: map<Id, Layer>, plan: seq<Loaded>, loaded: seq<Layer>, id: Id)
      requires |plan| == |loaded| && id in table && id !in PlanIds(plan)
      ensures id in Rebind(table, plan, loaded) && Rebind(table, plan, loaded)[id] == table[id]
      decreases |plan|
    {
      if plan != [] {
        var n := |plan| - 1;
        assert plan[n] in plan;
        assert PlanIds(plan[..n]) <= PlanIds(plan) by {
          forall x | x in plan[..n] ensures x in plan { }
        }
        RebindOthers(table, plan[..n], loaded[..n], id);
      }
    }

    /**
     * Loading `plan` took the page from `bindings` as `layerToId`, `table` as
     * `idToLayer` and `onMap` on the map to `bindings'`, `table'` and
     * `onMap'`: the layers `loaded` show the plan, they are exactly the new
     * bindings (the old ones are kept) and the new shapes on the map, and
     * `idToLayer` is rebound along the plan.
     */
    static ghost predicate Loads(loaded: seq<Layer>, plan: seq<Loaded>,
                                 bindings: map<Layer, Id>, table: map<Id, Layer>, onMap: set<Layer>,
                                 bindings': map<Layer, Id>, table': map<Id, Layer>, onMap': set<Layer>)
      reads loaded
    {
      Shows(loaded, plan, bindings', table'.Keys)
      && (forall l :: l in bindings ==> l in bindings' && bindings'[l] == bindings[l])
      && bindings'.Keys == bindings.Keys + (set l | l in loaded)
      && table' == Rebind(table, plan, loaded)
      && onMap' == onMap + (set l | l in loaded)
    }

    /** Loading nothing changes nothing. */
    static lemma LoadsNothing(bindings: map<Layer, Id>, table: map<Id, Layer>, onMap: set<Layer>)
      ensures Loads([], [], bindings, table, onMap, bindings, table, onMap)
    {
      assert (set l: Layer | l in []) == {};
    }

    /** Showing one feature bound to `id` loads the one-position plan. */
    static lemma LoadsOne(layer: Layer, feature: Feature, id: Id,
                          bindings: map<Layer, Id>, table: map<Id, Layer>, onMap: set<Layer>,
                          bindings': map<Layer, Id>, table': map<Id, Layer>, onMap': set<Layer>)
      requires Shows([layer], [Loaded(feature, id)], bindings', table'.Keys)
      requires forall l :: l in bindings ==> l in bindings' && bindings'[l] == bindings[l]
      requires bindings'.Keys == bindings.Keys + {layer}
      requires table' == table[id := layer]
      requires onMap' == onMap + {layer}
      ensures Loads([layer], [Loaded(feature, id)], bindings, table, onMap, bindings', table', onMap')
    {
      assert (set l | l in [layer]) == {layer};
      assert [Loaded(feature, id)][..0] == [] && [layer][..0] == [];
    }

    /** Loading one plan and then another loads the concatenated plan. */
    static lemma LoadsAppend(loaded: seq<Layer>, plan: seq<Loaded>, step: seq<Layer>, planned: seq<Loaded>,
                             bindings: map<Layer, Id>, table: map<Id, Layer>, onMap: set<Layer>,
                             bindings': map<Layer, Id>, table': map<Id, Layer>, onMap': set<Layer>,
                             bindings'': map<Layer, Id>, table'': map<Id, Layer>, onMap'': set<Layer>)
      requires Loads(loaded, plan, bindings, table, onMap, bindings', table', onMap')
      requires Loads(step, planned, bindings', table', onMap', bindings'', table'', onMap'')
      ensures Loads(loaded + step, plan + planned, bindings, table, onMap, bindings'', table'', onMap'')
    {
      RebindKeys(table', planned, step);
      ShowsGrow(loaded, plan, bindings', table'.Keys, bindings'', table''.Keys);
      ShowsAppend(loaded, plan, step, planned, bindings'', table''.Keys);
      RebindAppend(table, plan, loaded, planned, step);
      LayersAppend(loaded, bindings, onMap, bindings', onMap', step, bindings'', onMap'');
    }

    /** The bookkeeping of bindings and shapes on the map in `LoadsAppend`. */
    static lemma LayersAppend(loaded: seq<Layer>, bindings: map<Layer, Id>, onMap: set<Layer>,
                              bindings': map<Layer, Id>, onMap': set<Layer>,
                              step: seq<Layer>, bindings'': map<Layer, Id>, onMap'': set<Layer>)
      requires forall l :: l in bindings ==> l in bindings' && bindings'[l] == bindings[l]
      requires bindings'.Keys == bindings.Keys + (set l | l in loaded)
      requires onMap' == onMap + (set l | l in loaded)
      requires forall l :: l in bindings' ==> l in bindings'' && bindings''[l] == bindings'[l]
      requires bindings''.Keys == bindings'.Keys + (set l | l in step)
      requires onMap'' == onMap' + (set l | l in step)
      ensures forall l :: l in bindings ==> l in bindings'' && bindings''[l] == bindings[l]
      ensures bindings''.Keys == bindings.Keys + (set l | l in loaded + step)
      ensures onMap'' == onMap + (set l | l in loaded + step)
    {
      assert (set l | l in loaded + step) == (set l | l in loaded) + (set l | l in step);
    }

    /** The binder valid, in the state after the first `n` index positions of `loadAllRecords`, from a start in `bindings0`, `table0`, `onMap0`. */
    ghost predicate LoadedSoFar(ids: seq<Id>, reconstructs: Geometry -> bool, minted: seq<Id>, n: nat, loaded: seq<Layer>,
                                bindings0: map<Layer, Id>, table0: map<Id, Layer>, onMap0: set<Layer>)
      requires |minted| == |ids| && n <= |ids|
      reads this, layerToId.Keys, store, drawnItems, loaded
    {
      Valid()
      && Loads(loaded, LoadPrefix(ids, store.blobs, reconstructs, minted, n),
            bindings0, table0, onMap0, layerToId, idToLayer, drawnItems.layers)
    }

    /** One turn of the `loadAllRecords` loop: position `n` is loaded or skipped. */
    method LoadNext(ids: seq<Id>, reconstructs: Geometry -> bool, minted: seq<Id>, n: nat, loaded: seq<Layer>,
                    ghost bindings0: map<Layer, Id>, ghost table0: map<Id, Layer>, ghost onMap0: set<Layer>)
      returns (loaded': seq<Layer>)
      requires |minted| == |ids| && n < |ids| && minted[n] != ""
      requires LoadedSoFar(ids, reconstructs, minted, n, loaded, bindings0, table0, onMap0)
      modifies this, drawnItems
      ensures LoadedSoFar(ids, reconstructs, minted, n + 1, loaded', bindings0, table0, onMap0)
      ensures forall l :: l in loaded' ==> l in loaded || fresh(l)
    {
      ghost var before := LoadPrefix(ids, store.blobs, reconstructs, minted, n);
      ghost var bindings, table, onMap := layerToId, idToLayer, drawnItems.layers;
      var step := LoadEntry(ids[n], reconstructs, minted[n]);
      LoadsAppend(loaded, before, step, LoadOne(ids[n], store.blobs, reconstructs, minted[n]),
                  bindings0, table0, onMap0, bindings, table, onMap, layerToId, idToLayer, drawnItems.layers);
      loaded' := loaded + step;
    }

    /**
     * The `forEach` callback of `loadAllRecords` for one index id: a missing
     * or unparsable entry, or a geometry the widget cannot rebuild, leaves
     * everything as it was; otherwise the feature becomes a bound layer on the map.
     */
    method LoadEntry(id: Id, reconstructs: Geometry -> bool, minted: Id) returns (step: seq<Layer>)
      requires Valid() && minted != ""
      modifies this, drawnItems
      ensures Loads(step, LoadOne(id, store.blobs, reconstructs, minted),
                    old(layerToId), old(idToLayer), old(drawnItems.layers), layerToId, idToLayer, drawnItems.layers)
      ensures forall l :: l in step ==> fresh(l)
      ensures step == [] ==>
        layerToId == old(layerToId) && idToLayer == old(idToLayer) && drawnItems.layers == old(drawnItems.layers)
      ensures Valid()
    {
      var entry := store.Lookup(id);
      if entry.Some? && entry.value.Parsed? && reconstructs(entry.value.rec.feature.geometry) {
        var feature := entry.value.rec.feature;
        ghost var bindings, table, onMap := layerToId, idToLayer, drawnItems.layers;
        var layer := ShowFeature(feature, minted);
        step := [layer];
        LoadsOne(layer, feature, ChooseId(feature.properties, minted), bindings, table, onMap,
                 layerToId, idToLayer, drawnItems.layers);
      } else {
        step := [];
        LoadsNothing(layerToId, idToLayer, drawnItems.layers);
      }
    }

    /** The successful path of the `forEach` callback: the feature becomes a bound layer on the map. */
    method ShowFeature(feature: Feature, minted: Id) returns (layer: Layer)
      requires Valid() && minted != ""
      modifies this, drawnItems
      ensures fresh(layer)
      ensures Shows([layer], [Loaded(feature, ChooseId(feature.properties, minted))], layerToId, idToLayer.Keys)
      ensures forall l :: l in old(layerToId) ==> l in layerToId && layerToId[l] == old(layerToId)[l]
      ensures layerToId.Keys == old(layerToId).Keys + {layer}
      ensures idToLayer == old(idToLayer)[ChooseId(feature.properties, minted) := layer]
      ensures drawnItems.layers == old(drawnItems.layers) + {layer}
      ensures Valid()
    {
      layer := FeatureToLayer(feature, minted);
      drawnItems.AddLayer(layer);
    }

    /**
     * `loadAllRecords()`: for each index position in turn, a stored entry that
     * parses and whose geometry the widget rebuilds becomes a new bound layer
     * on the map; any other position is skipped and the loop goes on.
     * `reconstructs` is the widget's verdict on a geometry, and `minted[i]` is
     * the id minted at position `i` should its feature lack a `recordId`.
     * The loaded layers are new, show `LoadPlan` of the index and the
     * stored entries, and are exactly the new bindings and shapes on the map.
     */
    method LoadAllRecords(reconstructs: Geometry -> bool, minted: seq<Id>) returns (loaded: seq<Layer>)
      requires Valid()
      requires |minted| == |store.GetIndex()| && forall j :: 0 <= j < |minted| ==> minted[j] != ""
      modifies this, drawnItems
      ensures Loads(loaded, LoadPlan(store.GetIndex(), store.blobs, reconstructs, minted),
                    old(layerToId), old(idToLayer), old(drawnItems.layers), layerToId, idToLayer, drawnItems.layers)
      ensures forall l :: l in loaded ==> fresh(l)
      ensures Valid()
    {
      var ids := store.GetIndex();
      var i := 0;
      loaded := [];
      LoadsNothing(layerToId, idToLayer, drawnItems.layers);
      while i < |ids|
        invariant 0 <= i <= |ids|
        invariant LoadedSoFar(ids, reconstructs, minted, i, loaded, old(layerToId), old(idToLayer), old(drawnItems.layers))
        invariant forall l :: l in loaded ==> fresh(l)
      {
        loaded := LoadNext(ids, reconstructs, minted, i, loaded, old(layerToId), old(idToLayer), old(drawnItems.layers));
        i := i + 1;
      }
      LoadPrefixAll(ids, store.blobs, reconstructs, minted);
    }
  }
}
