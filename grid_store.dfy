/**
 * The layout/card store of src/renderer/src/store/grid.ts as an object:
 * the state fields `layouts`, `currentLayoutId` and the cached
 * `currentLayout`, the single pending debounced write, and the two
 * key-value entries the repository writes. Every action is a method that
 * states the whole new state.
 */
module GridStore {
  import opened Wrappers
  import opened GridModel

  /** `!currentLayoutId`: both `undefined` and the empty id count as "no current layout". */
  predicate NoCurrent(id: Option<string>) {
    id.None? || id.value == ""
  }

  /** What an in-place edit does to the cached current layout. */
  function EditedCurrent(current: Option<Layout>, e: Edit): Option<Layout> {
    match current
    case None => None
    case Some(l) => Some(ApplyEdit(l, e))
  }

  class Store {
    var layouts: seq<Layout>
    var currentLayoutId: Option<string>
    var currentLayout: Option<Layout>
    /** The payload of the one scheduled debounced write, if a timer is pending. */
    var pending: Option<Payload>
    /** The `layouts` and `currentLayoutId` entries of the key-value store. */
    var stored: Stored
    /** Whether `window.api.storeSet` / `storeGet` exist and succeed. */
    const api: bool

    /** The store as created, before hydration: no layouts, no current layout, nothing scheduled. */
    constructor (api: bool, stored: Stored)
      ensures this.api == api && this.stored == stored
      ensures layouts == [] && currentLayoutId == None && currentLayout == None && pending == None
    {
      this.api := api;
      this.stored := stored;
      layouts := [];
      currentLayoutId := None;
      currentLayout := None;
      pending := None;
    }

    /** The cached layout is the lookup of the current id. */
    ghost predicate Synced()
      reads this
    {
      currentLayout == ComputeCurrent(layouts, currentLayoutId)
    }

    /** The data-model invariant: the current id names a layout, and the cache agrees with it. */
    ghost predicate Consistent()
      reads this
    {
      Synced() && currentLayoutId.Some? && currentLayoutId.value in Ids(layouts)
    }

    /** `debounceSave`: the new payload replaces whatever write was pending. */
    method DebounceSave(p: Payload)
      modifies this`pending
      ensures pending == Some(p)
    {
      pending := Some(p);
    }

    /** The batching debounce the comment on `debounceSave` describes: the new payload is merged into the pending one. */
    method DebounceSaveMerged(p: Payload)
      modifies this`pending
      ensures pending == Some(MergePayload(old(pending), p))
    {
      pending := Some(MergePayload(pending, p));
    }

    /** The debounce timer fires: the last scheduled payload, and only it, is persisted. */
    method Flush()
      modifies this`stored, this`pending
      ensures pending == None
      ensures old(pending).None? ==> stored == old(stored)
      ensures old(pending).Some? ==> stored == Persist(api, old(stored), old(pending).value)
    {
      if pending.Some? {
        stored := Persist(api, stored, pending.value);
        pending := None;
      }
    }

    /**
     * `createLayout`: appends one empty layout with a fresh id and the
     * sanitised name, makes it current and returns its id.
     */
    method CreateLayout(name: string, uuid: string) returns (id: string)
      requires LayoutId(uuid) !in Ids(layouts)
      modifies this
      ensures id == LayoutId(uuid)
      ensures layouts == old(layouts) + [Layout(id, SanitizeName(name), [])]
      ensures Ids(layouts) == Ids(old(layouts)) + {id}
      ensures currentLayoutId == Some(id) && currentLayout == Some(Layout(id, SanitizeName(name), []))
      ensures Consistent()
      ensures pending == Some(Payload(Some(layouts), Some(Some(id))))
      ensures stored == old(stored)
    {
      var l := DefaultLayout(uuid);
      l := l.(name := SanitizeName(name));
      var next := layouts + [l];
      ComputeCurrentOfAppended(layouts, l);
      layouts, currentLayoutId, currentLayout := next, Some(l.id), Some(l);
      DebounceSave(Payload(Some(next), Some(Some(l.id))));
      id := l.id;
    }

    /**
     * `renameLayout`: every layout with the id gets the sanitised name; the
     * cache is recomputed and the whole list is scheduled for saving (also
     * when no layout has the id).
     */
    method RenameLayout(id: string, name: string)
      modifies this
      ensures layouts == EditWhere(old(layouts), id, Rename(name))
      ensures Ids(layouts) == Ids(old(layouts))
      ensures currentLayoutId == old(currentLayoutId)
      ensures Synced()
      ensures old(currentLayoutId) == Some(id) ==>
                currentLayout == EditedCurrent(ComputeCurrent(old(layouts), old(currentLayoutId)), Rename(name))
      ensures old(currentLayoutId) != Some(id) ==> currentLayout == ComputeCurrent(old(layouts), old(currentLayoutId))
      ensures old(Consistent()) ==> Consistent()
      ensures pending == Some(Payload(Some(layouts), Some(currentLayoutId)))
      ensures stored == old(stored)
    {
      var next := EditWhere(layouts, id, Rename(name));
      EditWhereKeepsIds(layouts, id, Rename(name));
      EditWhereCurrent(layouts, id, Rename(name), currentLayoutId);
      var nextCurrent := ComputeCurrent(next, currentLayoutId);
      layouts, currentLayout := next, nextCurrent;
      DebounceSave(Payload(Some(next), Some(currentLayoutId)));
    }

    /**
     * `deleteLayout`: removes every layout with the id. The list never ends
     * up empty: deleting the last layout installs a fresh default one. The
     * current layout stays current if it survived; otherwise the first
     * remaining layout becomes current.
     */
    method DeleteLayout(id: string, uuid: string)
      requires LayoutId(uuid) !in Ids(layouts)
      modifies this
      ensures layouts != [] && Consistent()
      ensures WithoutLayout(old(layouts), id) == [] ==>
                layouts == [DefaultLayout(uuid)] && currentLayoutId == Some(LayoutId(uuid))
      ensures WithoutLayout(old(layouts), id) != [] ==> layouts == WithoutLayout(old(layouts), id)
      ensures (WithoutLayout(old(layouts), id) != [] && old(currentLayoutId).Some? &&
               old(currentLayoutId).value in Ids(layouts)) ==> currentLayoutId == old(currentLayoutId)
      ensures WithoutLayout(old(layouts), id) != [] &&
              (old(currentLayoutId).None? || old(currentLayoutId).value !in Ids(layouts)) ==>
                currentLayoutId == Some(layouts[0].id)
      ensures id in Ids(old(layouts)) ==> id !in Ids(layouts)
      ensures pending == Some(Payload(Some(layouts), Some(currentLayoutId)))
      ensures stored == old(stored)
    {
      var filtered := WithoutLayout(layouts, id);
      if filtered == [] {
        var l := DefaultLayout(uuid);
        assert l in layouts + [l];
        layouts, currentLayoutId, currentLayout := [l], Some(l.id), Some(l);
        assert Ids(layouts) == {l.id};
        DebounceSave(Payload(Some([l]), Some(Some(l.id))));
        return;
      }
      var nextId := currentLayoutId;
      var nextCurrent := ComputeCurrent(filtered, nextId);
      if nextCurrent.None? || currentLayoutId == Some(id) {
        ComputeCurrentOfFirst(filtered);
        assert filtered[0] in filtered;
        nextId := Some(filtered[0].id);
        nextCurrent := Some(filtered[0]);
      }
      layouts, currentLayoutId, currentLayout := filtered, nextId, nextCurrent;
      DebounceSave(Payload(Some(filtered), Some(nextId)));
    }

    /**
     * `switchLayout`: a no-op, with nothing scheduled, when the id is
     * already current or names no layout; otherwise only the current id and
     * the cache change, and only the id is scheduled for saving.
     */
    method SwitchLayout(id: string)
      modifies this
      ensures old(currentLayoutId) == Some(id) || id !in Ids(old(layouts)) ==> unchanged(this)
      ensures old(currentLayoutId) != Some(id) && id in Ids(old(layouts)) ==>
                && layouts == old(layouts)
                && currentLayoutId == Some(id)
                && currentLayout == ComputeCurrent(layouts, Some(id))
                && pending == Some(Payload(None, Some(Some(id))))
                && stored == old(stored)
      ensures old(Consistent()) ==> Consistent()
    {
      if currentLayoutId == Some(id) {
        return;
      }
      var next := ComputeCurrent(layouts, Some(id));
      if next.None? {
        return;
      }
      currentLayoutId, currentLayout := Some(id), next;
      DebounceSave(Payload(None, Some(Some(id))));
    }

    /** The shared shape of the three card actions: rewrite the current layout, recompute the cache, save the list. */
    method EditCurrentLayout(e: Edit)
      modifies this
      ensures NoCurrent(old(currentLayoutId)) ==> unchanged(this)
      ensures !NoCurrent(old(currentLayoutId)) ==>
                && layouts == EditWhere(old(layouts), old(currentLayoutId).value, e)
                && currentLayoutId == old(currentLayoutId)
                && currentLayout == EditedCurrent(ComputeCurrent(old(layouts), old(currentLayoutId)), e)
                && Synced()
                && pending == Some(Payload(Some(layouts), None))
                && stored == old(stored)
      ensures Ids(layouts) == Ids(old(layouts))
      ensures old(Consistent()) ==> Consistent()
    {
      if NoCurrent(currentLayoutId) {
        return;
      }
      var cur := currentLayoutId.value;
      var next := EditWhere(layouts, cur, e);
      EditWhereKeepsIds(layouts, cur, e);
      EditWhereCurrent(layouts, cur, e, currentLayoutId);
      layouts, currentLayout := next, ComputeCurrent(next, currentLayoutId);
      DebounceSave(Payload(Some(next), None));
    }

    /**
     * `updateLayoutItems`: without a current id, nothing happens; otherwise
     * the current layout's items become `items` and no other layout changes.
     */
    method UpdateLayoutItems(items: seq<GridItem>)
      modifies this
      ensures NoCurrent(old(currentLayoutId)) ==> unchanged(this)
      ensures !NoCurrent(old(currentLayoutId)) ==>
                && |layouts| == |old(layouts)|
                && (forall k :: 0 <= k < |layouts| && old(layouts)[k].id == old(currentLayoutId).value ==>
                      layouts[k] == old(layouts)[k].(items := items))
                && (forall k :: 0 <= k < |layouts| && old(layouts)[k].id != old(currentLayoutId).value ==>
                      layouts[k] == old(layouts)[k])
                && currentLayoutId == old(currentLayoutId)
                && Synced()
                && (old(Consistent()) ==> currentLayout.Some? && currentLayout.value.items == items)
                && pending == Some(Payload(Some(layouts), None))
                && stored == old(stored)
      ensures old(Consistent()) ==> Consistent()
    {
      EditCurrentLayout(SetItems(items));
    }

    /**
     * `upsertCard`: never inserts or removes an item. In the current layout
     * every item whose `i` is the card's id gets the card (name cut to 32
     * characters) as its config; every other item and every other layout
     * is unchanged.
     */
    method UpsertCard(card: CardConfig)
      modifies this
      ensures NoCurrent(old(currentLayoutId)) ==> unchanged(this)
      ensures |layouts| == |old(layouts)|
      ensures forall k :: 0 <= k < |layouts| ==>
                layouts[k].id == old(layouts)[k].id && |layouts[k].items| == |old(layouts)[k].items|
      ensures forall k :: 0 <= k < |layouts| && Some(old(layouts)[k].id) != old(currentLayoutId) ==>
                layouts[k] == old(layouts)[k]
      ensures !NoCurrent(old(currentLayoutId)) ==>
                && (forall k :: 0 <= k < |layouts| && Some(old(layouts)[k].id) == old(currentLayoutId) ==>
                      layouts[k] == old(layouts)[k].(items := UpsertItems(old(layouts)[k].items, card)))
                && currentLayoutId == old(currentLayoutId)
                && Synced()
                && pending == Some(Payload(Some(layouts), None))
                && stored == old(stored)
      ensures forall k :: 0 <= k < |layouts| && ItemsConsistent(old(layouts)[k].items) ==>
                ItemsConsistent(layouts[k].items)
      ensures old(Consistent()) ==> Consistent()
    {
      EditCurrentLayout(Upsert(card));
      forall k | 0 <= k < |layouts| && ItemsConsistent(old(layouts)[k].items)
        ensures ItemsConsistent(layouts[k].items)
      {
        UpsertKeepsConsistent(old(layouts)[k].items, card);
      }
    }

    /**
     * `removeCard`: without a current id, nothing happens; otherwise the
     * current layout loses exactly the items whose `i` is the id, and no
     * other layout changes.
     */
    method RemoveCard(id: string)
      modifies this
      ensures NoCurrent(old(currentLayoutId)) ==> unchanged(this)
      ensures |layouts| == |old(layouts)|
      ensures forall k :: 0 <= k < |layouts| && Some(old(layouts)[k].id) != old(currentLayoutId) ==>
                layouts[k] == old(layouts)[k]
      ensures !NoCurrent(old(currentLayoutId)) ==>
                && (forall k :: 0 <= k < |layouts| && Some(old(layouts)[k].id) == old(currentLayoutId) ==>
                      layouts[k] == old(layouts)[k].(items := DropItems(old(layouts)[k].items, id)))
                && currentLayoutId == old(currentLayoutId)
                && Synced()
                && pending == Some(Payload(Some(layouts), None))
                && stored == old(stored)
      ensures old(Consistent()) ==> Consistent()
    {
      EditCurrentLayout(DropCard(id));
    }

    /**
     * `importAll`: replaces both fields wholesale, caches the matching
     * layout or else the first, and persists at once, bypassing (and not
     * cancelling) the pending debounced write.
     */
    method ImportAll(data: GridData)
      modifies this
      ensures layouts == data.layouts && currentLayoutId == data.currentLayoutId
      ensures currentLayout == CurrentOrFirst(data.layouts, data.currentLayoutId)
      ensures stored == Persist(api, old(stored), Payload(Some(data.layouts), Some(data.currentLayoutId)))
      ensures pending == old(pending)
    {
      layouts, currentLayoutId := data.layouts, data.currentLayoutId;
      currentLayout := CurrentOrFirst(data.layouts, data.currentLayoutId);
      stored := Persist(api, stored, Payload(Some(data.layouts), Some(data.currentLayoutId)));
    }

    /** `importAll` that also cancels the pending debounced write, so that no older payload can overwrite the import. */
    method ImportAllCancelling(data: GridData)
      modifies this
      ensures layouts == data.layouts && currentLayoutId == data.currentLayoutId
      ensures currentLayout == CurrentOrFirst(data.layouts, data.currentLayoutId)
      ensures stored == Persist(api, old(stored), Payload(Some(data.layouts), Some(data.currentLayoutId)))
      ensures pending == None
    {
      ImportAll(data);
      pending := None;
    }

    /** `exportAll`: the two persisted fields, as they are in memory. */
    method ExportAll() returns (data: GridData)
      ensures data.layouts == layouts && data.currentLayoutId == currentLayoutId
    {
      data := GridData(layouts, currentLayoutId);
    }

    /**
     * The startup hydrate assignment: the stored list with the stored id
     * (or the first layout's), caching the matching layout or else the
     * first; with nothing usable stored, one fresh default layout. It
     * overwrites whatever the actions did before it.
     */
    method Hydrate(uuid: string)
      modifies this
      ensures HydrateRead(api, stored).Some? ==>
                && layouts == HydrateRead(api, stored).value.layouts
                && currentLayoutId == HydratedId(HydrateRead(api, stored).value)
                && currentLayout == CurrentOrFirst(layouts, currentLayoutId)
      ensures HydrateRead(api, stored).None? ==>
                layouts == [DefaultLayout(uuid)] && currentLayoutId == Some(LayoutId(uuid)) && Consistent()
      ensures layouts != [] && currentLayout.Some?
      ensures pending == old(pending) && stored == old(stored)
    {
      var data := HydrateRead(api, stored);
      if data.Some? {
        var id := HydratedId(data.value);
        layouts, currentLayoutId := data.value.layouts, id;
        currentLayout := CurrentOrFirst(data.value.layouts, id);
      } else {
        var l := DefaultLayout(uuid);
        assert l in [l];
        layouts, currentLayoutId, currentLayout := [l], Some(l.id), Some(l);
      }
    }
  }
}
