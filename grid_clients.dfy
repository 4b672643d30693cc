/**
 * What callers of the layout/card store can rely on, proved from the
 * store's contracts alone: the import/export round trip, idempotent
 * switching, the add-card flow of the card dialog, creating a first
 * layout, deleting the only one, upserting an edited card, a restart after
 * an import without an id, and two consequences of the single debounced
 * slot together with their corrected forms.
 */
module GridClients {
  import opened Wrappers
  import opened GridModel
  import opened GridStore

  /** `importAll(exportAll())` leaves the layouts and the current id as they were, and a consistent cache too. */
  method ImportExportRoundTrip(s: Store)
    modifies s
    ensures s.layouts == old(s.layouts) && s.currentLayoutId == old(s.currentLayoutId)
    ensures old(s.Consistent()) ==> s.Consistent() && s.currentLayout == old(s.currentLayout)
  {
    var data := s.ExportAll();
    s.ImportAll(data);
  }

  /** Switching twice to the same layout leaves the same state as switching once, and schedules no second save. */
  method SwitchLayoutTwice(s: Store, id: string)
    modifies s
    ensures old(s.currentLayoutId) == Some(id) || id !in Ids(old(s.layouts)) ==> unchanged(s)
    ensures old(s.currentLayoutId) != Some(id) && id in Ids(old(s.layouts)) ==>
              && s.layouts == old(s.layouts)
              && s.currentLayoutId == Some(id)
              && s.currentLayout == ComputeCurrent(s.layouts, Some(id))
              && s.pending == Some(Payload(None, Some(Some(id))))
              && s.stored == old(s.stored)
  {
    s.SwitchLayout(id);
    s.SwitchLayout(id);
  }

  /**
   * The add-card flow of the card dialog: a new item for the card, placed at
   * (0, 0) with size 8 x 20, appended to the cached current layout's items
   * (none when nothing is cached) and handed to `updateLayoutItems`. With no
   * current layout the new card is silently dropped.
   */
  method AddCard(s: Store, card: CardConfig)
    modifies s
    ensures NoCurrent(old(s.currentLayoutId)) ==> unchanged(s)
    ensures old(s.Consistent()) ==> s.Consistent()
    ensures old(s.Consistent()) && !NoCurrent(old(s.currentLayoutId)) ==>
              s.currentLayout.value.items == old(s.currentLayout.value.items) + [GridItem(card.id, 0, 0, 8, 20, None, None, card)]
    ensures s.currentLayoutId == old(s.currentLayoutId)
  {
    var before := if s.currentLayout.Some? then s.currentLayout.value.items else [];
    var items := before + [GridItem(card.id, 0, 0, 8, 20, None, None, card)];
    s.UpdateLayoutItems(items);
  }

  /** Starting with no layouts, `createLayout("Work")` gives exactly one empty layout named "Work", current. */
  method CreateFirstLayout(uuid: string) returns (id: string, layouts: seq<Layout>, current: Option<string>)
    ensures layouts == [Layout(id, "Work", [])]
    ensures current == Some(id) && id == LayoutId(uuid)
  {
    var s := new Store(false, Stored(None, None));
    id := s.CreateLayout("Work", uuid);
    layouts, current := s.layouts, s.currentLayoutId;
  }

  /** Deleting the only layout leaves exactly one new, empty, default-named layout under a new id. */
  method DeleteOnlyLayout(uuid: string, uuid2: string) returns (deleted: string, layouts: seq<Layout>, current: Option<string>)
    requires uuid != uuid2
    ensures |layouts| == 1 && layouts[0].id != deleted
    ensures layouts[0].name == DefaultLayoutName && layouts[0].items == []
    ensures current == Some(layouts[0].id)
  {
    var s := new Store(false, Stored(None, None));
    deleted := s.CreateLayout("Work", uuid);
    assert LayoutId(uuid)[7..] == uuid && LayoutId(uuid2)[7..] == uuid2;
    s.DeleteLayout(deleted, uuid2);
    layouts, current := s.layouts, s.currentLayoutId;
  }

  /** Upserting an edited card replaces the config of the item showing it and leaves the other items alone. */
  method UpsertEditedCard(uuid: string, a: CardConfig, other: GridItem) returns (items: seq<GridItem>)
    requires a.id != other.i
    ensures |items| == 2
    ensures items[0].i == a.id && items[0].config == a.(name := "B")
    ensures items[1] == other
  {
    var s := new Store(false, Stored(None, None));
    var id := s.CreateLayout("L1", uuid);
    var first := GridItem(a.id, 0, 0, 8, 20, None, None, a);
    s.UpdateLayoutItems([first, other]);
    s.UpsertCard(a.(name := "B"));
    items := s.currentLayout.value.items;
  }

  /**
   * The debounced slot keeps only the last payload: a switch followed, before
   * the timer fires, by a card removal never reaches storage, although the
   * store shows the new layout.
   */
  method SwitchThenRemoveCard(s: Store, id: string, cardId: string)
    requires s.api && s.Consistent() && s.currentLayoutId != Some(id)
    requires id in Ids(s.layouts) && id != ""
    modifies s
    ensures s.currentLayoutId == Some(id)
    ensures s.stored.currentLayoutId == old(s.stored.currentLayoutId)
    ensures s.pending == None
  {
    s.SwitchLayout(id);
    s.RemoveCard(cardId);
    s.Flush();
  }

  /**
   * `importAll` persists at once but leaves the pending debounced write in
   * place: when that timer fires afterwards, storage goes back to the
   * layouts scheduled before the import.
   */
  method ImportWhileSavePending(s: Store, data: GridData)
    requires s.api && s.pending.Some? && s.pending.value.layouts.Some?
    modifies s
    ensures s.layouts == data.layouts
    ensures s.stored.layouts == old(s.pending.value.layouts)
  {
    s.ImportAll(data);
    s.Flush();
  }

  /**
   * With the merging debounce, a switch followed by a layouts-only save
   * (the payload `removeCard`, `upsertCard` and `updateLayoutItems`
   * schedule), once the timer fires, stores both the new list and the new
   * current id.
   */
  method SwitchThenSaveListMerged(s: Store, id: string)
    requires s.api && s.Consistent() && s.currentLayoutId != Some(id)
    requires id in Ids(s.layouts)
    modifies s
    ensures s.currentLayoutId == Some(id)
    ensures s.stored == Stored(Some(s.layouts), Some(id))
    ensures s.pending == None
  {
    s.SwitchLayout(id);
    s.DebounceSaveMerged(Payload(Some(s.layouts), None));
    s.Flush();
    MergedSwitchSurvivesLayoutsOnlySave(old(s.stored), s.layouts, id);
  }

  /** An import that cancels the pending write stays in storage when the timer would have fired. */
  method ImportCancellingWhileSavePending(s: Store, data: GridData)
    requires s.api && s.pending.Some?
    modifies s
    ensures s.layouts == data.layouts
    ensures s.stored.layouts == Some(data.layouts)
    ensures s.stored.currentLayoutId == Some(data.currentLayoutId.GetOr(""))
  {
    s.ImportAllCancelling(data);
    s.Flush();
  }

  /**
   * A list saved without a current id (an import of `{ layouts }` alone)
   * comes back at the next start with the empty id: the first layout is
   * shown, but no layout is current for the card actions, which then do
   * nothing.
   */
  method RestartAfterImportWithoutId(ls: seq<Layout>, uuid: string, items: seq<GridItem>)
    returns (current: Option<string>, shown: Option<Layout>, after: seq<Layout>)
    requires ls != [] && "" !in Ids(ls)
    ensures current == Some("") && NoCurrent(current)
    ensures shown == Some(ls[0])
    ensures after == ls
  {
    var s := new Store(true, Stored(None, None));
    s.ImportAll(GridData(ls, None));
    var saved := s.stored;
    var t := new Store(true, saved);
    t.Hydrate(uuid);
    current, shown := t.currentLayoutId, t.currentLayout;
    t.UpdateLayoutItems(items);
    after := t.layouts;
  }
}
