/**
 * The values behind the layout/card store (src/renderer/src/store/grid.ts):
 * cards, grid items and layouts, and the pure next-state computations the
 * store's actions are built from (`sanitizeName`, `computeCurrent`, the
 * `layouts.map` / `filter` rewrites, `DEFAULT_LAYOUT`, and the shape of what
 * the persistence repository writes and reads back).
 */
module GridModel {
  import opened Wrappers
  import opened Seqs

  /** Longest layout name kept, and the cut applied to card names on upsert. */
  const MaxNameLen: nat := 32
  /** Name given to a layout created with an empty name ("unnamed layout"). */
  const UnnamedLayout: string := "未命名布局"
  /** Name of the layout synthesised when none exists ("default layout"). */
  const DefaultLayoutName: string := "默认布局"

  datatype AccessMode = Pc | Mobile

  /** One embedded page. */
  datatype CardConfig = CardConfig(
    id: string,
    name: string,
    url: string,
    refreshInterval: int,
    accessMode: AccessMode,
    targetSelector: Option<string>,
    zoomFactor: Option<real>)

  /** One placed cell of a grid, embedding the card it shows. */
  datatype GridItem = GridItem(
    i: string,
    x: int, y: int, w: int, h: int,
    isDraggable: Option<bool>,
    isResizable: Option<bool>,
    config: CardConfig)

  datatype Layout = Layout(id: string, name: string, items: seq<GridItem>)

  /** The document exported and imported as JSON: `{ layouts, currentLayoutId? }`. */
  datatype GridData = GridData(layouts: seq<Layout>, currentLayoutId: Option<string>)

  function Min(a: nat, b: nat): nat { if a <= b then a else b }

  /** `s.slice(0, n)` */
  function Prefix(s: string, n: nat): (r: string)
    ensures |r| == Min(|s|, n) && r <= s
  {
    if |s| <= n then s else s[..n]
  }

  /**
   * `sanitizeName`: the first 32 characters of the name, or the placeholder
   * when that is empty. Nothing is trimmed, so a blank name is kept.
   */
  function SanitizeName(name: string): (r: string)
    ensures 0 < |r| <= MaxNameLen
    ensures name != [] ==> r <= name && |r| == Min(|name|, MaxNameLen)
    ensures name == [] ==> r == UnnamedLayout
  {
    var cut := Prefix(name, MaxNameLen);
    if cut == [] then UnnamedLayout else cut
  }

  /** Sanitising a sanitised name changes nothing. */
  lemma SanitizeNameIdempotent(name: string)
    ensures SanitizeName(SanitizeName(name)) == SanitizeName(name)
  {
    var r := SanitizeName(name);
    assert Prefix(r, MaxNameLen) == r;
  }

  /** The names `sanitizeName` leaves alone are exactly the non-empty names of at most 32 characters. */
  lemma SanitizeNameFixedPoints(name: string)
    ensures SanitizeName(name) == name <==> 0 < |name| <= MaxNameLen
  {
  }

  /** The set of ids carried by a list of layouts. */
  function Ids(ls: seq<Layout>): set<string> {
    set l | l in ls :: l.id
  }

  /** Index of the first layout with the given id (what `Array.prototype.find` stops at). */
  function FindIndex(ls: seq<Layout>, id: string): (k: Option<nat>)
    ensures k.Some? ==> k.value < |ls| && ls[k.value].id == id
    ensures k.Some? ==> forall j :: 0 <= j < k.value ==> ls[j].id != id
    ensures k.None? <==> id !in Ids(ls)
    decreases |ls|
  {
    if ls == [] then None
    else if ls[0].id == id then Some(0)
    else
      assert forall l :: l in ls[1..] ==> l in ls;
      assert forall l :: l in ls ==> l == ls[0] || l in ls[1..];
      match FindIndex(ls[1..], id)
      case None => None
      case Some(k) => Some(k + 1)
  }

  /**
   * `computeCurrent`: the first layout whose id is `id`. An absent id
   * (`undefined`) matches no layout.
   */
  function ComputeCurrent(ls: seq<Layout>, id: Option<string>): (r: Option<Layout>)
    ensures r.None? <==> id.None? || id.value !in Ids(ls)
    ensures r.Some? ==> exists k :: 0 <= k < |ls| && ls[k] == r.value && ls[k].id == id.value
                                   && forall j :: 0 <= j < k ==> ls[j].id != id.value
  {
    match id
    case None => None
    case Some(s) =>
      match FindIndex(ls, s)
      case None => None
      case Some(k) => Some(ls[k])
  }

  /** The first layout of a list is what looking up its own id finds. */
  lemma ComputeCurrentOfFirst(ls: seq<Layout>)
    requires ls != []
    ensures ComputeCurrent(ls, Some(ls[0].id)) == Some(ls[0])
  {
  }

  /** A layout appended under an id the list does not hold is what its id finds. */
  lemma ComputeCurrentOfAppended(ls: seq<Layout>, l: Layout)
    requires l.id !in Ids(ls)
    ensures Ids(ls + [l]) == Ids(ls) + {l.id}
    ensures ComputeCurrent(ls + [l], Some(l.id)) == Some(l)
  {
    var all := ls + [l];
    assert forall m :: m in all <==> m in ls || m == l;
    forall j | 0 <= j < |ls| ensures all[j].id != l.id {
      assert ls[j] in ls;
    }
  }

  /** `layouts[0]`, which is `undefined` for an empty list. */
  function First(ls: seq<Layout>): (r: Option<Layout>)
    ensures r.Some? <==> ls != []
    ensures r.Some? ==> r.value == ls[0]
  {
    if ls == [] then None else Some(ls[0])
  }

  /** `DEFAULT_LAYOUT`'s id for a given `crypto.randomUUID()` value. */
  function LayoutId(uuid: string): string {
    "layout-" + uuid
  }

  /** `DEFAULT_LAYOUT()`: an empty layout with the default name. */
  function DefaultLayout(uuid: string): (l: Layout)
    ensures l.id == LayoutId(uuid) && l.name == DefaultLayoutName && l.items == []
  {
    Layout(LayoutId(uuid), DefaultLayoutName, [])
  }

  // ---------------------------------------------------------------------
  // Cards inside a layout

  /** The card as `upsertCard` stores it: its name cut to 32 characters (not defaulted). */
  function Truncated(card: CardConfig): (c: CardConfig)
    ensures c.id == card.id && |c.name| <= MaxNameLen && c.name <= card.name
    ensures |c.name| == Min(|card.name|, MaxNameLen)
    ensures c == card.(name := c.name)
  {
    card.(name := Prefix(card.name, MaxNameLen))
  }

  /** The `items.map` of `upsertCard`: every item showing `card.id` gets the (truncated) card as its config. */
  function UpsertItems(items: seq<GridItem>, card: CardConfig): (r: seq<GridItem>)
    ensures |r| == |items|
    ensures forall k :: 0 <= k < |items| && items[k].i == card.id ==>
              r[k] == items[k].(config := Truncated(card))
    ensures forall k :: 0 <= k < |items| && items[k].i != card.id ==> r[k] == items[k]
    decreases |items|
  {
    if items == [] then []
    else
      var head := if items[0].i == card.id then items[0].(config := Truncated(card)) else items[0];
      [head] + UpsertItems(items[1..], card)
  }

  /** `it.i !== id` */
  function KeepsItem(id: string): GridItem -> bool {
    (it: GridItem) => it.i != id
  }

  /** The `items.filter` of `removeCard`. */
  function DropItems(items: seq<GridItem>, id: string): (r: seq<GridItem>)
    ensures forall it :: it in r <==> it in items && it.i != id
  {
    Filter(items, KeepsItem(id))
  }

  /** Dropping keeps each surviving item as many times as it occurred, and drops every copy of the others. */
  lemma DropItemsCounts(items: seq<GridItem>, id: string)
    ensures forall it :: multiset(DropItems(items, id))[it] == if it.i != id then multiset(items)[it] else 0
  {
    FilterCounts(items, KeepsItem(id));
  }

  /** Removing the items of a card keeps the others in their order: dropping commutes with concatenation. */
  lemma DropItemsAppend(a: seq<GridItem>, b: seq<GridItem>, id: string)
    ensures DropItems(a + b, id) == DropItems(a, id) + DropItems(b, id)
  {
    FilterAppend(a, b, KeepsItem(id));
  }

  /** Every item shows the card named by its own `i` (the data-model invariant `config.id === i`). */
  ghost predicate ItemsConsistent(items: seq<GridItem>) {
    forall k :: 0 <= k < |items| ==> items[k].config.id == items[k].i
  }

  /** Upserting a card keeps the ids of the items, and keeps (or, for the touched items, establishes) `config.id == i`. */
  lemma UpsertKeepsConsistent(items: seq<GridItem>, card: CardConfig)
    ensures forall k :: 0 <= k < |items| ==> UpsertItems(items, card)[k].i == items[k].i
    ensures forall k :: 0 <= k < |items| && items[k].i == card.id ==>
              UpsertItems(items, card)[k].config.id == items[k].i
    ensures ItemsConsistent(items) ==> ItemsConsistent(UpsertItems(items, card))
  {
  }

  /** Removing a card keeps `config.id == i`. */
  lemma DropKeepsConsistent(items: seq<GridItem>, id: string)
    requires ItemsConsistent(items)
    ensures ItemsConsistent(DropItems(items, id))
  {
    var r := DropItems(items, id);
    forall k | 0 <= k < |r| ensures r[k].config.id == r[k].i {
      assert r[k] in r;
      var j :| 0 <= j < |items| && items[j] == r[k];
    }
  }

  // ---------------------------------------------------------------------
  // Rewriting the layout list

  /** What an action does to the one layout it targets. */
  datatype Edit =
    | Rename(name: string)              // renameLayout
    | SetItems(items: seq<GridItem>)    // updateLayoutItems
    | Upsert(card: CardConfig)          // upsertCard
    | DropCard(cardId: string)          // removeCard

  function ApplyEdit(l: Layout, e: Edit): (r: Layout)
    ensures r.id == l.id
    ensures e.Rename? ==> r == l.(name := SanitizeName(e.name))
    ensures !e.Rename? ==> r.name == l.name
  {
    match e
    case Rename(n) => l.(name := SanitizeName(n))
    case SetItems(items) => l.(items := items)
    case Upsert(card) => l.(items := UpsertItems(l.items, card))
    case DropCard(cid) => l.(items := DropItems(l.items, cid))
  }

  /** `layouts.map((l) => l.id === id ? edited(l) : l)` */
  function EditWhere(ls: seq<Layout>, id: string, e: Edit): (r: seq<Layout>)
    ensures |r| == |ls|
    ensures forall k :: 0 <= k < |ls| && ls[k].id == id ==> r[k] == ApplyEdit(ls[k], e)
    ensures forall k :: 0 <= k < |ls| && ls[k].id != id ==> r[k] == ls[k]
    decreases |ls|
  {
    if ls == [] then []
    else [if ls[0].id == id then ApplyEdit(ls[0], e) else ls[0]] + EditWhere(ls[1..], id, e)
  }

  /** Editing layouts in place keeps every id at its position, so the set of ids is unchanged. */
  lemma EditWhereKeepsIds(ls: seq<Layout>, id: string, e: Edit)
    ensures forall k :: 0 <= k < |ls| ==> EditWhere(ls, id, e)[k].id == ls[k].id
    ensures Ids(EditWhere(ls, id, e)) == Ids(ls)
  {
    var r := EditWhere(ls, id, e);
    forall x | x in Ids(r) ensures x in Ids(ls) {
      var l :| l in r && l.id == x;
      var k :| 0 <= k < |r| && r[k] == l;
      assert ls[k] in ls;
    }
    forall x | x in Ids(ls) ensures x in Ids(r) {
      var l :| l in ls && l.id == x;
      var k :| 0 <= k < |ls| && ls[k] == l;
      assert r[k] in r;
    }
  }

  /** After an edit, any id finds the same position as before. */
  lemma {:induction false} EditWhereFindIndex(ls: seq<Layout>, id: string, e: Edit, c: string)
    ensures FindIndex(EditWhere(ls, id, e), c) == FindIndex(ls, c)
    decreases |ls|
  {
    if ls != [] {
      var r := EditWhere(ls, id, e);
      assert r[1..] == EditWhere(ls[1..], id, e);
      EditWhereFindIndex(ls[1..], id, e, c);
    }
  }

  /**
   * After an edit, the current layout is the edited current layout when the
   * edit targeted it, and unchanged otherwise: a layout other than the
   * target is never touched.
   */
  lemma EditWhereCurrent(ls: seq<Layout>, id: string, e: Edit, c: Option<string>)
    ensures c == Some(id) ==>
      ComputeCurrent(EditWhere(ls, id, e), c) ==
        (match ComputeCurrent(ls, c) case None => None case Some(l) => Some(ApplyEdit(l, e)))
    ensures c != Some(id) ==> ComputeCurrent(EditWhere(ls, id, e), c) == ComputeCurrent(ls, c)
  {
    if c.Some? {
      EditWhereFindIndex(ls, id, e, c.value);
    }
  }

  /** `layouts.filter((l) => l.id !== id)` */
  function KeepsLayout(id: string): Layout -> bool {
    (l: Layout) => l.id != id
  }

  function WithoutLayout(ls: seq<Layout>, id: string): (r: seq<Layout>)
    ensures |r| <= |ls|
    ensures forall l :: l in r <==> l in ls && l.id != id
    ensures id !in Ids(r)
    ensures Ids(r) == Ids(ls) - {id}
  {
    Filter(ls, KeepsLayout(id))
  }

  /** Deleting keeps the survivors in their order: it commutes with concatenation. */
  lemma WithoutLayoutAppend(a: seq<Layout>, b: seq<Layout>, id: string)
    ensures WithoutLayout(a + b, id) == WithoutLayout(a, id) + WithoutLayout(b, id)
  {
    FilterAppend(a, b, KeepsLayout(id));
  }

  /** Deleting keeps each surviving layout as many times as it occurred, and drops every copy of the others. */
  lemma WithoutLayoutCounts(ls: seq<Layout>, id: string)
    ensures forall l :: multiset(WithoutLayout(ls, id))[l] == if l.id != id then multiset(ls)[l] else 0
  {
    FilterCounts(ls, KeepsLayout(id));
  }

  /** Deleting an id no layout carries changes nothing. */
  lemma WithoutAbsentLayout(ls: seq<Layout>, id: string)
    requires id !in Ids(ls)
    ensures WithoutLayout(ls, id) == ls
  {
    forall k | 0 <= k < |ls| ensures KeepsLayout(id)(ls[k]) {
      assert ls[k] in ls;
    }
    FilterKeepsAll(ls, KeepsLayout(id));
  }

  /** Every layout has a sanitised name (non-empty, at most 32 characters). */
  ghost predicate AllNamed(ls: seq<Layout>) {
    forall k :: 0 <= k < |ls| ==> 0 < |ls[k].name| <= MaxNameLen
  }

  /** Renaming, moving items, upserting and removing cards all keep every name sanitised. */
  lemma EditsKeepNames(ls: seq<Layout>, id: string, e: Edit)
    requires AllNamed(ls)
    ensures AllNamed(EditWhere(ls, id, e))
  {
  }

  /** Deleting layouts keeps every name sanitised. */
  lemma DeleteKeepsNames(ls: seq<Layout>, id: string)
    requires AllNamed(ls)
    ensures AllNamed(WithoutLayout(ls, id))
  {
    var r := WithoutLayout(ls, id);
    forall k | 0 <= k < |r| ensures 0 < |r[k].name| <= MaxNameLen {
      assert r[k] in r;
      var j :| 0 <= j < |ls| && ls[j] == r[k];
    }
  }

  // ---------------------------------------------------------------------
  // The persisted shape

  /**
   * What `debounceSave` / `repository.persist` receive: a partial object.
   * `currentLayoutId` is `Some(v)` when the key is present, with `v` the
   * value it holds (which may itself be `undefined`).
   */
  datatype Payload = Payload(layouts: Option<seq<Layout>>, currentLayoutId: Option<Option<string>>)

  /** The two entries of the key-value store (absent, or not an array, is `None`). */
  datatype Stored = Stored(layouts: Option<seq<Layout>>, currentLayoutId: Option<string>)

  /**
   * `repository.persist`: with the storage API present, writes exactly the
   * keys present in the payload, an absent `currentLayoutId` as `''`;
   * without it, writes nothing.
   */
  function Persist(api: bool, s: Stored, p: Payload): (r: Stored)
    ensures !api ==> r == s
    ensures api && p.layouts.None? ==> r.layouts == s.layouts
    ensures api && p.layouts.Some? ==> r.layouts == p.layouts
    ensures api && p.currentLayoutId.None? ==> r.currentLayoutId == s.currentLayoutId
    ensures api && p.currentLayoutId.Some? ==> r.currentLayoutId == Some(p.currentLayoutId.value.GetOr(""))
  {
    if !api then s
    else
      Stored(
        if p.layouts.Some? then p.layouts else s.layouts,
        if p.currentLayoutId.Some? then Some(p.currentLayoutId.value.GetOr("")) else s.currentLayoutId)
  }

  /** `repository.hydrate`: the stored data when the API is present and holds a non-empty layout list. */
  function HydrateRead(api: bool, s: Stored): (r: Option<GridData>)
    ensures r.Some? <==> api && s.layouts.Some? && s.layouts.value != []
    ensures r.Some? ==> r.value == GridData(s.layouts.value, s.currentLayoutId)
  {
    if api && s.layouts.Some? && s.layouts.value != [] then Some(GridData(s.layouts.value, s.currentLayoutId))
    else None
  }

  /**
   * Reading back what was persisted: a payload with both keys and a
   * non-empty list comes back whole, except that an absent current id
   * comes back as the empty id `''`.
   */
  lemma PersistThenHydrate(s: Stored, ls: seq<Layout>, id: Option<string>)
    requires ls != []
    ensures HydrateRead(true, Persist(true, s, Payload(Some(ls), Some(id)))) == Some(GridData(ls, Some(id.GetOr(""))))
  {
  }

  /**
   * Persisting a payload without the id key, as `updateLayoutItems`,
   * `upsertCard` and `removeCard` do, leaves the stored current id as it
   * was: when such a payload replaces a pending `switchLayout` payload, the
   * switch never reaches storage.
   */
  lemma LayoutsOnlyPayloadKeepsStoredId(s: Stored, ls: seq<Layout>, switched: string)
    ensures Persist(true, s, Payload(Some(ls), None)).currentLayoutId == s.currentLayoutId
    ensures s.currentLayoutId != Some(switched) ==>
      Persist(true, s, Payload(Some(ls), None)).currentLayoutId != Persist(true, s, Payload(None, Some(Some(switched)))).currentLayoutId
  {
  }

  /**
   * A batching debounce: the new payload merged into the pending one, its
   * present keys winning and the keys it lacks taken from the pending
   * payload.
   */
  function MergePayload(pending: Option<Payload>, p: Payload): (r: Payload)
    ensures p.layouts.Some? ==> r.layouts == p.layouts
    ensures p.currentLayoutId.Some? ==> r.currentLayoutId == p.currentLayoutId
    ensures p.layouts.None? ==> r.layouts == (if pending.Some? then pending.value.layouts else None)
    ensures p.currentLayoutId.None? ==> r.currentLayoutId == (if pending.Some? then pending.value.currentLayoutId else None)
  {
    var q := pending.GetOr(Payload(None, None));
    Payload(
      if p.layouts.Some? then p.layouts else q.layouts,
      if p.currentLayoutId.Some? then p.currentLayoutId else q.currentLayoutId)
  }

  /** Writing the merged payload once has the effect of writing the pending payload and then the new one. */
  lemma MergePayloadPersists(api: bool, s: Stored, q: Payload, p: Payload)
    ensures Persist(api, s, MergePayload(Some(q), p)) == Persist(api, Persist(api, s, q), p)
  {
  }

  /** With the merging debounce a layouts-only save scheduled after a switch keeps the switch: both keys reach storage. */
  lemma MergedSwitchSurvivesLayoutsOnlySave(s: Stored, ls: seq<Layout>, switched: string)
    ensures Persist(true, s, MergePayload(Some(Payload(None, Some(Some(switched)))), Payload(Some(ls), None)))
              == Stored(Some(ls), Some(switched))
  {
    MergePayloadPersists(true, s, Payload(None, Some(Some(switched))), Payload(Some(ls), None));
  }

  /** The startup hydrate assignment's choice of id: the stored one, else the first layout's. */
  function HydratedId(data: GridData): (id: Option<string>)
    requires data.layouts != []
    ensures id.Some?
    ensures data.currentLayoutId.Some? ==> id == data.currentLayoutId
    ensures data.currentLayoutId.None? ==> id == Some(data.layouts[0].id)
  {
    if data.currentLayoutId.Some? then data.currentLayoutId else Some(data.layouts[0].id)
  }

  /** `computeCurrent(...) ?? layouts[0]`, as `importAll` and the startup hydrate compute it. */
  function CurrentOrFirst(ls: seq<Layout>, id: Option<string>): (r: Option<Layout>)
    ensures ComputeCurrent(ls, id).Some? ==> r == ComputeCurrent(ls, id)
    ensures ComputeCurrent(ls, id).None? ==> r == First(ls)
    ensures r.Some? <==> ls != []
  {
    match ComputeCurrent(ls, id)
    case Some(l) => Some(l)
    case None => First(ls)
  }
}
