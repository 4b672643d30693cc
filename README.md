# GridCards renderer core in Dafny

This project models the state behind the GridCards dashboard, an Electron app that shows web pages as cards on named grid layouts.

- **Layout/card store** (`store/grid.ts`).
  - A list of layouts, each holding an ordered list of grid items with an embedded card config.
  - The current layout id and the cached current layout.
  - The single debounced write slot.
  - The `layouts` / `currentLayoutId` entries of the key-value store.
  - Every action is a method of the class `GridStore.Store` that states the whole new state.
  - The pure next-state computations behind the actions live in `GridModel`. These are `sanitizeName`, `computeCurrent`, the `map`/`filter` rewrites, `DEFAULT_LAYOUT`, and the persisted shape.
  - `GridClients` proves what callers rely on, from the method contracts alone: the import/export round trip, idempotent switching, the add-card flow, and the effects of the single debounced slot.
- **Settings store** (`store/settings.ts`). `SettingsStore.Store` holds the theme mode, the font scale, the pending patch and the stored `settings` object. Its setters do nothing on an unchanged value. Otherwise they apply the change and schedule a partial save.
- **Settings normalisers** (`lib/settings.ts`).
  - The normalisers are pure functions in `SettingsLib`.
  - `applyTheme` is a method of `SettingsLib.ThemeHost`. This class models the module's media/listener slots, the number of registered listeners and the document's dark class.
- **URL helpers** (`lib/webview.ts`), in `Webview`.
  - `isValidUrl`: the regular expressions are stated as the languages they denote. A string matches when it splits into parts that the pieces of the pattern accept.
  - `normalizeUrl` and `getSearchUrl`.
  - The address a card resolves to.
  - `encodeURIComponent` is modelled in `UriComponent`: UTF-8 then percent-encoding, as in section 2.1 of RFC 3986. A decoder is proved to invert it.

Timers are not modelled as time. A debounced save is a `pending` slot that a later save overwrites, and `Flush` is the timer firing. The storage API is a flag `api` plus the stored values. The URL parser (`new URL`) is a parameter `parses`. The random UUID of a new layout is a parameter.

## Model

| member | source | states |
|---|---|---|
| GridModel.SanitizeName | src/renderer/src/store/grid.ts:8-10 | the result is never empty and at most 32 characters; a non-empty name gives its own first min(n, 32) characters; the empty name gives the placeholder name |
| GridModel.SanitizeNameIdempotent | src/renderer/src/store/grid.ts:8-10 | sanitising a sanitised name changes nothing |
| GridModel.SanitizeNameFixedPoints | src/renderer/src/store/grid.ts:8-10 | a name is left unchanged exactly when it is non-empty and at most 32 characters long (a blank name is kept, as nothing is trimmed) |
| GridModel.FindIndex | src/renderer/src/store/grid.ts:13-15 | the index of the first layout carrying the id, with none before it carrying it; no index exactly when no layout carries the id |
| GridModel.ComputeCurrent | src/renderer/src/store/grid.ts:13-15 | no layout exactly when the id is absent or carried by none; otherwise the first layout carrying it |
| GridModel.ComputeCurrentOfFirst | src/renderer/src/store/grid.ts:121-126 | looking up the first layout's own id finds the first layout |
| GridModel.ComputeCurrentOfAppended | src/renderer/src/store/grid.ts:95-102 | a layout appended under a fresh id adds exactly that id, and looking it up finds the appended layout |
| GridModel.First | src/renderer/src/store/grid.ts:173 | `layouts[0]`: present exactly for a non-empty list |
| GridModel.DefaultLayout | src/renderer/src/store/grid.ts:38-42 | an empty layout with id `layout-<uuid>` and the default name |
| GridModel.Prefix | src/renderer/src/store/grid.ts:9 | `slice(0, n)`: a prefix of the string of length min(length, n) |
| GridModel.Truncated | src/renderer/src/store/grid.ts:153 | the card with only its name changed, to the prefix of length min(length, 32) of the old name; the id is kept |
| GridModel.UpsertItems | src/renderer/src/store/grid.ts:152-154 | same length; every item showing the card id gets the truncated card as config; every other item is unchanged |
| GridModel.UpsertKeepsConsistent | src/renderer/src/store/grid.ts:152-154 | upserting keeps every item id, makes `config.id == i` for the touched items, and preserves `config.id == i` for the whole list |
| GridModel.DropItems | src/renderer/src/store/grid.ts:165 | an item is kept exactly when it was there and does not show the removed card |
| GridModel.DropItemsCounts | src/renderer/src/store/grid.ts:165 | each surviving item occurs as often as before; items showing the card occur no more |
| GridModel.DropItemsAppend | src/renderer/src/store/grid.ts:165 | removal commutes with concatenation, so the survivors keep their order |
| GridModel.DropKeepsConsistent | src/renderer/src/store/grid.ts:165 | removing a card preserves `config.id == i` |
| GridModel.ApplyEdit | src/renderer/src/store/grid.ts:103-170 | an edit keeps the layout's id; a rename sets exactly the sanitised name; the other edits keep the name |
| GridModel.EditWhere | src/renderer/src/store/grid.ts:142 | same length; each layout carrying the id is edited, every other layout is unchanged |
| GridModel.EditWhereKeepsIds | src/renderer/src/store/grid.ts:105-107 | editing in place keeps each id at its position and the set of ids |
| GridModel.EditWhereFindIndex | src/renderer/src/store/grid.ts:142-143 | after an edit, every id is found at the same position as before |
| GridModel.EditWhereCurrent | src/renderer/src/store/grid.ts:142-143 | after an edit, the current layout is the edited current layout when the edit targeted it, and unchanged otherwise |
| GridModel.WithoutLayout | src/renderer/src/store/grid.ts:114 | a layout survives exactly when it was there and does not carry the id; the id set loses exactly that id |
| GridModel.WithoutLayoutAppend | src/renderer/src/store/grid.ts:114 | deletion commutes with concatenation, so the survivors keep their order |
| GridModel.WithoutLayoutCounts | src/renderer/src/store/grid.ts:114 | each surviving layout occurs as often as before; layouts carrying the id occur no more |
| GridModel.WithoutAbsentLayout | src/renderer/src/store/grid.ts:114 | deleting an id no layout carries changes nothing |
| GridModel.EditsKeepNames | src/renderer/src/store/grid.ts:103-111 | if every name was sanitised (non-empty, at most 32), every edit keeps it so |
| GridModel.DeleteKeepsNames | src/renderer/src/store/grid.ts:112-129 | deleting keeps every name sanitised |
| GridModel.Persist | src/renderer/src/store/grid.ts:63-79 | without the API nothing is written; with it, exactly the keys present in the payload are written, an absent current id as `''` |
| GridModel.HydrateRead | src/renderer/src/store/grid.ts:46-62 | stored data comes back exactly when the API is present and a non-empty list is stored |
| GridModel.PersistThenHydrate | src/renderer/src/store/grid.ts:63-79 | a full payload with a non-empty list reads back whole, except that an absent id comes back as `''` |
| GridModel.LayoutsOnlyPayloadKeepsStoredId | src/renderer/src/store/grid.ts:83-87 | a list-only payload keeps the stored id, so one that replaces a pending switch loses the switch |
| GridModel.MergePayload | src/renderer/src/store/grid.ts:82-87 | the batching debounce: the new payload's keys win, the keys it lacks come from the pending payload |
| GridModel.MergePayloadPersists | src/renderer/src/store/grid.ts:82-87 | writing the merged payload once equals writing the pending payload and then the new one |
| GridModel.MergedSwitchSurvivesLayoutsOnlySave | src/renderer/src/store/grid.ts:82-87 | with the merging debounce a switch followed by a list-only save stores both the list and the new id |
| GridModel.HydratedId | src/renderer/src/store/grid.ts:192 | the stored id when there is one, else the first layout's id |
| GridModel.CurrentOrFirst | src/renderer/src/store/grid.ts:173 | the lookup when it finds a layout, else the first layout; present exactly for a non-empty list |
| GridStore.NoCurrent | src/renderer/src/store/grid.ts:141 | `!currentLayoutId`: both an absent and an empty id mean no current layout |
| GridStore.Store.constructor | src/renderer/src/store/grid.ts:92-94 | no layouts, no current id, no cached layout, nothing scheduled |
| GridStore.Store.DebounceSave | src/renderer/src/store/grid.ts:84-87 | the new payload replaces whatever was pending |
| GridStore.Store.DebounceSaveMerged | src/renderer/src/store/grid.ts:82-87 | the corrected debounce: the new payload is merged into the pending one |
| GridStore.Store.Flush | src/renderer/src/store/grid.ts:86 | the pending payload, and only it, is persisted; the slot empties |
| GridStore.Store.CreateLayout | src/renderer/src/store/grid.ts:95-102 | appends exactly one empty layout with the fresh id and the sanitised name, earlier layouts untouched; it becomes current and cached; its id is returned; the list and id are scheduled |
| GridStore.Store.RenameLayout | src/renderer/src/store/grid.ts:103-111 | every layout with the id gets the sanitised name; ids, current id and cache lookup are kept; the list and current id are scheduled, also when the id names no layout |
| GridStore.Store.DeleteLayout | src/renderer/src/store/grid.ts:112-129 | the list is never empty and stays consistent; deleting the last layout installs one fresh default layout as current; otherwise the survivors remain in order, a surviving current id stays, and else the first survivor becomes current |
| GridStore.Store.SwitchLayout | src/renderer/src/store/grid.ts:130-138 | nothing changes and nothing is scheduled when the id is current or unknown; otherwise only the current id and cache change, and only the id is scheduled |
| GridStore.Store.EditCurrentLayout | src/renderer/src/store/grid.ts:139-170 | without a current id nothing changes; otherwise only the current layout is edited, the cache is recomputed, the list alone is scheduled, and consistency is preserved |
| GridStore.Store.UpdateLayoutItems | src/renderer/src/store/grid.ts:139-146 | without a current id nothing changes; otherwise exactly the current layout's items are replaced, every other layout is unchanged, and the cache shows the new items |
| GridStore.Store.UpsertCard | src/renderer/src/store/grid.ts:147-160 | never changes the number of layouts or of items; in the current layout, items showing the card get the truncated card; all else unchanged; `config.id == i` preserved |
| GridStore.Store.RemoveCard | src/renderer/src/store/grid.ts:161-170 | without a current id nothing changes; otherwise the current layout loses exactly the card's items and no other layout changes |
| GridStore.Store.ImportAll | src/renderer/src/store/grid.ts:171-176 | both fields replaced, the matching or else the first layout cached, persisted at once; the pending write is left in place |
| GridStore.Store.ImportAllCancelling | src/renderer/src/store/grid.ts:171-176 | the corrected import: as `importAll`, and the pending write is cancelled |
| GridStore.Store.ExportAll | src/renderer/src/store/grid.ts:177-179 | returns the list and the current id as they are |
| GridStore.Store.Hydrate | src/renderer/src/store/grid.ts:189-199 | the stored list with the stored or first id and matching-or-first cache; with nothing usable stored, one fresh default layout as current; never empty afterwards |
| GridClients.ImportExportRoundTrip | src/renderer/src/store/grid.ts:171-179 | importing the export leaves the list and current id unchanged, and a consistent store consistent with the same cache |
| GridClients.SwitchLayoutTwice | src/renderer/src/store/grid.ts:130-138 | switching twice to one id has the effect of switching once |
| GridClients.AddCard | src/renderer/src/components/grid/CardModal.tsx:97-104 | the add-card flow appends one item at (0, 0), size 8 x 20, to the current layout and keeps the store consistent; with no current layout nothing changes and the card is dropped |
| GridClients.CreateFirstLayout | src/renderer/src/store/grid.ts:95-102 | from no layouts, creating "Work" gives exactly one empty layout "Work", current |
| GridClients.DeleteOnlyLayout | src/renderer/src/store/grid.ts:112-120 | deleting the only layout leaves exactly one empty default-named layout under a new id, current |
| GridClients.UpsertEditedCard | src/renderer/src/store/grid.ts:147-160 | upserting an edited card changes the config of its own item and leaves the other item alone |
| GridClients.SwitchThenRemoveCard | src/renderer/src/store/grid.ts:83-87 | a switch followed within one debounce window by a card removal never reaches storage |
| GridClients.ImportWhileSavePending | src/renderer/src/store/grid.ts:171-176 | a write pending before an import overwrites the imported list when its timer fires |
| GridClients.SwitchThenSaveListMerged | src/renderer/src/store/grid.ts:82-87 | with the merging debounce, a switch followed by a list-only save stores both the list and the new id |
| GridClients.ImportCancellingWhileSavePending | src/renderer/src/store/grid.ts:171-176 | with the cancelling import, storage keeps the imported list and id when the older timer would have fired |
| GridClients.RestartAfterImportWithoutId | src/renderer/src/store/grid.ts:189-199 | a list imported without an id comes back with the empty id: the first layout is shown but card actions do nothing |
| SettingsLib.NormalizeThemeMode | src/renderer/src/lib/settings.ts:25-29 | one of the three mode names gives its own mode; anything else gives `system` |
| SettingsLib.NormalizeFontScale | src/renderer/src/lib/settings.ts:32-35 | always positive; a positive number is kept; zero, negatives and non-numbers give 1.0 |
| SettingsLib.NormalizeSettings | src/renderer/src/lib/settings.ts:55-63 | each field normalised on its own; the scale is positive |
| SettingsLib.NormalizeStored | src/renderer/src/lib/settings.ts:55-63 | valid settings, stored and normalised again, come back unchanged |
| SettingsLib.NormalizeSettingsIdempotent | src/renderer/src/lib/settings.ts:55-63 | normalising twice equals normalising once |
| SettingsLib.ThemeHost.constructor | src/renderer/src/lib/settings.ts:1-2 | both slots empty, no listener registered, no dark class |
| SettingsLib.ThemeHost.ApplyTheme | src/renderer/src/lib/settings.ts:9-22 | afterwards a listener is registered exactly for `system` and never more than one; `system` follows the system preference; otherwise the dark class is set exactly for `dark` |
| SettingsLib.ThemeHost.ApplyDefaults | src/renderer/src/lib/settings.ts:45-52 | `system` is applied: one listener registered, the dark class following the system preference |
| SettingsLib.ThemeHost.SystemPreferenceChanged | src/renderer/src/lib/settings.ts:17 | with a listener registered the dark class follows the new preference; without one it is unchanged |
| SettingsStore.ReadSettings | src/renderer/src/store/settings.ts:22-36 | a result exactly when the API is present; a stored object gives its normalisation; nothing stored gives `system` at 1.0; the scale is positive |
| SettingsStore.PersistAsWritten | src/renderer/src/store/settings.ts:38-53 | both fields are always written, an absent one as its default |
| SettingsStore.PersistAsWrittenResetsAbsent | src/renderer/src/store/settings.ts:43-48 | a patch without a theme reads back as `system`, one without a scale as 1.0, whatever was stored |
| SettingsStore.PersistAsWrittenLosesTheme | src/renderer/src/store/settings.ts:38-65 | saving `dark`, then saving scale 1.25, reads back as `system` at 1.25 |
| SettingsStore.PersistMerged | src/renderer/src/store/settings.ts:37-48 | the patch's fields are written; the other stored field is kept |
| SettingsStore.PersistMergedReadBack | src/renderer/src/store/settings.ts:37-48 | after a merged write, each patched field reads back as written and each other field as before |
| SettingsStore.Store.constructor | src/renderer/src/store/settings.ts:67-69 | `system` at scale 1.0, nothing scheduled |
| SettingsStore.Store.DebounceSave | src/renderer/src/store/settings.ts:56-65 | the new patch replaces whatever was pending, unmerged |
| SettingsStore.Store.Flush | src/renderer/src/store/settings.ts:62-64 | the pending patch alone is persisted by `persist` as written (both fields, an absent one as its default); the slot empties |
| SettingsStore.Store.FlushMerged | src/renderer/src/store/settings.ts:37-48 | the timer firing with the corrected persist: the pending patch is merged into the stored object; the slot empties |
| SettingsStore.Store.SetThemeMode | src/renderer/src/store/settings.ts:70-82 | an unchanged mode changes nothing at all; otherwise the mode is set and applied, the scale kept, and a save of the mode alone scheduled |
| SettingsStore.Store.SetFontScale | src/renderer/src/store/settings.ts:83-95 | an unchanged scale changes nothing; otherwise the scale is set, the mode kept, and a save of the scale alone scheduled |
| SettingsStore.Store.Hydrate | src/renderer/src/store/settings.ts:106-118 | with the API present both fields become the normalised stored values and the theme is applied, the dark class set for `dark`, or following the preference for `system`; without it nothing changes |
| SettingsStore.Startup | src/renderer/src/store/settings.ts:98-118 | module load: without the API, `system` at 1.0 with the listener registered and the dark class following the preference; with it, the normalised stored settings, applied |
| SettingsStore.SetThemeModeAndSave | src/renderer/src/store/settings.ts:70-82 | with the corrected persist (`FlushMerged`), a theme change, once saved, is what the next start reads back, with the scale kept |
| SettingsStore.SetFontScaleAndSave | src/renderer/src/store/settings.ts:83-95 | with the corrected persist (`FlushMerged`), a scale change, once saved, is what the next start reads back, with the theme kept |
| SettingsStore.ThemeThenScaleInOneWindow | src/renderer/src/store/settings.ts:56-95 | even with the corrected persist (`FlushMerged`), a theme change followed by a scale change inside one debounce window never reaches storage |
| SettingsStore.ThemeThenScaleSavedSeparately | src/renderer/src/store/settings.ts:38-95 | with `persist` as written, a theme change saved and then a scale change saved read back as `system` at the new scale |
| Webview.Trim | src/renderer/src/lib/webview.ts:7 | `trim()`: no longer than the input, neither starting nor ending with white space |
| Webview.TrimIsSlice | src/renderer/src/lib/webview.ts:7 | the trim is the slice of the input with only white space before and after it |
| Webview.TrimStart | src/renderer/src/lib/webview.ts:7 | a suffix behind white space only, not starting with white space |
| Webview.TrimEnd | src/renderer/src/lib/webview.ts:7 | a prefix before white space only, not ending with white space |
| Webview.TrimIgnoresPadding | src/renderer/src/lib/webview.ts:7 | white space around a string never changes its trim |
| Webview.TrimUnpadded | src/renderer/src/lib/webview.ts:7 | a string with no white space at either end is its own trim |
| Webview.HasSchemeCaseless | src/renderer/src/lib/webview.ts:10 | `/^https?:\/\//i`: starts with `http://` or `https://` in any case |
| Webview.HasScheme | src/renderer/src/lib/webview.ts:35 | `/^https?:\/\//`: starts with lower-case `http://` or `https://` |
| Webview.Protocol | src/renderer/src/lib/webview.ts:15 | a parsed URL's `protocol`: the text up to the first colon, lower-cased |
| Webview.DomainMatch | src/renderer/src/lib/webview.ts:22 | the domain pattern as a language |
| Webview.LocalMatch | src/renderer/src/lib/webview.ts:25 | the localhost pattern as a language |
| Webview.Ipv4Match | src/renderer/src/lib/webview.ts:28-29 | the IPv4 pattern as a language |
| Webview.SchemelessMatch | src/renderer/src/lib/webview.ts:31 | one of the three patterns matches |
| Webview.IsValidUrl | src/renderer/src/lib/webview.ts:6-32 | with a scheme in any case, valid exactly when the URL parser accepts the trimmed input; otherwise valid exactly when a pattern matches the trimmed input |
| Webview.IsValidUrlIgnoresPadding | src/renderer/src/lib/webview.ts:7 | leading or trailing white space never changes the verdict |
| Webview.CaselessSchemeProtocol | src/renderer/src/lib/webview.ts:10-15 | any input passing the scheme test has protocol `http:` or `https:` |
| Webview.SchemeVerdict | src/renderer/src/lib/webview.ts:10-19 | an unpadded input with a scheme is judged by the URL parser alone |
| Webview.SchemelessVerdict | src/renderer/src/lib/webview.ts:21-31 | an unpadded input not starting with `h` is judged by the three patterns alone |
| Webview.OctetMerged | src/renderer/src/lib/webview.ts:28-29 | the octet alternatives and their merged form accept the same strings |
| Webview.OctetExactly | src/renderer/src/lib/webview.ts:28-29 | an octet is exactly one to three digits, without a leading zero at three digits, of value at most 255 |
| Webview.SchemelessMatchNoSpace | src/renderer/src/lib/webview.ts:22-29 | no pattern admits white space anywhere, the path included |
| Webview.SpaceInsideRejected | src/renderer/src/lib/webview.ts:21-31 | without a scheme, an input still holding white space after trimming is rejected |
| Webview.DottedPatternsNeedDot | src/renderer/src/lib/webview.ts:22-29 | the domain and IPv4 patterns only match strings holding a dot |
| Webview.DomainNeedsLetter | src/renderer/src/lib/webview.ts:22 | the domain pattern only matches strings holding a letter |
| Webview.Ipv4FirstOctet | src/renderer/src/lib/webview.ts:28-29 | in an IPv4 match, the digits before the first dot form an octet |
| Webview.FirstFieldNotOctet | src/renderer/src/lib/webview.ts:28-29 | digits before the first dot that are no octet rule the IPv4 pattern out |
| Webview.NoLetterNoDomain | src/renderer/src/lib/webview.ts:22 | a string without letters is no domain |
| Webview.RejectsOutOfRangeOctet | src/renderer/src/lib/webview.ts:21-31 | `256.1.1.1` is rejected |
| Webview.RejectsDotlessName | src/renderer/src/lib/webview.ts:21-31 | `example` is rejected |
| Webview.RejectsSpaceInPath | src/renderer/src/lib/webview.ts:21-31 | `example.com/a b` is rejected |
| Webview.PortPathOf | src/renderer/src/lib/webview.ts:22 | an optional port and an optional path make the tail of every pattern |
| Webview.DotLabelsCons | src/renderer/src/lib/webview.ts:22 | a label and its dot, before more dotted labels or nothing, are dotted labels |
| Webview.DomainOf | src/renderer/src/lib/webview.ts:22 | dotted labels, a top-level domain and a tail make a domain match |
| Webview.LocalOf | src/renderer/src/lib/webview.ts:25 | `localhost` or `127.0.0.1` and a tail make a local match |
| Webview.QuadOf | src/renderer/src/lib/webview.ts:28-29 | four octets joined by dots make a dotted quad |
| Webview.Ipv4Of | src/renderer/src/lib/webview.ts:28-29 | a dotted quad and a tail make an IPv4 match |
| Webview.AcceptsDomain | src/renderer/src/lib/webview.ts:22 | `example.com` is accepted |
| Webview.AcceptsLocalWithPort | src/renderer/src/lib/webview.ts:25 | `localhost:3000` is accepted |
| Webview.AcceptsIpv4WithPortAndPath | src/renderer/src/lib/webview.ts:28-29 | `192.168.1.1:8080/x` is accepted |
| Webview.NormalizeUrl | src/renderer/src/lib/webview.ts:34-39 | the result starts with a lower-case scheme and ends with the input; an input with such a scheme is returned unchanged; any other input gets `https://` in front |
| Webview.NormalizeUrlIdempotent | src/renderer/src/lib/webview.ts:34-39 | normalising twice equals normalising once |
| Webview.NormalizeUrlDoublesUpperCaseScheme | src/renderer/src/lib/webview.ts:10-38 | `HTTP://a.com` can be valid, yet `normalizeUrl` turns it into `https://HTTP://a.com` |
| Webview.NormalizeUrlCaseless | src/renderer/src/lib/webview.ts:34-39 | the result has a scheme in any case and ends with the input; an input with a scheme in any case is unchanged; any other input gets `https://` in front |
| Webview.NormalizeUrlCaselessIdempotent | src/renderer/src/lib/webview.ts:34-39 | the corrected normaliser is idempotent |
| Webview.NormalizeUrlAgrees | src/renderer/src/lib/webview.ts:34-39 | on inputs whose scheme, if any, is lower-case, both normalisers agree |
| Webview.GetSearchUrl | src/renderer/src/lib/webview.ts:41-44 | the fixed search prefix, then only `%` and unreserved characters, which decode back to the keyword |
| Webview.ResolveCardUrl | src/renderer/src/components/grid/CardItem.tsx:77-82 | the result always starts with lower-case `http://` or `https://`; a valid trimmed address already carrying that scheme is returned unchanged, and one lacking it gets `https://` in front; an invalid one is the search query, decoding back to the trimmed address |
| UriComponent.HexRoundTrip | src/renderer/src/lib/webview.ts:42 | each hexadecimal digit reads back as its own value |
| UriComponent.Utf8 | src/renderer/src/lib/webview.ts:42 | one to four bytes, a lead byte announcing the length, then continuation bytes |
| UriComponent.Utf8RoundTrip | src/renderer/src/lib/webview.ts:42 | decoding the UTF-8 bytes of a character gives the character back |
| UriComponent.EncodeUriComponent | src/renderer/src/lib/webview.ts:42 | the output holds only `%` and unreserved characters; a string of unreserved characters is unchanged |
| UriComponent.DecodeUriComponent | src/renderer/src/lib/webview.ts:42 | a string without `%` decodes to itself |
| UriComponent.DecodeEncode | src/renderer/src/lib/webview.ts:42 | decoding the encoding of any string gives the string back |

## Left out

- `applyFontScale` (src/renderer/src/lib/settings.ts:38-42), also where `applyDefaults`, the setters and the hydrate call it: rounding to a percentage and a DOM style write.
- `highlightSelectorScript` (src/renderer/src/lib/webview.ts:46-56): it only embeds a selector in script text.
- Timers: debounce delays of 300 and 400 ms are not modelled. The timer is a pending slot, and its firing is the `Flush` method.
- The race between the startup hydrate and early actions: the startup hydrate is one method applied at one chosen moment.
- The zustand `persist` middleware, localStorage, and `lib/theme.ts`: these are library and browser storage, and they are not part of this model.
- Storage failures: every `try`/`catch` around the storage API is folded into the flag `api`. The API is treated as either present and working or absent.
- The URL parser: `new URL` is the parameter `parses`. A parsed URL's `protocol` is modelled from the text before the first colon, lower-cased.
- `crypto.randomUUID` is the parameter `uuid`. `CreateLayout` and `DeleteLayout` require the resulting id to be new to the list, which a random UUID gives in practice.
- Floating point: the font scale is a real number. `Number(value)` gives `None` for NaN. Infinity is not modelled.
- UTF-16 and characters:
  - Strings are sequences of Unicode scalar values, not UTF-16 code units.
  - `slice(0, 32)` therefore counts characters where the source counts code units; the two differ only for characters outside the Basic Multilingual Plane.
  - The `URIError` that `encodeURIComponent` throws on a lone surrogate cannot arise here.
- The `if (!cfg) return ''` guard of the card address (src/renderer/src/components/grid/CardItem.tsx:78): a card without a config is not modelled.
- GridStore.Store.RenameLayout: renaming an unknown id is not a no-op; the code still recomputes the cache and schedules a save of the unchanged list.
- GridModel.SanitizeName: the code does not trim, so a blank name is kept.
- GridStore.Store.UpsertCard: card names are cut to 32 characters but never defaulted, so an empty name is stored.
- GridStore.Store.UpdateLayoutItems: it stores whatever items it is given. `config.id == i` is therefore kept by `UpsertCard` and `RemoveCard`, and by the add-card flow, but not promised for arbitrary items.
- SettingsStore.SetThemeModeAndSave, SettingsStore.SetFontScaleAndSave: stated for the corrected persist (`FlushMerged`); with `persist` as written the other field resets to its default, as SettingsStore.ThemeThenScaleSavedSeparately shows.
- SettingsStore.ThemeThenScaleInOneWindow: stated for the corrected persist (`FlushMerged`); with `persist` as written the scale-only save also writes `system` as the theme.
- GridStore.Store.ImportAll: imported data is not validated (names, ids and items are stored as given), as in the code.

## Findings

| source | as written | input that shows it | evidently intended | confidence | as-written member | corrected member |
|---|---|---|---|---|---|---|
| src/renderer/src/store/settings.ts:43-47 | `persist` writes both fields and fills an absent one with its default | `setThemeMode('dark')` is saved, then `setFontScale(1.25)` is saved: the store then reads back `system` at 1.25 | only the fields passed in are written and the other stored field is kept (the comment on line 37 says so) | high, not executed | SettingsStore.PersistAsWrittenLosesTheme | SettingsStore.PersistMerged |
| src/renderer/src/lib/webview.ts:35 | `normalizeUrl` tests the scheme case-sensitively, while `isValidUrl` accepts it in any case | `HTTP://a.com`, which the URL parser accepts, becomes `https://HTTP://a.com` | an address already carrying a scheme in any case is left unchanged | medium, not executed | Webview.NormalizeUrlDoublesUpperCaseScheme | Webview.NormalizeUrlCaseless |
| src/renderer/src/store/grid.ts:82-87 | `debounceSave` replaces the pending payload, though its comment promises batched writes | `switchLayout('b')` then `removeCard('x')` inside 400 ms: only `{ layouts }` is written, so the switch never reaches storage | the keys of both payloads are written | medium, not executed | GridClients.SwitchThenRemoveCard | GridClients.SwitchThenSaveListMerged |
| src/renderer/src/store/grid.ts:171-176 | `importAll` persists at once but leaves the pending debounced write scheduled | any layout action, then `importAll(data)` inside 400 ms: the older list is written over the import when the timer fires | the import is what storage keeps | medium, not executed | GridClients.ImportWhileSavePending | GridClients.ImportCancellingWhileSavePending |
