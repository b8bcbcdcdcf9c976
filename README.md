# Container box manager and join-link redirect, modelled in Dafny

This project models two small JavaScript programs.

- **The box manager page** (`drkai/app.js`). It keeps a list of launcher
  "boxes". Each box opens a Firefox container on one of three environments:
  prod, dev or local. The model covers:
  - the environments' base URLs and the per-environment visibility filter;
  - the three local-storage slots the state is kept in, and how `loadState`
    reads them, fills them and falls back;
  - adding, editing, deleting and looking up boxes;
  - the box modal and its form validation, and the colour picker;
  - the tile action menus;
  - the four resets, each of which reloads the page;
  - what `renderBoxes` draws: one section per visible, non-empty
    environment, in the order prod, dev, local, with the boxes sorted by
    display name;
  - the `ext+container:` link a tile carries.
- **The redirect worker** (`cloudflare-worker.js`). It takes a `token` query
  parameter and answers with one of:
  - 400 "Missing token parameter";
  - 400 "Invalid token format" when the token is not a UUID;
  - a 302 redirect to the WhatsApp deep link
    `https://wa.me/918793070914?text=` followed by
    `encodeURIComponent("/join " + token)`.

The JavaScript built-ins the code relies on are modelled as functions with
contracts:
- `Array.prototype.filter`, `findIndex` and `find`;
- `String.prototype.trim`, with the ECMAScript white-space and line-terminator
  sets;
- `capitalize`;
- `encodeURIComponent`, through UTF-8 and `%XX` escapes, with
  `decodeURIComponent` as its partner.

Module layout:

| file | module | models |
|---|---|---|
| wrappers.dfy | `Wrappers` | `Option` (`undefined`/`null` as `None`) |
| jsarray.dfy | `JsArray` | `filter`, `findIndex`, `find` |
| jsstring.dfy | `JsString` | `trim`, `capitalize`, string order |
| uri.dfy | `Uri` | `encodeURIComponent`, `decodeURIComponent` |
| worker.dfy | `RedirectWorker` | the worker's `fetch` |
| boxes.dfy | `Boxes` | box values, list operations, rendering, visibility, colours |
| persist.dfy | `Persist` | the storage slots and what a load makes of them |
| tiles.dfy | `Tiles` | a tile's `href` and reading it back |
| app.dfy | `BoxManager` | class `App`: the page's state, one method per handler |

`App` holds the global `state` record as fields. It also holds the page
state the handlers read and write:
- whether the modal is open;
- the form inputs;
- the selected colour swatch;
- the set of open tile menus;
- local storage.

Every handler is a method. Each method states its whole new state, either
directly or through the pure functions of `Boxes` and `Persist`. The
properties are proved as lemmas about those functions. `Valid()` is kept by
every handler: only a menu whose tile is on the page can be open, and at
most one is.

### How `loadState` falls back

`loadState` (`drkai/app.js:72-105`) reads the three slots, then parses them
in order: boxes, URLs, filter.

- A missing or empty slot gets its default, and the default is saved.
- A slot that fails to parse throws. The later slots are then not parsed,
  and an empty later slot is not filled. The `catch` puts all three
  collections back to their defaults in memory, even readable ones already
  loaded, and saves nothing.
- So the unreadable slot stays in storage, and every later load again
  falls back to all defaults. This lasts until that slot is saved again, by
  a reset or by any handler that saves that part.
- A save after such a load writes what memory holds, which is the default.
  So the first `addBox`, `updateBox` or `deleteBox` after a load that failed
  on, for example, the URL slot stores the default boxes plus the change.
  The readable boxes that were in storage are lost.

`Persist.Loaded`, `Persist.AfterLoad`, `Persist.LoadCorrupt`,
`Persist.SaveRepairs` and `Persist.ResetAllRecovers` state this.

## Model

| member | source | states |
|---|---|---|
| RedirectWorker.Fetch | cloudflare-worker.js:23-52 | a missing or empty token gives 400 "Missing token parameter"; a non-empty non-UUID gives 400 "Invalid token format"; a UUID gives a 302 to the deep-link base followed by `%2Fjoin%20` and the token; the answer is a redirect exactly when the token is a UUID |
| RedirectWorker.UuidLayout | cloudflare-worker.js:36 | the case-insensitive UUID pattern accepts exactly the 36-character strings with `-` at positions 8, 13, 18 and 23 and a hex digit (either case) everywhere else |
| RedirectWorker.UuidUnreserved | cloudflare-worker.js:36 | every character of an accepted token is one `encodeURIComponent` leaves alone |
| RedirectWorker.EncodeJoinWord | cloudflare-worker.js:48-49 | the message prefix `/join ` encodes to `%2Fjoin%20` |
| RedirectWorker.JoinTextEncoding | cloudflare-worker.js:48-49 | for a UUID token, the encoded message is `%2Fjoin%20` followed by the token unchanged |
| RedirectWorker.DeepLinkOfUuid | cloudflare-worker.js:47-49 | the deep link of a UUID token is the fixed join-link prefix followed by the token |
| RedirectWorker.RedirectCarriesMessage | cloudflare-worker.js:47-52 | the `text` parameter of the redirect target is the encoded `/join <token>`, and decoding it gives back exactly `/join <token>` |
| RedirectWorker.RedirectInjective | cloudflare-worker.js:47-52 | two valid tokens that get the same response are the same token |
| Uri.EncodeURIComponent | cloudflare-worker.js:49 | the output consists only of unreserved characters and `%` |
| Uri.Utf8 | cloudflare-worker.js:49 | a character is 1 to 4 UTF-8 octets; one octet exactly for ASCII; otherwise a lead octet giving the length, followed by continuation octets |
| Uri.EncodeConcat | cloudflare-worker.js:49 | encoding works character by character: it distributes over concatenation |
| Uri.EncodeUnreserved | cloudflare-worker.js:49 | a string of unreserved characters encodes to itself |
| Uri.DecodeEncode | cloudflare-worker.js:49 | `decodeURIComponent(encodeURIComponent(s))` succeeds and returns `s` for every string |
| Uri.EncodeInjective | cloudflare-worker.js:49 | different strings encode differently |
| JsArray.Filter | drkai/app.js:162 | `filter` returns no more elements than it is given, each satisfying the predicate |
| JsArray.FilterKeeps | drkai/app.js:162 | every element satisfying the predicate is kept, and nothing is added or duplicated |
| JsArray.FilterConcat | drkai/app.js:162 | filtering a concatenation is concatenating the filtered parts, so kept elements stay in order |
| JsArray.FilterAll | drkai/app.js:162 | a list whose elements all pass is returned unchanged |
| JsArray.FilterIdempotent | drkai/app.js:162 | filtering twice with the same predicate is filtering once |
| JsArray.FindIndex | drkai/app.js:153 | `findIndex` gives -1 exactly when nothing matches, and otherwise the first matching index |
| JsArray.Find | drkai/app.js:168 | `find` gives nothing exactly when nothing matches, and otherwise a matching element of the list |
| JsArray.FindAtFindIndex | drkai/app.js:153-168 | `find` returns the element at the index `findIndex` reports |
| JsString.Trim | drkai/app.js:397-398 | the trimmed text is no longer than the input and neither starts nor ends with white space |
| JsString.TrimStartSpec | drkai/app.js:397 | removing leading white space leaves the longest suffix that does not start with white space |
| JsString.TrimEndSpec | drkai/app.js:397 | removing trailing white space leaves the longest prefix that does not end with white space |
| JsString.TrimInfix | drkai/app.js:397-398 | `trim` returns a contiguous infix of its input, with only white space before and after it |
| JsString.TrimEmptyIff | drkai/app.js:400-403 | `trim` gives the empty string exactly when the input is all white space, which is when the form refuses it |
| JsString.TrimIdempotent | drkai/app.js:397-398 | trimming trimmed text changes nothing |
| JsString.Capitalize | drkai/app.js:537-539 | same length; the first character upper-cased and the rest unchanged |
| JsString.CapitalizeIdempotent | drkai/app.js:537-539 | capitalizing twice is capitalizing once |
| JsString.LexLeReflexive | drkai/app.js:181 | the order `localeCompare` stands for here is reflexive |
| JsString.LexLeTotal | drkai/app.js:181 | the order is total: any two names are comparable |
| JsString.LexLeTransitive | drkai/app.js:181 | the order is transitive |
| JsString.LexLeAntisymmetric | drkai/app.js:181 | names that compare both ways are equal |
| Boxes.Merge | drkai/app.js:155 | `{ ...box, ...updates }` keeps the box's id and takes all four other fields from the update |
| Boxes.IndexOfId | drkai/app.js:153 | the index of the first box with the id, or -1 exactly when no box has it |
| Boxes.GetBox | drkai/app.js:167-169 | `getBox` finds nothing exactly when no box has the id, and otherwise the first box with it |
| Boxes.Updated | drkai/app.js:152-158 | same length; only the first box with the id changes, to its merge with the update; every id stays where it was |
| Boxes.UpdatedMissing | drkai/app.js:153-154 | updating an id no box has leaves the list unchanged |
| Boxes.IndexOfSameIds | drkai/app.js:153 | lists with the same ids in the same order give the same `findIndex`, so an update does not move the index |
| Boxes.UpdatedIdempotent | drkai/app.js:152-158 | applying the same update twice is applying it once |
| Boxes.GetBoxAfterUpdate | drkai/app.js:152-169 | after an update, `getBox` finds the merged box |
| Boxes.Without | drkai/app.js:161-162 | after `deleteBox` no box has the id, every other box is still there, and nothing is added |
| Boxes.WithoutIdempotent | drkai/app.js:161-162 | deleting twice is deleting once |
| Boxes.WithoutMissing | drkai/app.js:161-162 | deleting an id no box has changes nothing |
| Boxes.WithoutConcat | drkai/app.js:161-162 | deletion works piecewise, so the remaining boxes keep their order |
| Boxes.GetBoxAfterDelete | drkai/app.js:161-169 | after a deletion `getBox` finds nothing for that id |
| Boxes.GetBoxAfterAdd | drkai/app.js:139-149 | a box added under an id no other box has is what `getBox` then finds |
| Boxes.OfEnv | drkai/app.js:181-183 | the environment filter keeps exactly that environment's boxes, adding nothing |
| Boxes.InsertSorted | drkai/app.js:181-183 | inserting into a name-sorted list keeps it sorted and adds exactly that box |
| Boxes.SortedTail | drkai/app.js:181-183 | the tail of a sorted list is sorted |
| Boxes.InsertHead | drkai/app.js:181-183 | a box below the inserted box and below the rest can head the result |
| Boxes.ConsSorted | drkai/app.js:181-183 | a box below every box of a sorted list can go in front of it |
| Boxes.SortByName | drkai/app.js:181-183 | the sort's result is sorted by display name and is a permutation of its input |
| Boxes.InsertStable | drkai/app.js:181-183 | an inserted box goes ahead of the boxes already there with the same name |
| Boxes.InsertStablePast | drkai/app.js:181-183 | the same, when the inserted box goes past the first box |
| Boxes.SortStable | drkai/app.js:181-183 | the sort is stable: boxes with equal display names keep their list order |
| Boxes.Titles | drkai/app.js:193 | the section headings read "Prod", "Dev" and "Local" |
| Boxes.SectionShape | drkai/app.js:186-190 | an environment contributes at most one section, and only its own |
| Boxes.RankOrdered | drkai/app.js:180-186 | three runs of at most one section each, for prod, dev and local, are in that order |
| Boxes.RenderOrder | drkai/app.js:180-205 | the sections appear in the order prod, dev, local, each at most once |
| Boxes.SectionDrawn | drkai/app.js:186-205 | a section an environment contributes is for a visible, non-empty environment and holds its sorted boxes |
| Boxes.RenderSections | drkai/app.js:186-205 | every drawn section belongs to a visible environment that has boxes, and holds that environment's boxes in name order |
| Boxes.RenderComplete | drkai/app.js:186-205 | every visible environment with at least one box gets a section |
| Boxes.SectionIsSortedPermutation | drkai/app.js:180-205 | a section's tiles are exactly its environment's boxes, in name order |
| Boxes.Toggled | drkai/app.js:513-514 | the environment's visibility flips and becomes a stored key; every other environment's entry is unchanged |
| Boxes.ToggleTwice | drkai/app.js:513-517 | toggling twice restores every environment's visibility, and the map itself when the key was already there |
| Boxes.ToggleTwiceRender | drkai/app.js:513-517 | toggling twice leaves the page as it was |
| Boxes.MenuIdsRendered | drkai/app.js:186-205 | a box in a visible environment has its tile, and so its menu, in one of the drawn sections |
| Boxes.SelectedColor | drkai/app.js:384-387 | the selected swatch's colour, or the first colour when none is selected |
| Boxes.SelectOption | drkai/app.js:373-382 | a swatch is selected exactly when one has that colour |
| Boxes.SelectedColorRoundTrip | drkai/app.js:373-387 | selecting a colour and reading it back gives it back when it is offered, and blue otherwise |
| Persist.LoadOfStored | drkai/app.js:72-129 | a load reads back exactly what the saves wrote, and writes nothing |
| Persist.LoadPerSlot | drkai/app.js:78-98 | with every slot readable, each part depends only on its own slot, and an empty slot gives that part's default |
| Persist.LoadCorrupt | drkai/app.js:99-104 | one unreadable slot puts all three parts at their defaults, and storage stays corrupt |
| Persist.LoadMirrors | drkai/app.js:78-98 | after a load with every slot readable, storage holds exactly the state in memory |
| Persist.LoadStable | drkai/app.js:72-105 | loading again from what a load left gives the same state and writes nothing new |
| Persist.LoadWritesOnlyEmpty | drkai/app.js:78-98 | a load only writes to empty slots |
| Persist.ResetBoxesLoad | drkai/app.js:636-644 | after the boxes reset and reload: default boxes and the stored URLs and filter, or all defaults when one of those slots is unreadable |
| Persist.ResetEnvsLoad | drkai/app.js:646-654 | the same for the URL reset |
| Persist.ResetVisibilityLoad | drkai/app.js:656-664 | the same for the filter reset |
| Persist.SaveRepairs | drkai/app.js:72-129 | saving the unreadable part rewrites its slot, so with the other slots readable the next load reads every part from storage again; after a corrupt load memory holds the default boxes, and those are what a save of boxes writes |
| Persist.ResetAllRecovers | drkai/app.js:666-683 | resetting everything recovers from any storage, unreadable slots included |
| Tiles.SplitAtAmp | drkai/app.js:211 | splitting at the first `&`: the parts concatenate to the input, and the first part has no `&` |
| Tiles.SplitAtAmpOf | drkai/app.js:211 | text without `&`, followed by text starting with `&`, splits back into those two parts |
| Tiles.EncodedHasNoAmp | drkai/app.js:211 | an encoded field contains no `&` |
| Tiles.TileHrefRoundTrip | drkai/app.js:211 | a tile's link reads back as exactly the box's container name and its environment's URL text |
| BoxManager.App.constructor | drkai/app.js:545-552 | `init` loads from storage and renders: a fresh page, memory as `Loaded`, storage as `AfterLoad` |
| BoxManager.App.LoadState | drkai/app.js:72-105 | memory becomes `Loaded(storage)` and storage becomes `AfterLoad(storage)` |
| BoxManager.App.SaveState | drkai/app.js:107-113 | the boxes slot holds the boxes; the other slots are unchanged |
| BoxManager.App.SaveEnvs | drkai/app.js:115-121 | the URL slot holds the URLs; the other slots are unchanged |
| BoxManager.App.SaveVisibleEnvs | drkai/app.js:123-129 | the filter slot holds the filter; the other slots are unchanged |
| BoxManager.App.RenderBoxes | drkai/app.js:175-206 | redrawing leaves every tile with its menu shut |
| BoxManager.App.AddBox | drkai/app.js:139-150 | the new box is appended under the given id, saved and drawn |
| BoxManager.App.UpdateBox | drkai/app.js:152-159 | boxes become `Updated`, saved and drawn; with no such id nothing changes at all |
| BoxManager.App.DeleteBox | drkai/app.js:161-165 | boxes become `Without`, saved and drawn |
| BoxManager.App.ToggleEnvVisibility | drkai/app.js:513-518 | the filter becomes `Toggled`, saved and drawn |
| BoxManager.App.HandleSaveEnv | drkai/app.js:431-442 | saved exactly when the trimmed input is non-empty; then that URL becomes the trimmed input, saved and drawn; otherwise nothing changes |
| BoxManager.App.OpenAddModal | drkai/app.js:325-343 | nothing is being edited; the form is reset to prod, empty names and the first colour's swatch selected; the modal is open |
| BoxManager.App.OpenEditModal | drkai/app.js:345-365 | the id is recorded in any case; only when the box exists is the form filled from it and the modal opened |
| BoxManager.App.FillForm | drkai/app.js:354-364 | the form takes the box's environment, container name, display name and colour, and the modal opens |
| BoxManager.App.CloseModal | drkai/app.js:367-371 | the modal shuts and nothing is being edited |
| BoxManager.App.SelectColor | drkai/app.js:373-382 | the swatch with that colour is selected, or none when no swatch has it |
| BoxManager.App.EditForm | drkai/app.js:396-398 | the form inputs hold what the user typed |
| BoxManager.App.HandleSaveBox | drkai/app.js:393-420 | saved exactly when both trimmed names are non-empty; then the box being edited is updated with the form data, or a new box is added, and the modal closes; otherwise nothing changes |
| BoxManager.App.SaveBoxData | drkai/app.js:406-419 | the update or addition the form's data causes, followed by closing the modal |
| BoxManager.App.HandleDeleteBox | drkai/app.js:422-429 | with a box being edited and the deletion confirmed, boxes become `Without`, saved, and the modal closes; otherwise nothing changes |
| BoxManager.App.ToggleTileMenu | drkai/app.js:294-306 | for a tile on the page, every other menu closes and this one flips; otherwise nothing changes |
| BoxManager.App.CloseTileMenu | drkai/app.js:308-313 | that tile's menu is shut and the rest are unchanged |
| BoxManager.App.CloseAllTileMenus | drkai/app.js:315-319 | no menu is left open |
| BoxManager.App.Reload | drkai/app.js:643 | the page starts again from storage: a fresh page, memory as `Loaded`, storage as `AfterLoad` |
| BoxManager.App.ResetBoxes | drkai/app.js:636-644 | unconfirmed: nothing changes; confirmed: the default boxes are saved and the page reloads from the result |
| BoxManager.App.ResetURLs | drkai/app.js:646-654 | the same with the default URLs |
| BoxManager.App.ResetVisibility | drkai/app.js:656-664 | the same with the default filter |
| BoxManager.App.ResetAll | drkai/app.js:666-683 | confirmed: storage holds all three defaults and the reloaded page shows them |

## Left out

- The DOM is out of scope. The model does not build elements, set classes or
  styles, or fill in text; a page's content is modelled as `Render`'s list of
  sections, plus the set of open menus.
- `createTile` is modelled only through the link it builds (`Tiles.TileHref`)
  and the menu it adds.
- `renderEnvConfig`, `updateFilterBadges`, `toggleInstructions` and
  `toggleEnvConfig` are left out: they only reflect state into the page, or
  show and hide help panels.
- `checkBrowser`, `isFirefox` and `setAsHomepage` are left out: they detect
  the browser, are browser-specific and change no state.
- `alert` and `confirm` are dialogs. A refusal is a `false` result, and a
  confirmation is a `bool` parameter.
- The "Saved!" button label and its `setTimeout` restore are left out: this
  is timing-only page feedback.
- `generateId` reads the clock and a random source. The new id is a
  parameter of `AddBox` and `HandleSaveBox`.
- `JSON.stringify` and `JSON.parse` are modelled as typed slots: empty, a
  value, or unparsable. Text that parses but has the wrong shape, such as a
  number where the box list should be, is not modelled.
- A failing `localStorage.setItem` (quota exceeded, storage disabled) is not
  modelled: saves always succeed.
- Environments are the three keys prod, dev and local. A box whose `env`
  string is anything else is not representable.
- `localeCompare` is modelled by code-point lexicographic order
  (`JsString.LexLe`). Locale collation rules are not modelled.
- `JsString.Capitalize`: `toUpperCase` is modelled on ASCII letters only.
  Other characters are kept unchanged. Every environment key is ASCII.
- Duplicate ids and duplicate `menu-<id>` elements: a menu is identified by
  its box id. When two boxes share an id, the page holds two menus that the
  model treats as one.
- `window.location.reload()` and `window.open` are outside the model. A
  reload is modelled as `Reload`, which loads again from storage and resets
  the page state.
- Event wiring in `init`, such as the click and submit listeners and the
  close-on-backdrop handlers, is left out. Each handler is a method, and any
  call sequence is possible.
- Form values read before the modal is first opened are left out. The
  constructor starts them at prod, empty names and no colour.
- Worker transport is left out: `new URL`, reading the query parameter,
  response headers and logging. `Fetch` takes the parameter's value as an
  `Option`.
- The worker's `catch` returning 500 is left out: nothing in the modelled
  decision throws.
- The `URIError` that `encodeURIComponent` raises on a lone surrogate is
  left out. Dafny strings here are sequences of Unicode scalar values, so a
  lone surrogate cannot occur.
