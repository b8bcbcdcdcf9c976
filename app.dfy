/**
 * The box manager page: the global `state` record, the page state the
 * handlers read and write (the box modal and its form, the colour picker,
 * the open tile menu) and local storage, with one method per operation.
 */
module BoxManager {
  import opened Wrappers
  import opened JsString
  import opened Boxes
  import opened Persist

  /** `if (state.editingId)`: an id only counts when it is set and not the empty string. */
  predicate IsEditing(editingId: Option<string>) {
    editingId.Some? && editingId.value != ""
  }

  class App {
    // The `state` record.
    var boxes: seq<Box>
    var envs: map<Env, string>
    var visibleEnvs: map<Env, bool>
    var editingId: Option<string>

    // The box modal: whether it is open, its three inputs and the selected colour.
    var modalOpen: bool
    var formEnv: Env
    var formContainerName: string
    var formDisplayName: string
    var selectedColor: Option<string>

    // The ids whose tile dropdown carries the `open` class.
    var openMenus: set<string>

    // Local storage.
    var storage: Storage

    /** Only a menu on the page can be open, and at most one is. */
    ghost predicate Valid()
      reads this`openMenus, this`boxes, this`visibleEnvs
    {
      openMenus <= MenuIds(boxes, visibleEnvs) && |openMenus| <= 1
    }

    /** The persisted part of the state. */
    function Persisted(): Memory
      reads this
    {
      Memory(boxes, envs, visibleEnvs)
    }

    /** The `boxData` the form submits: the chosen environment, both names trimmed, the selected colour. */
    function FormData(): BoxData
      reads this`formEnv, this`formContainerName, this`formDisplayName, this`selectedColor
    {
      BoxData(formEnv, Trim(formContainerName), Trim(formDisplayName), SelectedColor(selectedColor))
    }

    /** The page as a fresh load leaves it: nothing being edited, the modal shut, no menu open, no colour picked. */
    predicate FreshPage()
      reads this
    {
      editingId == None && !modalOpen && openMenus == {} && selectedColor == None
      && formEnv == Prod && formContainerName == "" && formDisplayName == ""
    }

    /** `init()`: the state loaded from storage and the boxes rendered. */
    constructor (st: Storage)
      ensures Valid() && FreshPage()
      ensures Persisted() == Loaded(st)
      ensures storage == AfterLoad(st)
    {
      boxes, envs, visibleEnvs, editingId := [], DEFAULT_ENVS, DEFAULT_VISIBLE, None;
      modalOpen, formEnv, formContainerName, formDisplayName, selectedColor := false, Prod, "", "", None;
      openMenus := {};
      storage := st;
      new;
      LoadState();
    }

    /**
     * `loadState()`: each part from its slot; an empty slot gets the default,
     * which is saved at once; once a slot fails to parse, the later slots are
     * not parsed and an empty later slot is not filled, and the `catch` puts
     * every part back at its default without saving anything.
     */
    method LoadState()
      modifies this`boxes, this`envs, this`visibleEnvs, this`storage
      ensures Persisted() == Loaded(old(storage))
      ensures storage == AfterLoad(old(storage))
    {
      var failed := false;
      match storage.boxes {
        case Holds(v) => boxes := v;
        case Absent =>
          boxes := DEFAULT_BOXES;
          SaveState();
        case Unparsable => failed := true;
      }
      if !failed {
        match storage.envs {
          case Holds(v) => envs := v;
          case Absent =>
            envs := DEFAULT_ENVS;
            SaveEnvs();
          case Unparsable => failed := true;
        }
      }
      if !failed {
        match storage.visibleEnvs {
          case Holds(v) => visibleEnvs := v;
          case Absent =>
            visibleEnvs := DEFAULT_VISIBLE;
            SaveVisibleEnvs();
          case Unparsable => failed := true;
        }
      }
      if failed {
        boxes, envs, visibleEnvs := DEFAULT_BOXES, DEFAULT_ENVS, DEFAULT_VISIBLE;
      }
    }

    /** `saveState()`: the boxes slot now holds the boxes. */
    method SaveState()
      modifies this`storage
      ensures storage == old(storage).(boxes := Holds(boxes))
    {
      storage := storage.(boxes := Holds(boxes));
    }

    /** `saveEnvs()`: the URL slot now holds the URLs. */
    method SaveEnvs()
      modifies this`storage
      ensures storage == old(storage).(envs := Holds(envs))
    {
      storage := storage.(envs := Holds(envs));
    }

    /** `saveVisibleEnvs()`: the filter slot now holds the filter. */
    method SaveVisibleEnvs()
      modifies this`storage
      ensures storage == old(storage).(visibleEnvs := Holds(visibleEnvs))
    {
      storage := storage.(visibleEnvs := Holds(visibleEnvs));
    }

    /** `renderBoxes()`: the page is redrawn as `Render(boxes, visibleEnvs)`; the new tiles all have their menus shut. */
    method RenderBoxes()
      modifies this`openMenus
      ensures openMenus == {} && Valid()
    {
      openMenus := {};
    }

    /** `addBox(box)` with `id` the generated id: the new box goes at the end, is saved and drawn. */
    method AddBox(data: BoxData, id: string)
      modifies this`boxes, this`storage, this`openMenus
      ensures boxes == old(boxes) + [WithId(id, data)]
      ensures storage == old(storage).(boxes := Holds(boxes))
      ensures openMenus == {} && Valid()
    {
      boxes := boxes + [WithId(id, data)];
      SaveState();
      RenderBoxes();
    }

    /**
     * `updateBox(id, updates)`: the first box with that id takes the new
     * fields and keeps its id; it is saved and drawn.  With no such box
     * nothing happens at all.
     */
    method UpdateBox(id: string, data: BoxData)
      requires Valid()
      modifies this`boxes, this`storage, this`openMenus
      ensures boxes == Updated(old(boxes), id, data)
      ensures IndexOfId(old(boxes), id) >= 0 ==> storage == old(storage).(boxes := Holds(boxes)) && openMenus == {}
      ensures IndexOfId(old(boxes), id) < 0 ==> boxes == old(boxes) && storage == old(storage) && openMenus == old(openMenus)
      ensures Valid()
    {
      var index := IndexOfId(boxes, id);
      if index != -1 {
        boxes := boxes[index := Merge(boxes[index], data)];
        SaveState();
        RenderBoxes();
      }
    }

    /** `deleteBox(id)`: every box with that id goes; the list is saved and drawn even when none matched. */
    method DeleteBox(id: string)
      modifies this`boxes, this`storage, this`openMenus
      ensures boxes == Without(old(boxes), id)
      ensures storage == old(storage).(boxes := Holds(boxes))
      ensures openMenus == {} && Valid()
    {
      boxes := Without(boxes, id);
      SaveState();
      RenderBoxes();
    }

    /** `toggleEnvVisibility(env)`: that environment's flag flips, is saved, and the page is redrawn. */
    method ToggleEnvVisibility(e: Env)
      modifies this`visibleEnvs, this`storage, this`openMenus
      ensures visibleEnvs == Toggled(old(visibleEnvs), e)
      ensures storage == old(storage).(visibleEnvs := Holds(visibleEnvs))
      ensures openMenus == {} && Valid()
    {
      visibleEnvs := visibleEnvs[e := !IsVisible(visibleEnvs, e)];
      SaveVisibleEnvs();
      RenderBoxes();
    }

    /**
     * `handleSaveEnv(env)` with `input` the text of that environment's URL
     * field: refused when it trims to nothing; otherwise that URL becomes the
     * trimmed text, is saved and the page is redrawn.
     */
    method HandleSaveEnv(e: Env, input: string) returns (saved: bool)
      requires Valid()
      modifies this`envs, this`storage, this`openMenus
      ensures saved <==> Trim(input) != []
      ensures !saved ==> envs == old(envs) && storage == old(storage) && openMenus == old(openMenus)
      ensures saved ==> envs == old(envs)[e := Trim(input)]
      ensures saved ==> storage == old(storage).(envs := Holds(envs)) && openMenus == {}
      ensures Valid()
    {
      var url := Trim(input);
      if url == [] {
        return false;
      }
      envs := envs[e := url];
      SaveEnvs();
      RenderBoxes();
      return true;
    }

    /** `openAddModal()`: nothing is being edited, the form is reset to prod, empty names and blue. */
    method OpenAddModal()
      requires Valid()
      modifies this`editingId, this`formEnv, this`formContainerName, this`formDisplayName, this`selectedColor, this`modalOpen
      ensures Valid()
      ensures editingId == None && modalOpen
      ensures formEnv == Prod && formContainerName == "" && formDisplayName == ""
      ensures selectedColor == Some(COLOR_OPTIONS[0])
    {
      editingId := None;
      formEnv, formContainerName, formDisplayName := Prod, "", "";
      selectedColor := SelectOption(COLOR_OPTIONS[0]);
      modalOpen := true;
    }

    /**
     * `openEditModal(id)`: the id is recorded as being edited in any case;
     * only when `getBox` finds the box is the form filled from it and the
     * modal opened.
     */
    method OpenEditModal(id: string)
      requires Valid()
      modifies this`editingId, this`formEnv, this`formContainerName, this`formDisplayName, this`selectedColor, this`modalOpen
      ensures Valid()
      ensures editingId == Some(id)
      ensures GetBox(boxes, id).None? ==>
        && modalOpen == old(modalOpen) && selectedColor == old(selectedColor) && formEnv == old(formEnv)
        && formContainerName == old(formContainerName) && formDisplayName == old(formDisplayName)
      ensures GetBox(boxes, id).Some? ==>
        var b := GetBox(boxes, id).value;
        && modalOpen && formEnv == b.env && formContainerName == b.containerName && formDisplayName == b.displayName
        && selectedColor == SelectOption(b.color)
    {
      editingId := Some(id);
      var box := GetBox(boxes, id);
      if box.Some? {
        FillForm(box.value);
      }
    }

    /** The edit form filled from a box: its environment, both names and its colour; the modal opens. */
    method FillForm(b: Box)
      modifies this`formEnv, this`formContainerName, this`formDisplayName, this`selectedColor, this`modalOpen
      ensures modalOpen && formEnv == b.env && formContainerName == b.containerName && formDisplayName == b.displayName
      ensures selectedColor == SelectOption(b.color)
    {
      formEnv, formContainerName, formDisplayName := b.env, b.containerName, b.displayName;
      selectedColor := SelectOption(b.color);
      modalOpen := true;
    }

    /** `closeModal()`: the modal shuts and nothing is being edited. */
    method CloseModal()
      requires Valid()
      modifies this`modalOpen, this`editingId
      ensures Valid()
      ensures !modalOpen && editingId == None
    {
      modalOpen := false;
      editingId := None;
    }

    /** A click on a colour swatch, `selectColor(color)`. */
    method SelectColor(color: string)
      requires Valid()
      modifies this`selectedColor
      ensures Valid()
      ensures selectedColor == SelectOption(color)
      ensures color in COLOR_OPTIONS ==> SelectedColor(selectedColor) == color
    {
      selectedColor := SelectOption(color);
    }

    /** The user types into the box form. */
    method EditForm(env: Env, containerName: string, displayName: string)
      requires Valid()
      modifies this`formEnv, this`formContainerName, this`formDisplayName
      ensures Valid()
      ensures formEnv == env && formContainerName == containerName && formDisplayName == displayName
    {
      formEnv, formContainerName, formDisplayName := env, containerName, displayName;
    }

    /**
     * `handleSaveBox(e)` with `newId` the id `generateId()` would give: refused
     * when either trimmed name is empty; otherwise the form's data is saved as
     * `SaveBoxData` describes.
     */
    method HandleSaveBox(newId: string) returns (saved: bool)
      requires Valid()
      modifies this`boxes, this`storage, this`openMenus, this`editingId, this`modalOpen
      ensures saved <==> Trim(formContainerName) != [] && Trim(formDisplayName) != []
      ensures !saved ==>
        && boxes == old(boxes) && storage == old(storage) && openMenus == old(openMenus)
        && editingId == old(editingId) && modalOpen == old(modalOpen)
      ensures saved && IsEditing(old(editingId)) ==> boxes == Updated(old(boxes), old(editingId).value, FormData())
      ensures saved && !IsEditing(old(editingId)) ==> boxes == old(boxes) + [WithId(newId, FormData())]
      ensures saved && (!IsEditing(old(editingId)) || IndexOfId(old(boxes), old(editingId).value) >= 0) ==>
        storage == old(storage).(boxes := Holds(boxes)) && openMenus == {}
      ensures saved && IsEditing(old(editingId)) && IndexOfId(old(boxes), old(editingId).value) < 0 ==>
        boxes == old(boxes) && storage == old(storage) && openMenus == old(openMenus)
      ensures saved ==> editingId == None && !modalOpen
      ensures Valid()
    {
      var containerName := Trim(formContainerName);
      var displayName := Trim(formDisplayName);
      if containerName == [] || displayName == [] {
        return false;
      }
      SaveBoxData(BoxData(formEnv, containerName, displayName, SelectedColor(selectedColor)), newId);
      return true;
    }

    /**
     * The rest of `handleSaveBox` once the names are accepted: the box being
     * edited is updated with the data, or a new box added under `newId` when
     * nothing is being edited; then the modal closes.
     */
    method SaveBoxData(data: BoxData, newId: string)
      requires Valid()
      modifies this`boxes, this`storage, this`openMenus, this`editingId, this`modalOpen
      ensures IsEditing(old(editingId)) ==> boxes == Updated(old(boxes), old(editingId).value, data)
      ensures !IsEditing(old(editingId)) ==> boxes == old(boxes) + [WithId(newId, data)]
      ensures !IsEditing(old(editingId)) || IndexOfId(old(boxes), old(editingId).value) >= 0 ==>
        storage == old(storage).(boxes := Holds(boxes)) && openMenus == {}
      ensures IsEditing(old(editingId)) && IndexOfId(old(boxes), old(editingId).value) < 0 ==>
        boxes == old(boxes) && storage == old(storage) && openMenus == old(openMenus)
      ensures editingId == None && !modalOpen
      ensures Valid()
    {
      if IsEditing(editingId) {
        UpdateBox(editingId.value, data);
      } else {
        AddBox(data, newId);
      }
      CloseModal();
    }

    /**
     * `handleDeleteBox()` with `confirmed` the answer to its `confirm`: with
     * a box being edited and the deletion confirmed, the box is deleted and the
     * modal closes; otherwise nothing happens.
     */
    method HandleDeleteBox(confirmed: bool)
      requires Valid()
      modifies this`boxes, this`storage, this`openMenus, this`editingId, this`modalOpen
      ensures Valid()
      ensures !(IsEditing(old(editingId)) && confirmed) ==>
        && boxes == old(boxes) && storage == old(storage) && openMenus == old(openMenus)
        && editingId == old(editingId) && modalOpen == old(modalOpen)
      ensures IsEditing(old(editingId)) && confirmed ==>
        && boxes == Without(old(boxes), old(editingId).value)
        && storage == old(storage).(boxes := Holds(boxes))
        && openMenus == {} && editingId == None && !modalOpen
    {
      if !IsEditing(editingId) {
        return;
      }
      if confirmed {
        DeleteBox(editingId.value);
        CloseModal();
      }
    }

    /**
     * `toggleTileMenu(id)`: when the tile is on the page, every other open
     * menu is closed and this one flips, so afterwards at most this one is open.
     */
    method ToggleTileMenu(id: string)
      requires Valid()
      modifies this`openMenus
      ensures id !in MenuIds(boxes, visibleEnvs) ==> openMenus == old(openMenus)
      ensures id in MenuIds(boxes, visibleEnvs) ==> openMenus == if id in old(openMenus) then {} else {id}
      ensures Valid()
    {
      if id !in MenuIds(boxes, visibleEnvs) {
        return;
      }
      ghost var was := openMenus;
      var pending := openMenus;
      while pending != {}
        invariant pending <= was
        invariant forall x :: x in openMenus <==> x in pending || (x == id && x in was)
        decreases |pending|
      {
        var m :| m in pending;
        if m != id {
          openMenus := openMenus - {m};
        }
        pending := pending - {m};
      }
      if id in openMenus {
        openMenus := openMenus - {id};
        assert openMenus == {};
      } else {
        openMenus := openMenus + {id};
        assert openMenus == {id};
      }
    }

    /** `closeTileMenu(id)`: that tile's menu is shut, the rest left as they are. */
    method CloseTileMenu(id: string)
      requires Valid()
      modifies this`openMenus
      ensures openMenus == old(openMenus) - {id}
      ensures Valid()
    {
      if id in MenuIds(boxes, visibleEnvs) {
        openMenus := openMenus - {id};
      }
    }

    /** `closeAllTileMenus()`: each open menu in turn is shut. */
    method CloseAllTileMenus()
      modifies this`openMenus
      ensures openMenus == {} && Valid()
    {
      var pending := openMenus;
      while pending != {}
        invariant openMenus == pending
        decreases |pending|
      {
        var m :| m in pending;
        openMenus := openMenus - {m};
        pending := pending - {m};
      }
    }

    /** `window.location.reload()`: the page starts again from what storage holds. */
    method Reload()
      modifies this
      ensures Valid() && FreshPage()
      ensures Persisted() == Loaded(old(storage))
      ensures storage == AfterLoad(old(storage))
    {
      editingId, modalOpen, openMenus, selectedColor := None, false, {}, None;
      formEnv, formContainerName, formDisplayName := Prod, "", "";
      LoadState();
    }

    /** `resetBoxes()`: once confirmed, the default boxes are saved and the page reloads. */
    method ResetBoxes(confirmed: bool)
      requires Valid()
      modifies this
      ensures !confirmed ==> unchanged(this)
      ensures confirmed ==> storage == AfterLoad(old(storage).(boxes := Holds(DEFAULT_BOXES)))
      ensures confirmed ==> Persisted() == Loaded(old(storage).(boxes := Holds(DEFAULT_BOXES))) && FreshPage()
      ensures Valid()
    {
      if !confirmed {
        return;
      }
      boxes := DEFAULT_BOXES;
      SaveState();
      Reload();
    }

    /** `resetURLs()`: once confirmed, the default URLs are saved and the page reloads. */
    method ResetURLs(confirmed: bool)
      requires Valid()
      modifies this
      ensures !confirmed ==> unchanged(this)
      ensures confirmed ==> storage == AfterLoad(old(storage).(envs := Holds(DEFAULT_ENVS)))
      ensures confirmed ==> Persisted() == Loaded(old(storage).(envs := Holds(DEFAULT_ENVS))) && FreshPage()
      ensures Valid()
    {
      if !confirmed {
        return;
      }
      envs := DEFAULT_ENVS;
      SaveEnvs();
      Reload();
    }

    /** `resetVisibility()`: once confirmed, the default filter is saved and the page reloads. */
    method ResetVisibility(confirmed: bool)
      requires Valid()
      modifies this
      ensures !confirmed ==> unchanged(this)
      ensures confirmed ==> storage == AfterLoad(old(storage).(visibleEnvs := Holds(DEFAULT_VISIBLE)))
      ensures confirmed ==> Persisted() == Loaded(old(storage).(visibleEnvs := Holds(DEFAULT_VISIBLE))) && FreshPage()
      ensures Valid()
    {
      if !confirmed {
        return;
      }
      visibleEnvs := DEFAULT_VISIBLE;
      SaveVisibleEnvs();
      Reload();
    }

    /** `resetAll()`: once confirmed, all three defaults are saved and the page reloads with them. */
    method ResetAll(confirmed: bool)
      requires Valid()
      modifies this
      ensures !confirmed ==> unchanged(this)
      ensures confirmed ==> storage == Stored(DEFAULTS) && Persisted() == DEFAULTS && FreshPage()
      ensures Valid()
    {
      if !confirmed {
        return;
      }
      boxes, envs, visibleEnvs := DEFAULT_BOXES, DEFAULT_ENVS, DEFAULT_VISIBLE;
      SaveState();
      SaveEnvs();
      SaveVisibleEnvs();
      LoadOfStored(DEFAULTS);
      Reload();
    }
  }
}
