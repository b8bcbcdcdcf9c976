/**
 * The three local-storage slots the box manager keeps its state in, and what
 * `loadState` makes of them: the in-memory state it produces and the slots it
 * writes back on the way.
 *
 * The slots are "firefox-container-state" (the boxes),
 * "firefox-container-envs" (the base URLs) and
 * "firefox-container-visible-envs" (the visibility filter).  A slot's text is
 * modelled by what `JSON.parse` makes of it: nothing (no item, or the empty
 * string, both falsy), a value, or a parse error.
 */
module Persist {
  import opened Boxes

  /** One storage slot as `loadState` sees it. */
  datatype Slot<T> = Absent | Holds(value: T) | Unparsable

  /** The three slots. */
  datatype Storage = Storage(boxes: Slot<seq<Box>>, envs: Slot<map<Env, string>>, visibleEnvs: Slot<map<Env, bool>>)

  /** The persisted part of the in-memory `state`. */
  datatype Memory = Memory(boxes: seq<Box>, envs: map<Env, string>, visibleEnvs: map<Env, bool>)

  /** The defaults of all three parts: the nine boxes, the three URLs, prod and dev shown. */
  const DEFAULTS: Memory := Memory(DEFAULT_BOXES, DEFAULT_ENVS, DEFAULT_VISIBLE)

  /** The storage a `save*` of each part leaves: every slot holds its part. */
  function Stored(m: Memory): Storage {
    Storage(Holds(m.boxes), Holds(m.envs), Holds(m.visibleEnvs))
  }

  /** Some slot fails to parse, so `loadState` ends in its `catch`. */
  predicate Corrupt(st: Storage) {
    st.boxes.Unparsable? || st.envs.Unparsable? || st.visibleEnvs.Unparsable?
  }

  /** A slot's value when it holds one, else the default. */
  function ValueOr<T>(slot: Slot<T>, default: T): T {
    if slot.Holds? then slot.value else default
  }

  /**
   * The state `loadState` leaves in memory: each part from its slot, or its
   * default when the slot is empty; all three defaults once any slot fails to
   * parse.
   */
  function Loaded(st: Storage): Memory {
    if Corrupt(st) then DEFAULTS
    else Memory(ValueOr(st.boxes, DEFAULT_BOXES), ValueOr(st.envs, DEFAULT_ENVS), ValueOr(st.visibleEnvs, DEFAULT_VISIBLE))
  }

  /**
   * The storage after `loadState`: an empty slot is filled with its default,
   * unless an earlier slot failed to parse (all three are read first; after
   * the exception the later slots are not parsed, an empty later slot is not
   * filled, and the catch saves nothing).
   */
  function AfterLoad(st: Storage): Storage {
    Storage(
      if st.boxes.Absent? then Holds(DEFAULT_BOXES) else st.boxes,
      if st.envs.Absent? && !st.boxes.Unparsable? then Holds(DEFAULT_ENVS) else st.envs,
      if st.visibleEnvs.Absent? && !st.boxes.Unparsable? && !st.envs.Unparsable? then Holds(DEFAULT_VISIBLE)
      else st.visibleEnvs)
  }

  /** Saved state is what the next load reads back. */
  lemma LoadOfStored(m: Memory)
    ensures Loaded(Stored(m)) == m
    ensures AfterLoad(Stored(m)) == Stored(m)
  {
  }

  /** With every slot readable, each part falls back to its default on its own, whatever the other slots hold. */
  lemma LoadPerSlot(st: Storage, other: Storage)
    requires !Corrupt(st) && !Corrupt(other)
    ensures st.boxes == other.boxes ==> Loaded(st).boxes == Loaded(other).boxes
    ensures st.envs == other.envs ==> Loaded(st).envs == Loaded(other).envs
    ensures st.visibleEnvs == other.visibleEnvs ==> Loaded(st).visibleEnvs == Loaded(other).visibleEnvs
    ensures st.boxes.Absent? ==> Loaded(st).boxes == DEFAULT_BOXES
    ensures st.envs.Absent? ==> Loaded(st).envs == DEFAULT_ENVS
    ensures st.visibleEnvs.Absent? ==> Loaded(st).visibleEnvs == DEFAULT_VISIBLE
  {
  }

  /** One unreadable slot discards the readable ones too: memory holds all defaults. */
  lemma LoadCorrupt(st: Storage)
    requires Corrupt(st)
    ensures Loaded(st) == DEFAULTS
    ensures Corrupt(AfterLoad(st))
  {
  }

  /** After a load with every slot readable, storage mirrors memory exactly. */
  lemma LoadMirrors(st: Storage)
    requires !Corrupt(st)
    ensures AfterLoad(st) == Stored(Loaded(st))
  {
  }

  /** Loading again from what a load left behind gives the same memory and writes nothing new. */
  lemma LoadStable(st: Storage)
    ensures Loaded(AfterLoad(st)) == Loaded(st)
    ensures AfterLoad(AfterLoad(st)) == AfterLoad(st)
  {
  }

  /** A load only ever fills empty slots; a slot holding a value or unreadable text is left as it was. */
  lemma LoadWritesOnlyEmpty(st: Storage)
    ensures !st.boxes.Absent? ==> AfterLoad(st).boxes == st.boxes
    ensures !st.envs.Absent? ==> AfterLoad(st).envs == st.envs
    ensures !st.visibleEnvs.Absent? ==> AfterLoad(st).visibleEnvs == st.visibleEnvs
  {
  }

  /**
   * After `resetBoxes` writes the default boxes and the page reloads, memory
   * holds the default boxes and the stored URLs and filter -- unless one of
   * those two slots is unreadable, and then every part is back at its default.
   */
  lemma ResetBoxesLoad(st: Storage)
    ensures !st.envs.Unparsable? && !st.visibleEnvs.Unparsable? ==>
      Loaded(st.(boxes := Holds(DEFAULT_BOXES))) ==
      Memory(DEFAULT_BOXES, ValueOr(st.envs, DEFAULT_ENVS), ValueOr(st.visibleEnvs, DEFAULT_VISIBLE))
    ensures st.envs.Unparsable? || st.visibleEnvs.Unparsable? ==> Loaded(st.(boxes := Holds(DEFAULT_BOXES))) == DEFAULTS
  {
  }

  /** The same for `resetURLs`: the default URLs come back, the rest as stored unless unreadable. */
  lemma ResetEnvsLoad(st: Storage)
    ensures !st.boxes.Unparsable? && !st.visibleEnvs.Unparsable? ==>
      Loaded(st.(envs := Holds(DEFAULT_ENVS))) ==
      Memory(ValueOr(st.boxes, DEFAULT_BOXES), DEFAULT_ENVS, ValueOr(st.visibleEnvs, DEFAULT_VISIBLE))
    ensures st.boxes.Unparsable? || st.visibleEnvs.Unparsable? ==> Loaded(st.(envs := Holds(DEFAULT_ENVS))) == DEFAULTS
  {
  }

  /** The same for `resetVisibility`: the default filter comes back, the rest as stored unless unreadable. */
  lemma ResetVisibilityLoad(st: Storage)
    ensures !st.boxes.Unparsable? && !st.envs.Unparsable? ==>
      Loaded(st.(visibleEnvs := Holds(DEFAULT_VISIBLE))) ==
      Memory(ValueOr(st.boxes, DEFAULT_BOXES), ValueOr(st.envs, DEFAULT_ENVS), DEFAULT_VISIBLE)
    ensures st.boxes.Unparsable? || st.envs.Unparsable? ==> Loaded(st.(visibleEnvs := Holds(DEFAULT_VISIBLE))) == DEFAULTS
  {
  }

  /**
   * Saving a part overwrites its slot, repairing it when it was the unreadable
   * one: with the other two slots readable, the next load reads every part
   * from its slot again.  The part saved is whatever memory held, which after
   * a corrupt load is the default; so the first save of boxes after such a
   * load replaces the readable stored boxes with the defaults plus whatever
   * was added.
   */
  lemma SaveRepairs(st: Storage, m: Memory)
    ensures !st.envs.Unparsable? && !st.visibleEnvs.Unparsable? ==>
      !Corrupt(st.(boxes := Holds(m.boxes))) && Loaded(st.(boxes := Holds(m.boxes))).boxes == m.boxes
    ensures !st.boxes.Unparsable? && !st.visibleEnvs.Unparsable? ==>
      !Corrupt(st.(envs := Holds(m.envs))) && Loaded(st.(envs := Holds(m.envs))).envs == m.envs
    ensures !st.boxes.Unparsable? && !st.envs.Unparsable? ==>
      !Corrupt(st.(visibleEnvs := Holds(m.visibleEnvs))) && Loaded(st.(visibleEnvs := Holds(m.visibleEnvs))).visibleEnvs == m.visibleEnvs
    ensures Corrupt(st) ==> Loaded(st).boxes == DEFAULT_BOXES
  {
  }

  /** Resetting everything recovers from any storage, unreadable slots included. */
  lemma ResetAllRecovers(st: Storage)
    ensures Loaded(st.(boxes := Holds(DEFAULT_BOXES), envs := Holds(DEFAULT_ENVS), visibleEnvs := Holds(DEFAULT_VISIBLE))) == DEFAULTS
  {
  }
}
