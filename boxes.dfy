/**
 * The values of the box manager: environments, boxes, the default
 * configuration, and the pure logic over the list of boxes -- lookup,
 * update, removal, grouping by environment, sorting by display name and the
 * sections the page shows.
 */
module Boxes {
  import opened Wrappers
  import opened JsArray
  import opened JsString

  /** The three deployment environments a box can point at. */
  datatype Env = Local | Dev | Prod

  /** The key an environment has in `envs`, `visibleEnvs` and in a box's `env` field. */
  function EnvKey(e: Env): string {
    match e
    case Local => "local"
    case Dev => "dev"
    case Prod => "prod"
  }

  /** Position of an environment's section on the page: prod first, then dev, then local. */
  function Rank(e: Env): nat {
    match e
    case Prod => 0
    case Dev => 1
    case Local => 2
  }

  /** A launcher tile: a Firefox container name opened on one environment's URL. */
  datatype Box = Box(id: string, env: Env, containerName: string, displayName: string, color: string)

  /** The four fields the box form supplies; a box is these plus an id. */
  datatype BoxData = BoxData(env: Env, containerName: string, displayName: string, color: string)

  /** The box the form data describes, under the given id. */
  function WithId(id: string, d: BoxData): Box {
    Box(id, d.env, d.containerName, d.displayName, d.color)
  }

  /**
   * `{ ...box, ...updates }` with updates carrying the four form fields and no
   * id: the fields are overwritten and the id is kept.
   */
  function Merge(b: Box, d: BoxData): (r: Box)
    ensures r.id == b.id
    ensures r.env == d.env && r.containerName == d.containerName
    ensures r.displayName == d.displayName && r.color == d.color
  {
    b.(env := d.env, containerName := d.containerName, displayName := d.displayName, color := d.color)
  }

  /** The nine boxes a first visit starts with: Admin, Coordinator and Doctor on each environment. */
  const DEFAULT_BOXES: seq<Box> := [
    Box("1", Local, "Local:Admin", "Admin", "#8b5cf6"),
    Box("2", Local, "Local:Coordinator", "Coordinator", "#10b981"),
    Box("3", Local, "Local:Doctor", "Doctor", "#3b82f6"),
    Box("4", Dev, "Dev:Admin", "Admin", "#8b5cf6"),
    Box("5", Dev, "Dev:Coordinator", "Coordinator", "#10b981"),
    Box("6", Dev, "Dev:Doctor", "Doctor", "#3b82f6"),
    Box("7", Prod, "Prod:Admin", "Admin", "#8b5cf6"),
    Box("8", Prod, "Prod:Coordinator", "Coordinator", "#10b981"),
    Box("9", Prod, "Prod:Doctor", "Doctor", "#3b82f6")
  ]

  /** The base URL of each environment before the user changes it. */
  const DEFAULT_ENVS: map<Env, string> := map[
    Local := "http://localhost:3000/drkai",
    Dev := "https://app-dev.preventivehealth.ai/drkai",
    Prod := "https://app.preventivehealth.ai/drkai"
  ]

  /** Which environments are shown before the user changes it: prod and dev, not local. */
  const DEFAULT_VISIBLE: map<Env, bool> := map[Prod := true, Dev := true, Local := false]

  /** The colours of the picker: blue, green, purple, red, amber, pink. */
  const COLOR_OPTIONS: seq<string> := ["#3b82f6", "#10b981", "#8b5cf6", "#ef4444", "#f59e0b", "#ec4899"]

  /** `state.visibleEnvs[env]` read as a condition: a missing key is `undefined`, which is falsy. */
  predicate IsVisible(vis: map<Env, bool>, e: Env) {
    e in vis && vis[e]
  }

  /** `b => b.id === id` */
  function IdIs(id: string): Box -> bool {
    (b: Box) => b.id == id
  }

  /** `b => b.id !== id` */
  function IdIsNot(id: string): Box -> bool {
    (b: Box) => b.id != id
  }

  /** `b => b.env === env` */
  function InEnv(e: Env): Box -> bool {
    (b: Box) => b.env == e
  }

  /** The index `findIndex` reports for an id: the first box carrying it, or -1. */
  function IndexOfId(s: seq<Box>, id: string): (r: int)
    ensures -1 <= r < |s|
    ensures r == -1 <==> forall i :: 0 <= i < |s| ==> s[i].id != id
    ensures r >= 0 ==> s[r].id == id && forall j :: 0 <= j < r ==> s[j].id != id
  {
    var k := FindIndex(IdIs(id), s);
    assert k >= 0 ==> IdIs(id)(s[k]);
    assert forall j :: 0 <= j < |s| ==> (IdIs(id)(s[j]) <==> s[j].id == id);
    k
  }

  /** `getBox(id)`: the first box with that id, or nothing when no box has it. */
  function GetBox(s: seq<Box>, id: string): (r: Option<Box>)
    ensures r.None? <==> forall i :: 0 <= i < |s| ==> s[i].id != id
    ensures r.Some? ==> IndexOfId(s, id) >= 0 && r.value == s[IndexOfId(s, id)]
  {
    FindAtFindIndex(IdIs(id), s);
    Find(IdIs(id), s)
  }

  /**
   * The boxes after `updateBox(id, data)`: the first box with that id becomes
   * the merge of it and the data; with no such box, nothing changes.
   */
  function Updated(s: seq<Box>, id: string, d: BoxData): (r: seq<Box>)
    ensures |r| == |s|
    ensures forall i :: 0 <= i < |s| && i != IndexOfId(s, id) ==> r[i] == s[i]
    ensures IndexOfId(s, id) >= 0 ==> r[IndexOfId(s, id)] == Merge(s[IndexOfId(s, id)], d)
    ensures forall i :: 0 <= i < |s| ==> r[i].id == s[i].id
  {
    var k := IndexOfId(s, id);
    if k < 0 then s else s[k := Merge(s[k], d)]
  }

  /** When no box has the id, the update changes nothing. */
  lemma UpdatedMissing(s: seq<Box>, id: string, d: BoxData)
    requires forall i :: 0 <= i < |s| ==> s[i].id != id
    ensures Updated(s, id, d) == s
  {
  }

  /** Two lists carrying the same ids in the same order give the same `findIndex`. */
  lemma IndexOfSameIds(s: seq<Box>, t: seq<Box>, id: string)
    requires |s| == |t| && forall i :: 0 <= i < |s| ==> s[i].id == t[i].id
    ensures IndexOfId(s, id) == IndexOfId(t, id)
  {
  }

  /** Submitting the same edit twice has the effect of submitting it once. */
  lemma UpdatedIdempotent(s: seq<Box>, id: string, d: BoxData)
    ensures Updated(Updated(s, id, d), id, d) == Updated(s, id, d)
  {
    IndexOfSameIds(s, Updated(s, id, d), id);
  }

  /** After an update, `getBox` finds the merged box. */
  lemma GetBoxAfterUpdate(s: seq<Box>, id: string, d: BoxData)
    requires GetBox(s, id).Some?
    ensures GetBox(Updated(s, id, d), id) == Some(Merge(GetBox(s, id).value, d))
  {
    IndexOfSameIds(s, Updated(s, id, d), id);
  }

  /** The boxes after `deleteBox(id)`: the list filtered on `b.id !== id`. */
  function Without(s: seq<Box>, id: string): (r: seq<Box>)
    ensures forall i :: 0 <= i < |r| ==> r[i].id != id
    ensures forall i :: 0 <= i < |s| && s[i].id != id ==> s[i] in r
    ensures multiset(r) <= multiset(s)
  {
    var r := Filter(IdIsNot(id), s);
    FilterKeeps(IdIsNot(id), s);
    assert forall i :: 0 <= i < |r| ==> IdIsNot(id)(r[i]);
    r
  }

  /** Deleting twice is deleting once. */
  lemma WithoutIdempotent(s: seq<Box>, id: string)
    ensures Without(Without(s, id), id) == Without(s, id)
  {
    FilterIdempotent(IdIsNot(id), s);
  }

  /** Deleting an id no box has leaves the list unchanged. */
  lemma WithoutMissing(s: seq<Box>, id: string)
    requires forall i :: 0 <= i < |s| ==> s[i].id != id
    ensures Without(s, id) == s
  {
    assert forall i :: 0 <= i < |s| ==> IdIsNot(id)(s[i]);
    FilterAll(IdIsNot(id), s);
  }

  /** Deletion keeps the relative order of the remaining boxes: it works piecewise on a split list. */
  lemma WithoutConcat(a: seq<Box>, b: seq<Box>, id: string)
    ensures Without(a + b, id) == Without(a, id) + Without(b, id)
  {
    FilterConcat(IdIsNot(id), a, b);
  }

  /** After a deletion `getBox` finds nothing. */
  lemma GetBoxAfterDelete(s: seq<Box>, id: string)
    ensures GetBox(Without(s, id), id).None?
  {
  }

  /** A box appended under an id no other box has is what `getBox` finds for it. */
  lemma GetBoxAfterAdd(s: seq<Box>, id: string, d: BoxData)
    requires forall i :: 0 <= i < |s| ==> s[i].id != id
    ensures GetBox(s + [WithId(id, d)], id) == Some(WithId(id, d))
  {
    var t := s + [WithId(id, d)];
    assert t[|s|].id == id;
    assert forall i :: 0 <= i < |s| ==> t[i].id != id;
  }

  /** The boxes of one environment, in list order. */
  function OfEnv(s: seq<Box>, e: Env): (r: seq<Box>)
    ensures forall i :: 0 <= i < |r| ==> r[i].env == e
    ensures forall i :: 0 <= i < |s| && s[i].env == e ==> s[i] in r
    ensures multiset(r) <= multiset(s)
  {
    var r := Filter(InEnv(e), s);
    FilterKeeps(InEnv(e), s);
    assert forall i :: 0 <= i < |r| ==> InEnv(e)(r[i]);
    r
  }

  /** `a.displayName.localeCompare(b.displayName) <= 0`, with code-point order for the collation. */
  predicate NameLe(a: Box, b: Box) {
    LexLe(a.displayName, b.displayName)
  }

  /** Non-decreasing by display name. */
  predicate SortedByName(s: seq<Box>) {
    forall i, j :: 0 <= i < j < |s| ==> NameLe(s[i], s[j])
  }

  /**
   * Places `b` before the first box whose name is not below its own, so that
   * a box already ahead of equal names stays ahead.
   */
  function Insert(b: Box, s: seq<Box>): seq<Box> {
    if s == [] then [b]
    else if NameLe(b, s[0]) then [b] + s
    else [s[0]] + Insert(b, s[1..])
  }

  /** Inserting into a sorted list keeps it sorted and adds exactly that box. */
  lemma {:induction false} InsertSorted(b: Box, s: seq<Box>)
    requires SortedByName(s)
    ensures SortedByName(Insert(b, s))
    ensures multiset(Insert(b, s)) == multiset(s) + multiset{b}
  {
    if s == [] {
    } else if NameLe(b, s[0]) {
      forall j | 0 < j < |s| ensures NameLe(b, s[j]) {
        LexLeTransitive(b.displayName, s[0].displayName, s[j].displayName);
      }
      ConsSorted(b, s);
    } else {
      SortedTail(s);
      InsertSorted(b, s[1..]);
      LexLeTotal(b.displayName, s[0].displayName);
      InsertHead(s[0], b, s[1..], Insert(b, s[1..]));
      assert s == [s[0]] + s[1..];
    }
  }

  /** The tail of a sorted list is sorted. */
  lemma SortedTail(s: seq<Box>)
    requires s != [] && SortedByName(s)
    ensures SortedByName(s[1..])
  {
    var t := s[1..];
    forall i, j | 0 <= i < j < |t| ensures NameLe(t[i], t[j]) {
      assert NameLe(s[i + 1], s[j + 1]);
    }
  }

  /** Putting `h` in front keeps the list sorted when `h` is below `b` and below all of `t`. */
  lemma InsertHead(h: Box, b: Box, t: seq<Box>, rest: seq<Box>)
    requires NameLe(h, b)
    requires forall j :: 0 <= j < |t| ==> NameLe(h, t[j])
    requires SortedByName(rest) && multiset(rest) == multiset(t) + multiset{b}
    ensures SortedByName([h] + rest)
  {
    forall j | 0 <= j < |rest| ensures NameLe(h, rest[j]) {
      assert rest[j] in multiset(rest);
      assert rest[j] == b || rest[j] in multiset(t);
      if rest[j] != b {
        var k :| 0 <= k < |t| && t[k] == rest[j];
      }
    }
    ConsSorted(h, rest);
  }

  /** A box below every box of a sorted list can go in front of it. */
  lemma ConsSorted(h: Box, t: seq<Box>)
    requires forall j :: 0 <= j < |t| ==> NameLe(h, t[j])
    requires SortedByName(t)
    ensures SortedByName([h] + t)
  {
    var r := [h] + t;
    forall i, j | 0 <= i < j < |r| ensures NameLe(r[i], r[j]) {
      if i > 0 {
        assert r[i] == t[i - 1] && r[j] == t[j - 1];
      }
    }
  }

  /**
   * `.sort((a, b) => a.displayName.localeCompare(b.displayName))`: a stable
   * sort, written as an insertion sort.
   */
  function SortByName(s: seq<Box>): (r: seq<Box>)
    ensures SortedByName(r)
    ensures multiset(r) == multiset(s)
    ensures |r| == |s|
  {
    if s == [] then []
    else
      InsertSorted(s[0], SortByName(s[1..]));
      assert s == [s[0]] + s[1..];
      Insert(s[0], SortByName(s[1..]))
  }

  /** `b => b.displayName === name` */
  function NameIs(name: string): Box -> bool {
    (b: Box) => b.displayName == name
  }

  /** Inserting `b` puts it ahead of every box of the same name already in the list. */
  lemma {:induction false} InsertStable(b: Box, s: seq<Box>, name: string)
    requires SortedByName(s)
    ensures Filter(NameIs(name), Insert(b, s)) == Filter(NameIs(name), [b]) + Filter(NameIs(name), s)
    decreases |s|, 1
  {
    if s == [] || NameLe(b, s[0]) {
      assert Insert(b, s) == [b] + s;
      FilterConcat(NameIs(name), [b], s);
    } else {
      InsertStablePast(b, s, name);
    }
  }

  /** The case where `b` goes past the first box, whose name is then below its own. */
  lemma {:induction false} InsertStablePast(b: Box, s: seq<Box>, name: string)
    requires s != [] && SortedByName(s) && !NameLe(b, s[0])
    ensures Filter(NameIs(name), Insert(b, s)) == Filter(NameIs(name), [b]) + Filter(NameIs(name), s)
    decreases |s|, 0
  {
    var p, h, t := NameIs(name), s[0], s[1..];
    SortedTail(s);
    InsertStable(b, t, name);
    assert Insert(b, s) == [h] + Insert(b, t);
    assert s == [h] + t;
    FilterCons(p, h, Insert(b, t));
    FilterCons(p, h, t);
    FilterCons(p, b, []);
    var fh, fb := (if p(h) then [h] else []), (if p(b) then [b] else []);
    assert fh == [] || fb == [] by {
      if p(b) && p(h) {
        LexLeReflexive(b.displayName);
      }
    }
    assert Filter(p, [b]) == fb;
    SwapEmpty(fh, fb, Filter(p, t));
  }

  /** The sort is stable: boxes of equal display name keep their list order. */
  lemma {:induction false} SortStable(s: seq<Box>, name: string)
    ensures Filter(NameIs(name), SortByName(s)) == Filter(NameIs(name), s)
  {
    if s != [] {
      var t := s[1..];
      var st := SortByName(t);
      assert SortByName(s) == Insert(s[0], st);
      SortStable(t, name);
      InsertStable(s[0], st, name);
      assert s == [s[0]] + t;
      FilterConcat(NameIs(name), [s[0]], t);
    }
  }

  /** A rendered section: an environment and its tiles in order. */
  datatype Section = Section(env: Env, boxes: seq<Box>)

  /** A section's heading, `capitalize(env)`. */
  function Title(e: Env): string {
    Capitalize(EnvKey(e))
  }

  /** The headings read "Prod", "Dev" and "Local". */
  lemma Titles()
    ensures Title(Prod) == "Prod" && Title(Dev) == "Dev" && Title(Local) == "Local"
  {
  }

  /** One environment's boxes as `grouped` holds them: filtered, then sorted by name. */
  function Grouped(s: seq<Box>, e: Env): seq<Box> {
    SortByName(OfEnv(s, e))
  }

  /** The section an environment contributes: none when it has no boxes or is hidden. */
  function SectionFor(s: seq<Box>, vis: map<Env, bool>, e: Env): seq<Section> {
    var g := Grouped(s, e);
    if |g| == 0 || !IsVisible(vis, e) then [] else [Section(e, g)]
  }

  /** `renderBoxes`, as the list of sections it draws, in the order prod, dev, local. */
  function Render(s: seq<Box>, vis: map<Env, bool>): seq<Section> {
    SectionFor(s, vis, Prod) + SectionFor(s, vis, Dev) + SectionFor(s, vis, Local)
  }

  /** A section is drawn for an environment exactly when it has a box and is visible. */
  predicate Shown(s: seq<Box>, vis: map<Env, bool>, e: Env) {
    OfEnv(s, e) != [] && IsVisible(vis, e)
  }

  /** An environment contributes at most one section, and only its own. */
  lemma SectionShape(s: seq<Box>, vis: map<Env, bool>, e: Env)
    ensures |SectionFor(s, vis, e)| <= 1
    ensures forall k :: 0 <= k < |SectionFor(s, vis, e)| ==> SectionFor(s, vis, e)[k].env == e
  {
  }

  /** Three runs of at most one section each, for prod, dev and local, are in rank order. */
  lemma RankOrdered(a: seq<Section>, b: seq<Section>, c: seq<Section>)
    requires |a| <= 1 && |b| <= 1 && |c| <= 1
    requires forall k :: 0 <= k < |a| ==> a[k].env == Prod
    requires forall k :: 0 <= k < |b| ==> b[k].env == Dev
    requires forall k :: 0 <= k < |c| ==> c[k].env == Local
    ensures forall i, j :: 0 <= i < j < |a + b + c| ==> Rank((a + b + c)[i].env) < Rank((a + b + c)[j].env)
  {
  }

  /** Sections come in the fixed order prod, dev, local, each environment at most once. */
  lemma RenderOrder(s: seq<Box>, vis: map<Env, bool>)
    ensures forall i, j :: 0 <= i < j < |Render(s, vis)| ==> Rank(Render(s, vis)[i].env) < Rank(Render(s, vis)[j].env)
  {
    SectionShape(s, vis, Prod);
    SectionShape(s, vis, Dev);
    SectionShape(s, vis, Local);
    RankOrdered(SectionFor(s, vis, Prod), SectionFor(s, vis, Dev), SectionFor(s, vis, Local));
  }

  /** A section as `renderBoxes` draws it: for a shown environment, with that environment's boxes in name order. */
  predicate Drawn(s: seq<Box>, vis: map<Env, bool>, sec: Section) {
    Shown(s, vis, sec.env) && sec.boxes == SortByName(OfEnv(s, sec.env))
  }

  /** The section, if any, an environment contributes is drawn as `renderBoxes` draws it. */
  lemma SectionDrawn(s: seq<Box>, vis: map<Env, bool>, e: Env)
    ensures forall k :: 0 <= k < |SectionFor(s, vis, e)| ==> Drawn(s, vis, SectionFor(s, vis, e)[k])
  {
  }

  /** A property of every element of three sequences holds of every element of their concatenation. */
  lemma AllOfThree<T>(p: T -> bool, a: seq<T>, b: seq<T>, c: seq<T>)
    requires forall k :: 0 <= k < |a| ==> p(a[k])
    requires forall k :: 0 <= k < |b| ==> p(b[k])
    requires forall k :: 0 <= k < |c| ==> p(c[k])
    ensures forall i :: 0 <= i < |a + b + c| ==> p((a + b + c)[i])
  {
  }

  /** Every drawn section is a shown environment with its boxes in name order. */
  lemma RenderSections(s: seq<Box>, vis: map<Env, bool>)
    ensures forall i :: 0 <= i < |Render(s, vis)| ==> Drawn(s, vis, Render(s, vis)[i])
  {
    var p := (sec: Section) => Drawn(s, vis, sec);
    SectionDrawn(s, vis, Prod);
    SectionDrawn(s, vis, Dev);
    SectionDrawn(s, vis, Local);
    AllOfThree(p, SectionFor(s, vis, Prod), SectionFor(s, vis, Dev), SectionFor(s, vis, Local));
  }

  /** Every shown environment gets its section. */
  lemma RenderComplete(s: seq<Box>, vis: map<Env, bool>, e: Env)
    requires Shown(s, vis, e)
    ensures exists i :: 0 <= i < |Render(s, vis)| && Render(s, vis)[i].env == e
  {
    var a, b, c := SectionFor(s, vis, Prod), SectionFor(s, vis, Dev), SectionFor(s, vis, Local);
    var r := Render(s, vis);
    assert r == a + b + c;
    match e
    case Prod => assert r[0].env == Prod;
    case Dev => assert r[|a|].env == Dev;
    case Local => assert r[|a| + |b|].env == Local;
  }

  /** A section's tiles are exactly its environment's boxes, rearranged into name order. */
  lemma SectionIsSortedPermutation(s: seq<Box>, vis: map<Env, bool>, i: nat)
    requires i < |Render(s, vis)|
    ensures SortedByName(Render(s, vis)[i].boxes)
    ensures multiset(Render(s, vis)[i].boxes) == multiset(OfEnv(s, Render(s, vis)[i].env))
  {
    RenderSections(s, vis);
  }

  /** `visibleEnvs[env] = !visibleEnvs[env]`; a missing key reads as false and becomes true. */
  function Toggled(vis: map<Env, bool>, e: Env): (r: map<Env, bool>)
    ensures IsVisible(r, e) == !IsVisible(vis, e)
    ensures forall x :: x != e ==> (x in r <==> x in vis) && (x in vis ==> r[x] == vis[x])
    ensures e in r
  {
    vis[e := !IsVisible(vis, e)]
  }

  /** Toggling twice restores every environment's visibility, and the map itself when the key was set. */
  lemma ToggleTwice(vis: map<Env, bool>, e: Env)
    ensures forall x :: IsVisible(Toggled(Toggled(vis, e), e), x) == IsVisible(vis, x)
    ensures e in vis ==> Toggled(Toggled(vis, e), e) == vis
  {
    var r := Toggled(Toggled(vis, e), e);
    if e in vis {
      assert r.Keys == vis.Keys;
    }
  }

  /** Toggling twice leaves the page looking as it did. */
  lemma ToggleTwiceRender(s: seq<Box>, vis: map<Env, bool>, e: Env)
    ensures Render(s, Toggled(Toggled(vis, e), e)) == Render(s, vis)
  {
    ToggleTwice(vis, e);
    var v2 := Toggled(Toggled(vis, e), e);
    assert SectionFor(s, v2, Prod) == SectionFor(s, vis, Prod);
    assert SectionFor(s, v2, Dev) == SectionFor(s, vis, Dev);
    assert SectionFor(s, v2, Local) == SectionFor(s, vis, Local);
  }

  /** The ids whose tile, and so whose action menu, is on the page. */
  function MenuIds(s: seq<Box>, vis: map<Env, bool>): set<string> {
    set i | 0 <= i < |s| && IsVisible(vis, s[i].env) :: s[i].id
  }

  /** A box has a tile on the page exactly when its environment is visible. */
  lemma MenuIdsRendered(s: seq<Box>, vis: map<Env, bool>, i: nat)
    requires i < |s|
    ensures s[i].id in MenuIds(s, vis) <== IsVisible(vis, s[i].env)
    ensures IsVisible(vis, s[i].env) ==> exists k :: 0 <= k < |Render(s, vis)| && s[i] in Render(s, vis)[k].boxes
  {
    if IsVisible(vis, s[i].env) {
      var e := s[i].env;
      assert s[i] in OfEnv(s, e);
      RenderComplete(s, vis, e);
      RenderSections(s, vis);
      var k :| 0 <= k < |Render(s, vis)| && Render(s, vis)[k].env == e;
      assert s[i] in multiset(SortByName(OfEnv(s, e)));
    }
  }

  /** The colour `getSelectedColor` reports: the selected option, else the first colour. */
  function SelectedColor(selected: Option<string>): (c: string)
    ensures selected.Some? ==> c == selected.value
    ensures selected.None? ==> c == COLOR_OPTIONS[0]
  {
    selected.GetOr(COLOR_OPTIONS[0])
  }

  /** `selectColor(color)`: marks the option with that colour; none when no option has it. */
  function SelectOption(color: string): (r: Option<string>)
    ensures r.Some? <==> color in COLOR_OPTIONS
    ensures r.Some? ==> r.value == color
  {
    if color in COLOR_OPTIONS then Some(color) else None
  }

  /** Selecting a colour and reading it back gives it when it is offered, and blue otherwise. */
  lemma SelectedColorRoundTrip(color: string)
    ensures SelectedColor(SelectOption(color)) == if color in COLOR_OPTIONS then color else "#3b82f6"
  {
  }
}
