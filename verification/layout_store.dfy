/** The layout store of the editor: the active project, the selected module id and the
    viewport mode, with the operations the inspector, the catalogue and the layout
    generator apply to them. Every operation is a pure function from the old session to
    the new one. Fresh ids, which the editor draws at random, are parameters. */
module LayoutStore {
  import opened Base
  import opened Types
  import Catalog
  import AiDescriptor

  /** The editor state this core owns. */
  datatype Session = Session(
    project: ProjectDimensions,
    selectedId: Option<string>,
    viewport: ViewportMode)

  /** JavaScript truthiness of the selection: `null` and the empty string are both falsy. */
  predicate HasSelection(sel: Option<string>) {
    sel.Some? && sel.value != ""
  }

  /** A partial module: the fields present are merged over a module, the absent ones kept. */
  datatype ModulePatch = ModulePatch(
    id: Option<string>,
    typeName: Option<string>,
    category: Option<string>,
    width: Option<real>,
    height: Option<real>,
    depth: Option<real>,
    x: Option<real>,
    y: Option<real>,
    z: Option<real>,
    finish: Option<string>,
    isRipado: Option<bool>,
    price: Option<real>,
    rotation: Option<real>)

  /** The patch that sets no field. */
  const EmptyPatch := ModulePatch(None, None, None, None, None, None, None, None, None, None, None, None, None)

  /** `{...m, ...p}`. */
  function Merge(m: FurnitureModule, p: ModulePatch): FurnitureModule {
    FurnitureModule(
      id := if p.id.Some? then p.id.value else m.id,
      typeName := if p.typeName.Some? then p.typeName.value else m.typeName,
      category := if p.category.Some? then p.category.value else m.category,
      width := if p.width.Some? then p.width.value else m.width,
      height := if p.height.Some? then p.height.value else m.height,
      depth := if p.depth.Some? then p.depth.value else m.depth,
      x := if p.x.Some? then p.x.value else m.x,
      y := if p.y.Some? then p.y.value else m.y,
      z := if p.z.Some? then p.z.value else m.z,
      finish := if p.finish.Some? then p.finish.value else m.finish,
      isRipado := if p.isRipado.Some? then p.isRipado.value else m.isRipado,
      price := if p.price.Some? then p.price.value else m.price,
      rotation := if p.rotation.Some? then p.rotation.value else m.rotation)
  }

  /** The patch `{[axis]: v}`. */
  function AxisPatch(axis: Axis, v: real): ModulePatch {
    match axis
    case X => EmptyPatch.(x := Some(v))
    case Y => EmptyPatch.(y := Some(v))
    case Z => EmptyPatch.(z := Some(v))
  }

  // ---------------------------------------------------------------------------------
  // Reading modules

  /** `Array.prototype.find` by id: the first module carrying `id`. */
  function Find(ms: seq<FurnitureModule>, id: string): Option<FurnitureModule> {
    if |ms| == 0 then None
    else if ms[0].id == id then Some(ms[0])
    else Find(ms[1..], id)
  }

  /** `Find` succeeds exactly when some module carries the id, and then returns the module
      at the first index that carries it. */
  lemma {:induction false} FindSpec(ms: seq<FurnitureModule>, id: string)
    ensures Find(ms, id).Some? <==> HasId(ms, id)
    ensures Find(ms, id).Some? ==> Find(ms, id).value in ms && Find(ms, id).value.id == id
    ensures Find(ms, id).Some? ==>
              exists k :: 0 <= k < |ms| && ms[k] == Find(ms, id).value &&
                          forall j :: 0 <= j < k ==> ms[j].id != id
  {
    if |ms| > 0 && ms[0].id == id {
      assert ms[0] == Find(ms, id).value;
    } else if |ms| > 0 {
      FindSpec(ms[1..], id);
      assert forall i :: 1 <= i < |ms| ==> ms[i] == ms[1..][i - 1];
      assert HasId(ms[1..], id) ==> HasId(ms, id);
      if HasId(ms, id) {
        var i :| 0 <= i < |ms| && ms[i].id == id;
        assert ms[1..][i - 1].id == id;
        var k :| 0 <= k < |ms[1..]| && ms[1..][k] == Find(ms[1..], id).value &&
                 forall j :: 0 <= j < k ==> ms[1..][j].id != id;
        assert ms[k + 1] == Find(ms, id).value;
        forall j | 0 <= j < k + 1
          ensures ms[j].id != id
        {
          if j > 0 {
            assert ms[j] == ms[1..][j - 1];
          }
        }
      }
    }
  }

  /** The selected module, if the selection names one (`modules.find(m => m.id === selectedId)`). */
  function SelectedModule(s: Session): Option<FurnitureModule> {
    if s.selectedId.None? then None else Find(s.project.modules, s.selectedId.value)
  }

  /** With unique ids, `Find` returns the module at the one index carrying the id. */
  lemma {:induction false} FindUnique(ms: seq<FurnitureModule>, i: int)
    requires UniqueIds(ms)
    requires 0 <= i < |ms|
    ensures Find(ms, ms[i].id) == Some(ms[i])
  {
    if i > 0 {
      assert ms[0].id != ms[i].id;
      assert ms[1..][i - 1] == ms[i];
      FindUnique(ms[1..], i - 1);
    }
  }

  // ---------------------------------------------------------------------------------
  // Update and move

  /** Every module carrying `sel` is merged with `p`; the others are kept, in order. */
  function PatchWhere(ms: seq<FurnitureModule>, sel: string, p: ModulePatch): (r: seq<FurnitureModule>)
    ensures |r| == |ms|
  {
    seq(|ms|, i requires 0 <= i < |ms| => if ms[i].id == sel then Merge(ms[i], p) else ms[i])
  }

  /** `updateSelectedModule(updates)`: without a (truthy) selection nothing changes;
      otherwise the selected module takes the given fields and no other module changes. */
  function UpdateSelectedModule(s: Session, p: ModulePatch): (r: Session)
    ensures !HasSelection(s.selectedId) ==> r == s
    ensures r.selectedId == s.selectedId && r.viewport == s.viewport
    ensures r.project == s.project.(modules := r.project.modules)
    ensures |r.project.modules| == |s.project.modules|
    ensures forall i :: 0 <= i < |s.project.modules| && Some(s.project.modules[i].id) != s.selectedId ==>
              r.project.modules[i] == s.project.modules[i]
    ensures HasSelection(s.selectedId) ==>
              forall i :: 0 <= i < |s.project.modules| && Some(s.project.modules[i].id) == s.selectedId ==>
                r.project.modules[i] == Merge(s.project.modules[i], p)
  {
    if !HasSelection(s.selectedId) then s
    else s.(project := s.project.(modules := PatchWhere(s.project.modules, s.selectedId.value, p)))
  }

  /** `moveModule(axis, amount)`: without a selected module nothing changes; otherwise the
      selected module's coordinate on `axis` becomes its old value plus `amount`. */
  function MoveModule(s: Session, axis: Axis, amount: real): (r: Session)
    ensures SelectedModule(s).None? ==> r == s
    ensures !HasSelection(s.selectedId) ==> r == s
    ensures r.selectedId == s.selectedId && r.viewport == s.viewport
    ensures r.project == s.project.(modules := r.project.modules)
    ensures |r.project.modules| == |s.project.modules|
  {
    match SelectedModule(s)
    case None => s
    case Some(m) => UpdateSelectedModule(s, AxisPatch(axis, Coord(m, axis) + amount))
  }

  /** Moving a uniquely identified selected module changes exactly that axis of exactly
      that module. */
  lemma MoveShiftsOneAxis(s: Session, axis: Axis, amount: real, k: int)
    requires UniqueIds(s.project.modules)
    requires 0 <= k < |s.project.modules|
    requires s.selectedId == Some(s.project.modules[k].id) && s.project.modules[k].id != ""
    ensures var m := s.project.modules[k];
            var m' := MoveModule(s, axis, amount).project.modules[k];
            && |MoveModule(s, axis, amount).project.modules| == |s.project.modules|
            && Coord(m', axis) == Coord(m, axis) + amount
            && (forall a :: a != axis ==> Coord(m', a) == Coord(m, a))
            && m' == m.(x := m'.x, y := m'.y, z := m'.z)
    ensures forall i :: 0 <= i < |s.project.modules| && i != k ==>
              MoveModule(s, axis, amount).project.modules[i] == s.project.modules[i]
  {
    FindUnique(s.project.modules, k);
    forall i | 0 <= i < |s.project.modules| && i != k
      ensures Some(s.project.modules[i].id) != s.selectedId
    {
      assert i < k || k < i;
    }
  }

  /** A later patch of the same axis overrides an earlier one. */
  lemma AxisPatchOverrides(m: FurnitureModule, axis: Axis, v1: real, v2: real)
    ensures Merge(Merge(m, AxisPatch(axis, v1)), AxisPatch(axis, v2)) == Merge(m, AxisPatch(axis, v2))
  {
  }

  /** Patching the same modules twice along one axis is the second patch alone. */
  lemma PatchWhereTwice(ms: seq<FurnitureModule>, sel: string, axis: Axis, v1: real, v2: real)
    ensures PatchWhere(PatchWhere(ms, sel, AxisPatch(axis, v1)), sel, AxisPatch(axis, v2))
            == PatchWhere(ms, sel, AxisPatch(axis, v2))
  {
    var r := PatchWhere(PatchWhere(ms, sel, AxisPatch(axis, v1)), sel, AxisPatch(axis, v2));
    var q := PatchWhere(ms, sel, AxisPatch(axis, v2));
    forall i | 0 <= i < |ms|
      ensures r[i] == q[i]
    {
      if ms[i].id == sel {
        AxisPatchOverrides(ms[i], axis, v1, v2);
      }
    }
  }

  /** An axis patch sets that coordinate. */
  lemma CoordAfterAxisPatch(m: FurnitureModule, axis: Axis, v: real)
    ensures Coord(Merge(m, AxisPatch(axis, v)), axis) == v
  {
  }

  /** A move of a truthy selection patches the modules carrying it with the moved coordinate. */
  lemma MoveUnfold(s: Session, axis: Axis, amount: real)
    requires HasSelection(s.selectedId) && SelectedModule(s).Some?
    ensures var v := Coord(SelectedModule(s).value, axis) + amount;
            MoveModule(s, axis, amount)
            == s.(project := s.project.(modules := PatchWhere(s.project.modules, s.selectedId.value, AxisPatch(axis, v))))
  {
  }

  /** Two moves of a truthy selection patch the selected modules twice, with the
      coordinate after the first move and after both moves. */
  lemma MoveTwiceUnfold(s: Session, axis: Axis, a: real, b: real)
    requires HasSelection(s.selectedId) && SelectedModule(s).Some?
    ensures var c := Coord(SelectedModule(s).value, axis);
            var ms := s.project.modules;
            var sel := s.selectedId.value;
            MoveModule(MoveModule(s, axis, a), axis, b)
            == s.(project := s.project.(modules :=
                    PatchWhere(PatchWhere(ms, sel, AxisPatch(axis, c + a)), sel, AxisPatch(axis, c + (a + b)))))
  {
    var m := SelectedModule(s).value;
    var sel := s.selectedId.value;
    var ms := s.project.modules;
    var v1 := Coord(m, axis) + a;
    var p1 := AxisPatch(axis, v1);
    var s1 := s.(project := s.project.(modules := PatchWhere(ms, sel, p1)));
    assert MoveModule(s, axis, a) == s1 by {
      MoveUnfold(s, axis, a);
    }
    assert SelectedModule(s1) == Some(Merge(m, p1)) by {
      FirstMatchPatched(ms, sel, p1);
    }
    CoordAfterAxisPatch(m, axis, v1);
    MoveUnfold(s1, axis, b);
  }

  /** Two moves along one axis by `a` and then `b` equal one move by `a + b`. */
  lemma MoveAdditive(s: Session, axis: Axis, a: real, b: real)
    ensures MoveModule(MoveModule(s, axis, a), axis, b) == MoveModule(s, axis, a + b)
  {
    if SelectedModule(s).Some? && HasSelection(s.selectedId) {
      var c := Coord(SelectedModule(s).value, axis);
      var ms := s.project.modules;
      var sel := s.selectedId.value;
      var once := PatchWhere(ms, sel, AxisPatch(axis, c + (a + b)));
      var twice := PatchWhere(PatchWhere(ms, sel, AxisPatch(axis, c + a)), sel, AxisPatch(axis, c + (a + b)));
      assert MoveModule(MoveModule(s, axis, a), axis, b) == s.(project := s.project.(modules := twice)) by {
        MoveTwiceUnfold(s, axis, a, b);
      }
      assert MoveModule(s, axis, a + b) == s.(project := s.project.(modules := once)) by {
        MoveUnfold(s, axis, a + b);
      }
      assert twice == once by {
        PatchWhereTwice(ms, sel, axis, c + a, c + (a + b));
      }
    }
  }

  /** Patching every module with id `sel` with a patch that keeps ids turns the first
      match into its merged self. */
  lemma {:induction false} FirstMatchPatched(ms: seq<FurnitureModule>, sel: string, p: ModulePatch)
    requires p.id.None?
    requires Find(ms, sel).Some?
    ensures Find(PatchWhere(ms, sel, p), sel) == Some(Merge(Find(ms, sel).value, p))
  {
    var r := PatchWhere(ms, sel, p);
    if ms[0].id != sel {
      assert r[0] == ms[0];
      assert r[1..] == PatchWhere(ms[1..], sel, p);
      FirstMatchPatched(ms[1..], sel, p);
    }
  }

  // ---------------------------------------------------------------------------------
  // Adding modules

  /** The module a catalogue click creates: the item's sizes, price, type and category, at
      the origin, unrotated, in the default finish; slatted when its type contains
      `Ripado` (case-sensitive). */
  function CatalogModule(item: LibraryItem, freshId: string): (m: FurnitureModule)
    ensures m.id == freshId
    ensures m.typeName == item.typeName && m.category == item.category && m.price == item.price
    ensures m.width == item.w && m.height == item.h && m.depth == item.d
    ensures m.x == 0.0 && m.y == 0.0 && m.z == 0.0 && m.rotation == 0.0
    ensures m.finish == Catalog.DefaultFinish
    ensures m.isRipado <==> exists i :: OccursAt(item.typeName, "Ripado", i)
  {
    IncludesIffOccurs(item.typeName, "Ripado");
    FurnitureModule(
      id := freshId, typeName := item.typeName, category := item.category,
      width := item.w, height := item.h, depth := item.d,
      x := 0.0, y := 0.0, z := 0.0,
      finish := Catalog.DefaultFinish, isRipado := Includes(item.typeName, "Ripado"),
      price := item.price, rotation := 0.0)
  }

  /** A type without a capital R cannot contain `Ripado`. */
  lemma NoCapitalRNoRipado(t: string)
    requires 'R' !in t
    ensures !exists i :: OccursAt(t, "Ripado", i)
  {
    if i :| OccursAt(t, "Ripado", i) {
      assert t[i..i + 6][0] == 'R';
      assert t[i] in t;
    }
  }

  /** Of the catalogue, only the slatted panel "Painel Ripado SD" is added as slatted. */
  lemma CatalogSlattedItems(k: int, freshId: string)
    requires 0 <= k < |Catalog.ModuleLibrary|
    ensures CatalogModule(Catalog.ModuleLibrary[k], freshId).isRipado <==> k == 2
  {
    var t := Catalog.ModuleLibrary[k].typeName;
    if k == 2 {
      assert t == "Painel Ripado SD";
      assert t[7..13] == "Ripado";
      assert OccursAt(t, "Ripado", 7);
    } else {
      if k == 0 { assert t == "Balcão Base 2P"; }
      else if k == 1 { assert t == "Aéreo Lux Basculante"; }
      else if k == 3 { assert t == "Torre Fornos 2P"; }
      else if k == 4 { assert t == "Sofá Living SD"; }
      else { assert t == "Ilha Gourmet"; }
      assert 'R' !in t;
      NoCapitalRNoRipado(t);
    }
  }

  /** `addModule(item)`: appends the catalogue module after the existing ones and selects it. */
  function AddModule(s: Session, item: LibraryItem, freshId: string): (r: Session)
    ensures r.project.modules == s.project.modules + [CatalogModule(item, freshId)]
    ensures r.project == s.project.(modules := r.project.modules)
    ensures r.selectedId == Some(freshId) && r.viewport == s.viewport
  {
    Session(
      s.project.(modules := s.project.modules + [CatalogModule(item, freshId)]),
      Some(freshId),
      s.viewport)
  }

  /** True when some entry is `null`: reading its `type` throws and the batch is dropped. */
  predicate HasNullEntry(entries: seq<AiDescriptor.RawEntry>) {
    exists i :: 0 <= i < |entries| && entries[i].NullEntry?
  }

  /** The coerced modules of a batch, one per entry, with the ids given in order. */
  function CoerceAll(entries: seq<AiDescriptor.RawEntry>, ids: seq<string>): (r: seq<FurnitureModule>)
    requires |ids| == |entries|
    requires !HasNullEntry(entries)
    ensures |r| == |entries|
    ensures forall i :: 0 <= i < |entries| ==> r[i] == AiDescriptor.CoerceEntry(entries[i], ids[i])
  {
    seq(|entries|, i requires 0 <= i < |entries| => AiDescriptor.CoerceEntry(entries[i], ids[i]))
  }

  /** The layout-from-prompt action: the coerced modules are appended after the existing
      ones, which are never touched. Without a layout, or when an entry is `null` (the
      mapping throws and the error is swallowed), nothing changes. The selection is kept. */
  function AddGeneratedModules(s: Session, proposal: AiDescriptor.RawProposal, freshIds: seq<string>): (r: Session)
    requires proposal.Layout? ==> |freshIds| == |proposal.entries|
    ensures proposal.NoLayout? || HasNullEntry(proposal.entries) ==> r == s
    ensures r.selectedId == s.selectedId && r.viewport == s.viewport
    ensures r.project == s.project.(modules := r.project.modules)
    ensures |s.project.modules| <= |r.project.modules|
    ensures r.project.modules[..|s.project.modules|] == s.project.modules
    ensures proposal.Layout? && !HasNullEntry(proposal.entries) ==>
              && |r.project.modules| == |s.project.modules| + |proposal.entries|
              && forall i :: 0 <= i < |proposal.entries| ==>
                   r.project.modules[|s.project.modules| + i] == AiDescriptor.CoerceEntry(proposal.entries[i], freshIds[i])
  {
    if proposal.NoLayout? || HasNullEntry(proposal.entries) then s
    else
      var added := CoerceAll(proposal.entries, freshIds);
      var r := s.(project := s.project.(modules := s.project.modules + added));
      assert r.project.modules[..|s.project.modules|] == s.project.modules;
      r
  }

  // ---------------------------------------------------------------------------------
  // Delete, select, room and viewport

  /** `modules.filter(m => m.id !== id)`. */
  function RemoveId(ms: seq<FurnitureModule>, id: string): (r: seq<FurnitureModule>)
    ensures forall k :: 0 <= k < |r| ==> r[k].id != id
    ensures forall m :: m in r <==> m in ms && m.id != id
    ensures |r| <= |ms|
    ensures !HasId(ms, id) ==> r == ms
  {
    if |ms| == 0 then []
    else
      var rest := RemoveId(ms[1..], id);
      assert forall m :: m in ms <==> m == ms[0] || m in ms[1..];
      assert !HasId(ms, id) ==> !HasId(ms[1..], id) by {
        if HasId(ms[1..], id) {
          var i :| 0 <= i < |ms[1..]| && ms[1..][i].id == id;
          assert ms[i + 1].id == id;
        }
      }
      if ms[0].id == id then rest else [ms[0]] + rest
  }

  /** Filtering commutes with concatenation: the kept modules stay in their order. */
  lemma {:induction false} RemoveIdAppend(a: seq<FurnitureModule>, b: seq<FurnitureModule>, id: string)
    ensures RemoveId(a + b, id) == RemoveId(a, id) + RemoveId(b, id)
  {
    if |a| > 0 {
      assert (a + b)[1..] == a[1..] + b;
      RemoveIdAppend(a[1..], b, id);
    } else {
      assert a + b == b;
    }
  }

  /** The delete button: every module carrying the selected id is removed, the rest are
      kept in order, and the selection is cleared. */
  function DeleteSelected(s: Session): (r: Session)
    ensures r.selectedId == None && r.viewport == s.viewport
    ensures r.project == s.project.(modules := r.project.modules)
    ensures s.selectedId.Some? ==> r.project.modules == RemoveId(s.project.modules, s.selectedId.value)
    ensures s.selectedId.None? ==> r.project.modules == s.project.modules
  {
    var kept := if s.selectedId.None? then s.project.modules else RemoveId(s.project.modules, s.selectedId.value);
    Session(s.project.(modules := kept), None, s.viewport)
  }

  /** After a delete the removed id is gone and no selection is left dangling. */
  lemma DeleteLeavesNoDangling(s: Session)
    requires s.selectedId.Some?
    ensures !HasId(DeleteSelected(s).project.modules, s.selectedId.value)
    ensures SelectionValid(DeleteSelected(s))
  {
  }

  /** A click on a module's box selects its id. */
  function SelectModule(s: Session, id: string): (r: Session)
    ensures r.selectedId == Some(id) && r.project == s.project && r.viewport == s.viewport
  {
    s.(selectedId := Some(id))
  }

  /** The room inspector's setters: the named dimension takes `v`; nothing else changes. */
  function ResizeRoom(s: Session, field: RoomField, v: real): (r: Session)
    ensures r.selectedId == s.selectedId && r.viewport == s.viewport
    ensures r.project.modules == s.project.modules && r.project.settings == s.project.settings
    ensures r.project.id == s.project.id && r.project.name == s.project.name
    ensures r.project.clientName == s.project.clientName
    ensures r.project.floorWidth == (if field == FloorWidth then v else s.project.floorWidth)
    ensures r.project.floorDepth == (if field == FloorDepth then v else s.project.floorDepth)
    ensures r.project.wallHeight == (if field == WallHeight then v else s.project.wallHeight)
  {
    match field
    case FloorWidth => s.(project := s.project.(floorWidth := v))
    case FloorDepth => s.(project := s.project.(floorDepth := v))
    case WallHeight => s.(project := s.project.(wallHeight := v))
  }

  /** The viewport buttons: only the mode changes, never the project or the selection. */
  function SetViewport(s: Session, mode: ViewportMode): (r: Session)
    ensures r.viewport == mode && r.project == s.project && r.selectedId == s.selectedId
  {
    s.(viewport := mode)
  }

  // ---------------------------------------------------------------------------------
  // Total price

  /** The sum of the module prices, as the left fold `reduce((acc, m) => acc + m.price, 0)`. */
  function PriceSum(ms: seq<FurnitureModule>): real {
    if |ms| == 0 then 0.0 else PriceSum(ms[..|ms| - 1]) + ms[|ms| - 1].price
  }

  /** The sum over a concatenation is the sum of the sums. */
  lemma {:induction false} PriceSumAppend(a: seq<FurnitureModule>, b: seq<FurnitureModule>)
    ensures PriceSum(a + b) == PriceSum(a) + PriceSum(b)
    decreases |b|
  {
    if |b| == 0 {
      assert a + b == a;
    } else {
      assert (a + b)[..|a + b| - 1] == a + b[..|b| - 1];
      PriceSumAppend(a, b[..|b| - 1]);
    }
  }

  /** `projectTotal`, computed by the fold's loop. */
  method ProjectTotal(ms: seq<FurnitureModule>) returns (total: real)
    ensures total == PriceSum(ms)
    ensures |ms| == 0 ==> total == 0.0
  {
    total := 0.0;
    var i := 0;
    while i < |ms|
      invariant 0 <= i <= |ms|
      invariant total == PriceSum(ms[..i])
    {
      assert ms[..i + 1][..i] == ms[..i];
      total := total + ms[i].price;
      i := i + 1;
    }
    assert ms[..|ms|] == ms;
  }

  /** Adding a catalogue module raises the total by exactly its price. */
  lemma TotalAfterAdd(s: Session, item: LibraryItem, freshId: string)
    ensures PriceSum(AddModule(s, item, freshId).project.modules) == PriceSum(s.project.modules) + item.price
  {
    var ms := s.project.modules;
    assert (ms + [CatalogModule(item, freshId)])[..|ms|] == ms;
  }

  /** Removing modules subtracts their prices: what is kept plus what is removed is the old total. */
  lemma {:induction false} TotalAfterRemove(ms: seq<FurnitureModule>, id: string)
    ensures PriceSum(RemoveId(ms, id)) + PriceSum(OnlyId(ms, id)) == PriceSum(ms)
    decreases |ms|
  {
    if |ms| > 0 {
      var init := ms[..|ms| - 1];
      var last := ms[|ms| - 1];
      var rl: seq<FurnitureModule> := if last.id == id then [] else [last];
      var ol: seq<FurnitureModule> := if last.id == id then [last] else [];
      assert PriceSum([last]) == last.price by {
        assert [last][..0] == [];
      }
      assert ms == init + [last];
      assert RemoveId(ms, id) == RemoveId(init, id) + rl by {
        RemoveIdAppend(init, [last], id);
        assert RemoveId([last], id) == rl;
      }
      assert OnlyId(ms, id) == OnlyId(init, id) + ol by {
        OnlyIdAppend(init, [last], id);
        assert OnlyId([last], id) == ol;
      }
      TotalAfterRemove(init, id);
      PriceSumAppend(RemoveId(init, id), rl);
      PriceSumAppend(OnlyId(init, id), ol);
    }
  }

  /** The modules carrying `id`, in order. */
  function OnlyId(ms: seq<FurnitureModule>, id: string): seq<FurnitureModule> {
    if |ms| == 0 then [] else if ms[0].id == id then [ms[0]] + OnlyId(ms[1..], id) else OnlyId(ms[1..], id)
  }

  lemma {:induction false} OnlyIdAppend(a: seq<FurnitureModule>, b: seq<FurnitureModule>, id: string)
    ensures OnlyId(a + b, id) == OnlyId(a, id) + OnlyId(b, id)
  {
    if |a| > 0 {
      assert (a + b)[1..] == a[1..] + b;
      OnlyIdAppend(a[1..], b, id);
    } else {
      assert a + b == b;
    }
  }

  /** The total of three modules is the sum of their three prices. */
  lemma PriceSumOfThree(m0: FurnitureModule, m1: FurnitureModule, m2: FurnitureModule)
    ensures PriceSum([m0, m1, m2]) == m0.price + m1.price + m2.price
  {
    assert [m0][..0] == [];
    assert PriceSum([m0]) == m0.price;
    assert [m0, m1][..1] == [m0];
    assert PriceSum([m0, m1]) == m0.price + m1.price;
    assert [m0, m1, m2][..2] == [m0, m1];
  }

  /** The three catalogue modules priced 1250, 980 and 4200 total 6430; an empty project totals 0. */
  lemma CatalogTotalExample(a: string, b: string, c: string)
    ensures PriceSum([CatalogModule(Catalog.ModuleLibrary[0], a),
                      CatalogModule(Catalog.ModuleLibrary[1], b),
                      CatalogModule(Catalog.ModuleLibrary[5], c)]) == 6430.0
    ensures PriceSum([]) == 0.0
  {
    var i0, i1, i5 := Catalog.ModuleLibrary[0], Catalog.ModuleLibrary[1], Catalog.ModuleLibrary[5];
    assert i0.price == 1250.0 && i1.price == 980.0 && i5.price == 4200.0;
    PriceSumOfThree(CatalogModule(i0, a), CatalogModule(i1, b), CatalogModule(i5, c));
  }

  // ---------------------------------------------------------------------------------
  // Invariants: unique ids and a selection that names an existing module

  /** The selection is empty or names a module of the project. */
  ghost predicate SelectionValid(s: Session) {
    s.selectedId.None? || HasId(s.project.modules, s.selectedId.value)
  }

  /** The store invariant every action preserves. */
  ghost predicate Wellformed(s: Session) {
    UniqueIds(s.project.modules) && SelectionValid(s)
  }

  lemma AddModulePreserves(s: Session, item: LibraryItem, freshId: string)
    requires Wellformed(s)
    requires !HasId(s.project.modules, freshId)
    ensures Wellformed(AddModule(s, item, freshId))
    ensures Find(AddModule(s, item, freshId).project.modules, freshId) == Some(CatalogModule(item, freshId))
  {
    var ms := AddModule(s, item, freshId).project.modules;
    assert ms[|ms| - 1].id == freshId;
    FindUnique(ms, |ms| - 1);
  }

  lemma AddGeneratedPreserves(s: Session, proposal: AiDescriptor.RawProposal, freshIds: seq<string>)
    requires Wellformed(s)
    requires proposal.Layout? ==> |freshIds| == |proposal.entries|
    requires forall i :: 0 <= i < |freshIds| ==> !HasId(s.project.modules, freshIds[i])
    requires forall i, j :: 0 <= i < j < |freshIds| ==> freshIds[i] != freshIds[j]
    ensures Wellformed(AddGeneratedModules(s, proposal, freshIds))
  {
    var r := AddGeneratedModules(s, proposal, freshIds);
    var prev := s.project.modules;
    var ms := r.project.modules;
    if proposal.Layout? && !HasNullEntry(proposal.entries) {
      forall i, j | 0 <= i < j < |ms|
        ensures ms[i].id != ms[j].id
      {
        if j >= |prev| {
          assert ms[j].id == freshIds[j - |prev|];
          if i >= |prev| {
            assert ms[i].id == freshIds[i - |prev|];
          } else {
            assert ms[i] == prev[i];
          }
        } else {
          assert ms[i] == prev[i] && ms[j] == prev[j];
        }
      }
      if s.selectedId.Some? {
        var k :| 0 <= k < |prev| && prev[k].id == s.selectedId.value;
        assert ms[k] == prev[k];
      }
    }
  }

  lemma UpdatePreserves(s: Session, p: ModulePatch)
    requires Wellformed(s)
    requires p.id.None?
    ensures Wellformed(UpdateSelectedModule(s, p))
    ensures forall i :: 0 <= i < |s.project.modules| ==>
              UpdateSelectedModule(s, p).project.modules[i].id == s.project.modules[i].id
  {
    var ms := s.project.modules;
    var r := UpdateSelectedModule(s, p).project.modules;
    assert forall i :: 0 <= i < |ms| ==> r[i].id == ms[i].id;
    if s.selectedId.Some? {
      var k :| 0 <= k < |ms| && ms[k].id == s.selectedId.value;
      assert r[k].id == ms[k].id;
    }
  }

  lemma MovePreserves(s: Session, axis: Axis, amount: real)
    requires Wellformed(s)
    ensures Wellformed(MoveModule(s, axis, amount))
  {
    if SelectedModule(s).Some? {
      UpdatePreserves(s, AxisPatch(axis, Coord(SelectedModule(s).value, axis) + amount));
    }
  }

  lemma {:induction false} RemoveIdKeepsUnique(ms: seq<FurnitureModule>, id: string)
    requires UniqueIds(ms)
    ensures UniqueIds(RemoveId(ms, id))
  {
    if |ms| > 0 {
      assert UniqueIds(ms[1..]) by {
        forall i, j | 0 <= i < j < |ms[1..]|
          ensures ms[1..][i].id != ms[1..][j].id
        {
          assert ms[1..][i] == ms[i + 1] && ms[1..][j] == ms[j + 1];
        }
      }
      RemoveIdKeepsUnique(ms[1..], id);
      var rest := RemoveId(ms[1..], id);
      if ms[0].id != id {
        var r := [ms[0]] + rest;
        forall i, j | 0 <= i < j < |r|
          ensures r[i].id != r[j].id
        {
          if i == 0 {
            assert r[j] in ms[1..];
            var k :| 0 <= k < |ms[1..]| && ms[1..][k] == r[j];
            assert ms[k + 1] == r[j];
          } else {
            assert r[i] == rest[i - 1] && r[j] == rest[j - 1];
          }
        }
      }
    }
  }

  lemma DeletePreserves(s: Session)
    requires Wellformed(s)
    ensures Wellformed(DeleteSelected(s))
  {
    if s.selectedId.Some? {
      RemoveIdKeepsUnique(s.project.modules, s.selectedId.value);
    }
  }

  /** Clicking the box of module `k` keeps the store well formed. */
  lemma SelectPreserves(s: Session, k: int)
    requires Wellformed(s)
    requires 0 <= k < |s.project.modules|
    ensures Wellformed(SelectModule(s, s.project.modules[k].id))
  {
  }

  lemma ResizeAndViewportPreserve(s: Session, field: RoomField, v: real, mode: ViewportMode)
    requires Wellformed(s)
    ensures Wellformed(ResizeRoom(s, field, v))
    ensures Wellformed(SetViewport(s, mode))
  {
  }

  /** Reading back after an update: the selected module carries the patched fields, and
      every other id reads as before. */
  lemma UpdateThenRead(s: Session, p: ModulePatch, other: string)
    requires p.id.None?
    requires HasSelection(s.selectedId) && SelectedModule(s).Some?
    requires other != s.selectedId.value
    ensures var sel := s.selectedId.value;
            var ms' := UpdateSelectedModule(s, p).project.modules;
            && Find(ms', sel) == Some(Merge(Find(s.project.modules, sel).value, p))
            && Find(ms', other) == Find(s.project.modules, other)
  {
    var sel := s.selectedId.value;
    var ms := s.project.modules;
    FirstMatchPatched(ms, sel, p);
    OtherIdsUnaffected(ms, sel, p, other);
  }

  lemma {:induction false} OtherIdsUnaffected(ms: seq<FurnitureModule>, sel: string, p: ModulePatch, other: string)
    requires p.id.None?
    requires other != sel
    ensures Find(PatchWhere(ms, sel, p), other) == Find(ms, other)
  {
    if |ms| > 0 {
      var r := PatchWhere(ms, sel, p);
      assert r[0].id == ms[0].id;
      assert ms[0].id == other ==> r[0] == ms[0];
      assert r[1..] == PatchWhere(ms[1..], sel, p);
      OtherIdsUnaffected(ms[1..], sel, p, other);
    }
  }

  /** Setting the finish of the selected module to "Grafite Silk" changes that field only. */
  lemma RefinishExample(s: Session, k: int)
    requires 0 <= k < |s.project.modules|
    requires s.selectedId == Some(s.project.modules[k].id) && s.project.modules[k].id != ""
    ensures UpdateSelectedModule(s, EmptyPatch.(finish := Some("Grafite Silk"))).project.modules[k]
            == s.project.modules[k].(finish := "Grafite Silk")
  {
  }

}
