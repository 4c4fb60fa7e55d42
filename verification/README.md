# Furniture layout store and pseudo-3D preview, in Dafny

This project models the two deterministic pieces of a furniture-design sales front-end.

- **Layout store.** The active project holds its modules in insertion order, the room
  dimensions and the selected module id. The editor changes it in these ways:
  - adds a module from the catalogue;
  - appends the modules that the generative layout service proposes, after coercing
    every untrusted field;
  - patches or moves the selected module;
  - deletes the selected module;
  - resizes the room;
  - sums the prices.
- **Preview projection.** A pure mapping takes the modules, the room, the selection and the
  viewport mode. It produces presentation records: the camera rotation, box sizes and
  offsets at the fixed scale 0.15, the face offsets and the brightness table, the finish
  colours, the dimension callouts, the slats, the kitchen handle and the back wall.

Files:

- `base.dfy` (`Base`): `Option`, plus `includes` and ASCII `toLowerCase`, each with its
  specification.
- `types.dfy` (`Types`): the records of `types.ts`.
- `catalog.dfy` (`Catalog`): the module catalogue and the finish palette.
- `ai_descriptor.dfy` (`AiDescriptor`): the raw descriptors and their per-field coercion.
- `layout_store.dfy` (`LayoutStore`): the store operations, the price total, and the
  invariant that ids are unique and the selection never dangles.
- `preview.dfy` (`Preview`): the projection.

Design choices:

- JavaScript numbers are exact `real`s. The scale is `3.0 / 20.0`.
- Each operation is a pure function from the old session to the new one.
- The editor draws module ids with `Math.random`. Here they are parameters. The operations
  do not require the ids to be fresh, because the code never checks. Freshness is a
  hypothesis of the invariant lemmas only.

In a few places the code does not do what its design intends. The model follows the
code:

- **Update and move act on the selection, not on a given id.** A selection of `""` counts
  as no selection, because `!selectedId` is true for the empty string.
- **The generated batch can be dropped whole.** If the service's `modules` array contains a
  `null` element, reading `m.type` throws. The handler catches the error and appends
  nothing, so one malformed element can drop the whole batch, against the stated intent
  that one malformed descriptor not drop the others.
- **Sizes are not kept positive.** Generated sizes can be negative: `Number(-5) || 800` is
  -5. The inspector sliders can also set 0. So no "size > 0" invariant is claimed. What is
  proved is that a coerced size is never 0.
- **Delete always clears the selection,** and it removes every module that carries the
  selected id.

## Model

| member | source | states |
|---|---|---|
| Base.IncludesIffOccurs | App.jsx:80 | the left-to-right `includes` scan answers true exactly when the text occurs at some index |
| Base.LowerKeepsOccurrence | App.jsx:116 | lower-casing keeps an occurrence at the same index, lower-cased |
| AiDescriptor.NumberOr | App.jsx:108-114 | `Number(v) \|\| d` keeps a non-zero number, gives the default for a missing, non-numeric or zero field, and is never 0 unless the default is 0 |
| AiDescriptor.TypeOr | App.jsx:106 | a generated module's type is never empty; a non-empty raw type is kept as given, and a missing or empty one becomes 'Módulo IA' |
| AiDescriptor.RipadoFromRaw | App.jsx:116 | a generated module is slatted iff `ripado` occurs in the lower-cased raw type, with a missing type read as "" |
| AiDescriptor.CoerceEntry | App.jsx:104-118 | a descriptor becomes a module with the fresh id, category 'IA Generated', price 1500 and finish 'Branco Tx'; each size is coerced on its own and is never 0; the type is never empty |
| AiDescriptor.FalsyFieldsDefault | App.jsx:108-114 | a missing, non-numeric or zero field gives width 800, height 720, depth 580 and x, y, z and rotation 0; a non-zero number is kept in every one of those fields; a missing or empty type becomes 'Módulo IA' |
| AiDescriptor.RipadoTesteDescriptor | App.jsx:106-116 | a descriptor with only type "Ripado Teste" gives an 800 x 720 x 580 slatted module at the origin, unrotated |
| AiDescriptor.CatalogRuleImpliesGeneratedRule | App.jsx:116 | a type that is slatted under the catalogue's case-sensitive `Ripado` test (line 80) is also slatted under the generator's case-insensitive test |
| LayoutStore.FindSpec | App.jsx:59 | looking up the selected module succeeds iff some module carries the id, and it returns the module at the first index carrying that id, as `Array.prototype.find` does |
| LayoutStore.FindUnique | App.jsx:59 | when ids are unique, the lookup returns the one module that carries the id |
| LayoutStore.UpdateSelectedModule | App.jsx:61-67 | without a truthy selection nothing changes; otherwise the modules that carry the selected id take the patch, and every other module, the order, the length, the room and the selection stay the same |
| LayoutStore.UpdateThenRead | App.jsx:59-67 | after an update, reading the selected id gives the old module merged with the patch, and reading any other id gives what it gave before |
| LayoutStore.RefinishExample | App.jsx:427 | setting the finish to 'Grafite Silk' changes only that field of the selected module |
| LayoutStore.MoveModule | App.jsx:69-72 | a move without a matching selected module, or with a falsy (empty) selection, changes nothing; a move never changes the selection, the viewport, the number of modules or any project field other than the module list |
| LayoutStore.MoveShiftsOneAxis | App.jsx:69-72 | when ids are unique, a move adds the amount to exactly the named coordinate of exactly the selected module; every other field and every other module stays the same |
| LayoutStore.MoveAdditive | App.jsx:69-72 | a move by a and then by b along one axis equals a single move by a + b |
| LayoutStore.CatalogModule | App.jsx:75-81 | a catalogue module copies the entry's type, category, price, width, height and depth; it sits at the origin, unrotated, in 'Branco Tx'; it is slatted iff its type contains 'Ripado' (case-sensitive) |
| LayoutStore.CatalogSlattedItems | App.jsx:7-14 | of the six catalogue entries, only 'Painel Ripado SD' is added as slatted |
| LayoutStore.AddModule | App.jsx:74-85 | the new module is appended after the existing ones, which keep their order; the room is unchanged and the new id becomes the selection |
| LayoutStore.AddModulePreserves | App.jsx:74-83 | with a fresh id, adding keeps ids unique and the selection valid, and the new id reads back as the new module |
| LayoutStore.CoerceAll | App.jsx:104-118 | a batch gives one coerced module per descriptor, in order, each with its own id |
| LayoutStore.AddGeneratedModules | App.jsx:97-127 | the existing modules are kept as a prefix and one coerced module per descriptor is appended; with no layout, or with a null element, nothing changes; the selection is kept |
| LayoutStore.AddGeneratedPreserves | App.jsx:104-119 | with fresh, pairwise distinct ids, a generated batch keeps ids unique and the selection valid |
| LayoutStore.UpdatePreserves | App.jsx:61-67 | a patch that does not set `id` keeps every module's id, so ids stay unique and the selection stays valid |
| LayoutStore.MovePreserves | App.jsx:69-72 | moves keep ids unique and the selection valid |
| LayoutStore.RemoveId | App.jsx:400 | the filter keeps exactly the modules whose id differs from the removed one, and is the identity when no module carries that id |
| LayoutStore.RemoveIdAppend | App.jsx:400 | filtering a concatenation equals concatenating the filtered parts, so the kept modules stay in order |
| LayoutStore.RemoveIdKeepsUnique | App.jsx:400 | filtering keeps ids unique |
| LayoutStore.DeleteSelected | App.jsx:400 | delete removes the modules that carry the selected id, keeps the rest in order, leaves the room alone and clears the selection |
| LayoutStore.DeleteLeavesNoDangling | App.jsx:400 | after a delete, no module carries the removed id and the selection does not dangle |
| LayoutStore.DeletePreserves | App.jsx:400 | delete keeps the store invariant |
| LayoutStore.SelectModule | App.jsx:380 | a click on a box selects that id and changes nothing else |
| LayoutStore.SelectPreserves | App.jsx:380 | selecting the id of an existing module keeps the store invariant |
| LayoutStore.ResizeRoom | App.jsx:446-448 | a room setter changes only the named dimension; the modules, the settings and the selection are unchanged |
| LayoutStore.SetViewport | App.jsx:311-313 | switching the viewport never changes the project or the selection |
| LayoutStore.ResizeAndViewportPreserve | App.jsx:446-448 | room resizes and viewport switches keep the store invariant |
| LayoutStore.PriceSumAppend | App.jsx:159 | the price sum of a concatenation is the sum of the parts' price sums |
| LayoutStore.ProjectTotal | App.jsx:159 | the fold loop computes the sum of the module prices, and 0 for no modules |
| LayoutStore.TotalAfterAdd | App.jsx:159 | adding a catalogue module raises the total by exactly its price |
| LayoutStore.TotalAfterRemove | App.jsx:159 | the total of the kept modules plus the total of the removed ones equals the old total |
| LayoutStore.CatalogTotalExample | App.jsx:159 | the catalogue modules priced 1250, 980 and 4200 total 6430, and no modules total 0 |
| Preview.FinishColor | components/ThreePreview.tsx:22-32 | the engineering view paints every finish in the translucent schematic colour; elsewhere a non-white colour only comes from one of the four coloured finish names |
| Preview.FinishColorMatchesPalette | components/ThreePreview.tsx:22-32 | outside the engineering view, each finish gets the colour of the inspector swatch with the same name (App.jsx:16-22); unknown finishes get white |
| Preview.ViewportTransform | components/ThreePreview.tsx:34-42 | TOP gives rotateX 90; FRONT gives 0/0; ENGINEER gives -25/-45; PERSPECTIVE and SIDE give -15/-30 |
| Preview.PerspectiveDepth | components/ThreePreview.tsx:46 | the stage has the 3000px perspective iff the mode is PERSPECTIVE or ENGINEER |
| Preview.SlatCount | components/ThreePreview.tsx:120 | a slatted front of width w >= 0 has n slats with 35n <= w < 35(n+1); a width under 35, negative ones included, gives none |
| Preview.ProjectModule | components/ThreePreview.tsx:83-137 | a box carries its module's id and finish colour; callouts, with the literal width and height, appear iff ENGINEER or selected; slats appear iff slatted and not ENGINEER; the handle appears iff not slatted, 'Cozinha' and not ENGINEER; each of the four side faces spans twice the front face's offset, in the box colour, with brightness 0.7 (left), 0.8 (right), 1.1 (top) and 0.5 (bottom) |
| Preview.SlatsExcludeHandle | components/ThreePreview.tsx:118-128 | no box shows both slats and a handle |
| Preview.UnprojectRoundTrip | components/ThreePreview.tsx:93-98 | undoing the 0.15 scale on a box gives back the module's width, height, depth, x, y, z and rotation, in every mode |
| Preview.GeometryIgnoresModeAndSelection | components/ThreePreview.tsx:47-52 | a box's geometry is the same in every viewport mode and for every selection, so the camera rotation is applied once, at the shared root |
| Preview.MoveShiftsBox | components/ThreePreview.tsx:95-98 | moving a module by a along x, y or z moves its box by a*0.15 right, up (y is inverted) or along the view axis; nothing else about the box changes |
| Preview.ScaleExample | components/ThreePreview.tsx:18 | a module 800 mm wide and 720 mm high at x = 1000 is drawn 120 by 108 units, 150 units right of the centre |
| Preview.Floor | components/ThreePreview.tsx:55-69 | the floor plate is the room's floor width and depth at the modules' scale 0.15; it shows its grid iff not ENGINEER and the technical watermark iff ENGINEER |
| Preview.Wall | components/ThreePreview.tsx:72-80 | the back wall is drawn iff the mode is not ENGINEER |
| Preview.WallOnFloorBackEdge | components/ThreePreview.tsx:56-76 | the back wall is as wide as the floor, stands on the floor's back edge and is wallHeight*0.15 high |
| Preview.Render | components/ThreePreview.tsx:44-140 | the scene has one root rotation chosen by the mode, under which sit the room's floor plate, its back wall (absent in ENGINEER) and one box per module in layout order; it has a dark background iff ENGINEER and the mode's perspective |
| Preview.ClickSelectsExactlyThatBox | components/ThreePreview.tsx:85-114 | clicking box i reports module i's id; once that id is selected and ids are unique, exactly box i is highlighted and, outside ENGINEER, exactly box i shows callouts |

## Left out

- The calls to the generative AI service (layout, render, video, chat), and their asynchronous
  polling and fetching, are external I/O. A proposal enters the model only as the raw
  descriptor list, `RawProposal`.
- The prompt guard (`aiPrompt.trim()`), the loading flags and the prompt reset around the
  layout call are UI state.
- Random id generation (`Math.random().toString(36)`) is randomness. Ids are parameters
  instead.
- `addModule` also switches the view to the editor (`setView`). That is routing, not layout
  state.
- The login and role screens, dashboard, contracts, client portal, gallery, CRM chat, modals
  and presentational components form the UI shell around the core.
- Tool mode (select/move/rotate) only toggles UI affordances and has no geometry.
- CSS class strings, borders, shadows, transitions, the floor's grid image and the font of
  the labels are presentation only. The model keeps which element is drawn and its
  geometry. It keeps the selection frame only as the three-way `FrontStyle`.
- IEEE double rounding is not modelled; arithmetic is exact real arithmetic. NaN and
  Infinity are not values in the model. A raw field that converts to NaN is `NotNumeric`,
  and a stored rotation of NaN (the `|| 0` at ThreePreview.tsx:98) cannot occur.
- The inspector slider bounds (0 to max, step 10) are UI constraints, not store invariants.
  The room setters take any value.
- AiDescriptor.RipadoFromRaw: `toLowerCase` is modelled on the letters A-Z only. A non-ASCII
  capital cannot lower-case to a character of `ripado` next to another one: U+0130 gives an
  `i` followed by a combining dot. So the test is decided the same way.
- AiDescriptor.RawText: a raw `type` that is a truthy non-string value, such as a number, is
  not modelled. The service's schema declares the field a string.
- LayoutStore.MoveShiftsOneAxis: states the single-module effect only when ids are unique.
  With duplicate ids, every module that carries the selected id takes the first one's moved
  coordinate. `MoveModule` models that as written.
