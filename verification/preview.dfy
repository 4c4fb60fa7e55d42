/** The pseudo-3D preview: a pure mapping from the modules, the room dimensions, the
    selected id and the viewport mode to presentation records. Every element hangs under
    one root rotation chosen by the viewport mode; millimetres are scaled to display units
    by one shared factor. */
module Preview {
  import opened Base
  import opened Types
  import Catalog

  /** Millimetres to display units, shared by the room and every module. */
  const Scale: real := 3.0 / 20.0

  /** The translucent colour every face takes in the engineering view. */
  const SchematicColor: string := "rgba(212, 175, 55, 0.05)"

  /** The colour of an unknown finish. */
  const White: string := "#ffffff"

  /** The perspective distance, in pixels, of the perspective and engineering views. */
  const PerspectiveDistance: int := 3000

  // ---------------------------------------------------------------------------------
  // Colours

  /** The preview's finish-to-colour rule. */
  function FinishColor(finish: string, mode: ViewportMode): (c: string)
    ensures mode == Engineer ==> c == SchematicColor
    ensures mode != Engineer && c != White ==>
              finish in {"Louredo Matt", "Grafite Silk", "Carvalho SD", "Preto Absoluto"}
  {
    if mode == Engineer then SchematicColor
    else if finish == "Louredo Matt" then "#d4af37"
    else if finish == "Branco Tx" then "#ffffff"
    else if finish == "Grafite Silk" then "#444444"
    else if finish == "Carvalho SD" then "#a67b5b"
    else if finish == "Preto Absoluto" then "#1a1a1a"
    else White
  }

  /** The colour a swatch list gives a finish name: the first swatch of that name, else `dflt`. */
  function SwatchColor(swatches: seq<Finish>, finish: string, dflt: string): string {
    if |swatches| == 0 then dflt
    else if swatches[0].name == finish then swatches[0].color
    else SwatchColor(swatches[1..], finish, dflt)
  }

  /** Outside the engineering view the preview paints every finish in the colour of the
      inspector's swatch of the same name, and unknown finishes white. */
  lemma FinishColorMatchesPalette(finish: string, mode: ViewportMode)
    requires mode != Engineer
    ensures FinishColor(finish, mode) == SwatchColor(Catalog.Finishes, finish, White)
  {
    var f := Catalog.Finishes;
    var t4 := [Finish("Preto Absoluto", "#1a1a1a")];
    var t3 := [Finish("Carvalho SD", "#a67b5b")] + t4;
    var t2 := [Finish("Grafite Silk", "#444444")] + t3;
    var t1 := [Finish("Louredo Matt", "#d4af37")] + t2;
    assert f == [Finish("Branco Tx", "#ffffff")] + t1;
    assert f[1..] == t1 && t1[1..] == t2 && t2[1..] == t3 && t3[1..] == t4;
    assert t4[1..] == [];
    assert SwatchColor(t4, finish, White) == if finish == "Preto Absoluto" then "#1a1a1a" else White;
    assert SwatchColor(t3, finish, White) == if finish == "Carvalho SD" then "#a67b5b" else SwatchColor(t4, finish, White);
    assert SwatchColor(t2, finish, White) == if finish == "Grafite Silk" then "#444444" else SwatchColor(t3, finish, White);
    assert SwatchColor(t1, finish, White) == if finish == "Louredo Matt" then "#d4af37" else SwatchColor(t2, finish, White);
    assert SwatchColor(f, finish, White) == if finish == "Branco Tx" then "#ffffff" else SwatchColor(t1, finish, White);
  }

  // ---------------------------------------------------------------------------------
  // Camera

  /** The axis of the second rotation of the root transform. */
  datatype TurnAxis = AboutY | AboutZ

  /** `rotateX(tilt) rotateY/Z(turn)`, in degrees. */
  datatype RootRotation = RootRotation(tilt: int, turnAxis: TurnAxis, turn: int)

  /** The camera preset of each viewport mode; the side view shares the perspective preset. */
  function ViewportTransform(mode: ViewportMode): (t: RootRotation)
    ensures mode == Top ==> t == RootRotation(90, AboutZ, 0)
    ensures mode == Front ==> t == RootRotation(0, AboutY, 0)
    ensures mode == Engineer ==> t == RootRotation(-25, AboutY, -45)
    ensures mode == Perspective || mode == Side ==> t == RootRotation(-15, AboutY, -30)
  {
    match mode
    case Top => RootRotation(90, AboutZ, 0)
    case Front => RootRotation(0, AboutY, 0)
    case Engineer => RootRotation(-25, AboutY, -45)
    case _ => RootRotation(-15, AboutY, -30)
  }

  /** The CSS perspective of the stage: a distance only for the perspective and engineering views. */
  function PerspectiveDepth(mode: ViewportMode): (d: Option<int>)
    ensures d.Some? <==> mode == Perspective || mode == Engineer
    ensures d.Some? ==> d.value == PerspectiveDistance
  {
    if mode == Perspective || mode == Engineer then Some(PerspectiveDistance) else None
  }

  // ---------------------------------------------------------------------------------
  // Modules

  /** The four side faces of a module box. */
  datatype FaceSide = LeftFace | RightFace | TopFace | BottomFace

  /** A side face: how far it extends into the depth, its brightness filter, its colour, and
      whether it is outlined (engineering view). */
  datatype SideFace = SideFace(side: FaceSide, extent: real, brightness: real, color: string, outlined: bool)

  /** How the front face is framed. */
  datatype FrontStyle = Schematic | Highlighted | Plain

  /** The two dimension labels, in millimetres: the width above the box, the height beside it. */
  datatype Callouts = Callouts(widthMm: real, heightMm: real)

  /** The presentation of one module. The box is anchored at its bottom centre
      (`translate(-50%, -100%)`) at `offsetX`/`offsetY` from the room centre, pushed
      `depthZ` along the view axis and turned `turnY` degrees about the vertical axis. */
  datatype ModuleBox = ModuleBox(
    id: string,
    width: real,
    height: real,
    offsetX: real,
    offsetY: real,
    depthZ: real,
    turnY: real,
    color: string,
    frontStyle: FrontStyle,
    frontZ: real,
    sides: seq<SideFace>,
    callouts: Option<Callouts>,
    slats: Option<nat>,
    handle: bool,
    typeLabel: Option<string>)

  /** The fixed brightness of each side face. */
  function Brightness(side: FaceSide): real {
    match side
    case LeftFace => 0.7
    case RightFace => 0.8
    case TopFace => 1.1
    case BottomFace => 0.5
  }

  /** The number of slats of a slatted front: one per whole 35 mm of width, and none when
      the floor of the quotient is negative (an array length is clamped at zero). */
  function SlatCount(width: real): (n: nat)
    ensures width >= 0.0 ==> 35.0 * (n as real) <= width < 35.0 * (n as real + 1.0)
    ensures width < 35.0 ==> n == 0
  {
    var f := (width / 35.0).Floor;
    if f < 0 then 0 else f
  }

  /** The presentation of module `m` in `mode` with `sel` selected. */
  function ProjectModule(m: FurnitureModule, mode: ViewportMode, sel: Option<string>): (b: ModuleBox)
    ensures b.id == m.id
    ensures b.color == FinishColor(m.finish, mode)
    ensures b.callouts.Some? <==> mode == Engineer || sel == Some(m.id)
    ensures b.callouts.Some? ==> b.callouts.value == Callouts(m.width, m.height)
    ensures b.slats.Some? <==> m.isRipado && mode != Engineer
    ensures b.slats.Some? ==> b.slats.value == SlatCount(m.width)
    ensures b.handle <==> !m.isRipado && m.category == "Cozinha" && mode != Engineer
    ensures b.typeLabel.Some? <==> mode == Engineer
    ensures b.frontStyle == Highlighted <==> mode != Engineer && sel == Some(m.id)
    ensures |b.sides| == 4
    ensures forall k :: 0 <= k < 4 ==>
              && b.sides[k].extent == 2.0 * b.frontZ
              && b.sides[k].color == b.color
              && (b.sides[k].outlined <==> mode == Engineer)
    ensures b.sides[0].side == LeftFace && b.sides[0].brightness == 0.7
    ensures b.sides[1].side == RightFace && b.sides[1].brightness == 0.8
    ensures b.sides[2].side == TopFace && b.sides[2].brightness == 1.1
    ensures b.sides[3].side == BottomFace && b.sides[3].brightness == 0.5
  {
    var engineer := mode == Engineer;
    var selected := sel == Some(m.id);
    var color := FinishColor(m.finish, mode);
    var extent := m.depth * Scale;
    ModuleBox(
      id := m.id,
      width := m.width * Scale,
      height := m.height * Scale,
      offsetX := m.x * Scale,
      offsetY := -(m.y * Scale),
      depthZ := m.z * Scale,
      turnY := m.rotation,
      color := color,
      frontStyle := if engineer then Schematic else if selected then Highlighted else Plain,
      frontZ := extent / 2.0,
      sides := [SideFace(LeftFace, extent, Brightness(LeftFace), color, engineer),
                SideFace(RightFace, extent, Brightness(RightFace), color, engineer),
                SideFace(TopFace, extent, Brightness(TopFace), color, engineer),
                SideFace(BottomFace, extent, Brightness(BottomFace), color, engineer)],
      callouts := if engineer || selected then Some(Callouts(m.width, m.height)) else None,
      slats := if m.isRipado && !engineer then Some(SlatCount(m.width)) else None,
      handle := !m.isRipado && m.category == "Cozinha" && !engineer,
      typeLabel := if engineer then Some(m.typeName) else None)
  }

  /** A slatted front never carries the kitchen handle. */
  lemma SlatsExcludeHandle(m: FurnitureModule, mode: ViewportMode, sel: Option<string>)
    ensures !(ProjectModule(m, mode, sel).slats.Some? && ProjectModule(m, mode, sel).handle)
  {
  }

  /** The size, position and orientation a box was drawn from. */
  datatype Placement = Placement(width: real, height: real, depth: real, x: real, y: real, z: real, rotation: real)

  function PlacementOf(m: FurnitureModule): Placement {
    Placement(m.width, m.height, m.depth, m.x, m.y, m.z, m.rotation)
  }

  /** Reads the module's millimetre geometry back off its box. */
  function Unproject(b: ModuleBox): Placement {
    Placement(b.width / Scale, b.height / Scale, 2.0 * b.frontZ / Scale,
              b.offsetX / Scale, -b.offsetY / Scale, b.depthZ / Scale, b.turnY)
  }

  /** The projection loses no geometry: undoing the scale recovers every size, coordinate
      and the rotation, in every viewport mode. */
  lemma UnprojectRoundTrip(m: FurnitureModule, mode: ViewportMode, sel: Option<string>)
    ensures Unproject(ProjectModule(m, mode, sel)) == PlacementOf(m)
  {
  }

  /** The geometric part of a box. */
  function BoxGeometry(b: ModuleBox): (real, real, real, real, real, real, real, seq<real>)
    requires |b.sides| == 4
  {
    (b.width, b.height, b.offsetX, b.offsetY, b.depthZ, b.turnY, b.frontZ,
     [b.sides[0].extent, b.sides[1].extent, b.sides[2].extent, b.sides[3].extent])
  }

  /** The viewport mode and the selection change colours and annotations only: a module's
      box has the same geometry under every mode, so the camera is applied once at the root. */
  lemma GeometryIgnoresModeAndSelection(m: FurnitureModule, mode1: ViewportMode, mode2: ViewportMode,
                                        sel1: Option<string>, sel2: Option<string>)
    ensures BoxGeometry(ProjectModule(m, mode1, sel1)) == BoxGeometry(ProjectModule(m, mode2, sel2))
  {
  }

  /** Moving a module by `a` along an axis moves its box by `a` scaled, the vertical axis
      inverted; nothing else about the box changes. */
  lemma MoveShiftsBox(m: FurnitureModule, axis: Axis, a: real, mode: ViewportMode, sel: Option<string>)
    ensures var b := ProjectModule(m, mode, sel);
            var m' := match axis case X => m.(x := m.x + a) case Y => m.(y := m.y + a) case Z => m.(z := m.z + a);
            var b' := ProjectModule(m', mode, sel);
            b' == (match axis
                   case X => b.(offsetX := b.offsetX + a * Scale)
                   case Y => b.(offsetY := b.offsetY - a * Scale)
                   case Z => b.(depthZ := b.depthZ + a * Scale))
  {
  }

  /** A module 800 mm wide at x = 1000 is drawn 120 units wide, 150 units right of the centre. */
  lemma ScaleExample(m: FurnitureModule, mode: ViewportMode, sel: Option<string>)
    requires m.x == 1000.0 && m.y == 0.0 && m.z == 0.0 && m.width == 800.0 && m.height == 720.0
    ensures ProjectModule(m, mode, sel).width == 120.0
    ensures ProjectModule(m, mode, sel).offsetX == 150.0
    ensures ProjectModule(m, mode, sel).height == 108.0
  {
  }

  // ---------------------------------------------------------------------------------
  // Room and scene

  /** The floor plate: its size, the faint grid of the normal views, and the watermark of
      the engineering view. */
  datatype FloorPlate = FloorPlate(width: real, depth: real, grid: bool, technicalLabel: bool)

  /** The back wall: its size and its offset along the view axis. */
  datatype BackWall = BackWall(width: real, height: real, z: real)

  /** Everything the preview draws. The root rotation is applied once, to the stage that
      holds the floor, the wall and every module box. */
  datatype Scene = Scene(
    darkBackground: bool,
    perspective: Option<int>,
    root: RootRotation,
    floor: FloorPlate,
    wall: Option<BackWall>,
    boxes: seq<ModuleBox>)

  /** The floor plate is the room's floor at the modules' scale. */
  function Floor(floorWidth: real, floorDepth: real, mode: ViewportMode): (f: FloorPlate)
    ensures f.width == floorWidth * Scale && f.depth == floorDepth * Scale
    ensures f.grid <==> mode != Engineer
    ensures f.technicalLabel <==> mode == Engineer
  {
    FloorPlate(floorWidth * Scale, floorDepth * Scale, mode != Engineer, mode == Engineer)
  }

  /** The back wall is left out of the engineering view. */
  function Wall(floorWidth: real, floorDepth: real, wallHeight: real, mode: ViewportMode): (w: Option<BackWall>)
    ensures w.None? <==> mode == Engineer
  {
    if mode == Engineer then None
    else Some(BackWall(floorWidth * Scale, wallHeight * Scale, -(floorDepth * Scale / 2.0)))
  }

  /** The whole preview of a layout. */
  function Render(modules: seq<FurnitureModule>, floorWidth: real, floorDepth: real, wallHeight: real,
                  sel: Option<string>, mode: ViewportMode): (sc: Scene)
    ensures sc.root == ViewportTransform(mode)
    ensures sc.darkBackground <==> mode == Engineer
    ensures sc.perspective == PerspectiveDepth(mode)
    ensures sc.floor == Floor(floorWidth, floorDepth, mode)
    ensures sc.wall == Wall(floorWidth, floorDepth, wallHeight, mode)
    ensures |sc.boxes| == |modules|
    ensures forall i :: 0 <= i < |modules| ==> sc.boxes[i] == ProjectModule(modules[i], mode, sel)
  {
    Scene(
      mode == Engineer,
      PerspectiveDepth(mode),
      ViewportTransform(mode),
      Floor(floorWidth, floorDepth, mode),
      Wall(floorWidth, floorDepth, wallHeight, mode),
      seq(|modules|, i requires 0 <= i < |modules| => ProjectModule(modules[i], mode, sel)))
  }

  /** The wall is exactly as wide as the floor and stands on the floor's back edge. */
  lemma WallOnFloorBackEdge(floorWidth: real, floorDepth: real, wallHeight: real, mode: ViewportMode)
    requires mode != Engineer
    ensures var f := Floor(floorWidth, floorDepth, mode);
            var w := Wall(floorWidth, floorDepth, wallHeight, mode).value;
            w.width == f.width && w.z == -(f.depth / 2.0) && w.height / Scale == wallHeight
  {
  }

  /** Clicking the `i`-th box reports the id of the `i`-th module. */
  function ClickedId(sc: Scene, i: int): string
    requires 0 <= i < |sc.boxes|
  {
    sc.boxes[i].id
  }

  /** A click on box `i` names module `i`; once that id is selected, and ids are unique,
      exactly that box carries the selection frame and (outside the engineering view) the
      dimension callouts. */
  lemma ClickSelectsExactlyThatBox(modules: seq<FurnitureModule>, floorWidth: real, floorDepth: real,
                                   wallHeight: real, sel: Option<string>, mode: ViewportMode, i: int)
    requires UniqueIds(modules)
    requires 0 <= i < |modules|
    ensures ClickedId(Render(modules, floorWidth, floorDepth, wallHeight, sel, mode), i) == modules[i].id
    ensures var sc := Render(modules, floorWidth, floorDepth, wallHeight, Some(modules[i].id), mode);
            forall j :: 0 <= j < |modules| ==>
              && (sc.boxes[j].frontStyle == Highlighted <==> mode != Engineer && j == i)
              && (mode != Engineer ==> (sc.boxes[j].callouts.Some? <==> j == i))
  {
    var sc := Render(modules, floorWidth, floorDepth, wallHeight, Some(modules[i].id), mode);
    forall j | 0 <= j < |modules|
      ensures sc.boxes[j].frontStyle == Highlighted <==> mode != Engineer && j == i
      ensures mode != Engineer ==> (sc.boxes[j].callouts.Some? <==> j == i)
    {
      if j != i {
        assert i < j || j < i;
      }
    }
  }
}
