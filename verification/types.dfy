/** The records of the layout editor: a placed furniture module, the project that owns
    the modules and the room, and the enumerations the store and the preview switch on.
    JavaScript numbers are modelled as exact reals. */
module Types {
  import opened Base

  /** The camera presets of the preview. */
  datatype ViewportMode = Perspective | Top | Front | Side | Engineer

  /** Floor finish choices of the room settings. */
  datatype FloorTexture = Porcelanato | Madeira | Concreto

  /** Passive display settings of the room; no geometry depends on them. */
  datatype EnvironmentSettings = EnvironmentSettings(
    floorTexture: FloorTexture,
    wallColor: string,
    ceilingVisible: bool)

  /** A placed module: sizes and position in millimetres (z is depth into the room),
      rotation in degrees about the vertical axis, a finish name and a price. */
  datatype FurnitureModule = FurnitureModule(
    id: string,
    typeName: string,
    category: string,
    width: real,
    height: real,
    depth: real,
    x: real,
    y: real,
    z: real,
    finish: string,
    isRipado: bool,
    price: real,
    rotation: real)

  /** A project: its modules in insertion (paint) order and the room dimensions in millimetres. */
  datatype ProjectDimensions = ProjectDimensions(
    id: string,
    name: string,
    clientName: string,
    modules: seq<FurnitureModule>,
    floorWidth: real,
    floorDepth: real,
    wallHeight: real,
    settings: EnvironmentSettings)

  /** An entry of the module catalogue (`w`, `h`, `d` are width, height and depth). */
  datatype LibraryItem = LibraryItem(
    typeName: string,
    category: string,
    price: real,
    icon: string,
    w: real,
    h: real,
    d: real)

  /** A finish swatch: its name and its display colour. */
  datatype Finish = Finish(name: string, color: string)

  /** The axes a module can be moved along. */
  datatype Axis = X | Y | Z

  /** The room dimensions the inspector can set. */
  datatype RoomField = FloorWidth | FloorDepth | WallHeight

  /** The coordinate of `m` along `axis`. */
  function Coord(m: FurnitureModule, axis: Axis): real {
    match axis
    case X => m.x
    case Y => m.y
    case Z => m.z
  }

  /** No two modules share an id. */
  ghost predicate UniqueIds(ms: seq<FurnitureModule>) {
    forall i, j :: 0 <= i < j < |ms| ==> ms[i].id != ms[j].id
  }

  /** Some module carries `id`. */
  ghost predicate HasId(ms: seq<FurnitureModule>, id: string) {
    exists i :: 0 <= i < |ms| && ms[i].id == id
  }
}
