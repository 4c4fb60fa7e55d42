/** Coercion of the untrusted module descriptors proposed by the generative layout service.
    Every field of a descriptor may be absent or malformed; each is defaulted on its own
    instead of rejecting the entry. */
module AiDescriptor {
  import opened Base
  import opened Types
  import Catalog

  /** A raw numeric field as `Number(v)` sees it: absent (`undefined`), a number
      (after any string parsing), or something that converts to NaN. */
  datatype RawNum = Missing | Num(value: real) | NotNumeric

  /** A raw type field: absent (`undefined`/`null`) or a string, possibly empty. */
  datatype RawText = Absent | Str(s: string)

  /** One element of the proposal's `modules` array. A `null`/`undefined` element is
      `NullEntry`: reading a field of it throws. */
  datatype RawEntry =
    | NullEntry
    | Entry(typeName: RawText, width: RawNum, height: RawNum, depth: RawNum,
            x: RawNum, y: RawNum, z: RawNum, rotation: RawNum)

  /** The service's answer: no usable layout (a `null` result or no `modules` field),
      or an array of raw entries. */
  datatype RawProposal = NoLayout | Layout(entries: seq<RawEntry>)

  const DefaultWidth: real := 800.0
  const DefaultHeight: real := 720.0
  const DefaultDepth: real := 580.0
  const DefaultType: string := "Módulo IA"
  const GeneratedCategory: string := "IA Generated"
  const GeneratedPrice: real := 1500.0

  /** The number carried by `v` when it is a non-zero number. */
  predicate IsTruthyNumber(v: RawNum) {
    v.Num? && v.value != 0.0
  }

  /** `Number(v) || d`: NaN, a missing field and zero are all falsy and give `d`. */
  function NumberOr(v: RawNum, d: real): (r: real)
    ensures IsTruthyNumber(v) ==> r == v.value
    ensures !IsTruthyNumber(v) ==> r == d
    ensures r == 0.0 ==> d == 0.0
  {
    if IsTruthyNumber(v) then v.value else d
  }

  /** `m.type || 'Módulo IA'`. */
  function TypeOr(t: RawText): (r: string)
    ensures r != ""
    ensures t.Str? && t.s != "" ==> r == t.s
    ensures !(t.Str? && t.s != "") ==> r == DefaultType
  {
    if t.Str? && t.s != "" then t.s else DefaultType
  }

  /** `String(m.type || '')`: the text the slat test looks at. */
  function RawTypeText(t: RawText): string {
    if t.Str? then t.s else ""
  }

  /** The case-insensitive slat test of a generated module: `ripado` occurs in the
      lower-cased raw type. */
  function RipadoFromRaw(t: RawText): (r: bool)
    ensures r <==> exists i :: OccursAt(ToLowerAscii(RawTypeText(t)), "ripado", i)
  {
    IncludesIffOccurs(ToLowerAscii(RawTypeText(t)), "ripado");
    Includes(ToLowerAscii(RawTypeText(t)), "ripado")
  }

  /** The module built from one non-null descriptor with the given fresh id. */
  function CoerceEntry(e: RawEntry, freshId: string): (m: FurnitureModule)
    requires e.Entry?
    ensures m.id == freshId
    ensures m.typeName == TypeOr(e.typeName) && m.typeName != ""
    ensures m.category == GeneratedCategory && m.price == GeneratedPrice
    ensures m.finish == Catalog.DefaultFinish
    ensures m.width == NumberOr(e.width, DefaultWidth) && m.width != 0.0
    ensures m.height == NumberOr(e.height, DefaultHeight) && m.height != 0.0
    ensures m.depth == NumberOr(e.depth, DefaultDepth) && m.depth != 0.0
    ensures m.x == NumberOr(e.x, 0.0) && m.y == NumberOr(e.y, 0.0) && m.z == NumberOr(e.z, 0.0)
    ensures m.rotation == NumberOr(e.rotation, 0.0)
    ensures m.isRipado <==> exists i :: OccursAt(ToLowerAscii(RawTypeText(e.typeName)), "ripado", i)
  {
    FurnitureModule(
      id := freshId,
      typeName := TypeOr(e.typeName),
      category := GeneratedCategory,
      width := NumberOr(e.width, DefaultWidth),
      height := NumberOr(e.height, DefaultHeight),
      depth := NumberOr(e.depth, DefaultDepth),
      x := NumberOr(e.x, 0.0),
      y := NumberOr(e.y, 0.0),
      z := NumberOr(e.z, 0.0),
      finish := Catalog.DefaultFinish,
      isRipado := RipadoFromRaw(e.typeName),
      price := GeneratedPrice,
      rotation := NumberOr(e.rotation, 0.0))
  }

  /** Every field that is not a non-zero number falls back to its default, whatever
      else was wrong with it, and every non-zero number the service gave is kept. */
  lemma FalsyFieldsDefault(e: RawEntry, freshId: string)
    requires e.Entry?
    ensures !IsTruthyNumber(e.width) ==> CoerceEntry(e, freshId).width == DefaultWidth
    ensures !IsTruthyNumber(e.height) ==> CoerceEntry(e, freshId).height == DefaultHeight
    ensures !IsTruthyNumber(e.depth) ==> CoerceEntry(e, freshId).depth == DefaultDepth
    ensures !IsTruthyNumber(e.x) ==> CoerceEntry(e, freshId).x == 0.0
    ensures !IsTruthyNumber(e.y) ==> CoerceEntry(e, freshId).y == 0.0
    ensures !IsTruthyNumber(e.z) ==> CoerceEntry(e, freshId).z == 0.0
    ensures !IsTruthyNumber(e.rotation) ==> CoerceEntry(e, freshId).rotation == 0.0
    ensures IsTruthyNumber(e.width) ==> CoerceEntry(e, freshId).width == e.width.value
    ensures IsTruthyNumber(e.height) ==> CoerceEntry(e, freshId).height == e.height.value
    ensures IsTruthyNumber(e.depth) ==> CoerceEntry(e, freshId).depth == e.depth.value
    ensures IsTruthyNumber(e.x) ==> CoerceEntry(e, freshId).x == e.x.value
    ensures IsTruthyNumber(e.y) ==> CoerceEntry(e, freshId).y == e.y.value
    ensures IsTruthyNumber(e.z) ==> CoerceEntry(e, freshId).z == e.z.value
    ensures IsTruthyNumber(e.rotation) ==> CoerceEntry(e, freshId).rotation == e.rotation.value
    ensures !(e.typeName.Str? && e.typeName.s != "") ==> CoerceEntry(e, freshId).typeName == DefaultType
  {
  }

  /** A descriptor giving only the type "Ripado Teste" becomes an 800 x 720 x 580 slatted
      module at the origin. */
  lemma RipadoTesteDescriptor(freshId: string)
    ensures var m := CoerceEntry(Entry(Str("Ripado Teste"), Missing, Missing, Missing,
                                       Missing, Missing, Missing, Missing), freshId);
            && m.typeName == "Ripado Teste"
            && m.width == 800.0 && m.height == 720.0 && m.depth == 580.0
            && m.x == 0.0 && m.y == 0.0 && m.z == 0.0 && m.rotation == 0.0
            && m.isRipado
  {
    var l := ToLowerAscii("Ripado Teste");
    assert l[..6] == "ripado";
    assert OccursAt(l, "ripado", 0);
  }

  /** A type the catalogue rule calls slatted (case-sensitive `Ripado`) is slatted under the
      generator's case-insensitive rule too. */
  lemma CatalogRuleImpliesGeneratedRule(t: string)
    ensures Includes(t, "Ripado") ==> RipadoFromRaw(Str(t))
  {
    if Includes(t, "Ripado") {
      IncludesIffOccurs(t, "Ripado");
      var i :| OccursAt(t, "Ripado", i);
      LowerKeepsOccurrence(t, "Ripado", i);
      var r := ToLowerAscii("Ripado");
      assert r[0] == 'r';
      assert r == "ripado";
    }
  }
}
