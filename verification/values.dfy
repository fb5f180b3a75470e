/** The per-point conversions (`StoreDataRaw` and its specialisations):
    one host value is unpacked into the slots of one channel row. Float
    components are only ever copied, so their type is the parameter `F`. */
module Values {
  import opened Wrappers
  import opened Kinds

  /** A 32-bit signed integer, the width of both the host's Long values and
      Partio's INT slots; copying one into the other is exact. */
  type Int32 = x: int | -0x8000_0000 <= x < 0x8000_0000

  /** A rotation as the host stores it: its representation can differ from
      point to point. */
  datatype Rotation<F> =
    | QuatRot(qx: F, qy: F, qz: F, qw: F)
    | AxisAngleRot(axisX: F, axisY: F, axisZ: F, angle: F)
    | EulerRot(angleX: F, angleY: F, angleZ: F)

  /** One host attribute value, one variant per convertible data kind. A
      shape carries its type tag and the geometry it references. */
  datatype Value<F> =
    | BoolV(flag: bool)
    | LongV(long: Int32)
    | FloatV(scalar: F)
    | Vec2V(x: F, y: F)
    | Vec3V(x: F, y: F, z: F)
    | Vec4V(x: F, y: F, z: F, w: F)
    | QuatV(x: F, y: F, z: F, w: F)
    | ColorV(r: F, g: F, b: F, a: F)
    | ShapeV(shapeType: Int32, referenceId: int)
    | RotV(rot: Rotation<F>)

  /** One primitive slot of a channel row. `Unset` stands for whatever the
      record set held before the exporter wrote that slot. */
  datatype Slot<F> = Unset | IntSlot(i: Int32) | FloatSlot(f: F)

  type Row<F> = seq<Slot<F>>

  /** The data kind a value belongs to. */
  function KindOf<F>(v: Value<F>): (k: DataKind)
    ensures HasMarshaller(k)
  {
    match v
    case BoolV(_) => Bool
    case LongV(_) => Long
    case FloatV(_) => Float
    case Vec2V(_, _) => Vector2
    case Vec3V(_, _, _) => Vector3
    case Vec4V(_, _, _, _) => Vector4
    case QuatV(_, _, _, _) => Quaternion
    case ColorV(_, _, _, _) => Color4
    case ShapeV(_, _) => Shape
    case RotV(_) => Rotation
  }

  /** The documented component order of a value: booleans as 1/0, shapes by
      their type tag, vectors and quaternions as x, y[, z[, w]], colours as
      R, G, B, A; a rotation by its representation: quaternion (x, y, z, w),
      axis-angle (axis x, y, z, angle), Euler (x, y, z angles). */
  function Components<F>(v: Value<F>): seq<Slot<F>> {
    match v
    case BoolV(b) => [IntSlot(if b then 1 else 0)]
    case LongV(n) => [IntSlot(n)]
    case FloatV(f) => [FloatSlot(f)]
    case Vec2V(x, y) => [FloatSlot(x), FloatSlot(y)]
    case Vec3V(x, y, z) => [FloatSlot(x), FloatSlot(y), FloatSlot(z)]
    case Vec4V(x, y, z, w) => [FloatSlot(x), FloatSlot(y), FloatSlot(z), FloatSlot(w)]
    case QuatV(x, y, z, w) => [FloatSlot(x), FloatSlot(y), FloatSlot(z), FloatSlot(w)]
    case ColorV(r, g, b, a) => [FloatSlot(r), FloatSlot(g), FloatSlot(b), FloatSlot(a)]
    case ShapeV(t, _) => [IntSlot(t)]
    case RotV(QuatRot(x, y, z, w)) => [FloatSlot(x), FloatSlot(y), FloatSlot(z), FloatSlot(w)]
    case RotV(AxisAngleRot(x, y, z, angle)) => [FloatSlot(x), FloatSlot(y), FloatSlot(z), FloatSlot(angle)]
    case RotV(EulerRot(x, y, z)) => [FloatSlot(x), FloatSlot(y), FloatSlot(z)]
  }

  /** How many leading components the conversion writes into a channel of
      `count` elements: all of them, except that a colour's alpha is written
      only when the channel has more than three elements. */
  function WrittenWidth<F>(v: Value<F>, count: nat): nat {
    if v.ColorV? && count <= 3 then 3 else |Components(v)|
  }

  /** A fresh row of `count` slots nobody has written. */
  function BlankRow<F>(count: nat): (r: Row<F>)
    ensures |r| == count
    ensures forall j :: 0 <= j < count ==> r[j] == Unset
  {
    seq(count, _ => Unset)
  }

  /** The conversion of one value into the row `prior`, slot by slot as the
      specialisations write them. It writes the leading `WrittenWidth`
      components in documented order and leaves every other slot as it was:
      a colour's alpha slot when `count <= 3`, slot 3 for Euler rotations. */
  function Marshal<F>(v: Value<F>, count: nat, prior: Row<F>): (r: Row<F>)
    requires WrittenWidth(v, count) <= |prior|
    ensures |r| == |prior|
    ensures forall j :: 0 <= j < WrittenWidth(v, count) ==> r[j] == Components(v)[j]
    ensures forall j :: WrittenWidth(v, count) <= j < |prior| ==> r[j] == prior[j]
  {
    match v
    case BoolV(b) => prior[0 := IntSlot(if b then 1 else 0)]
    case LongV(n) => prior[0 := IntSlot(n)]
    case FloatV(f) => prior[0 := FloatSlot(f)]
    case Vec2V(x, y) => prior[0 := FloatSlot(x)][1 := FloatSlot(y)]
    case Vec3V(x, y, z) => prior[0 := FloatSlot(x)][1 := FloatSlot(y)][2 := FloatSlot(z)]
    case Vec4V(x, y, z, w) =>
      prior[0 := FloatSlot(x)][1 := FloatSlot(y)][2 := FloatSlot(z)][3 := FloatSlot(w)]
    case QuatV(x, y, z, w) =>
      prior[0 := FloatSlot(x)][1 := FloatSlot(y)][2 := FloatSlot(z)][3 := FloatSlot(w)]
    case ColorV(r, g, b, a) =>
      var rgb := prior[0 := FloatSlot(r)][1 := FloatSlot(g)][2 := FloatSlot(b)];
      if count > 3 then rgb[3 := FloatSlot(a)] else rgb
    case ShapeV(t, _) => prior[0 := IntSlot(t)]
    case RotV(rot) => MarshalRotation(rot, prior)
  }

  /** The rotation conversion, switching on the representation of this one
      value: the quaternion getter fills w into slot 3 and x, y, z into slots
      0-2, the axis-angle getter fills the angle into slot 3 and the axis into
      slots 0-2, and the Euler getter fills slots 0-2 only. */
  function MarshalRotation<F>(rot: Rotation<F>, prior: Row<F>): (r: Row<F>)
    requires (if rot.EulerRot? then 3 else 4) <= |prior|
    ensures |r| == |prior|
    ensures forall j :: 0 <= j < |Components(RotV(rot))| ==> r[j] == Components(RotV(rot))[j]
    ensures forall j :: |Components(RotV(rot))| <= j < |prior| ==> r[j] == prior[j]
  {
    match rot
    case QuatRot(x, y, z, w) =>
      prior[3 := FloatSlot(w)][0 := FloatSlot(x)][1 := FloatSlot(y)][2 := FloatSlot(z)]
    case AxisAngleRot(x, y, z, angle) =>
      prior[3 := FloatSlot(angle)][0 := FloatSlot(x)][1 := FloatSlot(y)][2 := FloatSlot(z)]
    case EulerRot(x, y, z) =>
      prior[0 := FloatSlot(x)][1 := FloatSlot(y)][2 := FloatSlot(z)]
  }

  /** A channel whose element count is at least `MinCount` of the value's
      kind has room for everything the conversion writes. */
  lemma WrittenWidthFits<F>(v: Value<F>, count: nat)
    requires MinCount(KindOf(v)) <= count
    ensures WrittenWidth(v, count) <= count
  {
  }

  /** Reads a row back as a value of kind `k` for a channel of `count`
      elements: the inverse of the conversion wherever the conversion loses
      nothing. A rotation row is read as a quaternion; a colour row is read
      only when it holds an alpha; shape rows are not read back (the
      conversion keeps only the type tag). */
  function ReadBack<F>(k: DataKind, count: nat, row: Row<F>): Option<Value<F>> {
    match k
    case Bool =>
      if |row| >= 1 && row[0].IntSlot? then Some(BoolV(row[0].i != 0)) else None
    case Long =>
      if |row| >= 1 && row[0].IntSlot? then Some(LongV(row[0].i)) else None
    case Float =>
      if |row| >= 1 && row[0].FloatSlot? then Some(FloatV(row[0].f)) else None
    case Vector2 =>
      if AllFloat(row, 2) then Some(Vec2V(row[0].f, row[1].f)) else None
    case Vector3 =>
      if AllFloat(row, 3) then Some(Vec3V(row[0].f, row[1].f, row[2].f)) else None
    case Vector4 =>
      if AllFloat(row, 4) then Some(Vec4V(row[0].f, row[1].f, row[2].f, row[3].f)) else None
    case Quaternion =>
      if AllFloat(row, 4) then Some(QuatV(row[0].f, row[1].f, row[2].f, row[3].f)) else None
    case Color4 =>
      if count > 3 && AllFloat(row, 4) then Some(ColorV(row[0].f, row[1].f, row[2].f, row[3].f)) else None
    case Rotation =>
      if AllFloat(row, 4) then Some(RotV(QuatRot(row[0].f, row[1].f, row[2].f, row[3].f))) else None
    case Shape => None
    case Other(_) => None
  }

  /** The first `n` slots of the row are float slots. */
  predicate AllFloat<F>(row: Row<F>, n: nat) {
    n <= |row| && forall j :: 0 <= j < n ==> row[j].FloatSlot?
  }

  /** The values whose conversion into a `count`-element channel loses
      nothing: everything but shapes, colours narrowed to three elements, and
      rotations not held as quaternions. */
  predicate Lossless<F>(v: Value<F>, count: nat) {
    match v
    case ShapeV(_, _) => false
    case ColorV(_, _, _, _) => count > 3
    case RotV(rot) => rot.QuatRot?
    case _ => true
  }

  /** Round trip: converting a value into any row wide enough and reading
      the row back gives the value again, for every lossless value. */
  lemma MarshalReadBack<F>(v: Value<F>, count: nat, prior: Row<F>)
    requires Lossless(v, count)
    requires WrittenWidth(v, count) <= |prior|
    ensures ReadBack(KindOf(v), count, Marshal(v, count, prior)) == Some(v)
  {
  }

  /** A colour exported to a three-element channel keeps R, G, B in slots
      0-2 and the row's slot 3, if any, is left as it was; with four or more
      elements R, G, B, A are written in order. */
  lemma ColorAlpha<F>(r: F, g: F, b: F, a: F, count: nat, prior: Row<F>)
    requires 4 <= |prior|
    ensures var row := Marshal(ColorV(r, g, b, a), count, prior);
      && row[..3] == [FloatSlot(r), FloatSlot(g), FloatSlot(b)]
      && (count <= 3 ==> row[3] == prior[3])
      && (count > 3 ==> row[3] == FloatSlot(a))
  {
  }

  /** Rotations: a quaternion gives (x, y, z, w) with w in slot 3, an
      axis-angle gives (axis x, y, z, angle), and an Euler rotation writes
      slots 0-2 and leaves slot 3 as it was. */
  lemma RotationSlots<F>(rot: Rotation<F>, count: nat, prior: Row<F>)
    requires 4 <= |prior|
    ensures var row := Marshal(RotV(rot), count, prior);
      match rot
      case QuatRot(x, y, z, w) => row[..4] == [FloatSlot(x), FloatSlot(y), FloatSlot(z), FloatSlot(w)]
      case AxisAngleRot(x, y, z, angle) => row[..4] == [FloatSlot(x), FloatSlot(y), FloatSlot(z), FloatSlot(angle)]
      case EulerRot(x, y, z) => row[..4] == [FloatSlot(x), FloatSlot(y), FloatSlot(z), prior[3]]
  {
  }
}
