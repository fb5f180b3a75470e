/** Attribute data kinds, Partio element types and the default type mapping
    (the `DataMap` records and `InitDefaults` of PartioExportForSoftimage.cpp). */
module Kinds {

  /** The host's per-point attribute data kinds. The ten named kinds are the
      ones the exporter knows; every other host data type is `Other(code)`. */
  datatype DataKind =
    | Bool | Long | Float
    | Vector2 | Vector3 | Vector4
    | Quaternion | Color4 | Shape | Rotation
    | Other(code: int)

  /** Partio's primitive element types used by the exporter. */
  datatype ElemType = INT | FLOAT | VECTOR

  /** One entry of a type mapping: the element type and the element count of
      the channel an attribute is exported to. */
  datatype DataMap = DataMap(elemType: ElemType, count: nat)

  const Int1: DataMap := DataMap(INT, 1)
  const Float1: DataMap := DataMap(FLOAT, 1)
  const Float2: DataMap := DataMap(FLOAT, 2)
  const Float3: DataMap := DataMap(FLOAT, 3)
  const Float4: DataMap := DataMap(FLOAT, 4)
  const Vector3Map: DataMap := DataMap(VECTOR, 3)

  type TypeMapping = map<DataKind, DataMap>

  /** The default type mapping, one entry per named kind. */
  const DefaultMapping: TypeMapping := map[
    Bool       := Int1,
    Long       := Int1,
    Float      := Float1,
    Vector2    := Float2,
    Vector3    := Vector3Map,
    Vector4    := Float4,
    Quaternion := Float4,
    Color4     := Float4,
    Shape      := Int1,
    Rotation   := Float4
  ]

  /** True of the kinds the per-point copy has a conversion for: every kind
      except the host's other data types. */
  predicate HasMarshaller(k: DataKind) {
    !k.Other?
  }

  /** The number of slots the conversion for `k` writes at the least, so the
      least channel element count that keeps its writes inside one row.
      Color4 writes three slots when the channel has at most three. */
  function MinCount(k: DataKind): nat
    requires HasMarshaller(k)
  {
    match k
    case Bool => 1
    case Long => 1
    case Float => 1
    case Shape => 1
    case Vector2 => 2
    case Vector3 => 3
    case Color4 => 3
    case Vector4 => 4
    case Quaternion => 4
    case Rotation => 4
  }

  /** A mapping is adequate when every convertible kind it maps gets a
      channel wide enough for what its conversion writes. */
  predicate Adequate(mapping: TypeMapping) {
    forall k :: k in mapping && HasMarshaller(k) ==> MinCount(k) <= mapping[k].count
  }

  /** The default table maps exactly the ten named kinds, to the pairs the
      exporter declares for them. */
  lemma DefaultMappingTable()
    ensures forall k :: k in DefaultMapping <==> HasMarshaller(k)
    ensures DefaultMapping[Bool] == DefaultMapping[Long] == DefaultMapping[Shape] == DataMap(INT, 1)
    ensures DefaultMapping[Float] == DataMap(FLOAT, 1)
    ensures DefaultMapping[Vector2] == DataMap(FLOAT, 2)
    ensures DefaultMapping[Vector3] == DataMap(VECTOR, 3)
    ensures DefaultMapping[Vector4] == DefaultMapping[Quaternion] == DataMap(FLOAT, 4)
    ensures DefaultMapping[Color4] == DefaultMapping[Rotation] == DataMap(FLOAT, 4)
  {
  }

  /** The default table, and the same table with Color4 narrowed to three
      floats, are both adequate. */
  lemma DefaultMappingAdequate()
    ensures Adequate(DefaultMapping)
    ensures Adequate(DefaultMapping[Color4 := Float3])
  {
  }
}
