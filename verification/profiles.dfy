/** The per-format export profiles: the channel rename table and the type
    mapping each `CustomFileExport*_OnEvent` handler passes on. */
module Profiles {
  import opened Kinds

  /** The file formats the plug-in registers an export handler for. */
  datatype Format = PRT | BGEO | GEO | BIN | PDA | PDB | PDC

  type RenameTable = map<string, string>

  /** A profile: the rename table and the type mapping used for one export. */
  datatype Profile = Profile(renames: RenameTable, mapping: TypeMapping)

  /** Channel names shared by default (the PRT names). */
  const DefaultChannelNames: RenameTable := map[
    "PointPosition" := "Position",
    "PointVelocity" := "Velocity",
    "PointNormal"   := "Normal",
    "PointUV"       := "TextureCoord"
  ]

  const BgeoChannelNames: RenameTable := map[
    "PointPosition"   := "position",
    "PointVelocity"   := "v",
    "PointNormal"     := "N",
    "PointUpVector"   := "up",
    "PointUV"         := "uv",
    "Color"           := "Cd",
    "Mass"            := "mass",
    "Size"            := "pscale",
    "Scale"           := "scalef",
    "DragCoefficient" := "drag"
  ]

  const BinChannelNames: RenameTable := map[
    "PointPosition" := "position",
    "PointVelocity" := "velocity",
    "PointNormal"   := "normal",
    "Force"         := "force",
    "Vorticity"     := "vorticity",
    "Neighbors"     := "neighbors",
    "PointUV"       := "uvw",
    "Age"           := "age",
    "IsolationTime" := "isolationTime",
    "Viscosity"     := "viscosity",
    "Density"       := "density",
    "Pressure"      := "pressure",
    "Mass"          := "mass",
    "Temperature"   := "temperature",
    "ID"            := "id"
  ]

  const PdaChannelNames: RenameTable := map[
    "PointPosition" := "position",
    "PointVelocity" := "velocity",
    "PointNormal"   := "normalDir",
    "PointUpVector" := "upDir",
    "Acceleration"  := "acceleration",
    "Force"         := "force",
    "PointUV"       := "uv",
    "Color"         := "objectColor",
    "Mass"          := "mass",
    "Radius"        := "radius",
    "Size"          := "pointSize",
    "Age"           := "age",
    "ID"            := "id"
  ]

  /** The profile each format's handler exports with. GEO reuses the BGEO
      handler and PDB/PDC reuse the PDA handler. The PDA handler builds a
      copy of the default mapping with Color4 narrowed to three floats, but
      hands the unmodified default mapping on, so PDA-family exports keep
      Color4 as four floats. */
  function ProfileOf(f: Format): (p: Profile)
    ensures Adequate(p.mapping)
    ensures p.mapping.Keys == DefaultMapping.Keys
    ensures forall k :: k in DefaultMapping && k != Color4 ==> p.mapping[k] == DefaultMapping[k]
    ensures f in {PRT, BGEO, GEO} <==> p.mapping[Color4] == Float3
    ensures f !in {PRT, BGEO, GEO} <==> p.mapping[Color4] == Float4
  {
    DefaultMappingAdequate();
    match f
    case PRT =>
      Profile(DefaultChannelNames, DefaultMapping[Color4 := Float3])
    case BGEO | GEO =>
      Profile(BgeoChannelNames, DefaultMapping[Color4 := Float3])
    case BIN =>
      Profile(BinChannelNames, DefaultMapping)
    case PDA | PDB | PDC =>
      Profile(PdaChannelNames, DefaultMapping)
  }

  /** GEO shares BGEO's profile, PDB and PDC share PDA's, and PDA's type
      mapping is BIN's, the default one. */
  lemma SharedProfiles()
    ensures ProfileOf(GEO) == ProfileOf(BGEO)
    ensures ProfileOf(PDB) == ProfileOf(PDA) && ProfileOf(PDC) == ProfileOf(PDA)
    ensures ProfileOf(PDA) == Profile(PdaChannelNames, ProfileOf(BIN).mapping)
  {
    var narrowed := DefaultMapping[Color4 := Float3];
    assert ProfileOf(GEO) == Profile(BgeoChannelNames, narrowed);
    assert ProfileOf(BGEO) == Profile(BgeoChannelNames, narrowed);
    assert ProfileOf(PDA) == Profile(PdaChannelNames, DefaultMapping);
    assert ProfileOf(PDB) == Profile(PdaChannelNames, DefaultMapping);
    assert ProfileOf(PDC) == Profile(PdaChannelNames, DefaultMapping);
    assert ProfileOf(BIN).mapping == DefaultMapping;
  }

  /** Every kind a profile maps has a per-point conversion, so the
      exporter's "unsupported data type" fallback inside the conversion
      switch is never taken under a registered profile. */
  lemma ProfileKindsHaveMarshallers(f: Format)
    ensures forall k :: k in ProfileOf(f).mapping ==> HasMarshaller(k)
  {
  }

  /** Renaming: the destination is the table's entry for a listed source
      name, and the source name itself otherwise. */
  function Rename(table: RenameTable, source: string): (dest: string)
    ensures source in table ==> dest == table[source]
    ensures source !in table ==> dest == source
  {
    if source in table then table[source] else source
  }
}
