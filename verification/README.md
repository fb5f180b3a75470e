# Partio particle export for Softimage: a Dafny model

This project models the attribute-export pipeline of the Softimage plug-in
`PartioExportForSoftimage.cpp`. The plug-in turns the ICE attributes of a
point cloud into a Partio record set and hands it to Partio's writer. The
writer picks the file format (PRT, BGEO/GEO, BIN, PDA/PDB/PDC) from the
extension. The model covers:

- **Export profiles** (`Kinds`, `Profiles`). The default type mapping sends
  each ICE data kind to a Partio (element type, count) pair. Vector3 maps to
  `VECTOR,3`. Each format handler picks a channel rename table and a type
  mapping. PRT and BGEO/GEO narrow Color4 to `FLOAT,3`. BIN uses the default
  mapping. The PDA handler builds a narrowed copy, but then passes the
  unmodified default mapping on. PDA, PDB and PDC therefore export Color4
  as four floats, and the model does the same.
- **Per-point conversion** (`Values`). These are the `StoreDataRaw`
  specialisations. `Marshal(value, count, row)` writes one value into one
  channel row. Float components are an opaque type parameter `F` because
  they are only copied. Slots the code does not write keep their previous
  contents (`Unset` in a fresh row). This covers a colour's alpha slot when
  the channel has three elements, and slot 3 for Euler rotations.
- **Attribute driver** (`Driver`). This is the attribute loop of
  `ExportPrimitive`. For each attribute it applies, in order: a silent
  definedness/context filter, the type lookup, the selection check on the
  source name, the rename, channel allocation and the per-point copy
  (`StoreData`). It yields the record set and the diagnostics in
  enumeration order. The loop is a method that is proved equal to a
  functional fold (`ExportAll`). The lemmas in `DriverProperties` are
  stated about that fold.
- **Selection parsing** (`Selection`). `split` on ',' with `std::getline`
  semantics.
- **Paths and targets** (`Paths`, `Orchestrator`). `DoParticleExport`
  lower-cases the extension from the last '.'. It builds each child's path
  as `base_child.NNNN.ext` and dispatches on the target: primitive, model,
  or anything else. A model export stops at its first failing child.

Notes on how the code behaves, which the model follows:

- Element types include `VECTOR` as well as integer and float; Vector3
  attributes are exported as `VECTOR,3`.
- The PDA family keeps Color4 as four floats (see above).
- An empty UserData string selects nothing, so it exports every attribute,
  just as a missing one does.
- A model's children are exported through their active primitive.
- The model keeps channels as a sequence: two source names renamed to the
  same destination give two entries. Which channel Partio's writer keeps
  in that case is not part of this model (see "Left out").

## Model

| member | source | states |
|---|---|---|
| Kinds.DefaultMappingTable | PartioExportForSoftimage.cpp:60-94 | the default mapping has an entry for exactly the ten named kinds. Bool, Long and Shape map to (INT,1), Float to (FLOAT,1), Vector2 to (FLOAT,2), Vector3 to (VECTOR,3), and Vector4, Quaternion, Color4 and Rotation to (FLOAT,4) |
| Kinds.DefaultMappingAdequate | PartioExportForSoftimage.cpp:83-92 | the default mapping and its Color4-narrowed copy give every kind a channel wide enough for what its conversion writes |
| Profiles.ProfileOf | PartioExportForSoftimage.cpp:428-532 | every profile maps the same kinds as the default and agrees with it except on Color4. Color4 is (FLOAT,3) exactly for PRT, BGEO and GEO and (FLOAT,4) for BIN, PDA, PDB and PDC |
| Profiles.SharedProfiles | PartioExportForSoftimage.cpp:462-532 | GEO uses BGEO's profile, PDB and PDC use PDA's, and PDA's type mapping is BIN's default one |
| Profiles.ProfileKindsHaveMarshallers | PartioExportForSoftimage.cpp:279-316 | every kind any profile maps has a case in the conversion switch |
| Values.Marshal | PartioExportForSoftimage.cpp:114-196 | the conversion writes the value's components in documented order into the leading slots and leaves every other slot of the row unchanged. It writes a colour's alpha only when the count exceeds 3, and three slots for an Euler rotation |
| Values.MarshalRotation | PartioExportForSoftimage.cpp:178-196 | a rotation's representation decides its slots: quaternion (x, y, z, w), axis-angle (axis x, y, z, angle), Euler (x, y, z). Slots past those written keep their prior contents |
| Values.MarshalReadBack | PartioExportForSoftimage.cpp:114-176 | converting any value that loses nothing and reading the row back yields the value again (Bool as 1/0, Long, Float, vectors, quaternions, four-element colours, quaternion rotations) |
| Values.ColorAlpha | PartioExportForSoftimage.cpp:154-164 | a colour always writes R, G, B to slots 0-2. It writes A to slot 3 when the count exceeds 3 and leaves slot 3 unchanged otherwise |
| Values.RotationSlots | PartioExportForSoftimage.cpp:178-196 | a quaternion rotation yields (x,y,z,w) with w in slot 3, an axis-angle rotation yields (axis x, y, z, angle), and an Euler rotation writes slots 0-2 and keeps slot 3 |
| Selection.Split | PartioExportForSoftimage.cpp:98-105 | no piece contains the delimiter, and the input is empty if and only if there are no pieces |
| Selection.GetLine | PartioExportForSoftimage.cpp:101 | one getline call reads the characters up to the next delimiter or the end, none of them a delimiter |
| Selection.SplitAppend | PartioExportForSoftimage.cpp:98-105 | the getline loop appends exactly the `Split` pieces to the vector passed in, keeping its earlier entries |
| Selection.JoinSplit | PartioExportForSoftimage.cpp:98-112 | joining the pieces with ',' gives back any string that does not end with ',' |
| Selection.SplitJoin | PartioExportForSoftimage.cpp:98-112 | splitting comma-free pieces that were joined returns those pieces when the last one is non-empty |
| Selection.SplitKeepsEmptyPieces | PartioExportForSoftimage.cpp:98-112 | "a,,b" splits to ["a","","b"]: an empty piece between two delimiters is kept |
| Selection.SplitKeepsBlanks | PartioExportForSoftimage.cpp:98-112 | " a , b" splits to [" a "," b"]: pieces are not trimmed |
| Selection.SplitDropsTrailingEmptyPiece | PartioExportForSoftimage.cpp:98-112 | "" splits to [], "a," to ["a"] and "," to [""] |
| Profiles.Rename | PartioExportForSoftimage.cpp:266-271 | the destination is the table's entry for a listed source name, and the source name itself otherwise |
| Driver.StoreData | PartioExportForSoftimage.cpp:198-214 | row i of the channel is the conversion of value i alone into a fresh row, for every particle |
| Driver.StoredRows | PartioExportForSoftimage.cpp:198-214 | the channel has one row per point of the channel's width. When a conversion exists, slot j of row i is component j of value i for every written slot and untouched otherwise. Without one every slot is untouched |
| Driver.AttributeExport | PartioExportForSoftimage.cpp:238-318 | one attribute yields a channel if and only if it is visible, mapped and selected. The channel carries the renamed name, the mapping's (type, count) and the stored rows. An invisible attribute contributes nothing at all, and an exported one with a conversion (or with no points) contributes no diagnostic. At most one diagnostic: unsupported exactly for a visible unmapped kind, not selected exactly for a visible mapped unselected name, no conversion exactly for an exported kind without one when there are points |
| Driver.ExportAll | PartioExportForSoftimage.cpp:238-318 | the attribute loop yields at most one channel and one diagnostic per attribute, and every channel has one row per point |
| Driver.ExportAttributes | PartioExportForSoftimage.cpp:224-318 | the attribute loop produces a record set with one particle per point, and the channels and diagnostics of the functional fold |
| DriverProperties.ExportAllAppend | PartioExportForSoftimage.cpp:238-318 | the output for xs + ys is the output for xs followed by that for ys, so attributes are independent and order is kept |
| DriverProperties.UnsupportedIsolated | PartioExportForSoftimage.cpp:244-253 | a visible attribute of an unmapped kind adds exactly one "unsupported data type" diagnostic and no channel, and leaves the other attributes' output unchanged |
| DriverProperties.DiagnosticsFromAttributes | PartioExportForSoftimage.cpp:235-318 | a diagnostic is reported if and only if one attribute reports it on its own |
| DriverProperties.ChannelsFromAttributes | PartioExportForSoftimage.cpp:266-273 | a channel is allocated if and only if one attribute allocates it on its own |
| DriverProperties.UnsupportedDiagnosticIff | PartioExportForSoftimage.cpp:241-253 | an "unsupported data type" diagnostic for (name, kind) is reported if and only if a visible attribute with that name has that unmapped kind |
| DriverProperties.NotSelectedDiagnosticIff | PartioExportForSoftimage.cpp:244-264 | a "not selected" diagnostic for a name is reported if and only if a visible attribute with that name has a mapped kind and the name is missing from a non-empty selection |
| DriverProperties.ChannelNameIff | PartioExportForSoftimage.cpp:257-273 | a channel with a given destination name exists if and only if an exported attribute renames to that name |
| DriverProperties.ChannelsWellShaped | PartioExportForSoftimage.cpp:229-276 | every channel has one row per point, every row has the channel's element count of slots, and each (type, count) is a mapping entry |
| DriverProperties.EmptySelectionExportsAll | PartioExportForSoftimage.cpp:257-273 | with an empty selection and every attribute visible and mapped, channel i is attribute i renamed, with its kind's (type, count), and no "not selected" diagnostic arises |
| DriverProperties.NoConversionOnlyWithPoints | PartioExportForSoftimage.cpp:276-317 | the switch's fallback diagnostic arises if and only if there are points and an exported attribute's kind has no conversion |
| DriverProperties.ProfileNeverFallsBack | PartioExportForSoftimage.cpp:311-315 | under every registered profile the fallback branch is unreachable |
| DriverProperties.ZeroPoints | PartioExportForSoftimage.cpp:275-277 | with no points every channel is allocated empty and no value is read |
| DriverProperties.SelectionUsesSourceName | PartioExportForSoftimage.cpp:258-271 | a selected source name is exported under its renamed destination, and selecting only the destination name does not export it |
| DriverProperties.RowDependsOnlyOnOwnValue | PartioExportForSoftimage.cpp:206-211 | row p of a channel depends only on the attribute's value at point p |
| DriverProperties.FloatAttrExport | PartioExportForSoftimage.cpp:254-273 | a one-point Float attribute becomes one (FLOAT,1) channel holding its value, or a "not selected" diagnostic |
| DriverProperties.Color4Rows | PartioExportForSoftimage.cpp:154-164 | a selected Color4 attribute under a three- or four-float mapping becomes one channel of that shape whose row p holds colour p's leading components, with no diagnostic |
| DriverProperties.Color4Slots | PartioExportForSoftimage.cpp:154-164 | the same channel slot by slot: a float channel whose row p is R, G, B of colour p, followed by A exactly when the channel has four elements |
| DriverProperties.SelectionExample | PartioExportForSoftimage.cpp:257-264 | selection {A, C} over attributes A, B, C, D gives channels A then C, and "not selected" diagnostics for B then D |
| DriverProperties.RenameExample | PartioExportForSoftimage.cpp:443-459 | under BGEO, "PointPosition" becomes the (VECTOR,3) channel "position" and "Foo" stays "Foo" |
| Paths.LastDot | PartioExportForSoftimage.cpp:357 | the reverse search finds a '.' with no '.' after it |
| Paths.SplitExtension | PartioExportForSoftimage.cpp:356-360 | the base is everything before the last '.'. The extension starts at that '.', contains no other '.', and is the rest of the name lower-cased over A-Z |
| Paths.Normalize | PartioExportForSoftimage.cpp:356-362 | the single-primitive file name keeps everything before the last '.' and lower-cases the rest |
| Paths.NormalizeIdempotent | PartioExportForSoftimage.cpp:356-362 | normalising keeps the base and the last '.', and a normalised name is its own normalisation |
| Paths.Pad4 | PartioExportForSoftimage.cpp:379-381 | the frame text is all digits and reads back as the frame number. It is exactly four characters below 10000, and exactly the frame's digits, with no leading zero, from 10000 on |
| Paths.ChildPath | PartioExportForSoftimage.cpp:382 | a child's path is the base, then "_", the child name and ".", then the padded frame, then the extension |
| Paths.ChildPathInjective | PartioExportForSoftimage.cpp:379-382 | when child names hold no '.', a child path determines its child and its frame: distinct children, or distinct frames of one child, get distinct files |
| Paths.ChildPathParse | PartioExportForSoftimage.cpp:379-382 | the child name is what lies between the "_" after the base and the next '.', and the frame text follows it |
| Paths.ChildPathExample | PartioExportForSoftimage.cpp:356-382 | "foo.GEO", child "bar" and frame 7 give "foo_bar.0007.geo" |
| Orchestrator.ExportPrimitive | PartioExportForSoftimage.cpp:216-331 | anything but a point cloud aborts and writes nothing. A point cloud writes one record set to the given path, with one particle per point and exactly the attribute loop's channels and diagnostics |
| Orchestrator.ExportChildren | PartioExportForSoftimage.cpp:369-388 | children are written in order, each to its own child path. The export succeeds if and only if every child is written; on failure the first unwritten child is the failing one |
| Orchestrator.SelectionOf | PartioExportForSoftimage.cpp:344-352 | a UserData string gives its comma-split pieces as the selection, and no string gives the empty selection |
| Orchestrator.DoParticleExport | PartioExportForSoftimage.cpp:333-395 | a target that is neither a primitive nor a model aborts with nothing written. A primitive target succeeds if and only if it is a point cloud, and is exported to the normalised file name. A model target exports its children against the split file name and the frame. Both use the given profile with the selection parsed from UserData |
| Orchestrator.OnExport | PartioExportForSoftimage.cpp:428-532 | every format handler aborts on an unsupported target, and on a primitive that is not a point cloud, writing nothing. For a point cloud it writes one record set to the normalised name whose channels and diagnostics are the attribute loop's under that format's profile and the UserData selection. For a model it exports the children with those same settings |
| OrchestratorProperties.Color4Channel | PartioExportForSoftimage.cpp:428-532 | with each handler's settings, a Color4 attribute becomes one float channel. It is three wide (R, G, B) for PRT, BGEO and GEO, and four wide (R, G, B, A) for BIN, PDA, PDB and PDC |
| OrchestratorProperties.HandlersDelegate | PartioExportForSoftimage.cpp:462-532 | GEO exports as BGEO, PDB and PDC export as PDA, and PDA exports with the default (BIN) type mapping because its narrowed copy is discarded |
| OrchestratorProperties.LaterChildrenNotAttempted | PartioExportForSoftimage.cpp:374-386 | once a child fails, appending further children does not change the outcome |
| OrchestratorProperties.ChildRecords | PartioExportForSoftimage.cpp:376-385 | each record set a model export writes is the driver's output for that child's point cloud |
| OrchestratorProperties.SecondChildFails | PartioExportForSoftimage.cpp:374-387 | with three children and the second failing, only the first is written and the export aborts |
| OrchestratorProperties.AllChildrenWritten | PartioExportForSoftimage.cpp:374-387 | a model whose children are all point clouds writes one record set per child and succeeds |
| OrchestratorProperties.EmptyUserDataExportsAll | PartioExportForSoftimage.cpp:344-352 | an empty UserData string exports the same as no UserData |
| OrchestratorProperties.FramePathExample | PartioExportForSoftimage.cpp:462-466 | a GEO model export of "foo.GEO" at frame 7 writes child "bar" to "foo_bar.0007.geo" |

## Left out

- Softimage host API (Context, CRef class IDs, Geometry, ICEAttribute, GetDataArray, X3DObject): these become inputs. A target is a tag, a model is a list of named children, and an attribute is a record with its values.
- The geometry lookup at a frame (`GetGeometry(frame)`): the point cloud is given already evaluated at the export frame.
- Partio calls (`create`, `addParticles`, `addAttribute`, `dataWrite`, `write`, `release`): the record set is a plain datatype. Writing is modelled as the list of record sets handed to the writer. The writer's result is ignored by the source, and by the model.
- Two source names renamed to the same destination: the result depends on Partio's `addAttribute`, which is not part of this model. Channels are kept as a sequence and nothing is claimed about the collision.
- A type mapping that sends a kind to a different element type (ints written into a float buffer): this needs memory reinterpretation, and no registered profile does it.
- Rotation conversions inside `CRotationf`: the representation tag and its components are taken as given.
- Log messages (their text, the numeric data-type formatting, the "Frame"/"UserData"/"Writing N particles" lines): diagnostics are a tagged datatype.
- Plugin registration and unload, and the lazy initialisation of the global tables: the tables are constants.
- File names without '.': `ReverseFindString`'s not-found result is host behaviour, so a '.' is required.
- Negative frames: `%04d` of a negative number is not modelled, so the frame is a natural number.
- Lower-casing: only ASCII A-Z are lowered; locale-dependent case mapping is left out.
- Float values: they are never computed, only copied, and are an opaque type parameter.
- Attribute data arrays: each visible attribute with a conversion is assumed to hold exactly one value per point, all of the attribute's own kind. The source reads `dataArray[i]` for every particle without checking. Array-valued (per-point array) attributes are not modelled.
