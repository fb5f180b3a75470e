/** `DoParticleExport`, `ExportPrimitive`'s target checks and the
    per-format event handlers: the selection is parsed from the host's
    UserData, the file name's extension is lower-cased, and the target is
    exported as one primitive or as a container of children, stopping at
    the first child that fails. */
module Orchestrator {
  import opened Wrappers
  import opened Kinds
  import opened Profiles
  import opened Driver
  import Selection
  import opened Paths

  /** The host's status codes the exporter returns. */
  datatype Status = OK | Abort

  /** A scene primitive: its type name and its geometry at the export
      frame. */
  datatype Primitive<F> = Primitive(primType: string, geometry: PointCloud<F>)

  /** A child of a model, with its name and active primitive. */
  datatype Child<F> = Child(name: string, activePrimitive: Primitive<F>)

  /** What the export is asked to write: a primitive, a model whose
      children are exported one by one, or anything else. */
  datatype Target<F> =
    | PrimitiveTarget(prim: Primitive<F>)
    | ModelTarget(children: seq<Child<F>>)
    | OtherTarget(classIdName: string)

  /** The host context attributes the exporter reads. `userData` is present
      when the host passed a string. */
  datatype Request<F> = Request(fileName: string, frame: nat, userData: Option<string>, target: Target<F>)

  /** One record set handed to the particle writer, with the diagnostics
      logged before it. */
  datatype Written<F> = Written(path: string, records: RecordSet<F>, diagnostics: seq<Diagnostic>)

  /** The status of an export and the record sets it wrote, in order. */
  datatype Outcome<F> = Outcome(status: Status, written: seq<Written<F>>)

  const PointCloudType: string := "pointcloud"

  predicate IsPointCloud<F>(prim: Primitive<F>) {
    prim.primType == PointCloudType
  }

  /** What the host guarantees of a point cloud's attributes. */
  predicate PrimitiveWellFormed<F>(prim: Primitive<F>) {
    AllWellFormed(prim.geometry.attributes, prim.geometry.pointCount)
  }

  predicate TargetWellFormed<F>(t: Target<F>) {
    match t
    case PrimitiveTarget(prim) => PrimitiveWellFormed(prim)
    case ModelTarget(children) => forall i :: 0 <= i < |children| ==> PrimitiveWellFormed(children[i].activePrimitive)
    case OtherTarget(_) => true
  }

  /** `ExportPrimitive`: anything but a point cloud aborts before a record
      set exists; a point cloud writes one record set with a particle per
      point, to `path`. */
  function ExportPrimitive<F>(prim: Primitive<F>, st: Settings, path: string): (r: Outcome<F>)
    requires PrimitiveWellFormed(prim) && Adequate(st.mapping)
    ensures r.status == OK <==> IsPointCloud(prim)
    ensures r.status == Abort ==> r.written == []
    ensures r.status == OK ==>
      && |r.written| == 1
      && r.written[0].path == path
      && r.written[0].records.numParticles == prim.geometry.pointCount
    ensures r.status == OK ==>
      var e := ExportAll(prim.geometry.attributes, prim.geometry.pointCount, st);
      && r.written[0].records.channels == e.channels
      && r.written[0].diagnostics == e.diagnostics
  {
    if prim.primType != PointCloudType then Outcome(Abort, [])
    else
      var e := ExportAll(prim.geometry.attributes, prim.geometry.pointCount, st);
      Outcome(OK, [Written(path, RecordSet(prim.geometry.pointCount, e.channels), e.diagnostics)])
  }

  /** The child loop of a model export. It exports the children in order
      and returns the first failure, writing nothing for that child or any
      later one; otherwise every child is written, child i to its own path. */
  function ExportChildren<F>(children: seq<Child<F>>, st: Settings, f: FileName, frame: nat): (r: Outcome<F>)
    requires forall i :: 0 <= i < |children| ==> PrimitiveWellFormed(children[i].activePrimitive)
    requires Adequate(st.mapping)
    ensures |r.written| <= |children|
    ensures forall i :: 0 <= i < |r.written| ==> IsPointCloud(children[i].activePrimitive)
    ensures forall i :: 0 <= i < |r.written| ==> r.written[i].path == ChildPath(f, children[i].name, frame)
    ensures r.status == OK <==> |r.written| == |children|
    ensures r.status == Abort ==> !IsPointCloud(children[|r.written|].activePrimitive)
  {
    if |children| == 0 then Outcome(OK, [])
    else
      var first := ExportPrimitive(children[0].activePrimitive, st, ChildPath(f, children[0].name, frame));
      if first.status != OK then first
      else
        var rest := ExportChildren(children[1..], st, f, frame);
        ChildrenShift(first.written, rest, children, f, frame);
        Outcome(rest.status, first.written + rest.written)
  }

  /** The child loop's step: prefixing the first child's record set to what
      the rest of the children gave keeps every child at its own index, with
      its own path, and the failing child just past the last one written. */
  lemma ChildrenShift<F>(w: seq<Written<F>>, rest: Outcome<F>, children: seq<Child<F>>, f: FileName, frame: nat)
    requires |children| >= 1 && IsPointCloud(children[0].activePrimitive)
    requires |w| == 1 && w[0].path == ChildPath(f, children[0].name, frame)
    requires |rest.written| <= |children[1..]|
    requires forall i :: 0 <= i < |rest.written| ==> IsPointCloud(children[1..][i].activePrimitive)
    requires forall i :: 0 <= i < |rest.written| ==> rest.written[i].path == ChildPath(f, children[1..][i].name, frame)
    requires rest.status == OK <==> |rest.written| == |children[1..]|
    requires rest.status == Abort ==> !IsPointCloud(children[1..][|rest.written|].activePrimitive)
    ensures var r := Outcome(rest.status, w + rest.written);
      && |r.written| <= |children|
      && (forall i :: 0 <= i < |r.written| ==> IsPointCloud(children[i].activePrimitive))
      && (forall i :: 0 <= i < |r.written| ==> r.written[i].path == ChildPath(f, children[i].name, frame))
      && (r.status == OK <==> |r.written| == |children|)
      && (r.status == Abort ==> !IsPointCloud(children[|r.written|].activePrimitive))
  {
    var ws := w + rest.written;
    forall i | 0 <= i < |ws|
      ensures IsPointCloud(children[i].activePrimitive)
      ensures ws[i].path == ChildPath(f, children[i].name, frame)
    {
      if i > 0 {
        assert ws[i] == rest.written[i - 1];
        assert children[1..][i - 1] == children[i];
      }
    }
    if rest.status == Abort {
      assert children[1..][|rest.written|] == children[|ws|];
    }
  }

  /** The selection the host's UserData gives: its comma-separated pieces
      when it is a string, appended to an empty list, and no selection (so
      every attribute) otherwise. */
  function SelectionOf(userData: Option<string>): (selection: seq<string>)
    ensures userData.None? ==> selection == []
    ensures userData.Some? ==> selection == Selection.Split(userData.value, ',')
  {
    match userData
    case None => []
    case Some(s) => [] + Selection.Split(s, ',')
  }

  /** `DoParticleExport` with a profile's rename table and type mapping. */
  function DoParticleExport<F>(req: Request<F>, renames: RenameTable, mapping: TypeMapping): (r: Outcome<F>)
    requires '.' in req.fileName
    requires TargetWellFormed(req.target) && Adequate(mapping)
    ensures req.target.OtherTarget? ==> r == Outcome(Abort, [])
    ensures req.target.PrimitiveTarget? ==>
      && (r.status == OK <==> IsPointCloud(req.target.prim))
      && (r.status == OK ==> |r.written| == 1 && r.written[0].path == Normalize(req.fileName))
    ensures req.target.PrimitiveTarget? ==>
      r == ExportPrimitive(req.target.prim, Settings(renames, mapping, SelectionOf(req.userData)), Normalize(req.fileName))
    ensures req.target.ModelTarget? ==>
      r == ExportChildren(req.target.children, Settings(renames, mapping, SelectionOf(req.userData)),
                          SplitExtension(req.fileName), req.frame)
  {
    var st := Settings(renames, mapping, SelectionOf(req.userData));
    var f := SplitExtension(req.fileName);
    match req.target
    case PrimitiveTarget(prim) => ExportPrimitive(prim, st, f.base + f.ext)
    case ModelTarget(children) => ExportChildren(children, st, f, req.frame)
    case OtherTarget(_) => Outcome(Abort, [])
  }

  /** The settings a format's handler exports with: its profile's rename
      table and type mapping, and the selection from the host's UserData. */
  function ProfileSettings(format: Format, userData: Option<string>): (st: Settings)
    ensures Adequate(st.mapping)
    ensures st.renames == ProfileOf(format).renames && st.mapping == ProfileOf(format).mapping
    ensures st.selection == SelectionOf(userData)
  {
    var p := ProfileOf(format);
    Settings(p.renames, p.mapping, SelectionOf(userData))
  }

  /** The registered handler for a format: the export with that format's
      profile. */
  function OnExport<F>(format: Format, req: Request<F>): (r: Outcome<F>)
    requires '.' in req.fileName && TargetWellFormed(req.target)
    ensures req.target.OtherTarget? ==> r.status == Abort && r.written == []
    ensures req.target.PrimitiveTarget? ==>
      var g := req.target.prim.geometry;
      var e := ExportAll(g.attributes, g.pointCount, ProfileSettings(format, req.userData));
      && (r.status == OK <==> IsPointCloud(req.target.prim))
      && (r.status == Abort ==> r.written == [])
      && (r.status == OK ==>
            && r.written == [Written(Normalize(req.fileName), RecordSet(g.pointCount, e.channels), e.diagnostics)])
    ensures req.target.ModelTarget? ==>
      r == ExportChildren(req.target.children, ProfileSettings(format, req.userData),
                          SplitExtension(req.fileName), req.frame)
  {
    var p := ProfileOf(format);
    DoParticleExport(req, p.renames, p.mapping)
  }
}
