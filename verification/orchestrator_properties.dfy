/** Properties of the export orchestration: a failing child ends a model
    export, later children are never looked at, each written record set is
    the driver's output for its child, and the UserData selection behaves
    as documented. */
module OrchestratorProperties {
  import opened Wrappers
  import opened Kinds
  import opened Profiles
  import opened Values
  import DriverProperties
  import opened Driver
  import opened Paths
  import opened Orchestrator

  /** Once a child fails, what follows it in the container cannot change
      the outcome: no later child is attempted. */
  lemma {:induction false} LaterChildrenNotAttempted<F>(cs: seq<Child<F>>, ds: seq<Child<F>>, st: Settings, f: FileName, frame: nat)
    requires forall i :: 0 <= i < |cs| ==> PrimitiveWellFormed(cs[i].activePrimitive)
    requires forall i :: 0 <= i < |ds| ==> PrimitiveWellFormed(ds[i].activePrimitive)
    requires Adequate(st.mapping)
    requires exists i :: 0 <= i < |cs| && !IsPointCloud(cs[i].activePrimitive)
    ensures forall i :: 0 <= i < |cs + ds| ==> PrimitiveWellFormed((cs + ds)[i].activePrimitive)
    ensures ExportChildren(cs + ds, st, f, frame) == ExportChildren(cs, st, f, frame)
    decreases |cs|
  {
    assert forall i :: 0 <= i < |cs + ds| ==> (cs + ds)[i] == if i < |cs| then cs[i] else ds[i - |cs|];
    assert (cs + ds)[0] == cs[0];
    if IsPointCloud(cs[0].activePrimitive) {
      assert (cs + ds)[1..] == cs[1..] + ds;
      var i :| 0 <= i < |cs| && !IsPointCloud(cs[i].activePrimitive);
      assert cs[1..][i - 1] == cs[i];
      LaterChildrenNotAttempted(cs[1..], ds, st, f, frame);
    }
  }

  /** The record set `w` is the driver's output for the point cloud of
      `prim`, with its diagnostics. */
  ghost predicate WrittenFrom<F>(w: Written<F>, prim: Primitive<F>, st: Settings)
    requires PrimitiveWellFormed(prim) && Adequate(st.mapping)
  {
    var g := prim.geometry;
    var e := ExportAll(g.attributes, g.pointCount, st);
    w.records == RecordSet(g.pointCount, e.channels) && w.diagnostics == e.diagnostics
  }

  /** Each record set a model export writes is exactly the one the driver
      builds for that child's point cloud. */
  lemma {:induction false} ChildRecords<F>(children: seq<Child<F>>, st: Settings, f: FileName, frame: nat)
    requires forall i :: 0 <= i < |children| ==> PrimitiveWellFormed(children[i].activePrimitive)
    requires Adequate(st.mapping)
    ensures var r := ExportChildren(children, st, f, frame);
      forall i :: 0 <= i < |r.written| ==> WrittenFrom(r.written[i], children[i].activePrimitive, st)
    decreases |children|
  {
    if |children| > 0 {
      var first := ExportPrimitive(children[0].activePrimitive, st, ChildPath(f, children[0].name, frame));
      if first.status == OK {
        var rest := ExportChildren(children[1..], st, f, frame);
        ChildRecords(children[1..], st, f, frame);
        RecordsShift(first.written[0], rest.written, children, st);
        assert ExportChildren(children, st, f, frame).written == [first.written[0]] + rest.written;
      }
    }
  }

  /** The records of the children after the first are those of the rest of
      the children, one position further on. */
  lemma RecordsShift<F>(first: Written<F>, rest: seq<Written<F>>, children: seq<Child<F>>, st: Settings)
    requires forall i :: 0 <= i < |children| ==> PrimitiveWellFormed(children[i].activePrimitive)
    requires Adequate(st.mapping)
    requires 1 + |rest| <= |children|
    requires WrittenFrom(first, children[0].activePrimitive, st)
    requires forall i :: 0 <= i < |rest| ==> WrittenFrom(rest[i], children[1..][i].activePrimitive, st)
    ensures forall i :: 0 <= i < 1 + |rest| ==> WrittenFrom(([first] + rest)[i], children[i].activePrimitive, st)
  {
    forall i | 1 <= i < 1 + |rest|
      ensures WrittenFrom(([first] + rest)[i], children[i].activePrimitive, st)
    {
      assert ([first] + rest)[i] == rest[i - 1];
      assert children[1..][i - 1] == children[i];
    }
  }

  /** A model with three children whose second is not a point cloud: the
      first child is written to its own path, the export aborts, and the
      third child is never attempted. */
  lemma SecondChildFails<F>(c1: Child<F>, c2: Child<F>, c3: Child<F>, st: Settings, f: FileName, frame: nat)
    requires PrimitiveWellFormed(c1.activePrimitive) && PrimitiveWellFormed(c2.activePrimitive)
    requires PrimitiveWellFormed(c3.activePrimitive) && Adequate(st.mapping)
    requires IsPointCloud(c1.activePrimitive) && !IsPointCloud(c2.activePrimitive)
    ensures var r := ExportChildren([c1, c2, c3], st, f, frame);
      && r.status == Abort
      && |r.written| == 1
      && r.written[0].path == ChildPath(f, c1.name, frame)
      && r == ExportChildren([c1, c2], st, f, frame)
  {
  }

  /** A model whose children are all point clouds writes one record set per
      child, in order, and succeeds. */
  lemma AllChildrenWritten<F>(children: seq<Child<F>>, st: Settings, f: FileName, frame: nat)
    requires forall i :: 0 <= i < |children| ==> PrimitiveWellFormed(children[i].activePrimitive)
    requires Adequate(st.mapping)
    requires forall i :: 0 <= i < |children| ==> IsPointCloud(children[i].activePrimitive)
    ensures var r := ExportChildren(children, st, f, frame);
      r.status == OK && |r.written| == |children|
  {
  }

  /** An empty UserData string selects nothing, which exports every
      attribute, just as when no string is passed. */
  lemma EmptyUserDataExportsAll<F>(fileName: string, frame: nat, target: Target<F>, renames: RenameTable, mapping: TypeMapping)
    requires '.' in fileName && TargetWellFormed(target) && Adequate(mapping)
    ensures DoParticleExport(Request(fileName, frame, Some(""), target), renames, mapping)
      == DoParticleExport(Request(fileName, frame, None, target), renames, mapping)
  {
  }

  /** A model export of "foo.GEO" at frame 7 writes its child "bar" to
      "foo_bar.0007.geo". */
  lemma FramePathExample<F>(prim: Primitive<F>)
    requires PrimitiveWellFormed(prim) && IsPointCloud(prim)
    ensures var r := OnExport(GEO, Request("foo.GEO", 7, None, ModelTarget([Child("bar", prim)])));
      r.status == OK && |r.written| == 1 && r.written[0].path == "foo_bar.0007.geo"
  {
    ChildPathExample();
  }

  /** GEO exports exactly as BGEO does, PDB and PDC exactly as PDA does, and
      PDA, whose Color4 override is discarded, exports exactly as a handler
      with the BIN type mapping and the PDA names would. */
  lemma HandlersDelegate<F>(req: Request<F>)
    requires '.' in req.fileName && TargetWellFormed(req.target)
    ensures OnExport(GEO, req) == OnExport(BGEO, req)
    ensures OnExport(PDB, req) == OnExport(PDA, req) && OnExport(PDC, req) == OnExport(PDA, req)
    ensures OnExport(PDA, req) == DoParticleExport(req, PdaChannelNames, ProfileOf(BIN).mapping)
  {
    SharedProfiles();
  }

  /** A Color4 attribute exported as a point cloud's only attribute, with
      the settings every handler exports with (which `OnExport` writes
      out): one float channel, three elements wide for PRT, BGEO and GEO
      (alpha dropped) and four wide for BIN, PDA, PDB and PDC, whose row p
      holds colour p's components in order, and no diagnostic. */
  lemma Color4Channel<F>(format: Format, name: string, colours: seq<Value<F>>)
    requires forall p :: 0 <= p < |colours| ==> colours[p].ColorV?
    ensures var a := Attribute(name, Color4, true, Component0D, colours);
      && AllWellFormed([a], |colours|)
      && var e := ExportAll([a], |colours|, ProfileSettings(format, None));
        && e.diagnostics == []
        && |e.channels| == 1
        && var c := e.channels[0];
          && c.name == Rename(ProfileOf(format).renames, name)
          && c.elemType == FLOAT
          && c.count == (if format in {PRT, BGEO, GEO} then 3 else 4)
          && |c.rows| == |colours|
          && forall p :: 0 <= p < |colours| ==>
            var v := colours[p];
            c.rows[p] == [FloatSlot(v.r), FloatSlot(v.g), FloatSlot(v.b)] + (if c.count == 4 then [FloatSlot(v.a)] else [])
  {
    var a := Attribute(name, Color4, true, Component0D, colours);
    Color4Mapping(format);
    DriverProperties.Color4Slots(a, |colours|, ProfileSettings(format, None));
  }

  /** The Color4 entry of each handler's type mapping. */
  lemma Color4Mapping(format: Format)
    ensures Color4 in ProfileSettings(format, None).mapping
    ensures ProfileSettings(format, None).mapping[Color4] == if format in {PRT, BGEO, GEO} then Float3 else Float4
  {
  }
}
