/** Properties of the attribute export driver: the fold distributes over
    concatenation, every channel and diagnostic is traced back to the
    attribute that caused it, and the filters behave as the exporter
    promises. */
module DriverProperties {
  import opened Kinds
  import opened Profiles
  import opened Values
  import opened Driver

  /** The driver's output for `xs + ys` is its output for `xs` followed by
      its output for `ys`: attributes do not influence one another, and
      channels and diagnostics keep enumeration order. */
  lemma {:induction false} ExportAllAppend<F>(xs: seq<Attribute<F>>, ys: seq<Attribute<F>>, n: nat, st: Settings)
    requires AllWellFormed(xs, n) && AllWellFormed(ys, n) && Adequate(st.mapping)
    ensures AllWellFormed(xs + ys, n)
    ensures ExportAll(xs + ys, n, st) == Concat(ExportAll(xs, n, st), ExportAll(ys, n, st))
    decreases |ys|
  {
    assert forall i :: 0 <= i < |xs + ys| ==> (xs + ys)[i] == if i < |xs| then xs[i] else ys[i - |xs|];
    if |ys| == 0 {
      assert xs + ys == xs;
    } else {
      var zs := ys[..|ys| - 1];
      var y := ys[|ys| - 1];
      assert (xs + ys)[..|xs + ys| - 1] == xs + zs;
      assert (xs + ys)[|xs + ys| - 1] == y;
      ExportAllAppend(xs, zs, n, st);
      var last := AttributeExport(y, n, st);
      assert ExportAll(xs + ys, n, st) == Concat(ExportAll(xs + zs, n, st), last);
      assert ExportAll(ys, n, st) == Concat(ExportAll(zs, n, st), last);
      ConcatAssoc(ExportAll(xs, n, st), ExportAll(zs, n, st), last);
    }
  }

  lemma ConcatAssoc<F>(a: Export<F>, b: Export<F>, c: Export<F>)
    ensures Concat(Concat(a, b), c) == Concat(a, Concat(b, c))
  {
    assert a.channels + b.channels + c.channels == a.channels + (b.channels + c.channels);
    assert a.diagnostics + b.diagnostics + c.diagnostics == a.diagnostics + (b.diagnostics + c.diagnostics);
  }

  /** An attribute that is visible but whose kind has no mapping yields
      exactly one "unsupported data type" diagnostic and no channel, and
      what every other attribute contributes is unchanged. */
  lemma UnsupportedIsolated<F>(xs: seq<Attribute<F>>, a: Attribute<F>, ys: seq<Attribute<F>>, n: nat, st: Settings)
    requires AllWellFormed(xs, n) && WellFormedAttribute(a, n) && AllWellFormed(ys, n) && Adequate(st.mapping)
    requires Visible(a) && a.kind !in st.mapping
    ensures AllWellFormed(xs + [a] + ys, n)
    ensures ExportAll(xs + [a] + ys, n, st) == Export(
      ExportAll(xs, n, st).channels + ExportAll(ys, n, st).channels,
      ExportAll(xs, n, st).diagnostics + [UnsupportedDataType(a.name, a.kind)] + ExportAll(ys, n, st).diagnostics)
  {
    var ex := ExportAll(xs, n, st);
    var ey := ExportAll(ys, n, st);
    var ea: Export<F> := Export([], [UnsupportedDataType(a.name, a.kind)]);
    assert ExportAll([a], n, st) == ea by {
      SingleAttribute(a, n, st);
    }
    ExportAllAppend(xs, [a], n, st);
    var front := ExportAll(xs + [a], n, st);
    assert front == Export(ex.channels, ex.diagnostics + ea.diagnostics) by {
      assert ex.channels + [] == ex.channels;
    }
    ExportAllAppend(xs + [a], ys, n, st);
    assert ExportAll(xs + [a] + ys, n, st) == Concat(front, ey);
  }

  /** The driver over one attribute is that attribute's contribution. */
  lemma SingleAttribute<F>(a: Attribute<F>, n: nat, st: Settings)
    requires WellFormedAttribute(a, n) && Adequate(st.mapping)
    ensures AllWellFormed([a], n)
    ensures ExportAll([a], n, st) == AttributeExport(a, n, st)
  {
  }

  /** A diagnostic is reported exactly when some attribute reports it on its
      own. */
  lemma {:induction false} DiagnosticsFromAttributes<F>(attrs: seq<Attribute<F>>, n: nat, st: Settings, d: Diagnostic)
    requires AllWellFormed(attrs, n) && Adequate(st.mapping)
    ensures d in ExportAll(attrs, n, st).diagnostics <==>
      exists i :: 0 <= i < |attrs| && d in AttributeExport(attrs[i], n, st).diagnostics
    decreases |attrs|
  {
    if |attrs| > 0 {
      var init := attrs[..|attrs| - 1];
      DiagnosticsFromAttributes(init, n, st, d);
      assert forall i :: 0 <= i < |init| ==> init[i] == attrs[i];
    }
  }

  /** A channel is allocated exactly when some attribute allocates it on
      its own. */
  lemma {:induction false} ChannelsFromAttributes<F>(attrs: seq<Attribute<F>>, n: nat, st: Settings, c: Channel<F>)
    requires AllWellFormed(attrs, n) && Adequate(st.mapping)
    ensures c in ExportAll(attrs, n, st).channels <==>
      exists i :: 0 <= i < |attrs| && c in AttributeExport(attrs[i], n, st).channels
    decreases |attrs|
  {
    if |attrs| > 0 {
      var init := attrs[..|attrs| - 1];
      ChannelsFromAttributes(init, n, st, c);
      assert forall i :: 0 <= i < |init| ==> init[i] == attrs[i];
    }
  }

  /** "Unsupported data type" is reported for a name and kind exactly when
      a visible attribute of that name has that kind and the kind is not
      mapped. */
  lemma {:induction false} UnsupportedDiagnosticIff<F>(attrs: seq<Attribute<F>>, n: nat, st: Settings, name: string, kind: DataKind)
    requires AllWellFormed(attrs, n) && Adequate(st.mapping)
    ensures UnsupportedDataType(name, kind) in ExportAll(attrs, n, st).diagnostics <==>
      exists i :: 0 <= i < |attrs| && Visible(attrs[i]) && attrs[i].kind !in st.mapping
        && attrs[i].name == name && attrs[i].kind == kind
  {
    DiagnosticsFromAttributes(attrs, n, st, UnsupportedDataType(name, kind));
  }

  /** "Not selected" is reported for a name exactly when a visible, mapped
      attribute of that source name is missing from a non-empty selection;
      the check comes after the type lookup. */
  lemma {:induction false} NotSelectedDiagnosticIff<F>(attrs: seq<Attribute<F>>, n: nat, st: Settings, name: string)
    requires AllWellFormed(attrs, n) && Adequate(st.mapping)
    ensures NotSelected(name) in ExportAll(attrs, n, st).diagnostics <==>
      exists i :: 0 <= i < |attrs| && Visible(attrs[i]) && attrs[i].kind in st.mapping
        && |st.selection| != 0 && name !in st.selection && attrs[i].name == name
  {
    DiagnosticsFromAttributes(attrs, n, st, NotSelected(name));
  }

  /** A channel of a given destination name exists exactly when an
      exported attribute renames to it. */
  lemma ChannelNameIff<F>(attrs: seq<Attribute<F>>, n: nat, st: Settings, dest: string)
    requires AllWellFormed(attrs, n) && Adequate(st.mapping)
    ensures (exists c :: c in ExportAll(attrs, n, st).channels && c.name == dest) <==>
      exists i :: 0 <= i < |attrs| && Exported(attrs[i], st) && Rename(st.renames, attrs[i].name) == dest
  {
    var channels := ExportAll(attrs, n, st).channels;
    if c :| c in channels && c.name == dest {
      ChannelsFromAttributes(attrs, n, st, c);
    }
    if i :| 0 <= i < |attrs| && Exported(attrs[i], st) && Rename(st.renames, attrs[i].name) == dest {
      var c := AttributeExport(attrs[i], n, st).channels[0];
      ChannelsFromAttributes(attrs, n, st, c);
    }
  }

  /** Every channel has one row per particle and each row holds exactly the
      channel's element count of slots, with the element type and count of
      a type-mapping entry. */
  lemma {:induction false} ChannelsWellShaped<F>(attrs: seq<Attribute<F>>, n: nat, st: Settings)
    requires AllWellFormed(attrs, n) && Adequate(st.mapping)
    ensures forall c :: c in ExportAll(attrs, n, st).channels ==>
      && |c.rows| == n
      && (forall r :: r in c.rows ==> |r| == c.count)
      && DataMap(c.elemType, c.count) in st.mapping.Values
    decreases |attrs|
  {
    if |attrs| > 0 {
      ChannelsWellShaped(attrs[..|attrs| - 1], n, st);
      var a := attrs[|attrs| - 1];
      if Exported(a, st) {
        var m := st.mapping[a.kind];
        var rows := StoredRows(a, n, m);
        assert forall r :: r in rows ==> |r| == m.count;
        assert m in st.mapping.Values;
      }
    }
  }

  /** With an empty selection and every attribute visible and mapped, every
      attribute is exported: channel i is attribute i renamed, with its
      kind's element type and count, and nothing is reported as not
      selected. */
  lemma {:induction false} EmptySelectionExportsAll<F>(attrs: seq<Attribute<F>>, n: nat, st: Settings)
    requires AllWellFormed(attrs, n) && Adequate(st.mapping)
    requires |st.selection| == 0
    requires forall i :: 0 <= i < |attrs| ==> Visible(attrs[i]) && attrs[i].kind in st.mapping
    ensures |ExportAll(attrs, n, st).channels| == |attrs|
    ensures forall i :: 0 <= i < |attrs| ==>
      var c := ExportAll(attrs, n, st).channels[i];
      && c.name == Rename(st.renames, attrs[i].name)
      && DataMap(c.elemType, c.count) == st.mapping[attrs[i].kind]
    ensures forall d :: d in ExportAll(attrs, n, st).diagnostics ==> d.NoConversion?
    decreases |attrs|
  {
    if |attrs| > 0 {
      var init := attrs[..|attrs| - 1];
      EmptySelectionExportsAll(init, n, st);
      assert forall i :: 0 <= i < |init| ==> init[i] == attrs[i];
    }
  }

  /** The conversion switch's fallback diagnostic is reported only when
      there are points to copy and a mapped kind has no conversion. */
  lemma NoConversionOnlyWithPoints<F>(attrs: seq<Attribute<F>>, n: nat, st: Settings, name: string)
    requires AllWellFormed(attrs, n) && Adequate(st.mapping)
    ensures NoConversion(name) in ExportAll(attrs, n, st).diagnostics <==>
      n > 0 && exists i :: 0 <= i < |attrs| && Exported(attrs[i], st) && !HasMarshaller(attrs[i].kind) && attrs[i].name == name
  {
  }

  /** Under every registered profile the fallback is unreachable: all
      diagnostics are "unsupported data type" or "not selected". */
  lemma ProfileNeverFallsBack<F>(f: Format, attrs: seq<Attribute<F>>, n: nat, selection: seq<string>)
    requires AllWellFormed(attrs, n)
    ensures var p := ProfileOf(f);
      forall d :: d in ExportAll(attrs, n, Settings(p.renames, p.mapping, selection)).diagnostics ==> !d.NoConversion?
  {
  }

  /** With no points, every channel is allocated empty and no value is
      read, so no fallback diagnostic arises either. */
  lemma ZeroPoints<F>(attrs: seq<Attribute<F>>, st: Settings)
    requires AllWellFormed(attrs, 0) && Adequate(st.mapping)
    ensures forall c :: c in ExportAll(attrs, 0, st).channels ==> c.rows == []
    ensures forall d :: d in ExportAll(attrs, 0, st).diagnostics ==> !d.NoConversion?
  {
  }

  /** The selection is checked against the source name, not the renamed
      one: a selected source name is exported under its new name, and
      selecting only the new name does not export it. */
  lemma SelectionUsesSourceName<F>(a: Attribute<F>, n: nat, st: Settings)
    requires WellFormedAttribute(a, n) && Adequate(st.mapping)
    requires Visible(a) && a.kind in st.mapping && a.name in st.renames
    ensures a.name in st.selection ==>
      AttributeExport(a, n, st).channels[0].name == st.renames[a.name]
    ensures |st.selection| != 0 && a.name !in st.selection && st.renames[a.name] in st.selection ==>
      AttributeExport(a, n, st) == Export([], [NotSelected(a.name)])
  {
  }

  /** Row p of an exported attribute's channel depends on that attribute's
      value at point p and on nothing else: two attributes that agree at p
      give the same row p, whatever their other values (for rotations, in
      particular, whatever the neighbours' representations). */
  lemma RowDependsOnlyOnOwnValue<F>(a: Attribute<F>, b: Attribute<F>, n: nat, m: DataMap, p: nat)
    requires WellFormedAttribute(a, n) && WellFormedAttribute(b, n)
    requires Visible(a) && Visible(b) && a.kind == b.kind && HasMarshaller(a.kind)
    requires MinCount(a.kind) <= m.count
    requires p < n && a.values[p] == b.values[p]
    ensures StoredRows(a, n, m)[p] == StoredRows(b, n, m)[p]
    ensures StoredRows(a, n, m)[p] == Marshal(a.values[p], m.count, BlankRow(m.count))
  {
  }

  /** A visible Float attribute with one point. */
  function FloatAttr<F>(name: string, x: F): Attribute<F> {
    Attribute(name, Float, true, Component0D, [FloatV(x)])
  }

  /** A one-point Float attribute under the default mapping becomes one
      float channel holding its value, or a "not selected" diagnostic. */
  lemma FloatAttrExport<F>(name: string, x: F, st: Settings)
    requires st.mapping == DefaultMapping && st.renames == map[]
    ensures WellFormedAttribute(FloatAttr(name, x), 1) && Adequate(st.mapping)
    ensures AttributeExport(FloatAttr(name, x), 1, st) ==
      if Selected(st.selection, name) then Export([Channel(name, FLOAT, 1, [[FloatSlot(x)]])], [])
      else Export([], [NotSelected(name)])
  {
    DefaultMappingAdequate();
    DefaultMappingTable();
    var row := Marshal(FloatV(x), 1, BlankRow(1));
    assert row == [FloatSlot(x)];
    assert StoredRows(FloatAttr(name, x), 1, Float1) == [row];
  }

  /** Selection {"A", "C"} over attributes A, B, C, D: channels for A and C,
      in that order, and one "not selected" diagnostic each for B and D. */
  lemma SelectionExample<F>(x: F)
    ensures var attrs := [FloatAttr("A", x), FloatAttr("B", x), FloatAttr("C", x), FloatAttr("D", x)];
      var st := Settings(map[], DefaultMapping, ["A", "C"]);
      AllWellFormed(attrs, 1) && Adequate(st.mapping) &&
      var e := ExportAll(attrs, 1, st);
      && |e.channels| == 2
      && e.channels[0].name == "A" && e.channels[1].name == "C"
      && e.channels[0].rows == [[FloatSlot(x)]]
      && e.diagnostics == [NotSelected("B"), NotSelected("D")]
  {
    var attrs := [FloatAttr("A", x), FloatAttr("B", x), FloatAttr("C", x), FloatAttr("D", x)];
    var st := Settings(map[], DefaultMapping, ["A", "C"]);
    var chA := Channel("A", FLOAT, 1, [[FloatSlot(x)]]);
    var chC := Channel("C", FLOAT, 1, [[FloatSlot(x)]]);
    assert "A" == st.selection[0] && "C" == st.selection[1];
    assert "B" !in st.selection && "D" !in st.selection;
    FloatAttrExport("A", x, st);
    FloatAttrExport("B", x, st);
    FloatAttrExport("C", x, st);
    FloatAttrExport("D", x, st);
    assert attrs[..3][..2][..1][..0] == [];
    assert attrs[..3][..2][..1] == [FloatAttr("A", x)];
    assert attrs[..3][..2] == [FloatAttr("A", x), FloatAttr("B", x)];
    assert attrs[..3] == [FloatAttr("A", x), FloatAttr("B", x), FloatAttr("C", x)];
    assert ExportAll(attrs[..3][..2][..1], 1, st) == Export([chA], []);
    assert ExportAll(attrs[..3][..2], 1, st) == Export([chA], [NotSelected("B")]);
    assert ExportAll(attrs[..3], 1, st) == Export([chA, chC], [NotSelected("B")]);
  }

  /** Under the BGEO profile an attribute named "PointPosition" becomes
      channel "position", and "Foo", which has no rule, stays "Foo". */
  lemma RenameExample<F>()
    ensures var attrs: seq<Attribute<F>> := [
        Attribute("PointPosition", Vector3, true, Component0D, []),
        Attribute("Foo", Float, true, Component0D, [])];
      var p := ProfileOf(BGEO);
      var st := Settings(p.renames, p.mapping, []);
      AllWellFormed(attrs, 0) &&
      var e := ExportAll(attrs, 0, st);
      |e.channels| == 2 && e.channels[0].name == "position" && e.channels[1].name == "Foo"
      && e.channels[0].elemType == VECTOR && e.channels[0].count == 3
  {
    var attrs: seq<Attribute<F>> := [
      Attribute("PointPosition", Vector3, true, Component0D, []),
      Attribute("Foo", Float, true, Component0D, [])];
    var p := ProfileOf(BGEO);
    var st := Settings(p.renames, p.mapping, []);
    assert Rename(st.renames, "PointPosition") == "position" && Rename(st.renames, "Foo") == "Foo" by {
      assert "PointPosition" in BgeoChannelNames && BgeoChannelNames["PointPosition"] == "position";
      assert "Foo" !in BgeoChannelNames;
    }
    assert Vector3 in st.mapping && st.mapping[Vector3] == Vector3Map && Float in st.mapping;
    PairExport(attrs[0], attrs[1], st);
    assert attrs == [attrs[0], attrs[1]];
  }

  /** Two visible, mapped attributes with no selection and no points
      and no values become two channels, in order, renamed and typed by
      the settings. */
  lemma PairExport<F>(a0: Attribute<F>, a1: Attribute<F>, st: Settings)
    requires Visible(a0) && Visible(a1) && a0.values == [] && a1.values == [] && Adequate(st.mapping)
    requires a0.kind in st.mapping && a1.kind in st.mapping && |st.selection| == 0
    ensures AllWellFormed([a0, a1], 0)
    ensures var e := ExportAll([a0, a1], 0, st);
      && |e.channels| == 2
      && e.channels[0].name == Rename(st.renames, a0.name)
      && e.channels[1].name == Rename(st.renames, a1.name)
      && DataMap(e.channels[0].elemType, e.channels[0].count) == st.mapping[a0.kind]
  {
    assert WellFormedAttribute(a0, 0) && WellFormedAttribute(a1, 0);
    EmptySelectionExportsAll([a0, a1], 0, st);
  }

  /** A selected Color4 attribute under a mapping that gives Color4 three
      or four floats becomes one channel of that shape, whose row p holds
      the leading components of colour p (R, G, B, then A when the channel
      has four elements), and reports nothing. */
  lemma Color4Rows<F>(a: Attribute<F>, n: nat, st: Settings)
    requires Visible(a) && a.kind == Color4 && |a.values| == n
    requires forall p :: 0 <= p < n ==> a.values[p].ColorV?
    requires Adequate(st.mapping) && Color4 in st.mapping && st.mapping[Color4] in {Float3, Float4}
    requires Selected(st.selection, a.name)
    ensures AllWellFormed([a], n)
    ensures var e := ExportAll([a], n, st);
      && e.diagnostics == []
      && |e.channels| == 1
      && e.channels[0].name == Rename(st.renames, a.name)
      && DataMap(e.channels[0].elemType, e.channels[0].count) == st.mapping[Color4]
      && |e.channels[0].rows| == n
      && forall p :: 0 <= p < n ==> e.channels[0].rows[p] == Components(a.values[p])[..e.channels[0].count]
  {
    assert WellFormedAttribute(a, n);
    SingleAttribute(a, n, st);
    var m := st.mapping[Color4];
    var rows := StoredRows(a, n, m);
    forall p | 0 <= p < n
      ensures rows[p] == Components(a.values[p])[..m.count]
    {
      assert WrittenWidth(a.values[p], m.count) == m.count;
    }
  }

  /** `Color4Rows` spelled out slot by slot: a float channel whose row p
      holds R, G and B of colour p, and A too when the channel has four
      elements. */
  lemma Color4Slots<F>(a: Attribute<F>, n: nat, st: Settings)
    requires Visible(a) && a.kind == Color4 && |a.values| == n
    requires forall p :: 0 <= p < n ==> a.values[p].ColorV?
    requires Adequate(st.mapping) && Color4 in st.mapping && st.mapping[Color4] in {Float3, Float4}
    requires Selected(st.selection, a.name)
    ensures AllWellFormed([a], n)
    ensures var e := ExportAll([a], n, st);
      && e.diagnostics == []
      && |e.channels| == 1
      && var c := e.channels[0];
        && c.name == Rename(st.renames, a.name)
        && c.elemType == FLOAT
        && c.count == st.mapping[Color4].count
        && |c.rows| == n
        && forall p :: 0 <= p < n ==>
          var v := a.values[p];
          c.rows[p] == [FloatSlot(v.r), FloatSlot(v.g), FloatSlot(v.b)] + (if c.count == 4 then [FloatSlot(v.a)] else [])
  {
    Color4Rows(a, n, st);
    var c := ExportAll([a], n, st).channels[0];
    forall p | 0 <= p < n
      ensures var v := a.values[p];
        c.rows[p] == [FloatSlot(v.r), FloatSlot(v.g), FloatSlot(v.b)] + (if c.count == 4 then [FloatSlot(v.a)] else [])
    {
      var v := a.values[p];
      assert c.rows[p] == Components(v)[..c.count];
      assert Components(v) == [FloatSlot(v.r), FloatSlot(v.g), FloatSlot(v.b), FloatSlot(v.a)];
    }
  }
}
