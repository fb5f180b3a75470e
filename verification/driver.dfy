/** The attribute export driver: the attribute loop of `ExportPrimitive`
    and the per-point copy `StoreData`. Each attribute is filtered (visible,
    mapped, selected), renamed, given one channel and copied point by
    point; skipped attributes leave a diagnostic behind. */
module Driver {
  import opened Kinds
  import opened Profiles
  import opened Values

  /** The host context an attribute is defined over; only per-point
      (component 0D) attributes are exported. */
  datatype ContextType = Component0D | OtherContext(code: int)

  /** A host attribute: its name, data kind, definedness, context and one
      value per point. */
  datatype Attribute<F> = Attribute(
    name: string,
    kind: DataKind,
    defined: bool,
    context: ContextType,
    values: seq<Value<F>>)

  /** The geometry of a point cloud at the export frame. */
  datatype PointCloud<F> = PointCloud(pointCount: nat, attributes: seq<Attribute<F>>)

  /** One exported channel: destination name, element type, element count
      and one row per particle. */
  datatype Channel<F> = Channel(name: string, elemType: ElemType, count: nat, rows: seq<Row<F>>)

  /** The record set handed to the particle writer. */
  datatype RecordSet<F> = RecordSet(numParticles: nat, channels: seq<Channel<F>>)

  /** The warnings the driver collects for attributes it skips. */
  datatype Diagnostic =
    | UnsupportedDataType(name: string, kind: DataKind)
    | NotSelected(name: string)
    | NoConversion(name: string)

  /** What a run of the driver over some attributes produces. */
  datatype Export<F> = Export(channels: seq<Channel<F>>, diagnostics: seq<Diagnostic>)

  /** The configuration of one export: rename table, type mapping and the
      selected source names (empty: export every attribute). */
  datatype Settings = Settings(renames: RenameTable, mapping: TypeMapping, selection: seq<string>)

  function Concat<F>(e: Export<F>, e': Export<F>): Export<F> {
    Export(e.channels + e'.channels, e.diagnostics + e'.diagnostics)
  }

  /** The attribute takes part in the export at all. */
  predicate Visible<F>(a: Attribute<F>) {
    a.defined && a.context == Component0D
  }

  /** The selection admits a source name: an empty selection admits all. */
  predicate Selected(selection: seq<string>, name: string) {
    |selection| == 0 || name in selection
  }

  /** What the host guarantees of a visible attribute with a conversion:
      one value per point, each of the attribute's kind. */
  predicate WellFormedAttribute<F>(a: Attribute<F>, n: nat) {
    Visible(a) && HasMarshaller(a.kind) ==>
      && |a.values| == n
      && forall j :: 0 <= j < |a.values| ==> KindOf(a.values[j]) == a.kind
  }

  predicate AllWellFormed<F>(attrs: seq<Attribute<F>>, n: nat) {
    forall i :: 0 <= i < |attrs| ==> WellFormedAttribute(attrs[i], n)
  }

  /** The attribute is exported: visible, its kind mapped, its source name
      selected. */
  predicate Exported<F>(a: Attribute<F>, st: Settings) {
    Visible(a) && a.kind in st.mapping && Selected(st.selection, a.name)
  }

  /** The rows of the channel an exported attribute gets: with points and
      a conversion, row i is value i converted into a fresh row; otherwise
      the rows are left as allocated. */
  function StoredRows<F>(a: Attribute<F>, n: nat, m: DataMap): (rows: seq<Row<F>>)
    requires WellFormedAttribute(a, n)
    requires Visible(a) && HasMarshaller(a.kind) ==> MinCount(a.kind) <= m.count
    ensures |rows| == n
    ensures forall i :: 0 <= i < n ==> |rows[i]| == m.count
    ensures forall i, j :: 0 <= i < n && 0 <= j < m.count ==>
      rows[i][j] ==
        if Visible(a) && HasMarshaller(a.kind) && j < WrittenWidth(a.values[i], m.count)
        then Components(a.values[i])[j]
        else Unset
  {
    if n > 0 && Visible(a) && HasMarshaller(a.kind) then
      seq(n, i requires 0 <= i < n =>
        WrittenWidthFits(a.values[i], m.count);
        Marshal(a.values[i], m.count, BlankRow(m.count)))
    else
      seq(n, _ => BlankRow(m.count))
  }

  /** What one attribute contributes, the four steps in the exporter's
      order: the silent visibility filter, the type lookup, the selection
      check on the source name, then renaming, channel allocation and the
      per-point copy. The conversion switch falls back to a diagnostic for a
      mapped kind without a conversion when there are points to copy. */
  function AttributeExport<F>(a: Attribute<F>, n: nat, st: Settings): (e: Export<F>)
    requires WellFormedAttribute(a, n) && Adequate(st.mapping)
    ensures |e.channels| == if Exported(a, st) then 1 else 0
    ensures Exported(a, st) ==>
      && e.channels[0].name == Rename(st.renames, a.name)
      && DataMap(e.channels[0].elemType, e.channels[0].count) == st.mapping[a.kind]
      && e.channels[0].rows == StoredRows(a, n, st.mapping[a.kind])
    ensures |e.diagnostics| <= 1
    ensures UnsupportedDataType(a.name, a.kind) in e.diagnostics <==> Visible(a) && a.kind !in st.mapping
    ensures NotSelected(a.name) in e.diagnostics <==>
      Visible(a) && a.kind in st.mapping && !Selected(st.selection, a.name)
    ensures NoConversion(a.name) in e.diagnostics <==> Exported(a, st) && n > 0 && !HasMarshaller(a.kind)
    ensures !Visible(a) ==> e.diagnostics == []
    ensures Exported(a, st) && (n == 0 || HasMarshaller(a.kind)) ==> e.diagnostics == []
  {
    if !Visible(a) then Export([], [])
    else if a.kind !in st.mapping then Export([], [UnsupportedDataType(a.name, a.kind)])
    else if !Selected(st.selection, a.name) then Export([], [NotSelected(a.name)])
    else
      var m := st.mapping[a.kind];
      var channel := Channel(Rename(st.renames, a.name), m.elemType, m.count, StoredRows(a, n, m));
      if n > 0 && !HasMarshaller(a.kind) then Export([channel], [NoConversion(a.name)])
      else Export([channel], [])
  }

  /** The driver's output for a sequence of attributes, in enumeration
      order. */
  function ExportAll<F>(attrs: seq<Attribute<F>>, n: nat, st: Settings): (e: Export<F>)
    requires AllWellFormed(attrs, n) && Adequate(st.mapping)
    ensures |e.channels| <= |attrs| && |e.diagnostics| <= |attrs|
    ensures forall c :: 0 <= c < |e.channels| ==> |e.channels[c].rows| == n
  {
    if |attrs| == 0 then Export([], [])
    else Concat(ExportAll(attrs[..|attrs| - 1], n, st), AttributeExport(attrs[|attrs| - 1], n, st))
  }

  /** `StoreData`: the channel's rows are allocated, then row i receives
      the conversion of value i alone, for every particle i. */
  method StoreData<F>(values: seq<Value<F>>, n: nat, count: nat) returns (rows: seq<Row<F>>)
    requires n <= |values|
    requires forall i :: 0 <= i < n ==> WrittenWidth(values[i], count) <= count
    ensures |rows| == n
    ensures forall i :: 0 <= i < n ==> rows[i] == Marshal(values[i], count, BlankRow(count))
  {
    rows := seq(n, _ => BlankRow(count));
    var i := 0;
    while i < n
      invariant 0 <= i <= n && |rows| == n
      invariant forall j :: 0 <= j < i ==> rows[j] == Marshal(values[j], count, BlankRow(count))
      invariant forall j :: i <= j < n ==> rows[j] == BlankRow(count)
    {
      rows := rows[i := Marshal(values[i], count, rows[i])];
      i := i + 1;
    }
  }

  /** The attribute loop of `ExportPrimitive`: the record set holds one
      particle per point and the channels and diagnostics the attributes
      contribute in enumeration order. */
  method ExportAttributes<F>(cloud: PointCloud<F>, st: Settings)
    returns (records: RecordSet<F>, diagnostics: seq<Diagnostic>)
    requires AllWellFormed(cloud.attributes, cloud.pointCount) && Adequate(st.mapping)
    ensures records.numParticles == cloud.pointCount
    ensures Export(records.channels, diagnostics) == ExportAll(cloud.attributes, cloud.pointCount, st)
  {
    var n := cloud.pointCount;
    var attrs := cloud.attributes;
    var channels: seq<Channel<F>> := [];
    diagnostics := [];
    var i := 0;
    while i < |attrs|
      invariant 0 <= i <= |attrs|
      invariant Export(channels, diagnostics) == ExportAll(attrs[..i], n, st)
    {
      var a := attrs[i];
      assert attrs[..i + 1][..i] == attrs[..i];
      assert WellFormedAttribute(a, n);
      assert ExportAll(attrs[..i + 1], n, st) == Concat(ExportAll(attrs[..i], n, st), AttributeExport(a, n, st));
      if !a.defined || a.context != Component0D {
        i := i + 1;
        continue;
      }
      if a.kind !in st.mapping {
        diagnostics := diagnostics + [UnsupportedDataType(a.name, a.kind)];
        i := i + 1;
        continue;
      }
      var m := st.mapping[a.kind];
      if |st.selection| != 0 && a.name !in st.selection {
        diagnostics := diagnostics + [NotSelected(a.name)];
        i := i + 1;
        continue;
      }
      var dest := Rename(st.renames, a.name);
      var rows := seq(n, _ => BlankRow(m.count));
      if n > 0 {
        if HasMarshaller(a.kind) {
          forall j | 0 <= j < n
            ensures WrittenWidth(a.values[j], m.count) <= m.count
          {
            WrittenWidthFits(a.values[j], m.count);
          }
          rows := StoreData(a.values, n, m.count);
        } else {
          diagnostics := diagnostics + [NoConversion(a.name)];
        }
      }
      assert rows == StoredRows(a, n, m);
      channels := channels + [Channel(dest, m.elemType, m.count, rows)];
      i := i + 1;
    }
    assert attrs[..i] == attrs;
    records := RecordSet(n, channels);
  }
}
