/**
 * The feature vector app.py hands to its classifier: the record and its cluster
 * as a one-row frame, one-hot encoded, then reconciled against `dummy_columns`.
 */
module Features {
  import opened Wrappers
  import opened Request
  import opened Encoding
  import opened Reference
  import opened ReferenceOrder
  import opened Cluster
  import opened Complaint

  /**
   * The `data` dict as (field, cell text) pairs in insertion order: the four
   * copied fields, the descriptor when one was assigned, then the cluster.
   */
  function Cells(rec: Record, cluster: ClusterValue): (cells: seq<(string, string)>)
    ensures |cells| == if rec.descriptor.Some? then 6 else 5
    ensures cells[0] == (BoroughKey, rec.borough)
    ensures cells[1] == (LocationTypeKey, rec.locationType)
    ensures cells[2] == (ComplaintTypeKey, rec.complaintType)
    ensures cells[3] == (ChannelKey, rec.channel)
    ensures rec.descriptor.Some? ==> cells[4] == (DescriptorKey, rec.descriptor.value)
    ensures cells[|cells| - 1] == (ClusterKey, CellText(cluster))
  {
    [(BoroughKey, rec.borough), (LocationTypeKey, rec.locationType),
     (ComplaintTypeKey, rec.complaintType), (ChannelKey, rec.channel)]
    + (if rec.descriptor.Some? then [(DescriptorKey, rec.descriptor.value)] else [])
    + [(ClusterKey, CellText(cluster))]
  }

  /** Every field is an encoded field and no field occurs twice. */
  ghost predicate WellKeyed(cells: seq<(string, string)>) {
    && (forall i :: 0 <= i < |cells| ==> IsEncodedField(cells[i].0))
    && (forall i, j :: 0 <= i < j < |cells| ==> cells[i].0 != cells[j].0)
  }

  /** The encoded feature vector. */
  function Encode(rec: Record, cluster: ClusterValue): Row
  {
    Reconcile(OneHot(Cells(rec, cluster)), DummyColumns)
  }

  /** The record's dict has six distinct encoded keys, or five when no descriptor was assigned. */
  lemma CellsWellKeyed(rec: Record, cluster: ClusterValue)
    ensures WellKeyed(Cells(rec, cluster))
    ensures (exists v :: (DescriptorKey, v) in Cells(rec, cluster)) <==> rec.descriptor.Some?
  {
    var cells := Cells(rec, cluster);
    if rec.descriptor.None? {
      assert forall i :: 0 <= i < |cells| ==> cells[i].0 != DescriptorKey;
    }
  }

  /** Indicator columns of encoded fields coincide exactly when field and value do. */
  lemma ColumnNameMatch(f: string, y: string, g: string, z: string)
    requires IsEncodedField(f) && IsEncodedField(g)
    ensures DummyName(f, y) == DummyName(g, z) <==> f == g && y == z
  {
    if f == g {
      SameFieldNames(f, y, z);
    } else {
      EncodedFieldsSeparated(f, g);
      SeparatedNames(f, g, y, z);
    }
  }

  /** A well-keyed record's indicator columns are the columns of its (field, value) pairs, without duplicates. */
  lemma OneHotNames(cells: seq<(string, string)>, f: string, y: string)
    requires WellKeyed(cells) && IsEncodedField(f)
    ensures Distinct(Names(OneHot(cells)))
    ensures DummyName(f, y) in Names(OneHot(cells)) <==> (f, y) in cells
  {
    var names := Names(OneHot(cells));
    forall i, j | 0 <= i < j < |names| ensures names[i] != names[j] {
      ColumnNameMatch(cells[i].0, cells[i].1, cells[j].0, cells[j].1);
    }
    forall i | 0 <= i < |cells| ensures names[i] == DummyName(f, y) <==> cells[i] == (f, y) {
      ColumnNameMatch(f, y, cells[i].0, cells[i].1);
    }
  }

  /**
   * In the reconciled vector of a well-keyed record, a column `<f>_<y>` holds 1
   * exactly when `y` is the record's value of field `f`.
   */
  lemma {:induction false} ColumnValue(cells: seq<(string, string)>, reference: seq<string>, f: string, y: string)
    requires WellKeyed(cells) && IsEncodedField(f)
    ensures forall k :: 0 <= k < |Reconcile(OneHot(cells), reference)| && Reconcile(OneHot(cells), reference)[k].0 == DummyName(f, y) ==>
      Reconcile(OneHot(cells), reference)[k].1 == if (f, y) in cells then 1 else 0
  {
    ReconcileIndicator(OneHot(cells), reference);
    OneHotNames(cells, f, y);
  }

  /** A field holds one value in a well-keyed record. */
  lemma FieldValueUnique(cells: seq<(string, string)>, f: string, x: string, y: string)
    requires WellKeyed(cells) && (f, x) in cells && (f, y) in cells
    ensures x == y
  {
    var i :| 0 <= i < |cells| && cells[i] == (f, x);
    var j :| 0 <= j < |cells| && cells[j] == (f, y);
    assert !(i < j) && !(j < i);
  }

  /** The vector has exactly the 108 reference columns, none twice. */
  lemma EncodeShape(rec: Record, cluster: ClusterValue)
    ensures forall c :: c in Names(Encode(rec, cluster)) <==> c in DummyColumns
    ensures Distinct(Names(Encode(rec, cluster)))
    ensures |Encode(rec, cluster)| == |DummyColumns| == 108
  {
    var cells := Cells(rec, cluster);
    CellsWellKeyed(rec, cluster);
    OneHotNames(cells, BoroughKey, rec.borough);
    DummyColumnsDistinct();
    ReconcileShape(OneHot(cells), DummyColumns);
    DummyColumnsWidth();
  }

  /**
   * The vector is the record's columns that have a reference column, in `data`
   * order, followed by the remaining reference columns at 0 in list order.
   */
  lemma EncodeLayout(rec: Record, cluster: ClusterValue)
    ensures var row := OneHot(Cells(rec, cluster));
      var kept := DropUnknown(row, DummyColumns);
      Encode(rec, cluster) == kept + Zeros(Missing(DummyColumns, Names(kept)))
  {
    DummyColumnsDistinct();
    ReconcileLayout(OneHot(Cells(rec, cluster)), DummyColumns);
  }

  /**
   * For each encoded field `f` with value `x` in the record, the column `<f>_<y>`
   * holds 1 when `y` is `x` and 0 otherwise. When `x` has a reference column,
   * that column is in the vector with value 1.
   */
  lemma EncodeFieldColumns(rec: Record, cluster: ClusterValue, f: string, x: string)
    requires (f, x) in Cells(rec, cluster)
    ensures var r := Encode(rec, cluster);
      forall k, y :: 0 <= k < |r| && r[k].0 == DummyName(f, y) ==> r[k].1 == if y == x then 1 else 0
    ensures x in GroupValues(f) ==> (DummyName(f, x), 1) in Encode(rec, cluster)
  {
    var cells := Cells(rec, cluster);
    var r := Encode(rec, cluster);
    CellsWellKeyed(rec, cluster);
    forall k, y | 0 <= k < |r| && r[k].0 == DummyName(f, y) ensures r[k].1 == if y == x then 1 else 0 {
      ColumnValue(cells, DummyColumns, f, y);
      if (f, y) in cells {
        FieldValueUnique(cells, f, x, y);
      }
    }
    if x in GroupValues(f) {
      InDummyColumns(f, x);
      EncodeShape(rec, cluster);
      var k :| 0 <= k < |r| && Names(r)[k] == DummyName(f, x);
      ColumnValue(cells, DummyColumns, f, x);
      assert r[k] == (DummyName(f, x), 1);
    }
  }

  /** A field whose value has no reference column contributes no 1: its whole group is 0. */
  lemma UnlistedValueGroupZero(rec: Record, cluster: ClusterValue, f: string, x: string)
    requires (f, x) in Cells(rec, cluster) && x !in GroupValues(f)
    ensures var r := Encode(rec, cluster);
      forall k, y :: 0 <= k < |r| && r[k].0 == DummyName(f, y) ==> r[k].1 == 0
  {
    var r := Encode(rec, cluster);
    CellsWellKeyed(rec, cluster);
    EncodeFieldColumns(rec, cluster, f, x);
    EncodeShape(rec, cluster);
    forall k, y | 0 <= k < |r| && r[k].0 == DummyName(f, y) ensures y != x {
      assert r[k].0 in Names(r);
      InDummyColumns(f, y);
    }
  }

  /** Without a descriptor, every descriptor column is 0. */
  lemma NoDescriptorGroupZero(rec: Record, cluster: ClusterValue)
    requires rec.descriptor.None?
    ensures var r := Encode(rec, cluster);
      forall k, y :: 0 <= k < |r| && r[k].0 == DummyName(DescriptorKey, y) ==> r[k].1 == 0
  {
    var cells := Cells(rec, cluster);
    var r := Encode(rec, cluster);
    CellsWellKeyed(rec, cluster);
    forall k, y | 0 <= k < |r| && r[k].0 == DummyName(DescriptorKey, y) ensures r[k].1 == 0 {
      ColumnValue(cells, DummyColumns, DescriptorKey, y);
    }
  }

  /** The cluster `Driveway Queens` has no reference column, so its group is all 0. */
  lemma DrivewayQueensGroupZero(rec: Record)
    ensures var r := Encode(rec, Name("Driveway Queens"));
      forall k, y :: 0 <= k < |r| && r[k].0 == DummyName(ClusterKey, y) ==> r[k].1 == 0
  {
    var cells := Cells(rec, Name("Driveway Queens"));
    assert cells[|cells| - 1] == (ClusterKey, "Driveway Queens");
    UnlistedValueGroupZero(rec, Name("Driveway Queens"), ClusterKey, "Driveway Queens");
  }

  /** A cluster id the table does not rename has no reference column, so its group is all 0. */
  lemma UnnamedClusterGroupZero(rec: Record, id: int)
    ensures var r := Encode(rec, Id(id));
      forall k, y :: 0 <= k < |r| && r[k].0 == DummyName(ClusterKey, y) ==> r[k].1 == 0
  {
    var cells := Cells(rec, Id(id));
    var text := CellText(Id(id));
    assert cells[|cells| - 1] == (ClusterKey, text);
    assert text[0] == '-' || '0' <= text[0] <= '9';
    assert text !in ClusterLabelValues by {
      forall i | 0 <= i < |ClusterLabelValues| ensures ClusterLabelValues[i][0] == 'N' || ClusterLabelValues[i][0] == 'P' {}
    }
    UnlistedValueGroupZero(rec, Id(id), ClusterKey, text);
  }

  /** The complaint type `Abandoned Vehicle` has no reference column, so its group is all 0. */
  lemma AbandonedVehicleGroupZero(rec: Record, cluster: ClusterValue)
    requires rec.complaintType == "Abandoned Vehicle"
    ensures var r := Encode(rec, cluster);
      forall k, y :: 0 <= k < |r| && r[k].0 == DummyName(ComplaintTypeKey, y) ==> r[k].1 == 0
  {
    assert Cells(rec, cluster)[2] == (ComplaintTypeKey, "Abandoned Vehicle");
    UnlistedValueGroupZero(rec, cluster, ComplaintTypeKey, "Abandoned Vehicle");
  }

  /**
   * With a descriptor assigned, the vector holds 1 in exactly the columns named
   * after the record's six (field, value) pairs, and 0 in every other column.
   */
  lemma EncodeOnes(rec: Record, cluster: ClusterValue)
    requires rec.descriptor.Some?
    ensures var r := Encode(rec, cluster);
      forall k :: 0 <= k < |r| ==>
        (r[k].1 == 1 <==> r[k].0 in [
           DummyName(BoroughKey, rec.borough),
           DummyName(LocationTypeKey, rec.locationType),
           DummyName(ComplaintTypeKey, rec.complaintType),
           DummyName(ChannelKey, rec.channel),
           DummyName(DescriptorKey, rec.descriptor.value),
           DummyName(ClusterKey, CellText(cluster))])
  {
    var cells := Cells(rec, cluster);
    ReconcileIndicator(OneHot(cells), DummyColumns);
    assert Names(OneHot(cells)) == [
      DummyName(BoroughKey, rec.borough),
      DummyName(LocationTypeKey, rec.locationType),
      DummyName(ComplaintTypeKey, rec.complaintType),
      DummyName(ChannelKey, rec.channel),
      DummyName(DescriptorKey, rec.descriptor.value),
      DummyName(ClusterKey, CellText(cluster))];
  }

  /**
   * The vector spans exactly the 108 reference columns, none twice; its
   * complaint-type columns hold 1 exactly at the record's complaint type, and its
   * descriptor columns exactly at the record's descriptor when it has one.
   */
  lemma EncodeRecordColumns(rec: Record, cluster: ClusterValue)
    ensures var r := Encode(rec, cluster);
      && (forall c :: c in Names(r) <==> c in DummyColumns)
      && Distinct(Names(r))
      && (forall k, y :: 0 <= k < |r| && r[k].0 == DummyName(ComplaintTypeKey, y) ==>
            r[k].1 == if y == rec.complaintType then 1 else 0)
      && (rec.descriptor.Some? ==>
            forall k, y :: 0 <= k < |r| && r[k].0 == DummyName(DescriptorKey, y) ==>
              r[k].1 == if y == rec.descriptor.value then 1 else 0)
  {
    var cells := Cells(rec, cluster);
    EncodeShape(rec, cluster);
    assert cells[2] == (ComplaintTypeKey, rec.complaintType);
    EncodeFieldColumns(rec, cluster, ComplaintTypeKey, rec.complaintType);
    if rec.descriptor.Some? {
      assert cells[4] == (DescriptorKey, rec.descriptor.value);
      EncodeFieldColumns(rec, cluster, DescriptorKey, rec.descriptor.value);
    }
  }
}
