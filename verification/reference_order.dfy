/**
 * The reference column list has no duplicates: each field's values are listed in
 * ascending character-code order, and columns of different fields never coincide.
 */
module ReferenceOrder {
  import opened Encoding
  import opened Order
  import opened Request
  import opened Reference

  // `ComplaintTypeValues` is checked in slices of a few neighbouring pairs, one lemma per slice, so that
  // each proof obligation over the literal list stays small enough for the solver. Each pair
  // is witnessed by the first index at which the two values differ.
  /** Neighbouring entries 0 to 8 of `ComplaintTypeValues` are in order. */
  lemma ComplaintTypesAscendingA()
    ensures forall i :: 0 <= i < 8 ==> Below(ComplaintTypeValues[i], ComplaintTypeValues[i + 1])
  {
    var c := ComplaintTypeValues;
    forall i | 0 <= i < 8 ensures Below(c[i], c[i + 1]) {
      if i == 0 { assert DiffersAt(c[0], c[1], 6); }
      else if i == 1 { assert DiffersAt(c[1], c[2], 0); }
      else if i == 2 { assert DiffersAt(c[2], c[3], 1); }
      else if i == 3 { assert DiffersAt(c[3], c[4], 0); }
      else if i == 4 { assert DiffersAt(c[4], c[5], 1); }
      else if i == 5 { assert DiffersAt(c[5], c[6], 1); }
      else if i == 6 { assert DiffersAt(c[6], c[7], 2); }
      else { assert DiffersAt(c[7], c[8], 0); }
    }
  }

  /** Neighbouring entries 8 to 16 of `ComplaintTypeValues` are in order. */
  lemma ComplaintTypesAscendingB()
    ensures forall i :: 8 <= i < 16 ==> Below(ComplaintTypeValues[i], ComplaintTypeValues[i + 1])
  {
    var c := ComplaintTypeValues;
    forall i | 8 <= i < 16 ensures Below(c[i], c[i + 1]) {
      if i == 8 { assert DiffersAt(c[8], c[9], 0); }
      else if i == 9 { assert DiffersAt(c[9], c[10], 9); }
      else if i == 10 { assert DiffersAt(c[10], c[11], 0); }
      else if i == 11 { assert DiffersAt(c[11], c[12], 8); }
      else if i == 12 { assert DiffersAt(c[12], c[13], 0); }
      else if i == 13 { assert DiffersAt(c[13], c[14], 8); }
      else if i == 14 { assert DiffersAt(c[14], c[15], 8); }
      else { assert DiffersAt(c[15], c[16], 8); }
    }
  }

  /** Neighbouring entries 16 to 25 of `ComplaintTypeValues` are in order. */
  lemma ComplaintTypesAscendingC()
    ensures forall i :: 16 <= i < 25 ==> Below(ComplaintTypeValues[i], ComplaintTypeValues[i + 1])
  {
    var c := ComplaintTypeValues;
    forall i | 16 <= i < 25 ensures Below(c[i], c[i + 1]) {
      if i == 16 { assert DiffersAt(c[16], c[17], 8); }
      else if i == 17 { assert DiffersAt(c[17], c[18], 8); }
      else if i == 18 { assert DiffersAt(c[18], c[19], 2); }
      else if i == 19 { assert DiffersAt(c[19], c[20], 0); }
      else if i == 20 { assert DiffersAt(c[20], c[21], 1); }
      else if i == 21 { assert DiffersAt(c[21], c[22], 0); }
      else if i == 22 { assert DiffersAt(c[22], c[23], 0); }
      else if i == 23 { assert DiffersAt(c[23], c[24], 0); }
      else { assert DiffersAt(c[24], c[25], 0); }
    }
  }

  /** `ComplaintTypeValues` is in ascending order. */
  lemma ComplaintTypesAscending()
    ensures Ascending(ComplaintTypeValues)
  {
    ComplaintTypesAscendingA();
    ComplaintTypesAscendingB();
    ComplaintTypesAscendingC();
  }

  // `DescriptorValuesHead` is checked in slices of a few neighbouring pairs, one lemma per slice, so that
  // each proof obligation over the literal list stays small enough for the solver. Each pair
  // is witnessed by the first index at which the two values differ.
  /** Neighbouring entries 0 to 8 of `DescriptorValuesHead` are in order. */
  lemma DescriptorsHeadAscendingA()
    ensures forall i :: 0 <= i < 8 ==> Below(DescriptorValuesHead[i], DescriptorValuesHead[i + 1])
  {
    var c := DescriptorValuesHead;
    forall i | 0 <= i < 8 ensures Below(c[i], c[i + 1]) {
      if i == 0 { assert DiffersAt(c[0], c[1], 1); }
      else if i == 1 { assert DiffersAt(c[1], c[2], 8); }
      else if i == 2 { assert DiffersAt(c[2], c[3], 8); }
      else if i == 3 { assert DiffersAt(c[3], c[4], 1); }
      else if i == 4 { assert DiffersAt(c[4], c[5], 0); }
      else if i == 5 { assert DiffersAt(c[5], c[6], 10); }
      else if i == 6 { assert DiffersAt(c[6], c[7], 1); }
      else { assert DiffersAt(c[7], c[8], 2); }
    }
  }

  /** Neighbouring entries 8 to 12 of `DescriptorValuesHead` are in order. */
  lemma DescriptorsHeadAscendingB()
    ensures forall i :: 8 <= i < 12 ==> Below(DescriptorValuesHead[i], DescriptorValuesHead[i + 1])
  {
    var c := DescriptorValuesHead;
    forall i | 8 <= i < 12 ensures Below(c[i], c[i + 1]) {
      if i == 8 { assert DiffersAt(c[8], c[9], 9); }
      else if i == 9 { assert DiffersAt(c[9], c[10], 1); }
      else if i == 10 { assert DiffersAt(c[10], c[11], 2); }
      else { assert DiffersAt(c[11], c[12], 0); }
    }
  }

  /** Neighbouring entries 12 to 16 of `DescriptorValuesHead` are in order. */
  lemma DescriptorsHeadAscendingC()
    ensures forall i :: 12 <= i < 16 ==> Below(DescriptorValuesHead[i], DescriptorValuesHead[i + 1])
  {
    var c := DescriptorValuesHead;
    forall i | 12 <= i < 16 ensures Below(c[i], c[i + 1]) {
      if i == 12 { assert DiffersAt(c[12], c[13], 1); }
      else if i == 13 { assert DiffersAt(c[13], c[14], 23); }
      else if i == 14 { assert DiffersAt(c[14], c[15], 1); }
      else { assert DiffersAt(c[15], c[16], 0); }
    }
  }

  /** Neighbouring entries 16 to 22 of `DescriptorValuesHead` are in order. */
  lemma DescriptorsHeadAscendingD()
    ensures forall i :: 16 <= i < 22 ==> Below(DescriptorValuesHead[i], DescriptorValuesHead[i + 1])
  {
    var c := DescriptorValuesHead;
    forall i | 16 <= i < 22 ensures Below(c[i], c[i + 1]) {
      if i == 16 { assert DiffersAt(c[16], c[17], 0); }
      else if i == 17 { assert DiffersAt(c[17], c[18], 3); }
      else if i == 18 { assert DiffersAt(c[18], c[19], 4); }
      else if i == 19 { assert DiffersAt(c[19], c[20], 0); }
      else if i == 20 { assert DiffersAt(c[20], c[21], 5); }
      else { assert DiffersAt(c[21], c[22], 6); }
    }
  }

  /** `DescriptorValuesHead` is in ascending order. */
  lemma DescriptorsHeadAscending()
    ensures Ascending(DescriptorValuesHead)
  {
    DescriptorsHeadAscendingA();
    DescriptorsHeadAscendingB();
    DescriptorsHeadAscendingC();
    DescriptorsHeadAscendingD();
  }

  // `DescriptorValuesTail` is checked in slices of a few neighbouring pairs, one lemma per slice, so that
  // each proof obligation over the literal list stays small enough for the solver. Each pair
  // is witnessed by the first index at which the two values differ.
  /** Neighbouring entries 0 to 8 of `DescriptorValuesTail` are in order. */
  lemma DescriptorsTailAscendingA()
    ensures forall i :: 0 <= i < 8 ==> Below(DescriptorValuesTail[i], DescriptorValuesTail[i + 1])
  {
    var c := DescriptorValuesTail;
    forall i | 0 <= i < 8 ensures Below(c[i], c[i + 1]) {
      if i == 0 { assert DiffersAt(c[0], c[1], 1); }
      else if i == 1 { assert DiffersAt(c[1], c[2], 3); }
      else if i == 2 { assert DiffersAt(c[2], c[3], 1); }
      else if i == 3 { assert DiffersAt(c[3], c[4], 0); }
      else if i == 4 { assert DiffersAt(c[4], c[5], 1); }
      else if i == 5 { assert DiffersAt(c[5], c[6], 0); }
      else if i == 6 { assert DiffersAt(c[6], c[7], 3); }
      else { assert DiffersAt(c[7], c[8], 1); }
    }
  }

  /** Neighbouring entries 8 to 16 of `DescriptorValuesTail` are in order. */
  lemma DescriptorsTailAscendingB()
    ensures forall i :: 8 <= i < 16 ==> Below(DescriptorValuesTail[i], DescriptorValuesTail[i + 1])
  {
    var c := DescriptorValuesTail;
    forall i | 8 <= i < 16 ensures Below(c[i], c[i + 1]) {
      if i == 8 { assert DiffersAt(c[8], c[9], 1); }
      else if i == 9 { assert DiffersAt(c[9], c[10], 14); }
      else if i == 10 { assert DiffersAt(c[10], c[11], 2); }
      else if i == 11 { assert DiffersAt(c[11], c[12], 0); }
      else if i == 12 { assert DiffersAt(c[12], c[13], 0); }
      else if i == 13 { assert DiffersAt(c[13], c[14], 1); }
      else if i == 14 { assert DiffersAt(c[14], c[15], 1); }
      else { assert DiffersAt(c[15], c[16], 2); }
    }
  }

  /** Neighbouring entries 16 to 24 of `DescriptorValuesTail` are in order. */
  lemma DescriptorsTailAscendingC()
    ensures forall i :: 16 <= i < 24 ==> Below(DescriptorValuesTail[i], DescriptorValuesTail[i + 1])
  {
    var c := DescriptorValuesTail;
    forall i | 16 <= i < 24 ensures Below(c[i], c[i + 1]) {
      if i == 16 { assert DiffersAt(c[16], c[17], 0); }
      else if i == 17 { assert DiffersAt(c[17], c[18], 2); }
      else if i == 18 { assert DiffersAt(c[18], c[19], 2); }
      else if i == 19 { assert DiffersAt(c[19], c[20], 1); }
      else if i == 20 { assert DiffersAt(c[20], c[21], 4); }
      else if i == 21 { assert DiffersAt(c[21], c[22], 0); }
      else if i == 22 { assert DiffersAt(c[22], c[23], 0); }
      else { assert DiffersAt(c[23], c[24], 0); }
    }
  }

  /** `DescriptorValuesTail` is in ascending order. */
  lemma DescriptorsTailAscending()
    ensures Ascending(DescriptorValuesTail)
  {
    DescriptorsTailAscendingA();
    DescriptorsTailAscendingB();
    DescriptorsTailAscendingC();
  }

  // `LocationTypeValues` is checked in slices of a few neighbouring pairs, one lemma per slice, so that
  // each proof obligation over the literal list stays small enough for the solver. Each pair
  // is witnessed by the first index at which the two values differ.
  /** Neighbouring entries 0 to 10 of `LocationTypeValues` are in order. */
  lemma LocationTypesAscendingA()
    ensures forall i :: 0 <= i < 10 ==> Below(LocationTypeValues[i], LocationTypeValues[i + 1])
  {
    var c := LocationTypeValues;
    forall i | 0 <= i < 10 ensures Below(c[i], c[i + 1]) {
      if i == 0 { assert DiffersAt(c[0], c[1], 1); }
      else if i == 1 { assert DiffersAt(c[1], c[2], 4); }
      else if i == 2 { assert DiffersAt(c[2], c[3], 0); }
      else if i == 3 { assert DiffersAt(c[3], c[4], 1); }
      else if i == 4 { assert DiffersAt(c[4], c[5], 1); }
      else if i == 5 { assert DiffersAt(c[5], c[6], 6); }
      else if i == 6 { assert DiffersAt(c[6], c[7], 0); }
      else if i == 7 { assert DiffersAt(c[7], c[8], 0); }
      else if i == 8 { assert DiffersAt(c[8], c[9], 0); }
      else { assert DiffersAt(c[9], c[10], 4); }
    }
  }

  /** Neighbouring entries 10 to 20 of `LocationTypeValues` are in order. */
  lemma LocationTypesAscendingB()
    ensures forall i :: 10 <= i < 20 ==> Below(LocationTypeValues[i], LocationTypeValues[i + 1])
  {
    var c := LocationTypeValues;
    forall i | 10 <= i < 20 ensures Below(c[i], c[i + 1]) {
      if i == 10 { assert DiffersAt(c[10], c[11], 0); }
      else if i == 11 { assert DiffersAt(c[11], c[12], 20); }
      else if i == 12 { assert DiffersAt(c[12], c[13], 1); }
      else if i == 13 { assert DiffersAt(c[13], c[14], 0); }
      else if i == 14 { assert DiffersAt(c[14], c[15], 2); }
      else if i == 15 { assert DiffersAt(c[15], c[16], 2); }
      else if i == 16 { assert DiffersAt(c[16], c[17], 1); }
      else if i == 17 { assert DiffersAt(c[17], c[18], 6); }
      else if i == 18 { assert DiffersAt(c[18], c[19], 0); }
      else { assert DiffersAt(c[19], c[20], 0); }
    }
  }

  /** `LocationTypeValues` is in ascending order. */
  lemma LocationTypesAscending()
    ensures Ascending(LocationTypeValues)
  {
    LocationTypesAscendingA();
    LocationTypesAscendingB();
  }

  /** Neighbouring entries 0 to 4 of `BoroughValues` are in order. */
  lemma BoroughsAscendingPairs()
    ensures forall i :: 0 <= i < 4 ==> Below(BoroughValues[i], BoroughValues[i + 1])
  {
    var c := BoroughValues;
    forall i | 0 <= i < 4 ensures Below(c[i], c[i + 1]) {
      if i == 0 { assert DiffersAt(c[0], c[1], 0); }
      else if i == 1 { assert DiffersAt(c[1], c[2], 0); }
      else if i == 2 { assert DiffersAt(c[2], c[3], 0); }
      else { assert DiffersAt(c[3], c[4], 0); }
    }
  }

  /** `BoroughValues` is in ascending order. */
  lemma BoroughsAscending()
    ensures Ascending(BoroughValues)
  {
    BoroughsAscendingPairs();
  }

  /** Neighbouring entries 0 to 3 of `ChannelValues` are in order. */
  lemma ChannelsAscendingPairs()
    ensures forall i :: 0 <= i < 3 ==> Below(ChannelValues[i], ChannelValues[i + 1])
  {
    var c := ChannelValues;
    forall i | 0 <= i < 3 ensures Below(c[i], c[i + 1]) {
      if i == 0 { assert DiffersAt(c[0], c[1], 1); }
      else if i == 1 { assert DiffersAt(c[1], c[2], 0); }
      else { assert DiffersAt(c[2], c[3], 0); }
    }
  }

  /** `ChannelValues` is in ascending order. */
  lemma ChannelsAscending()
    ensures Ascending(ChannelValues)
  {
    ChannelsAscendingPairs();
  }

  /** Neighbouring entries 0 to 3 of `ClusterLabelValues` are in order. */
  lemma ClusterLabelsAscendingPairs()
    ensures forall i :: 0 <= i < 3 ==> Below(ClusterLabelValues[i], ClusterLabelValues[i + 1])
  {
    var c := ClusterLabelValues;
    forall i | 0 <= i < 3 ensures Below(c[i], c[i + 1]) {
      if i == 0 { assert DiffersAt(c[0], c[1], 6); }
      else if i == 1 { assert DiffersAt(c[1], c[2], 0); }
      else { assert DiffersAt(c[2], c[3], 8); }
    }
  }

  /** `ClusterLabelValues` is in ascending order. */
  lemma ClusterLabelsAscending()
    ensures Ascending(ClusterLabelValues)
  {
    ClusterLabelsAscendingPairs();
  }

  /** Both halves of the descriptor list ascend and meet in order. */
  lemma DescriptorsAscending()
    ensures Ascending(DescriptorValues)
  {
    DescriptorsHeadAscending();
    DescriptorsTailAscending();
    assert DiffersAt(DescriptorValuesHead[|DescriptorValuesHead| - 1], DescriptorValuesTail[0], 0);
    AscendingAppend(DescriptorValuesHead, DescriptorValuesTail);
  }

  /** A group of columns of one field is duplicate-free when its values are. */
  lemma PrefixedDistinct(f: string, values: seq<string>)
    requires Distinct(values)
    ensures Distinct(Prefixed(f, values))
  {
    var cols := Prefixed(f, values);
    forall i, j | 0 <= i < j < |cols| ensures cols[i] != cols[j] {
      SameFieldNames(f, values[i], values[j]);
    }
  }

  /** Groups of separated fields share no column. */
  lemma PrefixedDisjoint(f: string, xs: seq<string>, g: string, ys: seq<string>)
    requires IsEncodedField(f) && IsEncodedField(g) && f != g
    ensures forall c :: c in Prefixed(f, xs) ==> c !in Prefixed(g, ys)
  {
    EncodedFieldsSeparated(f, g);
    forall c | c in Prefixed(f, xs) ensures c !in Prefixed(g, ys) {
      var i :| 0 <= i < |xs| && Prefixed(f, xs)[i] == c;
      PrefixedMember(f, xs[i], g, ys);
    }
  }

  /** Every field's group of reference columns is duplicate-free. */
  lemma GroupsDistinct()
    ensures Distinct(Prefixed(ComplaintTypeKey, ComplaintTypeValues))
    ensures Distinct(Prefixed(DescriptorKey, DescriptorValues))
    ensures Distinct(Prefixed(LocationTypeKey, LocationTypeValues))
    ensures Distinct(Prefixed(BoroughKey, BoroughValues))
    ensures Distinct(Prefixed(ChannelKey, ChannelValues))
    ensures Distinct(Prefixed(ClusterKey, ClusterLabelValues))
  {
    ComplaintTypesAscending();
    AscendingDistinct(ComplaintTypeValues);
    PrefixedDistinct(ComplaintTypeKey, ComplaintTypeValues);
    DescriptorsAscending();
    AscendingDistinct(DescriptorValues);
    PrefixedDistinct(DescriptorKey, DescriptorValues);
    LocationTypesAscending();
    AscendingDistinct(LocationTypeValues);
    PrefixedDistinct(LocationTypeKey, LocationTypeValues);
    BoroughsAscending();
    AscendingDistinct(BoroughValues);
    PrefixedDistinct(BoroughKey, BoroughValues);
    ChannelsAscending();
    AscendingDistinct(ChannelValues);
    PrefixedDistinct(ChannelKey, ChannelValues);
    ClusterLabelsAscending();
    AscendingDistinct(ClusterLabelValues);
    PrefixedDistinct(ClusterKey, ClusterLabelValues);
  }

  /** `dummy_columns` lists no column twice. */
  lemma DummyColumnsDistinct()
    ensures Distinct(DummyColumns)
  {
    var g1 := Prefixed(ComplaintTypeKey, ComplaintTypeValues);
    var g2 := Prefixed(DescriptorKey, DescriptorValues);
    var g3 := Prefixed(LocationTypeKey, LocationTypeValues);
    var g4 := Prefixed(BoroughKey, BoroughValues);
    var g5 := Prefixed(ChannelKey, ChannelValues);
    var g6 := Prefixed(ClusterKey, ClusterLabelValues);
    GroupsDistinct();
    PrefixedDisjoint(ComplaintTypeKey, ComplaintTypeValues, DescriptorKey, DescriptorValues);
    DistinctAppend(g1, g2);
    PrefixedDisjoint(ComplaintTypeKey, ComplaintTypeValues, LocationTypeKey, LocationTypeValues);
    PrefixedDisjoint(DescriptorKey, DescriptorValues, LocationTypeKey, LocationTypeValues);
    DistinctAppend(g1 + g2, g3);
    PrefixedDisjoint(ComplaintTypeKey, ComplaintTypeValues, BoroughKey, BoroughValues);
    PrefixedDisjoint(DescriptorKey, DescriptorValues, BoroughKey, BoroughValues);
    PrefixedDisjoint(LocationTypeKey, LocationTypeValues, BoroughKey, BoroughValues);
    DistinctAppend(g1 + g2 + g3, g4);
    PrefixedDisjoint(ComplaintTypeKey, ComplaintTypeValues, ChannelKey, ChannelValues);
    PrefixedDisjoint(DescriptorKey, DescriptorValues, ChannelKey, ChannelValues);
    PrefixedDisjoint(LocationTypeKey, LocationTypeValues, ChannelKey, ChannelValues);
    PrefixedDisjoint(BoroughKey, BoroughValues, ChannelKey, ChannelValues);
    DistinctAppend(g1 + g2 + g3 + g4, g5);
    PrefixedDisjoint(ComplaintTypeKey, ComplaintTypeValues, ClusterKey, ClusterLabelValues);
    PrefixedDisjoint(DescriptorKey, DescriptorValues, ClusterKey, ClusterLabelValues);
    PrefixedDisjoint(LocationTypeKey, LocationTypeValues, ClusterKey, ClusterLabelValues);
    PrefixedDisjoint(BoroughKey, BoroughValues, ClusterKey, ClusterLabelValues);
    PrefixedDisjoint(ChannelKey, ChannelValues, ClusterKey, ClusterLabelValues);
    DistinctAppend(g1 + g2 + g3 + g4 + g5, g6);
  }
}
