/**
 * The frozen reference column list `dummy_columns` of the classifier: for each
 * encoded field, one `<field>_<value>` column per value seen at training time.
 * The list is written as six field groups whose concatenation is the list,
 * entry for entry and in the same order.
 */
module Reference {
  import opened Request
  import opened Encoding

  /** One reference group: the column `<field>_<value>` for each value, in order. */
  function Prefixed(field: string, values: seq<string>): (cols: seq<string>)
    ensures |cols| == |values|
    ensures forall i :: 0 <= i < |values| ==> cols[i] == DummyName(field, values[i])
  {
    seq(|values|, i requires 0 <= i < |values| => DummyName(field, values[i]))
  }

  /** Complaint types with a reference column. */
  const ComplaintTypeValues: seq<string> := [
    "Animal Abuse",
    "Animal-Abuse",
    "Bike/Roller/Skate Chronic",
    "Blocked Driveway",
    "Derelict Vehicle",
    "Disorderly Youth",
    "Drinking",
    "Drug Activity",
    "Graffiti",
    "Homeless Encampment",
    "Homeless Street Condition",
    "Illegal Fireworks",
    "Illegal Parking",
    "Noise - Commercial",
    "Noise - House of Worship",
    "Noise - Park",
    "Noise - Residential",
    "Noise - Street/Sidewalk",
    "Noise - Vehicle",
    "Non-Emergency Police Matter",
    "Panhandling",
    "Posting Advertisement",
    "Squeegee",
    "Traffic",
    "Urinating in Public",
    "Vending"
  ]

  /** Descriptors with a reference column, `Banging/Pounding` to `Loud Television`. */
  const DescriptorValuesHead: seq<string> := [
    "Banging/Pounding",
    "Blocked Bike Lane",
    "Blocked Hydrant",
    "Blocked Sidewalk",
    "Building",
    "Car/Truck Horn",
    "Car/Truck Music",
    "Chained",
    "Chronic Speeding",
    "Chronic Stoplight Violation",
    "Commercial Overnight Parking",
    "Congestion/Gridlock",
    "Detached Trailer",
    "Double Parked Blocking Traffic",
    "Double Parked Blocking Vehicle",
    "Drag Racing",
    "Engine Idling",
    "In Car",
    "In Prohibited Area",
    "In Public",
    "Loud Music/Party",
    "Loud Talking",
    "Loud Television"
  ]

  /** Descriptors with a reference column, `Neglected` to `none`. */
  const DescriptorValuesTail: seq<string> := [
    "Neglected",
    "No Access",
    "No Shelter",
    "Nuisance/Truant",
    "Other (complaint details)",
    "Overnight Commercial Storage",
    "Parking Permit Improper Use",
    "Partial Access",
    "Playing in Unsuitable Place",
    "Police Report Not Requested",
    "Police Report Requested",
    "Posted Parking Sign Violation",
    "Street Con Game",
    "Ticket Scalping",
    "Tortured",
    "Trespassing",
    "Truck Route Violation",
    "Unauthorized Bus Layover",
    "Underage - Licensed Est",
    "Unlicensed",
    "Use Indoor",
    "Use Outside",
    "Vehicle",
    "With License Plate",
    "none"
  ]

  /** Descriptors with a reference column. */
  const DescriptorValues: seq<string> := DescriptorValuesHead + DescriptorValuesTail

  /** Location types with a reference column. */
  const LocationTypeValues: seq<string> := [
    "Club/Bar/Restaurant",
    "Commercial",
    "Common Area",
    "Hallway",
    "Highway",
    "House and Store",
    "House of Worship",
    "Lobby",
    "Other",
    "Park/Playground",
    "Parking Lot",
    "Residential Building",
    "Residential Building/House",
    "Roadway Tunnel",
    "Stairwell",
    "Store/Commercial",
    "Street/Sidewalk",
    "Subway",
    "Subway Station",
    "Vacant Lot",
    "unknown"
  ]

  /** Boroughs with a reference column. */
  const BoroughValues: seq<string> := [
    "BROOKLYN",
    "MANHATTAN",
    "QUEENS",
    "STATEN ISLAND",
    "Unspecified"
  ]

  /** Reporting channels with a reference column. */
  const ChannelValues: seq<string> := [
    "ONLINE",
    "OTHER",
    "PHONE",
    "UNKNOWN"
  ]

  /** Cluster names with a reference column (`Driveway Queens` has none). */
  const ClusterLabelValues: seq<string> := [
    "Noise Brooklyn",
    "Noise Queens",
    "Parking Manhattan",
    "Parking Queens"
  ]

  /** `dummy_columns`: the 108 reference columns in list order. */
  const DummyColumns: seq<string> :=
    Prefixed(ComplaintTypeKey, ComplaintTypeValues)
    + Prefixed(DescriptorKey, DescriptorValues)
    + Prefixed(LocationTypeKey, LocationTypeValues)
    + Prefixed(BoroughKey, BoroughValues)
    + Prefixed(ChannelKey, ChannelValues)
    + Prefixed(ClusterKey, ClusterLabelValues)

  /** The list has 108 columns: 26 complaint types, 48 descriptors, 21 location types, 5 boroughs, 4 channels, 4 clusters. */
  lemma DummyColumnsWidth()
    ensures |DummyColumns| == 108
  {
    assert |ComplaintTypeValues| == 26 && |DescriptorValues| == 48 && |LocationTypeValues| == 21;
  }

  /** The six encoded fields. */
  predicate IsEncodedField(field: string) {
    field in [BoroughKey, LocationTypeKey, ComplaintTypeKey, ChannelKey, DescriptorKey, ClusterKey]
  }

  /** The values a field has reference columns for. */
  function GroupValues(field: string): seq<string>
  {
    if field == ComplaintTypeKey then ComplaintTypeValues
    else if field == DescriptorKey then DescriptorValues
    else if field == LocationTypeKey then LocationTypeValues
    else if field == BoroughKey then BoroughValues
    else if field == ChannelKey then ChannelValues
    else if field == ClusterKey then ClusterLabelValues
    else []
  }

  /** Two field names whose first two characters differ. */
  predicate Separated(f: string, g: string) {
    |f| >= 2 && |g| >= 2 && (f[0] != g[0] || f[1] != g[1])
  }

  /** Indicator columns of separated fields never coincide. */
  lemma SeparatedNames(f: string, g: string, x: string, y: string)
    requires Separated(f, g)
    ensures DummyName(f, x) != DummyName(g, y)
  {
    assert DummyName(f, x)[0] == f[0] && DummyName(f, x)[1] == f[1];
    assert DummyName(g, y)[0] == g[0] && DummyName(g, y)[1] == g[1];
  }

  /** The indicator column of a field determines its value. */
  lemma SameFieldNames(f: string, x: string, y: string)
    ensures DummyName(f, x) == DummyName(f, y) <==> x == y
  {
    if DummyName(f, x) == DummyName(f, y) {
      assert x == DummyName(f, x)[|f| + 1..];
      assert y == DummyName(f, y)[|f| + 1..];
    }
  }

  /** Any two distinct encoded fields are separated. */
  lemma EncodedFieldsSeparated(f: string, g: string)
    requires IsEncodedField(f) && IsEncodedField(g) && f != g
    ensures Separated(f, g)
  {
  }

  /** A column of field `f` is in the group of field `g` exactly when `f` is `g` and the value is one of the group's values. */
  lemma PrefixedMember(f: string, x: string, g: string, values: seq<string>)
    requires f == g || Separated(f, g)
    ensures DummyName(f, x) in Prefixed(g, values) <==> f == g && x in values
  {
    var cols := Prefixed(g, values);
    if DummyName(f, x) in cols {
      var i :| 0 <= i < |cols| && cols[i] == DummyName(f, x);
      if f == g {
        SameFieldNames(f, x, values[i]);
      } else {
        SeparatedNames(f, g, x, values[i]);
      }
    }
    if f == g && x in values {
      var i :| 0 <= i < |values| && values[i] == x;
      assert cols[i] == DummyName(f, x);
    }
  }

  /** An encoded field's column is a reference column exactly when its value is one of the field's reference values. */
  lemma InDummyColumns(f: string, x: string)
    requires IsEncodedField(f)
    ensures DummyName(f, x) in DummyColumns <==> x in GroupValues(f)
  {
    forall g | IsEncodedField(g) && g != f ensures Separated(f, g) {
      EncodedFieldsSeparated(f, g);
    }
    PrefixedMember(f, x, ComplaintTypeKey, ComplaintTypeValues);
    PrefixedMember(f, x, DescriptorKey, DescriptorValues);
    PrefixedMember(f, x, LocationTypeKey, LocationTypeValues);
    PrefixedMember(f, x, BoroughKey, BoroughValues);
    PrefixedMember(f, x, ChannelKey, ChannelValues);
    PrefixedMember(f, x, ClusterKey, ClusterLabelValues);
  }
}
