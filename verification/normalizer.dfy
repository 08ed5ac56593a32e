/**
 * The complaint-type normaliser of the `/submit` handler: a fixed table rewrites
 * compressed form tokens such as `Noise-Residential` into the display labels the
 * models were trained on, such as `Noise - Residential`. Unknown tokens pass through.
 */
module Normalizer {

  /** The `renamed` table, entries in insertion order: form token, display label. */
  const RenameTable: seq<(string, string)> := [
    ("Noise-Residential", "Noise - Residential"),
    ("IllegalParking", "Illegal Parking"),
    ("BlockedDriveway", "Blocked Driveway"),
    ("Noise-StreetSidewalk", "Noise - Street/Sidewalk"),
    ("Noise-Vehicle", "Noise - Vehicle"),
    ("AbandonedVehicle", "Abandoned Vehicle"),
    ("Noise-Commercial", "Noise - Commercial"),
    ("Non-EmergencyPoliceMatter", "Non-Emergency Police Matter"),
    ("HomelessEncampment", "Homeless Encampment"),
    ("Animal-Abuse", "Animal-Abuse"),
    ("Vending", "Vending"),
    ("Traffic", "Traffic"),
    ("Noise-Park", "Noise - Park"),
    ("Panhandling", "Panhandling"),
    ("DrugActivity", "Drug Activity"),
    ("DerelictVehicle", "Derelict Vehicle"),
    ("Drinking", "Drinking"),
    ("IllegalFireworks", "Illegal Fireworks"),
    ("Bike/Roller/Skate Chronic", "Bike/Roller/Skate Chronic"),
    ("Graffiti", "Graffiti"),
    ("HomelessStreetCondition", "Homeless Street Condition"),
    ("Noise-HouseofWorship", "Noise - House of Worship"),
    ("UrinatinginPublic", "Urinating in Public"),
    ("AnimalAbuse", "Animal Abuse"),
    ("DisorderlyYouth", "Disorderly Youth"),
    ("PostingAdvertisement", "Posting Advertisement"),
    ("Squeegee", "Squeegee")
  ]

  /** No key occurs twice, as in any dictionary. */
  ghost predicate KeysDistinct(table: seq<(string, string)>) {
    forall i, j :: 0 <= i < j < |table| ==> table[i].0 != table[j].0
  }

  /** A label that is also a key is only ever the key of an entry that maps it to itself. */
  ghost predicate Settled(table: seq<(string, string)>) {
    forall i, j :: 0 <= i < |table| && 0 <= j < |table| && table[i].1 == table[j].0 ==> table[j].1 == table[j].0
  }

  /** The table read as a dictionary literal: entries in order, a later key overwriting an earlier one. */
  function AsMap(table: seq<(string, string)>): map<string, string>
    decreases |table|
  {
    if |table| == 0 then map[]
    else AsMap(table[..|table| - 1])[table[|table| - 1].0 := table[|table| - 1].1]
  }

  /** With distinct keys, the dictionary maps each entry's key to its label and has no other key. */
  lemma {:induction false} AsMapLookup(table: seq<(string, string)>)
    requires KeysDistinct(table)
    ensures forall i :: 0 <= i < |table| ==> table[i].0 in AsMap(table) && AsMap(table)[table[i].0] == table[i].1
    ensures forall t :: t in AsMap(table) ==> exists i :: 0 <= i < |table| && table[i].0 == t
    decreases |table|
  {
    if |table| > 0 {
      var init := table[..|table| - 1];
      assert KeysDistinct(init) by {
        forall i, j | 0 <= i < j < |init| ensures init[i].0 != init[j].0 {
          assert init[i] == table[i] && init[j] == table[j];
        }
      }
      AsMapLookup(init);
      forall i | 0 <= i < |table| - 1 ensures table[i].0 in AsMap(table) && AsMap(table)[table[i].0] == table[i].1 {
        assert init[i] == table[i];
      }
      forall t | t in AsMap(table) ensures exists i :: 0 <= i < |table| && table[i].0 == t {
        if t != table[|table| - 1].0 {
          var i :| 0 <= i < |init| && init[i].0 == t;
          assert table[i] == init[i];
        }
      }
    }
  }

  /**
   * The renaming loop: every entry, in table order, whose key equals the current
   * complaint type replaces it by that entry's label.
   */
  function RenameLoop(table: seq<(string, string)>, t: string): string
    decreases |table|
  {
    if |table| == 0 then t
    else RenameLoop(table[1..], if table[0].0 == t then table[0].1 else t)
  }

  /** A value that every matching entry maps to itself survives the loop. */
  lemma {:induction false} LoopKeepsFixedPoint(table: seq<(string, string)>, v: string)
    requires forall j :: 0 <= j < |table| && table[j].0 == v ==> table[j].1 == v
    ensures RenameLoop(table, v) == v
    decreases |table|
  {
    if |table| > 0 {
      LoopKeepsFixedPoint(table[1..], v);
    }
  }

  /** On a settled table with distinct keys, the loop is a single dictionary lookup. */
  lemma {:induction false} RenameLoopIsLookup(table: seq<(string, string)>, t: string)
    requires KeysDistinct(table) && Settled(table)
    ensures RenameLoop(table, t) == if t in AsMap(table) then AsMap(table)[t] else t
    decreases |table|
  {
    if |table| > 0 {
      var rest := table[1..];
      assert KeysDistinct(rest) by {
        forall i, j | 0 <= i < j < |rest| ensures rest[i].0 != rest[j].0 {
          assert rest[i] == table[i + 1] && rest[j] == table[j + 1];
        }
      }
      assert Settled(rest) by {
        forall i, j | 0 <= i < |rest| && 0 <= j < |rest| && rest[i].1 == rest[j].0
          ensures rest[j].1 == rest[j].0
        {
          assert rest[i] == table[i + 1] && rest[j] == table[j + 1];
        }
      }
      if table[0].0 == t {
        forall j | 0 <= j < |rest| && rest[j].0 == table[0].1 ensures rest[j].1 == table[0].1 {
          assert rest[j] == table[j + 1];
        }
        LoopKeepsFixedPoint(rest, table[0].1);
        AsMapLookup(table);
      } else {
        RenameLoopIsLookup(rest, t);
        AsMapLookup(table);
        AsMapLookup(rest);
        if t in AsMap(table) {
          var i :| 0 <= i < |table| && table[i].0 == t;
          assert rest[i - 1] == table[i];
        }
      }
    }
  }

  /** Entry `i`'s key occurs at no later index. */
  lemma KeyUnique(i: nat)
    requires i < |RenameTable|
    ensures forall j :: i < j < |RenameTable| ==> RenameTable[j].0 != RenameTable[i].0
  {
    if i < 7 { KeyUniqueA(i); } else if i < 14 { KeyUniqueB(i); } else if i < 21 { KeyUniqueC(i); } else { KeyUniqueD(i); }
  }

  // `KeyUniqueA` to `KeyUniqueD` each cover a quarter of `RenameTable`, one case per entry, so that
  // each proof obligation over the literal table stays small enough for the solver.
  lemma KeyUniqueA(i: nat)
    requires i < 7
    ensures forall j :: i < j < |RenameTable| ==> RenameTable[j].0 != RenameTable[i].0
  {
    if i == 0 {} else if i == 1 {} else if i == 2 {} else if i == 3 {} else if i == 4 {} else if i == 5 {} else {}
  }

  lemma KeyUniqueB(i: nat)
    requires 7 <= i < 14
    ensures forall j :: i < j < |RenameTable| ==> RenameTable[j].0 != RenameTable[i].0
  {
    if i == 7 {} else if i == 8 {} else if i == 9 {} else if i == 10 {} else if i == 11 {} else if i == 12 {} else {}
  }

  lemma KeyUniqueC(i: nat)
    requires 14 <= i < 21
    ensures forall j :: i < j < |RenameTable| ==> RenameTable[j].0 != RenameTable[i].0
  {
    if i == 14 {} else if i == 15 {} else if i == 16 {} else if i == 17 {} else if i == 18 {} else if i == 19 {} else {}
  }

  lemma KeyUniqueD(i: nat)
    requires 21 <= i < |RenameTable|
    ensures forall j :: i < j < |RenameTable| ==> RenameTable[j].0 != RenameTable[i].0
  {
    if i == 21 {} else if i == 22 {} else if i == 23 {} else if i == 24 {} else if i == 25 {} else {}
  }

  /** Entry `i`'s label is the key of no entry, or of one that maps it to itself. */
  lemma LabelSettled(i: nat)
    requires i < |RenameTable|
    ensures forall j :: 0 <= j < |RenameTable| && RenameTable[j].0 == RenameTable[i].1 ==> RenameTable[j].1 == RenameTable[j].0
  {
    if i < 7 { LabelSettledA(i); } else if i < 14 { LabelSettledB(i); } else if i < 21 { LabelSettledC(i); } else { LabelSettledD(i); }
  }

  // `LabelSettledA` to `LabelSettledD` each cover a quarter of `RenameTable`, one case per entry, so that
  // each proof obligation over the literal table stays small enough for the solver.
  lemma LabelSettledA(i: nat)
    requires i < 7
    ensures forall j :: 0 <= j < |RenameTable| && RenameTable[j].0 == RenameTable[i].1 ==> RenameTable[j].1 == RenameTable[j].0
  {
    if i == 0 {} else if i == 1 {} else if i == 2 {} else if i == 3 {} else if i == 4 {} else if i == 5 {} else {}
  }

  lemma LabelSettledB(i: nat)
    requires 7 <= i < 14
    ensures forall j :: 0 <= j < |RenameTable| && RenameTable[j].0 == RenameTable[i].1 ==> RenameTable[j].1 == RenameTable[j].0
  {
    if i == 7 {} else if i == 8 {} else if i == 9 {} else if i == 10 {} else if i == 11 {} else if i == 12 {} else {}
  }

  lemma LabelSettledC(i: nat)
    requires 14 <= i < 21
    ensures forall j :: 0 <= j < |RenameTable| && RenameTable[j].0 == RenameTable[i].1 ==> RenameTable[j].1 == RenameTable[j].0
  {
    if i == 14 {} else if i == 15 {} else if i == 16 {} else if i == 17 {} else if i == 18 {} else if i == 19 {} else {}
  }

  lemma LabelSettledD(i: nat)
    requires 21 <= i < |RenameTable|
    ensures forall j :: 0 <= j < |RenameTable| && RenameTable[j].0 == RenameTable[i].1 ==> RenameTable[j].1 == RenameTable[j].0
  {
    if i == 21 {} else if i == 22 {} else if i == 23 {} else if i == 24 {} else if i == 25 {} else {}
  }

  /** The `renamed` table is a well-formed dictionary whose labels are settled. */
  lemma RenameTableWellFormed()
    ensures KeysDistinct(RenameTable) && Settled(RenameTable)
  {
    forall i, j | 0 <= i < j < |RenameTable| ensures RenameTable[i].0 != RenameTable[j].0 {
      KeyUnique(i);
    }
    forall i, j | 0 <= i < |RenameTable| && 0 <= j < |RenameTable| && RenameTable[i].1 == RenameTable[j].0
      ensures RenameTable[j].1 == RenameTable[j].0
    {
      LabelSettled(i);
    }
  }

  /** `renamed` as the dictionary the source declares. */
  function Renamed(): map<string, string>
  {
    AsMap(RenameTable)
  }

  /** The complaint type after the renaming loop. */
  function Normalize(t: string): string
  {
    RenameLoop(RenameTable, t)
  }

  /** Normalising returns `renamed[t]` for a key of the table and `t` itself otherwise. */
  lemma NormalizeIsLookup(t: string)
    ensures Normalize(t) == if t in Renamed() then Renamed()[t] else t
  {
    RenameTableWellFormed();
    RenameLoopIsLookup(RenameTable, t);
  }

  /** Each form token of the table normalises to its own label. */
  lemma NormalizeEntry(i: nat)
    requires i < |RenameTable|
    ensures Normalize(RenameTable[i].0) == RenameTable[i].1
  {
    RenameTableWellFormed();
    AsMapLookup(RenameTable);
    NormalizeIsLookup(RenameTable[i].0);
  }

  /** Normalising a display label again changes nothing. */
  lemma NormalizeIdempotent(t: string)
    ensures Normalize(Normalize(t)) == Normalize(t)
  {
    RenameTableWellFormed();
    AsMapLookup(RenameTable);
    NormalizeIsLookup(t);
    var u := Normalize(t);
    NormalizeIsLookup(u);
    if t in Renamed() && u in Renamed() {
      var i :| 0 <= i < |RenameTable| && RenameTable[i].0 == t;
      var j :| 0 <= j < |RenameTable| && RenameTable[j].0 == u;
      assert RenameTable[i].1 == u;
    }
  }
}
