/**
 * The cluster relabeller: the clustering model returns an integer id, which the
 * handler replaces by a human-readable cluster name through a fixed table.
 */
module Cluster {

  /** `data['cluster_predicted']`: the model's integer id, or a name once relabelled. */
  datatype ClusterValue = Id(id: int) | Name(name: string)

  /** The `cluster_names` table, entries in insertion order: id, name. */
  const ClusterNames: seq<(int, string)> := [
    (0, "Noise Brooklyn"),
    (1, "Noise Queens"),
    (2, "Parking Queens"),
    (3, "Driveway Queens"),
    (4, "Parking Manhattan")
  ]

  /**
   * The relabelling loop: every entry, in table order, whose id equals the current
   * value replaces it by that entry's name. A name never equals an integer id.
   */
  function RelabelLoop(table: seq<(int, string)>, v: ClusterValue): ClusterValue
    decreases |table|
  {
    if |table| == 0 then v
    else RelabelLoop(table[1..], if v == Id(table[0].0) then Name(table[0].1) else v)
  }

  /** The index of the first entry with id `k`, if any. */
  function FirstIdIndex(table: seq<(int, string)>, k: int): (r: int)
    ensures -1 <= r < |table|
    ensures r >= 0 ==> table[r].0 == k && forall j :: 0 <= j < r ==> table[j].0 != k
    ensures r < 0 ==> forall j :: 0 <= j < |table| ==> table[j].0 != k
    decreases |table|
  {
    if |table| == 0 then -1
    else if table[0].0 == k then 0
    else
      var r := FirstIdIndex(table[1..], k);
      if r < 0 then -1 else r + 1
  }

  /** A name passes through the loop unchanged. */
  lemma {:induction false} RelabelKeepsName(table: seq<(int, string)>, s: string)
    ensures RelabelLoop(table, Name(s)) == Name(s)
    decreases |table|
  {
    if |table| > 0 {
      RelabelKeepsName(table[1..], s);
    }
  }

  /** The loop is a single lookup: the first matching entry's name for an id, the value itself otherwise. */
  lemma {:induction false} RelabelLoopIsLookup(table: seq<(int, string)>, v: ClusterValue)
    ensures v.Name? ==> RelabelLoop(table, v) == v
    ensures v.Id? && FirstIdIndex(table, v.id) >= 0 ==> RelabelLoop(table, v) == Name(table[FirstIdIndex(table, v.id)].1)
    ensures v.Id? && FirstIdIndex(table, v.id) < 0 ==> RelabelLoop(table, v) == v
    decreases |table|
  {
    if v.Name? {
      RelabelKeepsName(table, v.name);
    } else if |table| > 0 {
      if table[0].0 == v.id {
        RelabelKeepsName(table[1..], table[0].1);
      } else {
        RelabelLoopIsLookup(table[1..], v);
      }
    }
  }

  /** The relabelled cluster. */
  function Relabel(v: ClusterValue): ClusterValue
  {
    RelabelLoop(ClusterNames, v)
  }

  /** Ids 0 to 4 become the five fixed cluster names; any other id, and any name, is unchanged. */
  lemma RelabelSpec(v: ClusterValue)
    ensures v == Id(0) ==> Relabel(v) == Name("Noise Brooklyn")
    ensures v == Id(1) ==> Relabel(v) == Name("Noise Queens")
    ensures v == Id(2) ==> Relabel(v) == Name("Parking Queens")
    ensures v == Id(3) ==> Relabel(v) == Name("Driveway Queens")
    ensures v == Id(4) ==> Relabel(v) == Name("Parking Manhattan")
    ensures !(v.Id? && 0 <= v.id < 5) ==> Relabel(v) == v
  {
    RelabelLoopIsLookup(ClusterNames, v);
    if v.Id? {
      var r := FirstIdIndex(ClusterNames, v.id);
      if 0 <= v.id < 5 {
        assert ClusterNames[v.id].0 == v.id;
        assert r == v.id;
      } else {
        assert r < 0;
      }
    }
  }

  /** Relabelling an id is a lookup in the table: ids 0 to 4 get the name at that index, others stay. */
  lemma RelabelIsLookup(k: int)
    ensures Relabel(Id(k)) == if 0 <= k < |ClusterNames| then Name(ClusterNames[k].1) else Id(k)
  {
    RelabelSpec(Id(k));
  }

  /** The decimal digits of a natural number. */
  function Digits(n: nat): (s: string)
    ensures |s| > 0 && '0' <= s[0] <= '9'
    decreases n
  {
    if n < 10 then ["0123456789"[n]] else Digits(n / 10) + ["0123456789"[n % 10]]
  }

  /** The text `get_dummies` puts after `cluster_predicted_`: the name, or the id in decimal. */
  function CellText(v: ClusterValue): string
  {
    match v
    case Name(s) => s
    case Id(k) => if k < 0 then "-" + Digits(-k) else Digits(k)
  }
}
