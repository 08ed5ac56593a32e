/**
 * The feature-vector builder: one-hot encoding of a single-row record, then
 * reconciliation of the generated columns against a frozen reference list: columns
 * outside the list are dropped, and every list column still missing is appended with
 * value 0, in list order.
 */
module Encoding {

  /** A column of the single-row frame: its name and its one cell. */
  type Column = (string, int)

  /** A single-row frame, columns in frame order. */
  type Row = seq<Column>

  /** No element occurs twice. */
  ghost predicate Distinct<T>(s: seq<T>) {
    forall i, j :: 0 <= i < j < |s| ==> s[i] != s[j]
  }

  /** Removing the first element keeps a sequence duplicate-free. */
  lemma DistinctTail<T>(s: seq<T>)
    requires |s| > 0 && Distinct(s)
    ensures Distinct(s[1..]) && s[0] !in s[1..]
  {
    forall i, j | 0 <= i < j < |s| - 1 ensures s[1..][i] != s[1..][j] {
      assert s[1..][i] == s[i + 1] && s[1..][j] == s[j + 1];
    }
    forall i | 0 <= i < |s| - 1 ensures s[1..][i] != s[0] {
      assert s[1..][i] == s[i + 1];
    }
  }

  /** Prepending a new element keeps a sequence duplicate-free. */
  lemma DistinctCons<T>(x: T, s: seq<T>)
    requires Distinct(s) && x !in s
    ensures Distinct([x] + s)
  {
    forall i, j | 0 <= i < j < |s| + 1 ensures ([x] + s)[i] != ([x] + s)[j] {
      if i > 0 {
        assert ([x] + s)[i] == s[i - 1] && ([x] + s)[j] == s[j - 1];
      }
    }
  }

  /** Joining two duplicate-free sequences with no common element gives a duplicate-free sequence. */
  lemma DistinctAppend<T>(a: seq<T>, b: seq<T>)
    requires Distinct(a) && Distinct(b)
    requires forall x :: x in a ==> x !in b
    ensures Distinct(a + b)
  {
    forall i, j | 0 <= i < j < |a| + |b| ensures (a + b)[i] != (a + b)[j] {
      if j < |a| {
        assert (a + b)[i] == a[i] && (a + b)[j] == a[j];
      } else if i < |a| {
        assert (a + b)[i] == a[i] && (a + b)[j] == b[j - |a|];
        assert b[j - |a|] in b;
      } else {
        assert (a + b)[i] == b[i - |a|] && (a + b)[j] == b[j - |a|];
      }
    }
  }

  /** The column names of a row, in order. */
  function Names(row: Row): (names: seq<string>)
    ensures |names| == |row|
    ensures forall i :: 0 <= i < |row| ==> names[i] == row[i].0
  {
    seq(|row|, i requires 0 <= i < |row| => row[i].0)
  }

  /** The indicator column name `<field>_<value>` that `get_dummies` generates. */
  function DummyName(field: string, value: string): string
  {
    field + "_" + value
  }

  /** `get_dummies` on a one-row frame of (field, value) pairs: one column `<field>_<value>` per field, holding 1. */
  function OneHot(record: seq<(string, string)>): (row: Row)
    ensures |row| == |record|
    ensures forall i :: 0 <= i < |record| ==> row[i] == (DummyName(record[i].0, record[i].1), 1)
  {
    seq(|record|, i requires 0 <= i < |record| => (DummyName(record[i].0, record[i].1), 1))
  }

  /** The drop step: the generated columns whose name is in the reference list, in frame order. */
  function DropUnknown(row: Row, reference: seq<string>): Row
    decreases |row|
  {
    if |row| == 0 then []
    else (if row[0].0 in reference then [row[0]] else []) + DropUnknown(row[1..], reference)
  }

  /**
   * The insert loop: for each reference column in list order, one not yet among
   * the frame's columns is appended with value 0.
   */
  function AppendMissing(row: Row, reference: seq<string>): Row
    decreases |reference|
  {
    if |reference| == 0 then row
    else AppendMissing(if reference[0] in Names(row) then row else row + [(reference[0], 0)], reference[1..])
  }

  /** The whole reconciliation: drop, then insert. */
  function Reconcile(row: Row, reference: seq<string>): Row
  {
    AppendMissing(DropUnknown(row, reference), reference)
  }

  /** The reference columns absent from `present`, in reference order. */
  function Missing(reference: seq<string>, present: seq<string>): seq<string>
    decreases |reference|
  {
    if |reference| == 0 then []
    else (if reference[0] in present then [] else [reference[0]]) + Missing(reference[1..], present)
  }

  /** Zero-valued columns with the given names. */
  function Zeros(names: seq<string>): Row
  {
    seq(|names|, i requires 0 <= i < |names| => (names[i], 0))
  }

  // ----- the drop step -----

  /** A column survives the drop exactly when it was generated and its name is a reference column. */
  lemma {:induction false} DropUnknownMembers(row: Row, reference: seq<string>)
    ensures forall c :: c in DropUnknown(row, reference) <==> c in row && c.0 in reference
    decreases |row|
  {
    if |row| > 0 {
      DropUnknownMembers(row[1..], reference);
      assert row == [row[0]] + row[1..];
    }
  }

  /** The surviving column names are the generated names that are reference columns. */
  lemma {:induction false} DropUnknownNames(row: Row, reference: seq<string>)
    ensures forall c :: c in Names(DropUnknown(row, reference)) <==> c in Names(row) && c in reference
    decreases |row|
  {
    if |row| > 0 {
      DropUnknownNames(row[1..], reference);
      assert Names(row) == [row[0].0] + Names(row[1..]);
      var head := if row[0].0 in reference then [row[0]] else [];
      assert Names(DropUnknown(row, reference)) == Names(head) + Names(DropUnknown(row[1..], reference));
    }
  }

  /** Dropping keeps the surviving columns in their frame order. */
  lemma {:induction false} DropUnknownKeepsOrder(row: Row, reference: seq<string>, i: int, j: int)
    requires 0 <= i < j < |row| && row[i].0 in reference && row[j].0 in reference
    ensures exists p, q :: 0 <= p < q < |DropUnknown(row, reference)| && DropUnknown(row, reference)[p] == row[i] && DropUnknown(row, reference)[q] == row[j]
    decreases |row|
  {
    var rest := DropUnknown(row[1..], reference);
    var d := DropUnknown(row, reference);
    if i == 0 {
      DropUnknownMembers(row[1..], reference);
      assert row[j] == row[1..][j - 1];
      var q :| 0 <= q < |rest| && rest[q] == row[j];
      assert d == [row[0]] + rest;
      assert d[0] == row[i] && d[q + 1] == row[j];
    } else {
      DropUnknownKeepsOrder(row[1..], reference, i - 1, j - 1);
      var p, q :| 0 <= p < q < |rest| && rest[p] == row[i] && rest[q] == row[j];
      var head := if row[0].0 in reference then [row[0]] else [];
      assert d == head + rest;
      assert d[|head| + p] == row[i] && d[|head| + q] == row[j];
    }
  }

  /** Distinct generated columns stay distinct after the drop. */
  lemma {:induction false} DropUnknownDistinct(row: Row, reference: seq<string>)
    requires Distinct(Names(row))
    ensures Distinct(Names(DropUnknown(row, reference)))
    decreases |row|
  {
    if |row| > 0 {
      var rest := row[1..];
      DistinctTail(Names(row));
      assert Names(row)[1..] == Names(rest);
      DropUnknownDistinct(rest, reference);
      var dr := DropUnknown(rest, reference);
      if row[0].0 in reference {
        DropUnknownMembers(rest, reference);
        assert row[0].0 !in Names(dr) by {
          forall k | 0 <= k < |dr| ensures dr[k].0 != row[0].0 {
            assert dr[k] in rest;
            var m :| 0 <= m < |rest| && rest[m] == dr[k];
            assert Names(rest)[m] == dr[k].0;
          }
        }
        DistinctCons(row[0].0, Names(dr));
        assert Names(DropUnknown(row, reference)) == [row[0].0] + Names(dr);
      }
    }
  }

  // ----- the insert step -----

  /**
   * The insert loop keeps the frame as its prefix, appends only zero-valued reference
   * columns that the frame lacked, leaves every reference column present, and never
   * creates a duplicate column.
   */
  lemma {:induction false} AppendMissingSpec(row: Row, reference: seq<string>)
    ensures |AppendMissing(row, reference)| >= |row|
    ensures AppendMissing(row, reference)[..|row|] == row
    ensures forall k :: |row| <= k < |AppendMissing(row, reference)| ==>
      && AppendMissing(row, reference)[k].1 == 0
      && AppendMissing(row, reference)[k].0 in reference
      && AppendMissing(row, reference)[k].0 !in Names(row)
    ensures forall c :: c in Names(AppendMissing(row, reference)) <==> c in Names(row) || c in reference
    ensures Distinct(Names(row)) ==> Distinct(Names(AppendMissing(row, reference)))
    decreases |reference|
  {
    if |reference| > 0 {
      var c := reference[0];
      var next := if c in Names(row) then row else row + [(c, 0)];
      AppendMissingSpec(next, reference[1..]);
      var r := AppendMissing(next, reference[1..]);
      assert r == AppendMissing(row, reference);
      if c !in Names(row) {
        assert Names(next) == Names(row) + [c];
        assert r[..|row|] == r[..|next|][..|row|];
        forall k | |row| <= k < |r| ensures r[k].1 == 0 && r[k].0 in reference && r[k].0 !in Names(row) {
          if k == |row| {
            assert r[k] == r[..|next|][k] == (c, 0);
          } else {
            assert r[k].0 !in Names(next);
          }
        }
        if Distinct(Names(row)) {
          assert Distinct(Names(next)) by {
            forall i, j | 0 <= i < j < |next| ensures Names(next)[i] != Names(next)[j] {
              if j == |row| {
                assert Names(next)[i] == Names(row)[i];
              } else {
                assert Names(next)[i] == Names(row)[i] && Names(next)[j] == Names(row)[j];
              }
            }
          }
        }
      }
    }
  }

  /** The reference columns missing from a frame with one more column `c` that is not a later reference column. */
  lemma {:induction false} MissingIgnoresExtra(reference: seq<string>, present: seq<string>, c: string)
    requires c !in reference
    ensures Missing(reference, present + [c]) == Missing(reference, present)
    decreases |reference|
  {
    if |reference| > 0 {
      MissingIgnoresExtra(reference[1..], present, c);
    }
  }

  /** On a duplicate-free reference list, the insert loop appends exactly the missing columns, in reference order. */
  lemma {:induction false} AppendMissingOrder(row: Row, reference: seq<string>)
    requires Distinct(reference)
    ensures AppendMissing(row, reference) == row + Zeros(Missing(reference, Names(row)))
    decreases |reference|
  {
    if |reference| > 0 {
      var c := reference[0];
      var rest := reference[1..];
      DistinctTail(reference);
      if c in Names(row) {
        AppendMissingOrder(row, rest);
      } else {
        var next := row + [(c, 0)];
        AppendMissingOrder(next, rest);
        assert Names(next) == Names(row) + [c];
        MissingIgnoresExtra(rest, Names(row), c);
        assert Missing(reference, Names(row)) == [c] + Missing(rest, Names(row));
        assert Zeros([c] + Missing(rest, Names(row))) == [(c, 0)] + Zeros(Missing(rest, Names(row)));
      }
    }
  }

  // ----- the whole reconciliation -----

  /** A duplicate-free sequence has as many distinct elements as it has elements. */
  lemma {:induction false} DistinctCardinality<T>(s: seq<T>)
    requires Distinct(s)
    ensures |set x | x in s| == |s|
    decreases |s|
  {
    if |s| > 0 {
      var rest := s[1..];
      DistinctTail(s);
      DistinctCardinality(rest);
      assert (set x | x in s) == {s[0]} + (set x | x in rest) by {
        assert s == [s[0]] + rest;
      }
    }
  }

  /**
   * Reconciliation produces exactly the reference columns, without duplicates
   * when the generated columns had none, and as many columns as the reference list
   * when that list is duplicate-free too.
   */
  lemma ReconcileShape(row: Row, reference: seq<string>)
    ensures forall c :: c in Names(Reconcile(row, reference)) <==> c in reference
    ensures Distinct(Names(row)) ==> Distinct(Names(Reconcile(row, reference)))
    ensures Distinct(Names(row)) && Distinct(reference) ==> |Reconcile(row, reference)| == |reference|
  {
    var d := DropUnknown(row, reference);
    var r := Reconcile(row, reference);
    DropUnknownMembers(row, reference);
    AppendMissingSpec(d, reference);
    forall c | c in Names(d) ensures c in reference {
      var k :| 0 <= k < |d| && Names(d)[k] == c;
      assert d[k] in d;
    }
    if Distinct(Names(row)) {
      DropUnknownDistinct(row, reference);
      if Distinct(reference) {
        DistinctCardinality(Names(r));
        DistinctCardinality(reference);
        assert (set x | x in Names(r)) == (set x | x in reference);
      }
    }
  }

  /** The reconciled frame is the surviving generated columns in frame order, then the missing reference columns at 0 in reference order. */
  lemma ReconcileLayout(row: Row, reference: seq<string>)
    requires Distinct(reference)
    ensures Reconcile(row, reference)
      == DropUnknown(row, reference) + Zeros(Missing(reference, Names(DropUnknown(row, reference))))
  {
    AppendMissingOrder(DropUnknown(row, reference), reference);
  }

  /**
   * For a one-hot frame, a reconciled column holds 1 exactly when it was generated
   * and 0 otherwise: surviving columns keep their 1 and inserted ones are 0.
   */
  lemma ReconcileIndicator(row: Row, reference: seq<string>)
    requires forall i :: 0 <= i < |row| ==> row[i].1 == 1
    ensures forall k :: 0 <= k < |Reconcile(row, reference)| ==>
      Reconcile(row, reference)[k].1 == if Reconcile(row, reference)[k].0 in Names(row) then 1 else 0
  {
    var d := DropUnknown(row, reference);
    var r := Reconcile(row, reference);
    DropUnknownMembers(row, reference);
    DropUnknownNames(row, reference);
    AppendMissingSpec(d, reference);
    forall k | 0 <= k < |d| ensures r[k] == d[k] && r[k].0 in Names(row) && r[k].1 == 1 {
      assert r[k] == r[..|d|][k];
      assert d[k] in row;
    }
  }
}
