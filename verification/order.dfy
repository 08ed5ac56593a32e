/**
 * Character-code order on strings, the order in which `get_dummies` lists the
 * indicator columns of one field. A strictly ascending list has no duplicates.
 */
module Order {
  import opened Encoding

  /** `a` and `b` agree before position `k`, where `a` ends or has the smaller character. */
  ghost predicate DiffersAt(a: string, b: string, k: int) {
    && 0 <= k <= |a| && k < |b|
    && a[..k] == b[..k]
    && (k < |a| ==> a[k] < b[k])
  }

  /** `a` sorts strictly before `b`. */
  ghost predicate Below(a: string, b: string) {
    exists k :: DiffersAt(a, b, k)
  }

  /** Every element sorts strictly before the next. */
  ghost predicate Ascending(s: seq<string>) {
    forall i :: 0 <= i < |s| - 1 ==> Below(s[i], s[i + 1])
  }

  /** Strings that agree on a prefix agree on every shorter prefix and at every position inside it. */
  lemma PrefixAgree(a: string, b: string, k: int, m: int)
    requires 0 <= m <= k <= |a| && k <= |b| && a[..k] == b[..k]
    ensures a[..m] == b[..m]
    ensures forall i :: 0 <= i < k ==> a[i] == b[i]
  {
    assert a[..m] == a[..k][..m];
    assert b[..m] == b[..k][..m];
    forall i | 0 <= i < k ensures a[i] == b[i] {
      assert a[i] == a[..k][i];
      assert b[i] == b[..k][i];
    }
  }

  /** No string sorts before itself. */
  lemma BelowIrreflexive(a: string)
    ensures !Below(a, a)
  {
  }

  /** The order is transitive. */
  lemma BelowTransitive(a: string, b: string, c: string)
    requires Below(a, b) && Below(b, c)
    ensures Below(a, c)
  {
    var k1 :| DiffersAt(a, b, k1);
    var k2 :| DiffersAt(b, c, k2);
    var k := if k1 < k2 then k1 else k2;
    PrefixAgree(a, b, k1, k);
    PrefixAgree(b, c, k2, k);
    assert DiffersAt(a, c, k);
  }

  /** In an ascending list every element sorts before every later one. */
  lemma {:induction false} AscendingBelow(s: seq<string>, i: int, j: int)
    requires Ascending(s) && 0 <= i < j < |s|
    ensures Below(s[i], s[j])
    decreases j - i
  {
    if j > i + 1 {
      AscendingBelow(s, i, j - 1);
      BelowTransitive(s[i], s[j - 1], s[j]);
    }
  }

  /** An ascending list has no duplicates. */
  lemma AscendingDistinct(s: seq<string>)
    requires Ascending(s)
    ensures Distinct(s)
  {
    forall i, j | 0 <= i < j < |s| ensures s[i] != s[j] {
      AscendingBelow(s, i, j);
      BelowIrreflexive(s[i]);
    }
  }

  /** Two ascending lists joined where the first ends below the start of the second form one ascending list. */
  lemma AscendingAppend(a: seq<string>, b: seq<string>)
    requires Ascending(a) && Ascending(b) && |a| > 0 && |b| > 0
    requires Below(a[|a| - 1], b[0])
    ensures Ascending(a + b)
  {
    forall i | 0 <= i < |a| + |b| - 1 ensures Below((a + b)[i], (a + b)[i + 1]) {
      if i >= |a| {
        assert (a + b)[i] == b[i - |a|] && (a + b)[i + 1] == b[i + 1 - |a|];
      }
    }
  }
}
