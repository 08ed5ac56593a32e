/**
 * The descriptor selector of the `/submit` handler. The form carries twenty
 * descriptor fields, one per complaint type; the handler scans them in a fixed
 * order, and then forces the sentinel `none` for complaint types that have no
 * descriptor.
 */
module Descriptor {
  import opened Wrappers
  import opened Request

  /** The `descriptors` list: the candidate fields, in scan order. */
  const DescriptorFields: seq<string> := [
    "nr_descriptor",
    "ip_descriptor",
    "bd_descriptor",
    "nv_descriptor",
    "nss_descriptor",
    "av_descriptor",
    "nc_descriptor",
    "nepm_descriptor",
    "aa1_descriptor",
    "v_descriptor",
    "t_descriptor",
    "np_descriptor",
    "da_descriptor",
    "dv_descriptor",
    "d_descriptor",
    "g_descriptor",
    "nhow_descriptor",
    "aa2_descriptor",
    "dy_descriptor",
    "pa_descriptor"
  ]

  /** `comp_no_descriptors`: normalised complaint types that carry no descriptor. */
  const NoDescriptorTypes: seq<string> := [
    "Homeless Encampment",
    "Panhandling",
    "Illegal Fireworks",
    "Bike/Roller/Skate Chronic",
    "Homeless Street Condition",
    "Urinating in Public",
    "Squeegee"
  ]

  /** The sentinel descriptor of a descriptor-less complaint type. */
  const NoneLabel: string := "none"

  /**
   * The scan loop: each field is read from the request in order (an absent one
   * aborts the request), and a non-empty value overwrites the descriptor chosen so far.
   */
  function Scan(args: Args, fields: seq<string>, chosen: Option<string>): Result<Option<string>, Error>
    decreases |fields|
  {
    if |fields| == 0 then Success(chosen)
    else if fields[0] !in args then Failure(MissingParameter(fields[0]))
    else Scan(args, fields[1..], if args[fields[0]] != "" then Some(args[fields[0]]) else chosen)
  }

  /** Every field is a parameter of the request. */
  ghost predicate AllPresent(args: Args, fields: seq<string>) {
    forall i :: 0 <= i < |fields| ==> fields[i] in args
  }

  /** Field `k` is non-empty and every field after it is present and empty. */
  ghost predicate LastNonEmptyAt(args: Args, fields: seq<string>, k: int) {
    && 0 <= k < |fields|
    && fields[k] in args && args[fields[k]] != ""
    && forall j :: k < j < |fields| ==> fields[j] in args && args[fields[j]] == ""
  }

  /** Field `i` is absent and every field before it is present. */
  ghost predicate FirstMissingAt(args: Args, fields: seq<string>, i: int) {
    && 0 <= i < |fields|
    && fields[i] !in args
    && forall k :: 0 <= k < i ==> fields[k] in args
  }

  /** The scan aborts exactly when a field is absent, and then it names the first absent field. */
  lemma {:induction false} ScanFailsOnFirstMissing(args: Args, fields: seq<string>, chosen: Option<string>)
    ensures Scan(args, fields, chosen).Failure? <==> !AllPresent(args, fields)
    ensures forall i :: FirstMissingAt(args, fields, i) ==> Scan(args, fields, chosen) == Failure(MissingParameter(fields[i]))
    decreases |fields|
  {
    if |fields| > 0 && fields[0] in args {
      var rest := fields[1..];
      var next := if args[fields[0]] != "" then Some(args[fields[0]]) else chosen;
      ScanFailsOnFirstMissing(args, rest, next);
      assert AllPresent(args, fields) <==> AllPresent(args, rest) by {
        if AllPresent(args, rest) {
          forall i | 0 <= i < |fields| ensures fields[i] in args {
            if i > 0 { assert fields[i] == rest[i - 1]; }
          }
        }
      }
      forall i | FirstMissingAt(args, fields, i) ensures Scan(args, fields, chosen) == Failure(MissingParameter(fields[i])) {
        assert FirstMissingAt(args, rest, i - 1);
      }
    }
  }

  /**
   * With every field present, the scan chooses the value of the last non-empty
   * field, and keeps what it started with when every field is empty.
   */
  lemma {:induction false} ScanLastWins(args: Args, fields: seq<string>, chosen: Option<string>)
    requires AllPresent(args, fields)
    ensures forall k :: LastNonEmptyAt(args, fields, k) ==> Scan(args, fields, chosen) == Success(Some(args[fields[k]]))
    ensures (forall j :: 0 <= j < |fields| ==> args[fields[j]] == "") ==> Scan(args, fields, chosen) == Success(chosen)
    decreases |fields|
  {
    if |fields| > 0 {
      var rest := fields[1..];
      var next := if args[fields[0]] != "" then Some(args[fields[0]]) else chosen;
      assert AllPresent(args, rest) by {
        forall i | 0 <= i < |rest| ensures rest[i] in args { assert rest[i] == fields[i + 1]; }
      }
      ScanLastWins(args, rest, next);
      forall k | LastNonEmptyAt(args, fields, k) ensures Scan(args, fields, chosen) == Success(Some(args[fields[k]])) {
        if k > 0 {
          assert LastNonEmptyAt(args, rest, k - 1);
        } else {
          assert forall j :: 0 <= j < |rest| ==> args[rest[j]] == "" by {
            forall j | 0 <= j < |rest| ensures args[rest[j]] == "" { assert rest[j] == fields[j + 1]; }
          }
        }
      }
      if forall j :: 0 <= j < |fields| ==> args[fields[j]] == "" {
        assert args[fields[0]] == "";
        assert forall j :: 0 <= j < |rest| ==> args[rest[j]] == "" by {
          forall j | 0 <= j < |rest| ensures args[rest[j]] == "" { assert rest[j] == fields[j + 1]; }
        }
      }
    }
  }

  /** When some field is non-empty and those from `m` on are empty, some field is the last non-empty one. */
  lemma {:induction false} LastNonEmptyExists(args: Args, fields: seq<string>, m: int)
    requires AllPresent(args, fields) && 0 <= m <= |fields|
    requires forall j :: m <= j < |fields| ==> args[fields[j]] == ""
    requires exists j :: 0 <= j < m && args[fields[j]] != ""
    ensures exists k :: LastNonEmptyAt(args, fields, k)
    decreases m
  {
    if args[fields[m - 1]] != "" {
      assert LastNonEmptyAt(args, fields, m - 1);
    } else {
      LastNonEmptyExists(args, fields, m - 1);
    }
  }

  /** No descriptor-less complaint type starts with `N`, so no noise type is one. */
  lemma NoiseHasDescriptor(complaintType: string)
    requires |complaintType| > 0 && complaintType[0] == 'N'
    ensures complaintType !in NoDescriptorTypes
  {
    forall i | 0 <= i < |NoDescriptorTypes| ensures NoDescriptorTypes[i][0] != 'N' {}
  }

  /** The `none` override for descriptor-less complaint types. */
  function ForceNone(complaintType: string, descriptor: Option<string>): Option<string>
  {
    if complaintType in NoDescriptorTypes then Some(NoneLabel) else descriptor
  }

  /**
   * The descriptor the handler assigns: the scan over `fields` from no
   * descriptor, then the override. The handler scans `DescriptorFields`.
   */
  function SelectDescriptor(args: Args, fields: seq<string>, complaintType: string): Result<Option<string>, Error>
  {
    var d :- Scan(args, fields, None);
    Success(ForceNone(complaintType, d))
  }

  /**
   * The selected descriptor: `none` for a descriptor-less complaint type whatever
   * the fields hold; otherwise the last non-empty field, or nothing when all are empty.
   */
  lemma SelectDescriptorSpec(args: Args, fields: seq<string>, complaintType: string)
    requires AllPresent(args, fields)
    ensures SelectDescriptor(args, fields, complaintType).Success?
    ensures complaintType in NoDescriptorTypes ==> SelectDescriptor(args, fields, complaintType).value == Some(NoneLabel)
    ensures complaintType !in NoDescriptorTypes ==>
      forall k :: LastNonEmptyAt(args, fields, k) ==> SelectDescriptor(args, fields, complaintType).value == Some(args[fields[k]])
    ensures SelectDescriptor(args, fields, complaintType).value == None <==>
      complaintType !in NoDescriptorTypes && forall j :: 0 <= j < |fields| ==> args[fields[j]] == ""
  {
    ScanFailsOnFirstMissing(args, fields, None);
    ScanLastWins(args, fields, None);
    if exists j :: 0 <= j < |fields| && args[fields[j]] != "" {
      LastNonEmptyExists(args, fields, |fields|);
    }
  }

  /** A request that fills in exactly one descriptor field gets that field's value. */
  lemma OnlyFilledFieldSelected(args: Args, fields: seq<string>, complaintType: string, k: int)
    requires AllPresent(args, fields)
    requires 0 <= k < |fields| && args[fields[k]] != ""
    requires forall j :: 0 <= j < |fields| && j != k ==> args[fields[j]] == ""
    requires complaintType !in NoDescriptorTypes
    ensures SelectDescriptor(args, fields, complaintType) == Success(Some(args[fields[k]]))
  {
    SelectDescriptorSpec(args, fields, complaintType);
    assert LastNonEmptyAt(args, fields, k);
  }
}
