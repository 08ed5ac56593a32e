/**
 * The categorical record the `/submit` handler of app.py and app2.py builds from
 * the query string before clustering: the four copied fields, the normalised
 * complaint type and the selected descriptor. The descriptor fields are a
 * parameter; the handler reads `DescriptorFields`.
 */
module Complaint {
  import opened Wrappers
  import opened Request
  import opened Normalizer
  import opened Descriptor
  import opened Cluster

  /** The `data` dict before clustering; `descriptor` is absent when it was never assigned. */
  datatype Record = Record(
    borough: string,
    locationType: string,
    complaintType: string,
    channel: string,
    descriptor: Option<string>)

  /** The values the confirmation page shows. */
  datatype Confirmation = Confirmation(
    borough: string,
    locationType: string,
    complaintType: string,
    descriptor: string,
    cluster: ClusterValue,
    channel: string)

  /** Rendering the confirmation page, which reads `data['descriptor']`. */
  function Confirm(rec: Record, cluster: ClusterValue): Result<Confirmation, Error>
  {
    match rec.descriptor
    case None => Failure(DescriptorUnset)
    case Some(d) => Success(Confirmation(rec.borough, rec.locationType, rec.complaintType, d, cluster, rec.channel))
  }

  /** The query parameters the handler reads, in the order it reads them. */
  function Required(fields: seq<string>): (p: seq<string>)
    ensures |p| == 4 + |fields|
    ensures p[0] == BoroughKey && p[1] == LocationTypeKey && p[2] == ComplaintTypeKey && p[3] == ChannelKey
    ensures forall i :: 0 <= i < |fields| ==> p[i + 4] == fields[i]
  {
    [BoroughKey, LocationTypeKey, ComplaintTypeKey, ChannelKey] + fields
  }

  /** Build the record: copy four fields, normalise the complaint type, select the descriptor. */
  function ReadRecord(args: Args, fields: seq<string>): Result<Record, Error>
  {
    var borough :- Param(args, BoroughKey);
    var locationType :- Param(args, LocationTypeKey);
    var complaintType :- Param(args, ComplaintTypeKey);
    var channel :- Param(args, ChannelKey);
    var normalized := Normalize(complaintType);
    var descriptor :- SelectDescriptor(args, fields, normalized);
    Success(Record(borough, locationType, normalized, channel, descriptor))
  }

  /** Every required parameter is present exactly when the four copied keys and every descriptor field are. */
  lemma RequiredPresent(args: Args, fields: seq<string>)
    ensures AllPresent(args, Required(fields)) <==>
      BoroughKey in args && LocationTypeKey in args && ComplaintTypeKey in args && ChannelKey in args && AllPresent(args, fields)
  {
    var p := Required(fields);
    if BoroughKey in args && LocationTypeKey in args && ComplaintTypeKey in args && ChannelKey in args && AllPresent(args, fields) {
      forall i | 0 <= i < |p| ensures p[i] in args {
        if i >= 4 { assert p[i] == fields[i - 4]; }
      }
    }
    if AllPresent(args, p) {
      forall i | 0 <= i < |fields| ensures fields[i] in args {
        assert p[i + 4] == fields[i];
      }
    }
  }

  /** The record cannot be built exactly when a parameter is missing, and the error names the first one read. */
  lemma ReadRecordErrors(args: Args, fields: seq<string>)
    ensures ReadRecord(args, fields).Failure? <==> !AllPresent(args, Required(fields))
    ensures forall i :: FirstMissingAt(args, Required(fields), i) ==>
      ReadRecord(args, fields) == Failure(MissingParameter(Required(fields)[i]))
  {
    var p := Required(fields);
    RequiredPresent(args, fields);
    if BoroughKey !in args {
      assert FirstMissingAt(args, p, 0);
    } else if LocationTypeKey !in args {
      assert FirstMissingAt(args, p, 1);
    } else if ComplaintTypeKey !in args {
      assert FirstMissingAt(args, p, 2);
    } else if ChannelKey !in args {
      assert FirstMissingAt(args, p, 3);
    } else {
      ScanFailsOnFirstMissing(args, fields, None);
      forall i | FirstMissingAt(args, p, i) ensures ReadRecord(args, fields) == Failure(MissingParameter(p[i])) {
        assert FirstMissingAt(args, fields, i - 4);
      }
    }
    forall i, j | FirstMissingAt(args, p, i) && FirstMissingAt(args, p, j) ensures i == j {}
  }

  /**
   * With every parameter present the record is built: borough, location type and
   * channel are copied and the complaint type is normalised.
   */
  lemma ReadRecordFields(args: Args, fields: seq<string>)
    requires AllPresent(args, Required(fields))
    ensures BoroughKey in args && LocationTypeKey in args && ComplaintTypeKey in args && ChannelKey in args
    ensures ReadRecord(args, fields).Success?
    ensures ReadRecord(args, fields).value.borough == args[BoroughKey]
    ensures ReadRecord(args, fields).value.locationType == args[LocationTypeKey]
    ensures ReadRecord(args, fields).value.channel == args[ChannelKey]
    ensures ReadRecord(args, fields).value.complaintType == Normalize(args[ComplaintTypeKey])
  {
    RequiredPresent(args, fields);
    SelectDescriptorSpec(args, fields, Normalize(args[ComplaintTypeKey]));
  }

  /**
   * The record's descriptor: `none` when the normalised complaint type is
   * descriptor-less, whatever the fields hold; otherwise the last non-empty
   * descriptor field; and absent when every field is empty.
   */
  lemma ReadRecordDescriptor(args: Args, fields: seq<string>)
    requires AllPresent(args, Required(fields))
    ensures AllPresent(args, fields)
    ensures ReadRecord(args, fields).Success?
    ensures var r := ReadRecord(args, fields).value;
      r.complaintType in NoDescriptorTypes ==> r.descriptor == Some(NoneLabel)
    ensures var r := ReadRecord(args, fields).value;
      r.complaintType !in NoDescriptorTypes ==>
        forall k :: LastNonEmptyAt(args, fields, k) ==> r.descriptor == Some(args[fields[k]])
    ensures var r := ReadRecord(args, fields).value;
      r.descriptor == None <==> r.complaintType !in NoDescriptorTypes && forall j :: 0 <= j < |fields| ==> args[fields[j]] == ""
  {
    RequiredPresent(args, fields);
    SelectDescriptorSpec(args, fields, Normalize(args[ComplaintTypeKey]));
  }
}
