/**
 * The `/submit` handler of the earlier draft test.py: a single `descriptor`
 * parameter taken as given, a fixed channel, the same complaint-type normaliser
 * and cluster relabeller, and no descriptor override. The clustering model is a
 * parameter.
 */
module Draft {
  import opened Wrappers
  import opened Request
  import opened Normalizer
  import opened Descriptor
  import opened Cluster

  /** The channel the draft records for every request. */
  const OnlineChannel: string := "ONLINE"

  /** The query parameters the draft reads, in the order it reads them. */
  const DraftParams: seq<string> := [BoroughKey, LocationTypeKey, ComplaintTypeKey, DescriptorKey]

  /** The draft's `data` dict before clustering. */
  datatype DraftRecord = DraftRecord(
    borough: string,
    locationType: string,
    complaintType: string,
    descriptor: string,
    channel: string)

  /** The values the draft's confirmation page shows. */
  datatype DraftPage = DraftPage(
    borough: string,
    locationType: string,
    complaintType: string,
    descriptor: string,
    cluster: ClusterValue)

  /** Build the draft record: copy three fields and the descriptor, fix the channel, normalise the complaint type. */
  function ReadDraftRecord(args: Args): Result<DraftRecord, Error>
  {
    var borough :- Param(args, BoroughKey);
    var locationType :- Param(args, LocationTypeKey);
    var complaintType :- Param(args, ComplaintTypeKey);
    var descriptor :- Param(args, DescriptorKey);
    Success(DraftRecord(borough, locationType, Normalize(complaintType), descriptor, OnlineChannel))
  }

  /** The handler: `predictCluster` stands for `km.predict` on the record's one-row frame. */
  function Submit(args: Args, predictCluster: DraftRecord -> int): Result<DraftPage, Error>
  {
    var rec :- ReadDraftRecord(args);
    var cluster := Relabel(Id(predictCluster(rec)));
    Success(DraftPage(rec.borough, rec.locationType, rec.complaintType, rec.descriptor, cluster))
  }

  /** The draft's parameters are present exactly when its four keys are. */
  lemma DraftParamsPresent(args: Args)
    ensures AllPresent(args, DraftParams) <==>
      BoroughKey in args && LocationTypeKey in args && ComplaintTypeKey in args && DescriptorKey in args
  {
    assert DraftParams[0] == BoroughKey && DraftParams[1] == LocationTypeKey;
    assert DraftParams[2] == ComplaintTypeKey && DraftParams[3] == DescriptorKey;
  }

  /** The draft fails exactly when one of its four parameters is missing, naming the first one read. */
  lemma SubmitErrors(args: Args, predictCluster: DraftRecord -> int)
    ensures Submit(args, predictCluster).Failure? <==> !AllPresent(args, DraftParams)
    ensures forall i :: FirstMissingAt(args, DraftParams, i) ==>
      Submit(args, predictCluster) == Failure(MissingParameter(DraftParams[i]))
  {
    var p := DraftParams;
    assert p[0] == BoroughKey && p[1] == LocationTypeKey && p[2] == ComplaintTypeKey && p[3] == DescriptorKey;
    DraftParamsPresent(args);
    if BoroughKey !in args {
      assert FirstMissingAt(args, p, 0);
    } else if LocationTypeKey !in args {
      assert FirstMissingAt(args, p, 1);
    } else if ComplaintTypeKey !in args {
      assert FirstMissingAt(args, p, 2);
    } else if DescriptorKey !in args {
      assert FirstMissingAt(args, p, 3);
    }
    forall i, j | FirstMissingAt(args, p, i) && FirstMissingAt(args, p, j) ensures i == j {}
  }

  /**
   * With its four parameters present the draft always renders: borough, location
   * type and descriptor as given, even for a descriptor-less complaint type, and
   * the complaint type normalised. The record it clusters has channel `ONLINE`,
   * whatever the request says.
   */
  lemma SubmitPage(args: Args, predictCluster: DraftRecord -> int)
    requires AllPresent(args, DraftParams)
    ensures BoroughKey in args && LocationTypeKey in args && ComplaintTypeKey in args && DescriptorKey in args
    ensures ReadDraftRecord(args).Success? && ReadDraftRecord(args).value.channel == OnlineChannel
    ensures Submit(args, predictCluster).Success?
    ensures var page := Submit(args, predictCluster).value;
      && page.borough == args[BoroughKey]
      && page.locationType == args[LocationTypeKey]
      && page.complaintType == Normalize(args[ComplaintTypeKey])
      && page.descriptor == args[DescriptorKey]
  {
    DraftParamsPresent(args);
  }

  /** The page shows cluster ids 0 to 4 by their table names and any other id unchanged. */
  lemma SubmitCluster(args: Args, predictCluster: DraftRecord -> int)
    requires AllPresent(args, DraftParams)
    ensures ReadDraftRecord(args).Success?
    ensures Submit(args, predictCluster).Success?
    ensures var id := predictCluster(ReadDraftRecord(args).value);
      Submit(args, predictCluster).value.cluster == if 0 <= id < 5 then Name(ClusterNames[id].1) else Id(id)
  {
    SubmitPage(args, predictCluster);
    RelabelIsLookup(predictCluster(ReadDraftRecord(args).value));
  }

  /**
   * A raw `HomelessEncampment` request keeps its descriptor: the draft has no
   * override, where app.py and app2.py show `none`.
   */
  lemma HomelessEncampmentKeepsDescriptor(args: Args, predictCluster: DraftRecord -> int)
    requires AllPresent(args, DraftParams)
    requires ComplaintTypeKey in args && args[ComplaintTypeKey] == "HomelessEncampment"
    ensures Submit(args, predictCluster).Success?
    ensures Submit(args, predictCluster).value.complaintType == "Homeless Encampment"
    ensures Submit(args, predictCluster).value.complaintType in NoDescriptorTypes
    ensures Submit(args, predictCluster).value.descriptor == args[DescriptorKey]
  {
    assert RenameTable[8] == ("HomelessEncampment", "Homeless Encampment");
    NormalizeEntry(8);
    assert NoDescriptorTypes[0] == "Homeless Encampment";
    SubmitPage(args, predictCluster);
  }
}
