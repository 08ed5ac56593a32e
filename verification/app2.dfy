/**
 * The `/submit` handler of app2.py: build the record, cluster it, relabel the
 * cluster and render the confirmation page. There is no classification stage.
 * The clustering model is a parameter.
 */
module App2 {
  import opened Wrappers
  import opened Request
  import opened Normalizer
  import opened Descriptor
  import opened Cluster
  import opened Complaint

  /** The handler: `predictCluster` stands for `km.predict` on the record's one-row frame. */
  function Submit(args: Args, predictCluster: Record -> int): Result<Confirmation, Error>
  {
    var rec :- ReadRecord(args, DescriptorFields);
    Confirm(rec, Relabel(Id(predictCluster(rec))))
  }

  /** A request missing a parameter fails, naming the first missing parameter in reading order. */
  lemma SubmitMissing(args: Args, predictCluster: Record -> int)
    ensures !AllPresent(args, Required(DescriptorFields)) ==> Submit(args, predictCluster).Failure?
    ensures forall i :: FirstMissingAt(args, Required(DescriptorFields), i) ==>
      Submit(args, predictCluster) == Failure(MissingParameter(Required(DescriptorFields)[i]))
  {
    ReadRecordErrors(args, DescriptorFields);
  }

  /**
   * A request carrying every parameter renders exactly when a descriptor was
   * assigned. The page shows borough, location type and channel as given, the
   * normalised complaint type, and the descriptor: `none` for a descriptor-less
   * type, else the last non-empty descriptor field.
   */
  lemma SubmitPage(args: Args, predictCluster: Record -> int)
    requires AllPresent(args, Required(DescriptorFields))
    ensures AllPresent(args, DescriptorFields) && ComplaintTypeKey in args
    ensures var n := Normalize(args[ComplaintTypeKey]);
      Submit(args, predictCluster).Failure? <==>
        n !in NoDescriptorTypes && forall j :: 0 <= j < |DescriptorFields| ==> args[DescriptorFields[j]] == ""
    ensures Submit(args, predictCluster).Failure? ==> Submit(args, predictCluster).error == DescriptorUnset
    ensures Submit(args, predictCluster).Success? ==>
      var page := Submit(args, predictCluster).value;
      && page.borough == args[BoroughKey]
      && page.locationType == args[LocationTypeKey]
      && page.channel == args[ChannelKey]
      && page.complaintType == Normalize(args[ComplaintTypeKey])
      && (page.complaintType in NoDescriptorTypes ==> page.descriptor == NoneLabel)
      && (page.complaintType !in NoDescriptorTypes ==>
            forall k :: LastNonEmptyAt(args, DescriptorFields, k) ==> page.descriptor == args[DescriptorFields[k]])
  {
    ReadRecordFields(args, DescriptorFields);
    ReadRecordDescriptor(args, DescriptorFields);
  }

  /** The page shows cluster ids 0 to 4 by their table names and any other id unchanged. */
  lemma SubmitCluster(args: Args, predictCluster: Record -> int)
    requires AllPresent(args, Required(DescriptorFields))
    ensures ReadRecord(args, DescriptorFields).Success?
    ensures Submit(args, predictCluster).Success? ==>
      var id := predictCluster(ReadRecord(args, DescriptorFields).value);
      Submit(args, predictCluster).value.cluster == if 0 <= id < 5 then Name(ClusterNames[id].1) else Id(id)
  {
    ReadRecordDescriptor(args, DescriptorFields);
    var rec := ReadRecord(args, DescriptorFields).value;
    var id := predictCluster(rec);
    assert Submit(args, predictCluster) == Confirm(rec, Relabel(Id(id)));
    RelabelIsLookup(id);
  }

  /** A raw `HomelessEncampment` request renders the descriptor `none`, whatever the descriptor fields hold. */
  lemma HomelessEncampmentShowsNone(args: Args, predictCluster: Record -> int)
    requires AllPresent(args, Required(DescriptorFields))
    requires args[ComplaintTypeKey] == "HomelessEncampment"
    ensures Submit(args, predictCluster).Success?
    ensures Submit(args, predictCluster).value.complaintType == "Homeless Encampment"
    ensures Submit(args, predictCluster).value.descriptor == NoneLabel
  {
    assert RenameTable[8] == ("HomelessEncampment", "Homeless Encampment");
    NormalizeEntry(8);
    assert NoDescriptorTypes[0] == "Homeless Encampment";
    SubmitPage(args, predictCluster);
  }

  /**
   * A Queens street-noise request filed online with every parameter present and
   * only the noise descriptor filled in, `Loud Music/Party`.
   */
  ghost predicate StreetNoiseForm(args: Args) {
    && AllPresent(args, Required(DescriptorFields))
    && args[BoroughKey] == "QUEENS" && args[LocationTypeKey] == "Street/Sidewalk"
    && args[ComplaintTypeKey] == "Noise-StreetSidewalk" && args[ChannelKey] == "ONLINE"
    && args[DescriptorFields[4]] == "Loud Music/Party"
    && forall j :: 0 <= j < |DescriptorFields| && j != 4 ==> args[DescriptorFields[j]] == ""
  }

  /** Such a request yields the record with the renamed complaint type and that descriptor, and renders. */
  lemma StreetNoiseRequest(args: Args, predictCluster: Record -> int)
    requires StreetNoiseForm(args)
    ensures ReadRecord(args, DescriptorFields) ==
      Success(Record("QUEENS", "Street/Sidewalk", "Noise - Street/Sidewalk", "ONLINE", Some("Loud Music/Party")))
    ensures Submit(args, predictCluster).Success?
  {
    assert RenameTable[3] == ("Noise-StreetSidewalk", "Noise - Street/Sidewalk");
    NormalizeEntry(3);
    ReadRecordFields(args, DescriptorFields);
    ReadRecordDescriptor(args, DescriptorFields);
    NoiseHasDescriptor(ReadRecord(args, DescriptorFields).value.complaintType);
    assert LastNonEmptyAt(args, DescriptorFields, 4);
  }
}
