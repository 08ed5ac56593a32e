/**
 * The `/submit` handler of app.py: everything app2.py does, plus the feature
 * vector and its classification, whose result the page shows next to the
 * confirmed values. The clustering model and the classifier are parameters.
 */
module App {
  import opened Wrappers
  import opened Request
  import opened Normalizer
  import opened Descriptor
  import opened Cluster
  import opened Complaint
  import opened Encoding
  import opened Reference
  import opened Features
  import App2

  /** The rendered page: the confirmed values and the classifier's prediction. */
  datatype Page<P> = Page(shown: Confirmation, prediction: P)

  /**
   * The handler: `predictCluster` stands for `km.predict` on the record's one-row
   * frame and `classify` for `model.predict` on the reconciled feature vector.
   */
  function Submit<P>(args: Args, predictCluster: Record -> int, classify: Row -> P): Result<Page<P>, Error>
  {
    var rec :- ReadRecord(args, DescriptorFields);
    var cluster := Relabel(Id(predictCluster(rec)));
    var prediction := classify(Encode(rec, cluster));
    var shown :- Confirm(rec, cluster);
    Success(Page(shown, prediction))
  }

  /**
   * The full handler fails exactly when the app2.py draft does, with the same
   * error, and otherwise shows the same values.
   */
  lemma SubmitAgreesWithApp2<P>(args: Args, predictCluster: Record -> int, classify: Row -> P)
    ensures Submit(args, predictCluster, classify).Success? <==> App2.Submit(args, predictCluster).Success?
    ensures Submit(args, predictCluster, classify).Failure? ==>
      Submit(args, predictCluster, classify).error == App2.Submit(args, predictCluster).error
    ensures Submit(args, predictCluster, classify).Success? ==>
      Submit(args, predictCluster, classify).value.shown == App2.Submit(args, predictCluster).value
  {
  }

  /**
   * With every parameter present, the page renders exactly when the record got a
   * descriptor. It shows the record's values and the relabelled cluster, and the
   * prediction is the classifier's output on the record's encoding with that cluster.
   */
  lemma SubmitShowsRecord<P>(args: Args, predictCluster: Record -> int, classify: Row -> P)
    requires AllPresent(args, Required(DescriptorFields))
    ensures ReadRecord(args, DescriptorFields).Success?
    ensures var rec := ReadRecord(args, DescriptorFields).value;
      var cluster := Relabel(Id(predictCluster(rec)));
      && (Submit(args, predictCluster, classify).Success? <==> rec.descriptor.Some?)
      && (rec.descriptor.Some? ==> Submit(args, predictCluster, classify) == Success(Page(
            Confirmation(rec.borough, rec.locationType, rec.complaintType, rec.descriptor.value, cluster, rec.channel),
            classify(Encode(rec, cluster)))))
  {
    ReadRecordFields(args, DescriptorFields);
  }

  /**
   * The classifier sees a vector over exactly the 108 reference columns, none
   * twice, that holds 1 in the column of each field's value and 0 elsewhere,
   * built from the record and the cluster the page shows.
   */
  lemma SubmitPrediction<P>(args: Args, predictCluster: Record -> int, classify: Row -> P)
    requires AllPresent(args, Required(DescriptorFields))
    ensures ReadRecord(args, DescriptorFields).Success?
    ensures var rec := ReadRecord(args, DescriptorFields).value;
      var features := Encode(rec, Relabel(Id(predictCluster(rec))));
      && (forall c :: c in Names(features) <==> c in DummyColumns)
      && Distinct(Names(features))
      && (Submit(args, predictCluster, classify).Success? ==>
            var page := Submit(args, predictCluster, classify).value;
            && page.prediction == classify(features)
            && page.shown.complaintType == rec.complaintType
            && page.shown.descriptor == rec.descriptor.value)
      && (forall k, y :: 0 <= k < |features| && features[k].0 == DummyName(ComplaintTypeKey, y) ==>
            features[k].1 == if y == rec.complaintType then 1 else 0)
      && (rec.descriptor.Some? ==>
            forall k, y :: 0 <= k < |features| && features[k].0 == DummyName(DescriptorKey, y) ==>
              features[k].1 == if y == rec.descriptor.value then 1 else 0)
  {
    SubmitShowsRecord(args, predictCluster, classify);
    var rec := ReadRecord(args, DescriptorFields).value;
    EncodeRecordColumns(rec, Relabel(Id(predictCluster(rec))));
  }

  /**
   * A Queens street-noise request filed online with only the noise descriptor
   * filled in: the page shows the renamed complaint type and that descriptor, and
   * the classifier's vector holds 1 in exactly the columns of the borough, the
   * location type, the complaint type, the channel, the descriptor and the cluster.
   */
  lemma StreetNoiseRequest<P>(args: Args, predictCluster: Record -> int, classify: Row -> P)
    requires App2.StreetNoiseForm(args)
    ensures ReadRecord(args, DescriptorFields).Success?
    ensures Submit(args, predictCluster, classify).Success?
    ensures var page := Submit(args, predictCluster, classify).value;
      && page.shown.complaintType == "Noise - Street/Sidewalk"
      && page.shown.descriptor == "Loud Music/Party"
      && page.shown.cluster == Relabel(Id(predictCluster(ReadRecord(args, DescriptorFields).value)))
    ensures var rec := ReadRecord(args, DescriptorFields).value;
      var cluster := Relabel(Id(predictCluster(rec)));
      var features := Encode(rec, cluster);
      forall k :: 0 <= k < |features| ==>
           (features[k].1 == 1 <==> features[k].0 in [
              DummyName(BoroughKey, "QUEENS"),
              DummyName(LocationTypeKey, "Street/Sidewalk"),
              DummyName(ComplaintTypeKey, "Noise - Street/Sidewalk"),
              DummyName(ChannelKey, "ONLINE"),
              DummyName(DescriptorKey, "Loud Music/Party"),
              DummyName(ClusterKey, CellText(cluster))])
  {
    App2.StreetNoiseRequest(args, predictCluster);
    var rec := ReadRecord(args, DescriptorFields).value;
    var cluster := Relabel(Id(predictCluster(rec)));
    EncodeOnes(rec, cluster);
  }
}
