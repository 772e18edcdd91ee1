/**
 * One press of the predict button on the page: filter the uploads, predict
 * every accepted image, save the batches, and recompute the chart from the
 * saved log.
 */
module Page {
  import opened Wrappers
  import opened Detections
  import opened Uploads
  import opened Predict
  import opened Summary
  import opened PredictionLog

  /** What the page ends up showing. */
  datatype Outcome =
    | NoValidImage
    | Failed(error: NormalizeError)
    | Predicted(batches: seq<seq<Row>>, chart: Option<seq<ClassCount>>)

  /** The button press with the prediction loop as intended: an image without
      detections contributes an empty batch. */
  method PredictClicked(file: PredictionsFile, uploads: seq<Upload>,
                        decode: seq<bv8> -> Option<Image>, detect: Image -> RawResult)
    returns (outcome: Outcome)
    modifies file
    ensures outcome.NoValidImage? <==> Accepted(uploads, decode) == []
    ensures !outcome.Predicted? ==> file.contents == old(file.contents)
    ensures outcome.Predicted? ==>
      var accepted := Accepted(uploads, decode);
      && |outcome.batches| == |accepted|
      && (forall k :: 0 <= k < |accepted| ==>
            Normalize(detect(accepted[k].image), accepted[k].name) == Ok(outcome.batches[k]))
      && file.contents == AppendLog(old(file.contents), outcome.batches)
      && file.contents.Some?
      && outcome.chart == Some(ClassCounts(file.contents.value))
    ensures outcome.Failed? ==>
      var accepted := Accepted(uploads, decode);
      exists k ::
        && 0 <= k < |accepted|
        && (forall j :: 0 <= j < k ==> Normalize(detect(accepted[j].image), accepted[j].name).Ok?)
        && Normalize(detect(accepted[k].image), accepted[k].name) == Err(outcome.error)
  {
    var images, imageNames, validImages, rejected := FilterUploads(uploads, decode);
    AcceptedEmpty(uploads, decode);
    if !validImages {
      return NoValidImage;
    }
    var accepted := Accepted(uploads, decode);
    assert Min(|images|, |imageNames|) == |accepted|;
    assert forall k :: 0 <= k < |accepted| ==> accepted[k] == Decoded(imageNames[k], images[k]);
    var allDfs := PredictAll(images, imageNames, detect);
    if allDfs.Err? {
      var k :| 0 <= k < |accepted| && (forall j :: 0 <= j < k ==> NormalizesAt(images, imageNames, detect, j)) &&
               Normalize(detect(images[k]), imageNames[k]) == Err(allDfs.error);
      forall j | 0 <= j < k ensures Normalize(detect(accepted[j].image), accepted[j].name).Ok? {
        assert NormalizesAt(images, imageNames, detect, j);
        assert accepted[j] == Decoded(imageNames[j], images[j]);
      }
      assert accepted[k] == Decoded(imageNames[k], images[k]);
      return Failed(allDfs.error);
    }
    file.Save(allDfs.value);
    var chart := file.ClassSummary();
    outcome := Predicted(allDfs.value, chart);
  }

  /** What the page ends up showing as written: an exception in the loop. */
  datatype OutcomeAsWritten =
    | NothingToPredict
    | Aborted(error: PredictError)
    | Saved(batches: seq<seq<Row>>, chart: Option<seq<ClassCount>>)

  /** The button press as written: the first accepted image that is malformed
      or has no detections aborts the action, and then nothing is saved and
      no chart is drawn. */
  method PredictClickedAsWritten(file: PredictionsFile, uploads: seq<Upload>,
                                 decode: seq<bv8> -> Option<Image>, detect: Image -> RawResult)
    returns (outcome: OutcomeAsWritten)
    modifies file
    ensures outcome.NothingToPredict? <==> Accepted(uploads, decode) == []
    ensures !outcome.Saved? ==> file.contents == old(file.contents)
    ensures (exists k :: 0 <= k < |Accepted(uploads, decode)| &&
               Normalize(detect(Accepted(uploads, decode)[k].image), Accepted(uploads, decode)[k].name) == Ok([]))
            ==> outcome.Aborted? && file.contents == old(file.contents)
    ensures outcome.Saved? ==>
      var accepted := Accepted(uploads, decode);
      && |outcome.batches| == |accepted|
      && (forall k :: 0 <= k < |accepted| ==>
            Normalize(detect(accepted[k].image), accepted[k].name) == Ok(outcome.batches[k]) &&
            outcome.batches[k] != [])
      && file.contents == AppendLog(old(file.contents), outcome.batches)
      && file.contents.Some?
      && outcome.chart == Some(ClassCounts(file.contents.value))
    ensures outcome.Aborted? ==>
      var accepted := Accepted(uploads, decode);
      exists k ::
        && 0 <= k < |accepted|
        && (forall j :: 0 <= j < k ==> Normalize(detect(accepted[j].image), accepted[j].name).Ok? &&
                                       Normalize(detect(accepted[j].image), accepted[j].name).value != [])
        && match Normalize(detect(accepted[k].image), accepted[k].name)
           case Err(e) => outcome.error == Malformed(e)
           case Ok(rows) => rows == [] && outcome.error == MissingColumns(accepted[k].name)
  {
    var images, imageNames, validImages, rejected := FilterUploads(uploads, decode);
    AcceptedEmpty(uploads, decode);
    if !validImages {
      return NothingToPredict;
    }
    var accepted := Accepted(uploads, decode);
    assert Min(|images|, |imageNames|) == |accepted|;
    assert forall k :: 0 <= k < |accepted| ==> accepted[k] == Decoded(imageNames[k], images[k]);
    var allDfs := PredictAsWritten(images, imageNames, detect);
    if allDfs.Err? {
      var k :| && 0 <= k < |accepted|
               && (forall j :: 0 <= j < k ==> DisplaysAt(images, imageNames, detect, j))
               && match Normalize(detect(images[k]), imageNames[k])
                  case Err(e) => allDfs.error == Malformed(e)
                  case Ok(rows) => rows == [] && allDfs.error == MissingColumns(imageNames[k]);
      forall j | 0 <= j < k
        ensures Normalize(detect(accepted[j].image), accepted[j].name).Ok?
        ensures Normalize(detect(accepted[j].image), accepted[j].name).value != []
      {
        assert DisplaysAt(images, imageNames, detect, j);
        assert accepted[j] == Decoded(imageNames[j], images[j]);
      }
      assert accepted[k] == Decoded(imageNames[k], images[k]);
      return Aborted(allDfs.error);
    }
    forall k | 0 <= k < |accepted| ensures Normalize(detect(accepted[k].image), accepted[k].name) != Ok([]) {
      assert DisplaysAt(images, imageNames, detect, k);
      assert accepted[k] == Decoded(imageNames[k], images[k]);
    }
    file.Save(allDfs.value);
    var chart := file.ClassSummary();
    outcome := Saved(allDfs.value, chart);
  }
}
