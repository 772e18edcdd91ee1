/**
 * The predict action's loop: each accepted image goes through the detector
 * (an oracle `detect`), is normalised, its display columns are selected, and
 * its batch is collected in image order.
 *
 * `PredictAsWritten` follows the page as written, where an image without
 * detections yields a frame with no columns, so selecting the display
 * columns fails and the whole action stops. `PredictAll` is the intended
 * behaviour, in which such an image contributes an empty batch; the rest of
 * the model uses it.
 */
module Predict {
  import opened Wrappers
  import opened Detections
  import opened Uploads

  /** The columns of a full result frame, and those shown per image. */
  const RowColumns: seq<string> := ["image_name", "name", "confidence", "x1", "y1", "x2", "y2"]
  const DisplayColumns: seq<string> := ["image_name", "name", "confidence"]

  /** A data frame: its column labels and its rows. */
  datatype Frame = Frame(columns: seq<string>, rows: seq<Row>)

  /** Why a predict action stops. */
  datatype PredictError =
    | Malformed(cause: NormalizeError)
    | MissingColumns(imageName: string)

  /** The frame built from the rows as written: a frame built from an empty
      list of records, like an empty frame, has no columns at all. */
  function ResultFrame(rows: seq<Row>): Frame
  {
    if rows == [] then Frame([], []) else Frame(RowColumns, rows)
  }

  /** The frame built with its columns named, whatever the number of rows. */
  function TypedFrame(rows: seq<Row>): Frame
  {
    Frame(RowColumns, rows)
  }

  /** Selecting columns succeeds when the frame has every one of them. */
  predicate CanSelect(f: Frame, columns: seq<string>)
  {
    forall c :: c in columns ==> c in f.columns
  }

  /** As written, the display columns can be selected exactly when the image
      has at least one detection. */
  lemma ResultFrameDisplayable(rows: seq<Row>)
    ensures CanSelect(ResultFrame(rows), DisplayColumns) <==> rows != []
  {
    if rows == [] {
      assert DisplayColumns[0] in DisplayColumns;
    }
  }

  /** A detector result with boxes but not one box is normalised to an empty
      batch, whose frame as written has no display columns. */
  lemma NoDetectionsCannotDisplay(names: map<int, string>, imageName: string)
    ensures Normalize(RawResult(Some(Boxes(Some([]), [], [])), names), imageName) == Ok([])
    ensures !CanSelect(ResultFrame([]), DisplayColumns)
  {
    ResultFrameDisplayable([]);
  }

  /** The image at `k` normalises to a batch. */
  predicate NormalizesAt(images: seq<Image>, imageNames: seq<string>, detect: Image -> RawResult, k: nat)
    requires k < |images| && k < |imageNames|
  {
    Normalize(detect(images[k]), imageNames[k]).Ok?
  }

  /** The image at `k` normalises to a batch with at least one row. */
  predicate DisplaysAt(images: seq<Image>, imageNames: seq<string>, detect: Image -> RawResult, k: nat)
    requires k < |images| && k < |imageNames|
  {
    NormalizesAt(images, imageNames, detect, k) && Normalize(detect(images[k]), imageNames[k]).value != []
  }

  function Min(a: nat, b: nat): nat { if a <= b then a else b }

  /** The loop over the images as written: stops at the first image whose
      result is malformed or has no detections. */
  method PredictAsWritten(images: seq<Image>, imageNames: seq<string>, detect: Image -> RawResult)
    returns (r: Result<seq<seq<Row>>, PredictError>)
    ensures var n := Min(|images|, |imageNames|);
      r.Ok? <==> forall k :: 0 <= k < n ==> DisplaysAt(images, imageNames, detect, k)
    ensures r.Ok? ==> var n := Min(|images|, |imageNames|);
      |r.value| == n &&
      forall k :: 0 <= k < n ==> Normalize(detect(images[k]), imageNames[k]) == Ok(r.value[k])
    ensures r.Err? ==>
      exists k ::
        && 0 <= k < Min(|images|, |imageNames|)
        && (forall j :: 0 <= j < k ==> DisplaysAt(images, imageNames, detect, j))
        && match Normalize(detect(images[k]), imageNames[k])
           case Err(e) => r.error == Malformed(e)
           case Ok(rows) => rows == [] && r.error == MissingColumns(imageNames[k])
  {
    var n := Min(|images|, |imageNames|);
    var allDfs: seq<seq<Row>> := [];
    for i := 0 to n
      invariant |allDfs| == i
      invariant forall k :: 0 <= k < i ==> DisplaysAt(images, imageNames, detect, k)
      invariant forall k :: 0 <= k < i ==> Normalize(detect(images[k]), imageNames[k]) == Ok(allDfs[k])
    {
      var raw := detect(images[i]);
      var rows := ResultsToRows(raw, imageNames[i]);
      if rows.Err? {
        assert !DisplaysAt(images, imageNames, detect, i);
        return Err(Malformed(rows.error));
      }
      var dfFull := ResultFrame(rows.value);
      ResultFrameDisplayable(rows.value);
      if !CanSelect(dfFull, DisplayColumns) {
        assert !DisplaysAt(images, imageNames, detect, i);
        return Err(MissingColumns(imageNames[i]));
      }
      allDfs := allDfs + [dfFull.rows];
    }
    r := Ok(allDfs);
  }

  /** The loop over the images as intended: one batch per image, in image
      order, an image without detections giving an empty batch; it stops only
      at a malformed detector result. Its frames are built with their columns
      named (`TypedFrame`), so selecting the display columns cannot fail and
      needs no error case. */
  method PredictAll(images: seq<Image>, imageNames: seq<string>, detect: Image -> RawResult)
    returns (r: Result<seq<seq<Row>>, NormalizeError>)
    ensures var n := Min(|images|, |imageNames|);
      r.Ok? <==> forall k :: 0 <= k < n ==> NormalizesAt(images, imageNames, detect, k)
    ensures r.Ok? ==> var n := Min(|images|, |imageNames|);
      |r.value| == n &&
      forall k :: 0 <= k < n ==> Normalize(detect(images[k]), imageNames[k]) == Ok(r.value[k])
    ensures r.Err? ==>
      exists k ::
        && 0 <= k < Min(|images|, |imageNames|)
        && (forall j :: 0 <= j < k ==> NormalizesAt(images, imageNames, detect, j))
        && Normalize(detect(images[k]), imageNames[k]) == Err(r.error)
  {
    var n := Min(|images|, |imageNames|);
    var allDfs: seq<seq<Row>> := [];
    for i := 0 to n
      invariant |allDfs| == i
      invariant forall k :: 0 <= k < i ==> NormalizesAt(images, imageNames, detect, k)
      invariant forall k :: 0 <= k < i ==> Normalize(detect(images[k]), imageNames[k]) == Ok(allDfs[k])
    {
      var raw := detect(images[i]);
      var rows := ResultsToRows(raw, imageNames[i]);
      if rows.Err? {
        assert !NormalizesAt(images, imageNames, detect, i);
        return Err(rows.error);
      }
      var dfFull := TypedFrame(rows.value);
      allDfs := allDfs + [dfFull.rows];
    }
    r := Ok(allDfs);
  }
}
