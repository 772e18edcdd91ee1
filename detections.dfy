/**
 * The result normaliser of the prediction page: one image's detector output
 * becomes an ordered batch of rows, one row per detected box.
 *
 * The detector's floating-point confidences and coordinates are only copied,
 * never computed with, so they are carried here as `real`.
 */
module Detections {
  import opened Wrappers

  /** One row of `boxes.xyxy`: the corners of a detected box. */
  datatype Box = Box(x1: real, y1: real, x2: real, y2: real)

  /** The `boxes` part of a detector result: corner rows (possibly absent),
      confidences and class indices, meant to be index-aligned. */
  datatype Boxes = Boxes(xyxy: Option<seq<Box>>, conf: seq<real>, cls: seq<int>)

  /** A raw detector result: its boxes (possibly absent) and the map from
      class index to class name. */
  datatype RawResult = RawResult(boxes: Option<Boxes>, names: map<int, string>)

  /** One logged detection: the columns image_name, name, confidence, x1, y1, x2, y2. */
  datatype Row = Row(imageName: string, name: string, confidence: real,
                     x1: real, y1: real, x2: real, y2: real)

  /** The exception the row-building loop raises at box `index`: the class
      index column is too short, the class index has no name, or the
      confidence column is too short (in the order the row's fields are read). */
  datatype NormalizeError =
    | MissingClassIndex(index: nat)
    | UnknownClass(index: nat, classId: int)
    | MissingConfidence(index: nat)

  /** Both `boxes` and `boxes.xyxy` are present. */
  predicate HasBoxes(raw: RawResult) {
    raw.boxes.Some? && raw.boxes.value.xyxy.Some?
  }

  function Xyxy(raw: RawResult): seq<Box>
    requires HasBoxes(raw)
  {
    raw.boxes.value.xyxy.value
  }

  /** Every box has a class index with a name and a confidence. */
  predicate WellFormed(raw: RawResult)
    requires HasBoxes(raw)
  {
    forall j :: 0 <= j < |Xyxy(raw)| ==> WellFormedAt(raw, j)
  }

  /** Box `j` has a class index with a name and a confidence. */
  predicate WellFormedAt(raw: RawResult, j: nat)
    requires HasBoxes(raw)
  {
    j < |raw.boxes.value.cls| && raw.boxes.value.cls[j] in raw.names && j < |raw.boxes.value.conf|
  }

  /** Row `row` is the row for box `j`: the supplied image name, the class
      name looked up by the box's class index, its confidence and its corners. */
  predicate RowForBox(raw: RawResult, imageName: string, j: nat, row: Row)
    requires HasBoxes(raw) && j < |Xyxy(raw)|
  {
    var b := raw.boxes.value;
    && WellFormedAt(raw, j)
    && row == Row(imageName, raw.names[b.cls[j]], b.conf[j],
                  Xyxy(raw)[j].x1, Xyxy(raw)[j].y1, Xyxy(raw)[j].x2, Xyxy(raw)[j].y2)
  }

  /** The body of the row-building loop for box `i`: the row, or the exception. */
  function RowAt(raw: RawResult, imageName: string, i: nat): Result<Row, NormalizeError>
    requires HasBoxes(raw) && i < |Xyxy(raw)|
  {
    var b := raw.boxes.value;
    if i >= |b.cls| then Err(MissingClassIndex(i))
    else if b.cls[i] !in raw.names then Err(UnknownClass(i, b.cls[i]))
    else if i >= |b.conf| then Err(MissingConfidence(i))
    else Ok(Row(imageName, raw.names[b.cls[i]], b.conf[i],
                Xyxy(raw)[i].x1, Xyxy(raw)[i].y1, Xyxy(raw)[i].x2, Xyxy(raw)[i].y2))
  }

  /** The rows for boxes `i` onwards, stopping at the first exception. */
  function RowsFrom(raw: RawResult, imageName: string, i: nat): Result<seq<Row>, NormalizeError>
    requires HasBoxes(raw) && i <= |Xyxy(raw)|
    decreases |Xyxy(raw)| - i
  {
    if i == |Xyxy(raw)| then Ok([])
    else match RowAt(raw, imageName, i)
      case Err(e) => Err(e)
      case Ok(row) =>
        match RowsFrom(raw, imageName, i + 1)
        case Err(e) => Err(e)
        case Ok(rest) => Ok([row] + rest)
  }

  /** Reference definition of the normaliser: no boxes gives an empty batch. */
  function Normalize(raw: RawResult, imageName: string): Result<seq<Row>, NormalizeError>
  {
    if HasBoxes(raw) then RowsFrom(raw, imageName, 0) else Ok([])
  }

  lemma {:induction false} RowsFromCorrect(raw: RawResult, imageName: string, i: nat)
    requires HasBoxes(raw) && i <= |Xyxy(raw)|
    ensures var r := RowsFrom(raw, imageName, i);
      && (r.Ok? <==> forall j :: i <= j < |Xyxy(raw)| ==> RowAt(raw, imageName, j).Ok?)
      && (r.Ok? ==> |r.value| == |Xyxy(raw)| - i &&
                    forall j :: i <= j < |Xyxy(raw)| ==> r.value[j - i] == RowAt(raw, imageName, j).value)
      && (r.Err? ==> i <= r.error.index < |Xyxy(raw)| &&
                     RowAt(raw, imageName, r.error.index) == Err(r.error) &&
                     forall j :: i <= j < r.error.index ==> RowAt(raw, imageName, j).Ok?)
    decreases |Xyxy(raw)| - i
  {
    if i < |Xyxy(raw)| {
      RowsFromCorrect(raw, imageName, i + 1);
    }
  }

  /** What the normaliser promises: an empty batch when there are no boxes;
      otherwise exactly one row per box, in box order, each carrying the image
      name, the looked-up class name, the confidence and the corners; and an
      error, at the first malformed box, exactly when the output is malformed. */
  lemma NormalizeSpec(raw: RawResult, imageName: string)
    ensures !HasBoxes(raw) ==> Normalize(raw, imageName) == Ok([])
    ensures HasBoxes(raw) ==> (Normalize(raw, imageName).Ok? <==> WellFormed(raw))
    ensures HasBoxes(raw) && Normalize(raw, imageName).Ok? ==>
      var rows := Normalize(raw, imageName).value;
      |rows| == |Xyxy(raw)| &&
      forall j :: 0 <= j < |rows| ==> RowForBox(raw, imageName, j, rows[j])
    ensures HasBoxes(raw) && Normalize(raw, imageName).Err? ==>
      var k := Normalize(raw, imageName).error.index;
      k < |Xyxy(raw)| && !WellFormedAt(raw, k) &&
      forall j :: 0 <= j < k ==> WellFormedAt(raw, j)
  {
    if HasBoxes(raw) {
      RowsFromCorrect(raw, imageName, 0);
      var n := |Xyxy(raw)|;
      assert forall j :: 0 <= j < n ==> (RowAt(raw, imageName, j).Ok? <==> WellFormedAt(raw, j));
      var r := Normalize(raw, imageName);
      if r.Ok? {
        forall j | 0 <= j < n ensures RowForBox(raw, imageName, j, r.value[j]) {
          assert r.value[j - 0] == RowAt(raw, imageName, j).value;
        }
      }
    }
  }

  /** `results_to_df`: walks the boxes in order and appends one row per box. */
  method ResultsToRows(raw: RawResult, imageName: string) returns (r: Result<seq<Row>, NormalizeError>)
    ensures r == Normalize(raw, imageName)
    ensures r.Ok? && HasBoxes(raw) ==>
      |r.value| == |Xyxy(raw)| &&
      forall j :: 0 <= j < |r.value| ==> RowForBox(raw, imageName, j, r.value[j])
    ensures !HasBoxes(raw) ==> r == Ok([])
  {
    if raw.boxes.Some? && raw.boxes.value.xyxy.Some? {
      var xyxy := raw.boxes.value.xyxy.value;
      var conf := raw.boxes.value.conf;
      var cls := raw.boxes.value.cls;
      var names := raw.names;
      RowsFromCorrect(raw, imageName, 0);
      var data: seq<Row> := [];
      for i := 0 to |xyxy|
        invariant |data| == i
        invariant forall j :: 0 <= j < i ==> RowAt(raw, imageName, j) == Ok(data[j])
      {
        if i >= |cls| {
          r := Err(MissingClassIndex(i));
          FirstErrorIsResult(raw, imageName, i);
          return;
        }
        if cls[i] !in names {
          r := Err(UnknownClass(i, cls[i]));
          FirstErrorIsResult(raw, imageName, i);
          return;
        }
        if i >= |conf| {
          r := Err(MissingConfidence(i));
          FirstErrorIsResult(raw, imageName, i);
          return;
        }
        var row := Row(imageName, names[cls[i]], conf[i], xyxy[i].x1, xyxy[i].y1, xyxy[i].x2, xyxy[i].y2);
        data := data + [row];
      }
      r := Ok(data);
      assert Normalize(raw, imageName).Ok?;
      assert Normalize(raw, imageName).value == data;
    } else {
      r := Ok([]);
    }
  }

  /** When the boxes before `i` build rows and box `i` does not, the
      normaliser fails with box `i`'s exception. */
  lemma FirstErrorIsResult(raw: RawResult, imageName: string, i: nat)
    requires HasBoxes(raw) && i < |Xyxy(raw)|
    requires forall j :: 0 <= j < i ==> RowAt(raw, imageName, j).Ok?
    requires RowAt(raw, imageName, i).Err?
    ensures Normalize(raw, imageName) == Err(RowAt(raw, imageName, i).error)
  {
    RowsFromCorrect(raw, imageName, 0);
    var k := Normalize(raw, imageName).error.index;
    assert k == i;
  }
}
