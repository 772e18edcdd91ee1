# Skin-lesion prediction page: a Dafny model of its record keeping

The page `INTERFACE_IMGUNICA_Credencial.py` lets a user upload images, runs a
pretrained detector on each, shows the detections, appends them to a running
log file `predictions.csv`, and charts how many detections of each class the
log holds. This project models the deterministic record keeping inside that
page and proves what it promises:

- `Detections` — the result normaliser `results_to_df`: one detector result
  becomes one row per detected box (image name, class name looked up by class
  index, confidence, four corners), in box order; no boxes gives no rows.
  A detector result whose columns are short or whose class index has no name
  makes the loop raise; the model returns that error at the first bad box.
- `Uploads` — the upload loop: files are decoded in order by an oracle;
  `images` and `image_names` grow together with each file that decodes,
  `valid_images` records whether any did, each failure is reported.
- `Predict` — the loop over the accepted images, collecting one batch per
  image in upload order (see Findings for the image without detections).
- `PredictionLog` — the persisted log as a class whose field is absent or a
  sequence of rows; a save flattens the batches and appends them after the
  rows already saved. The chart data is read back from it.
- `Summary` and `StringOrder` — `value_counts().sort_index()` on the class
  name column: a sorted sequence of (name, count) pairs, names ordered as
  Python orders strings.
- `Page` — one press of the predict button, wiring the above together.

The detector, the image decoder and the file system are parameters or state:
`detect: Image -> RawResult`, `decode: seq<bv8> -> Option<Image>`, and the
`PredictionsFile.contents` field. Confidences and coordinates are only copied
and are carried as `real`.

The code as written aborts the predict action on an image without
detections (see Findings). The model has both pages:
`Page.PredictClickedAsWritten` follows the code as written, and
`Page.PredictClicked` runs the corrected loop. A login gate and a way to
clear the log are not part of this page.

## Model

| member | source | states |
|---|---|---|
| Detections.ResultsToRows | INTERFACE_IMGUNICA_Credencial.py:32-52 | the loop's result is the reference normaliser's; when boxes exist and it succeeds there is exactly one row per box, row j carrying the image name, `names[cls[j]]`, `conf[j]` and `xyxy[j]`; absent boxes give an empty batch |
| Detections.RowsFromCorrect | INTERFACE_IMGUNICA_Credencial.py:39-49 | building rows from box i onward succeeds iff every later box is well formed; then the rows are the per-box rows in order; otherwise the error is that of the first bad box |
| Detections.NormalizeSpec | INTERFACE_IMGUNICA_Credencial.py:33-52 | no boxes or no `xyxy` gives an empty batch; with boxes, success iff every box has a named class index and a confidence; success yields one row per box with matching fields in box order; failure names the first malformed box |
| Detections.FirstErrorIsResult | INTERFACE_IMGUNICA_Credencial.py:39-49 | when boxes before i build rows and box i raises, the whole conversion fails with box i's exception |
| Uploads.FilterUploads | INTERFACE_IMGUNICA_Credencial.py:58-70 | `images` and `image_names` have equal length and hold exactly the decoded uploads in upload order; `valid_images` is true iff some upload decodes; the failures are reported in order; accepted plus reported equals uploaded |
| Uploads.AcceptedPlusRejected | INTERFACE_IMGUNICA_Credencial.py:63-70 | the accepted and reported counts add up to the number of uploads |
| Uploads.AcceptedMembers | INTERFACE_IMGUNICA_Credencial.py:63-68 | a (name, image) pair is accepted iff some upload of that name decodes to that image |
| Uploads.RejectedMembers | INTERFACE_IMGUNICA_Credencial.py:63-70 | a name is reported iff some upload of that name fails to decode |
| Uploads.AcceptedEmpty | INTERFACE_IMGUNICA_Credencial.py:60-71 | nothing is accepted iff no upload decodes |
| Predict.PredictAsWritten | INTERFACE_IMGUNICA_Credencial.py:83-101 | as written, the loop succeeds iff every image normalises to a non-empty batch, then gives one batch per image in order; otherwise it stops at the first image that is malformed or has no detections |
| Predict.ResultFrameDisplayable | INTERFACE_IMGUNICA_Credencial.py:50-52 | the frame built as written has the display columns iff the batch has a row |
| Predict.NoDetectionsCannotDisplay | INTERFACE_IMGUNICA_Credencial.py:95-98 | a result with boxes but none detected normalises to an empty batch whose frame lacks the display columns, so line 96 raises |
| Predict.PredictAll | INTERFACE_IMGUNICA_Credencial.py:83-101 | one batch per accepted image, in the order of `image_names`, each equal to that image's normalised rows (empty when nothing is detected); stops only at the first malformed result, whose error it returns |
| PredictionLog.PredictionsFile.constructor | INTERFACE_IMGUNICA_Credencial.py:104-107 | the file starts absent or with the given rows |
| PredictionLog.PredictionsFile.Save | INTERFACE_IMGUNICA_Credencial.py:104-110 | after a save the file holds the earlier rows (if any) followed by the flattened new batches; no batches leaves the file untouched |
| PredictionLog.PredictionsFile.ClassSummary | INTERFACE_IMGUNICA_Credencial.py:114-117 | the chart data exists iff the file does, and is then the class-count summary of its rows |
| PredictionLog.FlattenAppend | INTERFACE_IMGUNICA_Credencial.py:106 | flattening two runs of batches is flattening each and joining them |
| PredictionLog.FlattenEmptyBatches | INTERFACE_IMGUNICA_Credencial.py:106 | empty batches contribute no rows |
| PredictionLog.FlattenBatchAt | INTERFACE_IMGUNICA_Credencial.py:106 | batch k appears whole and unchanged in the flattened rows, right after the batches before it |
| PredictionLog.AppendLogSpec | INTERFACE_IMGUNICA_Credencial.py:105-110 | after saving some batches the log exists, its prefix is exactly the old log (empty if none) and the rest is exactly the new rows |
| PredictionLog.AppendEmptyBatches | INTERFACE_IMGUNICA_Credencial.py:105-110 | saving only empty batches leaves an existing log unchanged, and creates an empty one where none existed |
| PredictionLog.AppendTwice | INTERFACE_IMGUNICA_Credencial.py:105-110 | two saves in a row equal one save of both runs' batches: old log, then the first run's rows, then the second's |
| PredictionLog.AppendCounts | INTERFACE_IMGUNICA_Credencial.py:108-117 | after a save each class's count is its count in the old log plus its count in the new rows |
| Summary.ClassCounts | INTERFACE_IMGUNICA_Credencial.py:116-117 | the summary's names are strictly ascending and are exactly the names in the log; each name's count equals the number of rows with that name; the counts sum to the number of rows |
| Summary.SummaryCorrect | INTERFACE_IMGUNICA_Credencial.py:116-117 | entry by entry: each count equals the rows with that name and is positive; every entry's name occurs in the log and every row's name has an entry; names strictly ascending; total equals log length |
| Summary.SummaryOfThreeRows | INTERFACE_IMGUNICA_Credencial.py:116-117 | rows named A, B, A give the summary A: 2 then B: 1 |
| Summary.TallyKeys | INTERFACE_IMGUNICA_Credencial.py:117 | counting one more row adds its name to the summary's names and nothing else |
| Summary.TallyTotal | INTERFACE_IMGUNICA_Credencial.py:117 | counting one more row raises the total by one |
| Summary.TallyLookup | INTERFACE_IMGUNICA_Credencial.py:117 | counting one more row raises its name's count by one and leaves every other count unchanged |
| Summary.TallyAscending | INTERFACE_IMGUNICA_Credencial.py:117 | counting one more row keeps the names strictly ascending |
| Summary.LookupAt | INTERFACE_IMGUNICA_Credencial.py:117 | in a summary with ascending names each entry's count is the count looked up by its name |
| Summary.CountPositive | INTERFACE_IMGUNICA_Credencial.py:117 | a name occurring in the log has a positive count |
| Summary.CountAppend | INTERFACE_IMGUNICA_Credencial.py:108-117 | the count of a name in two joined logs is the sum of its counts in each |
| StringOrder.LessIrreflexive | INTERFACE_IMGUNICA_Credencial.py:117 | no class name sorts before itself |
| StringOrder.LessAsymmetric | INTERFACE_IMGUNICA_Credencial.py:117 | two class names never sort before each other |
| StringOrder.LessTransitive | INTERFACE_IMGUNICA_Credencial.py:117 | the name order is transitive |
| StringOrder.LessTotal | INTERFACE_IMGUNICA_Credencial.py:117 | any two different class names are ordered one way or the other |
| Page.PredictClicked | INTERFACE_IMGUNICA_Credencial.py:58-117 | nothing is predicted iff no upload decodes; on success there is one batch per accepted image in order, the file becomes the old log followed by the new rows, and the chart is the summary of the new log; on failure the file is unchanged and the error is that of the first accepted image whose result is malformed |
| Page.PredictClickedAsWritten | INTERFACE_IMGUNICA_Credencial.py:58-117 | as written: nothing is predicted iff no upload decodes; if any accepted image has no detections the action aborts and the file is unchanged; the abort names the first accepted image that is malformed or has no detections; on success every batch is non-empty, the file becomes the old log followed by the new rows, and the chart is the summary of the new log |

## Findings

| source | as written | input that shows it | evidently intended | confidence | as-written member | corrected member |
|---|---|---|---|---|---|---|
| INTERFACE_IMGUNICA_Credencial.py:95-98 | for an image with no detections `results_to_df` returns a frame with no columns, and selecting the display columns on line 96 raises, ending the predict action before anything is saved; the warning on line 98 is never reached | one uploaded image on which the detector finds no box (`boxes.xyxy` empty) | the image gets the "no detections" warning, contributes an empty batch, and the loop goes on to the remaining images and the save | not executed; high | Predict.PredictAsWritten, Predict.NoDetectionsCannotDisplay, Page.PredictClickedAsWritten | Predict.PredictAll, Page.PredictClicked |

`Page.PredictClicked` uses the corrected loop; `Page.PredictClickedAsWritten` keeps the page as written.

## Left out

- The page layout, headers, thumbnails, messages and the button (lines 10-22, 55-56, 71-78, 91-93, 97-100, 111-114, 124-127): presentation only; a reported failure is modelled as the file's name in `rejected`. The column selection on line 96 is modelled (`Predict.ResultFrame`, `Predict.CanSelect`), and with it whether the warning branch on lines 97-98 can be reached.
- Loading, caching and running the detector, and drawing the annotated image (lines 24-29, 85-90): a foreign library, replaced by the `detect` parameter. That parameter is a total function, so a detector call that raises (which would propagate uncaught and end the action) is not modelled.
- Image decoding (line 65): replaced by the `decode` parameter.
- Writing and parsing `predictions.csv` and checking that it exists (lines 107-110, 115-116): the file is the `contents` field and is assumed to read back exactly the rows written. Reading back can change values in the real program (a numeric-looking image name becomes a number, a class name such as `NA` becomes missing and drops out of the counts, floats pass through text); none of that is modelled.
- A first save of only empty batches writes a file with no header that cannot be read back; the model gives a log with no rows.
- Bar chart drawing (lines 118-123): presentation only; the model stops at the counts.
- The conversion of class indices from float to int (line 36): class indices are carried as integers.
- Concurrent saves to the same file and a save interrupted between read and write: the model runs each action to completion.
- Page.PredictClicked: runs the corrected loop, so an image without detections gives an empty batch and the save goes ahead; the page's behaviour as written (abort, nothing saved, no chart) is `Page.PredictClickedAsWritten`.
- Login and clearing the log: not part of this page.
