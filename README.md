# SSD detection layer: index bookkeeping

This project models `Detect`, the last layer of an SSD object detector at inference time
(`functions/detection.py`). The constructor checks the configuration and normalises it.
The NMS overlap threshold must be strictly positive. The per-class cap `top_k` is `-1` or a
positive number. The forward pass, for one image:

1. runs NMS once per non-background class and counts the survivors (`num_det`);
2. flattens the per-class survivor lists into three parallel arrays (`indices_list`,
   `score_pairs`, `label_list`) with a running cursor `ref`, giving the list at position
   `number` the label `number + 1`;
3. keeps `min(num_det, keep_top_k)` entries through an external ranking step;
4. writes one 7-cell row `(image_id, label, score, x1, y1, x2, y2)` per kept entry into the
   output tensor `[batch, keep_top_k, 7]`, with `image_id = i + 1`.

The external steps `decode`, `nms` and `sort` are function-typed parameters. No behaviour is
invented for them. The model only states what the layer demands of their results:
- every survivor index is in range for the scores it is read against;
- `sort` fills exactly `min(num_det, keep_top_k)` entries;
- every ranked index names a decoded box.

Scores and coordinates are only copied, so they are `real`. The output tensor is an
`array3<real>` field of the `Detect` class. The three gather buffers are arrays filled in place.

Module `DetectionSpec` (`detection_spec.dfy`) holds the value types and the specification
functions: `NmsLists`, `SurvivorCount`, `TotalLength`, `AllCandidates`, `OutputLength`,
`ImageDetections` and `Cells`. It also holds the lemmas about them. Module `Detection`
(`detection.dfy`) holds the `Detect` class, whose methods are proved against those functions.

Where the code departs from the documented design of the layer, the model follows the code:
- `conf_thresh` is accepted by the constructor but never stored or applied. The model has no
  score pre-filter.
- The output tensor is not zero-filled. The function parameter `init` stands for its unknown
  initial contents, which may differ from cell to cell, and a cell `[a, j, k]` that is never
  written keeps `init(a, j, k)`.
- The error message says "non negative", but a threshold of exactly zero is rejected too.
  `Create` fails exactly when `nms_threshold <= 0`.

## Model

| member | source | states |
|---|---|---|
| `DetectionSpec.StoredNmsTopK` | functions/detection.py:25 | `nms_top_k or -1`: an absent or zero cap is stored as -1, any other value unchanged; the stored value is never 0 |
| `DetectionSpec.PerClassCap` | functions/detection.py:24-27 | the per-class cap is -1 or positive; it is positive exactly when the stored cap is, and then equals it |
| `Detection.Detect.constructor` | functions/detection.py:16-27 | an accepted configuration is stored field by field; `top_k` is `nms_top_k` when that is given and positive, otherwise -1; no output exists yet |
| `Detection.Detect.Create` | functions/detection.py:16-27 | construction fails with the threshold error exactly when `nms_threshold <= 0` (zero included), and otherwise yields a fresh, valid, configured object |
| `Detection.Detect.CollectNms` | functions/detection.py:54-60 | the counting loop appends one NMS result per class other than the background, in class order, and ends with `num_det` equal to the summed survivor count |
| `DetectionSpec.NmsLists` | functions/detection.py:56-59 | the `indices` list: one NMS result per non-background class, in class order, so `num_classes - 1` lists when the background is a class of the configuration, else `num_classes` |
| `DetectionSpec.SurvivorCount` | functions/detection.py:54-60 | `num_det`: the number of survivors summed over the non-background classes, equal to the total length of the collected lists |
| `DetectionSpec.NmsListsAt` | functions/detection.py:56-59 | the list at position `number` is the NMS result of class `number` before the background and `number + 1` from it on |
| `Detection.Detect.Flatten` | functions/detection.py:61-75 | with background 0, the three arrays have `num_det` slots; each slot is written once, in cursor order; they hold the index, score and label columns of the flattened candidates |
| `Detection.GatherClass` | functions/detection.py:67-75 | one round of the inner loop: the entries of one list go, in order, into the slots from the cursor on, under that round's label and with that label's score; the cursor advances by the list's length |
| `DetectionSpec.ClassCandidates` | functions/detection.py:66-74 | the entries gathered from one list: the index column is the list itself, in order, every label is the round's label, and every score is that label's score for the index |
| `DetectionSpec.AllCandidates` | functions/detection.py:61-75 | the flattened candidates of the first n lists, the list at position `number` under label `number + 1`; there are exactly as many as the lists' total length, so the cursor ends at `num_det` |
| `DetectionSpec.CandidateAt` | functions/detection.py:65-75 | the k-th entry of list `number` lands at flat position (sum of the earlier lists' lengths) + k, with that index, label `number + 1` and score `conf_scores[number + 1][index]` |
| `DetectionSpec.CandidateWellFormed` | functions/detection.py:66-74 | every written label lies in 1 .. number of lists, so label 0 never appears; each index comes from its label's list; each score is that label's score for that index |
| `DetectionSpec.GatheredFromOwnClass` | functions/detection.py:56-74 | with background 0, every gathered entry was kept by NMS for the very class it is labelled with, and that label is in 1 .. `num_classes - 1` |
| `DetectionSpec.LabelShiftWithBackgroundOne` | functions/detection.py:66-68 | with two classes and background 1, the class-0 survivors are written under label 1 (the background) with the background's score: the label mapping assumes background 0 |
| `DetectionSpec.OutputLength` | functions/detection.py:76 | the kept length is at most `num_det` and at most `keep_top_k`, and equals one of them |
| `Detection.Detect.OutputRows` | functions/detection.py:76-91 | an image gets exactly `min(num_det, keep_top_k)` rows, never more than `keep_top_k` |
| `DetectionSpec.ImageDetections` | functions/detection.py:83-91 | row j of image i is image id i + 1 with the j-th ranked label and score and the box at the j-th ranked index |
| `DetectionSpec.Cells` | functions/detection.py:85-91 | a record becomes seven cells in the order (image_id, label, score, x1, y1, x2, y2), integer fields as reals; its inverse is `FromCells` (see `CellsRoundTrip`) |
| `DetectionSpec.CellsRoundTrip` | functions/detection.py:85-91 | the seven cells of a record read back as the same record (integer id and label stored as reals) |
| `Detection.Detect.WriteRows` | functions/detection.py:83-91 | the first `len(final_indices)` rows of image i hold the records of the ranked entries; every other cell of the output keeps its contents |
| `Detection.Detect.ForwardImage` | functions/detection.py:53-91 | one image's pass (count, flatten, truncate, rank, write) leaves that image's first `min(num_det, keep_top_k)` rows holding its records and every other cell unchanged |
| `Detection.Detect.Forward` | functions/detection.py:40-92 | as written: a fresh `[batch, keep_top_k, 7]` output; only image 0's rows are written; every other cell `[a, j, k]` keeps its uninitialised contents `init(a, j, k)`; with the per-image scores taken as given, an empty batch returns nothing |
| `Detection.Detect.ForwardAll` | functions/detection.py:40-92 | with the return after the loop: every image's first `min(num_det, keep_top_k)` rows hold its records and every remaining cell `[a, j, k]` keeps its initial contents `init(a, j, k)` |

## Findings

| source | as written | input that shows it | evidently intended | confidence | as-written member | corrected member |
|---|---|---|---|---|---|---|
| functions/detection.py:92 | `return self.output` is indented inside `for i in range(num)` | a batch of two images: the pass returns after image 0 and image 1's rows keep the uninitialised contents. This holds only if the line-45 reshape worked (see below) | return after the loop, so that every image of the batch is written | high; not executed | `Detection.Detect.Forward` | `Detection.Detect.ForwardAll` |

For any batch size other than one, zero included, line 42 takes the `else` branch. The
line-45 reshape there names the undefined `num_priors`, so the code as written raises before
the loop at line 50 starts. An empty batch therefore raises too; it does not return `None`.
The model takes the per-image class-major scores as given, as if that reshape worked. That is
the only way the early return can be seen.

## Left out

- `decode`, `nms` and `sort`: their bodies are not part of this model. They are total function parameters and never get semantics such as IoU, score order or tie-breaking.
- Box decoding arithmetic and the variance vector's use: floating point. The variances are passed to `decode` as a constant.
- The tensor reshapes and transposes at lines 42-45, `.clone()` and `.contiguous()`: the scores come in as one class-major matrix per image. The undefined `num_priors` on the batch path is not modelled (see Findings).
- Uninitialised `torch.Tensor` buffers: the output's unknown contents are the function parameter `init`, one value per cell. The gather buffers are fully overwritten, so their initial contents do not matter. The zeroed `final_*` buffers are replaced by what `sort` delivers.
- `num_kept` (line 81): never read.
- Indices and labels kept as `int` throughout: the source stores them in float tensors (`indices_list` and `label_list` at lines 63-64, the `final_*` buffers at lines 77-79) and reads them back with `int(...)` at lines 70 and 84. This is exact only while they stay below 2^24, where single-precision floats represent every integer; SSD's prior and class counts are far below that, and the rounding beyond it is not modelled.
- The autograd `Function` base class, CUDA and cudnn imports, training and backward behaviour.
- Detection.Detect.Flatten: requires `background_label == 0`. Label `number + 1` names the class whose list sits at position `number` only then (see `LabelShiftWithBackgroundOne`).
- Detection.Detect.Flatten: requires every survivor index `idx` to satisfy `0 <= idx < len(conf_scores[label])`. The assert at line 72 checks only `idx <= size`, which lets `idx == size` through to an index error. Negative indices, which torch would wrap around, are excluded too.
- Detection.Detect.Forward: requires `sort` to fill exactly `min(num_det, keep_top_k)` entries whose indices name decoded boxes. Out-of-range or negative final indices are not modelled.
- Detection.Detect.constructor: `num_classes` and `keep_top_k` are natural numbers. A negative `keep_top_k` would make the output allocation at line 41 fail, and a negative `num_classes` only empties the loops.
- Detection.Detect.constructor: `nms_top_k` is an optional integer. Other falsy Python values (`False`, `0.0`) behave like 0 and are not separately modelled.
