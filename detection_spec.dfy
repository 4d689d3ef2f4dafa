/** Values and specification functions for the bookkeeping that the SSD detection layer
    performs around its external decode, non-maximum-suppression and ranking steps.
    Scores and box coordinates are only ever copied, so they are plain reals here. */
module DetectionSpec {

  datatype Option<T> = None | Some(value: T)

  datatype Result<T, E> = Success(value: T) | Failure(error: E)

  /** The one configuration error the constructor raises (a Python ValueError). */
  datatype ConfigError = NmsThresholdNotPositive

  /** A decoded box in corner form (x1, y1, x2, y2). */
  datatype Box = Box(x1: real, y1: real, x2: real, y2: real)

  /** One gathered entry: a box index that survived NMS, the label it is reported under,
      and the score read for it. */
  datatype Candidate = Candidate(index: int, classLabel: int, score: real)

  /** What the external ranking step writes into final_scores, final_indices and final_labels. */
  datatype Ranking = Ranking(scores: seq<real>, indices: seq<int>, labels: seq<int>)

  /** One output record (image_id, label, score, x1, y1, x2, y2). */
  datatype Detection = Detection(imageId: int, classLabel: int, score: real, box: Box)

  /** nms(decoded boxes, one class's scores, overlap threshold, per-class cap): survivor indices. */
  type NmsFn = (seq<Box>, seq<real>, real, int) -> seq<int>

  /** sort(scores, indices, labels, length): the contents of the three final arrays. */
  type SortFn = (seq<real>, seq<int>, seq<int>, nat) -> Ranking

  /** The variance vector the layer hands to decode. */
  const Variances: seq<real> := [0.1, 0.1, 0.2, 0.2]

  // ---------------------------------------------------------------------------
  // Configuration

  /** `nms_top_k or -1`: a falsy cap (absent or zero) is stored as -1. */
  function StoredNmsTopK(nmsTopK: Option<int>): (r: int)
    ensures r != 0
    ensures nmsTopK.Some? && nmsTopK.value != 0 ==> r == nmsTopK.value
    ensures nmsTopK.None? || nmsTopK.value == 0 ==> r == -1
  {
    if nmsTopK.Some? && nmsTopK.value != 0 then nmsTopK.value else -1
  }

  /** The per-class cap handed to nms: the stored cap when it is positive, otherwise -1. */
  function PerClassCap(storedNmsTopK: int): (r: int)
    ensures r == -1 || r > 0
    ensures r > 0 <==> storedNmsTopK > 0
    ensures r > 0 ==> r == storedNmsTopK
  {
    if storedNmsTopK > 0 then storedNmsTopK else -1
  }

  // ---------------------------------------------------------------------------
  // Counting the NMS survivors (one list per non-background class)

  /** Sum of the lengths of the lists. */
  function TotalLength(lists: seq<seq<int>>): nat
  {
    if lists == [] then 0 else TotalLength(lists[..|lists| - 1]) + |lists[|lists| - 1]|
  }

  lemma TotalLengthSnoc(lists: seq<seq<int>>, list: seq<int>)
    ensures TotalLength(lists + [list]) == TotalLength(lists) + |list|
  {
  }

  /** The NMS result lists for classes 0 .. n-1, skipping the background class, in class order:
      one list per class other than the background. */
  function NmsLists(nms: NmsFn, boxes: seq<Box>, conf: seq<seq<real>>, threshold: real, topK: int,
                    background: int, n: nat): (r: seq<seq<int>>)
    requires n <= |conf|
    ensures |r| == if 0 <= background < n then n - 1 else n
  {
    if n == 0 then []
    else
      NmsLists(nms, boxes, conf, threshold, topK, background, n - 1)
      + (if n - 1 == background then [] else [nms(boxes, conf[n - 1], threshold, topK)])
  }

  /** Number of NMS survivors summed over the classes 0 .. n-1 other than the background:
      the total length of the collected lists. */
  function SurvivorCount(nms: NmsFn, boxes: seq<Box>, conf: seq<seq<real>>, threshold: real, topK: int,
                         background: int, n: nat): (r: nat)
    requires n <= |conf|
    ensures r == TotalLength(NmsLists(nms, boxes, conf, threshold, topK, background, n))
  {
    if n == 0 then 0
    else
      var prev := NmsLists(nms, boxes, conf, threshold, topK, background, n - 1);
      if n - 1 == background then
        assert NmsLists(nms, boxes, conf, threshold, topK, background, n) == prev + [];
        assert prev + [] == prev;
        SurvivorCount(nms, boxes, conf, threshold, topK, background, n - 1)
      else
        TotalLengthSnoc(prev, nms(boxes, conf[n - 1], threshold, topK));
        SurvivorCount(nms, boxes, conf, threshold, topK, background, n - 1)
        + |nms(boxes, conf[n - 1], threshold, topK)|
  }

  /** The class whose list sits at position `number` once the background class is skipped. */
  function ClassAt(background: int, number: nat): nat
  {
    if 0 <= background <= number then number + 1 else number
  }

  /** The number of iterations of `range(num_classes - 1)`. */
  function ClassRounds(numClasses: nat): nat
  {
    if numClasses == 0 then 0 else numClasses - 1
  }

  /** The list at position `number` is the NMS result of class ClassAt(background, number). */
  lemma {:induction false} NmsListsAt(nms: NmsFn, boxes: seq<Box>, conf: seq<seq<real>>, threshold: real,
                                      topK: int, background: int, n: nat, number: nat)
    requires n <= |conf|
    requires number < |NmsLists(nms, boxes, conf, threshold, topK, background, n)|
    ensures ClassAt(background, number) < n
    ensures NmsLists(nms, boxes, conf, threshold, topK, background, n)[number]
            == nms(boxes, conf[ClassAt(background, number)], threshold, topK)
  {
    var prev := NmsLists(nms, boxes, conf, threshold, topK, background, n - 1);
    if number < |prev| {
      NmsListsAt(nms, boxes, conf, threshold, topK, background, n - 1, number);
    }
  }

  // ---------------------------------------------------------------------------
  // Flattening the lists into candidates (class-major, then list order)

  /** Every list at position m can be read against the scores of label m + 1. */
  predicate Gatherable(lists: seq<seq<int>>, conf: seq<seq<real>>)
  {
    forall m | 0 <= m < |lists| ::
      m + 1 < |conf| && forall k | 0 <= k < |lists[m]| :: 0 <= lists[m][k] < |conf[m + 1]|
  }

  /** The candidates of one list, all reported under the label `classLabel`. */
  function ClassCandidates(list: seq<int>, classLabel: nat, conf: seq<seq<real>>): (r: seq<Candidate>)
    requires classLabel < |conf|
    requires forall k | 0 <= k < |list| :: 0 <= list[k] < |conf[classLabel]|
    ensures |r| == |list|
    ensures forall k | 0 <= k < |r| ::
      r[k].index == list[k] && r[k].classLabel == classLabel && r[k].score == conf[classLabel][list[k]]
  {
    seq(|list|, k requires 0 <= k < |list| => Candidate(list[k], classLabel, conf[classLabel][list[k]]))
  }

  /** The candidates of the first n lists; the list at position m is reported under label m + 1.
      There is one candidate per list entry, so the cursor ends at the lists' total length. */
  function AllCandidates(lists: seq<seq<int>>, conf: seq<seq<real>>, n: nat): (r: seq<Candidate>)
    requires n <= |lists|
    requires Gatherable(lists, conf)
    ensures |r| == TotalLength(lists[..n])
  {
    if n == 0 then []
    else
      assert lists[..n][..n - 1] == lists[..n - 1];
      AllCandidates(lists, conf, n - 1) + ClassCandidates(lists[n - 1], n, conf)
  }

  function ScoresOf(cs: seq<Candidate>): seq<real>
  {
    seq(|cs|, r requires 0 <= r < |cs| => cs[r].score)
  }

  function IndicesOf(cs: seq<Candidate>): seq<int>
  {
    seq(|cs|, r requires 0 <= r < |cs| => cs[r].index)
  }

  function LabelsOf(cs: seq<Candidate>): seq<int>
  {
    seq(|cs|, r requires 0 <= r < |cs| => cs[r].classLabel)
  }

  /** The k-th entry of list `number` sits at flat position TotalLength(lists[..number]) + k
      and is reported under label number + 1 with the score of that label. */
  lemma {:induction false} CandidateAt(lists: seq<seq<int>>, conf: seq<seq<real>>, n: nat, number: nat, k: nat)
    requires n <= |lists|
    requires Gatherable(lists, conf)
    requires number < n && k < |lists[number]|
    ensures TotalLength(lists[..number]) + k < |AllCandidates(lists, conf, n)|
    ensures AllCandidates(lists, conf, n)[TotalLength(lists[..number]) + k]
            == Candidate(lists[number][k], number + 1, conf[number + 1][lists[number][k]])
  {
    if number < n - 1 {
      CandidateAt(lists, conf, n - 1, number, k);
    }
  }

  /** Each candidate comes from its own label's list, carries that label's score for its
      index, and its label lies in 1 .. n, so label 0 never appears. */
  lemma {:induction false} CandidateWellFormed(lists: seq<seq<int>>, conf: seq<seq<real>>, n: nat, r: nat)
    requires n <= |lists|
    requires Gatherable(lists, conf)
    requires r < |AllCandidates(lists, conf, n)|
    ensures 1 <= AllCandidates(lists, conf, n)[r].classLabel <= n
    ensures AllCandidates(lists, conf, n)[r].index in lists[AllCandidates(lists, conf, n)[r].classLabel - 1]
    ensures 0 <= AllCandidates(lists, conf, n)[r].index < |conf[AllCandidates(lists, conf, n)[r].classLabel]|
    ensures AllCandidates(lists, conf, n)[r].score
            == conf[AllCandidates(lists, conf, n)[r].classLabel][AllCandidates(lists, conf, n)[r].index]
  {
    var prev := AllCandidates(lists, conf, n - 1);
    if r < |prev| {
      CandidateWellFormed(lists, conf, n - 1, r);
    } else {
      var k := r - |prev|;
      assert AllCandidates(lists, conf, n)[r] == ClassCandidates(lists[n - 1], n, conf)[k];
    }
  }

  /** With the background at class 0, every gathered candidate was kept by NMS for the very
      class it is labelled with, and that label is a non-background class of the configuration. */
  lemma GatheredFromOwnClass(nms: NmsFn, boxes: seq<Box>, conf: seq<seq<real>>, threshold: real,
                             topK: int, numClasses: nat, r: nat)
    requires numClasses <= |conf|
    requires Gatherable(NmsLists(nms, boxes, conf, threshold, topK, 0, numClasses), conf)
    requires r < |AllCandidates(NmsLists(nms, boxes, conf, threshold, topK, 0, numClasses), conf,
                                |NmsLists(nms, boxes, conf, threshold, topK, 0, numClasses)|)|
    ensures var lists := NmsLists(nms, boxes, conf, threshold, topK, 0, numClasses);
            var c := AllCandidates(lists, conf, |lists|)[r];
            0 < c.classLabel < numClasses && c.index in nms(boxes, conf[c.classLabel], threshold, topK)
  {
    var lists := NmsLists(nms, boxes, conf, threshold, topK, 0, numClasses);
    var c := AllCandidates(lists, conf, |lists|)[r];
    CandidateWellFormed(lists, conf, |lists|, r);
    NmsListsAt(nms, boxes, conf, threshold, topK, 0, numClasses, c.classLabel - 1);
  }

  /** Why the gather step needs the background at class 0: with two classes and background 1,
      the survivors of class 0 are reported under label 1 (the background) and are given the
      background's score. */
  lemma LabelShiftWithBackgroundOne(nms: NmsFn, boxes: seq<Box>, threshold: real, topK: int, a: real, b: real)
    requires nms(boxes, [a], threshold, topK) == [0]
    ensures NmsLists(nms, boxes, [[a], [b]], threshold, topK, 1, 2) == [[0]]
    ensures AllCandidates([[0]], [[a], [b]], 1) == [Candidate(0, 1, b)]
  {
    assert NmsLists(nms, boxes, [[a], [b]], threshold, topK, 1, 1) == [[0]];
    assert ClassCandidates([0], 1, [[a], [b]]) == [Candidate(0, 1, b)];
  }

  // ---------------------------------------------------------------------------
  // Truncation and output records

  /** `min(num_det, keep_top_k)`. */
  function OutputLength(numDet: nat, keepTopK: nat): (r: nat)
    ensures r <= numDet && r <= keepTopK
    ensures r == numDet || r == keepTopK
  {
    if numDet <= keepTopK then numDet else keepTopK
  }

  /** The ranking fills three arrays of `length` entries, and every index names a decoded box. */
  predicate Fits(finals: Ranking, length: nat, numBoxes: nat)
  {
    |finals.scores| == length && |finals.indices| == length && |finals.labels| == length
    && forall j | 0 <= j < length :: 0 <= finals.indices[j] < numBoxes
  }

  /** The records of image i: image id i + 1, then label, score and the indexed box. */
  function ImageDetections(i: nat, boxes: seq<Box>, finals: Ranking): (r: seq<Detection>)
    requires Fits(finals, |finals.indices|, |boxes|)
    ensures |r| == |finals.indices|
    ensures forall j | 0 <= j < |r| ::
      r[j].imageId == i + 1 && r[j].classLabel == finals.labels[j] && r[j].score == finals.scores[j]
      && r[j].box == boxes[finals.indices[j]]
  {
    seq(|finals.indices|, j requires 0 <= j < |finals.indices| =>
      Detection(i + 1, finals.labels[j], finals.scores[j], boxes[finals.indices[j]]))
  }

  /** The seven cells of an output row in the order (image_id, label, score, x1, y1, x2, y2);
      integer fields are stored as reals, and FromCells reads the row back. */
  function Cells(d: Detection): (r: seq<real>)
    ensures |r| == 7
  {
    [d.imageId as real, d.classLabel as real, d.score, d.box.x1, d.box.y1, d.box.x2, d.box.y2]
  }

  /** Reading a row back, as a consumer of the output does. */
  function FromCells(r: seq<real>): Detection
    requires |r| == 7
  {
    Detection(r[0].Floor, r[1].Floor, r[2], Box(r[3], r[4], r[5], r[6]))
  }

  lemma CellsRoundTrip(d: Detection)
    ensures FromCells(Cells(d)) == d
  {
  }
}
