/** The final inference layer of SSD: the `Detect` object, its configuration, and the index
    bookkeeping of its forward pass around the external decode, nms and sort steps. */
module Detection {
  import opened DetectionSpec

  class Detect {
    var numClasses: nat
    var backgroundLabel: int
    var keepTopK: nat
    var nmsThreshold: real
    var nmsTopK: int
    var topK: int
    /** The output tensor [batch, keep_top_k, 7]; absent until the first forward pass. */
    var output: array3?<real>

    /** What construction establishes, and what the forward pass demands of the object it runs
        on: a positive overlap threshold, a stored cap that is never zero, and a per-class cap
        that is -1 or positive. */
    ghost predicate Valid()
      reads this`nmsThreshold, this`nmsTopK, this`topK
    {
      nmsThreshold > 0.0 && nmsTopK != 0 && topK == PerClassCap(nmsTopK)
    }

    /** Construction with an accepted threshold; `Create` is the call that may raise.
        `confThresh` is accepted and never stored, as in the layer itself. */
    constructor (numClasses: nat, backgroundLabel: int, keepTopK: nat, confThresh: real,
                 nmsThreshold: real, nmsTopK: Option<int>)
      requires nmsThreshold > 0.0
      ensures Valid()
      ensures this.numClasses == numClasses && this.backgroundLabel == backgroundLabel
      ensures this.keepTopK == keepTopK && this.nmsThreshold == nmsThreshold
      ensures this.nmsTopK == StoredNmsTopK(nmsTopK)
      ensures this.topK == if nmsTopK.Some? && nmsTopK.value > 0 then nmsTopK.value else -1
      ensures output == null
    {
      this.numClasses := numClasses;
      this.backgroundLabel := backgroundLabel;
      this.keepTopK := keepTopK;
      this.nmsThreshold := nmsThreshold;
      var stored := StoredNmsTopK(nmsTopK);
      var cap := -1;
      if stored > 0 {
        cap := stored;
      }
      this.nmsTopK := stored;
      this.topK := cap;
      output := null;
    }

    /** The whole constructor: it raises exactly when the threshold is not positive
        (zero included), and otherwise yields a configured object. */
    static method Create(numClasses: nat, backgroundLabel: int, keepTopK: nat, confThresh: real,
                         nmsThreshold: real, nmsTopK: Option<int>) returns (r: Result<Detect, ConfigError>)
      ensures r.Failure? <==> nmsThreshold <= 0.0
      ensures r.Failure? ==> r.error == NmsThresholdNotPositive
      ensures r.Success? ==> fresh(r.value) && r.value.Valid() && r.value.output == null
      ensures r.Success? ==>
                r.value.numClasses == numClasses && r.value.backgroundLabel == backgroundLabel
                && r.value.keepTopK == keepTopK && r.value.nmsThreshold == nmsThreshold
      ensures r.Success? ==> r.value.nmsTopK == StoredNmsTopK(nmsTopK)
      ensures r.Success? ==> r.value.topK == if nmsTopK.Some? && nmsTopK.value > 0 then nmsTopK.value else -1
    {
      if nmsThreshold <= 0.0 {
        return Failure(NmsThresholdNotPositive);
      }
      var d := new Detect(numClasses, backgroundLabel, keepTopK, confThresh, nmsThreshold, nmsTopK);
      return Success(d);
    }

    // -------------------------------------------------------------------------
    // Specification of one image's pass

    /** The per-class NMS results the forward pass collects for one image. */
    function Survivors(boxes: seq<Box>, conf: seq<seq<real>>, nms: NmsFn): seq<seq<int>>
      reads this`numClasses, this`backgroundLabel, this`nmsThreshold, this`topK
      requires numClasses <= |conf|
    {
      NmsLists(nms, boxes, conf, nmsThreshold, topK, backgroundLabel, numClasses)
    }

    /** The gather step applies: background at class 0, one score row per class, and every
        survivor index is in range for the scores it is read against. */
    predicate Gathers(boxes: seq<Box>, conf: seq<seq<real>>, nms: NmsFn)
      reads this`numClasses, this`backgroundLabel, this`nmsThreshold, this`topK
    {
      backgroundLabel == 0 && numClasses <= |conf| && Gatherable(Survivors(boxes, conf, nms), conf)
    }

    /** What sort is handed for one image, and what it returns. */
    function ImageRanking(boxes: seq<Box>, conf: seq<seq<real>>, nms: NmsFn, sort: SortFn): Ranking
      reads this`numClasses, this`backgroundLabel, this`nmsThreshold, this`topK, this`keepTopK
      requires Gathers(boxes, conf, nms)
    {
      var lists := Survivors(boxes, conf, nms);
      var cands := AllCandidates(lists, conf, |lists|);
      sort(ScoresOf(cands), IndicesOf(cands), LabelsOf(cands), OutputLength(TotalLength(lists), keepTopK))
    }

    /** Everything the external steps must deliver for one image to be written. */
    predicate ImageReady(boxes: seq<Box>, conf: seq<seq<real>>, nms: NmsFn, sort: SortFn)
      reads this`numClasses, this`backgroundLabel, this`nmsThreshold, this`topK, this`keepTopK
    {
      Gathers(boxes, conf, nms)
      && Fits(ImageRanking(boxes, conf, nms, sort),
              OutputLength(TotalLength(Survivors(boxes, conf, nms)), keepTopK), |boxes|)
    }

    /** The records written for image i: min(num_det, keep_top_k) of them. */
    function OutputRows(i: nat, boxes: seq<Box>, conf: seq<seq<real>>, nms: NmsFn, sort: SortFn): (r: seq<Detection>)
      reads this`numClasses, this`backgroundLabel, this`nmsThreshold, this`topK, this`keepTopK
      requires ImageReady(boxes, conf, nms, sort)
      ensures |r| == OutputLength(TotalLength(Survivors(boxes, conf, nms)), keepTopK)
      ensures |r| <= keepTopK
    {
      ImageDetections(i, boxes, ImageRanking(boxes, conf, nms, sort))
    }

    // -------------------------------------------------------------------------
    // The forward pass

    /** The counting loop: one NMS list per non-background class, and `num_det` their total. */
    method CollectNms(boxes: seq<Box>, conf: seq<seq<real>>, nms: NmsFn) returns (indices: seq<seq<int>>, numDet: nat)
      requires numClasses <= |conf|
      ensures indices == Survivors(boxes, conf, nms)
      ensures |indices| == if 0 <= backgroundLabel < numClasses then numClasses - 1 else numClasses
      ensures numDet == TotalLength(indices)
      ensures numDet == SurvivorCount(nms, boxes, conf, nmsThreshold, topK, backgroundLabel, numClasses)
    {
      indices := [];
      numDet := 0;
      for c := 0 to numClasses
        invariant indices == NmsLists(nms, boxes, conf, nmsThreshold, topK, backgroundLabel, c)
        invariant numDet == TotalLength(indices)
      {
        if c != backgroundLabel {
          TotalLengthSnoc(indices, nms(boxes, conf[c], nmsThreshold, topK));
          indices := indices + [nms(boxes, conf[c], nmsThreshold, topK)];
          numDet := numDet + |indices[|indices| - 1]|;
        }
      }
    }

    /** The flatten loop: a cursor walks three arrays of `num_det` slots and fills them
        class-major, the list at position `number` under label number + 1.  `written`
        records the cursor at every write: each slot is written once, in order. */
    method Flatten(indices: seq<seq<int>>, numDet: nat, conf: seq<seq<real>>)
      returns (scorePairs: array<real>, indicesList: array<int>, labelList: array<int>, ghost written: seq<nat>)
      requires backgroundLabel == 0
      requires |indices| == ClassRounds(numClasses)
      requires numDet == TotalLength(indices)
      requires Gatherable(indices, conf)
      ensures scorePairs.Length == numDet && indicesList.Length == numDet && labelList.Length == numDet
      ensures scorePairs[..] == ScoresOf(AllCandidates(indices, conf, |indices|))
      ensures indicesList[..] == IndicesOf(AllCandidates(indices, conf, |indices|))
      ensures labelList[..] == LabelsOf(AllCandidates(indices, conf, |indices|))
      ensures |written| == numDet && forall r | 0 <= r < numDet :: written[r] == r
    {
      scorePairs := new real[numDet];
      indicesList := new int[numDet];
      labelList := new int[numDet];
      written := [];
      assert indices[..|indices|] == indices;
      var ref := 0;
      for number := 0 to ClassRounds(numClasses)
        invariant ref == |AllCandidates(indices, conf, number)|
        invariant Holds(scorePairs, indicesList, labelList, AllCandidates(indices, conf, number))
        invariant |written| == ref && forall r | 0 <= r < ref :: written[r] == r
      {
        CandidatesBound(indices, conf, number);
        ref, written := GatherClass(indices[number], number + 1, conf, scorePairs, indicesList, labelList,
                                    ref, AllCandidates(indices, conf, number), written);
      }
      HoldsAsSeqs(scorePairs, indicesList, labelList, AllCandidates(indices, conf, |indices|));
    }

    /** The row loop: row j of image i becomes the record (i + 1, label, score, box) of the
        j-th ranked entry; every other cell keeps its contents. */
    method WriteRows(i: nat, boxes: seq<Box>, finals: Ranking)
      requires output != null && i < output.Length0 && output.Length2 == 7
      requires |finals.indices| <= output.Length1
      requires Fits(finals, |finals.indices|, |boxes|)
      modifies output
      ensures RowsHold(output, i, ImageDetections(i, boxes, finals))
      ensures forall a, j, k | 0 <= a < output.Length0 && 0 <= j < output.Length1 && 0 <= k < 7
                && !(a == i && j < |finals.indices|) :: output[a, j, k] == old(output[a, j, k])
    {
      ghost var dets := ImageDetections(i, boxes, finals);
      for j := 0 to |finals.indices|
        invariant RowsHold(output, i, dets[..j])
        invariant forall a, b, k | 0 <= a < output.Length0 && 0 <= b < output.Length1 && 0 <= k < 7
                    && !(a == i && b < j) :: output[a, b, k] == old(output[a, b, k])
      {
        var idx := finals.indices[j];
        output[i, j, 0] := (i + 1) as real;
        output[i, j, 1] := finals.labels[j] as real;
        output[i, j, 2] := finals.scores[j];
        output[i, j, 3] := boxes[idx].x1;
        output[i, j, 4] := boxes[idx].y1;
        output[i, j, 5] := boxes[idx].x2;
        output[i, j, 6] := boxes[idx].y2;
        assert Cells(dets[j]) == [output[i, j, 0], output[i, j, 1], output[i, j, 2], output[i, j, 3],
                                  output[i, j, 4], output[i, j, 5], output[i, j, 6]];
      }
      assert dets[..|finals.indices|] == dets;
    }

    /** The body of the per-image loop for image i: count, flatten, truncate, rank, write. */
    method ForwardImage(i: nat, boxes: seq<Box>, conf: seq<seq<real>>, nms: NmsFn, sort: SortFn)
      requires output != null && i < output.Length0 && output.Length1 == keepTopK && output.Length2 == 7
      requires ImageReady(boxes, conf, nms, sort)
      modifies output
      ensures RowsHold(output, i, OutputRows(i, boxes, conf, nms, sort))
      ensures forall a, j, k | 0 <= a < output.Length0 && 0 <= j < output.Length1 && 0 <= k < 7
                && !(a == i && j < |OutputRows(i, boxes, conf, nms, sort)|) :: output[a, j, k] == old(output[a, j, k])
    {
      var indices, numDet := CollectNms(boxes, conf, nms);
      var scorePairs: array<real>, indicesList: array<int>, labelList: array<int>;
      ghost var written: seq<nat>;
      scorePairs, indicesList, labelList, written := Flatten(indices, numDet, conf);
      var length := OutputLength(numDet, keepTopK);
      var finals := sort(scorePairs[..], indicesList[..], labelList[..], length);
      WriteRows(i, boxes, finals);
    }

    /** The forward pass as written: the `return` sits inside the per-image loop, so only
        image 0 is written. Taking the per-image scores as given (the batch reshape of the layer
        itself names an undefined variable for any batch size other than one), an empty batch
        would return nothing (`returned` is false). `init` stands for the unknown, cell by cell
        contents of the freshly allocated, uninitialised output. */
    method Forward<Loc, Prior>(locData: seq<Loc>, priorData: Prior, confPreds: seq<seq<seq<real>>>,
                               decode: (Loc, Prior, seq<real>) -> seq<Box>, nms: NmsFn, sort: SortFn,
                               init: (int, int, int) -> real)
      returns (returned: bool)
      requires Valid()
      requires |confPreds| == |locData|
      requires |locData| > 0 ==> ImageReady(decode(locData[0], priorData, Variances), confPreds[0], nms, sort)
      modifies this`output
      ensures output != null && fresh(output)
      ensures output.Length0 == |locData| && output.Length1 == keepTopK && output.Length2 == 7
      ensures returned <==> |locData| > 0
      ensures |locData| > 0 ==>
        RowsHold(output, 0, OutputRows(0, decode(locData[0], priorData, Variances), confPreds[0], nms, sort))
      ensures forall a, j, k | 0 <= a < output.Length0 && 0 <= j < output.Length1 && 0 <= k < 7
                && !(a == 0 && j < |OutputRows(0, decode(locData[0], priorData, Variances), confPreds[0], nms, sort)|)
                :: output[a, j, k] == init(a, j, k)
    {
      var out := new real[|locData|, keepTopK, 7]((a, b, c) => init(a, b, c));
      output := out;
      for i := 0 to |locData|
        invariant i == 0
        invariant output == out
        invariant forall a, b, c | 0 <= a < out.Length0 && 0 <= b < out.Length1 && 0 <= c < 7 :: out[a, b, c] == init(a, b, c)
      {
        var boxes := decode(locData[i], priorData, Variances);
        var confScores := confPreds[i];
        ForwardImage(i, boxes, confScores, nms, sort);
        return true;
      }
      return false;
    }

    /** The forward pass with the `return` after the loop: every image of the batch is written,
        and every cell past an image's records keeps its initial contents `init`. */
    method ForwardAll<Loc, Prior>(locData: seq<Loc>, priorData: Prior, confPreds: seq<seq<seq<real>>>,
                                  decode: (Loc, Prior, seq<real>) -> seq<Box>, nms: NmsFn, sort: SortFn,
                                  init: (int, int, int) -> real)
      requires Valid()
      requires |confPreds| == |locData|
      requires forall i | 0 <= i < |locData| ::
        ImageReady(decode(locData[i], priorData, Variances), confPreds[i], nms, sort)
      modifies this`output
      ensures output != null && fresh(output)
      ensures output.Length0 == |locData| && output.Length1 == keepTopK && output.Length2 == 7
      ensures forall i | 0 <= i < |locData| ::
        RowsHold(output, i, OutputRows(i, decode(locData[i], priorData, Variances), confPreds[i], nms, sort))
      ensures forall a, j, k | 0 <= a < output.Length0 && 0 <= j < output.Length1 && 0 <= k < 7
                && j >= |OutputRows(a, decode(locData[a], priorData, Variances), confPreds[a], nms, sort)|
                :: output[a, j, k] == init(a, j, k)
    {
      ghost var rows := seq(|locData|, a
        requires 0 <= a < |locData| && ImageReady(decode(locData[a], priorData, Variances), confPreds[a], nms, sort)
        reads this =>
        OutputRows(a, decode(locData[a], priorData, Variances), confPreds[a], nms, sort));
      var out := new real[|locData|, keepTopK, 7]((a, b, c) => init(a, b, c));
      output := out;
      for i := 0 to |locData|
        invariant output == out
        invariant forall a, j, k | 0 <= a < out.Length0 && 0 <= j < out.Length1 && 0 <= k < 7 ::
          out[a, j, k] == if a < i && j < |rows[a]| then Cells(rows[a][j])[k] else init(a, j, k)
      {
        var boxes := decode(locData[i], priorData, Variances);
        var confScores := confPreds[i];
        ForwardImage(i, boxes, confScores, nms, sort);
        assert rows[i] == OutputRows(i, boxes, confScores, nms, sort);
      }
      forall a | 0 <= a < |locData|
        ensures rows[a] == OutputRows(a, decode(locData[a], priorData, Variances), confPreds[a], nms, sort)
      {
      }
    }
  }

  /** The first |cs| slots of the three arrays hold the scores, indices and labels of cs. */
  ghost predicate Holds(scorePairs: array<real>, indicesList: array<int>, labelList: array<int>, cs: seq<Candidate>)
    reads scorePairs, indicesList, labelList
  {
    |cs| <= scorePairs.Length && |cs| <= indicesList.Length && |cs| <= labelList.Length
    && forall r | 0 <= r < |cs| ::
      scorePairs[r] == cs[r].score && indicesList[r] == cs[r].index && labelList[r] == cs[r].classLabel
  }

  /** One round of the flatten loop: the entries of one list go, under one label and with that
      label's scores, into the slots from the cursor `ref` on, each slot written once. */
  method GatherClass(labelIndices: seq<int>, classLabel: nat, conf: seq<seq<real>>,
                     scorePairs: array<real>, indicesList: array<int>, labelList: array<int>,
                     ref: nat, ghost done: seq<Candidate>, ghost written: seq<nat>)
    returns (cursor: nat, ghost written': seq<nat>)
    requires classLabel < |conf| && forall k | 0 <= k < |labelIndices| :: 0 <= labelIndices[k] < |conf[classLabel]|
    requires indicesList != labelList
    requires ref == |done| && |written| == ref && forall r | 0 <= r < ref :: written[r] == r
    requires ref + |labelIndices| <= scorePairs.Length && ref + |labelIndices| <= indicesList.Length
             && ref + |labelIndices| <= labelList.Length
    requires Holds(scorePairs, indicesList, labelList, done)
    modifies scorePairs, indicesList, labelList
    ensures cursor == ref + |labelIndices|
    ensures Holds(scorePairs, indicesList, labelList, done + ClassCandidates(labelIndices, classLabel, conf))
    ensures |written'| == cursor && forall r | 0 <= r < cursor :: written'[r] == r
  {
    cursor := ref;
    written' := written;
    for index := 0 to |labelIndices|
      invariant cursor == ref + index
      invariant Holds(scorePairs, indicesList, labelList, done + ClassCandidates(labelIndices[..index], classLabel, conf))
      invariant |written'| == cursor && forall r | 0 <= r < cursor :: written'[r] == r
    {
      var idx := labelIndices[index];
      indicesList[cursor] := idx;
      scorePairs[cursor] := conf[classLabel][idx];
      labelList[cursor] := classLabel;
      written' := written' + [cursor];
      cursor := cursor + 1;
      ClassCandidatesSnoc(labelIndices, classLabel, conf, index);
    }
    assert labelIndices[..|labelIndices|] == labelIndices;
  }

  /** The candidates of the first n + 1 lists still fit in the whole: the cursor stays below num_det. */
  lemma CandidatesBound(lists: seq<seq<int>>, conf: seq<seq<real>>, n: nat)
    requires n < |lists| && Gatherable(lists, conf)
    ensures |AllCandidates(lists, conf, n)| + |lists[n]| <= TotalLength(lists)
  {
    assert |AllCandidates(lists, conf, n + 1)| == |AllCandidates(lists, conf, n)| + |lists[n]|;
    PrefixTotal(lists, n + 1);
  }

  /** Full arrays that hold cs are the columns of cs. */
  lemma HoldsAsSeqs(scorePairs: array<real>, indicesList: array<int>, labelList: array<int>, cs: seq<Candidate>)
    requires Holds(scorePairs, indicesList, labelList, cs)
    requires scorePairs.Length == |cs| && indicesList.Length == |cs| && labelList.Length == |cs|
    ensures scorePairs[..] == ScoresOf(cs) && indicesList[..] == IndicesOf(cs) && labelList[..] == LabelsOf(cs)
  {
  }

  /** Extending the prefix of one list by an entry appends that entry's candidate. */
  lemma ClassCandidatesSnoc(list: seq<int>, classLabel: nat, conf: seq<seq<real>>, index: nat)
    requires classLabel < |conf| && index < |list|
    requires forall k | 0 <= k < |list| :: 0 <= list[k] < |conf[classLabel]|
    ensures ClassCandidates(list[..index + 1], classLabel, conf)
            == ClassCandidates(list[..index], classLabel, conf)
               + [Candidate(list[index], classLabel, conf[classLabel][list[index]])]
  {
  }

  /** Rows 0 .. |dets|-1 of image i hold the cells of dets. */
  ghost predicate RowsHold(out: array3<real>, i: nat, dets: seq<Detection>)
    reads out
  {
    i < out.Length0 && |dets| <= out.Length1 && out.Length2 == 7
    && forall j, k | 0 <= j < |dets| && 0 <= k < 7 :: out[i, j, k] == Cells(dets[j])[k]
  }

  /** The cursor never passes the total: TotalLength of a prefix is at most the whole. */
  lemma {:induction false} PrefixTotal(lists: seq<seq<int>>, n: nat)
    requires n <= |lists|
    ensures TotalLength(lists[..n]) <= TotalLength(lists)
  {
    if n < |lists| {
      PrefixTotal(lists[..|lists| - 1], n);
      assert lists[..|lists| - 1][..n] == lists[..n];
    } else {
      assert lists[..n] == lists;
    }
  }
}
