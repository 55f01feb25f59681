/** Hand-keypoint extraction from a video (`extraer_keypoints_video`) and the
    shape check in front of the classifier (`predecir_palabra`).

    The video decoder and the hand detector are not modelled: a video is given
    as the detector's output for every frame the decoder reads, in order, plus
    the frame count the container reports (which may disagree with the number
    of frames actually readable). Keypoint values are only copied, never
    computed on. */
module Keypoints {
  import opened Wrappers

  /** Values per sampled frame: 21 landmarks, 3 coordinates, 2 hands. */
  const FeaturesPerFrame: nat := 126

  /** Rows per keypoint sequence. */
  const SequenceLength: nat := 30

  /** The landmark values the detector reported for one frame (x, y, z per
      landmark, hand after hand); empty when no hand was found. */
  type Detection = seq<real>

  /** One row of the keypoint sequence. */
  type Row = seq<real>

  /** A row of `n` zeros. */
  function Zeros(n: nat): Row
  {
    seq(n, _ => 0.0)
  }

  // ---------------------------------------------------------------------------
  // Per-frame normalisation
  // ---------------------------------------------------------------------------

  /** A frame's detection cut or zero-padded to exactly 126 values. */
  function NormalizeFrame(detected: Detection): (row: Row)
    ensures |row| == FeaturesPerFrame
    ensures forall i :: 0 <= i < FeaturesPerFrame ==>
              row[i] == (if i < |detected| then detected[i] else 0.0)
  {
    if |detected| == 0 then Zeros(FeaturesPerFrame)
    else if |detected| < FeaturesPerFrame then detected + Zeros(FeaturesPerFrame - |detected|)
    else if |detected| > FeaturesPerFrame then detected[..FeaturesPerFrame]
    else detected
  }

  /** The detected values survive as a prefix: a short detection is followed
      by zeros, a long one loses its tail, an empty one becomes all zeros. */
  lemma NormalizeKeepsPrefix(detected: Detection)
    ensures |detected| <= FeaturesPerFrame ==>
              NormalizeFrame(detected) == detected + Zeros(FeaturesPerFrame - |detected|)
    ensures |detected| >= FeaturesPerFrame ==>
              NormalizeFrame(detected) == detected[..FeaturesPerFrame]
    ensures |detected| == 0 ==> NormalizeFrame(detected) == Zeros(FeaturesPerFrame)
  {
    var row := NormalizeFrame(detected);
    if |detected| <= FeaturesPerFrame {
      var expected := detected + Zeros(FeaturesPerFrame - |detected|);
      assert forall i :: 0 <= i < FeaturesPerFrame ==> row[i] == expected[i];
    } else {
      assert forall i :: 0 <= i < FeaturesPerFrame ==> row[i] == detected[..FeaturesPerFrame][i];
    }
  }

  /** Normalising an already normalised row changes nothing. */
  lemma NormalizeIdempotent(detected: Detection)
    ensures NormalizeFrame(NormalizeFrame(detected)) == NormalizeFrame(detected)
  {
  }

  // ---------------------------------------------------------------------------
  // Frame sampling
  // ---------------------------------------------------------------------------

  /** The stride between processed frames, from the frame count the container
      reports. */
  function FrameInterval(totalFrames: int): (interval: nat)
    ensures interval >= 1
    ensures totalFrames <= SequenceLength ==> interval == 1
    ensures totalFrames > SequenceLength ==>
              interval * SequenceLength <= totalFrames < (interval + 1) * SequenceLength
  {
    if totalFrames > SequenceLength then Max(1, totalFrames / SequenceLength) else 1
  }

  function Max(a: int, b: int): int
  {
    if a >= b then a else b
  }

  lemma MulMonotone(a: int, b: int, d: nat)
    requires a <= b
    ensures a * d <= b * d
  {
  }

  /** A multiple of `d` that is above `(r - 1) * d` and at most `r * d` is `r * d`. */
  lemma MultipleInWindow(c: nat, d: nat, r: nat)
    requires d >= 1 && c % d == 0
    requires (r - 1) * d < c <= r * d
    ensures c == r * d
  {
    var q := c / d;
    assert c == q * d;
    if q < r {
      MulMonotone(q, r - 1, d);
    } else if q > r {
      MulMonotone(r + 1, q, d);
    }
  }

  /** Every multiple of `d` leaves remainder 0. */
  lemma MultipleHasNoRemainder(r: nat, d: nat)
    requires d >= 1
    ensures (r * d) % d == 0
  {
    var q, m := (r * d) / d, (r * d) % d;
    assert r * d == q * d + m;
    assert (r - q) * d == m;
    if r - q >= 1 {
      MulMonotone(1, r - q, d);
    } else if r - q <= -1 {
      MulMonotone(r - q, -1, d);
    }
  }

  /** The rows a sampling pass has collected after reading `count` frames:
      the normalised detections of frames 0, d, 2d, ... below `count`. */
  ghost predicate SampledBelow(detections: seq<Detection>, interval: nat, count: nat, rows: seq<Row>)
  {
    && interval >= 1
    && count <= |detections|
    && (|rows| - 1) * interval < count <= |rows| * interval
    && forall k :: 0 <= k < |rows| ==>
         k * interval < |detections| && rows[k] == NormalizeFrame(detections[k * interval])
  }

  /** One pass of the sampling loop keeps `SampledBelow`. */
  lemma SampleStep(detections: seq<Detection>, interval: nat, count: nat, rows: seq<Row>)
    requires SampledBelow(detections, interval, count, rows)
    requires count < |detections|
    ensures count % interval == 0 ==>
              SampledBelow(detections, interval, count + 1, rows + [NormalizeFrame(detections[count])])
    ensures count % interval != 0 ==> SampledBelow(detections, interval, count + 1, rows)
  {
    if count % interval == 0 {
      MultipleInWindow(count, interval, |rows|);
      var rows' := rows + [NormalizeFrame(detections[count])];
      assert |rows'| * interval == count + interval;
      assert forall k :: 0 <= k < |rows| ==> rows'[k] == rows[k];
    } else {
      MultipleHasNoRemainder(|rows|, interval);
      assert count != |rows| * interval;
    }
  }

  /** The sampling loop: reads frames from `count` on while fewer than 30 rows
      were collected, processing the frames whose index is a multiple of the
      interval. */
  function SampleFrom(detections: seq<Detection>, interval: nat, count: nat, rows: seq<Row>): (r: seq<Row>)
    requires |rows| <= SequenceLength
    requires SampledBelow(detections, interval, count, rows)
    ensures rows <= r
    ensures |r| <= SequenceLength
    ensures forall k :: 0 <= k < |r| ==>
              k * interval < |detections| && r[k] == NormalizeFrame(detections[k * interval])
    ensures |r| == SequenceLength || |r| * interval >= |detections|
    decreases |detections| - count
  {
    if |rows| == SequenceLength || count == |detections| then rows
    else
      SampleStep(detections, interval, count, rows);
      if count % interval == 0 then
        SampleFrom(detections, interval, count + 1, rows + [NormalizeFrame(detections[count])])
      else
        SampleFrom(detections, interval, count + 1, rows)
  }

  /** The sampled rows of a video: row k is the normalised detection of frame
      k * interval, in order, and sampling stops at 30 rows or when every
      frame whose index is a multiple of the interval has been taken. */
  function SampleFrames(totalFrames: int, detections: seq<Detection>): (rows: seq<Row>)
    ensures |rows| <= SequenceLength
    ensures forall k :: 0 <= k < |rows| ==>
              k * FrameInterval(totalFrames) < |detections|
              && rows[k] == NormalizeFrame(detections[k * FrameInterval(totalFrames)])
    ensures |rows| == SequenceLength || |rows| * FrameInterval(totalFrames) >= |detections|
  {
    SampleFrom(detections, FrameInterval(totalFrames), 0, [])
  }

  /** When the reported frame count is accurate and at least 30, sampling
      alone fills all 30 rows. */
  lemma SamplingFillsAccurateVideo(detections: seq<Detection>)
    requires |detections| >= SequenceLength
    ensures |SampleFrames(|detections|, detections)| == SequenceLength
  {
    var interval := FrameInterval(|detections|);
    var rows := SampleFrames(|detections|, detections);
    if |rows| < SequenceLength {
      MulMonotone(|rows|, SequenceLength - 1, interval);
    }
  }

  // ---------------------------------------------------------------------------
  // Padding and the whole extraction
  // ---------------------------------------------------------------------------

  /** The padding loop: appends `padding` until there are 30 rows. */
  function PadWith(rows: seq<Row>, padding: Row): (r: seq<Row>)
    ensures |r| == Max(|rows|, SequenceLength)
    ensures rows <= r
    ensures forall i :: |rows| <= i < |r| ==> r[i] == padding
    decreases SequenceLength - |rows|
  {
    if |rows| < SequenceLength then PadWith(rows + [padding], padding) else rows
  }

  /** Pads a short sequence with copies of its last row, or with zero rows
      when it is empty. */
  function PadSequence(rows: seq<Row>): seq<Row>
  {
    if |rows| < SequenceLength then
      var padding := if |rows| > 0 then rows[|rows| - 1] else Zeros(FeaturesPerFrame);
      PadWith(rows, padding)
    else rows
  }

  /** A numpy array shape of (`height`, `width`). */
  ghost predicate HasShape(kp: seq<Row>, height: nat, width: nat)
  {
    |kp| == height && forall i :: 0 <= i < |kp| ==> |kp[i]| == width
  }

  /** `extraer_keypoints_video`: sample, then pad. */
  function ExtractKeypoints(totalFrames: int, detections: seq<Detection>): (kp: seq<Row>)
    ensures HasShape(kp, SequenceLength, FeaturesPerFrame)
    ensures SampleFrames(totalFrames, detections) <= kp
    ensures forall i :: |SampleFrames(totalFrames, detections)| <= i < SequenceLength ==>
              kp[i] == (if |SampleFrames(totalFrames, detections)| > 0
                        then kp[|SampleFrames(totalFrames, detections)| - 1]
                        else Zeros(FeaturesPerFrame))
  {
    PadSequence(SampleFrames(totalFrames, detections))
  }

  // ---------------------------------------------------------------------------
  // Classification
  // ---------------------------------------------------------------------------

  /** A Python exception, by the class the endpoints distinguish. */
  datatype Exception = ValueError(message: string) | OtherException(message: string)

  /** What the classifier and label lookup do for one keypoint sequence: the
      arg-max word and its probability, or an exception. */
  datatype Classification = Classified(word: string, confidence: real) | ClassifierRaised(error: Exception)

  /** The detail of the shape check's ValueError. */
  const ShapeErrorMessage: string := "Shape incorrecto, esperado (30, 126)"

  /** `predecir_palabra`: rejects anything but a (30, 126) array with a
      ValueError before consulting the classifier, otherwise returns the
      classifier's verdict or propagates what it raised. */
  function PredictWord(kp: seq<Row>, classifier: Classification): (r: Result<(string, real), Exception>)
    ensures !HasShape(kp, SequenceLength, FeaturesPerFrame) ==> r == Err(ValueError(ShapeErrorMessage))
    ensures HasShape(kp, SequenceLength, FeaturesPerFrame) && classifier.Classified? ==>
              r == Ok((classifier.word, classifier.confidence))
    ensures HasShape(kp, SequenceLength, FeaturesPerFrame) && classifier.ClassifierRaised? ==>
              r == Err(classifier.error)
  {
    if !(|kp| == SequenceLength && forall i :: 0 <= i < |kp| ==> |kp[i]| == FeaturesPerFrame) then
      Err(ValueError(ShapeErrorMessage))
    else match classifier
      case Classified(word, confidence) => Ok((word, confidence))
      case ClassifierRaised(error) => Err(error)
  }

  /** The extraction always satisfies the classifier's shape check, so after
      it `predecir_palabra` yields exactly the classifier's verdict. */
  lemma ExtractionPassesShapeCheck(totalFrames: int, detections: seq<Detection>, classifier: Classification)
    ensures classifier.Classified? ==>
              PredictWord(ExtractKeypoints(totalFrames, detections), classifier)
              == Ok((classifier.word, classifier.confidence))
    ensures classifier.ClassifierRaised? ==>
              PredictWord(ExtractKeypoints(totalFrames, detections), classifier) == Err(classifier.error)
  {
  }
}
