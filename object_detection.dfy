/**
 * The object-detection page: each cycle copies the captured PNG's bytes into a
 * byte array, sends them to a detection service, keeps the predictions whose
 * probability reaches the threshold (a percentage), redraws the overlay with
 * one box and label per kept prediction, and lists them as text. The service
 * is outside the model: its predictions are an input. The two-decimal
 * percentage formatting (`toFixed(2)`) is a parameter `pct`.
 */
module ObjectDetection {
  import opened Strings
  import opened Wrappers
  import opened Sequences

  newtype byte = x: int | 0 <= x < 256

  /** Storing a character code into a `Uint8Array` keeps it modulo 256. */
  function ToUint8(code: int): byte {
    (code % 256) as byte
  }

  /** The loop that fills a `Uint8Array` with the decoded string's character codes. */
  method ToByteArray(binary: string) returns (bytes: array<byte>)
    ensures fresh(bytes) && bytes.Length == |binary|
    ensures forall i :: 0 <= i < |binary| ==> bytes[i] == ToUint8(binary[i] as int)
  {
    bytes := new byte[|binary|];
    for i := 0 to |binary|
      invariant forall k :: 0 <= k < i ==> bytes[k] == ToUint8(binary[k] as int)
    {
      bytes[i] := ToUint8(binary[i] as int);
    }
  }

  /** `atob` yields only codes below 256, which the byte array holds exactly. */
  lemma Latin1BytesExact(binary: string, i: nat)
    requires i < |binary| && binary[i] as int < 256
    ensures ToUint8(binary[i] as int) as int == binary[i] as int
  {
  }

  datatype BoundingBox = BoundingBox(left: real, top: real, width: real, height: real)
  datatype Prediction = Prediction(tagName: string, probability: real, boundingBox: BoundingBox)

  /** The filter's test: `probability * 100 >= minProbability`. */
  predicate Passes(p: Prediction, minProbability: real) {
    p.probability * 100.0 >= minProbability
  }

  /** `predictions.filter(...)`: the predictions that reach the threshold, in their order. */
  function Kept(predictions: seq<Prediction>, minProbability: real): (kept: seq<Prediction>)
    ensures |kept| <= |predictions|
    ensures forall p :: p in kept <==> p in predictions && Passes(p, minProbability)
  {
    if predictions == [] then []
    else
      (if Passes(predictions[0], minProbability) then [predictions[0]] else [])
      + Kept(predictions[1..], minProbability)
  }

  /** Filtering a concatenation filters each part: every passing occurrence is kept, duplicates included. */
  lemma {:induction false} KeptConcat(a: seq<Prediction>, b: seq<Prediction>, minProbability: real)
    ensures Kept(a + b, minProbability) == Kept(a, minProbability) + Kept(b, minProbability)
  {
    if a != [] {
      assert (a + b)[1..] == a[1..] + b;
      KeptConcat(a[1..], b, minProbability);
    } else {
      assert a + b == b;
    }
  }

  /** A single prediction is kept alone when it passes and dropped otherwise. */
  lemma KeptSingle(p: Prediction, minProbability: real)
    ensures Kept([p], minProbability) == if Passes(p, minProbability) then [p] else []
  {
  }

  /** Each passing prediction is kept as many times as it occurs; a failing one not at all. */
  lemma {:induction false} KeptCount(predictions: seq<Prediction>, minProbability: real, p: Prediction)
    ensures multiset(Kept(predictions, minProbability))[p]
      == if Passes(p, minProbability) then multiset(predictions)[p] else 0
  {
    if predictions != [] {
      KeptCount(predictions[1..], minProbability, p);
      assert predictions == [predictions[0]] + predictions[1..];
      assert multiset(predictions) == multiset([predictions[0]]) + multiset(predictions[1..]);
    }
  }

  /** Filtering keeps the original order: the kept list is a subsequence. */
  lemma {:induction false} KeptIsSubsequence(predictions: seq<Prediction>, minProbability: real)
    ensures IsSubsequence(Kept(predictions, minProbability), predictions)
  {
    if predictions != [] {
      var rest := Kept(predictions[1..], minProbability);
      KeptIsSubsequence(predictions[1..], minProbability);
      if Passes(predictions[0], minProbability) {
        assert Kept(predictions, minProbability) == [predictions[0]] + rest;
        assert ([predictions[0]] + rest)[1..] == rest;
      } else {
        assert Kept(predictions, minProbability) == rest;
      }
    }
  }

  /** Raising the threshold can only drop predictions, never add or reorder them. */
  lemma {:induction false} RaisingThresholdShrinks(predictions: seq<Prediction>, low: real, high: real)
    requires low <= high
    ensures IsSubsequence(Kept(predictions, high), Kept(predictions, low))
  {
    if predictions != [] {
      RaisingThresholdShrinks(predictions[1..], low, high);
      var p := predictions[0];
      var lowRest, highRest := Kept(predictions[1..], low), Kept(predictions[1..], high);
      if Passes(p, high) {
        assert Kept(predictions, high) == [p] + highRest;
        assert Kept(predictions, low) == [p] + lowRest;
        assert ([p] + highRest)[1..] == highRest && ([p] + lowRest)[1..] == lowRest;
      } else if Passes(p, low) {
        assert Kept(predictions, high) == highRest;
        assert Kept(predictions, low) == [p] + lowRest;
        assert ([p] + lowRest)[1..] == lowRest;
      } else {
        assert Kept(predictions, high) == highRest;
        assert Kept(predictions, low) == lowRest;
      }
    }
  }

  /** The example of a threshold of 80: a cat at 95% is kept, a dog at 50% is not. */
  lemma CatAndDog(box: BoundingBox)
    ensures var cat, dog := Prediction("cat", 0.95, box), Prediction("dog", 0.5, box);
      Kept([cat, dog], 80.0) == [cat]
  {
    var cat, dog := Prediction("cat", 0.95, box), Prediction("dog", 0.5, box);
    assert [cat, dog][1..] == [dog];
  }

  // ---- Overlay geometry ----------------------------------------------------

  datatype Rect = Rect(x: real, y: real, w: real, h: real)

  /** Normalised box coordinates scaled to the overlay's pixel size. */
  function BoxPixels(b: BoundingBox, width: real, height: real): Rect {
    Rect(b.left * width, b.top * height, b.width * width, b.height * height)
  }

  /** A box inside the unit square lands inside the overlay. */
  lemma BoxInsideOverlay(b: BoundingBox, width: real, height: real)
    requires width >= 0.0 && height >= 0.0
    requires 0.0 <= b.left && 0.0 <= b.width && b.left + b.width <= 1.0
    requires 0.0 <= b.top && 0.0 <= b.height && b.top + b.height <= 1.0
    ensures var r := BoxPixels(b, width, height);
      0.0 <= r.x && r.x + r.w <= width && 0.0 <= r.y && r.y + r.h <= height
  {
    assert b.left * width + b.width * width == (b.left + b.width) * width;
    assert b.top * height + b.height * height == (b.top + b.height) * height;
  }

  /** The label's baseline: 5 px above the box, or 15 px into it when the box is near the top. */
  function LabelY(y: real): (r: real)
    ensures y > 10.0 ==> r < y
    ensures y <= 10.0 ==> r > y
    ensures y >= 0.0 ==> r >= 5.0
  {
    if y > 10.0 then y - 5.0 else y + 15.0
  }

  /** One box and label as drawn on the overlay. */
  datatype Drawn = Drawn(box: Rect, labelX: real, labelY: real, caption: string)

  function DrawnFor(p: Prediction, width: real, height: real, pct: real -> string): Drawn {
    var r := BoxPixels(p.boundingBox, width, height);
    Drawn(r, r.x, LabelY(r.y), p.tagName + " (" + pct(p.probability * 100.0) + "%)")
  }

  function Overlays(kept: seq<Prediction>, width: real, height: real, pct: real -> string): (r: seq<Drawn>)
    ensures |r| == |kept|
    ensures forall i :: 0 <= i < |kept| ==> r[i] == DrawnFor(kept[i], width, height, pct)
  {
    seq(|kept|, i requires 0 <= i < |kept| => DrawnFor(kept[i], width, height, pct))
  }

  /** One line of the results text: `tag: pct%`. */
  function ResultLine(p: Prediction, pct: real -> string): string {
    p.tagName + ": " + pct(p.probability * 100.0) + "%"
  }

  function ResultLines(kept: seq<Prediction>, pct: real -> string): (r: seq<string>)
    ensures |r| == |kept|
    ensures forall i :: 0 <= i < |kept| ==> r[i] == ResultLine(kept[i], pct)
  {
    seq(|kept|, i requires 0 <= i < |kept| => ResultLine(kept[i], pct))
  }

  /** `resultText`: the result lines joined by newlines. */
  function ResultText(kept: seq<Prediction>, pct: real -> string): string {
    Join(ResultLines(kept, pct), "\n")
  }

  /**
   * The results text holds exactly one line per kept prediction, in order:
   * splitting it at newlines gives back each `tag: pct%` line.
   */
  lemma ResultTextLines(kept: seq<Prediction>, pct: real -> string)
    requires kept != []
    requires forall k :: 0 <= k < |kept| ==> '\n' !in kept[k].tagName
    requires forall x :: '\n' !in pct(x)
    ensures Split(ResultText(kept, pct), '\n') == ResultLines(kept, pct)
  {
    var lines := ResultLines(kept, pct);
    forall k | 0 <= k < |lines|
      ensures '\n' !in lines[k]
    {
      assert lines[k] == kept[k].tagName + ": " + pct(kept[k].probability * 100.0) + "%";
    }
    SplitJoin(lines, '\n');
  }

  /** The page's mutable state: the overlay's size and drawing, and the results text. */
  class Detector {
    var width: real
    var height: real
    var overlay: seq<Drawn>
    var results: string

    constructor (width: real, height: real)
      ensures this.width == width && this.height == height
      ensures overlay == [] && results == ""
    {
      this.width, this.height := width, height;
      overlay, results := [], "";
    }

    /**
     * `captureImage`: without canvas, video and overlay nothing happens; a
     * failed prediction is only logged and leaves the last drawing and text;
     * otherwise the overlay is cleared and redrawn from this cycle's kept
     * predictions alone, and the results text replaced.
     */
    method CaptureImage(ready: bool, binary: string, reply: Option<seq<Prediction>>, minProbability: real, pct: real -> string)
      modifies this`overlay, this`results
      ensures !ready || reply.None? ==> overlay == old(overlay) && results == old(results)
      ensures ready && reply.Some? ==> overlay == Overlays(Kept(reply.value, minProbability), width, height, pct)
      ensures ready && reply.Some? ==> results == ResultText(Kept(reply.value, minProbability), pct)
    {
      if !ready {
        return;
      }
      var bytes := ToByteArray(binary);
      if reply.None? {
        return;
      }
      var kept := Kept(reply.value, minProbability);
      overlay := DrawAll(kept, width, height, pct);
      results := ResultText(kept, pct);
    }
  }

  /** The drawing loop: the overlay is cleared and one box and label drawn per kept prediction, in order. */
  method DrawAll(kept: seq<Prediction>, width: real, height: real, pct: real -> string) returns (drawn: seq<Drawn>)
    ensures drawn == Overlays(kept, width, height, pct)
  {
    drawn := [];
    for i := 0 to |kept|
      invariant drawn == Overlays(kept[..i], width, height, pct)
    {
      drawn := drawn + [DrawnFor(kept[i], width, height, pct)];
    }
    assert kept[..|kept|] == kept;
  }
}
