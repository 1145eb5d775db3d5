/** The photo-based water-quality classifier of the web application: the brown-pixel ratio
    over an RGB pixel grid, the ordered first-match decision list over six scalar features,
    and the fixed fallback when a photo cannot be decoded or analysed. */
module WaterQuality {
  import opened Common

  /** The cleanliness labels the classifier can produce. */
  datatype Label = Clean | Muddy | Contaminated | Unknown

  /** The lower-case text the web application stores in its `cleanliness_level` column. */
  function LabelName(l: Label): (name: string)
    ensures |name| > 0
  {
    match l
    case Clean => "clean"
    case Muddy => "muddy"
    case Contaminated => "contaminated"
    case Unknown => "unknown"
  }

  /** A classification: a label together with a confidence score. */
  datatype Assessment = Assessment(quality: Label, confidence: real)

  /** The five pairs the classifier can return; its output domain is closed. */
  predicate IsOutcome(a: Assessment)
  {
    a == Assessment(Clean, 0.9) || a == Assessment(Muddy, 0.8)
    || a == Assessment(Contaminated, 0.75) || a == Assessment(Muddy, 0.5)
    || a == Assessment(Unknown, 0.3)
  }

  // ---------------------------------------------------------------------------
  // Pixels and the features derived from them
  // ---------------------------------------------------------------------------

  /** One pixel as `(red, green, blue)`, in the channel order the decoded array has. */
  type Pixel = (nat, nat, nat)

  /** The muddy-colour heuristic: red above 100, green above 80 and blue below 80. */
  predicate IsBrown(p: Pixel)
  {
    p.0 > 100 && p.1 > 80 && p.2 < 80
  }

  /** Number of brown pixels in the grid (the grid is taken row by row as one sequence). */
  function BrownCount(pixels: seq<Pixel>): (n: nat)
    ensures n <= |pixels|
    ensures n == 0 <==> forall i :: 0 <= i < |pixels| ==> !IsBrown(pixels[i])
    ensures n == |pixels| <==> forall i :: 0 <= i < |pixels| ==> IsBrown(pixels[i])
  {
    if |pixels| == 0 then 0
    else BrownCount(pixels[..|pixels| - 1]) + (if IsBrown(pixels[|pixels| - 1]) then 1 else 0)
  }

  /** Positions of the brown pixels: an independent description of what is counted. */
  function BrownPositions(pixels: seq<Pixel>): set<nat>
  {
    set i: nat | i < |pixels| && IsBrown(pixels[i])
  }

  /** The recursive count and the set of brown positions agree. */
  lemma {:induction false} BrownCountIsCardinality(pixels: seq<Pixel>)
    ensures BrownCount(pixels) == |BrownPositions(pixels)|
  {
    if |pixels| > 0 {
      var init := pixels[..|pixels| - 1];
      var last: nat := |pixels| - 1;
      BrownCountIsCardinality(init);
      assert forall i: nat :: i < |init| ==> init[i] == pixels[i];
      if IsBrown(pixels[last]) {
        assert BrownPositions(pixels) == BrownPositions(init) + {last};
      } else {
        assert BrownPositions(pixels) == BrownPositions(init);
      }
    }
  }

  /** `np.sum` over the brown mask, written as a loop over the pixels. */
  method CountBrownPixels(pixels: seq<Pixel>) returns (n: nat)
    ensures n == |BrownPositions(pixels)|
  {
    n := 0;
    var i := 0;
    while i < |pixels|
      invariant 0 <= i <= |pixels|
      invariant n == BrownCount(pixels[..i])
    {
      assert pixels[..i + 1][..i] == pixels[..i];
      if IsBrown(pixels[i]) {
        n := n + 1;
      }
      i := i + 1;
    }
    assert pixels[..i] == pixels;
    BrownCountIsCardinality(pixels);
  }

  /** Brown pixels divided by `width * height`. A non-empty grid always gives a ratio in
      [0, 1]; it is 0 exactly when no pixel is brown and 1 exactly when every pixel is. */
  function BrownRatio(pixels: seq<Pixel>): (r: real)
    requires |pixels| > 0
    ensures 0.0 <= r <= 1.0
    ensures r * (|pixels| as real) == BrownCount(pixels) as real
    ensures r == 0.0 <==> forall i :: 0 <= i < |pixels| ==> !IsBrown(pixels[i])
    ensures r == 1.0 <==> forall i :: 0 <= i < |pixels| ==> IsBrown(pixels[i])
  {
    var count := BrownCount(pixels);
    RatioFacts(count, |pixels|);
    count as real / |pixels| as real
  }

  /** Arithmetic about `count / total` for `count <= total`. */
  lemma RatioFacts(count: nat, total: nat)
    requires 0 < total && count <= total
    ensures var r := count as real / total as real;
            0.0 <= r <= 1.0 && r * (total as real) == count as real
            && (r == 0.0 <==> count == 0) && (r == 1.0 <==> count == total)
  {
    var r := count as real / total as real;
    DivBetween(count as real, total as real, 0.0, 1.0);
    assert r * (total as real) == count as real;
  }

  /** Dividing by a positive `n` keeps `s` between `lo` and `hi` when `n*lo <= s <= n*hi`. */
  lemma DivBetween(s: real, n: real, lo: real, hi: real)
    requires n > 0.0 && n * lo <= s <= n * hi
    ensures lo <= s / n <= hi
  {
    var q := s / n;
    assert q * n == s;
    assert (q - lo) * n == s - n * lo >= 0.0;
    assert (hi - q) * n == n * hi - s >= 0.0;
  }

  datatype Channel = Red | Green | Blue

  function Level(p: Pixel, c: Channel): nat
  {
    match c
    case Red => p.0
    case Green => p.1
    case Blue => p.2
  }

  function ChannelSum(pixels: seq<Pixel>, c: Channel): nat
  {
    if |pixels| == 0 then 0
    else ChannelSum(pixels[..|pixels| - 1], c) + Level(pixels[|pixels| - 1], c)
  }

  /** `np.mean` over one channel plane. */
  function ChannelMean(pixels: seq<Pixel>, c: Channel): (m: real)
    requires |pixels| > 0
    ensures m >= 0.0
    ensures m * (|pixels| as real) == ChannelSum(pixels, c) as real
  {
    ChannelSum(pixels, c) as real / |pixels| as real
  }

  /** The channel sum of `n` pixels whose level lies in [lo, hi] lies in [n*lo, n*hi]. */
  lemma ChannelSumBetween(pixels: seq<Pixel>, c: Channel, lo: nat, hi: nat)
    requires forall i :: 0 <= i < |pixels| ==> lo <= Level(pixels[i], c) <= hi
    ensures |pixels| * lo <= ChannelSum(pixels, c) <= |pixels| * hi
  {
    ChannelSumAtLeast(pixels, c, lo);
    ChannelSumAtMost(pixels, c, hi);
  }

  lemma {:induction false} ChannelSumAtLeast(pixels: seq<Pixel>, c: Channel, lo: nat)
    requires forall i :: 0 <= i < |pixels| ==> lo <= Level(pixels[i], c)
    ensures |pixels| * lo <= ChannelSum(pixels, c)
  {
    if |pixels| > 0 {
      var init := pixels[..|pixels| - 1];
      assert forall i :: 0 <= i < |init| ==> init[i] == pixels[i];
      ChannelSumAtLeast(init, c, lo);
      assert |pixels| * lo == |init| * lo + lo;
    }
  }

  lemma {:induction false} ChannelSumAtMost(pixels: seq<Pixel>, c: Channel, hi: nat)
    requires forall i :: 0 <= i < |pixels| ==> Level(pixels[i], c) <= hi
    ensures ChannelSum(pixels, c) <= |pixels| * hi
  {
    if |pixels| > 0 {
      var init := pixels[..|pixels| - 1];
      assert forall i :: 0 <= i < |init| ==> init[i] == pixels[i];
      ChannelSumAtMost(init, c, hi);
      assert |pixels| * hi == |init| * hi + hi;
    }
  }

  /** A channel mean lies between the smallest and the largest level present, so for 8-bit
      pixels every mean is within [0, 255]. */
  lemma ChannelMeanBetween(pixels: seq<Pixel>, c: Channel, lo: nat, hi: nat)
    requires |pixels| > 0
    requires forall i :: 0 <= i < |pixels| ==> lo <= Level(pixels[i], c) <= hi
    ensures lo as real <= ChannelMean(pixels, c) <= hi as real
  {
    ChannelSumBetween(pixels, c, lo, hi);
    NatRatioBetween(ChannelSum(pixels, c), |pixels|, lo, hi);
  }

  /** `total / m` lies in [lo, hi] when `m*lo <= total <= m*hi`. */
  lemma NatRatioBetween(total: nat, m: nat, lo: nat, hi: nat)
    requires m > 0 && m * lo <= total <= m * hi
    ensures lo as real <= total as real / m as real <= hi as real
  {
    CastProduct(m, lo);
    CastProduct(m, hi);
    DivBetween(total as real, m as real, lo as real, hi as real);
  }

  lemma CastProduct(a: nat, b: nat)
    ensures (a * b) as real == (a as real) * (b as real)
  {
  }

  /** The six scalar features the decision list reads. */
  datatype Features = Features(
    brightness: real,
    turbidity: real,
    redMean: real,
    greenMean: real,
    blueMean: real,
    brownRatio: real)

  /** The features of a decoded, non-empty grid. Mean brightness and turbidity (the standard
      deviation of the grayscale image) come from the grayscale conversion, which is not
      modelled: they are supplied by the caller. */
  function ExtractFeatures(pixels: seq<Pixel>, brightness: real, turbidity: real): (f: Features)
    requires |pixels| > 0
    ensures 0.0 <= f.brownRatio <= 1.0
    ensures f.brightness == brightness && f.turbidity == turbidity
  {
    Features(brightness, turbidity,
             ChannelMean(pixels, Red), ChannelMean(pixels, Green), ChannelMean(pixels, Blue),
             BrownRatio(pixels))
  }

  // ---------------------------------------------------------------------------
  // The decision list
  // ---------------------------------------------------------------------------

  function Abs(x: real): real
  {
    if x < 0.0 then -x else x
  }

  function Min(a: real, b: real): real
  {
    if a <= b then a else b
  }

  /** Rule 1: blue dominates, low turbidity, little brown and a bright picture. */
  predicate CleanIndicators(f: Features)
  {
    f.blueMean > f.greenMean && f.blueMean > f.redMean
    && f.turbidity < 30.0 && f.brownRatio < 0.1 && f.brightness > 100.0
  }

  /** Rule 2: a strong brown cast, high turbidity, or red and green both above blue. */
  predicate MuddyIndicators(f: Features)
  {
    f.brownRatio > 0.15 || f.turbidity > 50.0 || (f.redMean > f.blueMean && f.greenMean > f.blueMean)
  }

  /** Rule 3: moderate turbidity, a dark picture, or a large red/green imbalance. */
  predicate ContaminationIndicators(f: Features)
  {
    f.turbidity > 40.0 || f.brightness < 50.0 || Abs(f.redMean - f.greenMean) > 50.0
  }

  datatype Indicator = CleanWater | MuddyWater | ContaminatedWater

  predicate Holds(ind: Indicator, f: Features)
  {
    match ind
    case CleanWater => CleanIndicators(f)
    case MuddyWater => MuddyIndicators(f)
    case ContaminatedWater => ContaminationIndicators(f)
  }

  /** A rule of the list: when its indicator holds it yields its label with confidence
      `min(cap, base + bonus)`. */
  datatype Rule = Rule(indicator: Indicator, verdict: Label, cap: real, bonus: real)

  const BaseConfidence: real := 0.7
  const UncertainPenalty: real := 0.2
  const FailureConfidence: real := 0.3

  /** The rules in the order the classifier tries them. */
  const DecisionList: seq<Rule> := [
    Rule(CleanWater, Clean, 0.95, 0.2),
    Rule(MuddyWater, Muddy, 0.9, 0.1),
    Rule(ContaminatedWater, Contaminated, 0.85, 0.05)
  ]

  function Fire(rule: Rule): Assessment
  {
    Assessment(rule.verdict, Min(rule.cap, BaseConfidence + rule.bonus))
  }

  /** The answer when no rule matches: "muddy" with a lowered confidence. */
  const Uncertain: Assessment := Assessment(Muddy, BaseConfidence - UncertainPenalty)

  /** The answer when the photo cannot be decoded or analysed. */
  const AnalysisFailed: Assessment := Assessment(Unknown, FailureConfidence)

  /** Rule `i` is the first of `rules` whose indicator holds for `f`. */
  predicate FiresFirst(rules: seq<Rule>, i: int, f: Features)
  {
    0 <= i < |rules| && Holds(rules[i].indicator, f)
    && forall j :: 0 <= j < i ==> !Holds(rules[j].indicator, f)
  }

  /** First-match evaluation of an ordered rule list: the first rule whose indicator holds
      decides; when none holds the answer is `Uncertain`. */
  function FirstMatch(rules: seq<Rule>, f: Features): (r: Assessment)
    ensures forall i :: FiresFirst(rules, i, f) ==> r == Fire(rules[i])
    ensures (forall i :: 0 <= i < |rules| ==> !Holds(rules[i].indicator, f)) ==> r == Uncertain
  {
    if |rules| == 0 then Uncertain
    else if Holds(rules[0].indicator, f) then Fire(rules[0])
    else
      assert forall i :: FiresFirst(rules, i, f) ==> FiresFirst(rules[1..], i - 1, f);
      FirstMatch(rules[1..], f)
  }

  /** `analyze_water_image` once the features are known. Each branch of the decision list
      yields its fixed pair: 0.9 is min(0.95, 0.7 + 0.2), 0.8 is min(0.9, 0.7 + 0.1),
      0.75 is min(0.85, 0.7 + 0.05) and 0.5 is 0.7 - 0.2. */
  function Classify(f: Features): (r: Assessment)
    ensures CleanIndicators(f) ==> r == Assessment(Clean, 0.9)
    ensures !CleanIndicators(f) && MuddyIndicators(f) ==> r == Assessment(Muddy, 0.8)
    ensures (!CleanIndicators(f) && !MuddyIndicators(f) && ContaminationIndicators(f))
              ==> r == Assessment(Contaminated, 0.75)
    ensures (!CleanIndicators(f) && !MuddyIndicators(f) && !ContaminationIndicators(f))
              ==> r == Assessment(Muddy, 0.5)
  {
    assert CleanIndicators(f) ==> FiresFirst(DecisionList, 0, f);
    assert !CleanIndicators(f) && MuddyIndicators(f) ==> FiresFirst(DecisionList, 1, f);
    assert (!CleanIndicators(f) && !MuddyIndicators(f) && ContaminationIndicators(f))
             ==> FiresFirst(DecisionList, 2, f);
    FirstMatch(DecisionList, f)
  }

  /** Which label the decision list gives, in both directions, and that a decodable photo
      never yields "unknown". */
  lemma ClassifyLabels(f: Features)
    ensures Classify(f).quality == Clean <==> CleanIndicators(f)
    ensures (Classify(f).quality == Contaminated)
              <==> !CleanIndicators(f) && !MuddyIndicators(f) && ContaminationIndicators(f)
    ensures (Classify(f).quality == Muddy)
              <==> !CleanIndicators(f) && (MuddyIndicators(f) || !ContaminationIndicators(f))
    ensures Classify(f).quality != Unknown
    ensures IsOutcome(Classify(f))
  {
  }

  /** "contaminated" is only ever returned for turbidity at most 50 and a brown ratio at
      most 0.15, and never when red and green both exceed blue. */
  lemma ContaminatedOnlyWhenNotMuddy(f: Features)
    requires Classify(f).quality == Contaminated
    ensures f.turbidity <= 50.0 && f.brownRatio <= 0.15
    ensures !(f.redMean > f.blueMean && f.greenMean > f.blueMean)
    ensures f.turbidity > 40.0 || f.brightness < 50.0 || Abs(f.redMean - f.greenMean) > 50.0
  {
  }

  /** The uncertain fallback (muddy at 0.5) only happens for moderately calm, bright,
      balanced pictures that are not clearly brown. */
  lemma UncertainOnlyWhenCalm(f: Features)
    requires Classify(f) == Assessment(Muddy, 0.5)
    ensures f.turbidity <= 40.0 && f.brightness >= 50.0 && Abs(f.redMean - f.greenMean) <= 50.0
    ensures f.brownRatio <= 0.15
  {
  }

  /** The clean and muddy indicators never hold together, so the order of the first two
      rules does not matter. */
  lemma CleanAndMuddyExclusive(f: Features)
    ensures !(CleanIndicators(f) && MuddyIndicators(f))
    ensures FirstMatch([DecisionList[1], DecisionList[0], DecisionList[2]], f) == Classify(f)
  {
    var swapped := [DecisionList[1], DecisionList[0], DecisionList[2]];
    if CleanIndicators(f) {
      assert FiresFirst(swapped, 1, f);
    } else if MuddyIndicators(f) {
      assert FiresFirst(swapped, 0, f);
    } else if ContaminationIndicators(f) {
      assert FiresFirst(swapped, 2, f);
    }
  }

  /** The clean and contamination indicators can hold together, so the order of rules 1
      and 3 matters: this blue-dominant picture with a red/green gap of 60 is "clean". */
  lemma CleanShadowsContamination()
    ensures var f := Features(150.0, 10.0, 80.0, 140.0, 200.0, 0.02);
            CleanIndicators(f) && ContaminationIndicators(f) && Classify(f).quality == Clean
  {
  }

  /** A bright (150), calm (turbidity 10) picture whose blue mean of 150 exceeds green 100
      and red 90, with 2% brown pixels, is clean with confidence 0.9. */
  lemma ClearBlueWaterIsClean()
    ensures Classify(Features(150.0, 10.0, 90.0, 100.0, 150.0, 0.02)) == Assessment(Clean, 0.9)
  {
  }

  // ---------------------------------------------------------------------------
  // Photos, decode failure and the data-URL payload
  // ---------------------------------------------------------------------------

  /** What decoding a photo produces: either nothing usable (undecodable payload, an array
      the colour conversion rejects) or an RGB grid with its grayscale brightness and
      turbidity. */
  datatype Photo = Failed | Decoded(pixels: seq<Pixel>, brightness: real, turbidity: real)

  predicate Analysable(photo: Photo)
  {
    photo.Decoded? && |photo.pixels| > 0
  }

  /** `WaterQualityClassifier.analyze_water_image` after decoding. Any failure, including an
      empty grid the colour conversion refuses, becomes ("unknown", 0.3) instead of an error;
      otherwise the decision list decides, and the answer is never "unknown". */
  function AnalyzeWaterImage(photo: Photo): (r: Assessment)
    ensures !Analysable(photo) ==> r == Assessment(Unknown, 0.3)
    ensures Analysable(photo) ==>
              r == Classify(ExtractFeatures(photo.pixels, photo.brightness, photo.turbidity))
    ensures r.quality == Unknown <==> !Analysable(photo)
    ensures IsOutcome(r) && 0.0 <= r.confidence <= 1.0
  {
    if !Analysable(photo) then AnalysisFailed
    else Classify(ExtractFeatures(photo.pixels, photo.brightness, photo.turbidity))
  }

  /** A photo in which every pixel is brown is muddy with confidence 0.8, whatever its
      brightness and turbidity. */
  lemma AllBrownIsMuddy(photo: Photo)
    requires Analysable(photo)
    requires forall i :: 0 <= i < |photo.pixels| ==> IsBrown(photo.pixels[i])
    ensures AnalyzeWaterImage(photo) == Assessment(Muddy, 0.8)
  {
    var f := ExtractFeatures(photo.pixels, photo.brightness, photo.turbidity);
    assert f.brownRatio == 1.0;
  }

  /** Index of the first `c` in `s`, or `|s|` when there is none. */
  function IndexOf(s: string, c: char): (k: nat)
    ensures k <= |s|
    ensures k < |s| ==> s[k] == c
    ensures forall j :: 0 <= j < k ==> s[j] != c
  {
    if |s| == 0 then 0
    else if s[0] == c then 0
    else 1 + IndexOf(s[1..], c)
  }

  /** `image_data.split(',')[1]`: the text between the first and the second comma (or the
      end). It is absent exactly when there is no comma, where Python raises IndexError. */
  function DataUrlPayload(imageData: string): (r: Option<string>)
    ensures r.None? <==> ',' !in imageData
    ensures r.Some? ==> ',' !in r.value && |r.value| < |imageData|
  {
    var k := IndexOf(imageData, ',');
    if k == |imageData| then None
    else
      var rest := imageData[k + 1..];
      Some(rest[..IndexOf(rest, ',')])
  }

  /** A data URL `header,body` (optionally followed by more comma-separated text) yields
      exactly `body`. */
  lemma DataUrlPayloadOfParts(header: string, body: string, tail: string)
    requires ',' !in header && ',' !in body
    requires tail == [] || tail[0] == ','
    ensures DataUrlPayload(header + "," + body + tail) == Some(body)
  {
    var s := header + "," + body + tail;
    assert IndexOf(s, ',') == |header| by {
      assert s[|header|] == ',';
      assert forall j :: 0 <= j < |header| ==> s[j] == header[j];
    }
    var rest := s[|header| + 1..];
    assert rest == body + tail;
    assert IndexOf(rest, ',') == |body| by {
      if tail != [] {
        assert rest[|body|] == ',';
      }
      assert forall j :: 0 <= j < |body| ==> rest[j] == body[j];
    }
    assert rest[..|body|] == body;
  }

  /** The whole of `analyze_water_image(image_data)`: the payload after the first comma is
      handed to `decode` (base64 and image decoding, not modelled here); a missing comma or
      a failed decode gives ("unknown", 0.3), and no error reaches the caller. */
  function AnalyzePhotoData(imageData: string, decode: string -> Photo): (r: Assessment)
    ensures IsOutcome(r) && 0.0 <= r.confidence <= 1.0
    ensures ',' !in imageData ==> r == Assessment(Unknown, 0.3)
    ensures ',' in imageData ==> r == AnalyzeWaterImage(decode(DataUrlPayload(imageData).value))
  {
    match DataUrlPayload(imageData)
    case None => AnalysisFailed
    case Some(payload) => AnalyzeWaterImage(decode(payload))
  }
}
