/** The body-shape classifier and its advice table. */
module BodyShape {
  import opened Wrappers
  import Pose

  /** The five named shapes; each has an entry in the advice table. */
  const BodyShapes: seq<string> := ["hourglass", "pear", "apple", "rectangle", "fit"]

  const AdviceTable: map<string, seq<string>> :=
    map["hourglass" := ["Fitted styles", "Wrap dresses", "Accentuate waist"],
        "pear" := ["A-line bottoms", "Darker bottoms", "Lighter tops"],
        "apple" := ["Flow fabrics", "V-necks", "Long cardigans"],
        "rectangle" := ["Layering", "Belted styles", "Patterns"],
        "fit" := ["Any style works", "Personal preference", "Trendy pieces"]]

  /** The classifier's result. The degenerate result has no `recommendations` field,
      modelled as None. */
  datatype BodyShapeResult = BodyShapeResult(shape: string, confidence: real, recommendations: Option<seq<string>>)

  /** determineShape: the proportion analysis is a placeholder that names one shape. */
  function DetermineShape(keypoints: seq<Pose.Keypoint>): (shape: string)
    ensures shape in BodyShapes
  {
    "fit"
  }

  /** getBodyShapeRecommendations: three pieces of advice for a named shape, none otherwise. */
  function GetBodyShapeRecommendations(shape: string): (advice: seq<string>)
    ensures shape in BodyShapes <==> |advice| == 3
    ensures shape !in BodyShapes ==> advice == []
    ensures shape == "fit" ==> advice == ["Any style works", "Personal preference", "Trendy pieces"]
  {
    if shape in AdviceTable then AdviceTable[shape] else []
  }

  /** classifyBodyShape. `poseKeypoints` is None when the argument is absent; `draw` is the
      value Math.random() returns, in [0, 1), from which the confidence is derived. */
  function ClassifyBodyShape(poseKeypoints: Option<seq<Pose.Keypoint>>, draw: real): (r: BodyShapeResult)
    requires 0.0 <= draw < 1.0
    ensures r.shape == "unknown" <==> poseKeypoints.None? || |poseKeypoints.value| == 0
    ensures r.shape == "unknown" ==> r.confidence == 0.0 && r.recommendations.None?
    ensures r.shape != "unknown" ==>
      && r.shape in BodyShapes
      && 0.8 <= r.confidence < 1.0
      && r.recommendations == Some(GetBodyShapeRecommendations(r.shape))
      && |r.recommendations.value| == 3
  {
    if poseKeypoints.None? || |poseKeypoints.value| == 0 then
      BodyShapeResult("unknown", 0.0, None)
    else
      var shape := DetermineShape(poseKeypoints.value);
      BodyShapeResult(shape, draw * 0.2 + 0.8, Some(GetBodyShapeRecommendations(shape)))
  }

  /** Any non-empty keypoint list is classified 'fit' with the 'fit' advice. */
  lemma NonEmptyIsFit(keypoints: seq<Pose.Keypoint>, draw: real)
    requires 0.0 <= draw < 1.0 && |keypoints| > 0
    ensures ClassifyBodyShape(Some(keypoints), draw).shape == "fit"
    ensures ClassifyBodyShape(Some(keypoints), draw).recommendations
      == Some(["Any style works", "Personal preference", "Trendy pieces"])
  {
  }

  /** The classification (shape and advice) depends on the keypoints only, not on the draw. */
  lemma ShapeIndependentOfDraw(keypoints: Option<seq<Pose.Keypoint>>, d1: real, d2: real)
    requires 0.0 <= d1 < 1.0 && 0.0 <= d2 < 1.0
    ensures ClassifyBodyShape(keypoints, d1).shape == ClassifyBodyShape(keypoints, d2).shape
    ensures ClassifyBodyShape(keypoints, d1).recommendations == ClassifyBodyShape(keypoints, d2).recommendations
  {
  }
}
