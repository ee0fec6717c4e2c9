/** The pose stage: the pose estimator's results projected to keypoints and score. */
module Pose {
  import opened Wrappers

  /** One named landmark; the estimator may omit the name and the score. */
  datatype Keypoint = Keypoint(x: real, y: real, score: Option<real>, name: Option<string>)

  /** The estimator's box around a person, by its corners and its size. */
  datatype PoseBox = PoseBox(xMin: real, yMin: real, xMax: real, yMax: real, width: real, height: real)

  /** One estimated person as the estimator returns it; `score`, `box` and `id` may be absent. */
  datatype EstimatedPose =
    EstimatedPose(keypoints: seq<Keypoint>, score: Option<real>, box: Option<PoseBox>, id: Option<int>)

  /** The record returned for each estimated person. */
  datatype PoseResult = PoseResult(keypoints: seq<Keypoint>, score: Option<real>)

  /** analyzePose after inference. `estimation` is the estimator's result, or None when
      loading the model or running it threw; the stage then returns no results. No pose
      is dropped or reordered, and each keeps only its keypoints and score. */
  function AnalyzePose(estimation: Option<seq<EstimatedPose>>): (results: seq<PoseResult>)
    ensures estimation.None? ==> results == []
    ensures estimation.Some? ==> |results| == |estimation.value|
    ensures estimation.Some? ==> forall i :: 0 <= i < |results| ==>
      results[i].keypoints == estimation.value[i].keypoints && results[i].score == estimation.value[i].score
  {
    match estimation
    case None => []
    case Some(poses) =>
      seq(|poses|, i requires 0 <= i < |poses| => PoseResult(poses[i].keypoints, poses[i].score))
  }
}
