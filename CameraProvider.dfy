/**
 * Camera helpers: the preview and capture rotation for each facing, and the
 * choice of a preview size: the size closest in height to the target among
 * those with the target's aspect ratio, or among all sizes when none has it.
 * The floating-point aspect test is a predicate parameter.
 */
module CameraProvider {
  import opened Wrappers

  /** Camera.CameraInfo facings */
  const CAMERA_FACING_BACK := 0
  const CAMERA_FACING_FRONT := 1

  const CAMERA_PREVIEW_BACK_DEGREES := 90
  const CAMERA_PREVIEW_FRONT_DEGREES := 90
  const CAMERA_CAPTURE_BACK_DEGREES := 90
  const CAMERA_CAPTURE_FRONT_DEGREES := 270

  /** The preview is turned a quarter for either facing. */
  function PreviewDegrees(cameraId: int): int {
    if cameraId == CAMERA_FACING_BACK then CAMERA_PREVIEW_BACK_DEGREES else CAMERA_PREVIEW_FRONT_DEGREES
  }

  /**
   * A capture is turned a quarter for the back camera and three quarters
   * otherwise, while the preview is turned a quarter for both; so the two
   * together make a half turn or a whole one.
   */
  function CaptureDegrees(cameraId: int): (r: int)
    ensures r == if cameraId == CAMERA_FACING_BACK then 90 else 270
    ensures PreviewDegrees(cameraId) == 90
    ensures (PreviewDegrees(cameraId) + r) % 360 == if cameraId == CAMERA_FACING_BACK then 180 else 0
  {
    if cameraId == CAMERA_FACING_BACK then CAMERA_CAPTURE_BACK_DEGREES else CAMERA_CAPTURE_FRONT_DEGREES
  }

  // ---- the preview size ----

  datatype Size = Size(width: int, height: int)

  function Abs(x: int): nat {
    if x < 0 then -x else x
  }

  /** How far a size's height is from the target */
  function Diff(s: Size, target: int): nat {
    Abs(s.height - target)
  }

  /**
   * One pass of getOptimalPreviewSize: among the sizes `ok` accepts, the
   * running best is replaced only by a strictly closer height. None when no
   * size is accepted.
   */
  function Scan(sizes: seq<Size>, target: int, ok: Size -> bool): Option<Size>
    decreases |sizes|
  {
    if sizes == [] then None
    else
      var best := Scan(sizes[..|sizes| - 1], target, ok);
      var s := sizes[|sizes| - 1];
      if !ok(s) then best
      else if best.None? || Diff(s, target) < Diff(best.value, target) then Some(s)
      else best
  }

  /**
   * `b` is an accepted size of `sizes` whose height is as close to the target
   * as any accepted size's, and no accepted size before it is as close.
   */
  predicate Closest(sizes: seq<Size>, target: int, ok: Size -> bool, b: Size) {
    && ok(b)
    && (forall k :: 0 <= k < |sizes| && ok(sizes[k]) ==> Diff(b, target) <= Diff(sizes[k], target))
    && exists i :: 0 <= i < |sizes| && sizes[i] == b &&
         forall j :: 0 <= j < i && ok(sizes[j]) ==> Diff(b, target) < Diff(sizes[j], target)
  }

  /** The pass finds nothing exactly when no size is accepted, and otherwise the closest accepted size. */
  lemma {:induction false} ScanFinds(sizes: seq<Size>, target: int, ok: Size -> bool)
    ensures Scan(sizes, target, ok).None? <==> forall k :: 0 <= k < |sizes| ==> !ok(sizes[k])
    ensures Scan(sizes, target, ok).Some? ==> Closest(sizes, target, ok, Scan(sizes, target, ok).value)
    decreases |sizes|
  {
    if sizes != [] {
      var init := sizes[..|sizes| - 1];
      var s := sizes[|sizes| - 1];
      ScanFinds(init, target, ok);
      var best := Scan(init, target, ok);
      if ok(s) && (best.None? || Diff(s, target) < Diff(best.value, target)) {
        var i := |sizes| - 1;
        assert sizes[i] == s;
        forall j | 0 <= j < i && ok(sizes[j])
          ensures Diff(s, target) < Diff(sizes[j], target)
        {
          assert sizes[j] == init[j];
        }
      } else if best.Some? {
        var b := best.value;
        var i :| 0 <= i < |init| && init[i] == b &&
          forall j :: 0 <= j < i && ok(init[j]) ==> Diff(b, target) < Diff(init[j], target);
        assert sizes[i] == b;
        forall j | 0 <= j < i && ok(sizes[j])
          ensures Diff(b, target) < Diff(sizes[j], target)
        {
          assert sizes[j] == init[j];
        }
        forall k | 0 <= k < |sizes| && ok(sizes[k])
          ensures Diff(b, target) <= Diff(sizes[k], target)
        {
          if k < |init| {
            assert sizes[k] == init[k];
          }
        }
      } else {
        forall k | 0 <= k < |sizes|
          ensures !ok(sizes[k])
        {
          if k < |init| {
            assert sizes[k] == init[k];
          }
        }
      }
    }
  }

  /** The second pass accepts every size */
  predicate AnySize(s: Size) {
    true
  }

  /** getOptimalPreviewSize: null sizes give null; the aspect pass first, then the pass over all sizes */
  function Optimal(sizes: Option<seq<Size>>, height: int, aspectOk: Size -> bool): Option<Size> {
    if sizes.None? then None
    else
      var fitting := Scan(sizes.value, height, aspectOk);
      if fitting.Some? then fitting else Scan(sizes.value, height, AnySize)
  }

  /**
   * No size only for a null or empty list. Otherwise a listed size: if some
   * size has the aspect ratio, one that has it and is closest in height among
   * those; if none has it, the closest in height of all. Ties go to the
   * earliest.
   */
  lemma OptimalMeaning(sizes: Option<seq<Size>>, height: int, aspectOk: Size -> bool)
    ensures Optimal(sizes, height, aspectOk).None? <==> sizes.None? || sizes.value == []
    ensures sizes.Some? && Optimal(sizes, height, aspectOk).Some? ==>
      var list, r := sizes.value, Optimal(sizes, height, aspectOk).value;
      && r in list
      && ((exists k :: 0 <= k < |list| && aspectOk(list[k])) ==> Closest(list, height, aspectOk, r))
      && ((forall k :: 0 <= k < |list| ==> !aspectOk(list[k])) ==> Closest(list, height, AnySize, r))
  {
    if sizes.Some? {
      ScanFinds(sizes.value, height, aspectOk);
      ScanFinds(sizes.value, height, AnySize);
    }
  }

  /** getOptimalPreviewSize as written: two loops, each keeping the best size so far and its distance */
  method OptimalPreviewSize(sizes: Option<seq<Size>>, height: int, aspectOk: Size -> bool) returns (r: Option<Size>)
    ensures r == Optimal(sizes, height, aspectOk)
  {
    if sizes.None? {
      return None;
    }
    var list := sizes.value;
    var optimal: Option<Size> := None;
    var minDiff: Option<nat> := None;
    var targetHeight := height;
    for i := 0 to |list|
      invariant optimal == Scan(list[..i], targetHeight, aspectOk)
      invariant minDiff == if optimal.None? then None else Some(Diff(optimal.value, targetHeight))
    {
      var size := list[i];
      assert list[..i + 1][..i] == list[..i];
      if !aspectOk(size) {
        continue;
      }
      if minDiff.None? || Diff(size, targetHeight) < minDiff.value {
        optimal := Some(size);
        minDiff := Some(Diff(size, targetHeight));
      }
    }
    assert list[..|list|] == list;
    if optimal.None? {
      minDiff := None;
      for i := 0 to |list|
        invariant optimal == Scan(list[..i], targetHeight, AnySize)
        invariant minDiff == if optimal.None? then None else Some(Diff(optimal.value, targetHeight))
      {
        var size := list[i];
        assert list[..i + 1][..i] == list[..i];
        if minDiff.None? || Diff(size, targetHeight) < minDiff.value {
          optimal := Some(size);
          minDiff := Some(Diff(size, targetHeight));
        }
      }
      assert list[..|list|] == list;
    }
    r := optimal;
  }
}
