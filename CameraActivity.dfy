/**
 * The camera screen: the recording time shown while a video is recorded,
 * the blinking dot beside it, and the switch between the back and front
 * cameras.
 */
module CameraActivity {
  import opened Wrappers
  import opened Text
  import opened CameraProvider

  /** showVideoTime: "HH:MM:SS" from the first full hour on, "MM:SS" before it */
  function VideoTime(millis: int): string {
    var second := Div(millis, 1000);
    var hour := Div(Div(second, 60), 60);
    if hour > 0 then
      Format00(hour) + ":" + Format00(Div(second - hour * 3600, 60)) + ":" + Format00(Rem(second, 60))
    else
      Format00(Div(second, 60)) + ":" + Format00(Rem(second, 60))
  }

  /** A string of decimal digits */
  predicate AllDigits(s: string) {
    forall i :: 0 <= i < |s| ==> IsDigit(s[i])
  }

  /** Splitting "a:b" and "a:b:c" on ':' gives back the fields when none holds a ':' */
  lemma SplitFields(a: string, b: string, c: string)
    requires ':' !in a && ':' !in b && ':' !in c
    ensures Split(a + ":" + b, ':') == [a, b]
    ensures Split(a + ":" + b + ":" + c, ':') == [a, b, c]
  {
    SplitJoin(a, ':', b);
    SplitNoSeparator(b, ':');
    assert a + ":" + b + ":" + c == a + [':'] + (b + ":" + c);
    SplitJoin(a, ':', b + ":" + c);
    SplitJoin(b, ':', c);
    SplitNoSeparator(c, ':');
  }

  /** Whole hours and the minutes and seconds left over */
  lemma HourSplit(s: nat)
    ensures s / 60 / 60 == s / 3600
    ensures 0 <= (s - s / 3600 * 3600) / 60 < 60
    ensures s % 60 == (s - s / 3600 * 3600) % 60
    ensures s / 3600 * 3600 + (s - s / 3600 * 3600) / 60 * 60 + s % 60 == s
  {
    var h, t := s / 3600, s % 3600;
    assert s == h * 3600 + t;
    var m, r := t / 60, t % 60;
    assert t == m * 60 + r;
    assert s == (h * 60 + m) * 60 + r;
    assert s / 60 == h * 60 + m;
    assert s % 60 == r;
  }

  /** Below one hour, a non-negative time shows its minutes and seconds, in Dafny's division. */
  lemma VideoTimeMinutes(millis: nat)
    requires millis / 1000 < 3600
    ensures var s := millis / 1000;
      VideoTime(millis) == Format00(s / 60) + ":" + Format00(s % 60)
  {
    TimeFields(millis);
  }

  /** From one hour on, a non-negative time shows its hours, minutes and seconds, in Dafny's division. */
  lemma VideoTimeHours(millis: nat)
    requires millis / 1000 >= 3600
    ensures var s := millis / 1000; var h := s / 3600;
      VideoTime(millis) == Format00(h) + ":" + Format00((s - h * 3600) / 60) + ":" + Format00(s % 60)
  {
    TimeFields(millis);
  }

  /** Java's divisions in showVideoTime, for a non-negative time, in Dafny's terms */
  lemma TimeFields(millis: nat)
    ensures var s := millis / 1000; var h := s / 3600;
      && Div(millis, 1000) == s && Div(Div(s, 60), 60) == h && Rem(s, 60) == s % 60
      && 0 <= s - h * 3600 && Div(s - h * 3600, 60) == (s - h * 3600) / 60
  {
    HourSplit(millis / 1000);
  }

  /** Below one hour the text is minutes and seconds, both below 60, reading back as the seconds elapsed. */
  lemma VideoTimeUnderAnHour(millis: nat)
    requires millis / 1000 < 3600
    ensures var s, parts := millis / 1000, Split(VideoTime(millis), ':');
      && |parts| == 2 && AllDigits(parts[0]) && AllDigits(parts[1])
      && |parts[0]| >= 2 && |parts[1]| >= 2
      && ParseDigits(parts[0]) < 60 && ParseDigits(parts[1]) < 60
      && ParseDigits(parts[0]) * 60 + ParseDigits(parts[1]) == s
  {
    var s := millis / 1000;
    VideoTimeMinutes(millis);
    var a, b := Format00(s / 60), Format00(s % 60);
    DigitsHaveNo(a, ':');
    DigitsHaveNo(b, ':');
    SplitFields(a, b, "");
  }

  /** Three padded numbers joined by ':' split back into the three numbers. */
  lemma ThreeFields(h: nat, m: nat, c: nat)
    ensures var parts := Split(Format00(h) + ":" + Format00(m) + ":" + Format00(c), ':');
      && parts == [Format00(h), Format00(m), Format00(c)]
      && AllDigits(parts[0]) && AllDigits(parts[1]) && AllDigits(parts[2])
      && ParseDigits(parts[0]) == h && ParseDigits(parts[1]) == m && ParseDigits(parts[2]) == c
  {
    DigitsHaveNo(Format00(h), ':');
    DigitsHaveNo(Format00(m), ':');
    DigitsHaveNo(Format00(c), ':');
    SplitFields(Format00(h), Format00(m), Format00(c));
  }

  /**
   * From one hour on the text is hours, minutes below 60 and seconds below
   * 60, reading back as the seconds elapsed.
   */
  lemma VideoTimeFromAnHour(millis: nat)
    requires millis / 1000 >= 3600
    ensures var s, parts := millis / 1000, Split(VideoTime(millis), ':');
      && |parts| == 3 && AllDigits(parts[0]) && AllDigits(parts[1]) && AllDigits(parts[2])
      && |parts[0]| >= 2 && |parts[1]| >= 2 && |parts[2]| >= 2
      && ParseDigits(parts[0]) >= 1 && ParseDigits(parts[1]) < 60 && ParseDigits(parts[2]) < 60
      && ParseDigits(parts[0]) * 3600 + ParseDigits(parts[1]) * 60 + ParseDigits(parts[2]) == s
  {
    var s := millis / 1000;
    var h: nat := s / 3600;
    assert 0 <= s - h * 3600 < 3600 by {
      HourSplit(s);
    }
    var m: nat := (s - h * 3600) / 60;
    var c: nat := s % 60;
    assert VideoTime(millis) == Format00(h) + ":" + Format00(m) + ":" + Format00(c) by {
      VideoTimeHours(millis);
    }
    assert h >= 1 && m < 60 && c < 60 && h * 3600 + m * 60 + c == s by {
      HourSplit(s);
    }
    ThreeFields(h, m, c);
  }

  /** onVideoTimer: the red dot for an even count, the white one for an odd count */
  function RedDot(millis: int): bool {
    Rem(millis, 2) == 0
  }

  /** The dot is red exactly for an even count, and consecutive counts give opposite colours. */
  lemma RedDotAlternates(millis: int)
    ensures RedDot(millis) <==> millis % 2 == 0
    ensures RedDot(millis) != RedDot(millis + 1)
  {
  }

  /** The camera the switch button picks: the front one while the back one is in use, else the back one */
  function SwitchCamera(cameraId: int): int {
    if cameraId == CAMERA_FACING_BACK then CAMERA_FACING_FRONT else CAMERA_FACING_BACK
  }

  /** Switching always gives one of the two facings and changes the facing; from either facing, switching twice comes back. */
  lemma SwitchCameraToggles(cameraId: int)
    ensures SwitchCamera(cameraId) in {CAMERA_FACING_BACK, CAMERA_FACING_FRONT}
    ensures SwitchCamera(cameraId) != cameraId
    ensures cameraId in {CAMERA_FACING_BACK, CAMERA_FACING_FRONT} ==> SwitchCamera(SwitchCamera(cameraId)) == cameraId
  {
  }

  /** The activity's camera id and the recorder's, which `switchCamera` sets */
  class Screen {
    var cameraId: int
    var recorderCameraId: int

    /**
     * onCreate's initialize: the activity's own id starts on the back camera;
     * the recorder takes the options' camera when options were passed, and
     * stays on the back camera without them. Until the first switch a photo is
     * therefore turned for the back camera, whatever the recorder faces.
     */
    constructor (optionsCameraId: Option<int>)
      ensures cameraId == CAMERA_FACING_BACK
      ensures optionsCameraId.None? ==> recorderCameraId == CAMERA_FACING_BACK
      ensures optionsCameraId.Some? ==> recorderCameraId == optionsCameraId.value
      ensures CaptureRotation() == CaptureDegrees(CAMERA_FACING_BACK)
    {
      cameraId := CAMERA_FACING_BACK;
      recorderCameraId := optionsCameraId.GetOr(CAMERA_FACING_BACK);
    }

    /** The switch button: pick the other facing from the recorder's, then hand it to the recorder */
    method OnSwitchClick()
      modifies this`cameraId, this`recorderCameraId
      ensures cameraId == recorderCameraId == SwitchCamera(old(recorderCameraId))
    {
      cameraId := SwitchCamera(recorderCameraId);
      recorderCameraId := cameraId;
    }

    /** The rotation a photo taken now is given */
    function CaptureRotation(): int
      reads this`cameraId
    {
      CaptureDegrees(cameraId)
    }
  }

  /**
   * Opened with the front camera in its options, the screen previews the front
   * camera but turns a photo as the back camera's would be turned.
   */
  method FrontOptionCapturedAsBack() returns (screen: Screen)
    ensures screen.recorderCameraId == CAMERA_FACING_FRONT
    ensures screen.CaptureRotation() == 90 && CaptureDegrees(screen.recorderCameraId) == 270
  {
    screen := new Screen(Some(CAMERA_FACING_FRONT));
  }

  /** Two presses of the switch button come back to the first camera. */
  method SwitchTwice(screen: Screen)
    requires screen.recorderCameraId in {CAMERA_FACING_BACK, CAMERA_FACING_FRONT}
    modifies screen
    ensures screen.cameraId == screen.recorderCameraId == old(screen.recorderCameraId)
  {
    screen.OnSwitchClick();
    screen.OnSwitchClick();
  }
}
