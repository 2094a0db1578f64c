/**
 * What happens when a pick, get-content, capture or crop activity returns:
 * the command copies the chosen content into a cache file, corrects its
 * orientation, hands it on to the cropper or compresses it, and sends the
 * file to the listener. The run is modelled by the trace of effects it
 * performs; content-resolver queries, the codec and the clock are parameters.
 * A trace ending in `Compress` is a run still inside the compressor's
 * down-sampling loop, which has not returned.
 */
module MediaProviderCommand {
  import opened Wrappers
  import opened Text
  import opened IO
  import MO = MediaOptions
  import IP = ImageProvider

  const RESULT_OK := -1
  const RESULT_CANCELED := 0

  const REQUEST_PICK := 12001
  const REQUEST_CAPTURE := 12002
  const REQUEST_CROP := 12004
  const REQUEST_GET_CONTENT := 12005

  const DIRECTORY_PICK := "Pick"
  const DIRECTORY_CAPTURE := "Capture"
  const DIRECTORY_CROP := "Crop"

  /** A uri is its string form; a null one is None. */
  type Uri = Option<string>

  /** The observable effects of a run. */
  datatype Effect =
    | Copy(from: Uri, to: string)          // content copied into a cache file
    | Correct(path: string)                // orientation corrected in place
    | Crop(data: Uri, output: Uri)         // the crop activity started on `data`, writing to `output`
    | Delete(uri: Uri)                     // content deleted
    | Compress(path: string)               // the file handed to the compressor
    | Send(requestCode: int, path: string) // the file posted to the listener
    | Throw(exception: string)             // the run ended with an exception

  /** What the run consults outside the command */
  datatype Env = Env(
    ctx: Context,
    picked: Uri,                        // the result intent's data
    displayName: Uri -> string,         // the content resolver's display name of a uri
    present: string -> bool,            // whether a file exists
    mimeType: Option<string>,           // the content resolver's type of the picked uri
    crop: bool,                         // the provider's crop flag
    compress: bool,                     // the provider's compress flag
    decodes: string -> bool,            // whether BitmapFactory.decodeFile reads a file, which correcting its orientation needs
    compressed: string -> IP.Outcome,   // how ImageProvider.compress ends for a file: a file, an exception, or still sampling
    fileUri: string -> string,          // the content uri of a file
    tempUri: string)                    // a fresh temporary image uri

  /** A finished run: the effects in order and the options afterwards */
  datatype Routed = Routed(effects: seq<Effect>, options: MO.Fields)

  /** The cache file for a display name in a directory */
  function Target(env: Env, dir: string, name: string): string {
    CreateCacheFile(env.ctx, Some(dir), Some(name)).value
  }

  /** The crop hand-off: the options get the file's uri as data and a fresh uri as output. */
  function CropFrom(env: Env, file: string, options: MO.Fields): Routed {
    Routed([Crop(Some(env.fileUri(file)), Some(env.tempUri))],
           options.(data := Some(env.fileUri(file)), output := Some(env.tempUri)))
  }

  /**
   * Compress when the flag is on, then send the resulting file under `code`.
   * The compressor has no handler around it: its exception ends the run, and
   * while its loop runs nothing follows.
   */
  function Deliver(env: Env, code: int, file: string): seq<Effect> {
    if !env.compress then [Send(code, file)]
    else [Compress(file)] + Compressed(env.compressed(file), code)
  }

  /** What follows the hand-off to the compressor */
  function Compressed(outcome: IP.Outcome, code: int): seq<Effect> {
    match outcome
    case Returned(path) => [Send(code, path)]
    case Raised(e) => [Throw(e)]
    case StillSampling => []
  }

  /** Whether the file handed to the sender gets there: no compression, or one that returns */
  predicate Returns(env: Env, file: string) {
    !env.compress || env.compressed(file).Returned?
  }

  /** The file the sender receives when it gets there */
  function Sent(env: Env, file: string): string
    requires Returns(env, file)
  {
    if env.compress then env.compressed(file).path else file
  }

  /** The pick and get-content branch */
  function Picked(code: int, env: Env, options: MO.Fields): Routed {
    var file := Target(env, DIRECTORY_PICK, env.displayName(env.picked));
    var copied := if env.present(file) then [] else [Copy(env.picked, file)];
    match env.mimeType
    case None => Routed(copied + [Throw("NullPointerException")], options)
    case Some(t) =>
      var isImage := StartsWith(t, "image");
      var corrected := copied + (if isImage then [Correct(file)] else []);
      if isImage && !env.decodes(file) then Routed(corrected + [Throw("NullPointerException")], options)
      else if isImage && env.crop then
        var c := CropFrom(env, file, options);
        Routed(corrected + c.effects, c.options)
      else Routed(corrected + Deliver(env, code, file), options)
  }

  /** The capture branch: the camera wrote to the options' output uri. */
  function Captured(env: Env, options: MO.Fields): Routed {
    var file := Target(env, DIRECTORY_CAPTURE, env.displayName(options.output));
    var corrected := [Copy(options.output, file), Correct(file)];
    if !env.decodes(file) then Routed(corrected + [Throw("NullPointerException")], options)
    else if env.crop then
      var c := CropFrom(env, file, options);
      Routed(corrected + c.effects, c.options)
    else Routed(corrected + Deliver(env, REQUEST_CAPTURE, file), options)
  }

  /** The crop branch: the cropper wrote to the options' output uri, which is then deleted. */
  function Cropped(env: Env, options: MO.Fields): Routed {
    var file := Target(env, DIRECTORY_CROP, env.displayName(options.output));
    Routed([Copy(options.output, file), Delete(options.output)] + Deliver(env, REQUEST_CROP, file), options)
  }

  /** The run as a whole: the branch the request code names, if the result is OK */
  function Route(requestCode: int, resultCode: int, env: Env, options: MO.Fields): Routed {
    if resultCode != RESULT_OK then Routed([], options)
    else if requestCode == REQUEST_PICK || requestCode == REQUEST_GET_CONTENT then Picked(requestCode, env, options)
    else if requestCode == REQUEST_CAPTURE then Captured(env, options)
    else if requestCode == REQUEST_CROP then Cropped(env, options)
    else Routed([], options)
  }

  /** Compress if asked to, and send: the shared tail of every branch */
  method CompressAndSend(env: Env, code: int, file: string) returns (effects: seq<Effect>)
    ensures effects == Deliver(env, code, file)
  {
    var file := file;
    effects := [];
    if env.compress {
      effects := effects + [Compress(file)];
      var outcome := env.compressed(file);
      match outcome
      case Raised(e) =>
        return effects + [Throw(e)];
      case StillSampling =>
        return;
      case Returned(path) =>
        file := path;
    }
    effects := effects + [Send(code, file)];
  }

  /** provider.crop(options.data(fileUri).output(tempUri)): the fluent setters update the options in place */
  method StartCrop(env: Env, file: string, options: MO.MediaOptions) returns (effects: seq<Effect>)
    modifies options
    ensures Routed(effects, options.Snapshot()) == CropFrom(env, file, old(options.Snapshot()))
  {
    var o := MO.ChainDataOutput(options, Some(env.fileUri(file)), Some(env.tempUri));
    effects := [Crop(o.data, o.output)];
  }

  /** The pick and get-content block of run */
  method PickResult(code: int, env: Env, options: MO.MediaOptions) returns (effects: seq<Effect>)
    modifies options
    ensures Routed(effects, options.Snapshot()) == Picked(code, env, old(options.Snapshot()))
  {
    effects := [];
    var file := Target(env, DIRECTORY_PICK, env.displayName(env.picked));
    if !env.present(file) {
      effects := effects + [Copy(env.picked, file)];
    }
    if env.mimeType.None? {
      return effects + [Throw("NullPointerException")];
    }
    var isImage := StartsWith(env.mimeType.value, "image");
    if isImage {
      effects := effects + [Correct(file)];
      if !env.decodes(file) {
        // rotate dereferences the null bitmap of an unreadable file
        return effects + [Throw("NullPointerException")];
      }
    }
    var rest;
    if isImage && env.crop {
      rest := StartCrop(env, file, options);
    } else {
      rest := CompressAndSend(env, code, file);
    }
    effects := effects + rest;
  }

  /** The capture block of run */
  method CaptureResult(env: Env, options: MO.MediaOptions) returns (effects: seq<Effect>)
    modifies options
    ensures Routed(effects, options.Snapshot()) == Captured(env, old(options.Snapshot()))
  {
    var output := options.output;
    var file := Target(env, DIRECTORY_CAPTURE, env.displayName(output));
    effects := [Copy(output, file), Correct(file)];
    if !env.decodes(file) {
      return effects + [Throw("NullPointerException")];
    }
    var rest;
    if env.crop {
      rest := StartCrop(env, file, options);
    } else {
      rest := CompressAndSend(env, REQUEST_CAPTURE, file);
    }
    effects := effects + rest;
  }

  /** The crop block of run */
  method CropResult(env: Env, options: MO.MediaOptions) returns (effects: seq<Effect>)
    ensures Routed(effects, options.Snapshot()) == Cropped(env, options.Snapshot())
  {
    var output := options.output;
    var file := Target(env, DIRECTORY_CROP, env.displayName(output));
    effects := [Copy(output, file), Delete(output)];
    var rest := CompressAndSend(env, REQUEST_CROP, file);
    effects := effects + rest;
  }

  /**
   * run: three guarded blocks in a row, one per request code. The codes are
   * distinct, so at most one block runs.
   */
  method Run(requestCode: int, resultCode: int, env: Env, options: MO.MediaOptions) returns (effects: seq<Effect>)
    modifies options
    ensures Routed(effects, options.Snapshot()) == Route(requestCode, resultCode, env, old(options.Snapshot()))
  {
    effects := [];
    if resultCode == RESULT_OK && (requestCode == REQUEST_PICK || requestCode == REQUEST_GET_CONTENT) {
      effects := PickResult(requestCode, env, options);
    }
    if resultCode == RESULT_OK && requestCode == REQUEST_CAPTURE {
      effects := CaptureResult(env, options);
    }
    if resultCode == RESULT_OK && requestCode == REQUEST_CROP {
      effects := CropResult(env, options);
    }
  }

  // ---- properties of a run ----

  /** How many sends a trace holds */
  function Sends(effects: seq<Effect>): nat {
    if effects == [] then 0
    else Sends(effects[..|effects| - 1]) + (if effects[|effects| - 1].Send? then 1 else 0)
  }

  lemma {:induction false} SendsConcat(a: seq<Effect>, b: seq<Effect>)
    ensures Sends(a + b) == Sends(a) + Sends(b)
    decreases |b|
  {
    if b == [] {
      assert a + b == a;
    } else {
      assert (a + b)[..|a + b| - 1] == a + b[..|b| - 1];
      SendsConcat(a, b[..|b| - 1]);
    }
  }

  /** A result that is not OK (a cancelled activity) does nothing at all. */
  lemma NotOkDoesNothing(requestCode: int, resultCode: int, env: Env, options: MO.Fields)
    requires resultCode != RESULT_OK
    ensures Route(requestCode, resultCode, env, options) == Routed([], options)
  {
  }

  /**
   * A pick or get-content result copies into the Pick directory exactly when
   * the target file is missing; an existing file is used as it is.
   */
  lemma PickCopiesOnlyWhenAbsent(code: int, env: Env, options: MO.Fields)
    requires code == REQUEST_PICK || code == REQUEST_GET_CONTENT
    ensures var file := Target(env, DIRECTORY_PICK, env.displayName(env.picked));
      var r := Route(code, RESULT_OK, env, options);
      (Copy(env.picked, file) in r.effects <==> !env.present(file))
      && (!env.present(file) ==> r.effects[0] == Copy(env.picked, file))
      && (env.present(file) ==> forall i :: 0 <= i < |r.effects| ==> !r.effects[i].Copy?)
  {
  }

  /**
   * A picked file is corrected exactly when its type starts with "image"; a
   * captured file always is.
   */
  lemma CorrectedWhenImage(code: int, env: Env, options: MO.Fields)
    requires code == REQUEST_PICK || code == REQUEST_GET_CONTENT
    requires env.mimeType.Some?
    ensures var file := Target(env, DIRECTORY_PICK, env.displayName(env.picked));
      Correct(file) in Route(code, RESULT_OK, env, options).effects <==> StartsWith(env.mimeType.value, "image")
    ensures Correct(Target(env, DIRECTORY_CAPTURE, env.displayName(options.output)))
            in Route(REQUEST_CAPTURE, RESULT_OK, env, options).effects
  {
  }

  /**
   * A pick starts the cropper exactly for an image that decodes with cropping
   * on, and then sends nothing; starting it points the options at the file
   * and at a fresh output. An image that does not decode ends the run in the
   * correction, before the cropper or the sender.
   */
  lemma PickCropDecision(code: int, env: Env, options: MO.Fields)
    requires code == REQUEST_PICK || code == REQUEST_GET_CONTENT
    requires env.mimeType.Some?
    ensures var r := Route(code, RESULT_OK, env, options);
      var image := StartsWith(env.mimeType.value, "image");
      var decodes := env.decodes(Target(env, DIRECTORY_PICK, env.displayName(env.picked)));
      && (r.effects[|r.effects| - 1].Crop? <==> image && decodes && env.crop)
      && (image && decodes && env.crop ==> Sends(r.effects) == 0 && r.options.output == Some(env.tempUri))
      && (image && !decodes ==> r.effects[|r.effects| - 1] == Throw("NullPointerException") && Sends(r.effects) == 0)
      && (!(image && decodes && env.crop) ==> r.options == options)
  {
    var r := Route(code, RESULT_OK, env, options);
    var image := StartsWith(env.mimeType.value, "image");
    if image && (env.crop || !env.decodes(Target(env, DIRECTORY_PICK, env.displayName(env.picked)))) {
      NoSends(r.effects);
    }
  }

  /**
   * A capture starts the cropper when the captured file decodes and cropping
   * is on, and then sends nothing; a file that does not decode ends the run
   * in the correction.
   */
  lemma CaptureCropDecision(env: Env, options: MO.Fields)
    ensures var r := Route(REQUEST_CAPTURE, RESULT_OK, env, options);
      var decodes := env.decodes(Target(env, DIRECTORY_CAPTURE, env.displayName(options.output)));
      && (r.effects[|r.effects| - 1].Crop? <==> decodes && env.crop)
      && (decodes && env.crop ==> Sends(r.effects) == 0 && r.options.output == Some(env.tempUri))
      && (!decodes ==> r.effects[|r.effects| - 1] == Throw("NullPointerException") && Sends(r.effects) == 0)
      && (!(decodes && env.crop) ==> r.options == options)
  {
    var r := Route(REQUEST_CAPTURE, RESULT_OK, env, options);
    if env.crop || !env.decodes(Target(env, DIRECTORY_CAPTURE, env.displayName(options.output))) {
      NoSends(r.effects);
    }
  }

  lemma {:induction false} NoSends(a: seq<Effect>)
    requires forall i :: 0 <= i < |a| ==> !a[i].Send?
    ensures Sends(a) == 0
    decreases |a|
  {
    if a != [] {
      NoSends(a[..|a| - 1]);
    }
  }

  /** The effects before the hand-off to the cropper or the sender */
  function Prefix(code: int, env: Env, options: MO.Fields): (r: seq<Effect>)
    requires code == REQUEST_PICK || code == REQUEST_GET_CONTENT ==> env.mimeType.Some?
    ensures forall i :: 0 <= i < |r| ==> !r[i].Send? && !r[i].Compress? && !r[i].Crop?
  {
    if code == REQUEST_CAPTURE then
      var f := Target(env, DIRECTORY_CAPTURE, env.displayName(options.output));
      [Copy(options.output, f), Correct(f)]
    else if code == REQUEST_CROP then
      var f := Target(env, DIRECTORY_CROP, env.displayName(options.output));
      [Copy(options.output, f), Delete(options.output)]
    else
      var f := Target(env, DIRECTORY_PICK, env.displayName(env.picked));
      var copied := if env.present(f) then [] else [Copy(env.picked, f)];
      copied + (if env.mimeType.Some? && StartsWith(env.mimeType.value, "image") then [Correct(f)] else [])
  }

  /** The file a branch works on */
  function Working(code: int, env: Env, options: MO.Fields): string {
    if code == REQUEST_CAPTURE then Target(env, DIRECTORY_CAPTURE, env.displayName(options.output))
    else if code == REQUEST_CROP then Target(env, DIRECTORY_CROP, env.displayName(options.output))
    else Target(env, DIRECTORY_PICK, env.displayName(env.picked))
  }

  /** Whether a branch gets past the orientation correction: it has none, or its file decodes */
  predicate Corrects(code: int, env: Env, options: MO.Fields) {
    if code == REQUEST_CAPTURE then env.decodes(Working(code, env, options))
    else if code == REQUEST_CROP then true
    else !(env.mimeType.Some? && StartsWith(env.mimeType.value, "image")) || env.decodes(Working(code, env, options))
  }

  /**
   * Without a crop, a branch that gets past the correction compresses exactly
   * when the flag is on. When the compressor is not used or returns, the
   * branch ends with exactly one send, of the compressed file or the file
   * itself, under the command's own request code; when the compressor
   * throws, the run ends with its exception, and while it is still sampling
   * the trace ends with the hand-off. A file the correction cannot decode
   * ends the run with a NullPointerException before the compressor. Only the
   * first case sends.
   */
  lemma DeliveredOnce(code: int, env: Env, options: MO.Fields)
    requires code in {REQUEST_PICK, REQUEST_GET_CONTENT, REQUEST_CAPTURE, REQUEST_CROP}
    requires code == REQUEST_CAPTURE ==> !env.crop
    requires code == REQUEST_PICK || code == REQUEST_GET_CONTENT ==>
      env.mimeType.Some? && !(StartsWith(env.mimeType.value, "image") && env.crop)
    ensures var r := Route(code, RESULT_OK, env, options);
      var file := Working(code, env, options);
      var corrects := Corrects(code, env, options);
      && Sends(r.effects) == (if corrects && Returns(env, file) then 1 else 0)
      && (corrects && Returns(env, file) ==> r.effects[|r.effects| - 1] == Send(code, Sent(env, file)))
      && (!corrects ==> r.effects[|r.effects| - 1] == Throw("NullPointerException"))
      && (corrects && env.compress && env.compressed(file).Raised? ==>
            r.effects[|r.effects| - 1] == Throw(env.compressed(file).exception))
      && (corrects && env.compress && env.compressed(file).StillSampling? ==> r.effects[|r.effects| - 1] == Compress(file))
      && ((exists i :: 0 <= i < |r.effects| && r.effects[i].Compress?) <==> corrects && env.compress)
  {
    var before := Prefix(code, env, options);
    if Corrects(code, env, options) {
      assert Route(code, RESULT_OK, env, options).effects == before + Deliver(env, code, Working(code, env, options));
      DeliverAfter(before, env, code, Working(code, env, options));
    } else {
      assert Route(code, RESULT_OK, env, options).effects == before + [Throw("NullPointerException")];
      ThrowAfter(before, "NullPointerException");
    }
  }

  /** After effects that neither send nor compress, an exception ends a run that sends and compresses nothing. */
  lemma ThrowAfter(before: seq<Effect>, exception: string)
    requires forall i :: 0 <= i < |before| ==> !before[i].Send? && !before[i].Compress?
    ensures var effects := before + [Throw(exception)];
      && Sends(effects) == 0
      && forall i :: 0 <= i < |effects| ==> !effects[i].Compress?
  {
    var effects := before + [Throw(exception)];
    forall i | 0 <= i < |effects|
      ensures !effects[i].Send? && !effects[i].Compress?
    {
      if i < |before| {
        assert effects[i] == before[i];
      }
    }
    NoSends(effects);
  }

  /**
   * After effects that neither send nor compress, the tail sends once, last,
   * exactly when the file gets to the sender, ends with the exception or the
   * hand-off otherwise, and compresses exactly when asked to.
   */
  lemma DeliverAfter(before: seq<Effect>, env: Env, code: int, file: string)
    requires forall i :: 0 <= i < |before| ==> !before[i].Send? && !before[i].Compress?
    ensures var effects := before + Deliver(env, code, file);
      && Sends(effects) == (if Returns(env, file) then 1 else 0)
      && (Returns(env, file) ==> effects[|effects| - 1] == Send(code, Sent(env, file)))
      && (env.compress && env.compressed(file).Raised? ==>
            effects[|effects| - 1] == Throw(env.compressed(file).exception))
      && (env.compress && env.compressed(file).StillSampling? ==> effects[|effects| - 1] == Compress(file))
      && ((exists i :: 0 <= i < |effects| && effects[i].Compress?) <==> env.compress)
  {
    var tail := Deliver(env, code, file);
    var effects := before + tail;
    SendsConcat(before, tail);
    NoSends(before);
    if env.compress {
      assert effects[|before|].Compress?;
      assert tail[..1] == [tail[0]];
      NoSends(tail[..1]);
      if !Returns(env, file) {
        NoSends(tail);
      }
    } else {
      assert [tail[0]][..0] == [];
      forall i | 0 <= i < |effects|
        ensures !effects[i].Compress?
      {
        if i >= |before| {
          assert effects[i] == tail[i - |before|];
        }
      }
    }
  }

  /**
   * A crop result copies the cropper's output into the Crop directory, deletes
   * the output, compresses if asked to, and sends under REQUEST_CROP, in
   * that order.
   */
  lemma CropResultOrder(env: Env, options: MO.Fields)
    ensures var file := Target(env, DIRECTORY_CROP, env.displayName(options.output));
      Route(REQUEST_CROP, RESULT_OK, env, options).effects ==
        [Copy(options.output, file), Delete(options.output)]
        + (if !env.compress then [Send(REQUEST_CROP, file)]
           else if env.compressed(file).Returned? then [Compress(file), Send(REQUEST_CROP, env.compressed(file).path)]
           else if env.compressed(file).Raised? then [Compress(file), Throw(env.compressed(file).exception)]
           else [Compress(file)])
  {
  }

  /** Whatever the codes, a run sends at most once. */
  lemma AtMostOneSend(requestCode: int, resultCode: int, env: Env, options: MO.Fields)
    ensures Sends(Route(requestCode, resultCode, env, options).effects) <= 1
  {
    var r := Route(requestCode, resultCode, env, options);
    var pick := requestCode == REQUEST_PICK || requestCode == REQUEST_GET_CONTENT;
    if resultCode == RESULT_OK && requestCode in {REQUEST_PICK, REQUEST_GET_CONTENT, REQUEST_CAPTURE, REQUEST_CROP} {
      if pick && env.mimeType.None? {
        var file := Target(env, DIRECTORY_PICK, env.displayName(env.picked));
        var copied := if env.present(file) then [] else [Copy(env.picked, file)];
        NoSends(copied + [Throw("NullPointerException")]);
      } else if requestCode == REQUEST_CROP
             || (requestCode == REQUEST_CAPTURE && !env.crop)
             || (pick && !(StartsWith(env.mimeType.value, "image") && env.crop)) {
        DeliveredOnce(requestCode, env, options);
      } else if requestCode == REQUEST_CAPTURE {
        CaptureCropDecision(env, options);
      } else {
        PickCropDecision(requestCode, env, options);
      }
    }
  }

  /** The trace with every send relabelled to `code` */
  function Relabel(effects: seq<Effect>, code: int): (r: seq<Effect>)
    ensures |r| == |effects|
  {
    if effects == [] then []
    else
      var last := effects[|effects| - 1];
      Relabel(effects[..|effects| - 1], code) + [if last.Send? then Send(code, last.path) else last]
  }

  lemma {:induction false} RelabelConcat(a: seq<Effect>, b: seq<Effect>, code: int)
    ensures Relabel(a + b, code) == Relabel(a, code) + Relabel(b, code)
    decreases |b|
  {
    if b == [] {
      assert a + b == a;
    } else {
      assert (a + b)[..|a + b| - 1] == a + b[..|b| - 1];
      RelabelConcat(a, b[..|b| - 1], code);
    }
  }

  lemma {:induction false} RelabelWithoutSends(a: seq<Effect>, code: int)
    requires forall i :: 0 <= i < |a| ==> !a[i].Send?
    ensures Relabel(a, code) == a
    decreases |a|
  {
    if a != [] {
      RelabelWithoutSends(a[..|a| - 1], code);
    }
  }

  /** Relabelling the sender's effects is sending under the new code. */
  lemma RelabelDeliver(env: Env, code: int, other: int, file: string)
    ensures Relabel(Deliver(env, code, file), other) == Deliver(env, other, file)
  {
    var d := Deliver(env, code, file);
    assert d[..0] == [];
    if env.compress {
      assert d[..1] == [Compress(file)];
      if |d| == 2 {
        assert d[..2][..1] == d[..1];
      }
    }
  }

  /**
   * A get-content result is handled exactly like a pick, down to the Pick
   * directory, except that it is sent under its own request code.
   */
  lemma GetContentIsPick(env: Env, options: MO.Fields)
    ensures Route(REQUEST_GET_CONTENT, RESULT_OK, env, options).options == Route(REQUEST_PICK, RESULT_OK, env, options).options
    ensures Route(REQUEST_GET_CONTENT, RESULT_OK, env, options).effects
         == Relabel(Route(REQUEST_PICK, RESULT_OK, env, options).effects, REQUEST_GET_CONTENT)
  {
    PickedRelabelled(env, options);
  }

  /** The pick branch run under the get-content code is the pick run with its sends relabelled */
  lemma PickedRelabelled(env: Env, options: MO.Fields)
    ensures Picked(REQUEST_GET_CONTENT, env, options).options == Picked(REQUEST_PICK, env, options).options
    ensures Picked(REQUEST_GET_CONTENT, env, options).effects
         == Relabel(Picked(REQUEST_PICK, env, options).effects, REQUEST_GET_CONTENT)
  {
    var file := Target(env, DIRECTORY_PICK, env.displayName(env.picked));
    var copied := if env.present(file) then [] else [Copy(env.picked, file)];
    if env.mimeType.None? {
      RelabelWithoutSends(copied + [Throw("NullPointerException")], REQUEST_GET_CONTENT);
    } else {
      var isImage := StartsWith(env.mimeType.value, "image");
      var corrected := copied + (if isImage then [Correct(file)] else []);
      if isImage && !env.decodes(file) {
        RelabelWithoutSends(corrected + [Throw("NullPointerException")], REQUEST_GET_CONTENT);
      } else if isImage && env.crop {
        RelabelWithoutSends(corrected + CropFrom(env, file, options).effects, REQUEST_GET_CONTENT);
      } else {
        RelabelWithoutSends(corrected, REQUEST_GET_CONTENT);
        RelabelConcat(corrected, Deliver(env, REQUEST_PICK, file), REQUEST_GET_CONTENT);
        RelabelDeliver(env, REQUEST_PICK, REQUEST_GET_CONTENT, file);
      }
    }
  }

  /**
   * A pick that starts the cropper leads, when the crop returns, to a send
   * under REQUEST_CROP of the file copied from the fresh output uri into
   * the Crop directory, not under the code of the original pick.
   */
  lemma CroppedPickReturnsUnderCropCode(code: int, env: Env, options: MO.Fields)
    requires code == REQUEST_PICK || code == REQUEST_GET_CONTENT
    requires env.mimeType.Some? && StartsWith(env.mimeType.value, "image") && env.crop
    requires env.decodes(Target(env, DIRECTORY_PICK, env.displayName(env.picked)))
    ensures var after := Route(code, RESULT_OK, env, options).options;
      var r := Route(REQUEST_CROP, RESULT_OK, env, after);
      var file := Target(env, DIRECTORY_CROP, env.displayName(Some(env.tempUri)));
      && r.effects[0] == Copy(Some(env.tempUri), file)
      && Sends(r.effects) == (if Returns(env, file) then 1 else 0)
      && (Returns(env, file) ==> r.effects[|r.effects| - 1] == Send(REQUEST_CROP, Sent(env, file)))
  {
    var after := Route(code, RESULT_OK, env, options).options;
    DeliveredOnce(REQUEST_CROP, env, after);
  }
}
