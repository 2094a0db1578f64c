/**
 * Crop and output options for the media provider. Every setter assigns one
 * field and returns the same object, so a chain of calls configures one
 * instance. A `Uri` is represented by its string form.
 */
module MediaOptions {
  import opened Wrappers

  datatype Fields = Fields(
    crop: bool, aspectX: int, aspectY: int, outputX: int, outputY: int,
    returnData: bool, circleCrop: bool, noFaceDetection: bool,
    data: Option<string>, output: Option<string>)

  /** Field initialisers: no crop, a 1:1 aspect, output size -1 (unset), no URIs. */
  const DEFAULTS := Fields(false, 1, 1, -1, -1, false, false, false, None, None)

  class MediaOptions {
    var crop: bool
    var aspectX: int
    var aspectY: int
    var outputX: int
    var outputY: int
    var returnData: bool
    var circleCrop: bool
    var noFaceDetection: bool
    var data: Option<string>
    var output: Option<string>

    function Snapshot(): Fields
      reads this
    {
      Fields(crop, aspectX, aspectY, outputX, outputY, returnData, circleCrop,
             noFaceDetection, data, output)
    }

    constructor ()
      ensures Snapshot() == DEFAULTS
    {
      crop, aspectX, aspectY, outputX, outputY := false, 1, 1, -1, -1;
      returnData, circleCrop, noFaceDetection := false, false, false;
      data, output := None, None;
    }

    method Crop(v: bool) returns (r: MediaOptions)
      modifies this`crop
      ensures r == this && Snapshot() == old(Snapshot()).(crop := v)
    { crop := v; r := this; }

    method AspectX(v: int) returns (r: MediaOptions)
      modifies this`aspectX
      ensures r == this && Snapshot() == old(Snapshot()).(aspectX := v)
    { aspectX := v; r := this; }

    method AspectY(v: int) returns (r: MediaOptions)
      modifies this`aspectY
      ensures r == this && Snapshot() == old(Snapshot()).(aspectY := v)
    { aspectY := v; r := this; }

    method OutputX(v: int) returns (r: MediaOptions)
      modifies this`outputX
      ensures r == this && Snapshot() == old(Snapshot()).(outputX := v)
    { outputX := v; r := this; }

    method OutputY(v: int) returns (r: MediaOptions)
      modifies this`outputY
      ensures r == this && Snapshot() == old(Snapshot()).(outputY := v)
    { outputY := v; r := this; }

    method ReturnData(v: bool) returns (r: MediaOptions)
      modifies this`returnData
      ensures r == this && Snapshot() == old(Snapshot()).(returnData := v)
    { returnData := v; r := this; }

    method CircleCrop(v: bool) returns (r: MediaOptions)
      modifies this`circleCrop
      ensures r == this && Snapshot() == old(Snapshot()).(circleCrop := v)
    { circleCrop := v; r := this; }

    method NoFaceDetection(v: bool) returns (r: MediaOptions)
      modifies this`noFaceDetection
      ensures r == this && Snapshot() == old(Snapshot()).(noFaceDetection := v)
    { noFaceDetection := v; r := this; }

    method Data(v: Option<string>) returns (r: MediaOptions)
      modifies this`data
      ensures r == this && Snapshot() == old(Snapshot()).(data := v)
    { data := v; r := this; }

    method Output(v: Option<string>) returns (r: MediaOptions)
      modifies this`output
      ensures r == this && Snapshot() == old(Snapshot()).(output := v)
    { output := v; r := this; }
  }

  /** A chain `data(d).output(o)` configures the one receiver, as the crop request relies on. */
  method ChainDataOutput(opts: MediaOptions, d: Option<string>, o: Option<string>) returns (r: MediaOptions)
    modifies opts`data, opts`output
    ensures r == opts
    ensures opts.Snapshot() == old(opts.Snapshot()).(data := d, output := o)
  {
    var step := opts.Data(d);
    r := step.Output(o);
  }
}
