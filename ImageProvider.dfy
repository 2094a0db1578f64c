/**
 * Image helpers: which files can be compressed and in what format, the EXIF
 * rotation angle, the sample size for a target size, file names, and the two
 * compression loops. The codec is abstract: an encoder is a function from
 * quality to encoded length, a decoder a function from sample size to the
 * decoded picture (or none, as `BitmapFactory` returns null).
 */
module ImageProvider {
  import opened Wrappers
  import opened Text
  import opened IO
  import Thumbnail

  const DIRECTORY_COMPRESS := "Compress"
  const DIRECTORY_CROP := "Crop"
  const DIRECTORY_PICTURES := "Pictures"

  // ---- formats ----

  datatype CompressFormat = JPEG | PNG | WEBP

  /**
   * compressFormat: tests the upper-cased absolute path for "PNG", then
   * "WEBP", then "JPEG"/"JPG", each later match overriding; JPEG by default.
   * No path ends in two of these, so the order never matters.
   */
  function CompressFormatOf(absPath: string): (f: CompressFormat)
    ensures f == PNG <==> EndsWith(Upper(absPath), "PNG")
    ensures f == WEBP <==> EndsWith(Upper(absPath), "WEBP")
  {
    var upper := Upper(absPath);
    EndingsExclusive(upper);
    var format := JPEG;
    var format := if EndsWith(upper, "PNG") then PNG else format;
    var format := if EndsWith(upper, "WEBP") then WEBP else format;
    if EndsWith(upper, "JPEG") || EndsWith(upper, "JPG") then JPEG else format
  }

  /** No name ends in two of the extensions compressFormat tests. */
  lemma EndingsExclusive(u: string)
    ensures EndsWith(u, "PNG") ==> !EndsWith(u, "WEBP") && !EndsWith(u, "JPEG") && !EndsWith(u, "JPG")
    ensures EndsWith(u, "WEBP") ==> !EndsWith(u, "JPEG") && !EndsWith(u, "JPG")
  {
    if EndsWith(u, "PNG") {
      assert u[|u| - 1] == 'G' && u[|u| - 2] == 'N' && u[|u| - 3] == 'P';
    }
    if EndsWith(u, "WEBP") {
      assert u[|u| - 1] == 'P';
    }
  }

  /** isCompressible: a non-empty path whose upper-cased form ends in a still-image extension */
  predicate IsCompressible(path: Option<string>) {
    path.Some? && |path.value| != 0 &&
    var upper := Upper(path.value);
    EndsWith(upper, ".JPG") || EndsWith(upper, ".JPEG") || EndsWith(upper, ".PNG") || EndsWith(upper, ".WEBP")
  }

  /** Upper-casing forgets the case of the input. */
  lemma UpperOfLower(s: string)
    ensures Upper(Lower(s)) == Upper(s)
  {
  }

  /** A compressible path is compressed in the format its extension names. */
  lemma CompressibleFormat(path: string)
    requires IsCompressible(Some(path))
    ensures EndsWith(Upper(path), ".PNG") <==> CompressFormatOf(path) == PNG
    ensures EndsWith(Upper(path), ".WEBP") <==> CompressFormatOf(path) == WEBP
    ensures EndsWith(Upper(path), ".JPG") || EndsWith(Upper(path), ".JPEG") <==> CompressFormatOf(path) == JPEG
  {
    DottedEndings(Upper(path));
  }

  /**
   * For a name ending in one of the dotted extensions, the dotted and the
   * bare endings agree, and it ends in ".JPG" or ".JPEG" exactly when it
   * ends in neither "PNG" nor "WEBP".
   */
  lemma DottedEndings(u: string)
    requires EndsWith(u, ".JPG") || EndsWith(u, ".JPEG") || EndsWith(u, ".PNG") || EndsWith(u, ".WEBP")
    ensures EndsWith(u, ".PNG") <==> EndsWith(u, "PNG")
    ensures EndsWith(u, ".WEBP") <==> EndsWith(u, "WEBP")
    ensures EndsWith(u, ".JPG") || EndsWith(u, ".JPEG") <==> !EndsWith(u, "PNG") && !EndsWith(u, "WEBP")
  {
    EndsWithDotted(u, "PNG");
    EndsWithDotted(u, "WEBP");
    EndsWithDotted(u, "JPG");
    EndsWithDotted(u, "JPEG");
    EndingsExclusive(u);
  }

  /** Whether a path is compressible does not depend on its case. */
  lemma CompressibleIgnoresCase(path: string)
    ensures IsCompressible(Some(Lower(path))) == IsCompressible(Some(path))
  {
    UpperOfLower(path);
  }

  /** A name ending in "." + `ext` ends in `ext`. */
  lemma EndsWithDotted(u: string, ext: string)
    ensures EndsWith(u, "." + ext) ==> EndsWith(u, ext)
  {
    if EndsWith(u, "." + ext) {
      assert u[|u| - |ext|..] == u[|u| - |ext| - 1..][1..];
    }
  }

  // ---- rotation ----

  /** ExifInterface orientation codes */
  const ORIENTATION_NORMAL := 1
  const ORIENTATION_ROTATE_180 := 3
  const ORIENTATION_ROTATE_90 := 6
  const ORIENTATION_ROTATE_270 := 8

  /**
   * angle: the clockwise rotation a picture needs, from its EXIF orientation.
   * `orientation` is None when reading the EXIF data failed; a missing tag
   * reads as ORIENTATION_NORMAL.
   */
  function Angle(orientation: Option<int>): (r: int)
    ensures r in {0, 90, 180, 270}
    ensures r == 0 <==> orientation.None? || orientation.value !in {ORIENTATION_ROTATE_90, ORIENTATION_ROTATE_180, ORIENTATION_ROTATE_270}
    ensures orientation == Some(ORIENTATION_ROTATE_90) ==> r == 90
    ensures orientation == Some(ORIENTATION_ROTATE_180) ==> r == 180
    ensures orientation == Some(ORIENTATION_ROTATE_270) ==> r == 270
  {
    match orientation
    case None => 0
    case Some(o) =>
      if o == ORIENTATION_ROTATE_90 then 90
      else if o == ORIENTATION_ROTATE_180 then 180
      else if o == ORIENTATION_ROTATE_270 then 270
      else 0
  }

  /** The three rotation codes map to three different angles, and back. */
  lemma AngleDistinguishesRotations(a: int, b: int)
    requires a in {ORIENTATION_ROTATE_90, ORIENTATION_ROTATE_180, ORIENTATION_ROTATE_270}
    ensures Angle(Some(a)) == Angle(Some(b)) <==> a == b
  {
  }

  // ---- sample size ----

  /**
   * inSampleSize: how many times the picture (of width `w`, height `h`, each -1
   * when its bounds cannot be read) fits into the target size in both
   * directions, by Java int division; a zero target side throws.
   */
  function InSampleSize(w: int, h: int, width: int, height: int): (r: Result<int>)
    ensures r.Thrown? <==> width == 0 || height == 0
    ensures r.Thrown? ==> r.exception == "ArithmeticException"
  {
    if width == 0 || height == 0 then Thrown("ArithmeticException")
    else
      var byWidth, byHeight := Div(w, width), Div(h, height);
      Ok(if byWidth <= byHeight then byWidth else byHeight)
  }

  /** `k` fits into `a` in steps of `b` exactly when it is at most `a / b`. */
  lemma FitsUnder(a: nat, b: nat, k: nat)
    requires b > 0
    ensures k <= a / b <==> k * b <= a
  {
    var q, rem := a / b, a % b;
    assert a == q * b + rem && 0 <= rem < b;
    if k <= q {
      MulMonotone(k, q, b);
    } else {
      MulMonotone(q + 1, k, b);
      assert (q + 1) * b == q * b + b;
    }
  }

  lemma MulMonotone(x: nat, y: nat, b: nat)
    requires x <= y
    ensures x * b <= y * b
  {
  }

  /**
   * For a readable picture and a positive target, the sample size is the
   * largest factor by which the target still fits into the picture both ways.
   */
  lemma InSampleSizeIsLargestFit(w: nat, h: nat, width: nat, height: nat, k: nat)
    requires width > 0 && height > 0
    ensures InSampleSize(w, h, width, height).Ok?
    ensures k <= InSampleSize(w, h, width, height).value <==> k * width <= w && k * height <= h
  {
    FitsUnder(w, width, k);
    FitsUnder(h, height, k);
  }

  // ---- names ----

  /** createName(prefix, suffix) */
  function CreateName(prefix: string, suffix: string): (r: string)
    ensures StartsWith(r, "IMG_")
    ensures '/' !in prefix && '/' !in suffix ==> '/' !in r
  {
    "IMG_" + prefix + "." + suffix
  }

  /**
   * The cache file compress(Context, File, max) writes: `createName` with the
   * clock's time stamp, in the "Compress" cache directory.
   */
  function CompressTarget(ctx: Context, stamp: string, suffix: string): string {
    CreateCacheFile(ctx, Some(DIRECTORY_COMPRESS), Some(CreateName(stamp, suffix))).value
  }

  /**
   * A file created under a generated name reports back the suffix it was named
   * with: the compressed copy of a picture keeps the picture's extension.
   */
  lemma CompressTargetKeepsSuffix(ctx: Context, stamp: string, suffix: string)
    requires '/' !in stamp && suffix != [] && '/' !in suffix && '.' !in suffix
    ensures BaseName(CompressTarget(ctx, stamp, suffix)) == CreateName(stamp, suffix)
    ensures GetSuffix(Some(FileRef(CompressTarget(ctx, stamp, suffix), true, false))) == Some(Lower(suffix))
  {
    var name := CreateName(stamp, suffix);
    CreatedFileKeepsName(ctx, DIRECTORY_COMPRESS, name);
    assert name == ("IMG_" + stamp) + "." + suffix;
    GetSuffixOfDottedName(CompressTarget(ctx, stamp, suffix), "IMG_" + stamp, suffix);
  }

  // ---- single-line text ----

  /** The characters the pattern `[\s*\t\n\r]` matches: Java's white space and '*' */
  predicate Stripped(c: char) {
    c == ' ' || c == '\t' || c == '\n' || c == 11 as char || c == 12 as char || c == '\r' || c == '*'
  }

  /** toSingleLine: every matched character removed, the others kept in order */
  function ToSingleLine(value: string): (r: string)
    ensures |r| <= |value|
    ensures forall i :: 0 <= i < |r| ==> !Stripped(r[i])
    decreases |value|
  {
    if value == [] then []
    else if Stripped(value[0]) then ToSingleLine(value[1..])
    else [value[0]] + ToSingleLine(value[1..])
  }

  /** Stripping distributes over concatenation. */
  lemma {:induction false} ToSingleLineConcat(a: string, b: string)
    ensures ToSingleLine(a + b) == ToSingleLine(a) + ToSingleLine(b)
    decreases |a|
  {
    if a != [] {
      assert (a + b)[1..] == a[1..] + b;
      ToSingleLineConcat(a[1..], b);
    } else {
      assert a + b == b;
    }
  }

  /** A string without matched characters is already a single line. */
  lemma {:induction false} ToSingleLineOfClean(value: string)
    requires forall i :: 0 <= i < |value| ==> !Stripped(value[i])
    ensures ToSingleLine(value) == value
    decreases |value|
  {
    if value != [] {
      ToSingleLineOfClean(value[1..]);
      assert [value[0]] + value[1..] == value;
    }
  }

  /** Stripping twice is stripping once. */
  lemma ToSingleLineIdempotent(value: string)
    ensures ToSingleLine(ToSingleLine(value)) == ToSingleLine(value)
  {
    ToSingleLineOfClean(ToSingleLine(value));
  }

  /** Only matched characters are dropped: every other character keeps its count. */
  lemma {:induction false} ToSingleLineKeeps(value: string, c: char)
    requires !Stripped(c)
    ensures multiset(ToSingleLine(value))[c] == multiset(value)[c]
    decreases |value|
  {
    if value != [] {
      ToSingleLineKeeps(value[1..], c);
      assert value == [value[0]] + value[1..];
    }
  }

  // ---- the quality loop ----

  /** An encoding: the quality it was made at and its length in bytes */
  datatype Encoded = Encoded(quality: int, length: nat)

  /**
   * compress(Bitmap, CompressFormat, max): encode at quality 100, then while a
   * positive `max` is exceeded, lower the quality by 10 and encode again.
   * `encode` gives the encoded length per quality. Nothing bounds the quality
   * from below: below 0 `Bitmap.compress` throws IllegalArgumentException.
   */
  method CompressQuality(encode: int -> nat, max: int) returns (r: Result<Encoded>)
    ensures max <= 0 ==> r == Ok(Encoded(100, encode(100)))
    ensures r.Ok? ==> 0 <= r.value.quality <= 100 && r.value.quality % 10 == 0
    ensures r.Ok? ==> r.value.length == encode(r.value.quality)
    ensures r.Ok? && max > 0 ==> r.value.length <= max
    ensures r.Ok? ==> forall q :: r.value.quality < q <= 100 && q % 10 == 0 ==> encode(q) > max
    ensures r.Thrown? <==> max > 0 && forall q :: 0 <= q <= 100 && q % 10 == 0 ==> encode(q) > max
    ensures r.Thrown? ==> r.exception == "IllegalArgumentException"
  {
    var options := 100;
    var length := encode(options);
    while max > 0 && length > max
      invariant 0 <= options <= 100 && options % 10 == 0
      invariant max <= 0 ==> options == 100
      invariant length == encode(options)
      invariant forall q :: options < q <= 100 && q % 10 == 0 ==> encode(q) > max
      decreases options
    {
      options := options - 10;
      if options < 0 {
        return Thrown("IllegalArgumentException");
      }
      length := encode(options);
    }
    r := Ok(Encoded(options, length));
  }

  // ---- the down-sampling loop ----

  /**
   * A decoded bitmap: its size, the length of its JPEG encoding at quality
   * 100, and the length of its encoding in the format being compressed to.
   */
  datatype Picture = Picture(width: nat, height: nat, jpegLength: nat, length: nat)

  /**
   * A picture file: its bounds as a bounds-only decode reports them (-1 when
   * unreadable), the plain ARGB_8888 decode of `BitmapFactory.decodeFile(path)`,
   * and decodePath's RGB_565 decode per sample size.
   */
  datatype Source = Source(width: int, height: int, plain: Option<Picture>, decode: int -> Option<Picture>)

  /**
   * Where the down-sampling loop stands: fitted (the loop exited), failed with
   * an exception, or still running when the step budget ran out.
   */
  datatype Down =
    | Fitted(picture: Picture, inSampleSize: nat)
    | Failed(exception: string)
    | Unfinished(picture: Picture, inSampleSize: nat)

  /** One round of the loop: decode at the sample size for the current bitmap divided by `k` */
  function Resampled(src: Source, bitmap: Picture, k: nat): (r: Result<Picture>)
    requires k >= 1
    ensures r.Thrown? ==> r.exception in {"ArithmeticException", "NullPointerException"}
    ensures r.Thrown? && r.exception == "ArithmeticException" <==> bitmap.width < k || bitmap.height < k
  {
    QuotientZero(bitmap.width, k);
    QuotientZero(bitmap.height, k);
    match InSampleSize(src.width, src.height, bitmap.width / k, bitmap.height / k)
    case Thrown(e) => Thrown(e)
    case Ok(sample) =>
      match src.decode(sample)
      case None => Thrown("NullPointerException")
      case Some(p) => Ok(p)
  }

  /** A side divided by `k` is zero exactly when it is shorter than `k` */
  lemma QuotientZero(a: nat, k: nat)
    requires k >= 1
    ensures a / k == 0 <==> a < k
  {
  }

  /**
   * The loop from the state (`bitmap`, its tested length `bytes`, sample size
   * `k`) with at most `fuel` more rounds.
   */
  function DownSample(src: Source, max: int, bitmap: Picture, bytes: nat, k: nat, fuel: nat): Down
    decreases fuel
  {
    if bytes <= max then Fitted(bitmap, k)
    else if fuel == 0 then Unfinished(bitmap, k)
    else
      match Resampled(src, bitmap, k + 1)
      case Thrown(e) => Failed(e)
      case Ok(p) => DownSample(src, max, p, p.length, k + 1, fuel - 1)
  }

  /**
   * The loop of compress(String, CompressFormat, max), from `initial` tested at
   * `firstLength`, for at most `fuel` rounds: each round raises the sample size
   * by one, decodes again, and re-encodes in the target format.
   */
  method Resample(src: Source, max: int, initial: Picture, firstLength: nat, fuel: nat) returns (r: Down)
    ensures r == DownSample(src, max, initial, firstLength, 0, fuel)
  {
    var bitmap := initial;
    var bytes: nat, inSampleSize: nat, left: nat := firstLength, 0, fuel;
    while bytes > max
      invariant inSampleSize + left == fuel
      invariant DownSample(src, max, bitmap, bytes, inSampleSize, left) == DownSample(src, max, initial, firstLength, 0, fuel)
      decreases left
    {
      if left == 0 {
        return Unfinished(bitmap, inSampleSize);
      }
      inSampleSize, left := inSampleSize + 1, left - 1;
      var options := InSampleSize(src.width, src.height, bitmap.width / inSampleSize, bitmap.height / inSampleSize);
      if options.Thrown? {
        return Failed(options.exception);
      }
      var decoded := src.decode(options.value);
      if decoded.None? {
        return Failed("NullPointerException");
      }
      bitmap := decoded.value;
      bytes := bitmap.length;
    }
    r := Fitted(bitmap, inSampleSize);
  }

  /**
   * The loop exits only once the tested length is within `max`: either at once,
   * with the starting bitmap, or after some rounds, with a re-encoded one.
   * Every round adds exactly one to the sample size, and a loop still running
   * has spent all its rounds.
   */
  lemma {:induction false} DownSampleExits(src: Source, max: int, bitmap: Picture, bytes: nat, k: nat, fuel: nat)
    ensures var r := DownSample(src, max, bitmap, bytes, k, fuel);
      && (r.Fitted? ==> (r.inSampleSize == k && r.picture == bitmap && bytes <= max)
                        || (k < r.inSampleSize <= k + fuel && r.picture.length <= max))
      && (r.Unfinished? ==> r.inSampleSize == k + fuel && (fuel == 0 ==> r.picture == bitmap))
      && (r.Failed? ==> r.exception in {"ArithmeticException", "NullPointerException"})
    decreases fuel
  {
    if bytes > max && fuel > 0 {
      var next := Resampled(src, bitmap, k + 1);
      if next.Ok? {
        DownSampleExits(src, max, next.value, next.value.length, k + 1, fuel - 1);
      }
    }
  }

  /**
   * The budget only bounds the run: once it suffices, more rounds give the
   * same outcome.
   */
  lemma {:induction false} DownSampleFuel(src: Source, max: int, bitmap: Picture, bytes: nat, k: nat, fuel: nat, more: nat)
    requires !DownSample(src, max, bitmap, bytes, k, fuel).Unfinished?
    requires fuel <= more
    ensures DownSample(src, max, bitmap, bytes, k, more) == DownSample(src, max, bitmap, bytes, k, fuel)
    decreases fuel
  {
    if bytes > max && fuel > 0 {
      var next := Resampled(src, bitmap, k + 1);
      if next.Ok? {
        DownSampleFuel(src, max, next.value, next.value.length, k + 1, fuel - 1, more - 1);
      }
    }
  }

  /** With a negative limit the loop never exits normally. */
  lemma {:induction false} DownSampleNegativeMax(src: Source, max: int, bitmap: Picture, bytes: nat, k: nat, fuel: nat)
    requires max < 0
    ensures !DownSample(src, max, bitmap, bytes, k, fuel).Fitted?
    decreases fuel
  {
    if fuel > 0 {
      var next := Resampled(src, bitmap, k + 1);
      if next.Ok? {
        DownSampleNegativeMax(src, max, next.value, next.value.length, k + 1, fuel - 1);
      }
    }
  }

  /**
   * compress(String, CompressFormat, max) as written: before the first round it
   * tests the JPEG length of the decoded file, whatever the target format.
   */
  function CompressPathAsWritten(src: Source, max: int, fuel: nat): Down {
    match src.plain
    case None => Failed("NullPointerException")
    case Some(p) => DownSample(src, max, p, p.jpegLength, 0, fuel)
  }

  /**
   * A PNG whose JPEG encoding fits but whose PNG encoding does not is returned
   * as is, so the file written from it exceeds the limit.
   */
  lemma CompressPathAsWrittenOversize()
    ensures var src := Source(100, 100, Some(Picture(100, 100, 50, 200)), (s: int) => Some(Picture(100, 100, 50, 200)));
      var r := CompressPathAsWritten(src, 100, 0);
      r.Fitted? && r.picture.length > 100
  {
  }

  /**
   * compress(String, CompressFormat, max) as intended: the first test uses the
   * encoding in the target format computed just before it.
   */
  function CompressPath(src: Source, max: int, fuel: nat): (r: Down)
    ensures r.Fitted? ==> r.picture.length <= max
  {
    match src.plain
    case None => Failed("NullPointerException")
    case Some(p) =>
      DownSampleExits(src, max, p, p.length, 0, fuel);
      DownSample(src, max, p, p.length, 0, fuel)
  }

  /** Where the target format's encoding is the JPEG one, the two agree. */
  lemma CompressPathAgreesForJpeg(src: Source, max: int, fuel: nat)
    requires src.plain.Some? && src.plain.value.length == src.plain.value.jpegLength
    ensures CompressPathAsWritten(src, max, fuel) == CompressPath(src, max, fuel)
  {
  }

  /**
   * As written, a bitmap the loop returns is within the limit in the target
   * format whenever the plain decode's target encoding is no longer than its
   * JPEG one: only the first test differs from the intended loop.
   */
  lemma AsWrittenFitsWhenJpegNoShorter(src: Source, max: int, fuel: nat)
    requires src.plain.Some? && src.plain.value.length <= src.plain.value.jpegLength
    ensures CompressPathAsWritten(src, max, fuel).Fitted? ==> CompressPathAsWritten(src, max, fuel).picture.length <= max
  {
    var p := src.plain.value;
    DownSampleExits(src, max, p, p.jpegLength, 0, fuel);
  }

  /** What compress(Context, File, max) ends with */
  datatype Outcome = Returned(path: string) | Raised(exception: string) | StillSampling

  /**
   * compress(Context, File, max): a file that is not compressible comes back
   * unchanged; otherwise the bitmap from compress(String, CompressFormat, max),
   * as written, is written at quality 100 to a new file in the "Compress"
   * cache directory, which is returned. The
   * suffix is getSuffix's (a null suffix is spelt "null" by string
   * concatenation); `stamp` is the clock's time stamp.
   */
  method CompressFile(fs: Thumbnail.FileSystem, ctx: Context, file: FileRef, max: int, src: Source,
                      stamp: string, fuel: nat) returns (r: Outcome)
    modifies fs
    ensures !IsCompressible(Some(file.path)) ==> r == Returned(file.path) && fs.files == old(fs.files)
    ensures IsCompressible(Some(file.path)) ==>
      var target := CompressTarget(ctx, stamp, GetSuffix(Some(file)).GetOr("null"));
      match CompressPathAsWritten(src, max, fuel)
      case Fitted(p, _) => r == Returned(target) && fs.files == old(fs.files)[target := p.length]
      case Failed(e) => r == Raised(e) && fs.files == old(fs.files)
      case Unfinished(_, _) => r == StillSampling && fs.files == old(fs.files)
  {
    if !IsCompressible(Some(file.path)) {
      return Returned(file.path);
    }
    var suffix := GetSuffix(Some(file)).GetOr("null");
    var original := src.plain;
    if original.None? {
      return Raised("NullPointerException");
    }
    // the first test is on the JPEG encoding of `toByteArray`, not on the target format's
    var down := Resample(src, max, original.value, original.value.jpegLength, fuel);
    match down
    case Failed(e) =>
      return Raised(e);
    case Unfinished(_, _) =>
      return StillSampling;
    case Fitted(p, _) =>
      var target := CompressTarget(ctx, stamp, suffix);
      fs.files := fs.files[target := p.length];
      return Returned(target);
  }
}
