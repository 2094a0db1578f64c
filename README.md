# IOCore media helpers, modelled in Dafny

IOCore is an Android library. It picks, captures, crops and compresses pictures, records and picks
videos, scans the media store, and shows the results in a selectable list. This project models the
decision and data rules under that platform code. Cursors, bitmap codecs, content resolvers, handlers
and the clock are replaced by parameters: functions, maps and values. Each rule is stated as a Dafny
function, method or class and proved against a specification.

- **Result routing.** `MediaProviderCommand.run` and `VideoProvider.ResultTask.run` handle the result
  of a pick, get-content, capture, crop or video activity. Each becomes a method that builds the trace
  of effects it performs: copy, correct, crop, delete, compress, send. The method is proved equal to
  a reference function, and lemmas about that function state the routing rules.
- **Compression loops.** The quality loop and the down-sampling loop of `ImageProvider.compress` take
  an abstract encoder: an encoded length per quality, or a decoded picture per sample size. The
  down-sampling loop has no cap in the code, so it runs on a step budget (fuel).
- **Thumbnail cache.** The cache is a `map` from path to file length, held by a `FileSystem` object.
  Key derivation, get-or-create and the audio-art choice are modelled over it.
- **Scans.** Gathering a scan by category, storing each category's list in the executor, and the
  messenger's envelopes. The looper is a first-in first-out queue.
- **Selection state.** The adapter's `check` flags, the activity's checked list, the selection limit,
  the back stack and the search box. These are imperative updates on `Media` objects.
- **Pure helpers.** Suffixes and classifiers, MIME fallbacks, sizes and units, file trees, image
  formats, the EXIF angle, the sample size, single-line text, time labels, preview sizes, query
  selections, the record intent, and the defaults and setters of `Media` and `MediaOptions`.

Java semantics are written out where they matter. `/` and `%` truncate toward zero (`Text.Div`,
`Text.Rem`). `DecimalFormat("00")` pads to two digits (`Text.Format00`). `String.replace` is left to
right and non-overlapping. `TimeUnit.convert` saturates at the `long` range. A `null` is `None`, and
an exception is a `Thrown` result carrying the exception's class name.

Where the code and the documented intent of the library differ, the model follows the code:
- A picture that was handed to the cropper comes back under `REQUEST_CROP`, not under the code of the
  pick or capture that started it (`CroppedPickReturnsUnderCropCode`).
- The quality loop has no lower bound. It ends with the exception `Bitmap.compress` raises for a
  negative quality, not with a best-effort result (`CompressQuality`).
- Orientation correction is applied to every picked image and every capture, without first testing
  the rotation.
- `compress(Context, File, max)` runs the down-sampling loop as written, whose first test is on the
  JPEG encoding whatever the target format (`CompressFile` over `CompressPathAsWritten`). The
  corrected loop, `CompressPath`, is the second half of the finding below.
- The command corrects an image without a handler: a picked image or a capture that does not decode
  (an empty capture, a type the platform cannot read) ends the run with a NullPointerException,
  before any crop or send (`PickCropDecision`, `CaptureCropDecision`).
- The command calls the compressor without a handler. A decode that fails ends the run with its
  exception, and with a negative maximum size the down-sampling loop never exits normally (once the
  sample size exceeds the picture's width or height, the resample throws an ArithmeticException,
  `Resampled`, `DownSampleNegativeMax`);
  in either case nothing is sent (`DeliveredOnce`).
- The camera screen keeps two facings: its own `cameraId`, which starts on the back camera, and
  the recorder's, which takes the camera named in the options. Both public `start` methods pass
  options, so a screen opened on the front camera previews the front camera while a photo taken
  before any switch is turned for the back camera (`FrontOptionCapturedAsBack`). The first switch
  sets both facings alike.
- The media screen reads its lists through the static executor, which only `initialize` sets; a
  screen opened before that throws NullPointerException in onCreate (`OnCreate`).

## Model

| member | source | states |
|---|---|---|
| MediaProviderCommand.Run | app/src/main/java/androidx/io/core/media/MediaProviderCommand.java:29-75 | the effects of `run` and the options afterwards are exactly those of the reference routing `Route` for the request code, result code, environment and options before, including the runs that end in an exception from the correction or the compressor |
| MediaProviderCommand.PickResult | app/src/main/java/androidx/io/core/media/MediaProviderCommand.java:30-50 | the pick/get-content block: copy only a missing file, throw on a null MIME type, correct an image and throw NullPointerException when it does not decode, then crop or compress-and-send, matching `Picked` |
| MediaProviderCommand.CaptureResult | app/src/main/java/androidx/io/core/media/MediaProviderCommand.java:51-64 | the capture block: always copy and correct, throw NullPointerException when the file does not decode, then crop or compress-and-send, matching `Captured` |
| MediaProviderCommand.CropResult | app/src/main/java/androidx/io/core/media/MediaProviderCommand.java:65-74 | the crop block: copy, delete the output uri, compress-and-send, matching `Cropped` |
| MediaProviderCommand.CompressAndSend | app/src/main/java/androidx/io/core/media/MediaProviderCommand.java:70-73 | without the compress flag, one send of the file under the given code; with it, the hand-off to the compressor, then one send of the file it returns, its exception with no send, or nothing more while it is still sampling |
| MediaProviderCommand.StartCrop | app/src/main/java/androidx/io/core/media/MediaProviderCommand.java:43 | the crop hand-off sets the options' data to the file's uri and output to a fresh uri; no other option changes |
| MediaProviderCommand.NotOkDoesNothing | app/src/main/java/androidx/io/core/media/MediaProviderCommand.java:30-65 | a result code other than RESULT_OK gives no effect at all and leaves the options as they were |
| MediaProviderCommand.PickCopiesOnlyWhenAbsent | app/src/main/java/androidx/io/core/media/MediaProviderCommand.java:33-36 | a pick copies into the Pick directory exactly when the target file is missing, and then copies first; an existing file is never copied over |
| MediaProviderCommand.CorrectedWhenImage | app/src/main/java/androidx/io/core/media/MediaProviderCommand.java:37-55 | a picked file is corrected exactly when its type starts with "image"; a captured file always is |
| MediaProviderCommand.PickCropDecision | app/src/main/java/androidx/io/core/media/MediaProviderCommand.java:38-43 | a pick ends with a crop exactly for an image that decodes with cropping on; then nothing is sent and the output points at the fresh uri; an image that does not decode ends with NullPointerException and sends nothing; without a crop the options are unchanged |
| MediaProviderCommand.CaptureCropDecision | app/src/main/java/androidx/io/core/media/MediaProviderCommand.java:55-57 | a capture ends with a crop exactly when the captured file decodes and cropping is on, and then sends nothing; a file that does not decode ends with NullPointerException and sends nothing; without a crop the options are unchanged |
| MediaProviderCommand.DeliveredOnce | app/src/main/java/androidx/io/core/media/MediaProviderCommand.java:44-73 | without a crop, a branch that gets past the correction compresses exactly when the flag is on; it sends exactly once, last, under the command's own request code and of the compressed file or the file itself, exactly when it gets past the correction and the compressor is not used or returns; otherwise it ends with the correction's NullPointerException, the compressor's exception or the hand-off, and sends nothing |
| MediaProviderCommand.CropResultOrder | app/src/main/java/androidx/io/core/media/MediaProviderCommand.java:66-73 | a crop result is copy, delete, then either send under REQUEST_CROP, or the hand-off to the compressor followed by the send of its file, its exception, or nothing, in that order and nothing else |
| MediaProviderCommand.AtMostOneSend | app/src/main/java/androidx/io/core/media/MediaProviderCommand.java:30-74 | for any codes and environment a run sends at most once |
| MediaProviderCommand.GetContentIsPick | app/src/main/java/androidx/io/core/media/MediaProviderCommand.java:30-49 | a get-content result has the effects of a pick, Pick directory included, with every send relabelled to its own code, and leaves the same options |
| MediaProviderCommand.CroppedPickReturnsUnderCropCode | app/src/main/java/androidx/io/core/media/MediaProviderCommand.java:43-73 | after a pick hands an image that decodes to the cropper, the crop result copies the fresh output uri into the Crop directory and sends once under REQUEST_CROP, of the compressed file or the copy itself, exactly when the compressor is not used or returns, and sends nothing otherwise |
| VideoProvider.ResultTask | app/src/main/java/androidx/io/core/video/VideoProvider.java:557-573 | the effects of the result task are exactly those of the reference `VideoRoute` |
| VideoProvider.VideoRouteMeaning | app/src/main/java/androidx/io/core/video/VideoProvider.java:557-573 | a result that is not OK does nothing; an OK pick copies exactly when the file is missing, a recording always copies, and each sends exactly once, last, under its own code |
| VideoProvider.GetContext | app/src/main/java/androidx/io/core/video/VideoProvider.java:122-130 | a fragment's context whenever there is a fragment, even a detached one; else the activity when there is one; else the provider's own context |
| VideoProvider.ForContext | app/src/main/java/androidx/io/core/video/VideoProvider.java:89-93 | a provider built from a context works in that context |
| VideoProvider.ForActivity | app/src/main/java/androidx/io/core/video/VideoProvider.java:100-104 | a provider built from an activity works in that activity |
| VideoProvider.ForFragment | app/src/main/java/androidx/io/core/video/VideoProvider.java:111-115 | a provider built from a fragment works in the fragment's context, none once it is detached |
| VideoProvider.ToMillis | app/src/main/java/androidx/io/core/video/VideoProvider.java:152-157 | the millisecond conversion stays in the long range and is the identity for milliseconds |
| VideoProvider.ToMillisExact | app/src/main/java/androidx/io/core/video/VideoProvider.java:152-157 | a conversion from a coarser unit that stays in range is exact multiplication |
| VideoProvider.QueryByDurationMeaning | app/src/main/java/androidx/io/core/video/VideoProvider.java:152-157 | the selection is on the duration column with ">=" exactly when up; its one argument parses back to the duration in milliseconds; sorted by display name |
| VideoProvider.QueryBySizeMeaning | app/src/main/java/androidx/io/core/video/VideoProvider.java:166-171 | the selection is on the size column with ">=" exactly when up; its one argument parses back to the length |
| VideoProvider.BuildRecord | app/src/main/java/androidx/io/core/video/VideoProvider.java:402-413 | the capture action with the default category; the duration limit exactly when duration is not 0 and the size limit exactly when size is not 0, with their values; the quality always; no other extra |
| VideoProvider.SendResult | app/src/main/java/androidx/io/core/video/VideoProvider.java:583-616 | the message the task posts makes the handler give the listener exactly the code and path sent, and no callback without a listener |
| ImageProvider.CompressQuality | app/src/main/java/androidx/io/core/core/ImageProvider.java:328-345 | tries 100, 90, 80, ... and returns the first quality whose length is within a positive max, with that length; quality 100 when max <= 0; IllegalArgumentException exactly when no multiple of 10 in 0..100 fits |
| ImageProvider.Resample | app/src/main/java/androidx/io/core/core/ImageProvider.java:440-446 | the down-sampling loop's outcome is the reference `DownSample` from sample size 0 |
| ImageProvider.DownSampleExits | app/src/main/java/androidx/io/core/core/ImageProvider.java:440-446 | the loop exits only with an encoding within max, either at once with the first length or at a larger sample size reached within the budget; a loop out of budget stops at sample size k + fuel; a failure is ArithmeticException or NullPointerException |
| ImageProvider.DownSampleFuel | app/src/main/java/androidx/io/core/core/ImageProvider.java:440-446 | once a budget suffices, a larger one gives the same outcome |
| ImageProvider.DownSampleNegativeMax | app/src/main/java/androidx/io/core/core/ImageProvider.java:440 | with a negative max the loop never exits normally |
| ImageProvider.CompressPathAsWrittenOversize | app/src/main/java/androidx/io/core/core/ImageProvider.java:432-438 | as written, a PNG whose JPEG encoding fits but whose PNG encoding does not is returned without sampling, larger than max |
| ImageProvider.AsWrittenFitsWhenJpegNoShorter | app/src/main/java/androidx/io/core/core/ImageProvider.java:432-449 | as written, a bitmap returned is within max in the target format whenever the plain decode's target encoding is no longer than its JPEG one |
| ImageProvider.CompressPath | app/src/main/java/androidx/io/core/core/ImageProvider.java:432-449 | as intended, a bitmap returned from the loop has a target-format encoding within max |
| ImageProvider.CompressPathAgreesForJpeg | app/src/main/java/androidx/io/core/core/ImageProvider.java:435-440 | where the target encoding is the JPEG one, the written and the intended loops agree |
| ImageProvider.CompressFile | app/src/main/java/androidx/io/core/core/ImageProvider.java:460-476 | a file that is not compressible is returned unchanged and nothing is written; otherwise the bitmap of the as-written loop `CompressPathAsWritten` is written to a new file in the Compress cache directory, which is returned; a failed decode raises and writes nothing |
| ImageProvider.CompressTargetKeepsSuffix | app/src/main/java/androidx/io/core/core/ImageProvider.java:464-466 | the compressed copy is named by `createName` and reports the original's suffix |
| ImageProvider.CompressFormatOf | app/src/main/java/androidx/io/core/core/ImageProvider.java:305-318 | PNG exactly for an upper-cased path ending "PNG", WEBP exactly for one ending "WEBP", JPEG otherwise |
| ImageProvider.CompressibleFormat | app/src/main/java/androidx/io/core/core/ImageProvider.java:305-318 | a compressible path is compressed in the format its extension names: .PNG as PNG, .WEBP as WEBP, .JPG or .JPEG as JPEG |
| ImageProvider.CompressibleIgnoresCase | app/src/main/java/androidx/io/core/core/ImageProvider.java:688-697 | whether a path is compressible does not depend on its case |
| ImageProvider.Angle | app/src/main/java/androidx/io/core/core/ImageProvider.java:178-195 | ROTATE_90 gives 90, ROTATE_180 gives 180, ROTATE_270 gives 270, and a read failure or any other code gives 0 |
| ImageProvider.AngleDistinguishesRotations | app/src/main/java/androidx/io/core/core/ImageProvider.java:178-195 | a rotation code shares its angle with no other code |
| ImageProvider.InSampleSize | app/src/main/java/androidx/io/core/core/ImageProvider.java:610-624 | ArithmeticException exactly for a zero target side |
| ImageProvider.InSampleSizeIsLargestFit | app/src/main/java/androidx/io/core/core/ImageProvider.java:616 | for a readable picture and a positive target, the sample size is the largest factor by which the target fits into the picture both ways |
| ImageProvider.CreateName | app/src/main/java/androidx/io/core/core/ImageProvider.java:82-84 | the name starts with "IMG_" and holds no '/' when neither part does |
| ImageProvider.ToSingleLine | app/src/main/java/androidx/io/core/core/ImageProvider.java:705-707 | the result holds no white space or '*' and is no longer than the input |
| ImageProvider.ToSingleLineIdempotent | app/src/main/java/androidx/io/core/core/ImageProvider.java:705-707 | stripping twice is stripping once |
| ImageProvider.ToSingleLineKeeps | app/src/main/java/androidx/io/core/core/ImageProvider.java:705-707 | every character the pattern does not match keeps its number of occurrences |
| ImageProvider.ToSingleLineConcat | app/src/main/java/androidx/io/core/core/ImageProvider.java:705-707 | stripping distributes over concatenation |
| MediaProvider.ClassifiersIgnoreCase | app/src/main/java/androidx/io/core/media/MediaProvider.java:942-1129 | every suffix classifier gives the same answer for a suffix in any case |
| MediaProvider.SuffixIconDispatch | app/src/main/java/androidx/io/core/media/MediaProvider.java:1144-1204 | picture and video thumbnails and the presentation icon come exactly for their own suffixes, and the batch icon exactly for "bat": the second presentation test never answers |
| MediaProvider.SuffixIconOffice | app/src/main/java/androidx/io/core/media/MediaProvider.java:1164-1181 | the word, spreadsheet, PDF and database icons come exactly for their own suffixes |
| MediaProvider.SuffixIconMarkup | app/src/main/java/androidx/io/core/media/MediaProvider.java:1185-1196 | the text, HTML, JSON and XML icons come exactly for their own suffixes |
| MediaProvider.SuffixIconTail | app/src/main/java/androidx/io/core/media/MediaProvider.java:1197-1206 | the contact, archive and music icons come exactly for their own suffixes, and the empty icon exactly when no classifier accepts the suffix |
| MediaProvider.GetIconCases | app/src/main/java/androidx/io/core/media/MediaProvider.java:1138-1206 | a directory gets the folder icon; a missing file gets the icon of the empty suffix; an existing file throws exactly when its suffix is null, or when it is a picture or video whose thumbnail is not cached and whose generator returns no bitmap (null reaches `addThumbnail`); otherwise its icon is that of its suffix |
| MediaProvider.Search | app/src/main/java/androidx/io/core/media/MediaProvider.java:882-892 | null data gives an empty list; all names present gives exactly the matches in order; the first null name throws; the records scanned before that point that match get the keywords and every other record keeps its old keywords |
| MediaProvider.Matches | app/src/main/java/androidx/io/core/media/MediaProvider.java:886-888 | every match is a record of the list whose name contains the keywords |
| MediaProvider.MatchesComplete | app/src/main/java/androidx/io/core/media/MediaProvider.java:886-888 | every record whose name contains the keywords is a match |
| MediaProvider.MatchesOfMatches | app/src/main/java/androidx/io/core/media/MediaProvider.java:882-892 | searching a search result again with the same keywords returns it unchanged |
| MediaProvider.SetThumbnail | app/src/main/java/androidx/io/core/media/MediaProvider.java:708-718 | a record without data throws and nothing changes; otherwise the generator is asked exactly on a miss, the cache is written only on a miss with a bitmap, and the record gets the cache path in every case, with no other field changed |
| MediaProvider.SetVideoThumbnailDuration | app/src/main/java/androidx/io/core/media/MediaProvider.java:726-737 | the video setter, then the extracted duration; no other field changes |
| MediaProvider.AfterThumbnailTouchesOnlyPath | app/src/main/java/androidx/io/core/media/MediaProvider.java:711-716 | only the thumbnail's own path can change in the cache |
| MediaProvider.ThumbnailIdempotent | app/src/main/java/androidx/io/core/media/MediaProvider.java:711-716 | after a hit or a non-empty generated thumbnail, a second call is a hit and changes nothing |
| MediaProvider.FailedThumbnailLeavesMiss | app/src/main/java/androidx/io/core/media/MediaProvider.java:711-717 | when generation fails on a miss the cache is unchanged and the path given to the record still names no usable file |
| MediaProvider.AudioArtNeedsKnownArtist | app/src/main/java/androidx/io/core/media/MediaProvider.java:679-691 | from Android Q on, the art is what the resolver loaded exactly when the artist is non-null and not "<unknown>", and none otherwise; before Q it is the decoded album art |
| MediaProvider.AttachAudioArt | app/src/main/java/androidx/io/core/media/MediaProvider.java:692-695 | without art nothing changes; with art it is cached at the thumbnail path and the record points there |
| MediaProvider.BuildOpen | app/src/main/java/androidx/io/core/media/MediaProvider.java:377-392 | the video player is chosen exactly when the MIME type of the path (the platform's entry when there is one) starts with "video", and gets the path; otherwise the reader gets the path under "url" exactly when the lower-cased path starts with "http" |
| MediaProvider.BuildOpenWithoutTypeUsesReader | app/src/main/java/androidx/io/core/media/MediaProvider.java:377-392 | with no platform type the fallback types are never video, so the reader opens |
| Thumbnail.ThumbnailKey | app/src/main/java/androidx/io/core/media/Thumbnail.java:47-49 | the cache file name holds no '/' |
| Thumbnail.GetThumbnail | app/src/main/java/androidx/io/core/media/Thumbnail.java:19-51 | the result is always a path directly in the thumbnail directory, named by the key |
| Thumbnail.KeyVerbatimWithoutMp3 | app/src/main/java/androidx/io/core/media/Thumbnail.java:49 | a base name without ".mp3" is the key as it is |
| Thumbnail.SameBaseNameSameThumbnail | app/src/main/java/androidx/io/core/media/Thumbnail.java:48-50 | sources in different directories with one base name share a cache file |
| Thumbnail.Mp3AndPngCollide | app/src/main/java/androidx/io/core/media/Thumbnail.java:49 | `x.mp3` and `x.png` in one directory share a cache file |
| Thumbnail.AddThumbnail | app/src/main/java/androidx/io/core/media/Thumbnail.java:34-38 | writes exactly the path getThumbnail gives, returns it, and changes no other file |
| IO.CreateFile | app/src/main/java/androidx/io/core/core/IOProvider.java:127-132 | null exactly when either name is null; otherwise the file in the named files directory |
| IO.CreateCacheFile | app/src/main/java/androidx/io/core/core/IOProvider.java:142-147 | null exactly when either name is null; otherwise the file in the named cache directory |
| IO.CreatedFileKeepsName | app/src/main/java/androidx/io/core/core/IOProvider.java:127-147 | a created file, in either root, has the name it was given |
| IO.CreateFileNameCases | app/src/main/java/androidx/io/core/core/IOProvider.java:339-344 | a name is returned exactly for a url holding '/' and '.', and it holds no '/' |
| IO.CreateFileNameOfJoin | app/src/main/java/androidx/io/core/core/IOProvider.java:340-342 | the name of a dotted file served under any directory is that file name |
| IO.LengthInBounds | app/src/main/java/androidx/io/core/core/IOProvider.java:198-216 | for the five units the result is the whole number of that unit in the size; for any other unit the byte count |
| IO.LengthInStep | app/src/main/java/androidx/io/core/core/IOProvider.java:198-216 | each unit is the previous one divided by 1024 |
| IO.LengthNameAtScale | app/src/main/java/androidx/io/core/core/IOProvider.java:224-239 | lengthName is the size converted to the first unit that brings it below 1024 (G without bound), followed by that unit's name |
| IO.LengthNameValueBelow1024 | app/src/main/java/androidx/io/core/core/IOProvider.java:224-239 | the printed number is below 1024 unless the unit is G |
| IO.Length | app/src/main/java/androidx/io/core/core/IOProvider.java:247-257 | the accumulated size is the recursive tree size |
| IO.TreeSizeIsSumOfNodes | app/src/main/java/androidx/io/core/core/IOProvider.java:247-257 | the recursive size is the sum of the own lengths of all nodes |
| IO.DeleteDir | app/src/main/java/androidx/io/core/core/IOProvider.java:181-189 | a regular file is deleted; a directory is kept with its children processed in turn (`Prune`) |
| IO.PruneDeletesFilesKeepsDirectories | app/src/main/java/androidx/io/core/core/IOProvider.java:181-189 | after deletion no regular file is left, and every directory is kept in order with its own length |
| IO.GetSuffix | app/src/main/java/androidx/io/core/core/IOProvider.java:275-289 | "" for a null, missing or directory file; for a regular file, null exactly when the name is empty or ends in '.'; a suffix holds no '.' and is lower case (its text for a dotted and an undotted name is given by `GetSuffixOfDottedName` and `GetSuffixUndotted`) |
| IO.GetSuffixOfDottedName | app/src/main/java/androidx/io/core/core/IOProvider.java:275-289 | a regular file named stem.ext has suffix ext lower-cased, whatever the stem holds |
| IO.GetSuffixUndotted | app/src/main/java/androidx/io/core/core/IOProvider.java:286-288 | a regular file whose name has no '.' has the empty suffix |
| IO.MimeTypeOfPath | app/src/main/java/androidx/io/core/core/IOProvider.java:297-313 | never null: the platform's entry if any, else the image or the application wildcard type |
| IO.MimeFallbackIgnoresCase | app/src/main/java/androidx/io/core/core/IOProvider.java:297-305 | the fallback does not depend on the case of the path |
| IO.MimeTypeOfFile | app/src/main/java/androidx/io/core/core/IOProvider.java:321-331 | as intended, the type is never empty |
| IO.UnknownExtension | app/src/main/java/androidx/io/core/core/IOProvider.java:321-331 | for a file whose extension the platform does not know, the code as written throws and the intended version answers the file wildcard type |
| IO.MimeTypeOfFileUnknownExtension | app/src/main/java/androidx/io/core/core/IOProvider.java:327 | "notes.xyz" shows the difference |
| IO.MimeTypeOfFileAgreesWhenKnown | app/src/main/java/androidx/io/core/core/IOProvider.java:321-331 | where the platform knows a non-empty type, both versions agree |
| MediaResolverCommand.Run | app/src/main/java/androidx/io/core/media/MediaResolverCommand.java:25-44 | the list is the reference `Documents` of the type and queries, and a listener is called exactly once with the type and list |
| MediaResolverCommand.DocumentsByType | app/src/main/java/androidx/io/core/media/MediaResolverCommand.java:26-40 | FILES is images, then videos, then audios; each category is exactly its own query; any other code is empty |
| MediaExecutor.Executor.OnMediaResolver | app/src/main/java/androidx/io/core/media/MediaExecutor.java:111-127 | the stored lists become `Deliver` of the old ones, and a listener is forwarded the type and list once |
| MediaExecutor.DeliverReplacesOnlyItsList | app/src/main/java/androidx/io/core/media/MediaExecutor.java:112-123 | the delivered category holds the delivered list, every other category keeps its list, an unknown code changes nothing |
| MediaExecutor.DeliverOverwrites | app/src/main/java/androidx/io/core/media/MediaExecutor.java:112-123 | a later delivery of a category replaces the earlier one |
| MediaExecutor.DeliverCommutes | app/src/main/java/androidx/io/core/media/MediaExecutor.java:112-123 | deliveries of different categories may arrive in either order |
| MediaExecutor.Executor.constructor | app/src/main/java/androidx/io/core/media/MediaExecutor.java:20-27 | nothing stored, no listener, FILES, IMAGE, VIDEO, AUDIO requested in that order |
| MediaExecutor.Executor.SetOnMediaResolverListener | app/src/main/java/androidx/io/core/media/MediaExecutor.java:106-108 | the listener becomes the one given, and nothing else changes |
| MediaExecutor.Executor.Refresh | app/src/main/java/androidx/io/core/media/MediaExecutor.java:58-63 | requests the four categories again, in the same order |
| MediaExecutor.Registry.constructor | app/src/main/java/androidx/io/core/media/MediaExecutor.java:17 | the static executor starts out null |
| MediaExecutor.Registry.Initialize | app/src/main/java/androidx/io/core/media/MediaExecutor.java:35-44 | creates the executor only on the first call, and returns the stored one |
| MediaExecutor.InitializeIsSingleton | app/src/main/java/androidx/io/core/media/MediaExecutor.java:35-44 | two calls return the same instance |
| MediaMessenger.HandleMessage | app/src/main/java/androidx/io/core/media/MediaMessenger.java:54-73 | at most one callback; a message of another kind is ignored |
| MediaMessenger.StoreRoundTrip | app/src/main/java/androidx/io/core/media/MediaMessenger.java:24-62 | a scan result comes back to its listener with the same type and list, and only to a listener |
| MediaMessenger.MediaRoundTrip | app/src/main/java/androidx/io/core/media/MediaMessenger.java:42-71 | a provider result comes back to its listener with the same code and path, and only to a listener |
| MediaMessenger.CodesDistinct | app/src/main/java/androidx/io/core/media/MediaMessenger.java:14-15 | the two kinds of messages are never confused |
| MediaMessenger.Messenger.SendStore | app/src/main/java/androidx/io/core/media/MediaMessenger.java:24-33 | queues the scan envelope last |
| MediaMessenger.Messenger.SendMedia | app/src/main/java/androidx/io/core/media/MediaMessenger.java:42-51 | queues the result envelope last |
| MediaMessenger.Messenger.Dispatch | app/src/main/java/androidx/io/core/media/MediaMessenger.java:54-73 | handles and removes the oldest message |
| MediaMessenger.SendTwiceThenDispatch | app/src/main/java/androidx/io/core/media/MediaMessenger.java:24-73 | messages are handled in the order they were sent |
| MediaAdapter.ItemLayout | app/src/main/java/androidx/io/core/media/MediaAdapter.java:117-125 | the image-video layout exactly for IMAGE and VIDEO |
| MediaAdapter.LeftSpacerFirstColumn | app/src/main/java/androidx/io/core/media/MediaAdapter.java:169 | the spacer shows exactly in the first of three columns |
| MediaAdapter.LabelTime | app/src/main/java/androidx/io/core/media/MediaAdapter.java:331-334 | a non-zero duration is used as it is, and a zero one is replaced by the duration the extractor reports |
| MediaAdapter.DurationLabelReadsBack | app/src/main/java/androidx/io/core/media/MediaAdapter.java:331-338 | two digit fields separated by ':'; seconds below 60; together the whole seconds |
| MediaAdapter.DescText | app/src/main/java/androidx/io/core/media/MediaAdapter.java:214-233 | non-empty; starts with the count for a directory and the size text for a file |
| MediaAdapter.ShowDesc | app/src/main/java/androidx/io/core/media/MediaAdapter.java:214-233 | a stored description is shown unchanged; otherwise the count is computed only while -1, and the text is built and stored; no data throws |
| MediaAdapter.ShowDescTwice | app/src/main/java/androidx/io/core/media/MediaAdapter.java:214-233 | a second call shows what the first showed |
| MediaAdapter.Adapter.constructor | app/src/main/java/androidx/io/core/media/MediaAdapter.java:40-48 | no data, multi-select mode, the file view type |
| MediaAdapter.Adapter.SetData | app/src/main/java/androidx/io/core/media/MediaAdapter.java:102-105 | the data becomes the list given (or null), and nothing else changes |
| MediaAdapter.Adapter.SetMultiple | app/src/main/java/androidx/io/core/media/MediaAdapter.java:55-57 | the selection mode becomes the one given, and nothing else changes |
| MediaAdapter.Adapter.SetViewType | app/src/main/java/androidx/io/core/media/MediaAdapter.java:73-76 | the view type becomes the one given, and nothing else changes |
| MediaAdapter.Adapter.CheckMultiple | app/src/main/java/androidx/io/core/media/MediaAdapter.java:186-192 | toggles only the clicked record, and only when its path is not a directory |
| MediaAdapter.Adapter.CheckSingle | app/src/main/java/androidx/io/core/media/MediaAdapter.java:193-204 | a checked record is unchecked with nothing else changed; an unchecked one becomes the only checked record |
| MediaAdapter.Adapter.Check | app/src/main/java/androidx/io/core/media/MediaAdapter.java:185-206 | the mode chooses between the two rules above |
| MediaAdapter.Adapter.CheckDocuments | app/src/main/java/androidx/io/core/media/MediaAdapter.java:377-390 | a record becomes checked exactly when its id is a given document's id; no flag is cleared |
| MediaActivity.RemoveById | app/src/main/java/androidx/io/core/app/MediaActivity.java:437-441 | the index loop keeps no more entries than the list had, each of them from the list (what it keeps is stated by `RemoveByIdKeepsOthers`) |
| MediaActivity.RemoveByIdKeepsOthers | app/src/main/java/androidx/io/core/app/MediaActivity.java:437-441 | the index loop removes only entries with the id: every entry with another id survives, in order, and no entry is added or repeated |
| MediaActivity.RemoveByIdAbsent | app/src/main/java/androidx/io/core/app/MediaActivity.java:437-441 | without the id the list is unchanged |
| MediaActivity.RemoveByIdUnique | app/src/main/java/androidx/io/core/app/MediaActivity.java:437-441 | with exactly one entry with the id, that entry goes and the rest keep their order |
| MediaActivity.AdjacentDuplicateSurvives | app/src/main/java/androidx/io/core/app/MediaActivity.java:437-441 | of two adjacent entries with the id, the second survives |
| MediaActivity.Activity.constructor | app/src/main/java/androidx/io/core/app/MediaActivity.java:145-179 | onCreate's state once the executor exists: the selection mode and limit from the intent, a fresh adapter in that mode with no data and the file view type, nothing checked, an empty stack, no menu, and the four lists read from the executor |
| MediaActivity.OnCreate | app/src/main/java/androidx/io/core/app/MediaActivity.java:176-179 | the lists are read through the static executor: when `initialize` never ran it is null and onCreate throws NullPointerException, exactly then; otherwise the screen is built with the executor's four lists |
| MediaActivity.Activity.SetCheckedItem | app/src/main/java/androidx/io/core/app/MediaActivity.java:429-443 | single mode keeps only the checked record; multi mode appends it; an unchecked record is removed by the index loop |
| MediaActivity.Activity.OnCheckClick | app/src/main/java/androidx/io/core/app/MediaActivity.java:375-394 | at the limit an unchecked record is refused with the toast and nothing changes; otherwise the adapter's check runs as its contract says (toggle of a non-directory in multi mode, sole selection or unchecking in single mode, NullPointerException without a path, which leaves the checked list as it was) and the checked list follows the new flag; in multi mode the list stays within a limit it was within, unless a checked directory is clicked |
| MediaActivity.SetResult | app/src/main/java/androidx/io/core/app/MediaActivity.java:239-250 | a result exactly when something is checked, and then the checked list with RESULT_OK |
| MediaActivity.InitialMenu | app/src/main/java/androidx/io/core/app/MediaActivity.java:188-199 | a menu entry exactly for the four known media types; for any other type the menu stays null and `OpenMenu` throws |
| MediaActivity.Activity.OpenMenu | app/src/main/java/androidx/io/core/app/MediaActivity.java:179-203 | the menu becomes the entry of the requested type; for a known type its list is shown under its view type with a fresh stack; for any other type the file list stays shown and reading the null menu's name throws NullPointerException |
| MediaActivity.InitialMenuMatchesType | app/src/main/java/androidx/io/core/app/MediaActivity.java:188-199 | each media type opens the entry of its own category |
| MediaActivity.Activity.ShowDocument | app/src/main/java/androidx/io/core/app/MediaActivity.java:323-363 | empties the stack and shows the list in its view type |
| MediaActivity.Activity.ShowPopMenuDocument | app/src/main/java/androidx/io/core/app/MediaActivity.java:304-318 | ids 0 to 3 show files, images, videos, audios; any other id changes nothing |
| MediaActivity.Activity.OnBackPressed | app/src/main/java/androidx/io/core/app/MediaActivity.java:366-372 | pops one list into the adapter, or finishes exactly when the stack is empty |
| MediaActivity.Activity.OnTextChanged | app/src/main/java/androidx/io/core/app/MediaActivity.java:460-466 | empty text shows the selected menu's list again, changes nothing for a menu id outside 0..3 and throws without a menu; other text keeps the stack and view type, shows the search result exactly when every record has a name and keeps the list otherwise, and marks the keywords as search does |
| MediaActivity.Activity.ShowSearch | app/src/main/java/androidx/io/core/app/MediaActivity.java:463-465 | the search branch of text input: the shown list becomes the matches exactly when every shown record has a name, otherwise a NullPointerException leaves the list as it was; the keywords are marked as search does |
| CameraProvider.CaptureDegrees | app/src/main/java/androidx/io/core/core/CameraProvider.java:71-83 | a capture is turned 90 degrees for the back camera and 270 otherwise; the preview is turned 90 degrees for both facings; together they make a half turn for the back camera and a whole turn otherwise |
| CameraProvider.ScanFinds | app/src/main/java/androidx/io/core/core/CameraProvider.java:222-231 | one pass finds nothing exactly when no size is accepted, and otherwise the earliest accepted size closest in height |
| CameraProvider.OptimalMeaning | app/src/main/java/androidx/io/core/core/CameraProvider.java:213-242 | null exactly for a null or empty list; otherwise a listed size, the closest among those with the aspect when any has it, else the closest of all; ties to the earliest |
| CameraProvider.OptimalPreviewSize | app/src/main/java/androidx/io/core/core/CameraProvider.java:213-242 | the two loops compute the reference `Optimal` |
| CameraActivity.VideoTimeMinutes | app/src/main/java/androidx/io/core/app/CameraActivity.java:307-310 | below an hour the text is minutes ":" seconds, each padded |
| CameraActivity.VideoTimeHours | app/src/main/java/androidx/io/core/app/CameraActivity.java:302-306 | from an hour on the text is hours ":" minutes left over ":" seconds, each padded |
| CameraActivity.VideoTimeUnderAnHour | app/src/main/java/androidx/io/core/app/CameraActivity.java:298-313 | below an hour two fields of at least two digits, both below 60, reading back as the seconds elapsed |
| CameraActivity.VideoTimeFromAnHour | app/src/main/java/androidx/io/core/app/CameraActivity.java:298-313 | from an hour on three fields of at least two digits, hours at least 1, minutes and seconds below 60, reading back as the seconds elapsed |
| CameraActivity.RedDotAlternates | app/src/main/java/androidx/io/core/app/CameraActivity.java:283 | the dot is red exactly for an even count, and two consecutive counts give opposite colours |
| CameraActivity.SwitchCameraToggles | app/src/main/java/androidx/io/core/app/CameraActivity.java:198 | switching always gives one of the two facings and a different one, and from either facing switching twice comes back |
| CameraActivity.Screen.constructor | app/src/main/java/androidx/io/core/app/CameraActivity.java:135-150 | the activity's id starts on the back camera; the recorder takes the options' camera when options are passed, and the back camera without them; until the first switch a photo is turned for the back camera whatever the recorder faces |
| CameraActivity.FrontOptionCapturedAsBack | app/src/main/java/androidx/io/core/app/CameraActivity.java:207 | opened with the front camera in its options, the screen previews the front camera but turns a photo by 90 degrees, the back camera's angle, instead of the front camera's 270 |
| CameraActivity.Screen.OnSwitchClick | app/src/main/java/androidx/io/core/app/CameraActivity.java:197-200 | the activity and the recorder both take the other facing |
| CameraActivity.SwitchTwice | app/src/main/java/androidx/io/core/app/CameraActivity.java:197-200 | two presses come back to the first camera |
| Media.Media.constructor | app/src/main/java/androidx/io/core/media/Media.java:19-75 | the constant id, type NONE, zero date, size, duration, width, height and album id, count -1, unchecked, no strings |
| Media.FreshRecordsShareId | app/src/main/java/androidx/io/core/media/Media.java:19 | two records built without an id share one |
| Media.Media.SetType | app/src/main/java/androidx/io/core/media/Media.java:89-91 | sets the type; the frame leaves every other field alone |
| Media.Media.SetId | app/src/main/java/androidx/io/core/media/Media.java:97-99 | sets the id, and nothing else |
| Media.Media.SetName | app/src/main/java/androidx/io/core/media/Media.java:105-107 | sets the name, and nothing else |
| Media.Media.SetData | app/src/main/java/androidx/io/core/media/Media.java:113-115 | sets the path, and nothing else |
| Media.Media.SetDate | app/src/main/java/androidx/io/core/media/Media.java:121-123 | sets the date, and nothing else |
| Media.Media.SetSize | app/src/main/java/androidx/io/core/media/Media.java:129-131 | sets the size, and nothing else |
| Media.Media.SetDuration | app/src/main/java/androidx/io/core/media/Media.java:137-139 | sets the duration, and nothing else |
| Media.Media.SetWidth | app/src/main/java/androidx/io/core/media/Media.java:145-147 | sets the width, and nothing else |
| Media.Media.SetHeight | app/src/main/java/androidx/io/core/media/Media.java:153-155 | sets the height, and nothing else |
| Media.Media.SetAlbumId | app/src/main/java/androidx/io/core/media/Media.java:161-163 | sets the album id, and nothing else |
| Media.Media.SetArtist | app/src/main/java/androidx/io/core/media/Media.java:169-171 | sets the artist, and nothing else |
| Media.Media.SetAlbum | app/src/main/java/androidx/io/core/media/Media.java:177-179 | sets the album, and nothing else |
| Media.Media.SetThumbnail | app/src/main/java/androidx/io/core/media/Media.java:185-187 | sets the thumbnail, and nothing else |
| Media.Media.SetCheck | app/src/main/java/androidx/io/core/media/Media.java:193-195 | sets the flag, and nothing else |
| Media.Media.SetCount | app/src/main/java/androidx/io/core/media/Media.java:201-203 | sets the count, and nothing else |
| Media.Media.SetDesc | app/src/main/java/androidx/io/core/media/Media.java:209-211 | sets the description, and nothing else |
| Media.Media.SetKeywords | app/src/main/java/androidx/io/core/media/Media.java:217-219 | sets the keywords, and nothing else |
| MediaOptions.MediaOptions.constructor | app/src/main/java/androidx/io/core/media/MediaOptions.java:12-48 | no crop, aspect 1:1, output size -1, the three flags off, no uris |
| MediaOptions.MediaOptions.Crop | app/src/main/java/androidx/io/core/media/MediaOptions.java:54-57 | returns the receiver with only the crop flag changed |
| MediaOptions.MediaOptions.AspectX | app/src/main/java/androidx/io/core/media/MediaOptions.java:63-66 | returns the receiver with only aspectX changed |
| MediaOptions.MediaOptions.AspectY | app/src/main/java/androidx/io/core/media/MediaOptions.java:72-75 | returns the receiver with only aspectY changed |
| MediaOptions.MediaOptions.OutputX | app/src/main/java/androidx/io/core/media/MediaOptions.java:81-84 | returns the receiver with only outputX changed |
| MediaOptions.MediaOptions.OutputY | app/src/main/java/androidx/io/core/media/MediaOptions.java:90-93 | returns the receiver with only outputY changed |
| MediaOptions.MediaOptions.ReturnData | app/src/main/java/androidx/io/core/media/MediaOptions.java:99-102 | returns the receiver with only returnData changed |
| MediaOptions.MediaOptions.CircleCrop | app/src/main/java/androidx/io/core/media/MediaOptions.java:108-111 | returns the receiver with only circleCrop changed |
| MediaOptions.MediaOptions.NoFaceDetection | app/src/main/java/androidx/io/core/media/MediaOptions.java:117-120 | returns the receiver with only noFaceDetection changed |
| MediaOptions.MediaOptions.Data | app/src/main/java/androidx/io/core/media/MediaOptions.java:126-129 | returns the receiver with only the data uri changed |
| MediaOptions.MediaOptions.Output | app/src/main/java/androidx/io/core/media/MediaOptions.java:135-138 | returns the receiver with only the output uri changed |
| MediaOptions.ChainDataOutput | app/src/main/java/androidx/io/core/media/MediaOptions.java:126-138 | a chain data(d).output(o) configures the one receiver with both values |

## Left out

- Two constructors stand for no member of the code and are scaffolding of the model: `Thumbnail.FileSystem.constructor` builds the file system the cache writes to, and `MediaMessenger.Messenger.constructor` builds the handler's empty message queue.
- Content resolvers, cursors, file channels and byte copying are not modelled. `UriProvider` is not part of this model. A display name, the presence of a file, a MIME type, whether a file decodes as a bitmap, how compressing a file ends (the `ImageProvider.Outcome` of `CompressFile`: the file, an exception, or a loop still sampling) and a uri are parameters of `MediaProviderCommand.Env`. A run whose compressor never returns is the trace that ends with the hand-off `Compress`.
- Bitmap codecs, `ExifInterface`, `ThumbnailUtils` and `MediaMetadataRetriever` are replaced by functions: an encoded length per quality, a decoded picture per sample size, a thumbnail generator, a duration extractor.
- The pixel work of `ImageProvider.correct` (rotation by a matrix, re-encoding) is one `Correct` effect. Its one failure, the NullPointerException of rotating the null bitmap of an unreadable file, is modelled; the read of the EXIF angle never fails the run, as `angle` catches its IOException.
- Thread pools, the resolver's `execute`, handler loopers and cross-thread delivery are left out as concurrency. The messenger is a sequential first-in first-out queue.
- UI rendering, views, pop-up windows and toasts are left out. A toast is its text.
- The floating-point aspect tolerance of `getOptimalPreviewSize` is a predicate parameter.
- `Math.abs` on an `int` difference is not modelled with overflow. The same holds for the `long` sums of `length(File)`.
- `VideoRecorder`, the camera hardware, and `isFacingBack` are left out. The recorder's facing is the field `Screen.recorderCameraId`.
- Of the `CameraOptions` that `initialize` hands to the recorder, only the camera id is modelled, as the parameter of `Screen.constructor`; capture mode, output, size, encoder and duration are not.
- The date branch of `createFileName` formats the formatter itself. It is modelled as the IllegalArgumentException that `SimpleDateFormat.format` raises for a non-date argument.
- `createName(suffix)` and the temporary uri names depend on the clock. A time stamp is a parameter.
- The rows of `queryImages`, `queryVideo` and `queryAudio` other than the audio-art decision are left out. They are cursor I/O, and their results are parameters of `MediaResolverCommand.Run`.
- A record whose display name is null is not modelled in the routing: a display name is always a string.
- The camera degree constants are mutable statics in the code. They are modelled as constants.
- Java's `long` width is not modelled for sizes and counts. `length(File,int)` divides through `Math.pow`, which yields a `double`; it is modelled as exact integer division, which agrees below 2^53 bytes.
- ImageProvider.Resample: the down-sampling loop has no iteration cap in the code. The model runs on a step budget and reports `Unfinished` when the budget is spent. `DownSampleFuel` shows that a larger budget never changes a finished outcome.
- MediaAdapter.Adapter.CheckSingle: requires the list to hold no record twice. With a record listed twice there is aliasing, and the code's unchecking loop can leave that record either way.
- Case conversion (`toLowerCase`, `toUpperCase`) folds ASCII letters only and ignores the default locale. Under a locale such as Turkish, Java's classifiers and format tests can differ from the model for suffixes holding 'I' or 'i'. `getSuffix` uses `Locale.US`, which agrees with ASCII folding for these suffixes.
- `new File(parent, child)` path normalisation is not modelled. A path is the parent, '/', then the child, even for an empty child, which Java resolves to the parent itself.
- The `addThumbnail` cache writes that `getIcon` makes for pictures and videos are not modelled; `GetIcon` takes the cache-hit test and the generator's bitmap as parameters and returns the icon choice or the exception.
- MediaActivity.Activity.OnCheckClick: the limit is proved only when the clicked record is not a checked directory. For a checked directory the adapter leaves it checked and the activity appends it again.
- IO.MimeTypeOfPath: with no platform entry the contract says the result is one of the two fallbacks. `MimeFallbackIgnoresCase` then relates the choice to the path.
- Text.Div: the contract states Dafny's division only for a non-negative dividend and a positive divisor. The other signs are written out in the body.
- Media.Media.SetId: each setter ensures only its own field. That no other field changes is stated by the field frame `modifies this`f`, which Dafny enforces.
- `MediaActivity.stack` is never pushed anywhere in the code. The model keeps the field so that `onBackPressed` and the `show*` methods are modelled as written.

## Findings

| source | as written | input that shows it | evidently intended | confidence | as-written member | corrected member |
|---|---|---|---|---|---|---|
| app/src/main/java/androidx/io/core/core/IOProvider.java:327 | `type != null \|\| !type.isEmpty()` returns any non-null type and calls `isEmpty` exactly when `type` is null | a regular file "notes.xyz" on a platform that knows no type for "xyz": NullPointerException | the type when it is non-null and non-empty, otherwise "file/*" | not executed | IO.MimeTypeOfFileUnknownExtension | IO.MimeTypeOfFile |
| app/src/main/java/androidx/io/core/core/ImageProvider.java:437 | before the first round the loop tests `toByteArray(bitmap)`, a JPEG encoding at quality 100, whatever the target format | a PNG bitmap whose JPEG encoding is 50 bytes and PNG encoding 200 bytes, max 100: returned unsampled and written as 200 bytes | test the encoding in the target format already written to `bos` | not executed | ImageProvider.CompressPathAsWrittenOversize | ImageProvider.CompressPath |
