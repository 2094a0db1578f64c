/**
 * The media provider's decision rules: suffix classifiers and the icon
 * dispatch built on them, keyword search over a list of records, the
 * get-or-create thumbnail setters, the audio-art choice and the choice of
 * intent for opening a document.
 */
module MediaProvider {
  import opened Wrappers
  import opened Text
  import opened IO
  import opened Thumbnail
  import M = Media

  // ---- suffix classifiers (each lower-cases its argument) ----

  const VIDEO_SUFFIXES: set<string> := {"mp4", "mpeg", "rmvb", "3gp"}
  const PICTURE_SUFFIXES: set<string> := {"jpg", "jpeg", "png", "webp"}
  const COMPRESSION_SUFFIXES: set<string> := {"zip", "tar", "rar", "jar", "z", "7z"}
  const DOC_SUFFIXES: set<string> := {"doc", "docx"}
  const PPT_SUFFIXES: set<string> := {"ppt", "pptx"}
  const XLS_SUFFIXES: set<string> := {"xls", "xlsx"}
  const HTML_SUFFIXES: set<string> := {"html", "htm", "shtml", "asp", "aspx", "jsp", "php"}
  const AUDIO_SUFFIXES: set<string> := {"mp3", "wav", "mid", "cda", "aif", "aiff", "wma", "ra", "vqf", "ape", "acm"}

  predicate IsVideo(suffix: string) { Lower(suffix) in VIDEO_SUFFIXES }
  predicate IsPicture(suffix: string) { Lower(suffix) in PICTURE_SUFFIXES }
  predicate IsCompression(suffix: string) { Lower(suffix) in COMPRESSION_SUFFIXES }
  predicate IsDoc(suffix: string) { Lower(suffix) in DOC_SUFFIXES }
  predicate IsPPT(suffix: string) { Lower(suffix) in PPT_SUFFIXES }
  predicate IsXLS(suffix: string) { Lower(suffix) in XLS_SUFFIXES }
  predicate IsPDF(suffix: string) { Lower(suffix) == "pdf" }
  predicate IsBat(suffix: string) { Lower(suffix) == "bat" }
  predicate IsDB(suffix: string) { Lower(suffix) == "db" }
  predicate IsTXT(suffix: string) { Lower(suffix) == "txt" }
  predicate IsHtml(suffix: string) { Lower(suffix) in HTML_SUFFIXES }
  predicate IsJson(suffix: string) { Lower(suffix) == "json" }
  predicate IsXml(suffix: string) { Lower(suffix) == "xml" }
  /** The one classifier that tests an ending rather than the whole suffix */
  predicate IsContact(suffix: string) { ContactEnding(Lower(suffix)) }
  predicate ContactEnding(l: string) { EndsWith(l, "vcf") || EndsWith(l, "csv") }
  predicate IsAudio(suffix: string) { Lower(suffix) in AUDIO_SUFFIXES }

  /** Every classifier gives the same answer for a suffix in any case. */
  lemma ClassifiersIgnoreCase(suffix: string)
    ensures IsVideo(suffix) == IsVideo(Upper(suffix)) && IsPicture(suffix) == IsPicture(Upper(suffix))
    ensures IsCompression(suffix) == IsCompression(Upper(suffix)) && IsDoc(suffix) == IsDoc(Upper(suffix))
    ensures IsPPT(suffix) == IsPPT(Upper(suffix)) && IsXLS(suffix) == IsXLS(Upper(suffix))
    ensures IsPDF(suffix) == IsPDF(Upper(suffix)) && IsBat(suffix) == IsBat(Upper(suffix))
    ensures IsDB(suffix) == IsDB(Upper(suffix)) && IsTXT(suffix) == IsTXT(Upper(suffix))
    ensures IsHtml(suffix) == IsHtml(Upper(suffix)) && IsJson(suffix) == IsJson(Upper(suffix))
    ensures IsXml(suffix) == IsXml(Upper(suffix)) && IsContact(suffix) == IsContact(Upper(suffix))
    ensures IsAudio(suffix) == IsAudio(Upper(suffix))
  {
    LowerOfUpper(suffix);
  }

  /** The icons getIcon chooses from */
  datatype Icon = DirIcon | PictureThumbnail | VideoThumbnail | DocIcon | PptIcon | XlsIcon
                | PdfIcon | DbIcon | BatIcon | TxtIcon | HtmlIcon | JsonIcon | XmlIcon
                | ContactIcon | ZipIcon | MusicIcon | NoneIcon

  /**
   * getIcon: a directory first, then the classifiers in the source's order
   * (a second `isPPT` test answering with the batch-file icon included).
   * A null suffix reaches `toLowerCase` and throws. For a picture or a video,
   * `cached` says whether its thumbnail file exists and is non-empty, and
   * `generated` is what the image or video thumbnail generator returns on a
   * miss; a miss with no bitmap hands null to `addThumbnail`, whose
   * `bitmap.compress` throws.
   */
  function GetIcon(f: FileRef, cached: bool, generated: Option<Bitmap>): Result<Icon> {
    if f.isDirectory then Ok(DirIcon)
    else
      var suffix := GetSuffix(Some(f));
      if suffix.None? then Thrown("NullPointerException")
      else if (IsPicture(suffix.value) || IsVideo(suffix.value)) && !cached && generated.None? then
        Thrown("NullPointerException")
      else Ok(SuffixIcon(suffix.value))
  }

  /** The suffix tests of getIcon, in order */
  function SuffixIcon(s: string): Icon {
    if IsPicture(s) then PictureThumbnail
    else if IsVideo(s) then VideoThumbnail
    else if IsDoc(s) then DocIcon
    else if IsPPT(s) then PptIcon
    else if IsPPT(s) then BatIcon
    else if IsXLS(s) then XlsIcon
    else if IsPDF(s) then PdfIcon
    else if IsDB(s) then DbIcon
    else if IsBat(s) then BatIcon
    else if IsTXT(s) then TxtIcon
    else if IsHtml(s) then HtmlIcon
    else if IsJson(s) then JsonIcon
    else if IsXml(s) then XmlIcon
    else if IsContact(s) then ContactIcon
    else if IsCompression(s) then ZipIcon
    else if IsAudio(s) then MusicIcon
    else NoneIcon
  }

  /**
   * Picture and video thumbnails and the presentation icon appear exactly for
   * their own suffixes, and the batch-file icon exactly for "bat": the
   * duplicated `isPPT` test never answers.
   */
  lemma SuffixIconDispatch(s: string)
    ensures SuffixIcon(s) == PictureThumbnail <==> IsPicture(s)
    ensures SuffixIcon(s) == VideoThumbnail <==> IsVideo(s)
    ensures SuffixIcon(s) == PptIcon <==> IsPPT(s)
    ensures SuffixIcon(s) == BatIcon <==> IsBat(s)
  {
    var l := Lower(s);
    if l in VIDEO_SUFFIXES {
      assert "mp4" !in PICTURE_SUFFIXES && "mpeg" !in PICTURE_SUFFIXES;
      assert "rmvb" !in PICTURE_SUFFIXES && "3gp" !in PICTURE_SUFFIXES;
    }
    if l in PPT_SUFFIXES {
      assert "ppt" !in PICTURE_SUFFIXES && "ppt" !in VIDEO_SUFFIXES && "ppt" !in DOC_SUFFIXES;
      assert "pptx" !in PICTURE_SUFFIXES && "pptx" !in VIDEO_SUFFIXES && "pptx" !in DOC_SUFFIXES;
    }
    if l == "bat" {
      assert "bat" !in PICTURE_SUFFIXES && "bat" !in VIDEO_SUFFIXES && "bat" !in DOC_SUFFIXES;
      assert "bat" !in PPT_SUFFIXES && "bat" !in XLS_SUFFIXES;
    }
  }

  /**
   * The suffix sets are disjoint, so every other icon of the chain also
   * appears exactly for its own classifier: the office and database icons...
   */
  lemma SuffixIconOffice(s: string)
    ensures SuffixIcon(s) == DocIcon <==> IsDoc(s)
    ensures SuffixIcon(s) == XlsIcon <==> IsXLS(s)
    ensures SuffixIcon(s) == PdfIcon <==> IsPDF(s)
    ensures SuffixIcon(s) == DbIcon <==> IsDB(s)
  {
    var l := Lower(s);
    if l in DOC_SUFFIXES || l in XLS_SUFFIXES {
      OfficeNotEarlier(l);
    }
    if l in ["pdf", "db", "bat", "txt", "json", "xml"] {
      NamedNotEarlier(l);
    }
  }

  /** ...the text and markup icons... */
  lemma SuffixIconMarkup(s: string)
    ensures SuffixIcon(s) == TxtIcon <==> IsTXT(s)
    ensures SuffixIcon(s) == HtmlIcon <==> IsHtml(s)
    ensures SuffixIcon(s) == JsonIcon <==> IsJson(s)
    ensures SuffixIcon(s) == XmlIcon <==> IsXml(s)
  {
    var l := Lower(s);
    if l in HTML_SUFFIXES {
      MarkupNotEarlier(l);
    }
    if l in ["pdf", "db", "bat", "txt", "json", "xml"] {
      NamedNotEarlier(l);
    }
  }

  /** ...and the contact, archive and music icons; the empty icon comes exactly when no classifier accepts the suffix. */
  lemma SuffixIconTail(s: string)
    ensures SuffixIcon(s) == ContactIcon <==> IsContact(s)
    ensures SuffixIcon(s) == ZipIcon <==> IsCompression(s)
    ensures SuffixIcon(s) == MusicIcon <==> IsAudio(s)
    ensures SuffixIcon(s) == NoneIcon <==>
      !(IsPicture(s) || IsVideo(s) || IsDoc(s) || IsPPT(s) || IsXLS(s) || IsPDF(s) || IsDB(s) || IsBat(s)
        || IsTXT(s) || IsHtml(s) || IsJson(s) || IsXml(s) || IsContact(s) || IsCompression(s) || IsAudio(s))
  {
    var l := Lower(s);
    if ContactEnding(l) {
      ContactNotMedia(l);
      ContactNotOffice(l);
      ContactNotMarkup(l);
    }
    if l in COMPRESSION_SUFFIXES {
      ArchiveNotEarlier(l);
      ArchiveNotContact(l);
    }
    if l in AUDIO_SUFFIXES {
      AudioNotOffice(l);
      AudioNotLater(l);
      AudioNotContact(l);
    }
  }

  /** A markup suffix appears in no earlier set of the chain */
  lemma MarkupNotEarlier(l: string)
    requires l in HTML_SUFFIXES
    ensures l !in PICTURE_SUFFIXES && l !in VIDEO_SUFFIXES && l !in DOC_SUFFIXES && l !in PPT_SUFFIXES && l !in XLS_SUFFIXES
  {
  }

  /** A word or spreadsheet suffix is no picture, video or presentation suffix, and the two differ */
  lemma OfficeNotEarlier(l: string)
    requires l in DOC_SUFFIXES || l in XLS_SUFFIXES
    ensures l !in PICTURE_SUFFIXES && l !in VIDEO_SUFFIXES && l !in PPT_SUFFIXES
    ensures l in XLS_SUFFIXES ==> l !in DOC_SUFFIXES
  {
  }

  /** A suffix tested by its single name is in none of the sets */
  lemma NamedNotEarlier(l: string)
    requires l in ["pdf", "db", "bat", "txt", "json", "xml"]
    ensures l !in PICTURE_SUFFIXES && l !in VIDEO_SUFFIXES && l !in DOC_SUFFIXES && l !in PPT_SUFFIXES && l !in XLS_SUFFIXES
  {
  }

  /** A suffix with a contact ending is no picture, video or word suffix... */
  lemma ContactNotMedia(l: string)
    requires ContactEnding(l)
    ensures l !in PICTURE_SUFFIXES && l !in VIDEO_SUFFIXES && l !in DOC_SUFFIXES
  {
  }

  /** ...no presentation, spreadsheet or single-name suffix... */
  lemma ContactNotOffice(l: string)
    requires ContactEnding(l)
    ensures l !in PPT_SUFFIXES && l !in XLS_SUFFIXES && l !in ["pdf", "db", "bat", "txt", "json", "xml"]
  {
  }

  /** ...and no markup suffix, as it ends in 'f' or 'v' */
  lemma ContactNotMarkup(l: string)
    requires ContactEnding(l)
    ensures l !in HTML_SUFFIXES
  {
    assert l[|l| - 1] == 'f' || l[|l| - 1] == 'v';
  }

  /** An archive suffix appears in no earlier set of the chain... */
  lemma ArchiveNotEarlier(l: string)
    requires l in COMPRESSION_SUFFIXES
    ensures l !in PICTURE_SUFFIXES && l !in VIDEO_SUFFIXES && l !in DOC_SUFFIXES && l !in PPT_SUFFIXES && l !in XLS_SUFFIXES
    ensures l !in HTML_SUFFIXES && l !in ["pdf", "db", "bat", "txt", "json", "xml"]
  {
  }

  /** ...and has no contact ending */
  lemma ArchiveNotContact(l: string)
    requires l in COMPRESSION_SUFFIXES
    ensures !ContactEnding(l)
  {
  }

  /** An audio suffix is no media or office suffix... */
  lemma AudioNotOffice(l: string)
    requires l in AUDIO_SUFFIXES
    ensures l !in PICTURE_SUFFIXES && l !in VIDEO_SUFFIXES && l !in DOC_SUFFIXES && l !in PPT_SUFFIXES && l !in XLS_SUFFIXES
  {
  }

  /** ...no markup, archive or single-name suffix... */
  lemma AudioNotLater(l: string)
    requires l in AUDIO_SUFFIXES
    ensures l !in HTML_SUFFIXES && l !in COMPRESSION_SUFFIXES && l !in ["pdf", "db", "bat", "txt", "json", "xml"]
  {
  }

  /** ...and has no contact ending */
  lemma AudioNotContact(l: string)
    requires l in AUDIO_SUFFIXES
    ensures !ContactEnding(l)
  {
  }

  /**
   * A directory always gets the folder icon; a regular file's icon is decided
   * by its suffix alone, and it throws exactly for a null suffix or for a
   * picture or video whose thumbnail is neither cached nor generated.
   */
  lemma GetIconCases(f: FileRef, cached: bool, generated: Option<Bitmap>)
    ensures f.isDirectory ==> GetIcon(f, cached, generated) == Ok(DirIcon)
    ensures !f.isDirectory && !f.present ==> GetIcon(f, cached, generated) == Ok(SuffixIcon(""))
    ensures !f.isDirectory && f.present ==>
      (GetIcon(f, cached, generated).Thrown? <==>
        GetSuffix(Some(f)).None? ||
        ((IsPicture(GetSuffix(Some(f)).value) || IsVideo(GetSuffix(Some(f)).value)) && !cached && generated.None?))
    ensures GetIcon(f, cached, generated).Ok? && !f.isDirectory ==>
      GetSuffix(Some(f)).Some? && GetIcon(f, cached, generated).value == SuffixIcon(GetSuffix(Some(f)).value)
  {
  }

  // ---- search ----

  /** Every record has a name */
  predicate AllNamed(items: seq<M.Media>)
    reads items`name
  {
    forall k :: 0 <= k < |items| ==> items[k].name.Some?
  }

  /** The records whose names contain `keywords`, in list order */
  function Matches(items: seq<M.Media>, keywords: string): (r: seq<M.Media>)
    requires AllNamed(items)
    reads items`name
    ensures forall x :: x in r ==> x in items && Contains(x.name.value, keywords)
    decreases |items|
  {
    if items == [] then []
    else
      var last := items[|items| - 1];
      Matches(items[..|items| - 1], keywords) + (if Contains(last.name.value, keywords) then [last] else [])
  }

  /** The position of the first record without a name, or the length when all have one */
  function FirstUnnamed(items: seq<M.Media>): (i: nat)
    reads items`name
    decreases |items|
    ensures i <= |items|
    ensures forall k :: 0 <= k < i ==> items[k].name.Some?
    ensures i < |items| ==> items[i].name.None?
  {
    if items == [] then 0
    else if items[0].name.None? then 0
    else 1 + FirstUnnamed(items[1..])
  }

  /**
   * search: the records whose names contain the keywords, in order, each
   * marked with the keywords; a null list gives an empty result. A record
   * without a name makes `getName().contains` throw, after the records before
   * it were handled.
   */
  method Search(data: Option<seq<M.Media>>, keywords: string) returns (r: Result<seq<M.Media>>)
    modifies (if data.Some? then data.value else [])`keywords
    ensures data.None? ==> r == Ok([])
    ensures data.Some? ==>
      var items := data.value;
      var stop := FirstUnnamed(items);
      && (r.Ok? <==> stop == |items|)
      && (r.Thrown? ==> r.exception == "NullPointerException")
      && (r.Ok? ==> r.value == Matches(items, keywords))
      && forall m :: m in items ==>
           m.keywords == if m in Matches(items[..stop], keywords) then Some(keywords) else old(m.keywords)
  {
    if data.None? {
      return Ok([]);
    }
    var items := data.value;
    var documents: seq<M.Media> := [];
    ghost var names: seq<string> := [];
    var i := 0;
    while i < |items| && items[i].name.Some?
      invariant 0 <= i <= |items| && |names| == i
      invariant forall k :: 0 <= k < i ==> items[k].name == Some(names[k])
      invariant documents == NameMatches(items[..i], names, keywords)
      invariant forall m :: m in items ==>
        m.keywords == if m in documents then Some(keywords) else old(m.keywords)
    {
      var item := items[i];
      ScanStep(items, i, names, item.name.value, keywords);
      if Contains(item.name.value, keywords) {
        item.SetKeywords(Some(keywords));
        documents := documents + [item];
      }
      names := names + [item.name.value];
      i := i + 1;
    }
    StopsAt(items, i, names, documents, keywords);
    if i < |items| {
      // the record's name is null: `getName().contains` throws
      return Thrown("NullPointerException");
    }
    r := Ok(documents);
  }

  /** One more record read: its name extends the names, and a match extends the result. */
  lemma ScanStep(items: seq<M.Media>, i: nat, names: seq<string>, name: string, keywords: string)
    requires i < |items| && |names| == i
    ensures NameMatches(items[..i + 1], names + [name], keywords)
         == NameMatches(items[..i], names, keywords) + (if Contains(name, keywords) then [items[i]] else [])
  {
    NameMatchesStep(items[..i + 1], names + [name], keywords);
    assert items[..i + 1][..i] == items[..i];
    assert (names + [name])[..i] == names;
  }

  /** Where the scan of `search` stops, what it found is the matches of the records before. */
  lemma StopsAt(items: seq<M.Media>, i: nat, names: seq<string>, documents: seq<M.Media>, keywords: string)
    requires i <= |items| && |names| == i
    requires forall k :: 0 <= k < i ==> items[k].name == Some(names[k])
    requires i < |items| ==> items[i].name.None?
    requires documents == NameMatches(items[..i], names, keywords)
    ensures FirstUnnamed(items) == i
    ensures AllNamed(items[..i]) && Matches(items[..i], keywords) == documents
    ensures i == |items| ==> AllNamed(items) && Matches(items, keywords) == documents
  {
    FirstUnnamedAt(items, i);
    MatchesByNames(items[..i], names, keywords);
    if i == |items| {
      assert items[..i] == items;
    }
  }

  /** Matches over names already read, so that it does not depend on the heap */
  function NameMatches(items: seq<M.Media>, names: seq<string>, keywords: string): seq<M.Media>
    requires |names| == |items|
    decreases |items|
  {
    if items == [] then []
    else
      var n := |items| - 1;
      NameMatches(items[..n], names[..n], keywords) + (if Contains(names[n], keywords) then [items[n]] else [])
  }

  lemma NameMatchesStep(items: seq<M.Media>, names: seq<string>, keywords: string)
    requires |names| == |items| > 0
    ensures var n := |items| - 1;
      NameMatches(items, names, keywords) ==
        NameMatches(items[..n], names[..n], keywords) + (if Contains(names[n], keywords) then [items[n]] else [])
  {
  }

  /** With the names read off the records, the two agree. */
  lemma {:induction false} MatchesByNames(items: seq<M.Media>, names: seq<string>, keywords: string)
    requires |names| == |items|
    requires forall k :: 0 <= k < |items| ==> items[k].name == Some(names[k])
    ensures AllNamed(items) && Matches(items, keywords) == NameMatches(items, names, keywords)
    decreases |items|
  {
    if items != [] {
      var n := |items| - 1;
      MatchesByNames(items[..n], names[..n], keywords);
    }
  }

  /** The first unnamed position is the one a left-to-right scan stops at. */
  lemma {:induction false} FirstUnnamedAt(items: seq<M.Media>, i: nat)
    requires i <= |items|
    requires forall k :: 0 <= k < i ==> items[k].name.Some?
    requires i < |items| ==> items[i].name.None?
    ensures FirstUnnamed(items) == i
    decreases i
  {
    if i > 0 {
      FirstUnnamedAt(items[1..], i - 1);
    }
  }

  /** Every record whose name contains the keywords is among the matches. */
  lemma {:induction false} MatchesComplete(items: seq<M.Media>, keywords: string)
    requires AllNamed(items)
    ensures forall k :: 0 <= k < |items| && Contains(items[k].name.value, keywords) ==> items[k] in Matches(items, keywords)
    decreases |items|
  {
    if items != [] {
      var init := items[..|items| - 1];
      MatchesComplete(init, keywords);
      forall k | 0 <= k < |items| - 1 && Contains(items[k].name.value, keywords)
        ensures items[k] in Matches(items, keywords)
      {
        assert items[k] == init[k];
      }
    }
  }

  /** Searching the result of a search again with the same keywords finds it all again. */
  lemma {:induction false} MatchesOfMatches(items: seq<M.Media>, keywords: string)
    requires AllNamed(items)
    ensures AllNamed(Matches(items, keywords))
    ensures Matches(Matches(items, keywords), keywords) == Matches(items, keywords)
    decreases |items|
  {
    if items != [] {
      var init, last := items[..|items| - 1], items[|items| - 1];
      assert AllNamed(init);
      MatchesOfMatches(init, keywords);
      var front := Matches(init, keywords);
      if Contains(last.name.value, keywords) {
        var once := front + [last];
        assert Matches(items, keywords) == once;
        assert once[..|once| - 1] == front;
        assert AllNamed(once);
      } else {
        assert Matches(items, keywords) == front;
      }
    }
  }

  // ---- thumbnails ----

  /** The cache test of the thumbnail setters: the file exists and is not empty */
  predicate Cached(files: map<string, nat>, path: string) {
    path in files && files[path] > 0
  }

  /** The cache after one get-or-create: written only on a miss with a bitmap */
  function AfterThumbnail(files: map<string, nat>, path: string, generated: Option<Bitmap>): map<string, nat> {
    if Cached(files, path) || generated.None? then files
    else files[path := generated.value.jpegLength]
  }

  /**
   * set{Image,Video,Audio}Thumbnail, differing only in the generator: on a
   * miss the generator is asked for a bitmap, which is cached when there is
   * one; the record receives the cache path in every case. A record without
   * data throws before anything happens. The result says whether the
   * generator was asked.
   */
  method SetThumbnail(fs: FileSystem, ctx: Context, doc: M.Media, generate: string -> Option<Bitmap>)
    returns (r: Result<bool>)
    modifies fs, doc
    ensures old(doc.data).None? ==> r.Thrown? && fs.files == old(fs.files) && doc.Snapshot() == old(doc.Snapshot())
    ensures old(doc.data).Some? ==>
      var source := old(doc.data).value;
      var path := GetThumbnail(ctx, source);
      var miss := !Cached(old(fs.files), path);
      && r == Ok(miss)
      && fs.files == AfterThumbnail(old(fs.files), path, if miss then generate(source) else None)
      && doc.Snapshot() == old(doc.Snapshot()).(thumbnail := Some(path))
  {
    if doc.data.None? {
      return Thrown("NullPointerException");
    }
    var source := doc.data.value;
    var thumbnail := GetThumbnail(ctx, source);
    var miss := !(thumbnail in fs.files && fs.files[thumbnail] > 0);
    if miss {
      var bitmap := generate(source);
      if bitmap.Some? {
        thumbnail := AddThumbnail(fs, ctx, source, bitmap.value);
      }
    }
    doc.SetThumbnail(Some(thumbnail));
    r := Ok(miss);
  }

  /** setVideoThumbnailDuration: the video setter, then the duration the extractor reports */
  method SetVideoThumbnailDuration(fs: FileSystem, ctx: Context, doc: M.Media,
                                   generate: string -> Option<Bitmap>, extractDuration: string -> int)
    returns (r: Result<bool>)
    modifies fs, doc
    ensures old(doc.data).None? ==> r.Thrown? && fs.files == old(fs.files) && doc.Snapshot() == old(doc.Snapshot())
    ensures old(doc.data).Some? ==>
      var source := old(doc.data).value;
      var path := GetThumbnail(ctx, source);
      var miss := !Cached(old(fs.files), path);
      && r == Ok(miss)
      && fs.files == AfterThumbnail(old(fs.files), path, if miss then generate(source) else None)
      && doc.Snapshot() == old(doc.Snapshot()).(thumbnail := Some(path), duration := extractDuration(source))
  {
    var data := doc.data;
    r := SetThumbnail(fs, ctx, doc, generate);
    if r.Ok? {
      doc.SetDuration(extractDuration(data.value));
    }
  }

  /** Only the thumbnail's own path can change in the cache. */
  lemma AfterThumbnailTouchesOnlyPath(files: map<string, nat>, path: string, generated: Option<Bitmap>)
    ensures forall q :: q != path ==> (q in AfterThumbnail(files, path, generated) <==> q in files)
    ensures forall q :: q != path && q in files ==> AfterThumbnail(files, path, generated)[q] == files[q]
  {
  }

  /** A generated non-empty thumbnail is a hit next time, so a second call generates nothing and changes nothing. */
  lemma ThumbnailIdempotent(files: map<string, nat>, path: string, first: Option<Bitmap>, second: Option<Bitmap>)
    requires Cached(files, path) || (first.Some? && first.value.jpegLength > 0)
    ensures Cached(AfterThumbnail(files, path, first), path)
    ensures AfterThumbnail(AfterThumbnail(files, path, first), path, second) == AfterThumbnail(files, path, first)
  {
  }

  /**
   * When generation fails on a miss the cache is unchanged and the path the
   * record receives still names no usable file.
   */
  lemma FailedThumbnailLeavesMiss(files: map<string, nat>, path: string)
    requires !Cached(files, path)
    ensures AfterThumbnail(files, path, None) == files && !Cached(AfterThumbnail(files, path, None), path)
  {
  }

  // ---- audio art ----

  const UNKNOWN_ARTIST := "<unknown>"

  /**
   * queryAudio's album-art choice: from Android Q on, the resolver's album
   * thumbnail (None when it throws), asked for only with a known artist;
   * before Q, the decoded album-art file.
   */
  function AudioArt(atLeastQ: bool, artist: Option<string>, loaded: Option<Bitmap>, albumArt: Option<Bitmap>): Option<Bitmap> {
    if atLeastQ then
      if artist.Some? && artist.value != UNKNOWN_ARTIST then loaded else None
    else albumArt
  }

  /** From Q on, the art is what the resolver loaded exactly when the artist is known, and none otherwise; before Q it is the album art. */
  lemma AudioArtNeedsKnownArtist(artist: Option<string>, loaded: Option<Bitmap>, albumArt: Option<Bitmap>)
    ensures AudioArt(true, artist, loaded, albumArt).Some? ==>
            artist.Some? && artist.value != UNKNOWN_ARTIST && AudioArt(true, artist, loaded, albumArt) == loaded
    ensures artist.Some? && artist.value != UNKNOWN_ARTIST ==> AudioArt(true, artist, loaded, albumArt) == loaded
    ensures !(artist.Some? && artist.value != UNKNOWN_ARTIST) ==> AudioArt(true, artist, loaded, albumArt).None?
    ensures AudioArt(false, artist, loaded, albumArt) == albumArt
  {
  }

  /** The end of queryAudio's per-row work: with art, it is cached and the record points at it. */
  method AttachAudioArt(fs: FileSystem, ctx: Context, doc: M.Media, data: string, art: Option<Bitmap>)
    modifies fs, doc
    ensures art.None? ==> fs.files == old(fs.files) && doc.Snapshot() == old(doc.Snapshot())
    ensures art.Some? ==>
      var path := GetThumbnail(ctx, data);
      fs.files == old(fs.files)[path := art.value.jpegLength]
      && doc.Snapshot() == old(doc.Snapshot()).(thumbnail := Some(path))
  {
    if art.Some? {
      var file := AddThumbnail(fs, ctx, data, art.value);
      doc.SetThumbnail(Some(file));
    }
  }

  // ---- opening a document ----

  /** The intent buildOpen builds */
  datatype OpenIntent =
    | PlayVideo(videoUrl: string)          // the TBS video player
    | Reader(extraKey: string, value: string)  // TBSActivity, with "url" or "filePath"

  /** buildOpen: the video player for a video type, otherwise the reader keyed by whether the path is a web address */
  function BuildOpen(path: string, mapped: Option<string>): (r: OpenIntent)
    ensures r.PlayVideo? ==> r.videoUrl == path
    ensures r.Reader? ==> r.value == path && (r.extraKey == "url" <==> StartsWith(Lower(path), "http"))
    ensures r.PlayVideo? <==> StartsWith(MimeTypeOfPath(path, mapped), "video")
    ensures mapped.Some? ==> (r.PlayVideo? <==> StartsWith(mapped.value, "video"))
  {
    var mimetype := MimeTypeOfPath(path, mapped);
    if StartsWith(mimetype, "video") then PlayVideo(path)
    else Reader(if StartsWith(Lower(path), "http") then "url" else "filePath", path)
  }

  /** With no entry in the platform's table the fallback types are never video, so the reader opens. */
  lemma BuildOpenWithoutTypeUsesReader(path: string)
    ensures BuildOpen(path, None).Reader?
  {
    var t := MimeTypeOfPath(path, None);
    if t == "image/*" {
      assert t[0] == 'i';
    } else {
      assert t[0] == 'a';
    }
  }
}
