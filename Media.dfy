/**
 * The media record that every list operation works on: a mutable bean whose
 * setters each assign one field. Strings and files the Java code may leave
 * null are `Option`s; a `File` is represented by its path.
 */
module Media {
  import opened Wrappers

  /** MediaStore.Files.FileColumns media type codes */
  const NONE := 0
  const IMAGE := 1
  const AUDIO := 2
  const VIDEO := 3
  const DOCUMENT := 6

  /**
   * The id every record starts with: the variant field of a random UUID, and
   * `UUID.randomUUID()` always produces the IETF variant, 2.
   */
  const DEFAULT_ID := 2

  /** All fields of a record at one moment. */
  datatype Fields = Fields(
    id: int, mediaType: int, name: Option<string>, date: int, data: Option<string>,
    size: int, duration: int, width: int, height: int, albumId: int,
    artist: Option<string>, album: Option<string>, thumbnail: Option<string>,
    check: bool, count: int, desc: Option<string>, keywords: Option<string>)

  /** The state of a freshly constructed record. */
  const DEFAULTS := Fields(DEFAULT_ID, NONE, None, 0, None, 0, 0, 0, 0, 0,
                           None, None, None, false, -1, None, None)

  class Media {
    var id: int
    var mediaType: int
    var name: Option<string>
    var date: int
    var data: Option<string>
    var size: int
    var duration: int
    var width: int
    var height: int
    var albumId: int
    var artist: Option<string>
    var album: Option<string>
    var thumbnail: Option<string>
    var check: bool
    var count: int
    var desc: Option<string>
    var keywords: Option<string>

    function Snapshot(): Fields
      reads this
    {
      Fields(id, mediaType, name, date, data, size, duration, width, height, albumId,
             artist, album, thumbnail, check, count, desc, keywords)
    }

    /** Field initialisers: the constant id, zero duration and size, count -1, unchecked. */
    constructor ()
      ensures Snapshot() == DEFAULTS
    {
      id, mediaType, name, date, data := DEFAULT_ID, NONE, None, 0, None;
      size, duration, width, height, albumId := 0, 0, 0, 0, 0;
      artist, album, thumbnail := None, None, None;
      check, count, desc, keywords := false, -1, None, None;
    }

    method SetId(v: int)
      modifies this`id
      ensures id == v
    { id := v; }

    method SetType(v: int)
      modifies this`mediaType
      ensures mediaType == v
    { mediaType := v; }

    method SetName(v: Option<string>)
      modifies this`name
      ensures name == v
    { name := v; }

    method SetDate(v: int)
      modifies this`date
      ensures date == v
    { date := v; }

    method SetData(v: Option<string>)
      modifies this`data
      ensures data == v
    { data := v; }

    method SetSize(v: int)
      modifies this`size
      ensures size == v
    { size := v; }

    method SetDuration(v: int)
      modifies this`duration
      ensures duration == v
    { duration := v; }

    method SetWidth(v: int)
      modifies this`width
      ensures width == v
    { width := v; }

    method SetHeight(v: int)
      modifies this`height
      ensures height == v
    { height := v; }

    method SetAlbumId(v: int)
      modifies this`albumId
      ensures albumId == v
    { albumId := v; }

    method SetArtist(v: Option<string>)
      modifies this`artist
      ensures artist == v
    { artist := v; }

    method SetAlbum(v: Option<string>)
      modifies this`album
      ensures album == v
    { album := v; }

    method SetThumbnail(v: Option<string>)
      modifies this`thumbnail
      ensures thumbnail == v
    { thumbnail := v; }

    method SetCheck(v: bool)
      modifies this`check
      ensures check == v
    { check := v; }

    method SetCount(v: int)
      modifies this`count
      ensures count == v
    { count := v; }

    method SetDesc(v: Option<string>)
      modifies this`desc
      ensures desc == v
    { desc := v; }

    method SetKeywords(v: Option<string>)
      modifies this`keywords
      ensures keywords == v
    { keywords := v; }
  }

  /** Two records built without `SetId` share one id. */
  method FreshRecordsShareId() returns (a: Media, b: Media)
    ensures fresh(a) && fresh(b) && a != b
    ensures a.id == b.id == DEFAULT_ID
  {
    a := new Media();
    b := new Media();
  }
}
