/**
 * The thumbnail cache: one file per source, kept in the "Thumbnail"
 * directory of the external cache and named after the source's base name.
 * The file system is a map from path to file length.
 */
module Thumbnail {
  import opened Text
  import opened IO

  const THUMBNAIL_DIR := "Thumbnail"

  /** A decoded bitmap, as far as the cache sees it: the length of its JPEG encoding at quality 100. */
  datatype Bitmap = Bitmap(jpegLength: nat)

  /** Files by path, with their lengths; a path that is absent does not exist. */
  class FileSystem {
    var files: map<string, nat>

    constructor (initial: map<string, nat>)
      ensures files == initial
    {
      files := initial;
    }
  }

  /** thumbnailDir */
  function ThumbnailDir(ctx: Context): string {
    Join(ctx.cacheRoot, THUMBNAIL_DIR)
  }

  /** The cache file name: the source's base name with every ".mp3" turned into ".png" */
  function ThumbnailKey(source: string): (r: string)
    ensures '/' !in r
  {
    ReplaceKeepsOut(BaseName(source), ".mp3", ".png", '/');
    Replace(BaseName(source), ".mp3", ".png")
  }

  /** getThumbnail: always a path, inside the thumbnail directory, named by the key */
  function GetThumbnail(ctx: Context, source: string): (r: string)
    ensures BaseName(r) == ThumbnailKey(source)
    ensures r == Join(ThumbnailDir(ctx), BaseName(r))
  {
    BaseNameOfJoin(ThumbnailDir(ctx), ThumbnailKey(source));
    Join(ThumbnailDir(ctx), ThumbnailKey(source))
  }

  /** A base name without ".mp3" is the cache file name as it is. */
  lemma KeyVerbatimWithoutMp3(source: string)
    requires !Contains(BaseName(source), ".mp3")
    ensures ThumbnailKey(source) == BaseName(source)
  {
    ReplaceAbsent(BaseName(source), ".mp3", ".png");
  }

  /** Sources in different directories with one base name share a cache file. */
  lemma SameBaseNameSameThumbnail(ctx: Context, dirA: string, dirB: string, name: string)
    requires '/' !in name
    ensures GetThumbnail(ctx, Join(dirA, name)) == GetThumbnail(ctx, Join(dirB, name))
  {
    BaseNameOfJoin(dirA, name);
    BaseNameOfJoin(dirB, name);
  }

  /** An audio file and a picture that differ only in ".mp3" against ".png" share a cache file too. */
  lemma Mp3AndPngCollide(ctx: Context, dir: string, stem: string)
    requires '/' !in stem && !Contains(stem, ".mp3")
    ensures GetThumbnail(ctx, Join(dir, stem + ".mp3")) == GetThumbnail(ctx, Join(dir, stem + ".png"))
  {
    KeyOfStem(dir, stem, ".mp3");
    KeyOfStem(dir, stem, ".png");
  }

  /** The cache file name of `dir/stem.ext`, for ".mp3" and ".png", is `stem.png`. */
  lemma KeyOfStem(dir: string, stem: string, ext: string)
    requires '/' !in stem && !Contains(stem, ".mp3")
    requires ext == ".mp3" || ext == ".png"
    ensures ThumbnailKey(Join(dir, stem + ext)) == stem + ".png"
  {
    var name := stem + ext;
    assert BaseName(Join(dir, name)) == name by {
      assert '/' !in name by {
        assert forall k :: 0 <= k < |stem| ==> name[k] == stem[k];
        assert forall k :: |stem| <= k < |name| ==> name[k] == ext[k - |stem|];
      }
      BaseNameOfJoin(dir, name);
    }
    assert Replace(name, ".mp3", ".png") == stem + ".png" by {
      ReplaceAfterPlain(stem, ".mp3", ".png", ext);
      if ext == ".mp3" {
        assert ext[..4] == ".mp3";
        assert ext[4..] == "";
      } else {
        ReplaceAbsent(ext, ".mp3", ".png");
      }
    }
  }

  /**
   * Replacing ".mp3" in a stem free of it, followed by a four-character
   * extension starting with '.', leaves the stem alone: no occurrence can
   * straddle the boundary, since ".mp3" has no '.' after its first character.
   */
  lemma {:induction false} ReplaceAfterPlain(stem: string, target: string, replacement: string, ext: string)
    requires target == ".mp3" && !Contains(stem, target) && |ext| == 4 && ext[0] == '.'
    ensures Replace(stem + ext, target, replacement) == stem + Replace(ext, target, replacement)
    decreases |stem|
  {
    var s := stem + ext;
    if stem == [] {
      assert s == ext;
    } else {
      assert s[..4] != target by {
        if |stem| >= 4 {
          assert s[..4] == stem[..4];
        } else {
          assert s[|stem|] == '.';
        }
      }
      assert s[1..] == stem[1..] + ext;
      ReplaceAfterPlain(stem[1..], target, replacement, ext);
      assert [stem[0]] + stem[1..] == stem;
    }
  }

  /**
   * addThumbnail: writes the bitmap, as a JPEG at quality 100, to exactly the
   * path getThumbnail gives, and returns that path.
   */
  method AddThumbnail(fs: FileSystem, ctx: Context, source: string, bitmap: Bitmap) returns (path: string)
    modifies fs
    ensures path == GetThumbnail(ctx, source)
    ensures fs.files == old(fs.files)[path := bitmap.jpegLength]
  {
    path := GetThumbnail(ctx, source);
    fs.files := fs.files[path := bitmap.jpegLength];
  }
}
