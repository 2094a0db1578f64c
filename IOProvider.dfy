/**
 * File helpers: byte-unit conversion, human-readable sizes, recursive size and
 * deletion over a file tree, suffix extraction, MIME fallbacks and the
 * null-guarded file constructors. Paths are strings joined with '/'.
 */
module IO {
  import opened Wrappers
  import opened Text

  const UNIT_BT := 1
  const UNIT_KB := 2
  const UNIT_MB := 3
  const UNIT_GB := 4
  const UNIT_TB := 5

  // ---- paths ----

  /** `new File(dir, name)` */
  function Join(dir: string, name: string): string {
    dir + "/" + name
  }

  /** File.getName: the text after the last '/' */
  function BaseName(path: string): (r: string)
    ensures forall k :: 0 <= k < |r| ==> r[k] != '/'
    ensures '/' !in r
    ensures |r| <= |path| && r == path[|path| - |r|..]
  {
    var i := LastIndexOf(path, '/');
    path[i + 1..]
  }

  /** The base name of `new File(dir, name)` is `name`. */
  lemma BaseNameOfJoin(dir: string, name: string)
    requires '/' !in name
    ensures BaseName(Join(dir, name)) == name
  {
    LastIndexOfSplit(dir, '/', name);
    assert Join(dir, name) == dir + ['/'] + name;
    assert Join(dir, name)[|dir| + 1..] == name;
  }

  /** Where files and caches live: `getExternalFilesDir` and `getExternalCacheDir`. */
  datatype Context = Context(filesRoot: string, cacheRoot: string)

  /** createFile: null when either name is null, otherwise a file in the named files directory */
  function CreateFile(ctx: Context, dirName: Option<string>, fileName: Option<string>): (r: Option<string>)
    ensures r.None? <==> dirName.None? || fileName.None?
    ensures r.Some? ==> r.value == Join(Join(ctx.filesRoot, dirName.value), fileName.value)
  {
    if dirName.None? || fileName.None? then None
    else Some(Join(Join(ctx.filesRoot, dirName.value), fileName.value))
  }

  /** createCacheFile: the same guard over the cache directory */
  function CreateCacheFile(ctx: Context, dirName: Option<string>, fileName: Option<string>): (r: Option<string>)
    ensures r.None? <==> dirName.None? || fileName.None?
    ensures r.Some? ==> r.value == Join(Join(ctx.cacheRoot, dirName.value), fileName.value)
  {
    if dirName.None? || fileName.None? then None
    else Some(Join(Join(ctx.cacheRoot, dirName.value), fileName.value))
  }

  /** A created file is found again under the name it was given. */
  lemma CreatedFileKeepsName(ctx: Context, dirName: string, fileName: string)
    requires '/' !in fileName
    ensures CreateFile(ctx, Some(dirName), Some(fileName)).Some?
    ensures BaseName(CreateFile(ctx, Some(dirName), Some(fileName)).value) == fileName
    ensures BaseName(CreateCacheFile(ctx, Some(dirName), Some(fileName)).value) == fileName
  {
    BaseNameOfJoin(Join(ctx.filesRoot, dirName), fileName);
    BaseNameOfJoin(Join(ctx.cacheRoot, dirName), fileName);
  }

  /**
   * createFileName: the last path segment of a URL holding both '/' and '.';
   * any other URL reaches `SimpleDateFormat.format` with a non-date argument,
   * which throws.
   */
  function CreateFileName(url: string): (r: Result<string>)
  {
    if Contains(url, "/") && Contains(url, ".") then Ok(BaseName(url))
    else Thrown("IllegalArgumentException")
  }

  lemma CreateFileNameCases(url: string)
    ensures CreateFileName(url).Ok? <==> '/' in url && '.' in url
    ensures CreateFileName(url).Ok? ==> '/' !in CreateFileName(url).value
  {
    ContainsChar(url, '/');
    ContainsChar(url, '.');
  }

  /** The file name of a dotted name served under some directory is that name. */
  lemma CreateFileNameOfJoin(dir: string, name: string)
    requires '/' !in name && '.' in name
    ensures CreateFileName(Join(dir, name)) == Ok(name)
  {
    var url := Join(dir, name);
    assert url[|dir|] == '/';
    assert '.' in url by {
      var k :| 0 <= k < |name| && name[k] == '.';
      assert url[|dir| + 1 + k] == '.';
    }
    CreateFileNameCases(url);
    BaseNameOfJoin(dir, name);
  }

  // ---- sizes ----

  /** The number of bytes in one of the five units */
  function UnitBytes(unit: int): nat
    requires UNIT_BT <= unit <= UNIT_TB
  {
    if unit == UNIT_BT then 1
    else if unit == UNIT_KB then 1024
    else if unit == UNIT_MB then 1048576
    else if unit == UNIT_GB then 1073741824
    else 1099511627776
  }

  /**
   * length(file, unit): the size in bytes for UNIT_BT, divided by 1024 to the
   * power 1..4 for UNIT_KB..UNIT_TB, and the byte count for any other unit.
   */
  function LengthIn(size: nat, unit: int): nat {
    if unit == UNIT_KB then size / 1024
    else if unit == UNIT_MB then size / (1024 * 1024)
    else if unit == UNIT_GB then size / (1024 * 1024 * 1024)
    else if unit == UNIT_TB then size / (1024 * 1024 * 1024 * 1024)
    else size
  }

  /**
   * For the five named units the result is the whole number of that unit in
   * `size`; for any other unit it is the byte count.
   */
  lemma LengthInBounds(size: nat, unit: int)
    ensures UNIT_BT <= unit <= UNIT_TB ==>
      LengthIn(size, unit) * UnitBytes(unit) <= size < (LengthIn(size, unit) + 1) * UnitBytes(unit)
    ensures !(UNIT_BT <= unit <= UNIT_TB) ==> LengthIn(size, unit) == size
  {
  }

  /** Each named unit is the previous one divided by 1024. */
  lemma LengthInStep(size: nat, unit: int)
    requires UNIT_BT <= unit < UNIT_TB
    ensures LengthIn(size, unit + 1) == LengthIn(size, unit) / 1024
  {
  }

  /** The unit names lengthName appends. */
  const UNIT_NAMES: seq<string> := ["B", "KB", "M", "G"]

  /** lengthName: B, KB or M at the first scale below 1024, otherwise G without bound */
  function LengthName(b: nat): string {
    if b < 1024 then Digits(b) + "B"
    else
      var kb := b / 1024;
      if kb < 1024 then Digits(kb) + "KB"
      else
        var m := kb / 1024;
        if m < 1024 then Digits(m) + "M"
        else Digits(m / 1024) + "G"
  }

  /** `b` divided by 1024, `k` times over */
  function Shift(b: nat, k: nat): nat {
    if k == 0 then b else Shift(b, k - 1) / 1024
  }

  /** Repeated division by 1024 is the unit conversion of length(file, unit). */
  lemma {:induction false} ShiftIsLengthIn(b: nat, k: nat)
    requires k <= 4
    ensures Shift(b, k) == LengthIn(b, UNIT_BT + k)
  {
    if k > 0 {
      ShiftIsLengthIn(b, k - 1);
      LengthInStep(b, UNIT_BT + k - 1);
    }
  }

  /** The scale lengthName uses: the smallest of 0, 1, 2 that brings the value below 1024, else 3. */
  function Scale(b: nat): (k: nat)
    ensures k <= 3
    ensures k < 3 ==> Shift(b, k) < 1024
    ensures forall j: nat :: j < k ==> Shift(b, j) >= 1024
  {
    if Shift(b, 0) < 1024 then 0
    else if Shift(b, 1) < 1024 then 1
    else if Shift(b, 2) < 1024 then 2
    else 3
  }

  /**
   * lengthName renders the size, converted to the unit `Scale` picks, with that
   * unit's name: the value is length(file, unit) for the unit named.
   */
  lemma LengthNameAtScale(b: nat)
    ensures LengthName(b) == Digits(LengthIn(b, UNIT_BT + Scale(b))) + UNIT_NAMES[Scale(b)]
  {
    ShiftIsLengthIn(b, Scale(b));
  }

  /** The number lengthName prints is below 1024 unless the unit is G. */
  lemma LengthNameValueBelow1024(b: nat)
    ensures Scale(b) < 3 ==> LengthIn(b, UNIT_BT + Scale(b)) < 1024
  {
    ShiftIsLengthIn(b, Scale(b));
  }

  // ---- file trees ----

  /** A file or a directory; `length` is what File.length reports for the node itself. */
  datatype FileNode = Regular(length: nat) | Directory(length: nat, children: seq<FileNode>)

  /** The bytes of a node and everything below it */
  function TreeSize(n: FileNode): nat
    decreases n
  {
    match n
    case Regular(len) => len
    case Directory(len, kids) => len + Total(kids)
  }

  function Total(s: seq<FileNode>): nat
    decreases s
  {
    if s == [] then 0 else Total(s[..|s| - 1]) + TreeSize(s[|s| - 1])
  }

  /** length(File): the children's sizes accumulated one by one, then the node's own length */
  method Length(n: FileNode) returns (size: nat)
    ensures size == TreeSize(n)
    decreases n
  {
    size := 0;
    if n.Directory? {
      var i := 0;
      while i < |n.children|
        invariant 0 <= i <= |n.children|
        invariant size == Total(n.children[..i])
      {
        var child := Length(n.children[i]);
        assert n.children[..i + 1][..i] == n.children[..i];
        size := size + child;
        i := i + 1;
      }
      assert n.children[..i] == n.children;
    }
    size := size + n.length;
  }

  /** Reference: the own lengths of all nodes, in pre-order */
  function Listing(n: FileNode): seq<nat>
    decreases n
  {
    match n
    case Regular(len) => [len]
    case Directory(len, kids) => [len] + ListingAll(kids)
  }

  function ListingAll(s: seq<FileNode>): seq<nat>
    decreases s
  {
    if s == [] then [] else ListingAll(s[..|s| - 1]) + Listing(s[|s| - 1])
  }

  function Sum(s: seq<nat>): nat {
    if s == [] then 0 else Sum(s[..|s| - 1]) + s[|s| - 1]
  }

  lemma {:induction false} SumConcat(a: seq<nat>, b: seq<nat>)
    ensures Sum(a + b) == Sum(a) + Sum(b)
    decreases |b|
  {
    if b != [] {
      assert (a + b)[..|a + b| - 1] == a + b[..|b| - 1];
      SumConcat(a, b[..|b| - 1]);
    } else {
      assert a + b == a;
    }
  }

  /** The recursive size of a tree is the sum of the lengths of all its nodes. */
  lemma {:induction false} TreeSizeIsSumOfNodes(n: FileNode)
    ensures TreeSize(n) == Sum(Listing(n))
    decreases n
  {
    match n
    case Regular(len) =>
      assert Listing(n)[..0] == [];
    case Directory(len, kids) =>
      TotalIsSumOfNodes(kids);
      SumConcat([len], ListingAll(kids));
      assert Sum([len]) == len by { assert [len][..0] == []; }
  }

  lemma {:induction false} TotalIsSumOfNodes(s: seq<FileNode>)
    ensures Total(s) == Sum(ListingAll(s))
    decreases s
  {
    if s != [] {
      TotalIsSumOfNodes(s[..|s| - 1]);
      TreeSizeIsSumOfNodes(s[|s| - 1]);
      SumConcat(ListingAll(s[..|s| - 1]), Listing(s[|s| - 1]));
    }
  }

  // ---- deletion ----

  /** A directory after deleteDir: its subdirectories pruned, its regular files gone */
  function Prune(d: FileNode): (r: FileNode)
    requires d.Directory?
    ensures r.Directory? && r.length == d.length
    decreases d
  {
    Directory(d.length, Kept(d.children))
  }

  function Kept(s: seq<FileNode>): seq<FileNode>
    decreases s
  {
    if s == [] then []
    else
      var last := s[|s| - 1];
      Kept(s[..|s| - 1]) + (if last.Directory? then [Prune(last)] else [])
  }

  /**
   * deleteDir: a regular file is deleted (None); a directory is kept, and
   * each child is processed in turn.
   */
  method DeleteDir(n: FileNode) returns (r: Option<FileNode>)
    ensures r == if n.Regular? then None else Some(Prune(n))
    decreases n
  {
    if n.Regular? {
      return None;
    }
    var kept: seq<FileNode> := [];
    var i := 0;
    while i < |n.children|
      invariant 0 <= i <= |n.children|
      invariant kept == Kept(n.children[..i])
    {
      var child := DeleteDir(n.children[i]);
      assert n.children[..i + 1][..i] == n.children[..i];
      if child.Some? {
        kept := kept + [child.value];
      }
      i := i + 1;
    }
    assert n.children[..i] == n.children;
    r := Some(Directory(n.length, kept));
  }

  /** No regular file anywhere in the tree */
  predicate OnlyDirectories(n: FileNode)
    decreases n
  {
    n.Directory? && forall k :: 0 <= k < |n.children| ==> OnlyDirectories(n.children[k])
  }

  /** Reference: the own lengths of the directories, in pre-order */
  function DirListing(n: FileNode): seq<nat>
    decreases n
  {
    match n
    case Regular(_) => []
    case Directory(len, kids) => [len] + DirListingAll(kids)
  }

  function DirListingAll(s: seq<FileNode>): seq<nat>
    decreases s
  {
    if s == [] then [] else DirListingAll(s[..|s| - 1]) + DirListing(s[|s| - 1])
  }

  /**
   * deleteDir leaves no regular file, and keeps every directory, in the same
   * order and with the same own length.
   */
  lemma {:induction false} PruneDeletesFilesKeepsDirectories(d: FileNode)
    requires d.Directory?
    ensures OnlyDirectories(Prune(d))
    ensures DirListing(Prune(d)) == DirListing(d)
    decreases d
  {
    KeptDeletesFilesKeepsDirectories(d.children);
  }

  lemma {:induction false} KeptDeletesFilesKeepsDirectories(s: seq<FileNode>)
    ensures forall k :: 0 <= k < |Kept(s)| ==> OnlyDirectories(Kept(s)[k])
    ensures DirListingAll(Kept(s)) == DirListingAll(s)
    decreases s
  {
    if s != [] {
      var init, last := s[..|s| - 1], s[|s| - 1];
      KeptDeletesFilesKeepsDirectories(init);
      var tail := if last.Directory? then [Prune(last)] else [];
      if last.Directory? {
        PruneDeletesFilesKeepsDirectories(last);
      }
      DirListingAllConcat(Kept(init), tail);
      if last.Regular? {
        assert tail == [];
        assert Kept(s) == Kept(init);
      } else {
        assert DirListingAll(tail) == DirListing(Prune(last)) by {
          assert tail[..0] == [];
        }
      }
    }
  }

  lemma {:induction false} DirListingAllConcat(a: seq<FileNode>, b: seq<FileNode>)
    ensures DirListingAll(a + b) == DirListingAll(a) + DirListingAll(b)
    decreases |b|
  {
    if b == [] {
      assert a + b == a;
    } else {
      assert (a + b)[..|a + b| - 1] == a + b[..|b| - 1];
      DirListingAllConcat(a, b[..|b| - 1]);
    }
  }

  // ---- suffixes and MIME types ----

  /** What a java.io.File reports about itself: its path, `exists()` and `isDirectory()`. */
  datatype FileRef = FileRef(path: string, present: bool, isDirectory: bool)

  /**
   * getSuffix: "" for a null, missing or directory file; null for an empty name
   * or one ending in '.'; the lower-cased text after the last '.'; "" without a '.'.
   */
  function GetSuffix(f: Option<FileRef>): (r: Option<string>)
    ensures r.Some? ==> '.' !in r.value
    ensures r.Some? ==> forall i :: 0 <= i < |r.value| ==> LowerChar(r.value[i]) == r.value[i]
    ensures f.None? || !f.value.present || f.value.isDirectory ==> r == Some("")
    ensures f.Some? && f.value.present && !f.value.isDirectory ==>
      (r.None? <==> BaseName(f.value.path) == "" || EndsWith(BaseName(f.value.path), "."))
  {
    if f.None? || !f.value.present || f.value.isDirectory then Some("")
    else
      var name := BaseName(f.value.path);
      if name == "" || EndsWith(name, ".") then None
      else
        var index := LastIndexOf(name, '.');
        SuffixText(name, index, Lower(name[index + 1..]));
        if index != -1 then Some(Lower(name[index + 1..])) else Some("")
  }

  /** The lower-cased text after the last '.' holds no '.' and is already lower case. */
  lemma SuffixText(name: string, index: int, t: string)
    requires -1 <= index < |name|
    requires forall j :: index < j < |name| ==> name[j] != '.'
    requires t == Lower(name[index + 1..])
    ensures '.' !in t
    ensures forall i :: 0 <= i < |t| ==> LowerChar(t[i]) == t[i]
  {
    var tail := name[index + 1..];
    forall i | 0 <= i < |t|
      ensures t[i] != '.' && LowerChar(t[i]) == t[i]
    {
      assert tail[i] == name[index + 1 + i];
    }
  }

  /** A regular file named `stem.ext` has suffix `ext` lower-cased, whatever the stem holds. */
  lemma GetSuffixOfDottedName(path: string, stem: string, ext: string)
    requires BaseName(path) == stem + "." + ext
    requires ext != [] && '.' !in ext
    ensures GetSuffix(Some(FileRef(path, true, false))) == Some(Lower(ext))
  {
    var name := stem + "." + ext;
    assert name == stem + ['.'] + ext;
    LastIndexOfSplit(stem, '.', ext);
    assert name[|name| - 1..] == [ext[|ext| - 1]];
    assert name[|stem| + 1..] == ext;
  }

  /** A regular file whose name has no '.' has an empty suffix. */
  lemma GetSuffixUndotted(path: string)
    requires BaseName(path) != [] && '.' !in BaseName(path)
    ensures GetSuffix(Some(FileRef(path, true, false))) == Some("")
  {
    var name := BaseName(path);
    assert name[|name| - 1..] == [name[|name| - 1]];
  }

  /**
   * getMimeType(path): the platform's entry for the path when it has one;
   * otherwise the image wildcard type for a path naming an image by both "img"/"image" and
   * a jpeg/png/jpg extension, else the application wildcard type.
   */
  function MimeTypeOfPath(path: string, mapped: Option<string>): (r: string)
    ensures mapped.Some? ==> r == mapped.value
    ensures mapped.None? ==> r == "image/*" || r == "application/*"
  {
    var lower := Lower(path);
    if mapped.Some? then mapped.value
    else if (Contains(lower, "img") || Contains(lower, "image"))
         && (Contains(lower, "jpeg") || Contains(lower, "png") || Contains(lower, "jpg"))
    then "image/*"
    else "application/*"
  }

  /** The fallback does not depend on the case of the path. */
  lemma MimeFallbackIgnoresCase(path: string)
    ensures MimeTypeOfPath(path, None) == MimeTypeOfPath(Upper(path), None)
    ensures MimeTypeOfPath(path, None) == MimeTypeOfPath(Lower(path), None)
  {
    LowerOfUpper(path);
    LowerIdempotent(path);
  }

  /**
   * getMimeType(File) as written: the test `type != null || !type.isEmpty()`
   * dereferences `type` exactly when it is null, so an extension the platform
   * does not know throws instead of falling back to the file wildcard type.
   */
  function MimeTypeOfFileAsWritten(f: Option<FileRef>, lookup: string -> Option<string>): Result<string> {
    var suffix := GetSuffix(f);
    if suffix.None? then Ok("file/*")
    else
      var t := lookup(suffix.value);
      if t.Some? then Ok(t.value)
      else Thrown("NullPointerException")
  }

  /** getMimeType(File) as intended: the platform's type, or the file wildcard type when it has none or an empty one. */
  function MimeTypeOfFile(f: Option<FileRef>, lookup: string -> Option<string>): (r: string)
    ensures r != ""
  {
    var suffix := GetSuffix(f);
    if suffix.None? then "file/*"
    else
      var t := lookup(suffix.value);
      if t.Some? && t.value != "" then t.value else "file/*"
  }

  /** A file named `stem.ext`, where the platform knows no type for `ext`: the written version throws, the intended one answers the file wildcard type. */
  lemma UnknownExtension(path: string, stem: string, ext: string, lookup: string -> Option<string>)
    requires '/' !in path && path == stem + "." + ext
    requires ext != [] && '.' !in ext
    requires lookup(Lower(ext)).None?
    ensures MimeTypeOfFileAsWritten(Some(FileRef(path, true, false)), lookup) == Thrown("NullPointerException")
    ensures MimeTypeOfFile(Some(FileRef(path, true, false)), lookup) == "file/*"
  {
    assert GetSuffix(Some(FileRef(path, true, false))) == Some(Lower(ext)) by {
      assert BaseName(path) == path;
      GetSuffixOfDottedName(path, stem, ext);
    }
  }

  /** "notes.xyz", with a platform that knows no extension, shows the difference. */
  lemma MimeTypeOfFileUnknownExtension()
    ensures var f := Some(FileRef("notes.xyz", true, false));
            var lookup := (e: string) => None;
            MimeTypeOfFileAsWritten(f, lookup) == Thrown("NullPointerException")
            && MimeTypeOfFile(f, lookup) == "file/*"
  {
    UnknownExtension("notes.xyz", "notes", "xyz", (e: string) => None);
  }

  /** Where the platform knows the extension, both versions agree (apart from an empty type). */
  lemma MimeTypeOfFileAgreesWhenKnown(f: Option<FileRef>, lookup: string -> Option<string>)
    requires GetSuffix(f).Some? ==> lookup(GetSuffix(f).value).Some? && lookup(GetSuffix(f).value).value != ""
    ensures MimeTypeOfFileAsWritten(f, lookup) == Ok(MimeTypeOfFile(f, lookup))
  {
  }
}
