/**
 * The media list adapter: which layout an item uses, the grid spacer, the
 * duration label of a video, the memoised description of an item, and the
 * selection updates `check(position)` and `check(documents)` make in place
 * on the items of the list. File-system facts about an item's path are
 * given as functions of the path.
 */
module MediaAdapter {
  import opened Wrappers
  import opened Text
  import M = Media

  const ITEM_FILE := 1
  const ITEM_IMAGE := 2
  const ITEM_VIDEO := 3
  const ITEM_AUDIO := 4

  // ---- layout ----

  datatype Layout = ItemFileLayout | ItemImageVideoLayout

  /** getItemLayoutId: files and audio in rows, images and videos in the grid, anything else in rows */
  function ItemLayout(viewType: int): (r: Layout)
    ensures r == ItemImageVideoLayout <==> viewType == ITEM_IMAGE || viewType == ITEM_VIDEO
  {
    if viewType == ITEM_FILE || viewType == ITEM_AUDIO then ItemFileLayout
    else if viewType == ITEM_IMAGE || viewType == ITEM_VIDEO then ItemImageVideoLayout
    else ItemFileLayout
  }

  /** The spacer left of a grid cell */
  function LeftSpacer(position: int): bool {
    Rem(position + 1, 3) == 1
  }

  /** In the three-column grid the spacer shows exactly in the first column. */
  lemma LeftSpacerFirstColumn(position: nat)
    ensures LeftSpacer(position) <==> position % 3 == 0
  {
    assert Rem(position + 1, 3) == (position + 1) % 3;
  }

  // ---- the duration label ----

  /** The time shown for a video: its duration, or the extracted one when the record has none */
  function LabelTime(duration: int, extracted: int): (t: int)
    ensures duration != 0 ==> t == duration
    ensures duration == 0 ==> t == extracted
  {
    if duration == 0 then extracted else duration
  }

  /** "MM:SS" from a time in milliseconds, with Java's truncating division */
  function DurationLabel(time: int): string {
    var seconds := Div(time, 1000);
    Format00(Div(seconds, 60)) + ":" + Format00(Rem(seconds, 60))
  }

  /**
   * For a non-negative time the label has two fields separated by ':'; the
   * second is below 60 and together they read back as the whole seconds.
   */
  lemma DurationLabelReadsBack(time: nat)
    ensures var parts := Split(DurationLabel(time), ':');
      && |parts| == 2
      && (forall i :: 0 <= i < |parts[0]| ==> IsDigit(parts[0][i]))
      && (forall i :: 0 <= i < |parts[1]| ==> IsDigit(parts[1][i]))
      && ParseDigits(parts[1]) < 60
      && ParseDigits(parts[0]) * 60 + ParseDigits(parts[1]) == time / 1000
  {
    var seconds := time / 1000;
    var a, b := Format00(seconds / 60), Format00(seconds % 60);
    assert DurationLabel(time) == a + [':'] + b;
    DigitsHaveNo(a, ':');
    DigitsHaveNo(b, ':');
    SplitJoin(a, ':', b);
    SplitNoSeparator(b, ':');
  }

  // ---- descriptions ----

  /** What the file system says about an item's path */
  datatype FileFacts = FileFacts(isDirectory: bool, list: Option<nat>, date: string, lengthName: string)

  /** The description text: the entry count for a directory, the size for a file, then the date */
  function DescText(f: FileFacts, count: int): (r: string)
    ensures |r| > 0
    ensures f.isDirectory ==> StartsWith(r, IntToString(count))
    ensures !f.isDirectory ==> StartsWith(r, f.lengthName)
  {
    if f.isDirectory then
      var s := IntToString(count) + "项" + "  " + f.date;
      assert s[..|IntToString(count)|] == IntToString(count);
      s
    else
      var s := f.lengthName + "  " + f.date;
      assert s[..|f.lengthName|] == f.lengthName;
      s
  }

  /** TextUtils.isEmpty */
  predicate IsEmpty(s: Option<string>) {
    s.None? || s.value == ""
  }

  /**
   * showDesc: a stored description is shown as it is; otherwise the count is
   * computed if it is still -1, the text is built and stored. A record
   * without a path makes `new File(null)` throw.
   */
  method ShowDesc(item: M.Media, file: string -> FileFacts) returns (r: Result<string>)
    modifies item`count, item`desc
    ensures !IsEmpty(old(item.desc)) ==>
      r == Ok(old(item.desc).value) && item.count == old(item.count) && item.desc == old(item.desc)
    ensures IsEmpty(old(item.desc)) && item.data.None? ==>
      r == Thrown("NullPointerException") && item.count == old(item.count) && item.desc == old(item.desc)
    ensures IsEmpty(old(item.desc)) && item.data.Some? ==>
      var f := file(item.data.value);
      var count := if old(item.count) == -1 then (if f.isDirectory then f.list.GetOr(0) else 0) else old(item.count);
      item.count == count && r == Ok(DescText(f, count)) && item.desc == Some(DescText(f, count))
  {
    var desc := item.desc;
    if IsEmpty(desc) {
      if item.data.None? {
        return Thrown("NullPointerException");
      }
      var f := file(item.data.value);
      if item.count == -1 {
        var count := if f.isDirectory then f.list.GetOr(0) else 0;
        item.SetCount(count);
      }
      var text := DescText(f, item.count);
      item.SetDesc(Some(text));
      r := Ok(text);
    } else {
      r := Ok(desc.value);
    }
  }

  /** A second showDesc shows what the first one showed and changes nothing more. */
  method ShowDescTwice(item: M.Media, file: string -> FileFacts) returns (first: Result<string>, second: Result<string>)
    modifies item`count, item`desc
    ensures first == second
  {
    first := ShowDesc(item, file);
    var count, desc := item.count, item.desc;
    second := ShowDesc(item, file);
    assert item.count == count && item.desc == desc;
  }

  // ---- selection ----

  /** No record appears twice in the list */
  predicate Distinct(items: seq<M.Media>) {
    forall i, j :: 0 <= i < j < |items| ==> items[i] != items[j]
  }

  /** Some record of `documents` has this id */
  predicate HasId(documents: seq<M.Media>, id: int)
    reads documents`id
  {
    exists d :: d in documents && d.id == id
  }

  class Adapter {
    var data: Option<seq<M.Media>>
    var multiple: bool
    var viewType: int

    /** The records shown; getItemCount is 0 without data */
    function Items(): seq<M.Media>
      reads this`data
    {
      if data.Some? then data.value else []
    }

    constructor ()
      ensures data == None && multiple && viewType == ITEM_FILE
    {
      data, multiple, viewType := None, true, ITEM_FILE;
    }

    method SetData(d: Option<seq<M.Media>>)
      modifies this`data
      ensures data == d
    {
      data := d;
    }

    method SetMultiple(b: bool)
      modifies this`multiple
      ensures multiple == b
    {
      multiple := b;
    }

    method SetViewType(t: int)
      modifies this`viewType
      ensures viewType == t
    {
      viewType := t;
    }

    /**
     * check(position) in multi-select mode: the item at `position` is
     * toggled unless its path is a directory; no other record changes.
     */
    method CheckMultiple(position: int, isDirectory: string -> bool) returns (r: Option<string>)
      requires 0 <= position < |Items()|
      modifies Items()`check
      ensures r == if Items()[position].data.None? then Some("NullPointerException") else None
      ensures forall m :: m in Items() ==>
        m.check == if m == Items()[position] && m.data.Some? && !isDirectory(m.data.value) then !old(m.check) else old(m.check)
    {
      var item := Items()[position];
      if item.data.None? {
        return Some("NullPointerException");
      }
      r := None;
      if !isDirectory(item.data.value) {
        item.SetCheck(!item.check);
      }
    }

    /**
     * check(position) in single-select mode: a checked item is unchecked and
     * nothing else changes; an unchecked one becomes the only checked item.
     */
    method CheckSingle(position: int)
      requires 0 <= position < |Items()|
      requires Distinct(Items())
      modifies Items()`check
      ensures old(Items()[position].check) ==>
        forall k :: 0 <= k < |Items()| ==> Items()[k].check == (old(Items()[k].check) && k != position)
      ensures !old(Items()[position].check) ==>
        forall k :: 0 <= k < |Items()| ==> Items()[k].check == (k == position)
    {
      var items := Items();
      var document := items[position];
      if document.check {
        document.SetCheck(false);
        return;
      }
      var i := 0;
      while i < |items|
        invariant 0 <= i <= |items|
        invariant forall k :: 0 <= k < i ==> items[k].check == (k == position)
        invariant forall k :: i <= k < |items| ==> items[k].check == old(items[k].check)
        invariant !old(items[position].check)
      {
        items[i].SetCheck(i == position);
        i := i + 1;
      }
    }

    /** check(position): the mode decides */
    method Check(position: int, isDirectory: string -> bool) returns (r: Option<string>)
      requires 0 <= position < |Items()|
      requires !multiple ==> Distinct(Items())
      modifies Items()`check
      ensures !multiple ==> r == None
      ensures multiple ==> r == if Items()[position].data.None? then Some("NullPointerException") else None
      ensures multiple ==> forall m :: m in Items() ==>
        m.check == if m == Items()[position] && m.data.Some? && !isDirectory(m.data.value) then !old(m.check) else old(m.check)
      ensures !multiple && old(Items()[position].check) ==>
        forall k :: 0 <= k < |Items()| ==> Items()[k].check == (old(Items()[k].check) && k != position)
      ensures !multiple && !old(Items()[position].check) ==>
        forall k :: 0 <= k < |Items()| ==> Items()[k].check == (k == position)
    {
      if multiple {
        r := CheckMultiple(position, isDirectory);
      } else {
        CheckSingle(position);
        r := None;
      }
    }

    /**
     * check(documents): every record whose id matches the id of a given
     * document becomes checked; no flag is ever cleared.
     */
    method CheckDocuments(documents: Option<seq<M.Media>>)
      modifies Items()`check
      ensures forall m :: m in Items() ==> m.check == (old(m.check) || (documents.Some? && HasId(documents.value, m.id)))
    {
      var docs := if documents.Some? then documents.value else [];
      var items := Items();
      var i := 0;
      while i < |docs|
        invariant 0 <= i <= |docs|
        invariant forall m :: m in items ==> m.check == (old(m.check) || HasId(docs[..i], m.id))
      {
        var docId := docs[i].id;
        var j := 0;
        while j < |items|
          invariant 0 <= j <= |items|
          invariant forall m :: m in items ==>
            m.check == (old(m.check) || HasId(docs[..i], m.id) || (m.id == docId && m in items[..j]))
        {
          var item := items[j];
          if item.id == docId {
            item.SetCheck(true);
          }
          assert items[..j + 1] == items[..j] + [item];
          j := j + 1;
        }
        assert items[..j] == items;
        assert docs[..i + 1] == docs[..i] + [docs[i]];
        i := i + 1;
      }
      assert docs[..i] == docs;
    }
  }
}
