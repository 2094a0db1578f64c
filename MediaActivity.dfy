/**
 * The media picker screen: the list of checked records kept beside the
 * adapter's own flags, the selection limit, the result it returns, the
 * back stack of lists, the category menu and the search box.
 */
module MediaActivity {
  import opened Wrappers
  import Text
  import M = Media
  import MA = MediaAdapter
  import MP = MediaProvider
  import ME = MediaExecutor

  const RESULT_OK := -1

  /** Menu ids of the category pop-up */
  const MENU_FILES := 0
  const MENU_IMAGES := 1
  const MENU_VIDEOS := 2
  const MENU_AUDIOS := 3

  // ---- removing a record from the checked list ----

  /**
   * The index loop of setCheckedItem: entry `i` is removed when it has the
   * id, and the loop then goes on at `i + 1`, past the entry that moved into
   * place `i`.
   */
  function RemoveById(list: seq<M.Media>, id: int, i: nat): (r: seq<M.Media>)
    reads list`id
    ensures |r| <= |list|
    ensures forall m :: m in r ==> m in list
    decreases |list| - i
  {
    if i >= |list| then list
    else if list[i].id == id then
      var rest := list[..i] + list[i + 1..];
      assert forall m :: m in rest ==> m in list;
      RemoveById(rest, id, i + 1)
    else RemoveById(list, id, i + 1)
  }

  /**
   * The loop removes only entries with the id: every entry with another id
   * survives, in order, and nothing is added or repeated.
   */
  lemma {:induction false} RemoveByIdKeepsOthers(list: seq<M.Media>, id: int, i: nat)
    ensures Others(RemoveById(list, id, i), id) == Others(list, id)
    ensures multiset(RemoveById(list, id, i)) <= multiset(list)
    decreases |list| - i
  {
    if i < |list| {
      if list[i].id == id {
        var rest := list[..i] + list[i + 1..];
        DropKeepsOthers(list, id, i);
        RemoveByIdKeepsOthers(rest, id, i + 1);
      } else {
        RemoveByIdKeepsOthers(list, id, i + 1);
      }
    }
  }

  /** Dropping one entry with the id keeps the others and takes nothing else. */
  lemma DropKeepsOthers(list: seq<M.Media>, id: int, i: nat)
    requires i < |list| && list[i].id == id
    ensures Others(list[..i] + list[i + 1..], id) == Others(list, id)
    ensures multiset(list[..i] + list[i + 1..]) <= multiset(list)
  {
    assert list == list[..i] + [list[i]] + list[i + 1..];
    OthersConcat(list[..i] + [list[i]], list[i + 1..], id);
    OthersConcat(list[..i], [list[i]], id);
    OthersConcat(list[..i], list[i + 1..], id);
  }

  /** The entries whose id differs from `id`, in list order */
  function Others(list: seq<M.Media>, id: int): seq<M.Media>
    reads list`id
  {
    if list == [] then [] else (if list[0].id == id then [] else [list[0]]) + Others(list[1..], id)
  }

  lemma {:induction false} OthersConcat(a: seq<M.Media>, b: seq<M.Media>, id: int)
    ensures Others(a + b, id) == Others(a, id) + Others(b, id)
    decreases |a|
  {
    if a == [] {
      assert a + b == b;
    } else {
      assert (a + b)[1..] == a[1..] + b;
      OthersConcat(a[1..], b, id);
    }
  }

  /** Ids of the entries from index `i` on */
  predicate IdAbsentFrom(list: seq<M.Media>, id: int, i: nat)
    reads list`id
  {
    forall k :: i <= k < |list| ==> list[k].id != id
  }

  /** Nothing from index `i` on has the id: the loop keeps the list. */
  lemma {:induction false} RemoveByIdAbsent(list: seq<M.Media>, id: int, i: nat)
    requires IdAbsentFrom(list, id, i)
    ensures RemoveById(list, id, i) == list
    decreases |list| - i
  {
    if i < |list| {
      RemoveByIdAbsent(list, id, i + 1);
    }
  }

  /**
   * When exactly one entry has the id, exactly that entry goes and the
   * others keep their order.
   */
  lemma RemoveByIdUnique(list: seq<M.Media>, id: int, p: nat)
    requires p < |list| && list[p].id == id
    requires forall k :: 0 <= k < |list| && k != p ==> list[k].id != id
    ensures RemoveById(list, id, 0) == list[..p] + list[p + 1..]
  {
    var rest := list[..p] + list[p + 1..];
    PrefixKept(list, id, 0, p);
    forall k | p + 1 <= k < |rest|
      ensures rest[k].id != id
    {
      assert rest[k] == list[k + 1];
    }
    RemoveByIdAbsent(rest, id, p + 1);
  }

  /** Before the first entry with the id, the loop only moves on. */
  lemma {:induction false} PrefixKept(list: seq<M.Media>, id: int, i: nat, p: nat)
    requires i <= p < |list|
    requires forall k :: i <= k < p ==> list[k].id != id
    ensures RemoveById(list, id, i) == RemoveById(list, id, p)
    decreases p - i
  {
    if i < p {
      PrefixKept(list, id, i + 1, p);
    }
  }

  /** Of two adjacent entries with the id, the loop removes the first and skips the second. */
  lemma AdjacentDuplicateSurvives(a: M.Media, b: M.Media)
    requires a.id == b.id
    ensures RemoveById([a, b], a.id, 0) == [b]
  {
    var rest := [a, b][..0] + [a, b][1..];
    assert rest == [b];
  }

  // ---- the result ----

  datatype Outcome = Toast(message: string) | Finish(resultCode: int, result: seq<M.Media>)

  /** What a click on a check box ends with: handled, refused with a toast, or an exception */
  datatype Click = Handled | Refused(toast: string) | Raised(exception: string)

  /** setResult(): a toast and no result while nothing is checked; otherwise the checked list, OK */
  function SetResult(checked: Option<seq<M.Media>>): (r: Outcome)
    ensures r.Finish? <==> checked.Some? && |checked.value| > 0
    ensures r.Finish? ==> r.resultCode == RESULT_OK && r.result == checked.value
  {
    var count := if checked.None? then 0 else |checked.value|;
    if count == 0 then Toast("请选择文件")
    else Finish(RESULT_OK, checked.value)
  }

  /** The menu entry onCreate selects for the requested media type; None leaves the menu null, on which `OpenMenu` throws */
  function InitialMenu(mediaType: int): (r: Option<int>)
    ensures r.Some? <==> mediaType in {M.DOCUMENT, M.IMAGE, M.VIDEO, M.AUDIO}
  {
    if mediaType == M.DOCUMENT then Some(MENU_FILES)
    else if mediaType == M.IMAGE then Some(MENU_IMAGES)
    else if mediaType == M.VIDEO then Some(MENU_VIDEOS)
    else if mediaType == M.AUDIO then Some(MENU_AUDIOS)
    else None
  }

  /** The adapter view type for each menu entry */
  function MenuViewType(id: int): int
    requires 0 <= id <= 3
  {
    [MA.ITEM_FILE, MA.ITEM_IMAGE, MA.ITEM_VIDEO, MA.ITEM_AUDIO][id]
  }

  /** Each media type opens the menu entry of the same category. */
  lemma InitialMenuMatchesType(mediaType: int)
    requires InitialMenu(mediaType).Some?
    ensures var v := MenuViewType(InitialMenu(mediaType).value);
      && (mediaType == M.IMAGE <==> v == MA.ITEM_IMAGE)
      && (mediaType == M.VIDEO <==> v == MA.ITEM_VIDEO)
      && (mediaType == M.AUDIO <==> v == MA.ITEM_AUDIO)
      && (mediaType == M.DOCUMENT <==> v == MA.ITEM_FILE)
  {
  }

  class Activity {
    var multiple: bool
    /** At most this many checked records in multi-select mode; -1 for no limit */
    var max: int
    var checked: seq<M.Media>
    var stack: seq<Option<seq<M.Media>>>
    var files: Option<seq<M.Media>>
    var images: Option<seq<M.Media>>
    var videos: Option<seq<M.Media>>
    var audios: Option<seq<M.Media>>
    var popMenu: Option<int>
    const adapter: MA.Adapter

    /**
     * onCreate's state once the executor is there: an adapter in the requested
     * selection mode, nothing checked, an empty stack, and the four lists read
     * from the executor
     */
    constructor (multiple: bool, max: int, executor: ME.Executor)
      ensures fresh(adapter) && adapter.multiple == multiple && adapter.data == None
      ensures adapter.viewType == MA.ITEM_FILE
      ensures this.multiple == multiple && this.max == max
      ensures checked == [] && stack == [] && popMenu == None
      ensures files == executor.files && images == executor.images
      ensures videos == executor.videos && audios == executor.audios
    {
      var a := new MA.Adapter();
      a.SetMultiple(multiple);
      adapter := a;
      this.multiple, this.max := multiple, max;
      checked, stack := [], [];
      files, images := executor.files, executor.images;
      videos, audios := executor.videos, executor.audios;
      popMenu := None;
    }

    /**
     * setCheckedItem: a checked record is appended (after clearing the list
     * in single mode); an unchecked one is removed by the index loop.
     */
    method SetCheckedItem(document: M.Media)
      modifies this`checked
      ensures document.check && !multiple ==> checked == [document]
      ensures document.check && multiple ==> checked == old(checked) + [document]
      ensures !document.check ==> checked == RemoveById(old(checked), document.id, 0)
    {
      if document.check {
        if !multiple {
          checked := [];
        }
        checked := checked + [document];
      } else {
        var i := 0;
        while i < |checked|
          invariant RemoveById(checked, document.id, i) == RemoveById(old(checked), document.id, 0)
          decreases |checked| - i
        {
          if checked[i].id == document.id {
            checked := checked[..i] + checked[i + 1..];
          }
          i := i + 1;
        }
      }
    }

    /** The limit blocks checking one more record */
    predicate Blocked(document: M.Media)
      reads this`multiple, this`max, this`checked, document`check
    {
      multiple && max > -1 && |checked| >= max && !document.check
    }

    /**
     * onMediaItemClick on a check box: at the limit an unchecked record is
     * refused with a toast and nothing changes; otherwise the adapter's
     * check(position) runs and the checked list follows the record's new flag.
     * A record without a path makes the adapter throw before the list is
     * touched. In multi-select mode the limit is never exceeded, unless a
     * directory that was checked some other way is clicked: the adapter
     * leaves it checked and it is appended again.
     */
    method OnCheckClick(position: int, isDirectory: string -> bool) returns (r: Click)
      requires 0 <= position < |adapter.Items()|
      requires adapter.multiple == multiple
      requires !multiple ==> MA.Distinct(adapter.Items())
      modifies adapter.Items()`check, this`checked
      ensures var document := adapter.Items()[position];
        old(Blocked(document)) ==>
          && r == Refused("最多选择" + Text.IntToString(max) + "个文件")
          && checked == old(checked)
          && forall m :: m in adapter.Items() ==> m.check == old(m.check)
      // the adapter's toggle, in either mode
      ensures var document := adapter.Items()[position];
        !old(Blocked(document)) && multiple ==>
          && r == (if document.data.None? then Raised("NullPointerException") else Handled)
          && forall m :: m in adapter.Items() ==>
               m.check == if m == document && m.data.Some? && !isDirectory(m.data.value) then !old(m.check) else old(m.check)
      ensures !old(Blocked(adapter.Items()[position])) && !multiple ==> r == Handled
      ensures !multiple && old(adapter.Items()[position].check) ==>
        forall k :: 0 <= k < |adapter.Items()| ==> adapter.Items()[k].check == (old(adapter.Items()[k].check) && k != position)
      ensures !multiple && !old(adapter.Items()[position].check) ==>
        forall k :: 0 <= k < |adapter.Items()| ==> adapter.Items()[k].check == (k == position)
      // the checked list
      ensures r.Raised? ==> checked == old(checked)
      ensures var document := adapter.Items()[position];
        r.Handled? ==>
          && (document.check && !multiple ==> checked == [document])
          && (document.check && multiple ==> checked == old(checked) + [document])
          && (!document.check ==> checked == RemoveById(old(checked), document.id, 0))
      ensures var document := adapter.Items()[position];
        (&& multiple && max > -1 && |old(checked)| <= max
         && !(old(document.check) && document.data.Some? && isDirectory(document.data.value)))
        ==> |checked| <= max
    {
      var document := adapter.Items()[position];
      if multiple && max > -1 && |checked| >= max && !document.check {
        return Refused("最多选择" + Text.IntToString(max) + "个文件");
      }
      // below the limit, or a checked record at the limit: the same two calls
      var thrown := adapter.Check(position, isDirectory);
      if thrown.Some? {
        return Raised(thrown.value);
      }
      SetCheckedItem(document);
      r := Handled;
    }

    /** show*Document: a fresh back stack, then the view type and the list */
    method ShowDocument(viewType: int, list: Option<seq<M.Media>>)
      modifies this`stack, adapter`viewType, adapter`data
      ensures stack == [] && adapter.viewType == viewType && adapter.data == list
    {
      stack := [];
      adapter.SetViewType(viewType);
      adapter.SetData(list);
    }

    /** The list shown for each menu entry */
    function MenuList(id: int): Option<seq<M.Media>>
      requires 0 <= id <= 3
      reads this`files, this`images, this`videos, this`audios
    {
      [files, images, videos, audios][id]
    }

    /** showPopMenuDocument: menu ids 0 to 3 show files, images, videos and audios; any other id does nothing */
    method ShowPopMenuDocument(id: int)
      modifies this`stack, adapter`viewType, adapter`data
      ensures 0 <= id <= 3 ==> stack == [] && adapter.viewType == MenuViewType(id) && adapter.data == MenuList(id)
      ensures !(0 <= id <= 3) ==> stack == old(stack) && adapter.viewType == old(adapter.viewType) && adapter.data == old(adapter.data)
    {
      if id == MENU_FILES {
        ShowDocument(MA.ITEM_FILE, files);
      }
      if id == MENU_IMAGES {
        ShowDocument(MA.ITEM_IMAGE, images);
      }
      if id == MENU_VIDEOS {
        ShowDocument(MA.ITEM_VIDEO, videos);
      }
      if id == MENU_AUDIOS {
        ShowDocument(MA.ITEM_AUDIO, audios);
      }
    }

    /**
     * The end of onCreate: the file list is shown, the menu entry of the
     * requested type is selected and its list shown. For a type outside the
     * four known ones the menu stays null and reading its name throws.
     */
    method OpenMenu(mediaType: int) returns (r: Option<string>)
      modifies this`popMenu, this`stack, adapter`viewType, adapter`data
      ensures popMenu == InitialMenu(mediaType)
      ensures r.Some? <==> InitialMenu(mediaType).None?
      ensures r.Some? ==>
        && r == Some("NullPointerException")
        && stack == old(stack) && adapter.viewType == old(adapter.viewType) && adapter.data == files
      ensures r.None? ==>
        stack == [] && adapter.viewType == MenuViewType(popMenu.value) && adapter.data == MenuList(popMenu.value)
    {
      adapter.SetData(files);
      popMenu := InitialMenu(mediaType);
      if popMenu.None? {
        return Some("NullPointerException");
      }
      ShowPopMenuDocument(popMenu.value);
      r := None;
    }

    /** onBackPressed: pop one list into the adapter, or leave the screen when the stack is empty */
    method OnBackPressed() returns (finished: bool)
      modifies this`stack, adapter`data
      ensures finished <==> old(stack) == []
      ensures old(stack) != [] ==>
        stack == old(stack)[..|old(stack)| - 1] && adapter.data == old(stack)[|old(stack)| - 1]
      ensures old(stack) == [] ==> stack == [] && adapter.data == old(adapter.data)
    {
      if |stack| > 0 {
        var top := stack[|stack| - 1];
        stack := stack[..|stack| - 1];
        adapter.SetData(top);
        finished := false;
      } else {
        finished := true;
      }
    }

    /**
     * onTextChanged: an empty search text shows the selected menu's list
     * again; any other text replaces the adapter's list with the matching
     * records. Without a selected menu the first case throws.
     */
    method OnTextChanged(s: string) returns (r: Option<string>)
      modifies this`stack, adapter`viewType, adapter`data, adapter.Items()`keywords
      ensures s == [] && popMenu.None? ==> r == Some("NullPointerException")
      ensures s == [] && popMenu.Some? && 0 <= popMenu.value <= 3 ==>
        && r == None && stack == [] && adapter.viewType == MenuViewType(popMenu.value)
        && adapter.data == MenuList(popMenu.value)
      ensures s == [] && !(popMenu.Some? && 0 <= popMenu.value <= 3) ==>
        stack == old(stack) && adapter.viewType == old(adapter.viewType) && adapter.data == old(adapter.data)
      ensures s == [] && popMenu.Some? ==> r == None
      ensures s == [] ==> forall m :: m in old(adapter.Items()) ==> m.keywords == old(m.keywords)
      // a search: the list is replaced by the matches, or stays when a record has no name
      ensures s != [] ==> stack == old(stack) && adapter.viewType == old(adapter.viewType)
      ensures s != [] ==> (r.None? <==> old(MP.AllNamed(adapter.Items())))
      ensures s != [] && r.None? ==> adapter.data == Some(MP.Matches(old(adapter.Items()), s))
      ensures s != [] && r.Some? ==> r == Some("NullPointerException") && adapter.data == old(adapter.data)
      ensures s != [] ==> forall m :: m in old(adapter.Items()) ==>
        m.keywords == if m in old(MP.Matches(adapter.Items()[..MP.FirstUnnamed(adapter.Items())], s)) then Some(s) else old(m.keywords)
    {
      if |s| == 0 {
        if popMenu.None? {
          return Some("NullPointerException");
        }
        ShowPopMenuDocument(popMenu.value);
        r := None;
      } else {
        r := ShowSearch(s);
      }
    }

    /** The non-empty branch of onTextChanged: search the shown list and show the matches */
    method ShowSearch(s: string) returns (r: Option<string>)
      modifies adapter`data, adapter.Items()`keywords
      ensures r.None? <==> old(MP.AllNamed(adapter.Items()))
      ensures r.None? ==> adapter.data == Some(MP.Matches(old(adapter.Items()), s))
      ensures r.Some? ==> r == Some("NullPointerException") && adapter.data == old(adapter.data)
      ensures forall m :: m in old(adapter.Items()) ==>
        m.keywords == if m in old(MP.Matches(adapter.Items()[..MP.FirstUnnamed(adapter.Items())], s)) then Some(s) else old(m.keywords)
    {
      ghost var items := adapter.Items();
      ghost var stop := MP.FirstUnnamed(items);
      ghost var matched := MP.Matches(items[..stop], s);
      var found := MP.Search(adapter.data, s);
      assert MP.FirstUnnamed(items) == stop && MP.Matches(items[..stop], s) == matched;
      if found.Thrown? {
        return Some(found.exception);
      }
      adapter.SetData(Some(found.value));
      r := None;
    }
  }

  /**
   * onCreate reads the lists through `MediaExecutor.getExecutor()`, the static
   * field only `initialize` sets: before that it is null and the first getter
   * throws, so no screen is built.
   */
  method OnCreate(registry: ME.Registry, multiple: bool, max: int) returns (r: Result<Activity>)
    ensures registry.executor == null <==> r == Thrown("NullPointerException")
    ensures registry.executor != null ==>
      && r.Ok? && fresh(r.value) && fresh(r.value.adapter)
      && r.value.adapter.multiple == multiple && r.value.adapter.data == None && r.value.adapter.viewType == MA.ITEM_FILE
      && r.value.multiple == multiple && r.value.max == max
      && r.value.checked == [] && r.value.stack == [] && r.value.popMenu == None
      && r.value.files == registry.executor.files && r.value.images == registry.executor.images
      && r.value.videos == registry.executor.videos && r.value.audios == registry.executor.audios
  {
    if registry.executor == null {
      return Thrown("NullPointerException");
    }
    var a := new Activity(multiple, max, registry.executor);
    r := Ok(a);
  }
}
