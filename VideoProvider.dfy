/**
 * The video provider: the result of a video pick or recording activity is
 * copied into the cache and posted to the listener through a handler
 * message; media-store queries select by duration or size; the record
 * intent carries optional limits.
 */
module VideoProvider {
  import opened Wrappers
  import opened Text
  import opened IO
  import opened MediaProviderCommand

  const REQUEST_VIDEO_PICK := 13001
  const REQUEST_RECORD := 13002

  const DIRECTORY_VIDEO_PICK := "VideoPick"
  const DIRECTORY_RECORD := "VideoRecord"

  // ---- the context a provider works in ----

  /**
   * The three ways to build a provider: a provider keeps the one host it was
   * built with. A fragment is represented by the context it reports, which is
   * None once it is detached.
   */
  datatype Provider<C> = Provider(activity: Option<C>, fragment: Option<Option<C>>, context: Option<C>)

  function ForContext<C>(c: C): (p: Provider<C>)
    ensures GetContext(p) == Some(c)
  {
    Provider(None, None, Some(c))
  }

  function ForActivity<C>(a: C): (p: Provider<C>)
    ensures GetContext(p) == Some(a)
  {
    Provider(Some(a), None, None)
  }

  function ForFragment<C>(fragmentContext: Option<C>): (p: Provider<C>)
    ensures GetContext(p) == fragmentContext
  {
    Provider(None, Some(fragmentContext), None)
  }

  /** getContext: the fragment's context if there is a fragment, else the activity, else the context */
  function GetContext<C>(p: Provider<C>): (r: Option<C>)
    ensures p.fragment.None? && p.activity.None? ==> r == p.context
    ensures r.Some? ==> r == p.activity || r == p.context || p.fragment == Some(r)
    ensures p.fragment.Some? ==> r == p.fragment.value
    ensures p.fragment.None? && p.activity.Some? ==> r == p.activity
  {
    if p.fragment.Some? then p.fragment.value
    else if p.activity.Some? then p.activity
    else p.context
  }

  // ---- queries ----

  /** java.util.concurrent.TimeUnit */
  datatype TimeUnit = NANOSECONDS | MICROSECONDS | MILLISECONDS | SECONDS | MINUTES | HOURS | DAYS

  const LONG_MAX := 0x7fff_ffff_ffff_ffff
  const LONG_MIN := -0x8000_0000_0000_0000

  /** Milliseconds per unit, for the units at least a millisecond long */
  function MillisPer(unit: TimeUnit): nat
    requires unit !in {NANOSECONDS, MICROSECONDS}
  {
    match unit
    case MILLISECONDS => 1
    case SECONDS => 1000
    case MINUTES => 60_000
    case HOURS => 3_600_000
    case DAYS => 86_400_000
  }

  /**
   * TimeUnit.MILLISECONDS.convert(d, unit): finer units are divided,
   * truncating; coarser ones multiplied, saturating at the long range.
   */
  function ToMillis(d: int, unit: TimeUnit): (r: int)
    requires LONG_MIN <= d <= LONG_MAX
    ensures LONG_MIN <= r <= LONG_MAX
    ensures unit == MILLISECONDS ==> r == d
  {
    match unit
    case NANOSECONDS => Div(d, 1_000_000)
    case MICROSECONDS => Div(d, 1000)
    case _ =>
      var m := MillisPer(unit);
      if d * m > LONG_MAX then LONG_MAX
      else if d * m < LONG_MIN then LONG_MIN
      else d * m
  }

  /** A conversion that stays in range is exact. */
  lemma ToMillisExact(d: int, unit: TimeUnit)
    requires unit !in {NANOSECONDS, MICROSECONDS}
    requires LONG_MIN <= d * MillisPer(unit) <= LONG_MAX && LONG_MIN <= d <= LONG_MAX
    ensures ToMillis(d, unit) == d * MillisPer(unit)
  {
  }

  const DURATION := "duration"
  const SIZE := "_size"
  const DISPLAY_NAME := "_display_name"
  const SORT_ORDER := DISPLAY_NAME + " ASC"

  /** A media-store query: selection, its arguments, and the sort order */
  datatype Query = Query(selection: string, args: seq<string>, sortOrder: string)

  function Comparison(up: bool): string {
    if up then " >= ?" else " <= ?"
  }

  /** query(context, duration, unit, up): by duration in milliseconds, at least or at most */
  function QueryByDuration(duration: int, unit: TimeUnit, up: bool): Query
    requires LONG_MIN <= duration <= LONG_MAX
  {
    Query(DURATION + Comparison(up), [IntToString(ToMillis(duration, unit))], SORT_ORDER)
  }

  /** query(context, length, up): by size in bytes, at least or at most */
  function QueryBySize(length: int, up: bool): Query {
    Query(SIZE + Comparison(up), [IntToString(length)], SORT_ORDER)
  }

  /**
   * A duration query selects on the duration column, with ">=" exactly when
   * `up`; its one argument reads back as the duration in milliseconds.
   */
  lemma QueryByDurationMeaning(duration: int, unit: TimeUnit, up: bool)
    requires LONG_MIN <= duration <= LONG_MAX
    ensures var q := QueryByDuration(duration, unit, up);
      && StartsWith(q.selection, DURATION)
      && (EndsWith(q.selection, " >= ?") <==> up)
      && |q.args| == 1 && IsDecimal(q.args[0]) && ParseInt(q.args[0]) == ToMillis(duration, unit)
      && q.sortOrder == "_display_name ASC"
  {
    SelectionReadsBack(DURATION, ToMillis(duration, unit), up);
  }

  /** A size query selects on the size column and passes the length through unchanged. */
  lemma QueryBySizeMeaning(length: int, up: bool)
    ensures var q := QueryBySize(length, up);
      && StartsWith(q.selection, SIZE)
      && (EndsWith(q.selection, " >= ?") <==> up)
      && |q.args| == 1 && IsDecimal(q.args[0]) && ParseInt(q.args[0]) == length
  {
    SelectionReadsBack(SIZE, length, up);
  }

  /** A one-column comparison on `n`: the column first, the comparison last, `n` as its argument */
  lemma SelectionReadsBack(column: string, n: int, up: bool)
    ensures var q := Query(column + Comparison(up), [IntToString(n)], SORT_ORDER);
      && StartsWith(q.selection, column)
      && (EndsWith(q.selection, " >= ?") <==> up)
      && |q.args| == 1 && IsDecimal(q.args[0]) && ParseInt(q.args[0]) == n
      && q.sortOrder == "_display_name ASC"
  {
    assert (column + Comparison(up))[..|column|] == column;
    ParseIntOfIntToString(n);
  }

  // ---- the record intent ----

  const ACTION_VIDEO_CAPTURE := "android.media.action.VIDEO_CAPTURE"
  const CATEGORY_DEFAULT := "android.intent.category.DEFAULT"
  const EXTRA_DURATION_LIMIT := "android.intent.extra.durationLimit"
  const EXTRA_SIZE_LIMIT := "android.intent.extra.sizeLimit"
  const EXTRA_VIDEO_QUALITY := "android.intent.extra.videoQuality"

  datatype RecordIntent = RecordIntent(action: string, categories: set<string>, extras: map<string, int>)

  /** buildRecord: each limit only when non-zero, the quality always */
  function BuildRecord(duration: int, size: int, quality: int): (r: RecordIntent)
    ensures r.action == ACTION_VIDEO_CAPTURE && r.categories == {CATEGORY_DEFAULT}
    ensures EXTRA_DURATION_LIMIT in r.extras <==> duration != 0
    ensures EXTRA_SIZE_LIMIT in r.extras <==> size != 0
    ensures EXTRA_VIDEO_QUALITY in r.extras && r.extras[EXTRA_VIDEO_QUALITY] == quality
    ensures duration != 0 ==> r.extras[EXTRA_DURATION_LIMIT] == duration
    ensures size != 0 ==> r.extras[EXTRA_SIZE_LIMIT] == size
    ensures r.extras.Keys <= {EXTRA_DURATION_LIMIT, EXTRA_SIZE_LIMIT, EXTRA_VIDEO_QUALITY}
  {
    var extras := map[];
    var extras := if duration != 0 then extras[EXTRA_DURATION_LIMIT := duration] else extras;
    var extras := if size != 0 then extras[EXTRA_SIZE_LIMIT := size] else extras;
    RecordIntent(ACTION_VIDEO_CAPTURE, {CATEGORY_DEFAULT}, extras[EXTRA_VIDEO_QUALITY := quality])
  }

  // ---- the result task ----

  /** The result task's effects: pick copies only a missing file, record always copies; both send once. */
  function VideoRoute(requestCode: int, resultCode: int, env: Env): seq<Effect> {
    if resultCode != RESULT_OK then []
    else if requestCode == REQUEST_VIDEO_PICK then
      var file := Target(env, DIRECTORY_VIDEO_PICK, env.displayName(env.picked));
      (if env.present(file) then [] else [Copy(env.picked, file)]) + [Send(requestCode, file)]
    else if requestCode == REQUEST_RECORD then
      var file := Target(env, DIRECTORY_RECORD, env.displayName(env.picked));
      [Copy(env.picked, file), Send(requestCode, file)]
    else []
  }

  /** ResultTask.run: two guarded blocks in a row, one per request code */
  method ResultTask(requestCode: int, resultCode: int, env: Env) returns (effects: seq<Effect>)
    ensures effects == VideoRoute(requestCode, resultCode, env)
  {
    effects := [];
    if resultCode == RESULT_OK && requestCode == REQUEST_VIDEO_PICK {
      var file := Target(env, DIRECTORY_VIDEO_PICK, env.displayName(env.picked));
      if !env.present(file) {
        effects := effects + [Copy(env.picked, file)];
      }
      effects := effects + [Send(requestCode, file)];
    }
    if resultCode == RESULT_OK && requestCode == REQUEST_RECORD {
      var file := Target(env, DIRECTORY_RECORD, env.displayName(env.picked));
      effects := effects + [Copy(env.picked, file)];
      effects := effects + [Send(requestCode, file)];
    }
  }

  /**
   * A result that is not OK does nothing; an OK pick copies exactly when the
   * file is missing, an OK recording always copies, and each sends exactly
   * once, last, under its own code, the file it copied to.
   */
  lemma VideoRouteMeaning(requestCode: int, resultCode: int, env: Env)
    ensures resultCode != RESULT_OK ==> VideoRoute(requestCode, resultCode, env) == []
    ensures resultCode == RESULT_OK && requestCode in {REQUEST_VIDEO_PICK, REQUEST_RECORD} ==>
      var e := VideoRoute(requestCode, resultCode, env);
      var dir := if requestCode == REQUEST_VIDEO_PICK then DIRECTORY_VIDEO_PICK else DIRECTORY_RECORD;
      var file := Target(env, dir, env.displayName(env.picked));
      && Sends(e) == 1 && e[|e| - 1] == Send(requestCode, file)
      && (Copy(env.picked, file) in e <==> requestCode == REQUEST_RECORD || !env.present(file))
  {
    if resultCode == RESULT_OK && requestCode == REQUEST_VIDEO_PICK {
      var file := Target(env, DIRECTORY_VIDEO_PICK, env.displayName(env.picked));
      CopyThenSend(if env.present(file) then [] else [Copy(env.picked, file)], requestCode, file);
    } else if resultCode == RESULT_OK && requestCode == REQUEST_RECORD {
      var file := Target(env, DIRECTORY_RECORD, env.displayName(env.picked));
      CopyThenSend([Copy(env.picked, file)], requestCode, file);
    }
  }

  /** Copies followed by one send: a single send, last */
  lemma CopyThenSend(copied: seq<Effect>, code: int, file: string)
    requires forall i :: 0 <= i < |copied| ==> copied[i].Copy?
    ensures var e := copied + [Send(code, file)];
      Sends(e) == 1 && e[|e| - 1] == Send(code, file)
  {
    var e := copied + [Send(code, file)];
    assert e[..|e| - 1] == copied;
    NoSends(copied);
  }

  // ---- the result handler ----

  /** The message sendResult posts: the listener as its object, the code and path in its bundle */
  datatype Message<L> = Message(obj: Option<L>, requestCode: int, path: string)

  /** The listener callback `onVideoProviderResult` */
  datatype Callback<L> = Callback(listener: L, requestCode: int, path: string)

  /** sendResult, with the handler's answer: exactly the code and path sent, and nothing without a listener */
  function SendResult<L>(requestCode: int, path: string, listener: Option<L>): (m: Message<L>)
    ensures HandleMessage(m) == if listener.Some? then Some(Callback(listener.value, requestCode, path)) else None
  {
    Message(listener, requestCode, path)
  }

  /** handleMessage then setResult: the callback, only for a listener */
  function HandleMessage<L>(m: Message<L>): Option<Callback<L>> {
    if m.obj.None? then None else Some(Callback(m.obj.value, m.requestCode, m.path))
  }
}
