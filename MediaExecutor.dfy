/**
 * The media executor: it asks the resolver for every category, stores each
 * list the resolver delivers under its category, and forwards the delivery
 * to its own listener. The process-wide instance is created once.
 */
module MediaExecutor {
  import opened Wrappers
  import M = Media
  import opened MediaResolverCommand

  /** The four stored lists; None until the first delivery of that category */
  datatype Lists = Lists(
    files: Option<seq<M.Media>>, videos: Option<seq<M.Media>>,
    images: Option<seq<M.Media>>, audios: Option<seq<M.Media>>)

  /** The categories requested on construction and on refresh, in order */
  const REQUEST_ORDER: seq<int> := [FILES, IMAGE, VIDEO, AUDIO]

  /** The stored lists after a delivery: only the delivered category's list is replaced */
  function Deliver(s: Lists, mediaType: int, documents: seq<M.Media>): Lists {
    if mediaType == FILES then s.(files := Some(documents))
    else if mediaType == VIDEO then s.(videos := Some(documents))
    else if mediaType == IMAGE then s.(images := Some(documents))
    else if mediaType == AUDIO then s.(audios := Some(documents))
    else s
  }

  /** The stored list of a category, None for an unknown code */
  function ListOf(s: Lists, mediaType: int): Option<seq<M.Media>> {
    if mediaType == FILES then s.files
    else if mediaType == VIDEO then s.videos
    else if mediaType == IMAGE then s.images
    else if mediaType == AUDIO then s.audios
    else None
  }

  /**
   * After a delivery the delivered category holds exactly the delivered list
   * and every other category holds what it held; an unknown code changes
   * nothing.
   */
  lemma DeliverReplacesOnlyItsList(s: Lists, mediaType: int, documents: seq<M.Media>, other: int)
    ensures mediaType in {FILES, IMAGE, VIDEO, AUDIO} ==> ListOf(Deliver(s, mediaType, documents), mediaType) == Some(documents)
    ensures other != mediaType ==> ListOf(Deliver(s, mediaType, documents), other) == ListOf(s, other)
    ensures mediaType !in {FILES, IMAGE, VIDEO, AUDIO} ==> Deliver(s, mediaType, documents) == s
  {
  }

  /** A later delivery of a category overwrites an earlier one; nothing is merged. */
  lemma DeliverOverwrites(s: Lists, mediaType: int, first: seq<M.Media>, second: seq<M.Media>)
    ensures Deliver(Deliver(s, mediaType, first), mediaType, second) == Deliver(s, mediaType, second)
  {
  }

  /** Deliveries of different categories may arrive in either order. */
  lemma DeliverCommutes(s: Lists, t: int, u: int, a: seq<M.Media>, b: seq<M.Media>)
    requires t != u
    ensures Deliver(Deliver(s, t, a), u, b) == Deliver(Deliver(s, u, b), t, a)
  {
  }

  /** The `onMediaResolver` callback forwarded to the executor's own listener */
  datatype Forward = Forward(listener: ListenerRef, mediaType: int, documents: seq<M.Media>)

  class Executor {
    var files: Option<seq<M.Media>>
    var videos: Option<seq<M.Media>>
    var images: Option<seq<M.Media>>
    var audios: Option<seq<M.Media>>
    var listener: Option<ListenerRef>
    /** The category codes handed to the resolver's `execute`, oldest first */
    var requested: seq<int>

    function Stored(): Lists
      reads this`files, this`videos, this`images, this`audios
    {
      Lists(files, videos, images, audios)
    }

    /** The constructor requests every category, FILES first. */
    constructor ()
      ensures Stored() == Lists(None, None, None, None)
      ensures listener == None
      ensures requested == REQUEST_ORDER
    {
      files, videos, images, audios := None, None, None, None;
      listener := None;
      requested := [];
      requested := requested + [FILES];
      requested := requested + [IMAGE];
      requested := requested + [VIDEO];
      requested := requested + [AUDIO];
    }

    /** refresh() requests every category again, in the same order. */
    method Refresh()
      modifies this`requested
      ensures requested == old(requested) + REQUEST_ORDER
    {
      requested := requested + [FILES];
      requested := requested + [IMAGE];
      requested := requested + [VIDEO];
      requested := requested + [AUDIO];
    }

    method SetOnMediaResolverListener(l: Option<ListenerRef>)
      modifies this`listener
      ensures listener == l
    {
      listener := l;
    }

    /** onMediaResolver(type, documents): store under the category, then forward to a listener */
    method OnMediaResolver(mediaType: int, documents: seq<M.Media>) returns (forwarded: seq<Forward>)
      modifies this`files, this`videos, this`images, this`audios
      ensures Stored() == Deliver(old(Stored()), mediaType, documents)
      ensures forwarded == if listener.Some? then [Forward(listener.value, mediaType, documents)] else []
    {
      if mediaType == FILES {
        files := Some(documents);
      }
      if mediaType == VIDEO {
        videos := Some(documents);
      }
      if mediaType == IMAGE {
        images := Some(documents);
      }
      if mediaType == AUDIO {
        audios := Some(documents);
      }
      forwarded := [];
      if listener.Some? {
        forwarded := forwarded + [Forward(listener.value, mediaType, documents)];
      }
    }
  }

  /** The class's static `executor` field */
  class Registry {
    var executor: Executor?

    constructor ()
      ensures executor == null
    {
      executor := null;
    }

    /** initialize(context): create the executor on the first call; return the stored one */
    method Initialize() returns (e: Executor)
      modifies this`executor
      ensures old(executor) != null ==> e == old(executor)
      ensures old(executor) == null ==> fresh(e) && e.requested == REQUEST_ORDER
      ensures executor == e
    {
      if executor == null {
        executor := new Executor();
      }
      e := executor;
    }
  }

  /** Every call of initialize after the first returns the first call's instance. */
  method InitializeIsSingleton(r: Registry) returns (first: Executor, second: Executor)
    modifies r`executor
    ensures first == second == r.executor
  {
    first := r.Initialize();
    second := r.Initialize();
  }
}
