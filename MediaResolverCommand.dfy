/**
 * One scan of the media store for a category: the command gathers the
 * records of its type into one list and hands it to its listener. The three
 * store queries are given as their results.
 */
module MediaResolverCommand {
  import opened Wrappers
  import M = Media

  /** MediaResolver's category codes */
  const FILES := 1
  const IMAGE := 2
  const VIDEO := 3
  const AUDIO := 4

  /** An object that receives callbacks, by identity */
  type ListenerRef = nat

  /** What queryImages, queryVideo and queryAudio return for the command's context */
  datatype Queries = Queries(images: seq<M.Media>, videos: seq<M.Media>, audios: seq<M.Media>)

  /** The `onMediaCommand` callback */
  datatype Command = Command(listener: ListenerRef, mediaType: int, documents: seq<M.Media>)

  /** The list `run` builds: one conditional addAll block per category code, in order */
  function Documents(mediaType: int, q: Queries): seq<M.Media> {
    (if mediaType == FILES then q.images + q.videos + q.audios else [])
    + (if mediaType == IMAGE then q.images else [])
    + (if mediaType == VIDEO then q.videos else [])
    + (if mediaType == AUDIO then q.audios else [])
  }

  /**
   * FILES gathers images, then videos, then audios; each single category
   * gathers exactly its own query; any other code gathers nothing.
   */
  lemma DocumentsByType(mediaType: int, q: Queries)
    ensures mediaType == FILES ==> Documents(mediaType, q) == q.images + q.videos + q.audios
    ensures mediaType == IMAGE ==> Documents(mediaType, q) == q.images
    ensures mediaType == VIDEO ==> Documents(mediaType, q) == q.videos
    ensures mediaType == AUDIO ==> Documents(mediaType, q) == q.audios
    ensures mediaType !in {FILES, IMAGE, VIDEO, AUDIO} ==> Documents(mediaType, q) == []
  {
    if mediaType == FILES {
      assert Documents(mediaType, q) == q.images + q.videos + q.audios + [] + [] + [];
    }
  }

  /** run(): the list filled by successive addAll calls, then the callback for a listener */
  method Run(mediaType: int, q: Queries, listener: Option<ListenerRef>) returns (documents: seq<M.Media>, calls: seq<Command>)
    ensures documents == Documents(mediaType, q)
    ensures calls == if listener.Some? then [Command(listener.value, mediaType, documents)] else []
  {
    documents := [];
    if mediaType == FILES {
      documents := documents + q.images;
      documents := documents + q.videos;
      documents := documents + q.audios;
    }
    if mediaType == IMAGE {
      documents := documents + q.images;
    }
    if mediaType == VIDEO {
      documents := documents + q.videos;
    }
    if mediaType == AUDIO {
      documents := documents + q.audios;
    }
    calls := [];
    if listener.Some? {
      calls := calls + [Command(listener.value, mediaType, documents)];
    }
  }
}
