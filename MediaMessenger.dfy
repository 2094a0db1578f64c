/**
 * The media messenger: `send` wraps a scan result or a provider result in a
 * message and queues it; `handleMessage` unwraps one message and calls its
 * listener. The looper is a first-in first-out queue of messages.
 */
module MediaMessenger {
  import opened Wrappers
  import M = Media
  import opened MediaResolverCommand

  const STORE := 1
  const MEDIA := 2

  const KEY_REQUEST_CODE := "requestCode"
  const KEY_PATH := "path"

  /** MediaMessageBody: a scan result and the listener it is for */
  datatype Body = Body(mediaType: int, documents: seq<M.Media>, listener: Option<ListenerRef>)

  /** What a message's `obj` holds; a null `obj` is `ListenerObj(None)` */
  datatype Obj = BodyObj(body: Body) | ListenerObj(listener: Option<ListenerRef>)

  /** A Bundle holding ints and strings */
  datatype Bundle = Bundle(ints: map<string, int>, strings: map<string, string>)

  datatype Message = Message(what: int, obj: Obj, data: Bundle)

  /** A listener callback made by the handler */
  datatype Delivery =
    | OnMediaResolver(listener: ListenerRef, mediaType: int, documents: seq<M.Media>)
    | OnMediaProviderResult(listener: ListenerRef, requestCode: int, path: string)

  /** send(type, documents, listener): the scan result in a body, under STORE */
  function StoreMessage(mediaType: int, documents: seq<M.Media>, listener: Option<ListenerRef>): Message {
    Message(STORE, BodyObj(Body(mediaType, documents, listener)), Bundle(map[], map[]))
  }

  /** send(requestCode, file, listener): the listener as the object, code and absolute path in the bundle, under MEDIA */
  function MediaMessage(requestCode: int, path: string, listener: Option<ListenerRef>): Message {
    Message(MEDIA, ListenerObj(listener), Bundle(map[KEY_REQUEST_CODE := requestCode], map[KEY_PATH := path]))
  }

  /**
   * handleMessage: a STORE body calls its listener with its type and list, a
   * MEDIA message calls the listener in `obj` with the bundle's code and
   * path; other codes are ignored. A missing int reads as 0; a missing path
   * makes `new File(null)` throw; a null STORE body throws on its first use;
   * an `obj` of the wrong class fails its cast.
   */
  function HandleMessage(m: Message): (r: Result<seq<Delivery>>)
    ensures r.Ok? ==> |r.value| <= 1
    ensures m.what !in {STORE, MEDIA} ==> r == Ok([])
  {
    if m.what == STORE then
      if m.obj == ListenerObj(None) then Thrown("NullPointerException")
      else if !m.obj.BodyObj? then Thrown("ClassCastException")
      else
        var body := m.obj.body;
        if body.listener.Some? then Ok([OnMediaResolver(body.listener.value, body.mediaType, body.documents)])
        else Ok([])
    else if m.what == MEDIA then
      if !m.obj.ListenerObj? then Thrown("ClassCastException")
      else
        var requestCode := if KEY_REQUEST_CODE in m.data.ints then m.data.ints[KEY_REQUEST_CODE] else 0;
        if m.obj.listener.None? then Ok([])
        else if KEY_PATH !in m.data.strings then Thrown("NullPointerException")
        else Ok([OnMediaProviderResult(m.obj.listener.value, requestCode, m.data.strings[KEY_PATH])])
    else Ok([])
  }

  /** A scan result comes back to its listener unchanged, and only to a listener. */
  lemma StoreRoundTrip(mediaType: int, documents: seq<M.Media>, listener: Option<ListenerRef>)
    ensures HandleMessage(StoreMessage(mediaType, documents, listener)) ==
      Ok(if listener.Some? then [OnMediaResolver(listener.value, mediaType, documents)] else [])
  {
  }

  /** A provider result comes back to its listener with the same code and path, and only to a listener. */
  lemma MediaRoundTrip(requestCode: int, path: string, listener: Option<ListenerRef>)
    ensures HandleMessage(MediaMessage(requestCode, path, listener)) ==
      Ok(if listener.Some? then [OnMediaProviderResult(listener.value, requestCode, path)] else [])
  {
  }

  /** The two message codes differ, so neither kind of message is taken for the other. */
  lemma CodesDistinct(mediaType: int, documents: seq<M.Media>, requestCode: int, path: string, l: Option<ListenerRef>, k: Option<ListenerRef>)
    ensures StoreMessage(mediaType, documents, l).what != MediaMessage(requestCode, path, k).what
    ensures StoreMessage(mediaType, documents, l) != MediaMessage(requestCode, path, k)
  {
  }

  /** The handler's message queue */
  class Messenger {
    var queue: seq<Message>

    constructor ()
      ensures queue == []
    {
      queue := [];
    }

    /** send(type, documents, listener) */
    method SendStore(mediaType: int, documents: seq<M.Media>, listener: Option<ListenerRef>)
      modifies this`queue
      ensures queue == old(queue) + [StoreMessage(mediaType, documents, listener)]
    {
      queue := queue + [StoreMessage(mediaType, documents, listener)];
    }

    /** send(requestCode, file, listener) */
    method SendMedia(requestCode: int, path: string, listener: Option<ListenerRef>)
      modifies this`queue
      ensures queue == old(queue) + [MediaMessage(requestCode, path, listener)]
    {
      queue := queue + [MediaMessage(requestCode, path, listener)];
    }

    /** The looper handing the oldest message to handleMessage; None when the queue is empty */
    method Dispatch() returns (r: Option<Result<seq<Delivery>>>)
      modifies this`queue
      ensures old(queue) == [] ==> r == None && queue == []
      ensures old(queue) != [] ==> r == Some(HandleMessage(old(queue)[0])) && queue == old(queue)[1..]
    {
      if queue == [] {
        r := None;
      } else {
        r := Some(HandleMessage(queue[0]));
        queue := queue[1..];
      }
    }
  }

  /** Messages are handled in the order they were sent. */
  method SendTwiceThenDispatch(m: Messenger, mediaType: int, documents: seq<M.Media>, requestCode: int, path: string, l: ListenerRef)
    returns (first: Option<Result<seq<Delivery>>>, second: Option<Result<seq<Delivery>>>)
    requires m.queue == []
    modifies m
    ensures first == Some(Ok([OnMediaResolver(l, mediaType, documents)]))
    ensures second == Some(Ok([OnMediaProviderResult(l, requestCode, path)]))
    ensures m.queue == []
  {
    m.SendStore(mediaType, documents, Some(l));
    m.SendMedia(requestCode, path, Some(l));
    first := m.Dispatch();
    StoreRoundTrip(mediaType, documents, Some(l));
    second := m.Dispatch();
    MediaRoundTrip(requestCode, path, Some(l));
  }
}
