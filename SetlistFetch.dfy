/** get_setlist_from_url: the url is checked against the setlist-page pattern, the
    setlist.fm reply for its id is read, and the songs and the artist are taken out of it.
    The HTTP request is a parameter: `api` maps a setlist id to the reply the service gives. */
module SetlistFetch {
  import opened Wrappers
  import opened SetlistUrl
  import opened SetlistSongs

  /** What `requests.get` produces: it raises on a transport failure, otherwise it gives a
      status code and a body that `res.json()` decodes, or fails to decode (None). */
  datatype Reply = ConnectionError | Response(status: int, json: Option<SetlistBody>)

  /** Why the function called `exit()`. */
  datatype ExitReason = InvalidSetlistUrl | FetchFailed(status: int)

  /** How a call ends: the process exits (SystemExit, which `except Exception` does not
      catch), an ordinary exception is raised, or the songs and the artist are returned. */
  datatype Fetch = Exited(reason: ExitReason) | Raised | Fetched(songs: seq<string>, artist: string)

  /** The setlist.fm success status. */
  const StatusOk := 200

  /** What get_setlist_from_url does with `url` when the service answers as `api` says. */
  function FetchSetlist(url: string, api: string -> Reply): (f: Fetch)
    ensures f == Exited(InvalidSetlistUrl) <==> ExtractSetlistId(url) == None
    ensures f.Exited? && f.reason.FetchFailed? ==>
      ExtractSetlistId(url).Some? && api(ExtractSetlistId(url).value).Response?
      && f.reason.status != StatusOk
    ensures f.Fetched? ==> ExtractSetlistId(url).Some? && forall k | 0 <= k < |f.songs| :: f.songs[k] != ""
  {
    match ExtractSetlistId(url)
    case None => Exited(InvalidSetlistUrl)
    case Some(id) => FetchFromReply(api(id))
  }

  /** What get_setlist_from_url does once the url has an id and the service has answered with
      `reply`: the status check, the decoding of the body, the songs and the artist. */
  function FetchFromReply(reply: Reply): (f: Fetch)
    ensures f != Exited(InvalidSetlistUrl)
    ensures f.Exited? ==> reply.Response? && f.reason == FetchFailed(reply.status) && reply.status != StatusOk
    ensures f.Fetched? ==> forall k | 0 <= k < |f.songs| :: f.songs[k] != ""
  {
    match reply
    case ConnectionError => Raised
    case Response(status, json) =>
      if status != StatusOk then Exited(FetchFailed(status))
      else
        match json
        case None => Raised
        case Some(body) =>
          if body.artist.None? || body.artist.value.name.None? then Raised
          else
            FlattenNamesNonEmpty(SetsOf(body));
            Fetched(Flatten(SetsOf(body)), body.artist.value.name.value)
  }

  /** A reply the function can take songs and an artist from: status 200, a decodable body,
      and an `artist` object with a `name`. */
  predicate IsUsableReply(reply: Reply)
  {
    reply.Response? && reply.status == StatusOk && reply.json.Some?
    && reply.json.value.artist.Some? && reply.json.value.artist.value.name.Some?
  }

  /** How the call ends once the url has a setlist id, for every reply the service can give:
      any status other than 200 exits, a usable reply gives its flattened songs and its artist
      name, and every other reply raises. */
  lemma FetchSetlistOutcome(url: string, api: string -> Reply, id: string)
    requires ExtractSetlistId(url) == Some(id)
    ensures api(id).Response? && api(id).status != StatusOk ==>
      FetchSetlist(url, api) == Exited(FetchFailed(api(id).status))
    ensures FetchSetlist(url, api).Fetched? <==> IsUsableReply(api(id))
    ensures IsUsableReply(api(id)) ==>
      FetchSetlist(url, api).songs == Flatten(SetsOf(api(id).json.value))
      && FetchSetlist(url, api).artist == api(id).json.value.artist.value.name.value
    ensures FetchSetlist(url, api) == Raised <==>
      api(id).ConnectionError? || (api(id).status == StatusOk && !IsUsableReply(api(id)))
  {
    assert FetchSetlist(url, api) == FetchFromReply(api(id));
  }

  /** get_setlist_from_url, with the song-collecting loop run on the reply. */
  method GetSetlistFromUrl(url: string, api: string -> Reply) returns (f: Fetch)
    ensures f == FetchSetlist(url, api)
  {
    var id := ExtractSetlistId(url);
    if id.None? {
      return Exited(InvalidSetlistUrl);
    }
    var reply := api(id.value);
    if reply.ConnectionError? {
      return Raised;
    }
    if reply.status != StatusOk {
      return Exited(FetchFailed(reply.status));
    }
    if reply.json.None? {
      return Raised;
    }
    var body := reply.json.value;
    var songs := CollectSongNames(SetsOf(body));
    if body.artist.None? || body.artist.value.name.None? {
      return Raised;
    }
    return Fetched(songs, body.artist.value.name.value);
  }
}
