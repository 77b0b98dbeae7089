/** The playlist-id extractor of the Spotify helper: a leftmost, unanchored search for
    `playlist/` followed by a greedy run of ASCII letters and digits, returning that run
    or nothing. The search is written out as a scan and proved against a declarative
    description of the match the regular-expression search reports. */
module SpotifyHelper {
  import opened Wrappers
  import opened Scan

  /** The character class `[a-zA-Z0-9]`. */
  predicate IsAsciiAlnum(c: char) {
    'a' <= c <= 'z' || 'A' <= c <= 'Z' || '0' <= c <= '9'
  }

  /** The pattern can match at index `i`: `playlist/` there, then at least one letter or digit. */
  predicate IdStartsAt(url: string, i: int) {
    HasAt(url, i, "playlist/") && i + 9 < |url| && IsAsciiAlnum(url[i + 9])
  }

  /** The pattern's leftmost match starts at `i` and its group, made maximal by the greedy `+`, is `id`. */
  predicate IsSearchMatch(url: string, i: int, id: string) {
    && IdStartsAt(url, i)
    && (forall k | 0 <= k < i :: !IdStartsAt(url, k))
    && i + 9 + |id| <= |url|
    && url[i + 9 .. i + 9 + |id|] == id
    && (forall k | 0 <= k < |id| :: IsAsciiAlnum(id[k]))
    && (i + 9 + |id| == |url| || !IsAsciiAlnum(url[i + 9 + |id|]))
  }

  /** `id` is what the search reports for `url`. */
  ghost predicate IsPlaylistIdOf(url: string, id: string) {
    exists i :: IsSearchMatch(url, i, id)
  }

  /** The first index at or after `i` where the pattern can match. */
  function FirstIdStart(url: string, i: nat): (r: Option<nat>)
    requires i <= |url|
    ensures r.Some? ==> i <= r.value && IdStartsAt(url, r.value)
    ensures r.Some? ==> forall k | i <= k < r.value :: !IdStartsAt(url, k)
    ensures r.None? ==> forall k | i <= k :: !IdStartsAt(url, k)
    decreases |url| - i
  {
    if i + 9 >= |url| then None
    else if IdStartsAt(url, i) then Some(i)
    else FirstIdStart(url, i + 1)
  }

  /** extract_playlist_id: the id after the first `playlist/` that is followed by a letter or digit. */
  function ExtractPlaylistId(url: string): (r: Option<string>)
    ensures r.None? <==> forall i :: !IdStartsAt(url, i)
    ensures r.Some? ==> IsPlaylistIdOf(url, r.value)
    ensures r.Some? ==> r.value != [] && forall k | 0 <= k < |r.value| :: IsAsciiAlnum(r.value[k])
  {
    match FirstIdStart(url, 0)
    case None => None
    case Some(i) =>
      var id := url[i + 9 .. i + 9 + RunLength(url, i + 9, IsAsciiAlnum)];
      assert IsSearchMatch(url, i, id);
      Some(id)
  }

  /** The search result is unique: one start, one maximal run. */
  lemma SearchMatchUnique(url: string, i: int, x: string, j: int, y: string)
    requires IsSearchMatch(url, i, x) && IsSearchMatch(url, j, y)
    ensures i == j && x == y
  {
    if i == j {
      RunLengthUnique(url, i + 9, IsAsciiAlnum, |x|);
      RunLengthUnique(url, i + 9, IsAsciiAlnum, |y|);
    }
  }

  /** The scan returns exactly the id the declarative search describes. */
  lemma ExtractPlaylistIdIff(url: string, id: string)
    ensures ExtractPlaylistId(url) == Some(id) <==> IsPlaylistIdOf(url, id)
  {
    if IsPlaylistIdOf(url, id) {
      var i :| IsSearchMatch(url, i, id);
      var r := ExtractPlaylistId(url);
      assert r.Some? by { assert IdStartsAt(url, i); }
      var j :| IsSearchMatch(url, j, r.value);
      SearchMatchUnique(url, i, id, j, r.value);
    }
  }

  /** `playlist/<id>` followed by anything that does not continue the id gives `id`. */
  lemma ExtractFromMarker(id: string, rest: string)
    requires id != [] && forall k | 0 <= k < |id| :: IsAsciiAlnum(id[k])
    requires rest == [] || !IsAsciiAlnum(rest[0])
    ensures ExtractPlaylistId("playlist/" + id + rest) == Some(id)
  {
    var url := "playlist/" + id + rest;
    assert url[..9] == "playlist/";
    assert url[9 .. 9 + |id|] == id;
    assert 9 + |id| < |url| ==> url[9 + |id|] == rest[0];
    assert IsSearchMatch(url, 0, id);
    ExtractPlaylistIdIff(url, id);
  }

  /** Shifting a url right by a prefix shifts where the pattern can start. */
  lemma IdStartsAtShift(p: string, u: string, k: int)
    requires 0 <= k
    ensures IdStartsAt(p + u, |p| + k) <==> IdStartsAt(u, k)
  {
    var url := p + u;
    if |p| + k + 9 <= |url| {
      assert url[|p| + k .. |p| + k + 9] == u[k .. k + 9];
    }
    if |p| + k + 9 < |url| {
      assert url[|p| + k + 9] == u[k + 9];
    }
  }

  /** The search is unanchored: a prefix in which the pattern cannot start is skipped over. */
  lemma ExtractIgnoresPrefix(p: string, u: string)
    requires forall k | 0 <= k < |p| :: !IdStartsAt(p + u, k)
    ensures ExtractPlaylistId(p + u) == ExtractPlaylistId(u)
  {
    var url := p + u;
    match ExtractPlaylistId(u)
    case None =>
      forall i ensures !IdStartsAt(url, i) {
        if i >= |p| {
          IdStartsAtShift(p, u, i - |p|);
        }
      }
    case Some(id) =>
      var i :| IsSearchMatch(u, i, id);
      assert 0 <= i by { assert IdStartsAt(u, i); }
      forall k | 0 <= k < |p| + i ensures !IdStartsAt(url, k) {
        if k >= |p| {
          IdStartsAtShift(p, u, k - |p|);
        }
      }
      IdStartsAtShift(p, u, i);
      assert url[|p| + i + 9 .. |p| + i + 9 + |id|] == u[i + 9 .. i + 9 + |id|];
      assert |p| + i + 9 + |id| < |url| ==> url[|p| + i + 9 + |id|] == u[i + 9 + |id|];
      assert IsSearchMatch(url, |p| + i, id);
      ExtractPlaylistIdIff(url, id);
  }

  /** A web link `https://open.spotify.com/playlist/<id>` with an optional query gives `id`. */
  lemma ExtractFromWebLink(id: string, rest: string)
    requires id != [] && forall k | 0 <= k < |id| :: IsAsciiAlnum(id[k])
    requires rest == [] || !IsAsciiAlnum(rest[0])
    ensures ExtractPlaylistId("https://open.spotify.com/playlist/" + id + rest) == Some(id)
  {
    var p := "https://open.spotify.com/";
    var u := "playlist/" + id + rest;
    assert p + u == "https://open.spotify.com/playlist/" + id + rest;
    forall k | 0 <= k < |p| ensures !IdStartsAt(p + u, k) {
      assert (p + u)[k .. k + 9][8] == (p + u)[k + 8];
    }
    ExtractIgnoresPrefix(p, u);
    ExtractFromMarker(id, rest);
  }

  /** Without a `/` there is no `playlist/`, so nothing is extracted. */
  lemma NoSlashNoId(url: string)
    requires forall k | 0 <= k < |url| :: url[k] != '/'
    ensures ExtractPlaylistId(url) == None
  {
    forall i | 0 <= i && i + 9 <= |url| ensures !IdStartsAt(url, i) {
      assert url[i .. i + 9][8] == url[i + 8];
    }
  }

  /** The colon form `spotify:playlist:<id>` of a playlist reference is not recognised. */
  lemma ColonUriNotRecognised(id: string)
    requires forall k | 0 <= k < |id| :: id[k] != '/'
    ensures ExtractPlaylistId("spotify:playlist:" + id) == None
  {
    var url := "spotify:playlist:" + id;
    forall k | 0 <= k < |url| ensures url[k] != '/' {
      if k >= 17 {
        assert url[k] == id[k - 17];
      }
    }
    NoSlashNoId(url);
  }
}
