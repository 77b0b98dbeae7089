# setlist_to_spotify — a verified model of its URL parsing and list shaping

`setlist_to_spotify` copies the songs of a concert setlist from setlist.fm into a Spotify
playlist. Around its network calls sits a small layer of string parsing and list shaping.
That layer decides which setlist is fetched, which playlist is targeted, which song titles
are passed on, and what total the batch mode reports. This project models that layer in
Dafny and proves its properties:

- **Playlist id** (`SpotifyHelper`, from `extract_playlist_id`): a leftmost, unanchored
  search for `playlist/` followed by a greedy run of ASCII letters and digits. It is written
  as a scan and proved equal to a declarative description of the regular-expression
  search's result.
- **Setlist id** (`SetlistUrl`, from the pattern `/setlist/.+/.*-([0-9a-f]+)\.html` in
  `get_setlist_from_url`). It is written as a scan and proved against a declarative
  description of the match. The description has the leftmost start and the rightmost `-`
  that the greedy `.+` and `.*` select. The pattern's `.` does not accept a line feed,
  exactly as in Python.
- **Song list** (`SetlistSongs`): the JSON keys the tool reads, with `.get` defaults for
  missing keys. The nested loop that collects non-empty song names is an imperative method,
  proved against a specification function. The lemmas cover order, membership and length.
- **Fetch outcome** (`SetlistFetch`): how `get_setlist_from_url` ends. It can return songs
  and an artist. It can raise an ordinary exception: a connection failure, an undecodable
  body, or a missing artist key. Or it can call `exit()`: on an invalid url or a non-200
  status. `exit()` raises `SystemExit`, which the batch loop's `except Exception` does not
  catch.
- **Batch run** (`BatchRun`): Python's `str.strip()`; the url filter
  `[line.strip() for line in f if line.strip()]`; and the loop that sums what the playlist
  adder reports. `InvalidUrlAbortsRun` proves that one malformed url ends the whole run at
  or before that url. The "skipping" branch is never reached for it.

The network is a parameter. `api` maps a setlist id to the reply setlist.fm gives. Being a
function, it gives the same reply every time the same id is fetched.
`addedAt(i)` is what `add_songs_to_playlist` reports for the url at index `i`. The file is
given as its lines, or `None` when it does not exist.

The code calls `exit()` at cli.py:41 and cli.py:53, and the model follows it.

## Model

| member | source | states |
|---|---|---|
| `SpotifyHelper.FirstIdStart` | spotify_helper.py:16 | the first index at or after `i` where `playlist/` plus a letter or digit starts, with none before it; `None` only when there is no such index at or after `i` |
| `SpotifyHelper.ExtractPlaylistId` | spotify_helper.py:14-17 | `None` exactly when no `playlist/` in the url is followed by an ASCII letter or digit; otherwise a non-empty, all-alphanumeric id that is the leftmost match's maximal run right after `playlist/` (`IsPlaylistIdOf`) |
| `SpotifyHelper.SearchMatchUnique` | spotify_helper.py:16 | the leftmost start and maximal run describe at most one id |
| `SpotifyHelper.ExtractPlaylistIdIff` | spotify_helper.py:16-17 | the function returns `Some(id)` exactly when `id` is the search's group, in both directions |
| `SpotifyHelper.ExtractFromMarker` | spotify_helper.py:16-17 | `playlist/<id>` followed by nothing, or by a non-alphanumeric character, gives `id` |
| `SpotifyHelper.ExtractIgnoresPrefix` | spotify_helper.py:16 | the search is unanchored: a prefix where no match starts is skipped, and the result is that of the rest |
| `SpotifyHelper.ExtractFromWebLink` | spotify_helper.py:15-17 | `https://open.spotify.com/playlist/<id>` with an optional query such as `?si=…` gives `id` |
| `SpotifyHelper.NoSlashNoId` | spotify_helper.py:16-17 | a url without `/` gives `None` |
| `SpotifyHelper.ColonUriNotRecognised` | spotify_helper.py:16-17 | the colon form `spotify:playlist:<id>`, for any `id` without `/`, gives `None` |
| `SetlistUrl.LastIdSpan` | cli.py:38 | the rightmost index in a range where `-`, lowercase hex digits and `.html` follow, with no such tail further right; `None` only when the range has none |
| `SetlistUrl.MatchWithinLine` | cli.py:38 | since `.` does not accept a line feed, every match from a start lies before the first line feed after its `/setlist/` |
| `SetlistUrl.MatchAtStart` | cli.py:38 | a match from start `s` whose `-` is at least as far right as that of every match from `s`; `None` exactly when nothing matches from `s` |
| `SetlistUrl.SearchFrom` | cli.py:38 | the leftmost start at or after `s` that has a match, with its rightmost tail; `None` when no start at or after `s` matches |
| `SetlistUrl.FindSetlistMatch` | cli.py:38 | the result of `re.search`: the leftmost match, and for that start the rightmost `-` (`IsSearchResult`); `None` exactly when nothing matches |
| `SetlistUrl.ExtractSetlistId` | cli.py:38-43 | an id is returned exactly when the url has `/setlist/`, at least one character, a later `/`, then `-`, one or more of `0-9a-f` and `.html`, with no line feed between `/setlist/` and the `-`; a returned id is non-empty and all lowercase hex, so uppercase hex is never accepted |
| `SetlistUrl.SearchResultUnique` | cli.py:38 | the search result's start, `-` and `.html` positions are unique |
| `SetlistUrl.ExtractedIsSearchGroup` | cli.py:38-43 | a returned id is the group of the match the search reports |
| `SetlistUrl.SearchGroupIsExtracted` | cli.py:38-43 | the group of the match the search reports is what is returned |
| `SetlistUrl.SetlistIdInContext` | cli.py:38 | in the url, the returned id comes right after a `-` and right before `.html` |
| `SetlistUrl.GreedyPicksRightmostTail` | cli.py:38 | on a single line, when several `-<hex>.html` tails qualify, no qualifying tail lies to the right of the one reported |
| `SetlistUrl.ExtractFromSetlistPage` | cli.py:38-43 | a one-line page url `<prefix>/setlist/<x>/<y>-<id>.html` with non-empty `x` and lowercase-hex `id` gives `id` |
| `SetlistSongs.SlotsOf` | cli.py:60-61 | `s.get("song", [])`: a missing `song` key gives no songs; otherwise one name slot per song, in order |
| `SetlistSongs.SetsOf` | cli.py:59 | `data.get("sets", {}).get("set", [])`: a missing `sets` or `set` key gives no sets; otherwise one entry per set, in order |
| `SetlistSongs.CollectSongNames` | cli.py:58-63 | the nested loop appends exactly the names given by `Flatten`, sets in order and songs in order |
| `SetlistSongs.NamesOfAppend` | cli.py:60-63 | within a set, kept names keep the songs' order: the filter distributes over concatenation |
| `SetlistSongs.FlattenAppend` | cli.py:58-63 | the song list keeps the sets' order: flattening distributes over concatenation |
| `SetlistSongs.NamesOfLength` | cli.py:60-63 | a set gives at most one name per entry, and exactly one per entry when all are present |
| `SetlistSongs.FlattenLength` | cli.py:58-63 | the song list is at most as long as the total number of song entries, and exactly that long when every name is present and non-empty |
| `SetlistSongs.NamesOfMembers` | cli.py:61-63 | a name is kept from a set exactly when some entry carries it and it is non-empty |
| `SetlistSongs.FlattenMembers` | cli.py:58-63 | a name is in the song list exactly when some song of some set carries it and it is non-empty |
| `SetlistSongs.FlattenNamesNonEmpty` | cli.py:62 | no missing or empty name reaches the song list |
| `SetlistSongs.MissingSetsGiveNoSongs` | cli.py:59 | a reply without `sets`, or without `set`, gives an empty song list rather than an error |
| `SetlistFetch.FetchSetlist` | cli.py:35-69 | the call exits for an invalid format exactly when the url has no setlist id; it exits for a failed fetch only after a reply whose status is not 200; returned songs are all non-empty names |
| `SetlistFetch.FetchFromReply` | cli.py:49-69 | the part after the id: it never gives the invalid-format exit; it exits only as `FetchFailed(status)` for a reply whose status is not 200; returned songs are all non-empty names |
| `SetlistFetch.FetchSetlistOutcome` | cli.py:49-69 | once the url has an id: every reply with a status other than 200 exits with that status; songs are returned exactly when the reply is 200 with a decodable body and an artist name, and they are then the flattened song names of that body with its artist's name; every other reply (connection error, undecodable body, missing artist or name) raises |
| `SetlistFetch.GetSetlistFromUrl` | cli.py:35-69 | the method, with its song-collecting loop, ends as `FetchSetlist` says |
| `BatchRun.Strip` | cli.py:128 | `str.strip()` leaves no whitespace (Python's `isspace` set) at either end |
| `BatchRun.StripAround` | cli.py:128 | stripping `w1 + t + w2`, where `w1` and `w2` are whitespace and `t` has no whitespace at its ends, gives `t` |
| `BatchRun.StripFixesStripped` | cli.py:128 | a line is unchanged by stripping exactly when it has no whitespace at either end; stripping twice is stripping once |
| `BatchRun.StripBlank` | cli.py:128 | a line strips to nothing exactly when it is all whitespace |
| `BatchRun.UrlLines` | cli.py:128 | the urls are at most as many as the lines, and each is non-empty with no whitespace at either end |
| `BatchRun.UrlLinesAreStripped` | cli.py:128 | every url read is its own `strip()` |
| `BatchRun.UrlLinesAppend` | cli.py:128 | the filter keeps file order: it distributes over concatenation of line lists |
| `BatchRun.UrlLinesMembers` | cli.py:128 | a url is read exactly when it is non-empty and some line strips to it |
| `BatchRun.UrlLinesOfCleanFile` | cli.py:128 | a file whose lines are already clean non-blank urls is read unchanged |
| `BatchRun.RunOutcome` | cli.py:133-150 | a run finishes exactly when no url makes the process exit, and its total is the sum of the adder's counts for the setlists that were fetched and had songs; otherwise it aborts at the first url that exits, with the counts of the urls before it |
| `BatchRun.AbortIsFinal` | cli.py:135-141 | once a url has made the process exit, later urls change nothing |
| `BatchRun.InvalidUrlAbortsRun` | cli.py:136-140 | a url with no setlist id makes `exit()` at cli.py:41 end the whole run at or before that url, instead of being skipped by `except Exception` |
| `BatchRun.ProcessUrls` | cli.py:133-150 | the loop over the urls, accumulating `all_added`, ends as the run specification says |
| `BatchRun.ProcessSetlistsFromFile` | cli.py:125-150 | a missing file ends the call; otherwise the stripped non-blank lines are processed in order as the run specification says |

## Left out

- All HTTP traffic: the setlist.fm fetch (cli.py:49) and search (cli.py:78), and the Spotify token, user and playlist calls. The setlist.fm reply is the parameter `api`. What `add_songs_to_playlist` reports is the parameter `addedAt`.
- `add_songs_to_playlist`, `create_spotify_playlist` and `get_auth_url` are imported but not defined in spotify_helper.py. They are not part of this model. The song matching, deduplication and artist similarity they perform are not modelled. An exception raised by the adder is not modelled either.
- Token caching, refresh and interactive authorisation (spotify_helper.py:19-107): clock, token file and OAuth prompt.
- `get_user_playlists` pagination (spotify_helper.py:118-129): a loop over live HTTP responses.
- `get_setlist` (cli.py:71-121) and `main` (cli.py:163-241): interactive prompts, tables and argument dispatch. The single-url path in `main` reuses `get_setlist_from_url`, which is modelled.
- All of app.py: Flask routes, session and redirects.
- Console output: every `print` message.
- Reading the file: its contents are given as lines. Python's universal-newline splitting, which also splits on `\r`, is not modelled.
- JSON values of unexpected types. A list where `sets` should be an object would raise `AttributeError`, which is not modelled. Song names are modelled as strings only: a non-string name such as a number is not modelled, although `if name:` at cli.py:62 would keep a truthy one. The `except (KeyError, IndexError)` at cli.py:64-66 therefore has no path in the model: the `.get` calls never raise on the modelled shape.
- Errors from opening or reading the file other than `FileNotFoundError`, such as `PermissionError`, `IsADirectoryError` or `UnicodeDecodeError`: `except FileNotFoundError` at cli.py:129 does not catch them and they escape `process_setlists_from_file`. The model gives the file as its lines or as missing, so it has no path for them.
- Python's general regular-expression engine: only the two fixed patterns are modelled.
- SetlistUrl.FindSetlistMatch: its `slash` field is the first `/` that lets the rest match. Python's backtracking settles on the last one. The group does not depend on which one is chosen, and the contract says nothing more about `slash`.
- SetlistUrl.ExtractSetlistId: its contract does not state that the id is the search result's group. To keep callers' proofs small, that is proved by `ExtractedIsSearchGroup` and `SearchGroupIsExtracted` instead.
