/** The song list of a fetched setlist: the parts of the setlist.fm JSON reply that the
    command-line tool reads, and the nested loop that collects song names from them. */
module SetlistSongs {
  import opened Wrappers

  /** One entry of a set's `song` array; `name` may be missing. */
  datatype Song = Song(name: Option<string>)
  /** One entry of the `set` array; its `song` key may be missing. */
  datatype SetEntry = SetEntry(song: Option<seq<Song>>)
  /** The `sets` object; its `set` key may be missing. */
  datatype Sets = Sets(entries: Option<seq<SetEntry>>)
  /** The `artist` object; its `name` key may be missing. */
  datatype Artist = Artist(name: Option<string>)
  /** The decoded reply body, with the keys the tool reads. */
  datatype SetlistBody = SetlistBody(sets: Option<Sets>, artist: Option<Artist>)

  /** The song names of one set entry, after `s.get("song", [])` and `song.get("name")`. */
  function SlotsOf(entry: SetEntry): (r: seq<Option<string>>)
    ensures entry.song.None? ==> r == []
    ensures entry.song.Some? ==>
      |r| == |entry.song.value| && forall j | 0 <= j < |r| :: r[j] == entry.song.value[j].name
  {
    match entry.song
    case None => []
    case Some(songs) => seq(|songs|, j requires 0 <= j < |songs| => songs[j].name)
  }

  /** The sets the loop walks, after `data.get("sets", {}).get("set", [])`: a missing key
      reads as an empty list. */
  function SetsOf(body: SetlistBody): (r: seq<seq<Option<string>>>)
    ensures body.sets.None? || body.sets.value.entries.None? ==> r == []
    ensures body.sets.Some? && body.sets.value.entries.Some? ==>
      |r| == |body.sets.value.entries.value|
      && forall i | 0 <= i < |r| :: r[i] == SlotsOf(body.sets.value.entries.value[i])
  {
    var entries := if body.sets.Some? && body.sets.value.entries.Some? then body.sets.value.entries.value else [];
    seq(|entries|, i requires 0 <= i < |entries| => SlotsOf(entries[i]))
  }

  /** The truth test `if name:` — a name that is present and not empty. */
  predicate IsPresent(name: Option<string>) {
    name.Some? && name.value != ""
  }

  /** The names the loop keeps from one set, in order. */
  function NamesOf(slots: seq<Option<string>>): seq<string>
  {
    if slots == [] then []
    else NamesOf(slots[..|slots| - 1]) + (if IsPresent(slots[|slots| - 1]) then [slots[|slots| - 1].value] else [])
  }

  /** The names the nested loop appends: every set in order, every song of a set in order. */
  function Flatten(sets: seq<seq<Option<string>>>): seq<string>
  {
    if sets == [] then [] else Flatten(sets[..|sets| - 1]) + NamesOf(sets[|sets| - 1])
  }

  /** The number of song entries over all sets. */
  function EntryCount(sets: seq<seq<Option<string>>>): nat
  {
    if sets == [] then 0 else EntryCount(sets[..|sets| - 1]) + |sets[|sets| - 1]|
  }

  /** The song-collecting loop of get_setlist_from_url. */
  method CollectSongNames(sets: seq<seq<Option<string>>>) returns (songs: seq<string>)
    ensures songs == Flatten(sets)
  {
    songs := [];
    for i := 0 to |sets|
      invariant songs == Flatten(sets[..i])
    {
      var slots := sets[i];
      for j := 0 to |slots|
        invariant songs == Flatten(sets[..i]) + NamesOf(slots[..j])
      {
        var name := slots[j];
        if name.Some? && name.value != "" {
          songs := songs + [name.value];
        }
        assert slots[..j + 1][..j] == slots[..j];
      }
      assert slots[..|slots|] == slots;
      assert sets[..i + 1][..i] == sets[..i];
    }
    assert sets[..|sets|] == sets;
  }

  /** NamesOf distributes over concatenation: songs keep their order. */
  lemma {:induction false} NamesOfAppend(x: seq<Option<string>>, y: seq<Option<string>>)
    ensures NamesOf(x + y) == NamesOf(x) + NamesOf(y)
    decreases |y|
  {
    if y == [] {
      assert x + y == x;
    } else {
      var y' := y[..|y| - 1];
      assert (x + y)[..|x + y| - 1] == x + y';
      NamesOfAppend(x, y');
    }
  }

  /** Flatten distributes over concatenation: sets keep their order. */
  lemma {:induction false} FlattenAppend(x: seq<seq<Option<string>>>, y: seq<seq<Option<string>>>)
    ensures Flatten(x + y) == Flatten(x) + Flatten(y)
    decreases |y|
  {
    if y == [] {
      assert x + y == x;
    } else {
      var y' := y[..|y| - 1];
      assert (x + y)[..|x + y| - 1] == x + y';
      FlattenAppend(x, y');
    }
  }

  /** A set contributes at most one name per entry, and exactly its entries when all are present. */
  lemma {:induction false} NamesOfLength(slots: seq<Option<string>>)
    ensures |NamesOf(slots)| <= |slots|
    ensures (forall j | 0 <= j < |slots| :: IsPresent(slots[j])) ==> |NamesOf(slots)| == |slots|
    decreases |slots|
  {
    if slots != [] {
      NamesOfLength(slots[..|slots| - 1]);
    }
  }

  /** The song list is at most as long as the number of song entries, and exactly that long
      when every entry has a non-empty name. */
  lemma {:induction false} FlattenLength(sets: seq<seq<Option<string>>>)
    ensures |Flatten(sets)| <= EntryCount(sets)
    ensures (forall i, j | 0 <= i < |sets| && 0 <= j < |sets[i]| :: IsPresent(sets[i][j])) ==>
      |Flatten(sets)| == EntryCount(sets)
    decreases |sets|
  {
    if sets != [] {
      var n := |sets| - 1;
      FlattenLength(sets[..n]);
      NamesOfLength(sets[n]);
    }
  }

  /** A name is kept by a set exactly when some entry of it carries that name, non-empty. */
  lemma {:induction false} NamesOfMembers(slots: seq<Option<string>>, x: string)
    ensures x in NamesOf(slots) <==> x != "" && exists j | 0 <= j < |slots| :: slots[j] == Some(x)
    decreases |slots|
  {
    if slots != [] {
      var n := |slots| - 1;
      NamesOfMembers(slots[..n], x);
      if x in NamesOf(slots[..n]) {
        var j :| 0 <= j < n && slots[..n][j] == Some(x);
        assert slots[j] == Some(x);
      }
      if exists j | 0 <= j < |slots| :: slots[j] == Some(x) {
        var j :| 0 <= j < |slots| && slots[j] == Some(x);
        if j < n {
          assert slots[..n][j] == Some(x);
        }
      }
    }
  }

  /** Song j of set i carries the name x. */
  predicate NamedAt(sets: seq<seq<Option<string>>>, i: int, j: int, x: string) {
    0 <= i < |sets| && 0 <= j < |sets[i]| && sets[i][j] == Some(x)
  }

  /** A name is in the song list exactly when some song of some set carries it, non-empty. */
  lemma {:induction false} FlattenMembers(sets: seq<seq<Option<string>>>, x: string)
    ensures x in Flatten(sets) <==> x != "" && exists i, j :: NamedAt(sets, i, j, x)
    decreases |sets|
  {
    if sets != [] {
      var n := |sets| - 1;
      var init := sets[..n];
      FlattenMembers(init, x);
      NamesOfMembers(sets[n], x);
      assert Flatten(sets) == Flatten(init) + NamesOf(sets[n]);
      if x in Flatten(sets) {
        if x in Flatten(init) {
          var i, j :| NamedAt(init, i, j, x);
          assert NamedAt(sets, i, j, x);
        } else {
          var j :| 0 <= j < |sets[n]| && sets[n][j] == Some(x);
          assert NamedAt(sets, n, j, x);
        }
      }
      if x != "" && exists i, j :: NamedAt(sets, i, j, x) {
        var i, j :| NamedAt(sets, i, j, x);
        if i < n {
          assert NamedAt(init, i, j, x);
        } else {
          assert 0 <= j < |sets[n]| && sets[n][j] == Some(x);
        }
      }
    }
  }

  /** No empty name ever reaches the song list. */
  lemma {:induction false} FlattenNamesNonEmpty(sets: seq<seq<Option<string>>>)
    ensures forall k | 0 <= k < |Flatten(sets)| :: Flatten(sets)[k] != ""
  {
    forall k | 0 <= k < |Flatten(sets)| ensures Flatten(sets)[k] != "" {
      FlattenMembers(sets, Flatten(sets)[k]);
    }
  }

  /** A reply without `sets`, or with `sets` but without `set`, has no songs rather than an error. */
  lemma MissingSetsGiveNoSongs(body: SetlistBody)
    requires body.sets.None? || body.sets.value.entries.None?
    ensures Flatten(SetsOf(body)) == []
  {
  }
}
