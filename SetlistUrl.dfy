/** The setlist-id extraction of the command-line tool: a search of the url for
    `/setlist/.+/.*-([0-9a-f]+)\.html`, returning the hexadecimal group or nothing.
    The search is written out as a scan and proved against a declarative description
    of the match Python's regular-expression search reports: the leftmost start, and
    for that start the greedy `.+` and `.*` push the group as far right as it goes. */
module SetlistUrl {
  import opened Wrappers
  import opened Scan

  /** The character class `[0-9a-f]`: lowercase hexadecimal digits only. */
  predicate IsLowerHex(c: char) {
    '0' <= c <= '9' || 'a' <= c <= 'f'
  }

  /** What the pattern's `.` accepts: any character except a line feed. */
  predicate IsDotChar(c: char) {
    c != '\n'
  }

  /** Every character of url[lo..hi] is accepted by `.`. */
  predicate DotRun(url: string, lo: int, hi: int)
    requires 0 <= lo && hi <= |url|
  {
    forall k | lo <= k < hi :: IsDotChar(url[k])
  }

  /** The tail `-([0-9a-f]+)\.html`: '-' at b, lowercase hex digits strictly between b and c,
      and `.html` starting at c. */
  predicate IdSpan(url: string, b: int, c: int) {
    && 0 <= b && b + 1 < c && c + 5 <= |url|
    && url[b] == '-'
    && (forall k | b < k < c :: IsLowerHex(url[k]))
    && url[c .. c + 5] == ".html"
  }

  /** One way the pattern matches: `/setlist/` at s, `.+` over url[s+9..a], '/' at a,
      `.*` over url[a+1..b], then the tail from the '-' at b to the `.html` at c. */
  predicate MatchesAt(url: string, s: int, a: int, b: int, c: int) {
    && 0 <= s && s + 9 < a < b
    && IdSpan(url, b, c)
    && url[s .. s + 9] == "/setlist/"
    && url[a] == '/'
    && DotRun(url, s + 9, a)
    && DotRun(url, a + 1, b)
  }

  /** The positions of one match. `slash` is a '/' that lets the rest match; the group,
      url[dash+1..dot], does not depend on which one. */
  datatype Span = Span(start: nat, slash: nat, dash: nat, dot: nat)

  /** The match the search reports: no match starts earlier, and no match from the same
      start places its '-' further right. */
  ghost predicate IsSearchResult(url: string, m: Span) {
    && MatchesAt(url, m.start, m.slash, m.dash, m.dot)
    && (forall s, a, b, c | s < m.start :: !MatchesAt(url, s, a, b, c))
    && (forall a, b, c | MatchesAt(url, m.start, a, b, c) :: b <= m.dash)
  }

  /** Where the run of hex digits after the '-' at b ends. */
  function HexEnd(url: string, b: nat): nat
    requires b < |url|
  {
    b + 1 + RunLength(url, b + 1, IsLowerHex)
  }

  /** Where the run of `.`-characters starting at i ends: the next line feed, or the end. */
  function LineEnd(url: string, i: nat): nat
    requires i <= |url|
  {
    i + RunLength(url, i, IsDotChar)
  }

  /** A tail starting at b can only end where the hex run after b ends. */
  lemma IdSpanEnd(url: string, b: nat)
    requires b < |url|
    ensures forall c | IdSpan(url, b, c) :: c == HexEnd(url, b)
  {
    forall c | IdSpan(url, b, c) ensures c == HexEnd(url, b) {
      assert url[c .. c + 5][0] == url[c];
      RunLengthUnique(url, b + 1, IsLowerHex, c - b - 1);
    }
  }

  /** The rightmost index in [lo, hi) where a tail starts. */
  function LastIdSpan(url: string, lo: nat, hi: nat): (r: Option<nat>)
    requires hi <= |url|
    ensures r.Some? ==> lo <= r.value < hi && IdSpan(url, r.value, HexEnd(url, r.value))
    ensures r.Some? ==> forall b, c | r.value < b < hi :: !IdSpan(url, b, c)
    ensures r.None? ==> forall b, c | lo <= b < hi :: !IdSpan(url, b, c)
    decreases hi
  {
    if hi <= lo then None
    else if IdSpan(url, hi - 1, HexEnd(url, hi - 1)) then Some(hi - 1)
    else
      IdSpanEnd(url, hi - 1);
      LastIdSpan(url, lo, hi - 1)
  }

  /** Every match from s lies before the first line feed after the `/setlist/` at s. */
  lemma MatchWithinLine(url: string, s: nat)
    requires s + 9 <= |url|
    ensures forall a, b, c | MatchesAt(url, s, a, b, c) :: a < LineEnd(url, s + 9) && b < LineEnd(url, s + 9)
  {
    var e := LineEnd(url, s + 9);
    forall a, b, c | MatchesAt(url, s, a, b, c) ensures a < e && b < e {
      if e < |url| {
        assert !IsDotChar(url[e]);
      }
    }
  }

  /** The match starting at s that the search would report, if there is any. */
  function MatchAtStart(url: string, s: nat): (r: Option<Span>)
    ensures r.Some? ==> r.value.start == s && MatchesAt(url, s, r.value.slash, r.value.dash, r.value.dot)
    ensures r.Some? ==> forall a, b, c | MatchesAt(url, s, a, b, c) :: b <= r.value.dash
    ensures r.None? ==> forall a, b, c :: !MatchesAt(url, s, a, b, c)
  {
    if !HasAt(url, s, "/setlist/") then None
    else
      var e := LineEnd(url, s + 9);
      MatchWithinLine(url, s);
      match FirstIndexOf(url, s + 10, e, '/')
      case None => None
      case Some(a) =>
        match LastIdSpan(url, a + 1, e)
        case None => None
        case Some(b) =>
          IdSpanEnd(url, b);
          Some(Span(s, a, b, HexEnd(url, b)))
  }

  /** The leftmost match starting at or after s. */
  function SearchFrom(url: string, s: nat): (r: Option<Span>)
    requires s <= |url|
    ensures r.Some? ==> s <= r.value.start && MatchesAt(url, r.value.start, r.value.slash, r.value.dash, r.value.dot)
    ensures r.Some? ==> forall s', a, b, c | s <= s' < r.value.start :: !MatchesAt(url, s', a, b, c)
    ensures r.Some? ==> forall a, b, c | MatchesAt(url, r.value.start, a, b, c) :: b <= r.value.dash
    ensures r.None? ==> forall s', a, b, c | s <= s' :: !MatchesAt(url, s', a, b, c)
    decreases |url| - s
  {
    match MatchAtStart(url, s)
    case Some(m) => Some(m)
    case None => if s == |url| then None else SearchFrom(url, s + 1)
  }

  /** `re.search` of the pattern over the whole url. */
  function FindSetlistMatch(url: string): (r: Option<Span>)
    ensures r.Some? ==> IsSearchResult(url, r.value)
    ensures r.None? <==> forall s, a, b, c :: !MatchesAt(url, s, a, b, c)
  {
    SearchFrom(url, 0)
  }

  /** The setlist id of get_setlist_from_url: the search's group, or None for a url of invalid format. */
  function ExtractSetlistId(url: string): (r: Option<string>)
    ensures r.Some? <==> exists s, a, b, c :: MatchesAt(url, s, a, b, c)
    ensures r.Some? ==> r.value != [] && forall k | 0 <= k < |r.value| :: IsLowerHex(r.value[k])
  {
    match FindSetlistMatch(url)
    case None => None
    case Some(m) => Some(url[m.dash + 1 .. m.dot])
  }

  /** The search result is unique: one start, one '-', one `.html`. */
  lemma SearchResultUnique(url: string, m1: Span, m2: Span)
    requires IsSearchResult(url, m1) && IsSearchResult(url, m2)
    ensures m1.start == m2.start && m1.dash == m2.dash && m1.dot == m2.dot
  {
    assert m1.dash <= m2.dash && m2.dash <= m1.dash;
    IdSpanEnd(url, m1.dash);
  }

  /** Whatever the scan returns is the group of the match the search reports. */
  lemma ExtractedIsSearchGroup(url: string)
    requires ExtractSetlistId(url).Some?
    ensures exists m :: IsSearchResult(url, m) && ExtractSetlistId(url).value == url[m.dash + 1 .. m.dot]
  {
    var m := FindSetlistMatch(url).value;
    assert IsSearchResult(url, m);
  }

  /** The group of the match the search reports is what the scan returns. */
  lemma SearchGroupIsExtracted(url: string, m: Span)
    requires IsSearchResult(url, m)
    ensures ExtractSetlistId(url) == Some(url[m.dash + 1 .. m.dot])
  {
    var r := FindSetlistMatch(url);
    assert r.Some?;
    SearchResultUnique(url, m, r.value);
  }

  /** `id` stands in url right after the '-' at b and right before a `.html`. */
  predicate IdAt(url: string, b: int, id: string) {
    IdSpan(url, b, b + 1 + |id|) && url[b + 1 .. b + 1 + |id|] == id
  }

  /** In the url, the returned id sits right after a '-' and right before `.html`. */
  lemma SetlistIdInContext(url: string, id: string)
    requires ExtractSetlistId(url) == Some(id)
    ensures exists b :: IdAt(url, b, id)
  {
    var r := FindSetlistMatch(url);
    assert r.Some? && id == url[r.value.dash + 1 .. r.value.dot];
    var m := r.value;
    assert MatchesAt(url, m.start, m.slash, m.dash, m.dot);
    assert IdSpan(url, m.dash, m.dot);
    assert m.dot == m.dash + 1 + |id|;
    assert IdAt(url, m.dash, id);
  }

  /** On a single line, the greedy `.+` and `.*` make the reported tail the rightmost one:
      no match places its '-' after the reported one. */
  lemma GreedyPicksRightmostTail(url: string, s: int, a: int, b: int, c: int)
    requires forall k | 0 <= k < |url| :: url[k] != '\n'
    requires MatchesAt(url, s, a, b, c)
    ensures FindSetlistMatch(url).Some? && b <= FindSetlistMatch(url).value.dash
  {
    var m := FindSetlistMatch(url).value;
    if m.slash < b {
      assert MatchesAt(url, m.start, m.slash, b, c);
    }
  }

  /** A setlist page url `<prefix>/setlist/<x>/<y>-<id>.html` on one line, with a non-empty
      `x` and a lowercase-hex `id`, yields `id`. */
  lemma ExtractFromSetlistPage(prefix: string, x: string, y: string, id: string)
    requires x != []
    requires forall k | 0 <= k < |prefix| :: prefix[k] != '\n'
    requires forall k | 0 <= k < |x| :: x[k] != '\n'
    requires forall k | 0 <= k < |y| :: y[k] != '\n'
    requires id != [] && forall k | 0 <= k < |id| :: IsLowerHex(id[k])
    ensures ExtractSetlistId(prefix + "/setlist/" + x + "/" + y + "-" + id + ".html") == Some(id)
  {
    var url := prefix + "/setlist/" + x + "/" + y + "-" + id + ".html";
    var s := |prefix|;
    var a := s + 9 + |x|;
    var b := a + 1 + |y|;
    var c := b + 1 + |id|;
    assert url[s .. s + 9] == "/setlist/";
    assert url[a] == '/';
    assert url[b] == '-';
    assert url[b + 1 .. c] == id;
    assert url[c .. c + 5] == ".html";
    assert forall k | 0 <= k < s :: url[k] == prefix[k];
    assert forall k | s + 9 <= k < a :: url[k] == x[k - s - 9];
    assert forall k | a < k < b :: url[k] == y[k - a - 1];
    assert forall k | b < k < c :: url[k] == id[k - b - 1];
    forall k | 0 <= k < |url| ensures url[k] != '\n' {
      if s <= k < s + 9 {
        assert url[k] == url[s .. s + 9][k - s];
      } else if c <= k {
        assert url[k] == url[c .. c + 5][k - c];
      }
    }
    assert MatchesAt(url, s, a, b, c);
    GreedyPicksRightmostTail(url, s, a, b, c);
    var m := FindSetlistMatch(url).value;
    assert m.dash == b;
    IdSpanEnd(url, b);
  }
}
