/** process_setlists_from_file: the file's non-blank lines, stripped, are setlist urls;
    each is fetched in turn, setlists with songs are handed to the playlist adder, and the
    counts it reports are summed. The file is given as its lines (None when it does not
    exist); what the adder reports for the url at index i is `addedAt(i)`. */
module BatchRun {
  import opened Wrappers
  import opened SetlistUrl
  import opened SetlistFetch
  import opened Scan

  /** Python's `str.isspace` for one character: what `str.strip()` removes. */
  predicate IsSpace(c: char) {
    || '\t' <= c <= '\r'
    || '\U{1C}' <= c <= ' '
    || c == '\U{85}' || c == '\U{A0}' || c == '\U{1680}'
    || '\U{2000}' <= c <= '\U{200A}'
    || c == '\U{2028}' || c == '\U{2029}' || c == '\U{202F}' || c == '\U{205F}' || c == '\U{3000}'
  }

  /** Every character of s is whitespace. */
  predicate AllSpace(s: string) {
    forall k | 0 <= k < |s| :: IsSpace(s[k])
  }

  /** Where `rstrip` stops when it may not go below lo: the end of s[lo..hi] once its
      trailing whitespace is dropped. */
  function TrimmedEnd(s: string, lo: nat, hi: nat): (m: nat)
    requires lo <= hi <= |s|
    ensures lo <= m <= hi
    ensures forall k | m <= k < hi :: IsSpace(s[k])
    ensures m == lo || !IsSpace(s[m - 1])
    decreases hi
  {
    if lo < hi && IsSpace(s[hi - 1]) then TrimmedEnd(s, lo, hi - 1) else hi
  }

  /** `s.strip()`: s without its leading and trailing whitespace. */
  function Strip(s: string): (r: string)
    ensures IsStripped(r)
  {
    var i := RunLength(s, 0, IsSpace);
    s[i .. TrimmedEnd(s, i, |s|)]
  }

  /** s has no whitespace at either end. */
  predicate IsStripped(s: string) {
    s == [] || (!IsSpace(s[0]) && !IsSpace(s[|s| - 1]))
  }

  /** Stripping removes exactly the whitespace around a text whose ends are not whitespace. */
  lemma StripAround(w1: string, t: string, w2: string)
    requires AllSpace(w1) && AllSpace(w2)
    requires IsStripped(t)
    requires t == [] ==> w2 == []
    ensures Strip(w1 + t + w2) == t
  {
    var s := w1 + t + w2;
    var p, q := |w1|, |w1| + |t|;
    assert forall k | 0 <= k < p :: s[k] == w1[k];
    assert forall k | p <= k < q :: s[k] == t[k - p];
    assert forall k | q <= k < |s| :: s[k] == w2[k - q];
    RunLengthUnique(s, 0, IsSpace, p);
    var m := TrimmedEnd(s, p, |s|);
    if t != [] {
      assert !IsSpace(s[q - 1]);
    }
    assert m == q;
    assert s[p .. q] == t;
  }

  /** Stripping changes exactly the texts with whitespace at an end; in particular,
      stripping twice is stripping once. */
  lemma StripFixesStripped(s: string)
    ensures Strip(s) == s <==> IsStripped(s)
    ensures Strip(Strip(s)) == Strip(s)
  {
    assert [] + s + [] == s;
    if IsStripped(s) {
      StripAround([], s, []);
    }
    var t := Strip(s);
    assert [] + t + [] == t;
    StripAround([], t, []);
  }

  /** A line strips to nothing exactly when it is all whitespace. */
  lemma StripBlank(s: string)
    ensures Strip(s) == [] <==> AllSpace(s)
  {
    var i := RunLength(s, 0, IsSpace);
    var m := TrimmedEnd(s, i, |s|);
  }

  /** `[line.strip() for line in f if line.strip()]`: the urls of the file, in file order. */
  function UrlLines(lines: seq<string>): (urls: seq<string>)
    ensures |urls| <= |lines|
    ensures forall k | 0 <= k < |urls| :: IsStripped(urls[k]) && urls[k] != ""
  {
    if lines == [] then []
    else
      var url := Strip(lines[0]);
      (if url != "" then [url] else []) + UrlLines(lines[1..])
  }

  /** Every url read is its own `strip()`: nothing is left to strip. */
  lemma UrlLinesAreStripped(lines: seq<string>)
    ensures forall k | 0 <= k < |UrlLines(lines)| :: Strip(UrlLines(lines)[k]) == UrlLines(lines)[k]
  {
    forall k | 0 <= k < |UrlLines(lines)| ensures Strip(UrlLines(lines)[k]) == UrlLines(lines)[k] {
      StripFixesStripped(UrlLines(lines)[k]);
    }
  }

  /** The filter keeps the order of the file: it distributes over concatenation. */
  lemma {:induction false} UrlLinesAppend(a: seq<string>, b: seq<string>)
    ensures UrlLines(a + b) == UrlLines(a) + UrlLines(b)
    decreases |a|
  {
    if a != [] {
      assert (a + b)[1..] == a[1..] + b;
      UrlLinesAppend(a[1..], b);
    } else {
      assert a + b == b;
    }
  }

  /** A url is read exactly when some line of the file strips to it and it is not empty. */
  lemma {:induction false} UrlLinesMembers(lines: seq<string>, url: string)
    ensures url in UrlLines(lines) <==> url != "" && exists i | 0 <= i < |lines| :: Strip(lines[i]) == url
    decreases |lines|
  {
    if lines != [] {
      UrlLinesMembers(lines[1..], url);
      if exists i | 0 <= i < |lines| :: Strip(lines[i]) == url {
        var i :| 0 <= i < |lines| && Strip(lines[i]) == url;
        if i > 0 {
          assert Strip(lines[1..][i - 1]) == url;
        }
      }
      if exists i | 0 <= i < |lines[1..]| :: Strip(lines[1..][i]) == url {
        var i :| 0 <= i < |lines[1..]| && Strip(lines[1..][i]) == url;
        assert Strip(lines[i + 1]) == url;
      }
    }
  }

  /** A file whose lines are already clean urls is read as it is. */
  lemma {:induction false} UrlLinesOfCleanFile(lines: seq<string>)
    requires forall i | 0 <= i < |lines| :: lines[i] != "" && Strip(lines[i]) == lines[i]
    ensures UrlLines(lines) == lines
    decreases |lines|
  {
    if lines != [] {
      UrlLinesOfCleanFile(lines[1..]);
    }
  }

  /** How a batch run ends: the file is missing, a url made the process exit (after `added`
      songs were already reported for the urls before index `at`), or every url was handled
      and `total` songs were reported. */
  datatype BatchOutcome = FileNotFound | Aborted(at: nat, added: nat) | Finished(total: nat)

  /** What processing the urls in order leads to, given how fetching each of them ends
      (`fetched[i]` for the url at index i). */
  function Run(fetched: seq<Fetch>, addedAt: nat -> nat): BatchOutcome
    decreases |fetched|
  {
    if fetched == [] then Finished(0)
    else
      var n := |fetched| - 1;
      match Run(fetched[..n], addedAt)
      case Finished(total) =>
        (match fetched[n]
         case Exited(_) => Aborted(n, total)
         case Raised => Finished(total)
         case Fetched(songs, _) => Finished(if songs == [] then total else total + addedAt(n)))
      case other => other
  }

  /** How fetching each url ends. */
  function FetchAll(urls: seq<string>, api: string -> Reply): (fetched: seq<Fetch>)
    ensures |fetched| == |urls| && forall i | 0 <= i < |urls| :: fetched[i] == FetchSetlist(urls[i], api)
  {
    seq(|urls|, i requires 0 <= i < |urls| => FetchSetlist(urls[i], api))
  }

  /** What the url at index i adds to the total: the adder's count when its setlist was
      fetched and has songs, nothing otherwise. */
  function Credit(fetched: seq<Fetch>, i: nat, addedAt: nat -> nat): nat
    requires i < |fetched|
  {
    if fetched[i].Fetched? && fetched[i].songs != [] then addedAt(i) else 0
  }

  /** The credits of the urls at indices lo up to hi, summed from the front. */
  function CreditSum(fetched: seq<Fetch>, lo: nat, hi: nat, addedAt: nat -> nat): nat
    requires hi <= |fetched|
    decreases hi - lo
  {
    if lo >= hi then 0 else Credit(fetched, lo, addedAt) + CreditSum(fetched, lo + 1, hi, addedAt)
  }

  lemma {:induction false} CreditSumSnoc(fetched: seq<Fetch>, lo: nat, hi: nat, addedAt: nat -> nat)
    requires lo <= hi < |fetched|
    ensures CreditSum(fetched, lo, hi + 1, addedAt) == CreditSum(fetched, lo, hi, addedAt) + Credit(fetched, hi, addedAt)
    decreases hi - lo
  {
    if lo < hi {
      CreditSumSnoc(fetched, lo + 1, hi, addedAt);
    }
  }

  lemma {:induction false} CreditSumPrefix(fetched: seq<Fetch>, n: nat, lo: nat, hi: nat, addedAt: nat -> nat)
    requires hi <= n <= |fetched|
    ensures CreditSum(fetched[..n], lo, hi, addedAt) == CreditSum(fetched, lo, hi, addedAt)
    decreases hi - lo
  {
    if lo < hi {
      CreditSumPrefix(fetched, n, lo + 1, hi, addedAt);
    }
  }

  /** A run finishes exactly when no url makes the process exit, and then its total is the
      sum of the adder's counts for the setlists that were fetched and had songs. Otherwise
      it aborts at the first url that exits, with the counts of the urls before it. */
  lemma {:induction false} RunOutcome(fetched: seq<Fetch>, addedAt: nat -> nat)
    ensures Run(fetched, addedAt).Finished? <==> forall i | 0 <= i < |fetched| :: !fetched[i].Exited?
    ensures Run(fetched, addedAt).Finished? ==> Run(fetched, addedAt).total == CreditSum(fetched, 0, |fetched|, addedAt)
    ensures Run(fetched, addedAt).Aborted? ==>
      var k := Run(fetched, addedAt).at;
      && k < |fetched| && fetched[k].Exited?
      && (forall i | 0 <= i < k :: !fetched[i].Exited?)
      && Run(fetched, addedAt).added == CreditSum(fetched, 0, k, addedAt)
    ensures !Run(fetched, addedAt).FileNotFound?
    decreases |fetched|
  {
    if fetched != [] {
      var n := |fetched| - 1;
      var init := fetched[..n];
      RunOutcome(init, addedAt);
      assert forall i | 0 <= i < n :: init[i] == fetched[i];
      match Run(init, addedAt)
      case Finished(total) =>
        CreditSumPrefix(fetched, n, 0, n, addedAt);
        CreditSumSnoc(fetched, 0, n, addedAt);
      case Aborted(k, added) =>
        CreditSumPrefix(fetched, n, 0, k, addedAt);
    }
  }

  /** Once a prefix of the urls has made the process exit, the later urls change nothing. */
  lemma {:induction false} AbortIsFinal(fetched: seq<Fetch>, n: nat, addedAt: nat -> nat)
    requires n <= |fetched|
    requires Run(fetched[..n], addedAt).Aborted?
    ensures Run(fetched, addedAt) == Run(fetched[..n], addedAt)
    decreases |fetched| - n
  {
    if n < |fetched| {
      var m := |fetched| - 1;
      assert fetched[..m][..n] == fetched[..n];
      AbortIsFinal(fetched[..m], n, addedAt);
    } else {
      assert fetched[..n] == fetched;
    }
  }

  /** A url that does not fit the setlist-page pattern ends the whole run at or before it:
      the urls after it are never processed and no finishing total is reported. */
  lemma InvalidUrlAbortsRun(urls: seq<string>, i: nat, api: string -> Reply, addedAt: nat -> nat)
    requires i < |urls| && ExtractSetlistId(urls[i]) == None
    ensures Run(FetchAll(urls, api), addedAt).Aborted? && Run(FetchAll(urls, api), addedAt).at <= i
  {
    var fetched := FetchAll(urls, api);
    assert fetched[i].Exited?;
    RunOutcome(fetched, addedAt);
  }

  /** One more url: how the run over the first i+1 urls follows from the run over the first i. */
  lemma RunStep(fetched: seq<Fetch>, i: nat, addedAt: nat -> nat)
    requires i < |fetched|
    ensures Run(fetched[..i + 1], addedAt) ==
      match Run(fetched[..i], addedAt)
      case Finished(total) =>
        (match fetched[i]
         case Exited(_) => Aborted(i, total)
         case Raised => Finished(total)
         case Fetched(songs, _) => Finished(if songs == [] then total else total + addedAt(i)))
      case other => other
  {
    assert fetched[..i + 1][..i] == fetched[..i];
  }

  /** The loop of process_setlists_from_file over the urls read from the file. */
  method ProcessUrls(urls: seq<string>, api: string -> Reply, addedAt: nat -> nat) returns (outcome: BatchOutcome)
    ensures outcome == Run(FetchAll(urls, api), addedAt)
  {
    ghost var fetched := FetchAll(urls, api);
    var allAdded: nat := 0;
    for i := 0 to |urls|
      invariant Run(fetched[..i], addedAt) == Finished(allAdded)
    {
      var f := GetSetlistFromUrl(urls[i], api);
      RunStep(fetched, i, addedAt);
      if f.Exited? {
        AbortIsFinal(fetched, i + 1, addedAt);
        return Aborted(i, allAdded);
      }
      if f.Fetched? && f.songs != [] {
        allAdded := allAdded + addedAt(i);
      }
    }
    assert fetched[..|urls|] == fetched;
    return Finished(allAdded);
  }

  /** process_setlists_from_file: a missing file ends the call; otherwise its urls are processed. */
  method ProcessSetlistsFromFile(file: Option<seq<string>>, api: string -> Reply, addedAt: nat -> nat)
    returns (outcome: BatchOutcome)
    ensures file.None? ==> outcome == FileNotFound
    ensures file.Some? ==> outcome == Run(FetchAll(UrlLines(file.value), api), addedAt)
  {
    if file.None? {
      return FileNotFound;
    }
    var urls := UrlLines(file.value);
    outcome := ProcessUrls(urls, api, addedAt);
  }
}
