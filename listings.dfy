/**
 * The fixtures and results pages: each walks the match list of the API payload in order and
 * keeps one display row for every match whose lower-cased status its predicate accepts.
 */
module Listings {
  import opened Common
  import opened Text

  /** One match of the payload; a field may be absent or null. */
  datatype Match = Match(id: Option<string>, name: Option<string>, matchType: Option<string>,
    venue: Option<string>, date: Option<string>, series: Option<string>, status: Option<string>)

  /** One display row: the match's fields as given, its type upper-cased. */
  datatype Listing = Listing(matchId: Option<string>, name: Option<string>, kind: string,
    venue: Option<string>, date: Option<string>, series: Option<string>, status: Option<string>)

  /** The three pages that filter the match list. */
  datatype Page = Fixtures | Results | RecentResults

  function OrEmpty(v: Option<string>): string { if v.Some? then v.value else "" }

  /** `(m.get("status") or "").lower()`. */
  function StatusOf(m: Match): (s: string)
    ensures |s| == |OrEmpty(m.status)|
    ensures forall i :: 0 <= i < |s| ==> !IsUpper(s[i])
  {
    Lower(OrEmpty(m.status))
  }

  /** The fixtures test: not started, scheduled, empty, or exactly "ns". */
  predicate IsFixture(s: string) {
    Contains(s, "not started") || Contains(s, "scheduled") || s == "" || s == "ns"
  }

  /** The older results test: a finishing word at the start, or "stumps" or "result" anywhere. */
  predicate IsResult(s: string) {
    StartsWith(s, "completed") || StartsWith(s, "won") || StartsWith(s, "finished")
      || Contains(s, "stumps") || Contains(s, "result")
  }

  /** The newer results test: any of the five words anywhere. */
  predicate IsRecentResult(s: string) {
    Contains(s, "won") || Contains(s, "completed") || Contains(s, "finished")
      || Contains(s, "stumps") || Contains(s, "result")
  }

  predicate Accepts(p: Page, s: string) {
    match p
    case Fixtures => IsFixture(s)
    case Results => IsResult(s)
    case RecentResults => IsRecentResult(s)
  }

  /** The row appended for an accepted match. */
  function ListingOf(m: Match): (l: Listing)
    ensures l.matchId == m.id && l.name == m.name && l.venue == m.venue
    ensures l.date == m.date && l.series == m.series && l.status == m.status
    ensures l.kind == Upper(OrEmpty(m.matchType))
    ensures forall i :: 0 <= i < |l.kind| ==> !IsLowerLetter(l.kind[i])
  {
    Listing(m.id, m.name, Upper(OrEmpty(m.matchType)), m.venue, m.date, m.series, m.status)
  }

  /** The rows a page shows for a match list. */
  function Listed(p: Page, ms: seq<Match>): (ls: seq<Listing>)
    ensures |ls| <= |ms|
  {
    if ms == [] then []
    else if Accepts(p, StatusOf(ms[0])) then [ListingOf(ms[0])] + Listed(p, ms[1..])
    else Listed(p, ms[1..])
  }

  /** Listing a concatenation lists each part in turn: the rows keep the input order. */
  lemma {:induction false} ListedAppend(p: Page, ms: seq<Match>, ns: seq<Match>)
    ensures Listed(p, ms + ns) == Listed(p, ms) + Listed(p, ns)
    decreases |ms|
  {
    if ms == [] {
      assert ms + ns == ns;
    } else {
      assert (ms + ns)[1..] == ms[1..] + ns;
      ListedAppend(p, ms[1..], ns);
    }
  }

  /** Every row comes from an accepted match, and every accepted match has its row. */
  lemma {:induction false} ListedExactly(p: Page, ms: seq<Match>)
    ensures forall m :: m in ms && Accepts(p, StatusOf(m)) ==> ListingOf(m) in Listed(p, ms)
    ensures forall l :: l in Listed(p, ms) ==> exists m :: m in ms && Accepts(p, StatusOf(m)) && l == ListingOf(m)
    decreases |ms|
  {
    if ms != [] {
      ListedExactly(p, ms[1..]);
      assert forall m :: m in ms ==> m == ms[0] || m in ms[1..];
    }
  }

  /** A rejected match adds no row. */
  lemma ListedSkipsRejected(p: Page, ms: seq<Match>, m: Match)
    requires !Accepts(p, StatusOf(m))
    ensures Listed(p, ms + [m]) == Listed(p, ms)
  {
    ListedAppend(p, ms, [m]);
    assert Listed(p, [m]) == Listed(p, []);
  }

  /** The loop of one page: walk the matches in order, appending a row for each accepted one. */
  method BuildRows(p: Page, ms: seq<Match>) returns (rows: seq<Listing>)
    ensures rows == Listed(p, ms)
  {
    rows := [];
    for i := 0 to |ms|
      invariant rows == Listed(p, ms[..i])
    {
      var m := ms[i];
      var status := Lower(OrEmpty(m.status));
      ListedAppend(p, ms[..i], [m]);
      assert ms[..i + 1] == ms[..i] + [m];
      if Accepts(p, status) {
        rows := rows + [ListingOf(m)];
      }
    }
    assert ms[..|ms|] == ms;
  }

  /** Lines 10-22 of the fixtures page. */
  method FixtureRows(ms: seq<Match>) returns (rows: seq<Listing>)
    ensures rows == Listed(Fixtures, ms)
  {
    rows := BuildRows(Fixtures, ms);
  }

  /** Lines 10-22 of the older results page. */
  method ResultRows(ms: seq<Match>) returns (rows: seq<Listing>)
    ensures rows == Listed(Results, ms)
  {
    rows := BuildRows(Results, ms);
  }

  /** Lines 8-20 of the newer results page. */
  method RecentResultRows(ms: seq<Match>) returns (rows: seq<Listing>)
    ensures rows == Listed(RecentResults, ms)
  {
    rows := BuildRows(RecentResults, ms);
  }

  // ---------------------------------------------------------------- the predicates

  /** A match without a status, or with an empty one, is always a fixture and never a result. */
  lemma NoStatusIsFixture(m: Match)
    requires OrEmpty(m.status) == ""
    ensures Accepts(Fixtures, StatusOf(m))
    ensures !Accepts(Results, StatusOf(m)) && !Accepts(RecentResults, StatusOf(m))
  {
    EmptyContainsOnlyEmpty("stumps");
    EmptyContainsOnlyEmpty("result");
    EmptyContainsOnlyEmpty("won");
    EmptyContainsOnlyEmpty("completed");
    EmptyContainsOnlyEmpty("finished");
  }

  /** The status test ignores case. */
  lemma StatusIgnoresCase(m: Match, n: Match)
    requires Lower(OrEmpty(m.status)) == Lower(OrEmpty(n.status))
    ensures forall p :: Accepts(p, StatusOf(m)) <==> Accepts(p, StatusOf(n))
  {
  }

  /** "ns" counts only as the whole status: "runs" holds it but is no fixture. */
  lemma NsOnlyExact()
    ensures IsFixture("ns")
    ensures Contains("runs", "ns") && !IsFixture("runs")
  {
    ContainsAt("runs", "ns", 2);
    assert !Contains("runs", "not started") by {
      if Contains("runs", "not started") { ContainsNoLonger("runs", "not started"); }
    }
    assert !Contains("runs", "scheduled") by {
      if Contains("runs", "scheduled") { ContainsNoLonger("runs", "scheduled"); }
    }
  }

  /** Whatever the older results page accepts, the newer one accepts too. */
  lemma RecentAcceptsEveryResult(s: string)
    requires IsResult(s)
    ensures IsRecentResult(s)
  {
    if StartsWith(s, "completed") { ContainsAt(s, "completed", 0); }
    if StartsWith(s, "won") { ContainsAt(s, "won", 0); }
    if StartsWith(s, "finished") { ContainsAt(s, "finished", 0); }
  }

  const WonMidway: string := "india won by 5 runs"

  /** A key holding a character that the status lacks does not occur in it. */
  lemma WonMidwayLacks(key: string, c: char)
    requires c in key && c !in WonMidway
    ensures !Contains(WonMidway, key)
  {
    if Contains(WonMidway, key) { ContainsOnlyChars(WonMidway, key, c); }
  }

  lemma WonMidwayStartsWithNoFinishingWord()
    ensures !StartsWith(WonMidway, "completed") && !StartsWith(WonMidway, "won") && !StartsWith(WonMidway, "finished")
  {
    assert WonMidway[0] == 'i';
  }

  /** A "won" that is not at the start is no result for the older page, though the newer one
      takes it. */
  lemma MidStringWonRejected()
    ensures !IsResult(WonMidway)
    ensures IsRecentResult(WonMidway)
  {
    assert WonMidway[6..9] == "won";
    ContainsAt(WonMidway, "won", 6);
    assert 'p' !in WonMidway && 'l' !in WonMidway;
    WonMidwayLacks("stumps", 'p');
    WonMidwayLacks("result", 'l');
    WonMidwayStartsWithNoFinishingWord();
  }

  /** The rows among `ls` whose status the older results test accepts, in order. */
  function OlderResultsAmong(ls: seq<Listing>): (r: seq<Listing>)
    ensures |r| <= |ls|
  {
    if ls == [] then []
    else if IsResult(Lower(OrEmpty(ls[0].status))) then [ls[0]] + OlderResultsAmong(ls[1..])
    else OlderResultsAmong(ls[1..])
  }

  /** The newer results page lists a superset of the older one, in the same relative order:
      keeping only the rows the older test accepts gives back the older page's rows. */
  lemma {:induction false} RecentListsMore(ms: seq<Match>)
    ensures OlderResultsAmong(Listed(RecentResults, ms)) == Listed(Results, ms)
    ensures forall l :: l in Listed(Results, ms) ==> l in Listed(RecentResults, ms)
    ensures |Listed(Results, ms)| <= |Listed(RecentResults, ms)|
    decreases |ms|
  {
    if ms != [] {
      RecentListsMore(ms[1..]);
      if IsResult(StatusOf(ms[0])) {
        RecentAcceptsEveryResult(StatusOf(ms[0]));
      }
    }
  }
}
