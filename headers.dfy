/**
 * Column-header normalisation of the newer analytics page (`_normalize_cols`),
 * the strip-and-lower cleanup of the older page, and the list of expected
 * columns a header row lacks.
 */
module Headers {
  import opened Text

  /** `\w`, read as ASCII: letters, digits and the underscore. */
  predicate IsWordChar(c: char) {
    'a' <= c <= 'z' || 'A' <= c <= 'Z' || '0' <= c <= '9' || c == '_'
  }

  /** The class `[\s\-–—]`: whitespace, hyphen-minus, en dash and em dash. */
  predicate IsSeparator(c: char) {
    IsSpace(c) || c == '-' || c == '\U{2013}' || c == '\U{2014}'
  }

  /** A character a normalised header is made of: small letter, digit or underscore. */
  predicate IsCanonicalChar(c: char) {
    'a' <= c <= 'z' || '0' <= c <= '9' || c == '_'
  }

  predicate IsCanonical(h: string) {
    forall i :: 0 <= i < |h| ==> IsCanonicalChar(h[i])
  }

  /** The rest of a separator run: `s` without its leading separators. */
  function SkipSeparators(s: string): (r: string)
    ensures |r| <= |s| && r == s[|s| - |r|..]
    ensures r == [] || !IsSeparator(r[0])
  {
    if s != [] && IsSeparator(s[0]) then SkipSeparators(s[1..]) else s
  }

  /** `re.sub(r"[\s\-–—]+", "_", s)`: each maximal run of separators becomes one underscore. */
  function CollapseSeparators(s: string): (r: string)
    ensures |r| <= |s|
    ensures forall i :: 0 <= i < |r| ==> !IsSeparator(r[i])
    decreases |s|
  {
    if s == [] then []
    else if IsSeparator(s[0]) then "_" + CollapseSeparators(SkipSeparators(s[1..]))
    else [s[0]] + CollapseSeparators(s[1..])
  }

  /** `re.sub(r"[^\w_]", "", s)`: every character that is not a word character is dropped. */
  function KeepWordChars(s: string): (r: string)
    ensures |r| <= |s|
    ensures forall i :: 0 <= i < |r| ==> IsWordChar(r[i])
  {
    if s == [] then []
    else if IsWordChar(s[0]) then [s[0]] + KeepWordChars(s[1..])
    else KeepWordChars(s[1..])
  }

  /** The four string steps of `_normalize_cols`: strip, collapse separators, drop non-word
      characters, lower-case. */
  function CleanHeader(h: string): (r: string)
    ensures IsCanonical(r)
  {
    Lower(KeepWordChars(CollapseSeparators(Strip(h))))
  }

  /** `rename_map` of `_normalize_cols`. */
  const RenameMap: map<string, string> := map[
    "matchid" := "match_id",
    "match_id" := "match_id",
    "innings" := "innings",
    "over" := "over",
    "ball" := "ball",
    "battingstyle" := "batting_style",
    "batsman" := "batsman",
    "nonstriker" := "non_striker",
    "bowler" := "bowler",
    "bowlingaction" := "bowling_action",
    "bowlertype" := "bowler_type",
    "batsmanruns" := "batsman_runs",
    "dismissalkind" := "dismissal_kind",
    "balltype" := "ball_type",
    "extraruns" := "extra_runs",
    "feetname" := "feet_name",
    "shotname" := "shot_name",
    "deliveryname" := "delivery_name",
    "connectionname" := "connection_name",
    "totalruns" := "total_runs",
    "battingteam" := "batting_team",
    "bowlingteam" := "bowling_team",
    "playerdismissed" := "player_dismissed",
    "year" := "year",
    "tournament" := "tournament",
    "venue" := "venue",
    "date" := "date"
  ]

  /** `DataFrame.rename(columns=rename_map)` on one label: keys are replaced, other labels kept. */
  function Rename(h: string): string {
    if h in RenameMap then RenameMap[h] else h
  }

  /** The header `_normalize_cols` gives a column. */
  function NormalizeHeader(h: string): string {
    Rename(CleanHeader(h))
  }

  /** `_normalize_cols` on the header row: one new header per column, in the same order; the
      rows of the frame are not part of its input and so are left as they are. */
  function NormalizeColumns(cols: seq<string>): (r: seq<string>)
    ensures |r| == |cols|
    ensures forall i :: 0 <= i < |r| ==> r[i] == NormalizeHeader(cols[i])
  {
    seq(|cols|, i requires 0 <= i < |cols| => NormalizeHeader(cols[i]))
  }

  /** Every normalised header is made of small letters, digits and underscores only. */
  lemma NormalizedIsCanonical(h: string)
    ensures IsCanonical(NormalizeHeader(h))
  {
    RenameValuesCanonical();
  }

  /** Every value of the rename table is already canonical and is renamed to itself: each is
      either a key that maps to itself or not a key at all. */
  lemma RenameValuesSettled()
    ensures forall k :: k in RenameMap ==> IsCanonical(RenameMap[k]) && Rename(RenameMap[k]) == RenameMap[k]
  {
    RenameValuesCanonical();
  }

  lemma RenameValuesCanonical()
    ensures forall k :: k in RenameMap ==> IsCanonical(RenameMap[k])
  {
    CanonicalValuesA();
    CanonicalValuesB();
    CanonicalValuesC();
  }

  lemma CanonicalValuesA()
    ensures IsCanonical("match_id") && IsCanonical("innings") && IsCanonical("over") && IsCanonical("ball")
    ensures IsCanonical("batting_style") && IsCanonical("batsman") && IsCanonical("non_striker")
    ensures IsCanonical("bowler") && IsCanonical("bowling_action")
  {
  }

  lemma CanonicalValuesB()
    ensures IsCanonical("bowler_type") && IsCanonical("batsman_runs") && IsCanonical("dismissal_kind")
    ensures IsCanonical("ball_type") && IsCanonical("extra_runs") && IsCanonical("feet_name")
    ensures IsCanonical("shot_name") && IsCanonical("delivery_name") && IsCanonical("connection_name")
  {
  }

  lemma CanonicalValuesC()
    ensures IsCanonical("total_runs") && IsCanonical("batting_team") && IsCanonical("bowling_team")
    ensures IsCanonical("player_dismissed") && IsCanonical("year") && IsCanonical("tournament")
    ensures IsCanonical("venue") && IsCanonical("date")
  {
  }

  lemma {:induction false} CollapseKeepsSeparatorFree(s: string)
    requires forall i :: 0 <= i < |s| ==> !IsSeparator(s[i])
    ensures CollapseSeparators(s) == s
    decreases |s|
  {
    if s != [] {
      CollapseKeepsSeparatorFree(s[1..]);
    }
  }

  lemma {:induction false} KeepWordCharsKeepsWords(s: string)
    requires forall i :: 0 <= i < |s| ==> IsWordChar(s[i])
    ensures KeepWordChars(s) == s
    decreases |s|
  {
    if s != [] {
      KeepWordCharsKeepsWords(s[1..]);
    }
  }

  /** A canonical header passes through the four string steps unchanged. */
  lemma {:induction false} CleanKeepsCanonical(h: string)
    requires IsCanonical(h)
    ensures CleanHeader(h) == h
  {
    forall i | 0 <= i < |h|
      ensures !IsSpace(h[i]) && !IsSeparator(h[i]) && IsWordChar(h[i]) && !IsUpper(h[i])
    {
      CanonicalCharIsPlain(h[i]);
    }
    calc {
      CleanHeader(h);
      Lower(KeepWordChars(CollapseSeparators(Strip(h))));
      { StripUnpadded(h); }
      Lower(KeepWordChars(CollapseSeparators(h)));
      { CollapseKeepsSeparatorFree(h); }
      Lower(KeepWordChars(h));
      { KeepWordCharsKeepsWords(h); }
      Lower(h);
      { LowerNoCapitals(h); }
      h;
    }
  }

  /** A small letter, digit or underscore is a word character and neither whitespace, a separator
      nor a capital. */
  lemma CanonicalCharIsPlain(c: char)
    requires IsCanonicalChar(c)
    ensures !IsSpace(c) && !IsSeparator(c) && IsWordChar(c) && !IsUpper(c)
  {
  }

  /** Normalising a normalised header changes nothing. */
  lemma NormalizeHeaderIdempotent(h: string)
    ensures NormalizeHeader(NormalizeHeader(h)) == NormalizeHeader(h)
  {
    var v := NormalizeHeader(h);
    RenameValuesSettled();
    NormalizedIsCanonical(h);
    CleanKeepsCanonical(v);
    if CleanHeader(h) !in RenameMap {
      assert v == CleanHeader(h);
    }
  }

  /** `_normalize_cols` applied twice equals `_normalize_cols` applied once. */
  lemma NormalizeColumnsIdempotent(cols: seq<string>)
    ensures NormalizeColumns(NormalizeColumns(cols)) == NormalizeColumns(cols)
  {
    forall i | 0 <= i < |cols| {
      NormalizeHeaderIdempotent(cols[i]);
    }
  }

  /** A separator-free prefix passes through the collapse untouched. */
  lemma {:induction false} CollapseAfterPlain(a: string, t: string)
    requires forall i :: 0 <= i < |a| ==> !IsSeparator(a[i])
    ensures CollapseSeparators(a + t) == a + CollapseSeparators(t)
    decreases |a|
  {
    if a != [] {
      var s := a + t;
      assert s[0] == a[0] && s[1..] == a[1..] + t;
      CollapsePlainStep(s);
      assert forall i :: 0 <= i < |a[1..]| ==> !IsSeparator(a[1..][i]);
      CollapseAfterPlain(a[1..], t);
      assert [a[0]] + (a[1..] + CollapseSeparators(t)) == a + CollapseSeparators(t);
    } else {
      assert a + t == t;
    }
  }

  /** A leading non-separator is copied. */
  lemma {:induction false} CollapsePlainStep(s: string)
    requires s != [] && !IsSeparator(s[0])
    ensures CollapseSeparators(s) == [s[0]] + CollapseSeparators(s[1..])
  {
  }

  lemma {:induction false} SkipRun(r: string, t: string)
    requires forall i :: 0 <= i < |r| ==> IsSeparator(r[i])
    requires t == [] || !IsSeparator(t[0])
    ensures SkipSeparators(r + t) == t
    decreases |r|
  {
    if r != [] {
      assert (r + t)[1..] == r[1..] + t;
      SkipRun(r[1..], t);
    }
  }

  /** A non-empty run of separators before a non-separator becomes exactly one underscore. */
  lemma {:induction false} CollapseRun(r: string, t: string)
    requires r != [] && forall i :: 0 <= i < |r| ==> IsSeparator(r[i])
    requires t == [] || !IsSeparator(t[0])
    ensures CollapseSeparators(r + t) == "_" + CollapseSeparators(t)
  {
    assert (r + t)[0] == r[0];
    assert forall i :: 0 <= i < |r[1..]| ==> IsSeparator(r[1..][i]);
    calc {
      CollapseSeparators(r + t);
      { CollapseSeparatorStep(r + t); }
      "_" + CollapseSeparators(SkipSeparators((r + t)[1..]));
      { assert (r + t)[1..] == r[1..] + t; SkipRun(r[1..], t); }
      "_" + CollapseSeparators(t);
    }
  }

  /** A leading separator starts a run that becomes one underscore. */
  lemma {:induction false} CollapseSeparatorStep(s: string)
    requires s != [] && IsSeparator(s[0])
    ensures CollapseSeparators(s) == "_" + CollapseSeparators(SkipSeparators(s[1..]))
  {
  }

  lemma {:induction false} KeepWordCharsAppend(a: string, b: string)
    ensures KeepWordChars(a + b) == KeepWordChars(a) + KeepWordChars(b)
    decreases |a|
  {
    if a != [] {
      assert (a + b)[0] == a[0] && (a + b)[1..] == a[1..] + b;
      KeepWordCharsAppend(a[1..], b);
      if IsWordChar(a[0]) {
        assert [a[0]] + (KeepWordChars(a[1..]) + KeepWordChars(b))
            == ([a[0]] + KeepWordChars(a[1..])) + KeepWordChars(b);
      }
    } else {
      assert a + b == b;
    }
  }

  lemma ConcatAssociative(a: string, b: string, c: string)
    ensures a + b + c == a + (b + c)
  {
  }

  /** A header that neither starts nor ends with whitespace is left alone by `strip()`. */
  lemma StripKeepsTrimmed(h: string)
    requires h != [] && !IsSpace(h[0]) && !IsSpace(h[|h| - 1])
    ensures Strip(h) == h
  {
    assert TrimStart(h) == h;
  }

  lemma {:induction false} CollapseTwoWords(u: string, sep: string, v: string)
    requires forall i :: 0 <= i < |u| ==> IsWordChar(u[i])
    requires v != [] && forall i :: 0 <= i < |v| ==> IsWordChar(v[i])
    requires sep != [] && forall i :: 0 <= i < |sep| ==> IsSeparator(sep[i])
    ensures CollapseSeparators(u + sep + v) == u + "_" + v
  {
    var w := sep + v;
    ConcatAssociative(u, sep, v);
    assert forall i :: 0 <= i < |u| ==> !IsSeparator(u[i]);
    assert forall i :: 0 <= i < |v| ==> !IsSeparator(v[i]);
    CollapseAfterPlain(u, w);
    CollapseRun(sep, v);
    CollapseKeepsSeparatorFree(v);
    calc {
      CollapseSeparators(u + sep + v);
      CollapseSeparators(u + w);
      u + CollapseSeparators(w);
      u + ("_" + v);
      { ConcatAssociative(u, "_", v); }
      u + "_" + v;
    }
  }

  /** A header of two words joined by one separator run: the words are kept, the run becomes `_`. */
  lemma {:induction false} CleanTwoWords(u: string, sep: string, v: string)
    requires u != [] && forall i :: 0 <= i < |u| ==> IsWordChar(u[i])
    requires v != [] && forall i :: 0 <= i < |v| ==> IsWordChar(v[i])
    requires sep != [] && forall i :: 0 <= i < |sep| ==> IsSeparator(sep[i])
    ensures CleanHeader(u + sep + v) == Lower(u + "_" + v)
  {
    var h := u + sep + v;
    assert h[0] == u[0] && h[|h| - 1] == v[|v| - 1];
    StripKeepsTrimmed(h);
    CollapseTwoWords(u, sep, v);
    KeepWordCharsKeepsWords(u + "_" + v);
  }

  /** A header made of word characters only loses nothing but its capitals. */
  lemma CleanOneWord(h: string)
    requires h != [] && forall i :: 0 <= i < |h| ==> IsWordChar(h[i])
    ensures CleanHeader(h) == Lower(h)
  {
    StripKeepsTrimmed(h);
    CollapseKeepsSeparatorFree(h);
    KeepWordCharsKeepsWords(h);
  }

  /** Normalising passes the cleaned header to the rename table. */
  lemma NormalizeVia(h: string, c: string)
    requires CleanHeader(h) == c
    ensures NormalizeHeader(h) == Rename(c)
  {
  }

  /** `CleanTwoWords` for a header given whole, with the lower-cased result named. */
  lemma {:induction false} CleanTwoWordsIs(h: string, u: string, sep: string, v: string, c: string)
    requires h == u + sep + v
    requires u != [] && forall i :: 0 <= i < |u| ==> IsWordChar(u[i])
    requires v != [] && forall i :: 0 <= i < |v| ==> IsWordChar(v[i])
    requires sep != [] && forall i :: 0 <= i < |sep| ==> IsSeparator(sep[i])
    requires Lower(u + "_" + v) == c
    ensures CleanHeader(h) == c
  {
    CleanTwoWords(u, sep, v);
  }

  lemma CleanMatchSpaceId()
    ensures CleanHeader("Match ID") == "match_id"
  {
    LowerMatchId();
    JoinedMatchSpaceId();
    CleanTwoWordsIs("Match ID", "Match", " ", "ID", "match_id");
  }

  lemma JoinedMatchSpaceId()
    ensures "Match ID" == "Match" + " " + "ID"
  {
  }

  lemma LowerMatchId()
    ensures Lower("Match" + "_" + "ID") == "match_id"
  {
    assert "Match" + "_" + "ID" == "Match_ID";
  }

  lemma CleanMatchDashId()
    ensures CleanHeader("match-id") == "match_id"
  {
    LowerMatchIdSmall();
    JoinedMatchDashId();
    CleanTwoWordsIs("match-id", "match", "-", "id", "match_id");
  }

  lemma JoinedMatchDashId()
    ensures "match-id" == "match" + "-" + "id"
  {
  }

  lemma LowerMatchIdSmall()
    ensures Lower("match" + "_" + "id") == "match_id"
  {
    assert "match" + "_" + "id" == "match_id";
  }

  lemma CleanMatchSpaceIdSmall()
    ensures CleanHeader("match id") == "match_id"
  {
    LowerMatchIdSmall();
    JoinedMatchSpaceIdSmall();
    CleanTwoWordsIs("match id", "match", " ", "id", "match_id");
  }

  lemma JoinedMatchSpaceIdSmall()
    ensures "match id" == "match" + " " + "id"
  {
  }

  lemma KeepWordCharsDotted()
    ensures KeepWordChars("Match.ID") == "MatchID"
  {
    KeepWordCharsAppend("Match", ".ID");
    KeepWordCharsSkipsDot();
    KeepWordCharsKeepsWords("Match");
    assert "Match" + ".ID" == "Match.ID";
    assert "Match" + "ID" == "MatchID";
  }

  lemma KeepWordCharsSkipsDot()
    ensures KeepWordChars(".ID") == "ID"
  {
    KeepWordCharsKeepsWords("ID");
    assert ".ID"[1..] == "ID";
  }

  lemma CleanDotted()
    ensures CleanHeader("Match.ID") == "matchid"
  {
    StripKeepsTrimmed("Match.ID");
    CollapseDotted();
    KeepWordCharsDotted();
    LowerMatchID();
  }

  lemma CollapseDotted()
    ensures CollapseSeparators("Match.ID") == "Match.ID"
  {
    CollapseKeepsSeparatorFree("Match.ID");
  }

  lemma LowerMatchID()
    ensures Lower("MatchID") == "matchid"
  {
  }

  lemma CleanCamel()
    ensures CleanHeader("MatchId") == "matchid"
  {
    CleanOneWord("MatchId");
    LowerCamel();
  }

  lemma LowerCamel()
    ensures Lower("MatchId") == "matchid"
  {
  }

  lemma MatchIdRenames()
    ensures Rename("match_id") == "match_id" && Rename("matchid") == "match_id"
  {
  }

  /** The spellings named in the doc comment of `_normalize_cols` all become `match_id`, and so do
      a dotted and a camel-case one, through the rename table. */
  lemma MatchIdSpellings()
    ensures NormalizeHeader("Match ID") == "match_id"
    ensures NormalizeHeader("match-id") == "match_id"
    ensures NormalizeHeader("match id") == "match_id"
    ensures NormalizeHeader("Match.ID") == "match_id"
    ensures NormalizeHeader("MatchId") == "match_id"
  {
    CleanMatchSpaceId();
    CleanMatchDashId();
    CleanMatchSpaceIdSmall();
    CleanDotted();
    CleanCamel();
    MatchIdRenames();
    NormalizeVia("Match ID", "match_id");
    NormalizeVia("match-id", "match_id");
    NormalizeVia("match id", "match_id");
    NormalizeVia("Match.ID", "matchid");
    NormalizeVia("MatchId", "matchid");
  }

  /** The older page's cleanup, `c.strip().lower()`. */
  function LegacyHeader(h: string): (r: string)
    ensures |r| <= |h|
    ensures forall i :: 0 <= i < |r| ==> !IsUpper(r[i])
  {
    Lower(Strip(h))
  }

  lemma LegacyMatchId()
    ensures LegacyHeader("Match ID") == "match id"
  {
    StripKeepsTrimmed("Match ID");
    LowerMatchSpaceId();
  }

  lemma LowerMatchSpaceId()
    ensures Lower("Match ID") == "match id"
  {
  }

  /** The older cleanup keeps inner spaces, so it does not reach the canonical name. */
  lemma LegacyKeepsInnerSpace()
    ensures LegacyHeader("Match ID") == "match id"
    ensures LegacyHeader("Match ID") != NormalizeHeader("Match ID")
  {
    LegacyMatchId();
    MatchIdSpellings();
  }

  /** `[c for c in expected if c not in columns]`: the expected names a header row lacks, in the
      order they are expected. */
  function Missing(columns: seq<string>, expected: seq<string>): (r: seq<string>)
    ensures forall c :: c in r <==> c in expected && c !in columns
    ensures |r| <= |expected|
  {
    if expected == [] then []
    else if expected[0] in columns then Missing(columns, expected[1..])
    else [expected[0]] + Missing(columns, expected[1..])
  }
}
