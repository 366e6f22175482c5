/**
 * The older analytics page: headers stripped and lower-cased, a warning for missing columns,
 * then per-batsman and per-bowler aggregates straight from the rows as read. Empty cells are
 * `None`; a group-by drops rows whose key is empty.
 */
module Legacy {
  import opened Common
  import opened Text
  import opened Sorting
  import opened Headers
  import opened Tables

  /** A row as read: any cell may be empty. */
  datatype OldRow = OldRow(
    batsman: Option<string>, bowler: Option<string>,
    ball: Option<int>, batsmanRuns: Option<int>, dismissalKind: Option<string>)

  /** Line 20: `df.columns = [c.strip().lower() for c in df.columns]`. */
  function LegacyColumns(headers: seq<string>): (cols: seq<string>)
    ensures |cols| == |headers|
    ensures forall i :: 0 <= i < |cols| ==> cols[i] == LegacyHeader(headers[i])
  {
    seq(|headers|, i requires 0 <= i < |headers| => LegacyHeader(headers[i]))
  }

  /** The columns the older page expects; their absence only produces a warning. */
  const Expected: seq<string> := ["batsman", "bowler", "innings", "over", "ball",
    "batsman_runs", "dismissal_kind", "bowling_team", "batting_team", "ball_type", "extra_runs"]

  function RunsOf(v: Option<int>): int { if v.Some? then v.value else 0 }
  function Ind(b: bool): nat { if b then 1 else 0 }

  /** What the older aggregations sum and count. */
  datatype OldTally = OldTally(balls: nat, runs: int, dots: nat, fours: nat, sixes: nat, wickets: nat)

  /** One row's contribution: `count` counts non-empty balls, `sum` skips empty runs, the
      `== 0/4/6` tests are false on an empty cell, and `!= "none"` is true on one. */
  function OldUnit(r: OldRow): OldTally {
    OldTally(Ind(r.ball.Some?), RunsOf(r.batsmanRuns), Ind(r.batsmanRuns == Some(0)),
      Ind(r.batsmanRuns == Some(4)), Ind(r.batsmanRuns == Some(6)), Ind(r.dismissalKind != Some("none")))
  }

  function OldTallyOf(rs: seq<OldRow>): (t: OldTally)
    ensures t.balls <= |rs| && t.wickets <= |rs|
    ensures t.dots + t.fours + t.sixes <= |rs|
  {
    if rs == [] then OldTally(0, 0, 0, 0, 0, 0)
    else
      var u, t := OldUnit(rs[0]), OldTallyOf(rs[1..]);
      OldTally(u.balls + t.balls, u.runs + t.runs, u.dots + t.dots, u.fours + t.fours, u.sixes + t.sixes, u.wickets + t.wickets)
  }

  function BatsmanOf(r: OldRow): Option<string> { r.batsman }
  function BowlerOf(r: OldRow): Option<string> { r.bowler }

  /** The rows of one named key. */
  function OldSelect(rs: seq<OldRow>, keyOf: OldRow -> Option<string>, name: string): (s: seq<OldRow>)
    ensures forall r :: r in s <==> r in rs && keyOf(r) == Some(name)
  {
    if rs == [] then []
    else if keyOf(rs[0]) == Some(name) then [rs[0]] + OldSelect(rs[1..], keyOf, name)
    else OldSelect(rs[1..], keyOf, name)
  }

  /** The non-empty keys, once each, in ascending order. */
  function OldKeys(rs: seq<OldRow>, keyOf: OldRow -> Option<string>): (ks: seq<string>)
    ensures forall r :: r in rs && keyOf(r).Some? ==> keyOf(r).value in ks
    ensures forall k :: k in ks ==> exists r :: r in rs && keyOf(r) == Some(k)
  {
    if rs == [] then []
    else
      var rest := OldKeys(rs[1..], keyOf);
      assert forall r :: r in rs ==> r == rs[0] || r in rs[1..];
      if keyOf(rs[0]).Some? then InsertKey(keyOf(rs[0]).value, rest) else rest
  }

  lemma {:induction false} OldKeysAscending(rs: seq<OldRow>, keyOf: OldRow -> Option<string>)
    ensures StrictlyAscending(OldKeys(rs, keyOf))
    decreases |rs|
  {
    if rs != [] {
      OldKeysAscending(rs[1..], keyOf);
      if keyOf(rs[0]).Some? {
        InsertKeyAscending(keyOf(rs[0]).value, OldKeys(rs[1..], keyOf));
      }
    }
  }

  // ---------------------------------------------------------------- batting

  /** A floating-point quotient as pandas computes it: a number, or, after a division by zero, an
      infinity with the sign of the dividend, or NaN for `0 / 0`. */
  datatype Quotient = Number(value: real) | PlusInfinity | MinusInfinity | NaN

  /** `x / 0` in floating point. */
  function OverZero(x: real): (q: Quotient)
    ensures !q.Number?
    ensures q == NaN <==> x == 0.0
    ensures q == PlusInfinity <==> x > 0.0
  {
    if x > 0.0 then PlusInfinity else if x < 0.0 then MinusInfinity else NaN
  }

  /** One line of the older batting table. */
  datatype OldBatLine = OldBatLine(batsman: string, runs: int, balls: nat, dots: nat, fours: nat, sixes: nat,
    sr: Quotient, dotPct: Quotient, bndPct: Quotient, bpb: real)

  /** `x / balls * 100`: a number when there are balls, otherwise `x / 0`, which scaling by 100
      leaves as it is. */
  function PerHundredBalls(x: int, balls: nat): (r: Quotient)
    ensures r.Number? <==> balls > 0
    ensures r.Number? ==> r.value * balls as real == 100.0 * x as real
    ensures balls == 0 ==> r == OverZero(x as real)
  {
    if balls == 0 then OverZero(x as real) else Number(x as real / balls as real * 100.0)
  }

  /** Lines 32-46 for one batsman's rows. */
  function OldBatLineOf(name: string, t: OldTally): (l: OldBatLine)
    ensures l.batsman == name && l.runs == t.runs && l.balls == t.balls
    ensures l.fours + l.sixes == 0 ==> l.bpb == l.balls as real
    ensures l.fours + l.sixes > 0 ==> l.bpb * (l.fours + l.sixes) as real == l.balls as real
    ensures l.dots == t.dots && l.fours == t.fours && l.sixes == t.sixes
    ensures l.sr == PerHundredBalls(l.runs, l.balls)
    ensures l.dotPct == PerHundredBalls(l.dots, l.balls)
    ensures l.bndPct == PerHundredBalls(l.fours + l.sixes, l.balls)
  {
    var boundaries := t.fours + t.sixes;
    var divisor := if boundaries == 0 then 1 else boundaries;
    OldBatLine(name, t.runs, t.balls, t.dots, t.fours, t.sixes,
      PerHundredBalls(t.runs, t.balls), PerHundredBalls(t.dots, t.balls), PerHundredBalls(boundaries, t.balls),
      Rate(t.balls, divisor))
  }

  function OldBatLines(rs: seq<OldRow>, ks: seq<string>): (ls: seq<OldBatLine>)
    ensures |ls| == |ks|
    ensures forall i :: 0 <= i < |ks| ==> ls[i] == OldBatLineOf(ks[i], OldTallyOf(OldSelect(rs, BatsmanOf, ks[i])))
  {
    if ks == [] then [] else [OldBatLineOf(ks[0], OldTallyOf(OldSelect(rs, BatsmanOf, ks[0])))] + OldBatLines(rs, ks[1..])
  }

  /** `sort_values("Runs", ascending=False)`; equal runs are left in name order here. */
  predicate OldBatBefore(x: OldBatLine, y: OldBatLine) {
    x.runs > y.runs || (x.runs == y.runs && LexLe(x.batsman, y.batsman))
  }

  function OldBattingTable(rs: seq<OldRow>): seq<OldBatLine> {
    SortBy(OldBatLines(rs, OldKeys(rs, BatsmanOf)), OldBatBefore)
  }

  /** The older batting table is ordered by runs, descending. */
  lemma OldBattingTableOrdered(rs: seq<OldRow>)
    ensures var t := OldBattingTable(rs);
      forall i, j :: 0 <= i < j < |t| ==> t[i].runs >= t[j].runs
  {
    LexLeIsTotalOrder();
    SortBySorted(OldBatLines(rs, OldKeys(rs, BatsmanOf)), OldBatBefore);
  }

  /** Each line of the older batting table holds the figures of exactly that batsman's rows. */
  lemma OldBattingLineMeaning(rs: seq<OldRow>)
    ensures var t := OldBattingTable(rs);
      forall i :: 0 <= i < |t| ==> t[i] == OldBatLineOf(t[i].batsman, OldTallyOf(OldSelect(rs, BatsmanOf, t[i].batsman)))
  {
    var ls := OldBatLines(rs, OldKeys(rs, BatsmanOf));
    var t := OldBattingTable(rs);
    forall i | 0 <= i < |t|
      ensures t[i] == OldBatLineOf(t[i].batsman, OldTallyOf(OldSelect(rs, BatsmanOf, t[i].batsman)))
    {
      SortedRowsFrom(ls, OldBatBefore, i);
    }
  }

  /** Every batsman named in some row has a line in the older batting table. */
  lemma OldBattingTableComplete(rs: seq<OldRow>)
    ensures var t := OldBattingTable(rs);
      forall r :: r in rs && r.batsman.Some? ==> exists i :: 0 <= i < |t| && t[i].batsman == r.batsman.value
  {
    var ks := OldKeys(rs, BatsmanOf);
    var ls := OldBatLines(rs, ks);
    var t := OldBattingTable(rs);
    forall r | r in rs && r.batsman.Some?
      ensures exists i :: 0 <= i < |t| && t[i].batsman == r.batsman.value
    {
      var m :| 0 <= m < |ks| && ks[m] == r.batsman.value;
      assert ls[m] in multiset(t);
      var i :| 0 <= i < |t| && t[i] == ls[m];
    }
  }

  // ---------------------------------------------------------------- bowling

  /** One line of the older bowling table. */
  datatype OldBowlLine = OldBowlLine(bowler: string, runs: int, balls: nat, wickets: nat, dots: nat,
    overs: real, eco: Quotient, dotPct: Quotient, bpd: real)

  /** `(balls / 6).round(1)`: ten times `balls / 6` is never exactly half-way between two
      integers, so the rounding is to the nearest tenth. */
  function RoundedOvers(balls: nat): (o: real)
    ensures -1.0 / 20.0 <= o - balls as real / 6.0 <= 1.0 / 20.0
    ensures balls > 0 ==> o > 0.0
    ensures balls == 0 ==> o == 0.0
  {
    ((10 * balls + 3) / 6) as real / 10.0
  }

  /** Lines 59-72 for one bowler's rows; economy divides by the rounded overs. */
  function OldBowlLineOf(name: string, t: OldTally): (l: OldBowlLine)
    ensures l.bowler == name && l.runs == t.runs && l.balls == t.balls && l.wickets == t.wickets
    ensures l.dots == t.dots && l.overs == RoundedOvers(l.balls)
    ensures l.eco.Number? <==> l.balls > 0
    ensures l.eco.Number? ==> l.eco.value * l.overs == l.runs as real
    ensures l.balls == 0 ==> l.eco == OverZero(l.runs as real)
    ensures l.dotPct == PerHundredBalls(l.dots, l.balls)
    ensures l.wickets == 0 ==> l.bpd == l.balls as real
    ensures l.wickets > 0 ==> l.bpd * l.wickets as real == l.balls as real
  {
    var overs := RoundedOvers(t.balls);
    var divisor := if t.wickets == 0 then 1 else t.wickets;
    OldBowlLine(name, t.runs, t.balls, t.wickets, t.dots, overs,
      if overs == 0.0 then OverZero(t.runs as real) else Number(PerOver(t.runs, overs)),
      PerHundredBalls(t.dots, t.balls), Rate(t.balls, divisor))
  }

  function OldBowlLines(rs: seq<OldRow>, ks: seq<string>): (ls: seq<OldBowlLine>)
    ensures |ls| == |ks|
    ensures forall i :: 0 <= i < |ks| ==> ls[i] == OldBowlLineOf(ks[i], OldTallyOf(OldSelect(rs, BowlerOf, ks[i])))
  {
    if ks == [] then [] else [OldBowlLineOf(ks[0], OldTallyOf(OldSelect(rs, BowlerOf, ks[0])))] + OldBowlLines(rs, ks[1..])
  }

  /** `sort_values("Wickets", ascending=False)`; equal wickets are left in name order here. */
  predicate OldBowlBefore(x: OldBowlLine, y: OldBowlLine) {
    x.wickets > y.wickets || (x.wickets == y.wickets && LexLe(x.bowler, y.bowler))
  }

  function OldBowlingTable(rs: seq<OldRow>): seq<OldBowlLine> {
    SortBy(OldBowlLines(rs, OldKeys(rs, BowlerOf)), OldBowlBefore)
  }

  /** Every bowler named in some row has a line in the older bowling table. */
  lemma OldBowlingTableComplete(rs: seq<OldRow>)
    ensures var t := OldBowlingTable(rs);
      forall r :: r in rs && r.bowler.Some? ==> exists i :: 0 <= i < |t| && t[i].bowler == r.bowler.value
  {
    var ks := OldKeys(rs, BowlerOf);
    var ls := OldBowlLines(rs, ks);
    var t := OldBowlingTable(rs);
    forall r | r in rs && r.bowler.Some?
      ensures exists i :: 0 <= i < |t| && t[i].bowler == r.bowler.value
    {
      var m :| 0 <= m < |ks| && ks[m] == r.bowler.value;
      assert ls[m] in multiset(t);
      var i :| 0 <= i < |t| && t[i] == ls[m];
    }
  }

  /** The older bowling table is ordered by wickets, descending. */
  lemma OldBowlingTableOrdered(rs: seq<OldRow>)
    ensures var t := OldBowlingTable(rs);
      forall i, j :: 0 <= i < j < |t| ==> t[i].wickets >= t[j].wickets
  {
    LexLeIsTotalOrder();
    SortBySorted(OldBowlLines(rs, OldKeys(rs, BowlerOf)), OldBowlBefore);
  }

  /** Each line of the older bowling table holds the figures of exactly that bowler's rows. */
  lemma OldBowlingLineMeaning(rs: seq<OldRow>)
    ensures var t := OldBowlingTable(rs);
      forall i :: 0 <= i < |t| ==> t[i] == OldBowlLineOf(t[i].bowler, OldTallyOf(OldSelect(rs, BowlerOf, t[i].bowler)))
  {
    var ls := OldBowlLines(rs, OldKeys(rs, BowlerOf));
    var t := OldBowlingTable(rs);
    forall i | 0 <= i < |t|
      ensures t[i] == OldBowlLineOf(t[i].bowler, OldTallyOf(OldSelect(rs, BowlerOf, t[i].bowler)))
    {
      SortedRowsFrom(ls, OldBowlBefore, i);
    }
  }

  /** Runs charged to a bowler are bat runs only: extras never reach the bowling figures, and a
      row without bat runs adds nothing. */
  lemma BowlerChargedBatRunsOnly(r: OldRow)
    ensures OldUnit(r).runs == (if r.batsmanRuns.Some? then r.batsmanRuns.value else 0)
  {
  }

  /** Every `dismissal_kind` other than the exact text "none" counts as a wicket, an empty cell
      and "None" included. */
  lemma WicketCounting(r: OldRow)
    ensures OldUnit(r).wickets == 1 <==> r.dismissalKind != Some("none")
    ensures r.dismissalKind == None ==> OldUnit(r).wickets == 1
    ensures r.dismissalKind == Some("None") ==> OldUnit(r).wickets == 1
  {
    assert "None" != "none" by { assert "None"[0] != "none"[0]; }
  }

  /** One ball conceding one run: the overs show 0.2, so the economy reads 5, not 6. */
  lemma RoundedOversSkewEconomy()
    ensures OldBowlLineOf("b", OldTally(1, 1, 0, 0, 0, 0)).overs == 0.2
    ensures OldBowlLineOf("b", OldTally(1, 1, 0, 0, 0, 0)).eco == Number(5.0)
  {
  }

  // ---------------------------------------------------------------- the page

  /** What the older page shows: the missing-column warning, and each table unless computing it
      raised (the `except` then shows an error and the rest of the page is skipped). */
  datatype OldPage = OldPage(missing: seq<string>, batting: Option<seq<OldBatLine>>, bowling: Option<seq<OldBowlLine>>, failed: bool)

  /** Lines 20-81 after the file is read. */
  function OldAnalytics(headers: seq<string>, rs: seq<OldRow>): (p: OldPage)
    ensures p.failed <==> p.bowling.None?
    ensures p.batting.None? ==> p.bowling.None?
  {
    var cols := LegacyColumns(headers);
    var missing := Missing(cols, Expected);
    var batOk := "batsman" in cols && "batsman_runs" in cols && "ball" in cols;
    var bowlOk := batOk && "bowler" in cols && "dismissal_kind" in cols;
    OldPage(missing,
      if batOk then Some(OldBattingTable(rs)) else None,
      if bowlOk then Some(OldBowlingTable(rs)) else None,
      !bowlOk)
  }

  /** Missing columns only warn: the tables are computed whenever the columns they read exist,
      whatever else is missing. */
  lemma MissingOnlyWarns(headers: seq<string>, rs: seq<OldRow>)
    requires var cols := LegacyColumns(headers);
      "batsman" in cols && "batsman_runs" in cols && "ball" in cols && "bowler" in cols && "dismissal_kind" in cols
    ensures OldAnalytics(headers, rs).batting == Some(OldBattingTable(rs))
    ensures OldAnalytics(headers, rs).bowling == Some(OldBowlingTable(rs))
    ensures !OldAnalytics(headers, rs).failed
    ensures forall c :: c in OldAnalytics(headers, rs).missing <==> c in Expected && c !in LegacyColumns(headers)
  {
  }
}
