/**
 * The newer analytics page from a read workbook to its report: header normalisation and
 * coercion, the required-column check, the tournament/match/team selection, and the tables.
 */
module Analytics {
  import opened Common
  import opened Headers
  import opened Sheet
  import opened Deliveries
  import opened Tables

  /** The columns the page insists on before it shows anything. */
  const Required: seq<string> := ["tournament", "match_id", "batting_team", "total_runs", "over", "ball",
    "batsman", "bowler", "bowling_action", "bowler_type", "ball_type"]

  /** Why the page shows an error or a warning instead of the report. */
  datatype Failure =
    | ReadFailed                          // a coerced column name occurs twice: pandas raises
    | MissingColumns(names: seq<string>)  // "Missing columns: [...]"
    | NoData                              // "No data for this selection."
    | ColumnAbsent(name: string)          // a column the KPIs read that the check does not demand

  datatype Report = Report(
    kpis: Kpis,
    phases: seq<PhaseRow>,
    batters: seq<BatLine>,
    bowlers: seq<BowlLine>,
    styles: seq<StyleRow>,
    actions: seq<ActionRow>)

  /** Every table of the page for one selection. */
  function ReportOf(ds: seq<Delivery>): Report {
    var rs := Annotated(ds);
    Report(KpisOf(rs), PhaseTable(rs), BattingTable(rs), BowlingTable(rs), StyleTable(rs), ActionTable(rs))
  }

  /** `df[c]` is a frame rather than a column when `c` names two columns, and the coercion of a
      numeric or text column then raises inside `_read_and_prepare`. */
  predicate CoercedTwice(cols: seq<string>) {
    exists i, j :: 0 <= i < j < |cols| && cols[i] == cols[j] && (cols[i] in NumericColumns || cols[i] in TextColumns)
  }

  /** A rectangular sheet: one column of `height` cells per header. */
  predicate Rectangular(cols: seq<string>, cells: seq<seq<Cell>>, height: nat) {
    |cells| == |cols| && forall j :: 0 <= j < |cells| ==> |cells[j]| == height
  }

  /** The text of column `name` in row `i`, or "" when there is no such column. */
  function TextAt(cols: seq<string>, cells: seq<seq<Cell>>, height: nat, name: string, i: nat): string
    requires Rectangular(cols, cells, height) && i < height
  {
    var j := IndexOf(cols, name);
    if j < |cols| then AsText(cells[j][i]) else ""
  }

  /** The integer of column `name` in row `i`, or 0 when there is no such column. */
  function IntAt(cols: seq<string>, cells: seq<seq<Cell>>, height: nat, name: string, i: nat): int
    requires Rectangular(cols, cells, height) && i < height
  {
    var j := IndexOf(cols, name);
    if j < |cols| then NumericValue(cells[j][i]) else 0
  }

  function DeliveryAt(cols: seq<string>, cells: seq<seq<Cell>>, height: nat, i: nat): Delivery
    requires Rectangular(cols, cells, height) && i < height
  {
    Delivery(
      TextAt(cols, cells, height, "tournament", i), TextAt(cols, cells, height, "match_id", i),
      TextAt(cols, cells, height, "batting_team", i),
      IntAt(cols, cells, height, "over", i), IntAt(cols, cells, height, "ball", i),
      TextAt(cols, cells, height, "batsman", i), TextAt(cols, cells, height, "bowler", i),
      IntAt(cols, cells, height, "batsman_runs", i), IntAt(cols, cells, height, "total_runs", i),
      TextAt(cols, cells, height, "ball_type", i), TextAt(cols, cells, height, "bowling_action", i),
      TextAt(cols, cells, height, "bowler_type", i), TextAt(cols, cells, height, "player_dismissed", i))
  }

  /** All rows of a prepared sheet, in order. */
  function AllDeliveries(cols: seq<string>, cells: seq<seq<Cell>>, height: nat): (ds: seq<Delivery>)
    requires Rectangular(cols, cells, height)
    ensures |ds| == height
    ensures forall i :: 0 <= i < height ==> ds[i] == DeliveryAt(cols, cells, height, i)
  {
    seq(height, i requires 0 <= i < height => DeliveryAt(cols, cells, height, i))
  }

  /** `df[(tournament == t) & (match_id == m) & (batting_team == team)]`, in row order. */
  function Selection(ds: seq<Delivery>, tournament: string, matchId: string, team: string): (r: seq<Delivery>)
    ensures |r| <= |ds|
    ensures forall d :: d in r <==> d in ds && d.tournament == tournament && d.matchId == matchId && d.battingTeam == team
  {
    if ds == [] then []
    else
      var rest := Selection(ds[1..], tournament, matchId, team);
      var d := ds[0];
      assert forall e :: e in ds <==> e == d || e in ds[1..];
      if d.tournament == tournament && d.matchId == matchId && d.battingTeam == team then [d] + rest else rest
  }

  /** The filter distributes over concatenation: rows are kept in order, and a row that occurs
      twice is kept twice. */
  lemma {:induction false} SelectionAppend(a: seq<Delivery>, b: seq<Delivery>, tournament: string, matchId: string, team: string)
    ensures Selection(a + b, tournament, matchId, team) == Selection(a, tournament, matchId, team) + Selection(b, tournament, matchId, team)
    decreases |a|
  {
    if a == [] {
      assert a + b == b;
    } else {
      assert (a + b)[1..] == a[1..] + b;
      SelectionAppend(a[1..], b, tournament, matchId, team);
    }
  }

  /** One row is kept exactly when its tournament, match and batting team are the chosen ones. */
  lemma SelectionSingle(d: Delivery, tournament: string, matchId: string, team: string)
    ensures Selection([d], tournament, matchId, team)
         == if d.tournament == tournament && d.matchId == matchId && d.battingTeam == team then [d] else []
  {
    assert [d][1..] == [];
  }

  /** The selected rows of the prepared sheet whose normalised headers are `cols`. */
  function Selected(cols: seq<string>, cells: seq<seq<Cell>>, height: nat,
                    tournament: string, matchId: string, team: string): seq<Delivery>
    requires Rectangular(cols, cells, height)
  {
    Selection(AllDeliveries(cols, Prepared(cols, cells), height), tournament, matchId, team)
  }

  /** The page from the sheet as read (`headers`, `cells`) and the three chosen filter values:
      `_read_and_prepare`, the required-column check, the selection, and the tables. The KPIs read
      `player_dismissed` and then the phase table `batsman_runs`; neither is demanded by the check,
      so their absence ends the page with an uncaught `KeyError`. */
  function Analyze(headers: seq<string>, cells: seq<seq<Cell>>, height: nat,
                   tournament: string, matchId: string, team: string): Result<Report, Failure>
    requires Rectangular(headers, cells, height)
  {
    var cols := NormalizeColumns(headers);
    if CoercedTwice(cols) then Failure(ReadFailed)
    else
      var missing := Missing(cols, Required);
      if missing != [] then Failure(MissingColumns(missing))
      else
        var ds := Selected(cols, cells, height, tournament, matchId, team);
        if ds == [] then Failure(NoData)
        else if "player_dismissed" !in cols then Failure(ColumnAbsent("player_dismissed"))
        else if "batsman_runs" !in cols then Failure(ColumnAbsent("batsman_runs"))
        else Success(ReportOf(ds))
  }

  /** Nothing is missing exactly when every expected name is present. */
  lemma NothingMissing(cols: seq<string>, expected: seq<string>)
    ensures Missing(cols, expected) == [] <==> forall c :: c in expected ==> c in cols
  {
    var m := Missing(cols, expected);
    assert m != [] ==> m[0] in m;
  }

  /** The page shows a report exactly when no coerced name is duplicated, every required column
      is present, the selection has rows, and both unchecked columns exist; the report is then
      that of the selected rows. */
  lemma AnalyzeOutcome(headers: seq<string>, cells: seq<seq<Cell>>, height: nat,
                       tournament: string, matchId: string, team: string)
    requires Rectangular(headers, cells, height)
    ensures var cols := NormalizeColumns(headers);
      var ds := Selected(cols, cells, height, tournament, matchId, team);
      var out := Analyze(headers, cells, height, tournament, matchId, team);
      (out.Success? <==> (!CoercedTwice(cols) && (forall c :: c in Required ==> c in cols) && ds != []
                          && "player_dismissed" in cols && "batsman_runs" in cols))
      && (out.Success? ==> out.value == ReportOf(ds))
  {
    NothingMissing(NormalizeColumns(headers), Required);
  }

  /** A missing required column is reported, with every missing name, before anything else
      that depends on the rows. */
  lemma MissingColumnsReported(headers: seq<string>, cells: seq<seq<Cell>>, height: nat,
                               tournament: string, matchId: string, team: string, c: string)
    requires Rectangular(headers, cells, height)
    requires c in Required && c !in NormalizeColumns(headers)
    requires !CoercedTwice(NormalizeColumns(headers))
    ensures var out := Analyze(headers, cells, height, tournament, matchId, team);
      out.Failure? && out.error.MissingColumns? && c in out.error.names
  {
  }

  /** What the report says about the selected rows, gathered: every table adds up to the KPIs. */
  lemma ReportConsistent(ds: seq<Delivery>)
    ensures var rep := ReportOf(ds);
      SumBy(rep.phases, PhaseRowRuns) == rep.kpis.runs
      && SumBy(rep.phases, PhaseRowBalls) == rep.kpis.balls
      && SumBy(rep.bowlers, LineBalls) == rep.kpis.balls
      && SumBy(rep.bowlers, LineConceded) == rep.kpis.runs
      && SumBy(rep.bowlers, LineWickets) == rep.kpis.wickets
      && SumBy(rep.styles, StyleRowRuns) == rep.kpis.runs
      && SumBy(rep.actions, ActionRowRuns) == rep.kpis.runs
  {
    var rs := Annotated(ds);
    PhaseTableConserves(rs);
    BowlingConserved(rs);
    StyleTableConserves(rs);
    ActionTableFacts(rs);
  }
}
