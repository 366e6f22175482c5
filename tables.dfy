/**
 * The tables the newer analytics page derives from one selection: the team KPIs, the phase
 * table, the batting and bowling lines, the pace/spin table and the bowling-action table.
 */
module Tables {
  import opened Common
  import opened Classify
  import opened Sorting
  import opened Deliveries

  // ---------------------------------------------------------------- group keys

  function BatsmanKey(r: Row): string { r.d.batsman }
  function BowlerKey(r: Row): string { r.d.bowler }
  function ActionKey(r: Row): string { r.d.bowlingAction }
  function PhaseKey(r: Row): Phase { r.phase }
  function StyleKey(r: Row): Style { r.coarse }

  /** Keys in strictly increasing string order, as `groupby` lists them. */
  ghost predicate StrictlyAscending(ks: seq<string>) {
    forall i, j :: 0 <= i < j < |ks| ==> LexLt(ks[i], ks[j])
  }

  /** `v` added to the sorted, duplicate-free key list `ks`. */
  function InsertKey(v: string, ks: seq<string>): (r: seq<string>)
    ensures forall w :: w in r <==> w == v || w in ks
  {
    if ks == [] then [v]
    else if v == ks[0] then ks
    else if LexLe(v, ks[0]) then [v] + ks
    else [ks[0]] + InsertKey(v, ks[1..])
  }

  lemma {:induction false} InsertKeyAscending(v: string, ks: seq<string>)
    requires StrictlyAscending(ks)
    ensures StrictlyAscending(InsertKey(v, ks))
    decreases |ks|
  {
    LexLeIsTotalOrder();
    if ks != [] && v != ks[0] {
      if LexLe(v, ks[0]) {
        var r := [v] + ks;
        forall i, j | 0 <= i < j < |r|
          ensures LexLt(r[i], r[j])
        {
          if i == 0 {
            assert r[j] == ks[j - 1];
            if j > 1 {
              assert LexLt(ks[0], ks[j - 1]);
            }
          } else {
            assert r[i] == ks[i - 1] && r[j] == ks[j - 1];
          }
        }
      } else {
        InsertKeyAscending(v, ks[1..]);
        var rest := InsertKey(v, ks[1..]);
        var r := [ks[0]] + rest;
        assert LexLt(ks[0], v);
        forall j | 0 <= j < |rest|
          ensures LexLt(ks[0], rest[j])
        {
          if rest[j] != v {
            assert rest[j] in ks[1..];
            var m :| 0 <= m < |ks[1..]| && ks[1..][m] == rest[j];
            assert ks[1 + m] == rest[j];
          }
        }
        forall i, j | 0 <= i < j < |r|
          ensures LexLt(r[i], r[j])
        {
          assert r[j] == rest[j - 1];
          if i > 0 {
            assert r[i] == rest[i - 1];
          }
        }
      }
    }
  }

  /** The keys `groupby(key)` finds: every key that occurs, once each, in ascending order. */
  function SortedKeys(rs: seq<Row>, keyOf: Row -> string): (ks: seq<string>)
    ensures forall r :: r in rs ==> keyOf(r) in ks
    ensures forall w :: w in ks ==> exists r :: r in rs && keyOf(r) == w
  {
    if rs == [] then []
    else
      var ks := InsertKey(keyOf(rs[0]), SortedKeys(rs[1..], keyOf));
      assert forall r :: r in rs ==> r == rs[0] || r in rs[1..];
      ks
  }

  lemma {:induction false} SortedKeysAscending(rs: seq<Row>, keyOf: Row -> string)
    ensures StrictlyAscending(SortedKeys(rs, keyOf))
    ensures Distinct(SortedKeys(rs, keyOf))
    decreases |rs|
  {
    if rs != [] {
      SortedKeysAscending(rs[1..], keyOf);
      InsertKeyAscending(keyOf(rs[0]), SortedKeys(rs[1..], keyOf));
    }
  }

  /** `groupby(key)` on a string column: one group per distinct key, in ascending key order. */
  function GroupByName(rs: seq<Row>, keyOf: Row -> string): seq<Group<string>> {
    Groups(rs, keyOf, SortedKeys(rs, keyOf))
  }

  /** A name group-by conserves every aggregate and lists each key once, in ascending order. */
  lemma GroupByNameFacts(rs: seq<Row>, keyOf: Row -> string)
    ensures SumTallies(GroupByName(rs, keyOf)) == TallyOf(rs)
    ensures KeysIncrease(GroupByName(rs, keyOf), LexLt)
  {
    var ks := SortedKeys(rs, keyOf);
    SortedKeysAscending(rs, keyOf);
    GroupsConserve(rs, keyOf, ks);
    GroupsOrdered(rs, keyOf, ks, LexLt);
  }

  // ---------------------------------------------------------------- sums over table rows

  function SumBy<T>(s: seq<T>, f: T -> int): int {
    if s == [] then 0 else f(s[0]) + SumBy(s[1..], f)
  }

  /** A column of table rows that copies an additive aggregate of each group sums to that
      aggregate of all the groups together. */
  lemma {:induction false} SumOfColumn<K, L>(gs: seq<Group<K>>, ls: seq<L>, f: L -> int, col: Tally -> int)
    requires |ls| == |gs|
    requires forall i :: 0 <= i < |gs| ==> f(ls[i]) == col(gs[i].tally)
    requires col(Zero) == 0
    requires forall x: Tally, y: Tally :: col(x.Plus(y)) == col(x) + col(y)
    ensures SumBy(ls, f) == col(SumTallies(gs))
    decreases |gs|
  {
    if gs != [] {
      SumOfColumn(gs[1..], ls[1..], f, col);
    }
  }

  function RunsCol(t: Tally): int { t.totalRuns }
  function BatRunsCol(t: Tally): int { t.batRuns }
  function LegalCol(t: Tally): int { t.legal }
  function WicketsCol(t: Tally): int { t.wickets }

  /** `np.where(den > 0, num / den, 0.0)`. */
  function Rate(num: int, den: int): (r: real)
    ensures den > 0 ==> r * den as real == num as real
    ensures den <= 0 ==> r == 0.0
  {
    if den > 0 then num as real / den as real else 0.0
  }

  /** `runs / overs if overs > 0 else 0.0`: runs per over. */
  function PerOver(runs: int, overs: real): (r: real)
    ensures overs > 0.0 ==> r * overs == runs as real
    ensures overs <= 0.0 ==> r == 0.0
  {
    if overs > 0.0 then runs as real / overs else 0.0
  }

  /** Runs per over of `balls / 6` overs are six times the runs per ball, and 0 without balls. */
  lemma PerOverOfBalls(runs: int, balls: nat)
    ensures balls > 0 ==> PerOver(runs, OverFromBalls(balls)) * balls as real == 6.0 * runs as real
    ensures balls == 0 ==> PerOver(runs, OverFromBalls(balls)) == 0.0
  {
    var o := OverFromBalls(balls);
    if balls > 0 {
      var r := PerOver(runs, o);
      assert r * o == runs as real;
      calc {
        r * balls as real;
        6.0 * (r * (balls as real / 6.0));
        6.0 * runs as real;
      }
    }
  }

  /** Runs per over of a ball count (`runs / over_from_balls(balls)`), 0 when no ball was bowled. */
  function RunsPerOver(runs: int, balls: nat): (r: real)
    ensures balls == 0 ==> r == 0.0
    ensures balls > 0 ==> r * balls as real == 6.0 * runs as real
  {
    PerOverOfBalls(runs, balls);
    PerOver(runs, OverFromBalls(balls))
  }

  /** `np.where(balls > 0, x * 100 / balls, 0.0)`: a share of the balls in per cent. */
  function Percent(x: int, balls: nat): (r: real)
    ensures balls == 0 ==> r == 0.0
    ensures balls > 0 ==> r * balls as real == 100.0 * x as real
  {
    Rate(100 * x, balls)
  }

  // ---------------------------------------------------------------- team KPIs

  /** The four team metrics, plus the legal-ball count the overs come from. */
  datatype Kpis = Kpis(runs: int, wickets: nat, balls: nat, overs: real, runRate: real)

  /** Lines 203-208: runs sum `total_runs`, balls count legal rows, wickets count dismissals. */
  function KpisOf(rs: seq<Row>): (k: Kpis)
    ensures k.runs == TallyOf(rs).totalRuns && k.balls == TallyOf(rs).legal
    ensures k.wickets == TallyOf(rs).wickets
    ensures k.wickets <= |rs| && k.balls <= |rs|
    ensures k.overs == k.balls as real / 6.0
    ensures k.runRate == RunsPerOver(k.runs, k.balls)
  {
    var t := TallyOf(rs);
    Kpis(t.totalRuns, t.wickets, t.legal, OverFromBalls(t.legal), RunsPerOver(t.totalRuns, t.legal))
  }

  // ---------------------------------------------------------------- phase table

  datatype PhaseRow = PhaseRow(phase: Phase, runs: int, balls: nat, batRuns: int, sr: real)

  function PhaseRowOf(g: Group<Phase>): (p: PhaseRow)
    ensures p.phase == g.key && p.runs == g.tally.totalRuns
    ensures p.balls == g.tally.legal && p.batRuns == g.tally.batRuns
    ensures p.balls == 0 ==> p.sr == 0.0
    ensures p.balls > 0 ==> p.sr * p.balls as real == 100.0 * p.batRuns as real
  {
    var t := g.tally;
    PhaseRow(g.key, t.totalRuns, t.legal, t.batRuns, Rate(100 * t.batRuns, t.legal))
  }

  function PhaseRows(gs: seq<Group<Phase>>): (ps: seq<PhaseRow>)
    ensures |ps| == |gs|
    ensures forall i :: 0 <= i < |gs| ==> ps[i] == PhaseRowOf(gs[i])
  {
    if gs == [] then [] else [PhaseRowOf(gs[0])] + PhaseRows(gs[1..])
  }

  predicate PhaseLt(a: Phase, b: Phase) { a.Rank() < b.Rank() }

  /** Lines 218-228: group by phase, then order by the categories Powerplay, Middle, Death; only
      the phases that occur get a row. */
  function PhaseTable(rs: seq<Row>): seq<PhaseRow> {
    PhaseRows(Groups(rs, PhaseKey, PhaseOrder))
  }

  function PhaseRowRuns(p: PhaseRow): int { p.runs }
  function PhaseRowBalls(p: PhaseRow): int { p.balls }

  lemma PhasesCover(rs: seq<Row>)
    ensures forall r :: r in rs ==> PhaseKey(r) in PhaseOrder
  {
    forall r | r in rs
      ensures PhaseKey(r) in PhaseOrder
    {
      assert r.phase == Powerplay || r.phase == Middle || r.phase == Death;
    }
  }

  /** The phase table's runs add up to the team's runs and its balls to the team's legal balls. */
  lemma PhaseTableConserves(rs: seq<Row>)
    ensures SumBy(PhaseTable(rs), PhaseRowRuns) == KpisOf(rs).runs
    ensures SumBy(PhaseTable(rs), PhaseRowBalls) == KpisOf(rs).balls
  {
    var gs := Groups(rs, PhaseKey, PhaseOrder);
    var ps := PhaseTable(rs);
    PhasesCover(rs);
    GroupsConserve(rs, PhaseKey, PhaseOrder);
    SumOfColumn(gs, ps, PhaseRowRuns, RunsCol);
    SumOfColumn(gs, ps, PhaseRowBalls, LegalCol);
  }

  /** The phase table's rows come in the order Powerplay, Middle, Death. */
  lemma PhaseTableOrdered(rs: seq<Row>)
    ensures var ps := PhaseTable(rs);
      forall i, j :: 0 <= i < j < |ps| ==> ps[i].phase.Rank() < ps[j].phase.Rank()
  {
    var gs := Groups(rs, PhaseKey, PhaseOrder);
    GroupsOrdered(rs, PhaseKey, PhaseOrder, PhaseLt);
    assert forall i, j :: 0 <= i < j < |gs| ==> PhaseLt(gs[i].key, gs[j].key);
  }

  /** Every phase that occurs in the selection has a row, and every row's figures are those of
      the deliveries of its phase. */
  lemma PhaseTableComplete(rs: seq<Row>)
    ensures var ps := PhaseTable(rs);
      forall r :: r in rs ==> exists i :: 0 <= i < |ps| && ps[i].phase == r.phase
    ensures var ps := PhaseTable(rs);
      forall i :: 0 <= i < |ps| ==> ps[i] == PhaseRowOf(Group(ps[i].phase, TallyOf(Select(rs, PhaseKey, ps[i].phase))))
  {
    var gs := Groups(rs, PhaseKey, PhaseOrder);
    var ps := PhaseTable(rs);
    PhasesCover(rs);
    forall r | r in rs
      ensures exists i :: 0 <= i < |ps| && ps[i].phase == r.phase
    {
      var i := GroupIndex(rs, PhaseKey, PhaseOrder, r);
      assert ps[i].phase == r.phase;
    }
  }

  // ---------------------------------------------------------------- sorted tables

  lemma {:induction false} SumByAppend<T>(a: seq<T>, b: seq<T>, f: T -> int)
    ensures SumBy(a + b, f) == SumBy(a, f) + SumBy(b, f)
    decreases |a|
  {
    if a == [] {
      assert a + b == b;
    } else {
      assert (a + b)[1..] == a[1..] + b;
      SumByAppend(a[1..], b, f);
    }
  }

  lemma SumByRemove<T>(b: seq<T>, i: int, f: T -> int)
    requires 0 <= i < |b|
    ensures SumBy(b, f) == f(b[i]) + SumBy(b[..i] + b[i + 1..], f)
  {
    SumByAppend(b[..i], [b[i]] + b[i + 1..], f);
    SumByAppend(b[..i], b[i + 1..], f);
    assert ([b[i]] + b[i + 1..])[1..] == b[i + 1..];
    assert b == b[..i] + ([b[i]] + b[i + 1..]);
  }

  /** Sorting a table does not change the total of any column. */
  lemma {:induction false} SumByPermutation<T>(a: seq<T>, b: seq<T>, f: T -> int)
    requires multiset(a) == multiset(b)
    ensures SumBy(a, f) == SumBy(b, f)
    decreases |a|
  {
    if a == [] {
      assert |b| == |multiset(b)| == 0;
    } else {
      assert a[0] in multiset(b);
      var i :| 0 <= i < |b| && b[i] == a[0];
      var b' := b[..i] + b[i + 1..];
      assert b == b[..i] + [b[i]] + b[i + 1..];
      assert multiset(b) == multiset(b[..i]) + multiset{b[i]} + multiset(b[i + 1..]);
      assert a == [a[0]] + a[1..];
      assert multiset(b') == multiset(b[..i]) + multiset(b[i + 1..]);
      assert multiset(a) == multiset{a[0]} + multiset(a[1..]);
      assert multiset(b') + multiset{a[0]} == multiset(b);
      assert multiset(a[1..]) + multiset{a[0]} == multiset(b);
      MultisetCancel(multiset(a[1..]), multiset(b'), a[0]);
      SumByPermutation(a[1..], b', f);
      SumByRemove(b, i, f);
    }
  }

  /** Every row of a sorted table is one of the rows it sorted. */
  lemma SortedRowsFrom<T>(s: seq<T>, le: (T, T) -> bool, i: int)
    requires 0 <= i < |SortBy(s, le)|
    ensures SortBy(s, le)[i] in s
  {
    var r := SortBy(s, le);
    assert r[i] in multiset(r);
  }

  // ---------------------------------------------------------------- batting lines

  /** One batting line: runs, legal balls faced, boundaries, dots, strike rate and dot share. */
  datatype BatLine = BatLine(batsman: string, r: int, b: nat, fours: nat, sixes: nat, dots: nat, sr: real, dotPct: real)

  /** Lines 253-264 for one batsman's rows. */
  function BatLineOf(g: Group<string>): (l: BatLine)
    requires g.tally.Consistent()
    ensures l.batsman == g.key && l.r == g.tally.batRuns && l.b == g.tally.faced
    ensures l.fours == g.tally.fours && l.sixes == g.tally.sixes && l.dots == g.tally.batDots
    ensures l.b <= g.tally.rows && l.fours + l.sixes + l.dots <= g.tally.rows
    ensures l.b == 0 ==> l.sr == 0.0 && l.dotPct == 0.0
    ensures l.b > 0 ==> l.sr * l.b as real == 100.0 * l.r as real
    ensures l.b > 0 ==> l.dotPct * l.b as real == 100.0 * l.dots as real
  {
    var t := g.tally;
    BatLine(g.key, t.batRuns, t.faced, t.fours, t.sixes, t.batDots, Rate(100 * t.batRuns, t.faced), Rate(100 * t.batDots, t.faced))
  }

  function BatLines(gs: seq<Group<string>>): (ls: seq<BatLine>)
    requires forall g :: g in gs ==> g.tally.Consistent()
    ensures |ls| == |gs|
    ensures forall i :: 0 <= i < |gs| ==> ls[i] == BatLineOf(gs[i])
  {
    if gs == [] then [] else [BatLineOf(gs[0])] + BatLines(gs[1..])
  }

  /** `sort_values(["R", "SR"], ascending=[False, False])` after a group-by that listed the
      batsmen by name; the sort is stable, so ties stay in name order. */
  predicate BatBefore(x: BatLine, y: BatLine) {
    x.r > y.r || (x.r == y.r && (x.sr > y.sr || (x.sr == y.sr && LexLe(x.batsman, y.batsman))))
  }

  lemma BatBeforeOrders()
    ensures Total(BatBefore) && Transitive(BatBefore)
  {
    LexLeIsTotalOrder();
  }

  function BattingTable(rs: seq<Row>): seq<BatLine> {
    SortBy(BatLines(GroupByName(rs, BatsmanKey)), BatBefore)
  }

  function LineRuns(l: BatLine): int { l.r }

  /** The batters' runs add up to the selection's `batsman_runs`. */
  lemma BattingRunsConserved(rs: seq<Row>)
    ensures SumBy(BattingTable(rs), LineRuns) == TallyOf(rs).batRuns
  {
    var gs := GroupByName(rs, BatsmanKey);
    GroupByNameFacts(rs, BatsmanKey);
    SumOfColumn(gs, BatLines(gs), LineRuns, BatRunsCol);
    SumByPermutation(BatLines(gs), BattingTable(rs), LineRuns);
  }

  /** The batting table is ordered by runs, then strike rate, both descending. */
  lemma BattingTableOrdered(rs: seq<Row>)
    ensures var t := BattingTable(rs);
      forall i, j :: 0 <= i < j < |t| ==> t[i].r > t[j].r || (t[i].r == t[j].r && t[i].sr >= t[j].sr)
  {
    BatBeforeOrders();
    SortBySorted(BatLines(GroupByName(rs, BatsmanKey)), BatBefore);
  }

  /** Each batting line holds the figures of exactly that batsman's deliveries. */
  lemma BattingLineMeaning(rs: seq<Row>, i: int)
    requires 0 <= i < |BattingTable(rs)|
    ensures var l := BattingTable(rs)[i];
      l == BatLineOf(Group(l.batsman, TallyOf(Select(rs, BatsmanKey, l.batsman))))
  {
    var gs := GroupByName(rs, BatsmanKey);
    SortedRowsFrom(BatLines(gs), BatBefore, i);
  }

  /** Every batsman of the selection has a line in the batting table. */
  lemma BattingTableComplete(rs: seq<Row>)
    ensures var t := BattingTable(rs);
      forall r :: r in rs ==> exists i :: 0 <= i < |t| && t[i].batsman == r.d.batsman
  {
    var gs := GroupByName(rs, BatsmanKey);
    var ls := BatLines(gs);
    var t := BattingTable(rs);
    forall r | r in rs
      ensures exists i :: 0 <= i < |t| && t[i].batsman == r.d.batsman
    {
      var m := GroupIndex(rs, BatsmanKey, SortedKeys(rs, BatsmanKey), r);
      assert ls[m] in multiset(t);
      var i :| 0 <= i < |t| && t[i] == ls[m];
    }
  }

  /** A legal dot and a wide the batter did not score from make a Dot% of 200: dots count every
      row with no bat runs, but balls count only legal ones. */
  lemma BatterDotShareCanExceedHundred(a: Row, w: Row)
    requires a.legal && a.d.batsmanRuns == 0
    requires !w.legal && w.d.batsmanRuns == 0
    ensures BatLineOf(Group(a.d.batsman, TallyOf([a, w]))).dotPct == 200.0
  {
    assert [a, w][1..] == [w];
    assert [w][1..] == [];
  }

  // ---------------------------------------------------------------- bowling lines

  /** One bowling line: overs, runs conceded, wickets, economy, strike rate and dot share. */
  datatype BowlLine = BowlLine(bowler: string, b: nat, r: int, w: nat, dots: nat, o: real, econ: real, sr: Option<real>, dotPct: real)

  /** Lines 276-288 for one bowler's rows. */
  function BowlLineOf(g: Group<string>): (l: BowlLine)
    requires g.tally.Consistent()
    ensures l.bowler == g.key && l.b == g.tally.legal && l.r == g.tally.totalRuns && l.w == g.tally.wickets
    ensures l.dots <= l.b && l.w <= g.tally.rows
    ensures l.o == l.b as real / 6.0
    ensures l.dots == g.tally.legalDots
    ensures l.dotPct == Percent(l.dots, l.b)
    ensures l.econ == RunsPerOver(l.r, l.b)
    ensures l.sr == BallsPerWicket(l.b, l.w)
  {
    var t := g.tally;
    BowlLine(g.key, t.legal, t.totalRuns, t.wickets, t.legalDots, OverFromBalls(t.legal), RunsPerOver(t.totalRuns, t.legal),
      BallsPerWicket(t.legal, t.wickets), Percent(t.legalDots, t.legal))
  }

  /** The bowling strike rate, balls per wicket: undefined without a wicket. */
  function BallsPerWicket(balls: nat, wickets: nat): (sr: Option<real>)
    ensures sr.None? <==> wickets == 0
    ensures sr.Some? ==> sr.value * wickets as real == balls as real
  {
    if wickets > 0 then Some(balls as real / wickets as real) else None
  }

  function BowlLines(gs: seq<Group<string>>): (ls: seq<BowlLine>)
    requires forall g :: g in gs ==> g.tally.Consistent()
    ensures |ls| == |gs|
    ensures forall i :: 0 <= i < |gs| ==> ls[i] == BowlLineOf(gs[i])
  {
    if gs == [] then [] else [BowlLineOf(gs[0])] + BowlLines(gs[1..])
  }

  /** `sort_values(["W", "Econ"], ascending=[False, True])`, ties in name order. */
  predicate BowlBefore(x: BowlLine, y: BowlLine) {
    x.w > y.w || (x.w == y.w && (x.econ < y.econ || (x.econ == y.econ && LexLe(x.bowler, y.bowler))))
  }

  lemma BowlBeforeOrders()
    ensures Total(BowlBefore) && Transitive(BowlBefore)
  {
    LexLeIsTotalOrder();
  }

  function BowlingTable(rs: seq<Row>): seq<BowlLine> {
    SortBy(BowlLines(GroupByName(rs, BowlerKey)), BowlBefore)
  }

  function LineBalls(l: BowlLine): int { l.b }
  function LineConceded(l: BowlLine): int { l.r }
  function LineWickets(l: BowlLine): int { l.w }

  /** The bowlers' balls, runs and wickets add up to the team's legal balls, runs and wickets. */
  lemma BowlingConserved(rs: seq<Row>)
    ensures SumBy(BowlingTable(rs), LineBalls) == KpisOf(rs).balls
    ensures SumBy(BowlingTable(rs), LineConceded) == KpisOf(rs).runs
    ensures SumBy(BowlingTable(rs), LineWickets) == KpisOf(rs).wickets
  {
    var gs := GroupByName(rs, BowlerKey);
    var ls := BowlLines(gs);
    GroupByNameFacts(rs, BowlerKey);
    SumOfColumn(gs, ls, LineBalls, LegalCol);
    SumOfColumn(gs, ls, LineConceded, RunsCol);
    SumOfColumn(gs, ls, LineWickets, WicketsCol);
    SumByPermutation(ls, BowlingTable(rs), LineBalls);
    SumByPermutation(ls, BowlingTable(rs), LineConceded);
    SumByPermutation(ls, BowlingTable(rs), LineWickets);
  }

  /** The bowling table is ordered by wickets descending, then economy ascending. */
  lemma BowlingTableOrdered(rs: seq<Row>)
    ensures var t := BowlingTable(rs);
      forall i, j :: 0 <= i < j < |t| ==> t[i].w > t[j].w || (t[i].w == t[j].w && t[i].econ <= t[j].econ)
  {
    BowlBeforeOrders();
    SortBySorted(BowlLines(GroupByName(rs, BowlerKey)), BowlBefore);
  }

  /** Each bowling line holds the figures of exactly that bowler's deliveries. */
  lemma BowlingLineMeaning(rs: seq<Row>, i: int)
    requires 0 <= i < |BowlingTable(rs)|
    ensures var l := BowlingTable(rs)[i];
      l == BowlLineOf(Group(l.bowler, TallyOf(Select(rs, BowlerKey, l.bowler))))
  {
    var gs := GroupByName(rs, BowlerKey);
    SortedRowsFrom(BowlLines(gs), BowlBefore, i);
  }

  /** Every bowler of the selection has a line in the bowling table. */
  lemma BowlingTableComplete(rs: seq<Row>)
    ensures var t := BowlingTable(rs);
      forall r :: r in rs ==> exists i :: 0 <= i < |t| && t[i].bowler == r.d.bowler
  {
    var gs := GroupByName(rs, BowlerKey);
    var ls := BowlLines(gs);
    var t := BowlingTable(rs);
    forall r | r in rs
      ensures exists i :: 0 <= i < |t| && t[i].bowler == r.d.bowler
    {
      var m := GroupIndex(rs, BowlerKey, SortedKeys(rs, BowlerKey), r);
      assert ls[m] in multiset(t);
      var i :| 0 <= i < |t| && t[i] == ls[m];
    }
  }

  // ---------------------------------------------------------------- pace/spin table

  /** One row of the pace/spin table; `dots` counts every row with `total_runs == 0`. */
  datatype StyleRow = StyleRow(style: string, b: nat, r: int, batRuns: int, dots: nat, sr: real, dotPct: real)

  /** Lines 305-315 for one style's rows, with "Unknown" shown as "Other". */
  function StyleRowOf(g: Group<Style>): (s: StyleRow)
    ensures s.style == g.key.Label() && s.style != "Unknown"
    ensures s.b == g.tally.legal && s.r == g.tally.totalRuns
    ensures s.batRuns == g.tally.batRuns && s.dots == g.tally.dotBalls
    ensures s.b == 0 ==> s.sr == 0.0 && s.dotPct == 0.0
    ensures s.b > 0 ==> s.sr * s.b as real == 100.0 * s.batRuns as real
    ensures s.b > 0 ==> s.dotPct * s.b as real == 100.0 * s.dots as real
  {
    var t := g.tally;
    StyleRow(g.key.Label(), t.legal, t.totalRuns, t.batRuns, t.dotBalls, Rate(100 * t.batRuns, t.legal), Rate(100 * t.dotBalls, t.legal))
  }

  function StyleRows(gs: seq<Group<Style>>): (ss: seq<StyleRow>)
    ensures |ss| == |gs|
    ensures forall i :: 0 <= i < |gs| ==> ss[i] == StyleRowOf(gs[i])
  {
    if gs == [] then [] else [StyleRowOf(gs[0])] + StyleRows(gs[1..])
  }

  predicate StyleLt(a: Style, b: Style) { a.Rank() < b.Rank() }

  /** Position of a shown label in the table's order Pace, Spin, Other. */
  function LabelRank(name: string): nat {
    if name == "Pace" then 0 else if name == "Spin" then 1 else 2
  }

  /** Relabelling keeps the group-by's order of the raw style names. */
  lemma LabelRankOfLabel(s: Style)
    ensures LabelRank(s.Label()) == s.Rank()
  {
    match s
    case Pace =>
    case Spin => assert s.Label()[0] != "Pace"[0];
    case Unknown =>
      assert s.Label()[0] != "Pace"[0];
      assert s.Label()[0] != "Spin"[0];
  }

  /** The group-by on the style names "Pace" < "Spin" < "Unknown", relabelled. */
  function StyleTable(rs: seq<Row>): seq<StyleRow> {
    StyleRows(Groups(rs, StyleKey, StyleOrder))
  }

  function StyleRowRuns(s: StyleRow): int { s.r }
  function StyleRowBalls(s: StyleRow): int { s.b }

  lemma StylesCover(rs: seq<Row>)
    ensures forall r :: r in rs ==> StyleKey(r) in StyleOrder
  {
    forall r | r in rs
      ensures StyleKey(r) in StyleOrder
    {
      assert r.coarse == Pace || r.coarse == Spin || r.coarse == Unknown;
    }
  }

  /** The style table's runs and balls add up to the team's. */
  lemma StyleTableConserves(rs: seq<Row>)
    ensures SumBy(StyleTable(rs), StyleRowRuns) == KpisOf(rs).runs
    ensures SumBy(StyleTable(rs), StyleRowBalls) == KpisOf(rs).balls
  {
    var gs := Groups(rs, StyleKey, StyleOrder);
    StylesCover(rs);
    GroupsConserve(rs, StyleKey, StyleOrder);
    SumOfColumn(gs, StyleTable(rs), StyleRowRuns, RunsCol);
    SumOfColumn(gs, StyleTable(rs), StyleRowBalls, LegalCol);
  }

  /** The style table lists Pace, Spin and Other in that order, each at most once. */
  lemma StyleTableOrdered(rs: seq<Row>)
    ensures var ss := StyleTable(rs);
      forall i, j :: 0 <= i < j < |ss| ==> LabelRank(ss[i].style) < LabelRank(ss[j].style)
    ensures var ss := StyleTable(rs);
      forall i, j :: 0 <= i < j < |ss| ==> ss[i].style != ss[j].style
  {
    var gs := Groups(rs, StyleKey, StyleOrder);
    GroupsOrdered(rs, StyleKey, StyleOrder, StyleLt);
    var ss := StyleTable(rs);
    forall i, j | 0 <= i < j < |ss|
      ensures LabelRank(ss[i].style) < LabelRank(ss[j].style)
      ensures ss[i].style != ss[j].style
    {
      assert StyleLt(gs[i].key, gs[j].key);
      LabelRankOfLabel(gs[i].key);
      LabelRankOfLabel(gs[j].key);
    }
  }

  /** No style is shown as "Unknown". */
  lemma StyleTableLabels(rs: seq<Row>)
    ensures var ss := StyleTable(rs);
      forall i :: 0 <= i < |ss| ==> ss[i].style == "Pace" || ss[i].style == "Spin" || ss[i].style == "Other"
  {
  }

  // ---------------------------------------------------------------- bowling-action table

  datatype ActionRow = ActionRow(action: string, b: nat, r: int, batRuns: int, dots: nat, sr: real, dotPct: real)

  /** Lines 331-342 for one bowling action's rows. */
  function ActionRowOf(g: Group<string>): (a: ActionRow)
    requires g.tally.Consistent()
    ensures a.action == g.key && a.b == g.tally.legal && a.r == g.tally.totalRuns
    ensures a.batRuns == g.tally.batRuns && a.dots == g.tally.dotBalls
    ensures a.dots <= g.tally.rows
    ensures a.b == 0 ==> a.sr == 0.0 && a.dotPct == 0.0
    ensures a.b > 0 ==> a.sr * a.b as real == 100.0 * a.batRuns as real
    ensures a.b > 0 ==> a.dotPct * a.b as real == 100.0 * a.dots as real
  {
    var t := g.tally;
    ActionRow(g.key, t.legal, t.totalRuns, t.batRuns, t.dotBalls, Rate(100 * t.batRuns, t.legal), Rate(100 * t.dotBalls, t.legal))
  }

  function ActionRows(gs: seq<Group<string>>): (as_: seq<ActionRow>)
    requires forall g :: g in gs ==> g.tally.Consistent()
    ensures |as_| == |gs|
    ensures forall i :: 0 <= i < |gs| ==> as_[i] == ActionRowOf(gs[i])
  {
    if gs == [] then [] else [ActionRowOf(gs[0])] + ActionRows(gs[1..])
  }

  /** `sort_values("R", ascending=False)`; the order of equal runs is left to the sort
      algorithm, and this model keeps name order. */
  predicate ActionBefore(x: ActionRow, y: ActionRow) {
    x.r > y.r || (x.r == y.r && LexLe(x.action, y.action))
  }

  lemma ActionBeforeOrders()
    ensures Total(ActionBefore) && Transitive(ActionBefore)
  {
    LexLeIsTotalOrder();
  }

  function ActionTable(rs: seq<Row>): seq<ActionRow> {
    SortBy(ActionRows(GroupByName(rs, ActionKey)), ActionBefore)
  }

  function ActionRowRuns(a: ActionRow): int { a.r }

  /** The action table's runs add up to the team's runs, largest first. */
  lemma ActionTableFacts(rs: seq<Row>)
    ensures SumBy(ActionTable(rs), ActionRowRuns) == KpisOf(rs).runs
    ensures var t := ActionTable(rs);
      forall i, j :: 0 <= i < j < |t| ==> t[i].r >= t[j].r
  {
    var gs := GroupByName(rs, ActionKey);
    GroupByNameFacts(rs, ActionKey);
    SumOfColumn(gs, ActionRows(gs), ActionRowRuns, RunsCol);
    SumByPermutation(ActionRows(gs), ActionTable(rs), ActionRowRuns);
    ActionBeforeOrders();
    SortBySorted(ActionRows(gs), ActionBefore);
  }
}
