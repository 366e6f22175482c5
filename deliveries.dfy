/**
 * The ball-by-ball rows of one selection and the group-by machinery the analytics page applies to
 * them: per-row contributions, their totals, and grouping by a key.
 */
module Deliveries {
  import opened Common
  import opened Classify

  /** One prepared row: text fields are stripped strings, numeric fields integers. */
  datatype Delivery = Delivery(
    tournament: string, matchId: string, battingTeam: string,
    over: int, ball: int,
    batsman: string, bowler: string,
    batsmanRuns: int, totalRuns: int,
    ballType: string, bowlingAction: string, bowlerType: string,
    playerDismissed: string)

  /** A row of `dsel` once the page has added its `is_legal`, `phase` and `coarse` columns. */
  datatype Row = Row(d: Delivery, legal: bool, phase: Phase, coarse: Style)

  /** The added columns: the ball type is always a string once the sheet is prepared, so the
      missing-value branch of `is_legal` is not reached here. */
  function Annotate(d: Delivery): (r: Row)
    ensures r.d == d
    ensures r.legal == IsLegal(Some(d.ballType))
    ensures r.phase == PhaseFromOver(d.over)
    ensures r.coarse == CoarseType(d.bowlingAction, d.bowlerType)
  {
    Row(d, IsLegal(Some(d.ballType)), PhaseFromOver(d.over), CoarseType(d.bowlingAction, d.bowlerType))
  }

  /** `dsel` with its added columns. */
  function Annotated(ds: seq<Delivery>): (rs: seq<Row>)
    ensures |rs| == |ds|
    ensures forall i :: 0 <= i < |ds| ==> rs[i] == Annotate(ds[i])
  {
    seq(|ds|, i requires 0 <= i < |ds| => Annotate(ds[i]))
  }

  /** The values `replace(["", "nan", "None"], np.nan)` turns into a missing value. */
  const NotDismissed: set<string> := {"", "nan", "None"}

  /** A row records a dismissal when `player_dismissed` survives that replacement. */
  predicate IsDismissal(d: Delivery) {
    d.playerDismissed !in NotDismissed
  }

  /** Everything the page's aggregations sum or count over a set of rows. */
  datatype Tally = Tally(
    rows: nat,
    legal: nat,       // rows with `is_legal`
    faced: nat,       // `legal_ball`: legal rows with `batsman_runs >= 0`
    totalRuns: int,   // sum of `total_runs`
    batRuns: int,     // sum of `batsman_runs`
    fours: nat,       // rows with `batsman_runs == 4`
    sixes: nat,       // rows with `batsman_runs == 6`
    batDots: nat,     // rows with `batsman_runs == 0`
    dotBalls: nat,    // rows with `total_runs == 0`
    legalDots: nat,   // `dot`: legal rows with `total_runs == 0`
    wickets: nat)     // rows recording a dismissal
  {
    function Plus(o: Tally): Tally {
      Tally(rows + o.rows, legal + o.legal, faced + o.faced, totalRuns + o.totalRuns,
        batRuns + o.batRuns, fours + o.fours, sixes + o.sixes, batDots + o.batDots,
        dotBalls + o.dotBalls, legalDots + o.legalDots, wickets + o.wickets)
    }

    /** The counting facts every tally of real rows satisfies. */
    predicate Consistent() {
      faced <= legal <= rows
      && legalDots <= legal && legalDots <= dotBalls <= rows
      && fours + sixes + batDots <= rows
      && wickets <= rows
    }
  }

  const Zero: Tally := Tally(0, 0, 0, 0, 0, 0, 0, 0, 0, 0, 0)

  function Ind(b: bool): nat { if b then 1 else 0 }

  /** What one row adds to each aggregate. */
  function Unit(r: Row): Tally {
    var d := r.d;
    Tally(1, Ind(r.legal), Ind(r.legal && d.batsmanRuns >= 0), d.totalRuns, d.batsmanRuns,
      Ind(d.batsmanRuns == 4), Ind(d.batsmanRuns == 6), Ind(d.batsmanRuns == 0),
      Ind(d.totalRuns == 0), Ind(r.legal && d.totalRuns == 0), Ind(IsDismissal(d)))
  }

  /** The aggregates of a sequence of rows. */
  function TallyOf(ds: seq<Row>): (t: Tally)
    ensures t.rows == |ds|
    ensures t.Consistent()
  {
    if ds == [] then Zero else Unit(ds[0]).Plus(TallyOf(ds[1..]))
  }

  /** Aggregates add up over concatenation. */
  lemma {:induction false} TallyOfAppend(a: seq<Row>, b: seq<Row>)
    ensures TallyOf(a + b) == TallyOf(a).Plus(TallyOf(b))
    decreases |a|
  {
    if a != [] {
      assert (a + b)[1..] == a[1..] + b;
      TallyOfAppend(a[1..], b);
      calc {
        TallyOf(a + b);
        Unit(a[0]).Plus(TallyOf(a[1..] + b));
        Unit(a[0]).Plus(TallyOf(a[1..]).Plus(TallyOf(b)));
        { PlusAssociative(Unit(a[0]), TallyOf(a[1..]), TallyOf(b)); }
        Unit(a[0]).Plus(TallyOf(a[1..])).Plus(TallyOf(b));
        TallyOf(a).Plus(TallyOf(b));
      }
    } else {
      assert a + b == b;
      PlusZero(TallyOf(b));
    }
  }

  lemma PlusAssociative(x: Tally, y: Tally, z: Tally)
    ensures x.Plus(y).Plus(z) == x.Plus(y.Plus(z))
  {
  }

  lemma PlusCommutative(x: Tally, y: Tally)
    ensures x.Plus(y) == y.Plus(x)
  {
  }

  lemma PlusExchange(x: Tally, y: Tally, z: Tally)
    ensures x.Plus(y.Plus(z)) == y.Plus(x.Plus(z))
  {
  }

  lemma PlusZero(x: Tally)
    ensures x.Plus(Zero) == x && Zero.Plus(x) == x
  {
  }

  /** The rows whose key is `v`, in their original order (one group of a `groupby`). */
  function Select<K(==)>(ds: seq<Row>, keyOf: Row -> K, v: K): (r: seq<Row>)
    ensures |r| <= |ds|
    ensures forall d :: d in r <==> d in ds && keyOf(d) == v
  {
    if ds == [] then []
    else if keyOf(ds[0]) == v then [ds[0]] + Select(ds[1..], keyOf, v)
    else Select(ds[1..], keyOf, v)
  }

  /** The rows whose key is not `v`. */
  function Reject<K(==)>(ds: seq<Row>, keyOf: Row -> K, v: K): (r: seq<Row>)
    ensures |r| <= |ds|
    ensures forall d :: d in r <==> d in ds && keyOf(d) != v
  {
    if ds == [] then []
    else if keyOf(ds[0]) != v then [ds[0]] + Reject(ds[1..], keyOf, v)
    else Reject(ds[1..], keyOf, v)
  }

  /** Splitting the rows by one key value loses and duplicates nothing. */
  lemma {:induction false} TallySplit<K>(ds: seq<Row>, keyOf: Row -> K, v: K)
    ensures TallyOf(ds) == TallyOf(Select(ds, keyOf, v)).Plus(TallyOf(Reject(ds, keyOf, v)))
    decreases |ds|
  {
    if ds != [] {
      TallySplit(ds[1..], keyOf, v);
      var s, j := TallyOf(Select(ds[1..], keyOf, v)), TallyOf(Reject(ds[1..], keyOf, v));
      var u := Unit(ds[0]);
      SplitStep(ds, keyOf, v);
      assert TallyOf(ds) == u.Plus(s.Plus(j));
      if keyOf(ds[0]) == v {
        TallyCons(ds[0], Select(ds[1..], keyOf, v));
        PlusAssociative(u, s, j);
      } else {
        TallyCons(ds[0], Reject(ds[1..], keyOf, v));
        PlusExchange(u, s, j);
      }
    } else {
      PlusZero(Zero);
    }
  }

  /** The aggregates of a row followed by more rows. */
  lemma TallyCons(x: Row, s: seq<Row>)
    ensures TallyOf([x] + s) == Unit(x).Plus(TallyOf(s))
  {
    assert ([x] + s)[0] == x && ([x] + s)[1..] == s;
  }

  /** Where the first row goes when the rows are split by one key value. */
  lemma SplitStep<K>(ds: seq<Row>, keyOf: Row -> K, v: K)
    requires ds != []
    ensures keyOf(ds[0]) == v ==> Select(ds, keyOf, v) == [ds[0]] + Select(ds[1..], keyOf, v)
    ensures keyOf(ds[0]) == v ==> Reject(ds, keyOf, v) == Reject(ds[1..], keyOf, v)
    ensures keyOf(ds[0]) != v ==> Select(ds, keyOf, v) == Select(ds[1..], keyOf, v)
    ensures keyOf(ds[0]) != v ==> Reject(ds, keyOf, v) == [ds[0]] + Reject(ds[1..], keyOf, v)
  {
  }

  lemma {:induction false} SelectAfterReject<K>(ds: seq<Row>, keyOf: Row -> K, v: K, w: K)
    requires v != w
    ensures Select(Reject(ds, keyOf, v), keyOf, w) == Select(ds, keyOf, w)
    decreases |ds|
  {
    if ds != [] {
      SelectAfterReject(ds[1..], keyOf, v, w);
    }
  }

  /** One row of a group-by result: the key and the aggregates of its rows. */
  datatype Group<K> = Group(key: K, tally: Tally)

  /** `groupby(key)` with the keys visited in the order `ks`: one group per key that has rows. */
  function Groups<K(==)>(ds: seq<Row>, keyOf: Row -> K, ks: seq<K>): (r: seq<Group<K>>)
    ensures |r| <= |ks|
    ensures forall i :: 0 <= i < |r| ==> r[i].key in ks
    ensures forall i :: 0 <= i < |r| ==> r[i].tally == TallyOf(Select(ds, keyOf, r[i].key))
    ensures forall i :: 0 <= i < |r| ==> r[i].tally.rows > 0
    ensures forall g :: g in r ==> g.tally.Consistent()
  {
    if ks == [] then []
    else
      var g := Select(ds, keyOf, ks[0]);
      if g == [] then Groups(ds, keyOf, ks[1..])
      else [Group(ks[0], TallyOf(g))] + Groups(ds, keyOf, ks[1..])
  }

  /** Every key of `ks` that has rows gets a group. */
  lemma GroupsComplete<K>(ds: seq<Row>, keyOf: Row -> K, ks: seq<K>, d: Row)
    requires d in ds && keyOf(d) in ks
    ensures exists i :: 0 <= i < |Groups(ds, keyOf, ks)| && Groups(ds, keyOf, ks)[i].key == keyOf(d)
  {
    var i := GroupIndex(ds, keyOf, ks, d);
  }

  /** The position of the group of `d`'s key. */
  lemma {:induction false} GroupIndex<K>(ds: seq<Row>, keyOf: Row -> K, ks: seq<K>, d: Row) returns (i: nat)
    requires d in ds && keyOf(d) in ks
    ensures i < |Groups(ds, keyOf, ks)| && Groups(ds, keyOf, ks)[i].key == keyOf(d)
    decreases |ks|
  {
    var g := Select(ds, keyOf, ks[0]);
    var rest := Groups(ds, keyOf, ks[1..]);
    GroupsStep(ds, keyOf, ks);
    if ks[0] == keyOf(d) {
      assert d in g;
      i := 0;
    } else {
      assert keyOf(d) in ks[1..] by {
        var m :| 0 <= m < |ks| && ks[m] == keyOf(d);
        assert ks[1..][m - 1] == ks[m];
      }
      var k := GroupIndex(ds, keyOf, ks[1..], d);
      if g == [] {
        i := k;
      } else {
        assert ([Group(ks[0], TallyOf(g))] + rest)[k + 1] == rest[k];
        i := k + 1;
      }
    }
  }

  /** One step of the group-by: the first key's group, when it has rows, then the rest. */
  lemma GroupsStep<K>(ds: seq<Row>, keyOf: Row -> K, ks: seq<K>)
    requires ks != []
    ensures Select(ds, keyOf, ks[0]) == [] ==> Groups(ds, keyOf, ks) == Groups(ds, keyOf, ks[1..])
    ensures Select(ds, keyOf, ks[0]) != [] ==>
      Groups(ds, keyOf, ks) == [Group(ks[0], TallyOf(Select(ds, keyOf, ks[0])))] + Groups(ds, keyOf, ks[1..])
  {
  }

  /** The groups appear in the order of `ks`. */
  lemma {:induction false} GroupsOrdered<K>(ds: seq<Row>, keyOf: Row -> K, ks: seq<K>, lt: (K, K) -> bool)
    requires forall i, j :: 0 <= i < j < |ks| ==> lt(ks[i], ks[j])
    ensures KeysIncrease(Groups(ds, keyOf, ks), lt)
    decreases |ks|
  {
    if ks != [] {
      GroupsOrdered(ds, keyOf, ks[1..], lt);
      var rest := Groups(ds, keyOf, ks[1..]);
      HeadBeforeTail(ds, keyOf, ks, lt);
      var g := Select(ds, keyOf, ks[0]);
      if g != [] {
        assert Groups(ds, keyOf, ks) == [Group(ks[0], TallyOf(g))] + rest;
        ConsOrdered(Group(ks[0], TallyOf(g)), rest, lt);
      }
    }
  }

  /** The keys of `gs` increase under `lt`. */
  ghost predicate KeysIncrease<K>(gs: seq<Group<K>>, lt: (K, K) -> bool) {
    forall i, j :: 0 <= i < j < |gs| ==> lt(gs[i].key, gs[j].key)
  }

  lemma ConsOrdered<K>(g: Group<K>, rest: seq<Group<K>>, lt: (K, K) -> bool)
    requires forall j :: 0 <= j < |rest| ==> lt(g.key, rest[j].key)
    requires KeysIncrease(rest, lt)
    ensures KeysIncrease([g] + rest, lt)
  {
    var r := [g] + rest;
    forall i, j | 0 <= i < j < |r|
      ensures lt(r[i].key, r[j].key)
    {
      assert r[j] == rest[j - 1];
      if i > 0 {
        assert r[i] == rest[i - 1];
      }
    }
  }

  lemma HeadBeforeTail<K>(ds: seq<Row>, keyOf: Row -> K, ks: seq<K>, lt: (K, K) -> bool)
    requires ks != []
    requires forall i, j :: 0 <= i < j < |ks| ==> lt(ks[i], ks[j])
    ensures var rest := Groups(ds, keyOf, ks[1..]);
      forall j :: 0 <= j < |rest| ==> lt(ks[0], rest[j].key)
  {
    var rest := Groups(ds, keyOf, ks[1..]);
    forall j | 0 <= j < |rest|
      ensures lt(ks[0], rest[j].key)
    {
      var m :| 0 <= m < |ks[1..]| && ks[1..][m] == rest[j].key;
      assert ks[1 + m] == rest[j].key;
    }
  }

  /** The aggregates summed over a list of groups. */
  function SumTallies<K(==)>(gs: seq<Group<K>>): Tally {
    if gs == [] then Zero else gs[0].tally.Plus(SumTallies(gs[1..]))
  }

  /** No two positions of `ks` hold the same key. */
  predicate Distinct<K(==)>(ks: seq<K>) {
    forall i, j :: 0 <= i < j < |ks| ==> ks[i] != ks[j]
  }

  lemma {:induction false} GroupsIgnoreRejected<K>(ds: seq<Row>, keyOf: Row -> K, v: K, ks: seq<K>)
    requires v !in ks
    ensures Groups(Reject(ds, keyOf, v), keyOf, ks) == Groups(ds, keyOf, ks)
    decreases |ks|
  {
    if ks != [] {
      SelectAfterReject(ds, keyOf, v, ks[0]);
      GroupsIgnoreRejected(ds, keyOf, v, ks[1..]);
    }
  }

  /** Grouping conserves every aggregate: when every row's key is among the distinct keys `ks`,
      the groups' aggregates add up to those of all rows. */
  lemma {:induction false} GroupsConserve<K>(ds: seq<Row>, keyOf: Row -> K, ks: seq<K>)
    requires Distinct(ks)
    requires forall d :: d in ds ==> keyOf(d) in ks
    ensures SumTallies(Groups(ds, keyOf, ks)) == TallyOf(ds)
    decreases |ks|
  {
    if ks == [] {
      assert forall i :: 0 <= i < |ds| ==> ds[i] in ds;
    } else {
      var v := ks[0];
      var rest := Reject(ds, keyOf, v);
      assert v !in ks[1..] by {
        assert forall m :: 0 <= m < |ks| - 1 ==> ks[1..][m] == ks[m + 1];
      }
      GroupsIgnoreRejected(ds, keyOf, v, ks[1..]);
      forall d | d in rest
        ensures keyOf(d) in ks[1..]
      {
        assert keyOf(d) in ks && keyOf(d) != v;
      }
      GroupsConserve(rest, keyOf, ks[1..]);
      TallySplit(ds, keyOf, v);
      var sel := Select(ds, keyOf, v);
      var tail := Groups(ds, keyOf, ks[1..]);
      if sel == [] {
        assert Groups(ds, keyOf, ks) == tail;
        PlusZero(TallyOf(rest));
      } else {
        var r := Groups(ds, keyOf, ks);
        assert r == [Group(v, TallyOf(sel))] + tail;
        assert r[1..] == tail;
        assert SumTallies(r) == TallyOf(sel).Plus(SumTallies(tail));
      }
    }
  }

  lemma MultisetCancel<T>(x: multiset<T>, y: multiset<T>, e: T)
    requires x + multiset{e} == y + multiset{e}
    ensures x == y
  {
    assert forall z :: x[z] == (x + multiset{e})[z] - multiset{e}[z];
    assert forall z :: y[z] == (y + multiset{e})[z] - multiset{e}[z];
  }

  lemma {:induction false} SumTalliesAppend<K>(a: seq<Group<K>>, b: seq<Group<K>>)
    ensures SumTallies(a + b) == SumTallies(a).Plus(SumTallies(b))
    decreases |a|
  {
    if a != [] {
      assert (a + b)[1..] == a[1..] + b;
      SumTalliesAppend(a[1..], b);
      PlusAssociative(a[0].tally, SumTallies(a[1..]), SumTallies(b));
    } else {
      assert a + b == b;
      PlusZero(SumTallies(b));
    }
  }

  /** Taking one group out of a list takes its aggregates out of the sum. */
  lemma {:induction false} SumTalliesRemove<K>(b: seq<Group<K>>, i: int)
    requires 0 <= i < |b|
    ensures SumTallies(b) == b[i].tally.Plus(SumTallies(b[..i] + b[i + 1..]))
  {
    var pre, post := b[..i], b[i + 1..];
    assert b == pre + ([b[i]] + post);
    SumTalliesAppend(pre, [b[i]] + post);
    SumTalliesCons(b[i], post);
    SumTalliesAppend(pre, post);
    PlusExchange(SumTallies(pre), b[i].tally, SumTallies(post));
  }

  lemma {:induction false} SumTalliesCons<K>(g: Group<K>, gs: seq<Group<K>>)
    ensures SumTallies([g] + gs) == g.tally.Plus(SumTallies(gs))
  {
    assert ([g] + gs)[1..] == gs;
  }

  /** Rearranging groups does not change their sum. */
  lemma {:induction false} SumTalliesPermutation<K>(a: seq<Group<K>>, b: seq<Group<K>>)
    requires multiset(a) == multiset(b)
    ensures SumTallies(a) == SumTallies(b)
    decreases |a|
  {
    if a == [] {
      assert |b| == |multiset(b)| == 0;
    } else {
      assert a[0] in multiset(b);
      var i :| 0 <= i < |b| && b[i] == a[0];
      var b' := b[..i] + b[i + 1..];
      assert b == b[..i] + [b[i]] + b[i + 1..];
      assert multiset(b) == multiset(b[..i]) + multiset{b[i]} + multiset(b[i + 1..]);
      assert a == [a[0]] + a[1..];
      assert multiset(b') == multiset(b[..i]) + multiset(b[i + 1..]);
      assert multiset(a) == multiset{a[0]} + multiset(a[1..]);
      assert multiset(b') + multiset{a[0]} == multiset(b);
      assert multiset(a[1..]) + multiset{a[0]} == multiset(b);
      MultisetCancel(multiset(a[1..]), multiset(b'), a[0]);
      SumTalliesPermutation(a[1..], b');
      SumTalliesRemove(b, i);
    }
  }
}
