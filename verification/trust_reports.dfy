/** What `trust_score` shows of the search: rounded numbers, and the ten largest contributions. */
module TrustReports {
  import opened TrustScores

  const SHOWN := 10

  /** A contribution as it is shown. */
  datatype Shown = Shown(truster: string, hop: nat, contribution: int)

  datatype Report = Report(score: int, direct: seq<(string, int)>, paths: seq<Shown>)

  /** Python's `round` to an integer: to the nearest one, and to the even one of two. */
  function Round(x: real): int
  {
    var low := x.Floor;
    var part := x - low as real;
    if part < 0.5 || (part == 0.5 && low % 2 == 0) then low else low + 1
  }

  /** The nearest integer, and the even one of two that are equally near. */
  predicate Nearest(x: real, n: int)
  {
    -0.5 <= x - n as real <= 0.5 && ((x - n as real == 0.5 || x - n as real == -0.5) ==> n % 2 == 0)
  }

  lemma RoundMeaning(x: real, n: int)
    ensures Round(x) == n <==> Nearest(x, n)
  {
    var low := x.Floor;
    assert low as real <= x < low as real + 1.0;
    if -0.5 <= x - n as real <= 0.5 {
      assert n == low || n == low + 1;
    }
  }

  function ShownOf(paths: seq<Path>): (shown: seq<Shown>)
    ensures |shown| == |paths|
    ensures forall i | 0 <= i < |paths| ::
              && shown[i].truster == paths[i].truster && shown[i].hop == paths[i].hop
              && Nearest(paths[i].contribution, shown[i].contribution)
  {
    seq(|paths|, i requires 0 <= i < |paths| => RoundMeaning(paths[i].contribution, Round(paths[i].contribution)); Shown(paths[i].truster, paths[i].hop, Round(paths[i].contribution)))
  }

  function Size(s: Shown): nat
  {
    if s.contribution < 0 then -s.contribution else s.contribution
  }

  // ---------------------------------------------------------------- ranking

  /** The number is further from zero than the other one. */
  predicate Outweighs(a: int, b: int)
  {
    (a > b && a > -b) || (-a > b && -a > -b)
  }

  /** Larger contributions first, and equally large ones in the order in which they were found. */
  predicate RanksBefore(shown: seq<Shown>, i: nat, j: nat)
    requires i < |shown| && j < |shown|
  {
    var a, b := shown[i].contribution, shown[j].contribution;
    Outweighs(a, b) || ((a == b || a == -b) && i < j)
  }

  predicate Positions(shown: seq<Shown>, order: seq<nat>)
  {
    forall i | 0 <= i < |order| :: order[i] < |shown|
  }

  predicate Ranked(shown: seq<Shown>, order: seq<nat>)
    requires Positions(shown, order)
  {
    forall i, j | 0 <= i < j < |order| :: RanksBefore(shown, order[i], order[j])
  }

  /** Puts a position that was found after all others into a ranking. */
  function Insert(shown: seq<Shown>, order: seq<nat>, x: nat): (r: seq<nat>)
    requires Positions(shown, order) && x < |shown|
    ensures Positions(shown, r) && |r| == |order| + 1
  {
    if order == [] then [x]
    else if Size(shown[order[|order| - 1]]) >= Size(shown[x]) then order + [x]
    else Insert(shown, order[..|order| - 1], x) + [order[|order| - 1]]
  }

  /** `sorted` by size, largest first; the sort is stable. */
  function Ranking(shown: seq<Shown>, n: nat): (order: seq<nat>)
    requires n <= |shown|
    ensures Positions(shown, order) && |order| == n
  {
    if n == 0 then [] else Insert(shown, Ranking(shown, n - 1), n - 1)
  }

  function Top(shown: seq<Shown>): seq<Shown>
  {
    var order := Ranking(shown, |shown|);
    seq(if |order| <= SHOWN then |order| else SHOWN, i requires 0 <= i < |order| && i < SHOWN => shown[order[i]])
  }

  lemma {:induction false} InsertRanks(shown: seq<Shown>, order: seq<nat>, x: nat)
    requires Positions(shown, order) && x < |shown| && Ranked(shown, order)
    requires forall i | 0 <= i < |order| :: order[i] < x
    ensures Ranked(shown, Insert(shown, order, x))
    ensures forall y: nat :: y in Insert(shown, order, x) <==> y in order || y == x
  {
    if order != [] {
      var front, last := order[..|order| - 1], order[|order| - 1];
      assert order == front + [last];
      if Size(shown[last]) >= Size(shown[x]) {
        forall i | 0 <= i < |order| ensures RanksBefore(shown, order[i], x) {
          assert i < |order| - 1 ==> RanksBefore(shown, order[i], last);
        }
      } else {
        InsertRanks(shown, front, x);
        var r := Insert(shown, front, x);
        forall i | 0 <= i < |r| ensures RanksBefore(shown, r[i], last) {
          assert r[i] in front || r[i] == x;
          if r[i] in front {
            var k :| 0 <= k < |front| && front[k] == r[i];
            assert RanksBefore(shown, order[k], order[|order| - 1]);
          }
        }
      }
    }
  }

  /** The ranking lists every position once. */
  lemma {:induction false} RankingRanks(shown: seq<Shown>, n: nat)
    requires n <= |shown|
    ensures Ranked(shown, Ranking(shown, n))
    ensures forall y: nat :: y in Ranking(shown, n) <==> y < n
  {
    if n > 0 {
      RankingRanks(shown, n - 1);
      var order := Ranking(shown, n - 1);
      forall i | 0 <= i < |order| ensures order[i] < n - 1 {
        assert order[i] in order;
      }
      InsertRanks(shown, order, n - 1);
    }
  }

  /** What is shown is the first ten of the ranking: in rank order, and before everything left out. */
  lemma TopMeaning(shown: seq<Shown>) returns (order: seq<nat>)
    ensures |order| == |Top(shown)| == if |shown| <= SHOWN then |shown| else SHOWN
    ensures Positions(shown, order) && Ranked(shown, order)
    ensures forall i | 0 <= i < |order| :: Top(shown)[i] == shown[order[i]]
    ensures forall i, y: nat | 0 <= i < |order| && y < |shown| && y !in order :: RanksBefore(shown, order[i], y)
  {
    var all := Ranking(shown, |shown|);
    RankingRanks(shown, |shown|);
    order := all[..|Top(shown)|];
    forall i, y: nat | 0 <= i < |order| && y < |shown| && y !in order ensures RanksBefore(shown, order[i], y) {
      assert y in all;
      var k :| 0 <= k < |all| && all[k] == y;
      assert forall j | 0 <= j < |order| :: all[j] in order;
      assert k >= |order|;
      assert RanksBefore(shown, all[i], all[k]);
    }
  }

  /** The paths shown are the first ten of the stable ranking by size. */
  ghost predicate ShowsLargest(shown: seq<Shown>, top: seq<Shown>)
  {
    exists order: seq<nat> ::
      && |order| == |top| == (if |shown| <= 10 then |shown| else 10)
      && Positions(shown, order) && Ranked(shown, order)
      && (forall i | 0 <= i < |order| :: top[i] == shown[order[i]])
      && (forall i, y: nat | 0 <= i < |order| && y < |shown| && y !in order :: RanksBefore(shown, order[i], y))
  }

  /** `trust_score`. */
  method TrustScoreOf(target: string, edges: seq<Edge>, depth: int := 2, decay: real := 0.5)
    returns (r: Report, ghost found: seq<Path>, ghost claims: seq<Claim>)
    ensures Reported(edges, target, depth, decay, found, claims)
    ensures exists factors :: Weighted(edges, target, decay, found, claims, factors)
    ensures Nearest(Total(found), r.score) && ShowsLargest(ShownOf(found), r.paths)
    ensures r.direct == InboundOf(edges, target)
  {
    var exact;
    exact, claims := Score(target, edges, depth, decay);
    found := exact.paths;
    RoundMeaning(exact.score, Round(exact.score));
    ghost var order := TopMeaning(ShownOf(exact.paths));
    r := Report(Round(exact.score), exact.direct, Top(ShownOf(exact.paths)));
  }
}
