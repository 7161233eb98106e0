/** The leaderboard's ranking: an exact weighted score and a total order that breaks ties. */
module Ranking {
  import opened Common
  import Leaderboard

  type Id = Leaderboard.Id

  datatype Weights = Weights(quality: real, wallets: real, repeats: real, completions: real)

  /** One eligible protocol's inputs. */
  datatype Candidate = Candidate(id: Id, quality: real, wallets: nat, repeats: nat, completions: nat)

  const WALLETS_BASELINE: real := 100.0
  const REPEATS_BASELINE: real := 50.0
  const COMPLETIONS_BASELINE: real := 200.0

  function Least(x: real, y: real): real {
    if x <= y then x else y
  }

  /** A count as a share of its baseline, at most 1. */
  function Share(n: nat, baseline: real): real
    requires baseline > 0.0
  {
    Least(n as real / baseline, 1.0)
  }

  function Weighted(weight: real, share: real): real {
    weight * share
  }

  /** The four weighted components. */
  function Components(w: Weights, c: Candidate): (parts: seq<real>)
    ensures |parts| == 4
  {
    [ Weighted(w.quality, Least(c.quality, 1.0)),
      Weighted(w.wallets, Share(c.wallets, WALLETS_BASELINE)),
      Weighted(w.repeats, Share(c.repeats, REPEATS_BASELINE)),
      Weighted(w.completions, Share(c.completions, COMPLETIONS_BASELINE)) ]
  }

  function Total(parts: seq<real>): real
    requires |parts| == 4
  {
    parts[0] + parts[1] + parts[2] + parts[3]
  }

  function Score(w: Weights, c: Candidate): real {
    Total(Components(w, c))
  }

  /** The score, with its baselines and caps: each part counts up to its baseline and no further. */
  lemma ScoreIs(w: Weights, c: Candidate)
    ensures Score(w, c) ==
      w.quality * (if c.quality <= 1.0 then c.quality else 1.0)
      + w.wallets * (if c.wallets <= 100 then c.wallets as real / 100.0 else 1.0)
      + w.repeats * (if c.repeats <= 50 then c.repeats as real / 50.0 else 1.0)
      + w.completions * (if c.completions <= 200 then c.completions as real / 200.0 else 1.0)
  {
    ShareIs(c.wallets, 100);
    ShareIs(c.repeats, 50);
    ShareIs(c.completions, 200);
  }

  lemma ShareIs(n: nat, baseline: nat)
    requires baseline > 0
    ensures Share(n, baseline as real) == if n <= baseline then n as real / baseline as real else 1.0
  {
    Ratio(n as real, baseline as real);
  }

  lemma Ratio(x: real, y: real)
    requires y > 0.0
    ensures x / y <= 1.0 <==> x <= y
  {
  }

  /** A row of the `scored` subquery. */
  datatype Scored = Scored(id: Id, score: real)

  function Scores(w: Weights, cs: seq<Candidate>): (out: seq<Scored>)
    ensures |out| == |cs|
  {
    seq(|cs|, i requires 0 <= i < |cs| => Scored(cs[i].id, Score(w, cs[i])))
  }

  /** `ORDER BY score DESC, protocol_id ASC`, with `before` the order of ids. */
  predicate Ahead(before: (Id, Id) -> bool, c: Scored, d: Scored) {
    c.score > d.score || (c.score == d.score && before(c.id, d.id))
  }

  lemma WeighMonotone(weight: real, x: real, y: real)
    requires weight >= 0.0 && x <= y
    ensures Weighted(weight, x) <= Weighted(weight, y)
  {
    assert weight * (y - x) >= 0.0;
  }

  lemma ShareMonotone(weight: real, m: nat, n: nat, baseline: real)
    requires weight >= 0.0 && m <= n && baseline > 0.0
    ensures Weighted(weight, Share(m, baseline)) <= Weighted(weight, Share(n, baseline))
  {
    assert m as real / baseline <= n as real / baseline;
    WeighMonotone(weight, Share(m, baseline), Share(n, baseline));
  }

  lemma ComponentsMonotone(w: Weights, c: Candidate, d: Candidate)
    requires w.quality >= 0.0 && w.wallets >= 0.0 && w.repeats >= 0.0 && w.completions >= 0.0
    requires c.quality <= d.quality && c.wallets <= d.wallets
    requires c.repeats <= d.repeats && c.completions <= d.completions
    ensures Components(w, c)[0] <= Components(w, d)[0]
    ensures Components(w, c)[1] <= Components(w, d)[1]
    ensures Components(w, c)[2] <= Components(w, d)[2]
    ensures Components(w, c)[3] <= Components(w, d)[3]
  {
    WeighMonotone(w.quality, Least(c.quality, 1.0), Least(d.quality, 1.0));
    ShareMonotone(w.wallets, c.wallets, d.wallets, WALLETS_BASELINE);
    ShareMonotone(w.repeats, c.repeats, d.repeats, REPEATS_BASELINE);
    ShareMonotone(w.completions, c.completions, d.completions, COMPLETIONS_BASELINE);
  }

  lemma TotalMonotone(a: seq<real>, b: seq<real>)
    requires |a| == |b| == 4 && a[0] <= b[0] && a[1] <= b[1] && a[2] <= b[2] && a[3] <= b[3]
    ensures Total(a) <= Total(b)
  {
  }

  /** With non-negative weights a protocol that is no better on any count never scores higher, so it is
      placed ahead only on equal scores, by its id. */
  lemma DominatedIsBehind(w: Weights, before: (Id, Id) -> bool, cs: seq<Candidate>, i: nat, j: nat)
    requires w.quality >= 0.0 && w.wallets >= 0.0 && w.repeats >= 0.0 && w.completions >= 0.0
    requires i < |cs| && j < |cs|
    requires cs[i].quality <= cs[j].quality && cs[i].wallets <= cs[j].wallets
    requires cs[i].repeats <= cs[j].repeats && cs[i].completions <= cs[j].completions
    ensures var out := Scores(w, cs);
      Ahead(before, out[i], out[j]) ==> out[i].score == out[j].score && before(cs[i].id, cs[j].id)
  {
    ComponentsMonotone(w, cs[i], cs[j]);
    TotalMonotone(Components(w, cs[i]), Components(w, cs[j]));
  }

  ghost predicate DistinctIds(cs: seq<Scored>) {
    forall i, j :: 0 <= i < j < |cs| ==> cs[i].id != cs[j].id
  }

  ghost predicate Ranked(before: (Id, Id) -> bool, cs: seq<Scored>) {
    forall i, j :: 0 <= i < j < |cs| ==> Ahead(before, cs[i], cs[j])
  }

  /** Put a candidate in its place. */
  function Place(before: (Id, Id) -> bool, cs: seq<Scored>, c: Scored): seq<Scored> {
    if cs == [] || Ahead(before, c, cs[0]) then [c] + cs
    else [cs[0]] + Place(before, cs[1..], c)
  }

  function Rank(before: (Id, Id) -> bool, cs: seq<Scored>): seq<Scored> {
    if cs == [] then [] else Place(before, Rank(before, cs[..|cs| - 1]), cs[|cs| - 1])
  }

  lemma {:induction false} PlaceMembers(before: (Id, Id) -> bool, cs: seq<Scored>, c: Scored)
    ensures multiset(Place(before, cs, c)) == multiset(cs) + multiset{c}
  {
    if cs == [] || Ahead(before, c, cs[0]) {
    } else {
      PlaceMembers(before, cs[1..], c);
      assert cs == [cs[0]] + cs[1..];
    }
  }

  /** Everyone placed is the newcomer or was there before. */
  lemma PlacedFrom(before: (Id, Id) -> bool, cs: seq<Scored>, c: Scored, i: nat)
    requires i < |Place(before, cs, c)|
    ensures Place(before, cs, c)[i] == c || Place(before, cs, c)[i] in cs
  {
    PlaceMembers(before, cs, c);
    assert Place(before, cs, c)[i] in multiset(Place(before, cs, c));
  }

  lemma {:induction false} PlaceIsRanked(before: (Id, Id) -> bool, cs: seq<Scored>, c: Scored)
    requires StrictTotalOrder(before) && Ranked(before, cs)
    requires forall i :: 0 <= i < |cs| ==> cs[i].id != c.id
    ensures Ranked(before, Place(before, cs, c))
  {
    if cs == [] || Ahead(before, c, cs[0]) {
      FrontIsRanked(before, c, cs);
    } else {
      var rest := Place(before, cs[1..], c);
      PlaceIsRanked(before, cs[1..], c);
      if rest != [] {
        PlacedFrom(before, cs[1..], c, 0);
        if rest[0] != c {
          var k :| 0 <= k < |cs[1..]| && cs[1..][k] == rest[0];
          assert Ahead(before, cs[0], cs[k + 1]);
        }
      }
      FrontIsRanked(before, cs[0], rest);
    }
  }

  lemma FrontIsRanked(before: (Id, Id) -> bool, c: Scored, cs: seq<Scored>)
    requires StrictTotalOrder(before) && Ranked(before, cs)
    requires cs != [] ==> Ahead(before, c, cs[0])
    ensures Ranked(before, [c] + cs)
  {
    forall j | 0 <= j < |cs| ensures Ahead(before, c, cs[j]) {
      if j > 0 {
        assert Ahead(before, cs[0], cs[j]);
      }
    }
  }

  lemma {:induction false} RankMembers(before: (Id, Id) -> bool, cs: seq<Scored>)
    ensures multiset(Rank(before, cs)) == multiset(cs)
  {
    if cs == [] {
    } else {
      var n := |cs| - 1;
      RankMembers(before, cs[..n]);
      PlaceMembers(before, Rank(before, cs[..n]), cs[n]);
      assert cs == cs[..n] + [cs[n]];
    }
  }

  lemma RankFrom(before: (Id, Id) -> bool, cs: seq<Scored>, i: nat)
    requires i < |Rank(before, cs)|
    ensures Rank(before, cs)[i] in cs
  {
    RankMembers(before, cs);
    assert Rank(before, cs)[i] in multiset(Rank(before, cs));
  }

  /** The ranking is a permutation of the candidates in strictly falling order. */
  lemma {:induction false} RankIsRanked(before: (Id, Id) -> bool, cs: seq<Scored>)
    requires StrictTotalOrder(before) && DistinctIds(cs)
    ensures Ranked(before, Rank(before, cs))
    ensures multiset(Rank(before, cs)) == multiset(cs)
  {
    RankMembers(before, cs);
    if cs == [] {
    } else {
      var n := |cs| - 1;
      var init := Rank(before, cs[..n]);
      RankIsRanked(before, cs[..n]);
      forall i | 0 <= i < |init| ensures init[i].id != cs[n].id {
        RankFrom(before, cs[..n], i);
      }
      PlaceIsRanked(before, init, cs[n]);
    }
  }

  lemma LeaderIsAhead(before: (Id, Id) -> bool, a: seq<Scored>, x: Scored)
    requires Ranked(before, a) && x in a
    ensures x == a[0] || Ahead(before, a[0], x)
  {
  }

  lemma SameLeader(before: (Id, Id) -> bool, a: seq<Scored>, b: seq<Scored>)
    requires StrictTotalOrder(before) && Ranked(before, a) && Ranked(before, b)
    requires a != [] && b != [] && a[0] in b && b[0] in a
    ensures a[0] == b[0]
  {
    LeaderIsAhead(before, a, b[0]);
    LeaderIsAhead(before, b, a[0]);
  }

  lemma DropLeader(a: seq<Scored>)
    requires a != []
    ensures multiset(a[1..]) == multiset(a) - multiset{a[0]}
  {
    assert a == [a[0]] + a[1..];
  }

  lemma {:induction false} RankedUnique(before: (Id, Id) -> bool, a: seq<Scored>, b: seq<Scored>)
    requires StrictTotalOrder(before) && Ranked(before, a) && Ranked(before, b)
    requires multiset(a) == multiset(b)
    ensures a == b
    decreases |a|
  {
    assert |multiset(a)| == |a| && |multiset(b)| == |b|;
    if a == [] {
    } else {
      assert a[0] in multiset(b) && b[0] in multiset(a);
      SameLeader(before, a, b);
      DropLeader(a);
      DropLeader(b);
      RankedUnique(before, a[1..], b[1..]);
      assert a == [a[0]] + a[1..] && b == [b[0]] + b[1..];
    }
  }

  /** The ranking does not depend on the order the rows were scanned in. */
  lemma RankIsDeterministic(before: (Id, Id) -> bool, a: seq<Scored>, b: seq<Scored>)
    requires StrictTotalOrder(before) && DistinctIds(a) && DistinctIds(b) && multiset(a) == multiset(b)
    ensures Rank(before, a) == Rank(before, b)
  {
    RankIsRanked(before, a);
    RankIsRanked(before, b);
    RankedUnique(before, Rank(before, a), Rank(before, b));
  }

  function Ids(cs: seq<Scored>): (ids: seq<Id>)
    ensures |ids| == |cs|
  {
    seq(|cs|, i requires 0 <= i < |cs| => cs[i].id)
  }

  /** The cron's run over the candidates of the moment. */
  function AttemptOf(
      before: (Id, Id) -> bool, cs: seq<Scored>, date: int, bonusDate: int, snapsOk: bool, bonusesOk: bool)
    : Leaderboard.Attempt
  {
    var protocols := set c | c in cs :: c.id;
    Leaderboard.Attempt(date, bonusDate, Ids(Rank(before, cs)), protocols, snapsOk, bonusesOk)
  }

  /** A ranking never names a protocol twice and names only candidates, which is what the
      leaderboard's tables are given. */
  lemma RankingIsGoodAttempt(
      before: (Id, Id) -> bool, cs: seq<Scored>, date: int, bonusDate: int, snapsOk: bool, bonusesOk: bool)
    requires StrictTotalOrder(before) && DistinctIds(cs)
    ensures Leaderboard.GoodAttempt(AttemptOf(before, cs, date, bonusDate, snapsOk, bonusesOk))
  {
    RankIsRanked(before, cs);
    var ranked := Rank(before, cs);
    forall i | 0 <= i < |ranked| ensures ranked[i] in cs {
      assert ranked[i] in multiset(cs);
    }
    forall i, j | 0 <= i < j < |ranked| ensures ranked[i].id != ranked[j].id {
      assert Ahead(before, ranked[i], ranked[j]);
      assert ranked[i] in cs && ranked[j] in cs;
    }
  }

  /** The first successful run of a date leaves exactly the head of the ranking on its board: rank
      `i + 1` is the ranking's `i`-th protocol, up to the board's size or the number of candidates. */
  lemma BoardIsRanking(
      cfg: Leaderboard.Config, t: Leaderboard.Tables,
      before: (Id, Id) -> bool, cs: seq<Scored>, date: int, bonusDate: int, bonusesOk: bool)
    requires StrictTotalOrder(before) && DistinctIds(cs)
    requires forall i :: 0 <= i < |t.snaps| ==> t.snaps[i].date != date
    ensures var n := Min(cfg.topN, |cs|);
      var ranked := Rank(before, cs);
      && |ranked| == |cs|
      && Leaderboard.Tick(cfg, t, AttemptOf(before, cs, date, bonusDate, true, bonusesOk)).snaps ==
           t.snaps + seq(n, i requires 0 <= i < n => Leaderboard.Snap(date, i + 1, ranked[i].id))
  {
    var a := AttemptOf(before, cs, date, bonusDate, true, bonusesOk);
    RankIsRanked(before, cs);
    RankingIsGoodAttempt(before, cs, date, bonusDate, true, bonusesOk);
    assert |multiset(Rank(before, cs))| == |multiset(cs)|;
    Leaderboard.FreshBoard(t.snaps, date, a.ranking, Min(cfg.topN, |cs|));
  }

  /** Nobody left off an `n`-place board outranks anybody on it. */
  lemma BoardIsTop(before: (Id, Id) -> bool, cs: seq<Scored>, n: nat, c: Scored, d: Scored)
    requires StrictTotalOrder(before) && DistinctIds(cs) && n <= |cs|
    requires var ranked := Rank(before, cs); |ranked| == |cs| && c in ranked[..n] && d in cs && d !in ranked[..n]
    ensures Ahead(before, c, d) && !Ahead(before, d, c)
  {
    RankIsRanked(before, cs);
    var ranked := Rank(before, cs);
    assert d in multiset(ranked);
    var i :| 0 <= i < n && ranked[i] == c;
    var j :| 0 <= j < |ranked| && ranked[j] == d;
    assert forall m :: 0 <= m < n ==> ranked[..n][m] == ranked[m];
    assert j >= n;
    assert Ahead(before, ranked[i], ranked[j]);
  }
}
