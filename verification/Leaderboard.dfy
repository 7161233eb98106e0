/** The daily leaderboard: conflict-ignoring snapshot rows, then conflict-ignoring bonus rows, under
    rankings that may shift between re-runs of a day. */
module Leaderboard {
  import opened Common

  type Id = string

  /** A row of `league_leaderboard_snapshots`. */
  datatype Snap = Snap(date: int, rank: nat, protocol: Id)

  /** A bonus row of `rewardz_earnings`, tagged with its snapshot date. */
  datatype Bonus = Bonus(date: int, protocol: Id, amount: int)

  datatype Config = Config(topN: nat, bonus: nat)

  datatype Tables = Tables(snaps: seq<Snap>, bonuses: seq<Bonus>)

  predicate SnapConflict(snaps: seq<Snap>, x: Snap) {
    exists i :: 0 <= i < |snaps| && snaps[i].date == x.date
      && (snaps[i].rank == x.rank || snaps[i].protocol == x.protocol)
  }

  predicate HasBonus(bonuses: seq<Bonus>, date: int, protocol: Id) {
    exists i :: 0 <= i < |bonuses| && bonuses[i].date == date && bonuses[i].protocol == protocol
  }

  predicate Snapped(snaps: seq<Snap>, date: int, protocol: Id) {
    exists i :: 0 <= i < |snaps| && snaps[i].date == date && snaps[i].protocol == protocol
  }

  /** `INSERT ... ON CONFLICT DO NOTHING`: row by row, in ranking order. */
  function AddSnaps(snaps: seq<Snap>, date: int, ranking: seq<Id>, n: nat): seq<Snap>
    requires n <= |ranking|
  {
    if n == 0 then snaps
    else
      var before := AddSnaps(snaps, date, ranking, n - 1);
      var x := Snap(date, n, ranking[n - 1]);
      if SnapConflict(before, x) then before else before + [x]
  }

  /** The bonus insert over the day's snapshot rows whose protocol still exists. */
  function AddBonuses(cfg: Config, bonuses: seq<Bonus>, snaps: seq<Snap>, date: int, protocols: set<Id>): seq<Bonus> {
    if snaps == [] then bonuses
    else
      var before := AddBonuses(cfg, bonuses, snaps[..|snaps| - 1], date, protocols);
      var x := snaps[|snaps| - 1];
      if x.date != date || x.protocol !in protocols || HasBonus(before, date, x.protocol) then before
      else before + [Bonus(date, x.protocol, cfg.bonus)]
  }

  /** One run of the cron. The ranking lists eligible protocols, best first. The two statements are
      separate: either may fail, and each reads the database's current date for itself. */
  datatype Attempt = Attempt(
    date: int,             // as the snapshot statement sees it
    bonusDate: int,        // as the bonus statement does
    ranking: seq<Id>,
    protocols: set<Id>,
    snapsOk: bool,
    bonusesOk: bool)

  function Kept(cfg: Config, a: Attempt): nat {
    Min(cfg.topN, |a.ranking|)
  }

  function NewSnaps(cfg: Config, t: Tables, a: Attempt): seq<Snap> {
    if a.snapsOk then AddSnaps(t.snaps, a.date, a.ranking, Kept(cfg, a)) else t.snaps
  }

  function Tick(cfg: Config, t: Tables, a: Attempt): Tables {
    var snaps := NewSnaps(cfg, t, a);
    if |snaps| == |t.snaps| || !a.bonusesOk then t.(snaps := snaps)
    else Tables(snaps, AddBonuses(cfg, t.bonuses, snaps, a.bonusDate, a.protocols))
  }

  ghost predicate GoodAttempt(a: Attempt) {
    && (forall i, j :: 0 <= i < j < |a.ranking| ==> a.ranking[i] != a.ranking[j])
    && (forall i :: 0 <= i < |a.ranking| ==> a.ranking[i] in a.protocols)
  }

  // ---------------------------------------------------------------- invariant

  ghost predicate SnapsOk(cfg: Config, snaps: seq<Snap>) {
    && (forall i :: 0 <= i < |snaps| ==> 1 <= snaps[i].rank <= cfg.topN)
    && (forall i, j :: 0 <= i < j < |snaps| && snaps[i].date == snaps[j].date ==>
          snaps[i].rank != snaps[j].rank && snaps[i].protocol != snaps[j].protocol)
  }

  ghost predicate BonusesOk(cfg: Config, snaps: seq<Snap>, bonuses: seq<Bonus>) {
    && (forall i :: 0 <= i < |bonuses| ==>
          bonuses[i].amount == cfg.bonus && Snapped(snaps, bonuses[i].date, bonuses[i].protocol))
    && (forall i, j :: 0 <= i < j < |bonuses| && bonuses[i].date == bonuses[j].date ==>
          bonuses[i].protocol != bonuses[j].protocol)
  }

  ghost predicate Sound(cfg: Config, t: Tables) {
    SnapsOk(cfg, t.snaps) && BonusesOk(cfg, t.snaps, t.bonuses)
  }

  lemma {:induction false} AddSnapsOk(cfg: Config, snaps: seq<Snap>, date: int, ranking: seq<Id>, n: nat)
    requires SnapsOk(cfg, snaps) && n <= |ranking| && n <= cfg.topN
    ensures SnapsOk(cfg, AddSnaps(snaps, date, ranking, n))
    ensures snaps <= AddSnaps(snaps, date, ranking, n)
  {
    if n == 0 {
    } else {
      AddSnapsOk(cfg, snaps, date, ranking, n - 1);
    }
  }

  lemma SnappedGrows(snaps: seq<Snap>, more: seq<Snap>, date: int, protocol: Id)
    requires snaps <= more && Snapped(snaps, date, protocol)
    ensures Snapped(more, date, protocol)
  {
    var i :| 0 <= i < |snaps| && snaps[i].date == date && snaps[i].protocol == protocol;
    assert more[i] == snaps[i];
  }

  lemma {:induction false} AddBonusesOk(
      cfg: Config, all: seq<Snap>, bonuses: seq<Bonus>, snaps: seq<Snap>, date: int, protocols: set<Id>)
    requires BonusesOk(cfg, all, bonuses) && snaps <= all
    ensures BonusesOk(cfg, all, AddBonuses(cfg, bonuses, snaps, date, protocols))
  {
    if snaps == [] {
    } else {
      var n := |snaps| - 1;
      AddBonusesOk(cfg, all, bonuses, snaps[..n], date, protocols);
      assert all[n] == snaps[n];
    }
  }

  lemma TickKeepsOk(cfg: Config, t: Tables, a: Attempt)
    requires Sound(cfg, t)
    ensures Sound(cfg, Tick(cfg, t, a))
  {
    var snaps := NewSnaps(cfg, t, a);
    if a.snapsOk {
      AddSnapsOk(cfg, t.snaps, a.date, a.ranking, Kept(cfg, a));
    }
    forall i | 0 <= i < |t.bonuses| ensures Snapped(snaps, t.bonuses[i].date, t.bonuses[i].protocol) {
      SnappedGrows(t.snaps, snaps, t.bonuses[i].date, t.bonuses[i].protocol);
    }
    AddBonusesOk(cfg, snaps, t.bonuses, snaps, a.bonusDate, a.protocols);
  }

  function Run(cfg: Config, t: Tables, attempts: seq<Attempt>): Tables {
    if attempts == [] then t
    else Tick(cfg, Run(cfg, t, attempts[..|attempts| - 1]), attempts[|attempts| - 1])
  }

  // ---------------------------------------------------------------- what a day may pay

  function SumBonuses(bonuses: seq<Bonus>, date: int): int {
    if bonuses == [] then 0
    else
      var last := bonuses[|bonuses| - 1];
      SumBonuses(bonuses[..|bonuses| - 1], date) + if last.date == date then last.amount else 0
  }

  function PaidOn(bonuses: seq<Bonus>, date: int): set<Id> {
    set i | 0 <= i < |bonuses| && bonuses[i].date == date :: bonuses[i].protocol
  }

  function SnappedOn(snaps: seq<Snap>, date: int): set<Id> {
    set i | 0 <= i < |snaps| && snaps[i].date == date :: snaps[i].protocol
  }

  function RanksOn(snaps: seq<Snap>, date: int): set<nat> {
    set i | 0 <= i < |snaps| && snaps[i].date == date :: snaps[i].rank
  }

  lemma {:induction false} SumIsCount(cfg: Config, snaps: seq<Snap>, bonuses: seq<Bonus>, date: int)
    requires BonusesOk(cfg, snaps, bonuses)
    ensures SumBonuses(bonuses, date) == |PaidOn(bonuses, date)| * cfg.bonus
  {
    if bonuses == [] {
    } else {
      var n := |bonuses| - 1;
      SumIsCount(cfg, snaps, bonuses[..n], date);
      PaidOnSnoc(bonuses, date);
      if bonuses[n].date == date {
        LastPaidIsNew(cfg, snaps, bonuses, date);
        GrowByOne(PaidOn(bonuses[..n], date), bonuses[n].protocol);
        OneMore(|PaidOn(bonuses[..n], date)|, cfg.bonus);
      }
    }
  }

  lemma LastPaidIsNew(cfg: Config, snaps: seq<Snap>, bonuses: seq<Bonus>, date: int)
    requires BonusesOk(cfg, snaps, bonuses) && bonuses != [] && bonuses[|bonuses| - 1].date == date
    ensures bonuses[|bonuses| - 1].protocol !in PaidOn(bonuses[..|bonuses| - 1], date)
  {
    var n := |bonuses| - 1;
    forall i | 0 <= i < n && bonuses[..n][i].date == date ensures bonuses[..n][i].protocol != bonuses[n].protocol {
      assert bonuses[..n][i] == bonuses[i];
    }
  }

  lemma OneMore(k: nat, b: nat)
    ensures (k + 1) * b == k * b + b
  {
  }

  lemma PaidOnSnoc(bonuses: seq<Bonus>, date: int)
    requires bonuses != []
    ensures var n := |bonuses| - 1;
      PaidOn(bonuses, date) ==
        PaidOn(bonuses[..n], date) + if bonuses[n].date == date then {bonuses[n].protocol} else {}
  {
    var n := |bonuses| - 1;
    forall x | x in PaidOn(bonuses[..n], date) ensures x in PaidOn(bonuses, date) {
      var i :| 0 <= i < n && bonuses[..n][i].date == date && bonuses[..n][i].protocol == x;
      assert bonuses[i].protocol == x;
    }
    forall x | x in PaidOn(bonuses, date)
      ensures x in PaidOn(bonuses[..n], date) || (bonuses[n].date == date && x == bonuses[n].protocol)
    {
      var i :| 0 <= i < |bonuses| && bonuses[i].date == date && bonuses[i].protocol == x;
      if i < n {
        assert bonuses[..n][i].protocol == x;
      }
    }
  }

  lemma SnapsOnSnoc(snaps: seq<Snap>, date: int)
    requires snaps != []
    ensures var n := |snaps| - 1; var more := snaps[n].date == date;
      && RanksOn(snaps, date) == RanksOn(snaps[..n], date) + (if more then {snaps[n].rank} else {})
      && SnappedOn(snaps, date) == SnappedOn(snaps[..n], date) + (if more then {snaps[n].protocol} else {})
  {
    var n := |snaps| - 1;
    assert forall i :: 0 <= i < n ==> snaps[..n][i] == snaps[i];
    forall i | 0 <= i < n && snaps[i].date == date
      ensures snaps[i].rank in RanksOn(snaps[..n], date) && snaps[i].protocol in SnappedOn(snaps[..n], date)
    {
      assert snaps[..n][i] == snaps[i];
    }
  }

  lemma LastIsNew(cfg: Config, snaps: seq<Snap>, date: int)
    requires SnapsOk(cfg, snaps) && snaps != [] && snaps[|snaps| - 1].date == date
    ensures var n := |snaps| - 1;
      snaps[n].rank !in RanksOn(snaps[..n], date) && snaps[n].protocol !in SnappedOn(snaps[..n], date)
  {
    var n := |snaps| - 1;
    forall i | 0 <= i < n && snaps[..n][i].date == date
      ensures snaps[..n][i].rank != snaps[n].rank && snaps[..n][i].protocol != snaps[n].protocol
    {
      assert snaps[..n][i] == snaps[i];
    }
  }

  lemma GrowByOne<T>(s: set<T>, x: T)
    requires x !in s
    ensures |s + {x}| == |s| + 1
  {
  }

  lemma {:induction false} AsManyRanksAsProtocols(cfg: Config, snaps: seq<Snap>, date: int)
    requires SnapsOk(cfg, snaps)
    ensures |RanksOn(snaps, date)| == |SnappedOn(snaps, date)|
  {
    if snaps == [] {
    } else {
      var n := |snaps| - 1;
      AsManyRanksAsProtocols(cfg, snaps[..n], date);
      SnapsOnSnoc(snaps, date);
      if snaps[n].date == date {
        LastIsNew(cfg, snaps, date);
        GrowByOne(RanksOn(snaps[..n], date), snaps[n].rank);
        GrowByOne(SnappedOn(snaps[..n], date), snaps[n].protocol);
      }
    }
  }

  function UpTo(n: nat): (s: set<nat>)
    ensures forall k: nat :: k in s <==> 1 <= k <= n
    ensures |s| == n
  {
    if n == 0 then {} else UpTo(n - 1) + {n}
  }

  lemma MulLe(a: nat, b: nat, c: nat)
    requires a <= b
    ensures a * c <= b * c
  {
    assert (b - a) * c >= 0;
  }

  /** Conservation: whatever the rankings did and however often a day was re-run, its rows have
      distinct ranks in 1..N and distinct protocols, bonuses go to snapshotted protocols only and at
      most once, and the day paid at most N bonuses. */
  lemma DayIsBounded(cfg: Config, attempts: seq<Attempt>, date: int)
    ensures var t := Run(cfg, Tables([], []), attempts);
      && Sound(cfg, t)
      && PaidOn(t.bonuses, date) <= SnappedOn(t.snaps, date)
      && |SnappedOn(t.snaps, date)| <= cfg.topN
      && SumBonuses(t.bonuses, date) == |PaidOn(t.bonuses, date)| * cfg.bonus <= cfg.topN * cfg.bonus
  {
    var t := Run(cfg, Tables([], []), attempts);
    RunOk(cfg, attempts);
    forall x | x in PaidOn(t.bonuses, date) ensures x in SnappedOn(t.snaps, date) {
      var i :| 0 <= i < |t.bonuses| && t.bonuses[i].date == date && t.bonuses[i].protocol == x;
      assert Snapped(t.snaps, date, x);
    }
    SubsetSize(PaidOn(t.bonuses, date), SnappedOn(t.snaps, date));
    AsManyRanksAsProtocols(cfg, t.snaps, date);
    SubsetSize(RanksOn(t.snaps, date), UpTo(cfg.topN));
    SumIsCount(cfg, t.snaps, t.bonuses, date);
    MulLe(|PaidOn(t.bonuses, date)|, cfg.topN, cfg.bonus);
  }

  lemma {:induction false} RunOk(cfg: Config, attempts: seq<Attempt>)
    ensures Sound(cfg, Run(cfg, Tables([], []), attempts))
  {
    if attempts == [] {
    } else {
      var init := attempts[..|attempts| - 1];
      RunOk(cfg, init);
      TickKeepsOk(cfg, Run(cfg, Tables([], []), init), attempts[|attempts| - 1]);
    }
  }

  // ---------------------------------------------------------------- who is left unpaid

  /** Every protocol on the day's board has its bonus. */
  ghost predicate AllPaid(t: Tables, date: int) {
    forall i :: 0 <= i < |t.snaps| && t.snaps[i].date == date ==> HasBonus(t.bonuses, date, t.snaps[i].protocol)
  }

  lemma {:induction false} AddBonusesPays(
      cfg: Config, bonuses: seq<Bonus>, snaps: seq<Snap>, date: int, protocols: set<Id>)
    requires forall i :: 0 <= i < |snaps| && snaps[i].date == date ==> snaps[i].protocol in protocols
    ensures var out := AddBonuses(cfg, bonuses, snaps, date, protocols);
      && bonuses <= out
      && (forall i :: 0 <= i < |snaps| && snaps[i].date == date ==> HasBonus(out, date, snaps[i].protocol))
  {
    if snaps == [] {
    } else {
      var n := |snaps| - 1;
      var before := AddBonuses(cfg, bonuses, snaps[..n], date, protocols);
      var out := AddBonuses(cfg, bonuses, snaps, date, protocols);
      AddBonusesPays(cfg, bonuses, snaps[..n], date, protocols);
      forall i | 0 <= i < |snaps| && snaps[i].date == date ensures HasBonus(out, date, snaps[i].protocol) {
        if i < n {
          assert snaps[..n][i] == snaps[i];
          BonusGrows(before, out, date, snaps[i].protocol);
        } else if out != before {
          assert out[|before|].protocol == snaps[n].protocol;
        }
      }
    }
  }

  lemma BonusGrows(bonuses: seq<Bonus>, more: seq<Bonus>, date: int, protocol: Id)
    requires bonuses <= more && HasBonus(bonuses, date, protocol)
    ensures HasBonus(more, date, protocol)
  {
    var i :| 0 <= i < |bonuses| && bonuses[i].date == date && bonuses[i].protocol == protocol;
    assert more[i] == bonuses[i];
  }

  /** A row added to the board is for a ranked protocol that was not on it that day. */
  lemma {:induction false} AddedIsNew(snaps: seq<Snap>, date: int, ranking: seq<Id>, n: nat)
    requires n <= |ranking|
    ensures var out := AddSnaps(snaps, date, ranking, n);
      && snaps <= out
      && (forall k :: |snaps| <= k < |out| ==>
            out[k].date == date && !Snapped(snaps, date, out[k].protocol) && out[k].protocol in ranking)
  {
    if n == 0 {
    } else {
      AddedIsNew(snaps, date, ranking, n - 1);
      var before := AddSnaps(snaps, date, ranking, n - 1);
      if Snapped(snaps, date, ranking[n - 1]) {
        SnappedGrows(snaps, before, date, ranking[n - 1]);
      }
    }
  }

  lemma BonusedIsSnapped(cfg: Config, t: Tables, date: int, protocol: Id)
    requires Sound(cfg, t)
    ensures HasBonus(t.bonuses, date, protocol) ==> Snapped(t.snaps, date, protocol)
  {
  }

  /** The bonus statement leaves every other date alone. */
  lemma {:induction false} AddBonusesElsewhere(
      cfg: Config, bonuses: seq<Bonus>, snaps: seq<Snap>, on: int, protocols: set<Id>, date: int, protocol: Id)
    requires date != on
    ensures HasBonus(AddBonuses(cfg, bonuses, snaps, on, protocols), date, protocol) <==>
      HasBonus(bonuses, date, protocol)
  {
    if snaps == [] {
    } else {
      var before := AddBonuses(cfg, bonuses, snaps[..|snaps| - 1], on, protocols);
      AddBonusesElsewhere(cfg, bonuses, snaps[..|snaps| - 1], on, protocols, date, protocol);
      LastElsewhere(before, AddBonuses(cfg, bonuses, snaps, on, protocols), date, protocol);
    }
  }

  lemma LastElsewhere(bonuses: seq<Bonus>, more: seq<Bonus>, date: int, protocol: Id)
    requires bonuses <= more && |more| <= |bonuses| + 1
    requires |more| > |bonuses| ==> more[|bonuses|].date != date
    ensures HasBonus(more, date, protocol) <==> HasBonus(bonuses, date, protocol)
  {
    if HasBonus(bonuses, date, protocol) {
      BonusGrows(bonuses, more, date, protocol);
    }
  }

  /** The code comment promises as many bonus rows as snapshot rows. After a run that added rows, the
      board it added them to is paid in full exactly when the bonus statement succeeded and still
      ran on that date; any other board it ran on is paid; and everything else is as it was. A bonus
      statement lost once is not made up by a re-run that finds the board full. */
  lemma AllPaidIff(cfg: Config, t: Tables, a: Attempt, date: int)
    requires Sound(cfg, t) && GoodAttempt(a)
    requires forall i :: 0 <= i < |t.snaps| && t.snaps[i].date == date ==> t.snaps[i].protocol in a.protocols
    ensures var added := |NewSnaps(cfg, t, a)| > |t.snaps|;
      var paidNow := a.bonusesOk && a.bonusDate == date;
      AllPaid(Tick(cfg, t, a), date) <==>
        if added && (a.date == date || paidNow) then paidNow else AllPaid(t, date)
  {
    var snaps := NewSnaps(cfg, t, a);
    AddedIsNew(t.snaps, a.date, a.ranking, Kept(cfg, a));
    if |snaps| <= |t.snaps| {
      assert snaps == t.snaps;
    } else if a.bonusesOk && a.bonusDate == date {
      forall i | 0 <= i < |snaps| && snaps[i].date == date ensures snaps[i].protocol in a.protocols {
        if i < |t.snaps| {
          assert snaps[i] == t.snaps[i];
        }
      }
      AddBonusesPays(cfg, t.bonuses, snaps, date, a.protocols);
    } else {
      var out := Tick(cfg, t, a);
      forall protocol ensures HasBonus(out.bonuses, date, protocol) <==> HasBonus(t.bonuses, date, protocol) {
        if a.bonusesOk {
          AddBonusesElsewhere(cfg, t.bonuses, snaps, a.bonusDate, a.protocols, date, protocol);
        }
      }
      SamePaid(cfg, t, out, a.date, date);
    }
  }

  /** Without a bonus for `date`, rows added on `on` leave its board as paid as it was unless they
      are on it. */
  lemma SamePaid(cfg: Config, t: Tables, out: Tables, on: int, date: int)
    requires Sound(cfg, t) && t.snaps <= out.snaps && |t.snaps| < |out.snaps|
    requires forall protocol :: HasBonus(out.bonuses, date, protocol) <==> HasBonus(t.bonuses, date, protocol)
    requires forall k :: |t.snaps| <= k < |out.snaps| ==>
      out.snaps[k].date == on && !Snapped(t.snaps, on, out.snaps[k].protocol)
    ensures AllPaid(out, date) <==> on != date && AllPaid(t, date)
  {
    assert forall i :: 0 <= i < |t.snaps| ==> out.snaps[i] == t.snaps[i];
    if on == date {
      BonusedIsSnapped(cfg, t, date, out.snaps[|t.snaps|].protocol);
    }
  }

  /** Re-running a day with the ranking that filled its board adds no row, so pays no one. */
  lemma {:induction false} RerunAddsNothing(snaps: seq<Snap>, date: int, ranking: seq<Id>, n: nat, m: nat)
    requires m <= n <= |ranking|
    ensures AddSnaps(AddSnaps(snaps, date, ranking, n), date, ranking, m) == AddSnaps(snaps, date, ranking, n)
  {
    if m == 0 {
    } else {
      var full := AddSnaps(snaps, date, ranking, n);
      RerunAddsNothing(snaps, date, ranking, n, m - 1);
      Blocks(snaps, date, ranking, n, m);
    }
  }

  lemma {:induction false} Blocks(snaps: seq<Snap>, date: int, ranking: seq<Id>, n: nat, m: nat)
    requires 0 < m <= n <= |ranking|
    ensures SnapConflict(AddSnaps(snaps, date, ranking, n), Snap(date, m, ranking[m - 1]))
    decreases n
  {
    var before := AddSnaps(snaps, date, ranking, n - 1);
    var out := AddSnaps(snaps, date, ranking, n);
    var x := Snap(date, m, ranking[m - 1]);
    if m < n {
      Blocks(snaps, date, ranking, n - 1, m);
      var i :| 0 <= i < |before| && before[i].date == x.date
        && (before[i].rank == x.rank || before[i].protocol == x.protocol);
      assert out[i] == before[i];
    } else if !SnapConflict(before, x) {
      assert out[|before|] == x;
    }
  }

  /** Once a run's rows are in, a re-run of the day with the same ranking changes nothing, whatever
      became of the bonuses. */
  lemma LostBonusStaysLost(cfg: Config, t: Tables, a: Attempt, again: Attempt)
    requires a.snapsOk && again.date == a.date && again.ranking == a.ranking
    ensures Tick(cfg, Tick(cfg, t, a), again) == Tick(cfg, t, a)
  {
    RerunAddsNothing(t.snaps, a.date, a.ranking, Kept(cfg, a), Kept(cfg, a));
  }

  /** Two concrete days that end unpaid although they are re-run without any failure: one whose bonus
      statement failed, one whose first run straddled midnight. */
  lemma BoardCanStayUnpaid(cfg: Config, first: Attempt)
    requires cfg.topN > 0
    requires first == Attempt(7, 7, ["p"], {"p"}, true, false) || first == Attempt(7, 8, ["p"], {"p"}, true, true)
    ensures var t := Run(cfg, Tables([], []), [first, Attempt(7, 7, ["p"], {"p"}, true, true)]);
      t.snaps == [Snap(7, 1, "p")] && t.bonuses == [] && !AllPaid(t, 7)
  {
    var again := Attempt(7, 7, ["p"], {"p"}, true, true);
    var snaps := [Snap(7, 1, "p")];
    assert AddSnaps([], 7, ["p"], 0) == [];
    assert AddSnaps([], 7, ["p"], 1) == snaps;
    assert snaps[..0] == [];
    assert AddBonuses(cfg, [], snaps, 8, {"p"}) == [];
    assert Tick(cfg, Tables([], []), first) == Tables(snaps, []);
    LostBonusStaysLost(cfg, Tables([], []), first, again);
    assert [first, again][..1] == [first] && [first][..0] == [];
    assert Run(cfg, Tables([], []), [first]) == Tables(snaps, []);
  }

  /** The first run of a day copies the head of the ranking, place by place. */
  lemma {:induction false} FreshBoard(snaps: seq<Snap>, date: int, ranking: seq<Id>, n: nat)
    requires n <= |ranking|
    requires forall i :: 0 <= i < |snaps| ==> snaps[i].date != date
    requires forall i, j :: 0 <= i < j < |ranking| ==> ranking[i] != ranking[j]
    ensures AddSnaps(snaps, date, ranking, n) ==
      snaps + seq(n, i requires 0 <= i < n => Snap(date, i + 1, ranking[i]))
  {
    if n == 0 {
    } else {
      FreshBoard(snaps, date, ranking, n - 1);
      var before := AddSnaps(snaps, date, ranking, n - 1);
      assert |before| == |snaps| + n - 1;
      forall i | 0 <= i < |before| && before[i].date == date
        ensures before[i].rank != n && before[i].protocol != ranking[n - 1]
      {
        assert before[i] == Snap(date, i - |snaps| + 1, ranking[i - |snaps|]);
      }
    }
  }

  // ---------------------------------------------------------------- the cron's statements

  class Board {
    const cfg: Config
    var snaps: seq<Snap>
    var bonuses: seq<Bonus>

    constructor (cfg: Config)
      ensures this.cfg == cfg && Contents() == Tables([], [])
    {
      this.cfg := cfg;
      snaps, bonuses := [], [];
    }

    function Contents(): Tables
      reads this
    {
      Tables(snaps, bonuses)
    }

    method InsertSnapshots(date: int, ranking: seq<Id>) returns (n: nat)
      modifies this`snaps
      ensures snaps == AddSnaps(old(snaps), date, ranking, Min(cfg.topN, |ranking|))
      ensures n == |snaps| - |old(snaps)|
    {
      n := 0;
      var kept: nat := Min(cfg.topN, |ranking|);
      for rk := 0 to kept
        invariant snaps == AddSnaps(old(snaps), date, ranking, rk)
        invariant n == |snaps| - |old(snaps)|
      {
        var x := Snap(date, rk + 1, ranking[rk]);
        if !SnapConflict(snaps, x) {
          snaps := snaps + [x];
          n := n + 1;
        }
      }
    }

    method InsertBonuses(date: int, protocols: set<Id>)
      modifies this`bonuses
      ensures bonuses == AddBonuses(cfg, old(bonuses), snaps, date, protocols)
    {
      for i := 0 to |snaps|
        invariant bonuses == AddBonuses(cfg, old(bonuses), snaps[..i], date, protocols)
      {
        var x := snaps[i];
        assert snaps[..i + 1][..i] == snaps[..i];
        if x.date == date && x.protocol in protocols && !HasBonus(bonuses, date, x.protocol) {
          bonuses := bonuses + [Bonus(date, x.protocol, cfg.bonus)];
        }
      }
      assert snaps[..|snaps|] == snaps;
    }

    method WriteSnapshotAndBonuses(a: Attempt) returns (r: Result<nat>)
      modifies this
      ensures Contents() == Tick(cfg, old(Contents()), a)
      ensures Sound(cfg, old(Contents())) ==> Sound(cfg, Contents())
      ensures r.Ok? <==> a.snapsOk && (a.bonusesOk || |snaps| == |old(snaps)|)
      ensures r.Ok? ==> r.value == |snaps| - |old(snaps)|
    {
      TickKeeps(a);
      if !a.snapsOk {
        return Err;
      }
      var n := InsertSnapshots(a.date, a.ranking);
      if n == 0 {
        assert snaps == old(snaps) by {
          AddedIsNew(old(snaps), a.date, a.ranking, Min(cfg.topN, |a.ranking|));
        }
        return Ok(0);
      }
      if !a.bonusesOk {
        return Err;
      }
      InsertBonuses(a.bonusDate, a.protocols);
      r := Ok(n);
    }

    lemma TickKeeps(a: Attempt)
      ensures Sound(cfg, Contents()) ==> Sound(cfg, Tick(cfg, Contents(), a))
    {
      if Sound(cfg, Contents()) {
        TickKeepsOk(cfg, Contents(), a);
      }
    }
  }
}
