/** The two crons that fill the earnings ledger, run beside the settlement rail. */
module EarningsFeed {
  import opened Common
  import Leaderboard
  import Milestones
  import RewardzRail
  import opened RewardzTheorems
  import opened Earnings
  import opened Merkle

  /** A milestone statement, a leaderboard run, or a step of the rail that inserts nothing. The two
      crons note when they insert; `admins` is the join with `protocols.admin_wallet`. */
  datatype Event =
    | Milestone(statement: Milestones.Statement, at: nat)
    | Board(attempt: Leaderboard.Attempt, admins: Leaderboard.Id -> string, at: nat)
    | Rail(step: RewardzRail.Step)

  function Statements(events: seq<Event>): seq<Milestones.Statement> {
    if events == [] then []
    else
      var last := events[|events| - 1];
      Statements(events[..|events| - 1]) + if last.Milestone? then [last.statement] else []
  }

  function Attempts(events: seq<Event>): seq<Leaderboard.Attempt> {
    if events == [] then []
    else
      var last := events[|events| - 1];
      Attempts(events[..|events| - 1]) + if last.Board? then [last.attempt] else []
  }

  function AwardInserts(awards: seq<Milestones.Award>, at: nat): seq<RewardzRail.Step> {
    seq(|awards|, i requires 0 <= i < |awards| => RewardzRail.Insert(awards[i].authority, awards[i].amount, at))
  }

  function BonusInserts(bonuses: seq<Leaderboard.Bonus>, admins: Leaderboard.Id -> string, at: nat)
    : seq<RewardzRail.Step>
  {
    seq(|bonuses|,
      i requires 0 <= i < |bonuses| => RewardzRail.Insert(admins(bonuses[i].protocol), bonuses[i].amount, at))
  }

  /** The rows a list has gained. */
  function Gained<T>(before: seq<T>, after: seq<T>): seq<T> {
    if |before| <= |after| then after[|before|..] else []
  }

  function Boards(cfg: Leaderboard.Config, events: seq<Event>): Leaderboard.Tables {
    Leaderboard.Run(cfg, Leaderboard.Tables([], []), Attempts(events))
  }

  function Ledger(events: seq<Event>): seq<Milestones.Award> {
    Milestones.Run([], Statements(events))
  }

  /** The rail's steps: each cron's new rows as inserts, in order, between the rail's own steps. */
  function Steps(cfg: Leaderboard.Config, events: seq<Event>): seq<RewardzRail.Step> {
    if events == [] then []
    else
      var before := events[..|events| - 1];
      Steps(cfg, before) +
      match events[|events| - 1]
      case Milestone(_, at) => AwardInserts(Gained(Ledger(before), Ledger(events)), at)
      case Board(_, admins, at) =>
        BonusInserts(Gained(Boards(cfg, before).bonuses, Boards(cfg, events).bonuses), admins, at)
      case Rail(step) => if step.Insert? then [] else [step]
  }

  ghost predicate NonNegativeStatement(s: Milestones.Statement) {
    s.r.amount >= 0 && (forall k :: k in s.w.weights ==> s.w.weights[k] >= 0.0)
  }

  /** The configured rewards and weights are not negative. */
  ghost predicate NonNegativeConfig(events: seq<Event>) {
    forall i :: 0 <= i < |events| && events[i].Milestone? ==> NonNegativeStatement(events[i].statement)
  }

  lemma GainedAwards(s: Milestones.Statement, before: seq<Milestones.Award>, i: nat)
    requires NonNegativeStatement(s)
    requires var after := if s.ok then Milestones.Insert(s.w, before, s.r) else before; i < |Gained(before, after)|
    ensures var after := if s.ok then Milestones.Insert(s.w, before, s.r) else before;
      Gained(before, after)[i].amount >= 0
  {
    var added := Milestones.NewAwards(s.w, before, s.r, s.w.protocols);
    assert s.ok ==> Gained(before, Milestones.Insert(s.w, before, s.r)) == added;
    Milestones.NewAwardsMember(s.w, before, s.r, s.w.protocols, added[i]);
    var k :| 0 <= k < |s.w.protocols|
      && Milestones.Eligible(s.w, before, s.r, s.w.protocols[k])
      && added[i] == Milestones.AwardFor(s.w, s.r, s.w.protocols[k]);
    Milestones.AwardsNonNegative(s.w, s.r, s.w.protocols[k]);
  }

  lemma LedgerSnoc(events: seq<Event>)
    requires events != [] && events[|events| - 1].Milestone?
    ensures var before := Ledger(events[..|events| - 1]); var s := events[|events| - 1].statement;
      Ledger(events) == if s.ok then Milestones.Insert(s.w, before, s.r) else before
  {
    var init, s := Statements(events[..|events| - 1]), events[|events| - 1].statement;
    assert (init + [s])[..|init|] == init;
  }

  lemma BoardBonuses(cfg: Leaderboard.Config, events: seq<Event>, i: nat)
    requires i < |Boards(cfg, events).bonuses|
    ensures Boards(cfg, events).bonuses[i].amount == cfg.bonus
  {
    Leaderboard.RunOk(cfg, Attempts(events));
  }

  /** What the crons insert is never negative, whatever the tables they see. */
  lemma {:induction false} CronsPayNothingBack(cfg: Leaderboard.Config, events: seq<Event>)
    requires NonNegativeConfig(events)
    ensures PaysNothingBack(Steps(cfg, events))
  {
    if events == [] {
    } else {
      var before := events[..|events| - 1];
      CronsPayNothingBack(cfg, before);
      match events[|events| - 1]
      case Milestone(s, at) =>
        LedgerSnoc(events);
        forall i | 0 <= i < |Gained(Ledger(before), Ledger(events))|
          ensures Gained(Ledger(before), Ledger(events))[i].amount >= 0
        {
          GainedAwards(s, Ledger(before), i);
        }
      case Board(_, _, _) =>
        forall i | 0 <= i < |Boards(cfg, events).bonuses| ensures Boards(cfg, events).bonuses[i].amount >= 0 {
          BoardBonuses(cfg, events, i);
        }
      case Rail(_) =>
    }
  }

  /** With the ledger filled by the two crons alone, under rewards and weights that are not negative,
      no leaf falls and no authority drops out between accepted epochs. */
  lemma CronFedLeavesNeverFall(
      p: Params, cfg: Leaderboard.Config, events: seq<Event>, i: nat, j: nat, e: Entry)
    requires ValidParams(p) && NonNegativeConfig(events)
    requires var s := RewardzRail.Run(p, Steps(cfg, events));
      i <= j < |s.landed| && e in s.landed[i].plan.entries
    ensures exists later: U64 ::
      later >= e.1 && (e.0, later) in RewardzRail.Run(p, Steps(cfg, events)).landed[j].plan.entries
  {
    CronsPayNothingBack(cfg, events);
    LeavesNeverFall(p, Steps(cfg, events), i, j, e);
  }
}
