/** The visibility state machine and the event log that mirrors it. */
module Visibility {
  import opened Common

  datatype Visibility = Active | AtRisk | Hidden

  function FromDb(s: string): Visibility {
    if s == "active" then Active
    else if s == "at_risk" then AtRisk
    else if s == "hidden" then Hidden
    else AtRisk
  }

  function AsDb(v: Visibility): string {
    match v
    case Active => "active"
    case AtRisk => "at_risk"
    case Hidden => "hidden"
  }

  function Level(v: Visibility): string {
    match v
    case Active => "info"
    case AtRisk => "warning"
    case Hidden => "critical"
  }

  function Rank(v: Visibility): nat {
    match v
    case Active => 0
    case AtRisk => 1
    case Hidden => 2
  }

  datatype Config = Config(activityHours: nat, inactivityHours: nat, warningThreshold: Option<real>)

  /** The signals of one protocol; no event ever is `None`, an infinite inactivity. */
  datatype Signals = Signals(
    capacity: real,
    idleHours: Option<real>,
    highFlag: bool,
    anyFlag: bool,
    quality: real)

  const QUALITY_FLOOR: real := 0.2

  predicate IdleFor(idle: Option<real>, hours: nat) {
    idle.None? || idle.value >= hours as real
  }

  function Decide(s: Signals, cfg: Config): Visibility {
    if IdleFor(s.idleHours, cfg.inactivityHours) || s.highFlag then Hidden
    else if
      || (cfg.warningThreshold.Some? && s.capacity <= cfg.warningThreshold.value)
      || s.anyFlag
      || IdleFor(s.idleHours, cfg.activityHours)
      || s.quality <= QUALITY_FLOOR
    then AtRisk
    else Active
  }

  /** `t` is at least as bad as `s` on every signal. */
  ghost predicate Worse(s: Signals, t: Signals) {
    && t.capacity <= s.capacity && t.quality <= s.quality
    && (s.highFlag ==> t.highFlag) && (s.anyFlag ==> t.anyFlag)
    && (t.idleHours.Some? ==> s.idleHours.Some? && s.idleHours.value <= t.idleHours.value)
  }

  /** No signal can get worse and the protocol more visible. */
  lemma DecideIsMonotone(s: Signals, t: Signals, cfg: Config)
    requires Worse(s, t)
    ensures Rank(Decide(s, cfg)) <= Rank(Decide(t, cfg))
  {
  }

  /** The header comment says a protocol without events lands in at_risk. The code hides it, whatever
      its other signals and however long the windows are. */
  lemma NewcomerIsHidden(s: Signals, cfg: Config)
    requires s.idleHours.None?
    ensures Decide(s, cfg) == Hidden
  {
  }

  // ---------------------------------------------------------------- the column and its log

  datatype Event = Event(from: string, to: string, level: string)

  /** One protocol's column and the events written for it. */
  datatype Row = Row(column: string, log: seq<Event>)

  /** One tick's visit, with the row as loaded at the start of the tick. */
  function Visit(row: Row, s: Signals, cfg: Config, ok: bool): Row {
    var next := Decide(s, cfg);
    var current := FromDb(row.column);
    if next == current || !ok then row
    else Row(AsDb(next), row.log + [Event(AsDb(current), AsDb(next), Level(next))])
  }

  /** No event within the inactivity window, or a high-severity flag. */
  ghost predicate MustHide(s: Signals, cfg: Config) {
    s.highFlag || s.idleHours.None? || s.idleHours.value >= cfg.inactivityHours as real
  }

  /** Events within the activity window, no open flag, quality above a fifth, capacity above the
      warning threshold if there is one. */
  ghost predicate InGoodStanding(s: Signals, cfg: Config) {
    && !s.anyFlag && s.quality > 0.2
    && s.idleHours.Some? && s.idleHours.value < cfg.activityHours as real
    && (cfg.warningThreshold.Some? ==> s.capacity > cfg.warningThreshold.value)
  }

  /** Hiding is critical, risk a warning, recovery news. */
  ghost function LevelOf(text: string): string {
    if text == "hidden" then "critical" else if text == "active" then "info" else "warning"
  }

  /** What a visit writes: the column's text after it, an event of the matching level when the text
      changes, and nothing when the transaction fails. */
  lemma VisitWrites(row: Row, s: Signals, cfg: Config)
    requires row.column == "active" || row.column == "at_risk" || row.column == "hidden"
    ensures Visit(row, s, cfg, false) == row
    ensures var t := Visit(row, s, cfg, true);
      && t.column ==
           (if MustHide(s, cfg) then "hidden" else if InGoodStanding(s, cfg) then "active" else "at_risk")
      && (t.column == row.column ==> t == row)
      && (t.column != row.column ==> t.log == row.log + [Event(row.column, t.column, LevelOf(t.column))])
  {
  }

  /** A text the enum does not know is read as at_risk. */
  lemma UnknownIsAtRisk(row: Row, s: Signals, cfg: Config)
    requires row.column != "active" && row.column != "at_risk" && row.column != "hidden"
    ensures Visit(row, s, cfg, true) ==
      if !MustHide(s, cfg) && !InGoodStanding(s, cfg) then row
      else
        var to := if MustHide(s, cfg) then "hidden" else "active";
        Row(to, row.log + [Event("at_risk", to, if MustHide(s, cfg) then "critical" else "info")])
  {
  }

  datatype Round = Round(s: Signals, ok: bool)

  function Run(row: Row, cfg: Config, rounds: seq<Round>): Row {
    if rounds == [] then row
    else
      var last := rounds[|rounds| - 1];
      Visit(Run(row, cfg, rounds[..|rounds| - 1]), last.s, cfg, last.ok)
  }

  /** The log read from `start` is an unbroken chain of real changes. */
  ghost predicate Chained(start: string, log: seq<Event>) {
    forall i :: 0 <= i < |log| ==> Linked(start, log, i)
  }

  ghost predicate Linked(start: string, log: seq<Event>, i: nat)
    requires i < |log|
  {
    && log[i].from == (if i == 0 then start else log[i - 1].to)
    && log[i].from != log[i].to
    && Levelled(log[i])
  }

  /** The three texts, each with the level its events carry. */
  predicate Levelled(e: Event) {
    || (e.to == "active" && e.level == "info")
    || (e.to == "at_risk" && e.level == "warning")
    || (e.to == "hidden" && e.level == "critical")
  }

  function Replay(start: string, log: seq<Event>): string {
    if log == [] then start else log[|log| - 1].to
  }

  /** The texts the enum writes are read back as themselves. */
  lemma TextRoundTrip(v: Visibility)
    ensures FromDb(AsDb(v)) == v
  {
  }

  /** The log tells the column's history since it read `column`. */
  ghost predicate Tells(column: string, row: Row) {
    var start := AsDb(FromDb(column));
    && Chained(start, row.log)
    && AsDb(FromDb(row.column)) == Replay(start, row.log)
    && (row.log != [] || start == column ==> row.column == Replay(start, row.log))
    && (row.log == [] ==> row.column == column)
  }

  lemma VisitTells(column: string, row: Row, s: Signals, cfg: Config, ok: bool)
    requires Tells(column, row)
    ensures Tells(column, Visit(row, s, cfg, ok))
  {
    var next, current := Decide(s, cfg), FromDb(row.column);
    if next != current && ok {
      TextRoundTrip(next);
      TextRoundTrip(current);
      var e := Event(AsDb(current), AsDb(next), Level(next));
      ChainGrows(AsDb(FromDb(column)), row.log, e);
    }
  }

  lemma ChainGrows(start: string, log: seq<Event>, e: Event)
    requires Chained(start, log) && e.from == Replay(start, log) && e.from != e.to
    requires Levelled(e)
    ensures Chained(start, log + [e]) && Replay(start, log + [e]) == e.to
  {
    var more := log + [e];
    forall i | 0 <= i < |more| ensures Linked(start, more, i) {
      if i < |log| {
        assert Linked(start, log, i);
      }
    }
  }

  /** Over any run the log is a chain of real changes and replays to the column. It starts from the
      column's own text, or from "at_risk" when that text is not one the enum knows. */
  lemma {:induction false} LogReplaysToColumn(column: string, cfg: Config, rounds: seq<Round>)
    ensures Tells(column, Run(Row(column, []), cfg, rounds))
  {
    if rounds != [] {
      var init, last := rounds[..|rounds| - 1], rounds[|rounds| - 1];
      LogReplaysToColumn(column, cfg, init);
      VisitTells(column, Run(Row(column, []), cfg, init), last.s, cfg, last.ok);
    } else {
      TextRoundTrip(FromDb(column));
    }
  }

  // ---------------------------------------------------------------- the tick over the table

  type Id = string

  /** What a tick should leave: each active protocol visited once, the others alone. */
  ghost predicate Visited(before: map<Id, Row>, after: map<Id, Row>, ids: seq<Id>, signals: map<Id, Round>, cfg: Config)
    requires forall id :: id in ids ==> id in before && id in signals
  {
    && after.Keys == before.Keys
    && (forall id :: id in ids ==> after[id] == Visit(before[id], signals[id].s, cfg, signals[id].ok))
    && (forall id :: id in before && id !in ids ==> after[id] == before[id])
  }

  predicate Transitions(row: Row, r: Round, cfg: Config) {
    r.ok && Decide(r.s, cfg) != FromDb(row.column)
  }

  function CountTransitions(before: map<Id, Row>, ids: seq<Id>, signals: map<Id, Round>, cfg: Config): nat
    requires forall id :: id in ids ==> id in before && id in signals
  {
    if ids == [] then 0
    else
      var id := ids[|ids| - 1];
      CountTransitions(before, ids[..|ids| - 1], signals, cfg)
        + if Transitions(before[id], signals[id], cfg) then 1 else 0
  }

  /** A visit counts exactly when it writes an event. */
  lemma TransitionsIff(row: Row, r: Round, cfg: Config)
    ensures Transitions(row, r, cfg) <==> |Visit(row, r.s, cfg, r.ok).log| == |row.log| + 1
    ensures !Transitions(row, r, cfg) <==> Visit(row, r.s, cfg, r.ok) == row
  {
  }

  class Cron {
    const cfg: Config
    var table: map<Id, Row>

    constructor (cfg: Config, table: map<Id, Row>)
      ensures this.cfg == cfg && this.table == table
    {
      this.cfg, this.table := cfg, table;
    }

    /** Column and event in one transaction. */
    method ApplyTransition(id: Id, current: Visibility, next: Visibility)
      requires id in table
      modifies this
      ensures table == old(table)[id := Row(AsDb(next),
        old(table)[id].log + [Event(AsDb(current), AsDb(next), Level(next))])]
    {
      var row := table[id];
      row := row.(column := AsDb(next));
      row := row.(log := row.log + [Event(AsDb(current), AsDb(next), Level(next))]);
      table := table[id := row];
    }

    method Tick(ids: seq<Id>, signals: map<Id, Round>) returns (transitions: nat)
      requires forall id :: id in ids ==> id in table && id in signals
      requires forall i, j :: 0 <= i < j < |ids| ==> ids[i] != ids[j]
      modifies this
      ensures Visited(old(table), table, ids, signals, cfg)
      ensures transitions == CountTransitions(old(table), ids, signals, cfg)
    {
      ghost var was := table;
      var snapshot := table;
      transitions := 0;
      for i := 0 to |ids|
        invariant Visited(was, table, ids[..i], signals, cfg)
        invariant transitions == CountTransitions(was, ids[..i], signals, cfg)
      {
        var id := ids[i];
        assert ids[..i + 1][..i] == ids[..i] && ids[..i + 1][i] == id;
        assert forall x :: x in ids[..i + 1] <==> x in ids[..i] || x == id;
        assert id !in ids[..i];
        var current := FromDb(snapshot[id].column);
        var next := Decide(signals[id].s, cfg);
        if next != current && signals[id].ok {
          ApplyTransition(id, current, next);
          transitions := transitions + 1;
        }
      }
      assert ids[..|ids|] == ids;
    }
  }
}
