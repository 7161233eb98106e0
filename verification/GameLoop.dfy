/** The mining game's cranker: what one keeper does to a chain that applies every transaction it is
    sent without checking anything. */
module GameLoop {
  import opened Common

  datatype Round = Round(startedAt: nat, endSlot: U64, settledAt: Option<nat>)

  /** The game accounts, the slot clock and every transaction the keeper sent. */
  datatype Chain = Chain(
    initialised: bool,
    current: U64,
    intermission: U64,
    rounds: map<nat, Round>,
    slot: nat,
    sent: seq<Tx>)

  datatype Tx = StartRound(id: nat) | SettleRound(id: nat)

  /** Which reads succeed, whether the transaction lands and how many slots later, the end slot a
      new round gets, and how far the clock moves before the next tick. A failed account read is
      indistinguishable from a missing account. */
  datatype Outcomes = Outcomes(
    configRead: bool,
    slotRead: bool,
    roundRead: bool,
    targetRead: bool,
    previousRead: bool,
    deploymentsRead: bool,
    lands: bool,
    delay: nat,
    endSlot: U64,
    advance: nat)

  datatype Action = Quiet | Fails | Sends(tx: Tx)

  function LoadRound(c: Chain, id: nat, ok: bool): Option<Round> {
    if ok && id in c.rounds then Some(c.rounds[id]) else None
  }

  predicate ShouldSkipStartRound(round: Option<Round>) {
    round.Some? && round.value.settledAt.None?
  }

  /** `start_round`: two guards and a checked increment. */
  function StartDecision(c: Chain, o: Outcomes): Action {
    if c.current == U64_MAX then Fails
    else if ShouldSkipStartRound(LoadRound(c, c.current + 1, o.targetRead)) then Quiet
    else if c.current > 0 && ShouldSkipStartRound(LoadRound(c, c.current, o.previousRead)) then Quiet
    else Sends(StartRound(c.current + 1))
  }

  function TickDecision(c: Chain, o: Outcomes): Action {
    if !c.initialised || !o.configRead then Quiet
    else if !o.slotRead then Fails
    else if c.current == 0 then StartDecision(c, o)
    else match LoadRound(c, c.current, o.roundRead)
      case None => Quiet
      case Some(round) =>
        if round.endSlot + c.intermission > U64_MAX then Fails
        else if round.settledAt.Some? then
          if c.slot >= round.endSlot + c.intermission then StartDecision(c, o) else Quiet
        else if c.slot < round.endSlot + c.intermission then Quiet
        else if !o.deploymentsRead then Fails
        else Sends(SettleRound(c.current))
  }

  /** Settlement and intermission are over, and the crank slot fits. */
  ghost predicate PastCrank(c: Chain, id: nat)
    requires id in c.rounds
  {
    c.rounds[id].endSlot + c.intermission <= Min(c.slot, U64_MAX)
  }

  /** Exactly when a tick settles, and which round. */
  lemma SettlesIff(c: Chain, o: Outcomes, id: nat)
    ensures TickDecision(c, o) == Sends(SettleRound(id)) <==>
      && c.initialised && o.configRead && o.slotRead && o.roundRead && o.deploymentsRead
      && id == c.current && id > 0 && id in c.rounds
      && c.rounds[id].settledAt.None? && PastCrank(c, id)
  {
  }

  /** Exactly when a tick starts a round, and which: the first, or the successor of a settled round past
      its crank slot, unless it sees the new round open already. */
  lemma StartsIff(c: Chain, o: Outcomes, id: nat)
    ensures TickDecision(c, o) == Sends(StartRound(id)) <==>
      && c.initialised && o.configRead && o.slotRead && id == c.current + 1 && id <= U64_MAX
      && (c.current > 0 ==>
            o.roundRead && c.current in c.rounds && c.rounds[c.current].settledAt.Some? && PastCrank(c, c.current))
      && !(o.targetRead && id in c.rounds && c.rounds[id].settledAt.None?)
  {
  }

  /** The one-shot bootstrap entry point. */
  function OnceDecision(c: Chain, o: Outcomes): Action {
    if !c.initialised || !o.configRead then Fails else StartDecision(c, o)
  }

  /** Exactly when the entry point starts a round: a config, an id left, and no open round read, neither
      the new one nor the current one. Without a config it fails. */
  lemma OnceStartsIff(c: Chain, o: Outcomes, id: nat)
    ensures OnceDecision(c, o) == Sends(StartRound(id)) <==>
      && c.initialised && o.configRead && id == c.current + 1 && id <= U64_MAX
      && !(o.targetRead && id in c.rounds && c.rounds[id].settledAt.None?)
      && !(c.current > 0 && o.previousRead && c.current in c.rounds && c.rounds[c.current].settledAt.None?)
    ensures !c.initialised || !o.configRead ==> OnceDecision(c, o) == Fails
  {
  }

  /** The chain applies what arrives, unchecked. */
  function ApplyTx(c: Chain, tx: Tx, at: nat, endSlot: U64): Chain {
    match tx
    case StartRound(id) =>
      if id > U64_MAX then c else c.(current := id, rounds := c.rounds[id := Round(at, endSlot, None)])
    case SettleRound(id) =>
      if id in c.rounds then c.(rounds := c.rounds[id := c.rounds[id].(settledAt := Some(at))]) else c
  }

  function Perform(c: Chain, a: Action, o: Outcomes): Chain {
    match a
    case Sends(tx) =>
      var s := c.(sent := c.sent + [tx]);
      if o.lands then ApplyTx(s.(slot := s.slot + o.delay), tx, s.slot + o.delay, o.endSlot) else s
    case _ => c
  }

  function Wait(c: Chain, slots: nat): Chain {
    c.(slot := c.slot + slots)
  }

  function Tick(c: Chain, o: Outcomes): Chain {
    Wait(Perform(c, TickDecision(c, o), o), o.advance)
  }

  function Once(c: Chain, o: Outcomes): Chain {
    Wait(Perform(c, OnceDecision(c, o), o), o.advance)
  }

  // ---------------------------------------------------------------- safety

  /** Round `id` was settled no earlier than its end plus the intermission, and not in the future. */
  ghost predicate SettledInTime(c: Chain, id: nat) {
    id in c.rounds
    && (c.rounds[id].settledAt.Some? ==>
          c.rounds[id].endSlot + c.intermission <= c.rounds[id].settledAt.value <= c.slot)
  }

  ghost predicate SettledBeforeNext(c: Chain, id: nat) {
    id in c.rounds && id + 1 in c.rounds
    && c.rounds[id].settledAt.Some?
    && c.rounds[id].settledAt.value <= c.rounds[id + 1].startedAt
  }

  /** Rounds are 1..current; all but the last are settled, each before its successor started; none
      was settled early. */
  ghost predicate Safe(c: Chain) {
    && (forall id :: id in c.rounds <==> 1 <= id <= c.current)
    && (forall id :: 1 <= id <= c.current ==> SettledInTime(c, id))
    && (forall id :: 1 <= id < c.current ==> SettledBeforeNext(c, id))
  }

  ghost predicate CurrentSettled(c: Chain) {
    c.current == 0 || (c.current in c.rounds && c.rounds[c.current].settledAt.Some?)
  }

  lemma StartKeepsSafe(c: Chain, o: Outcomes)
    requires Safe(c) && CurrentSettled(c) && c.current < U64_MAX
    ensures Safe(Perform(c, Sends(StartRound(c.current + 1)), o))
  {
    var d := Perform(c, Sends(StartRound(c.current + 1)), o);
    if o.lands {
      forall id | 1 <= id <= d.current ensures SettledInTime(d, id) {
        if id <= c.current {
          assert SettledInTime(c, id);
        }
      }
      forall id | 1 <= id < d.current ensures SettledBeforeNext(d, id) {
        assert SettledInTime(c, id);
        if id < c.current {
          assert SettledBeforeNext(c, id);
        }
      }
    } else {
      SentKeepsSafe(c, d);
    }
  }

  lemma SentKeepsSafe(c: Chain, d: Chain)
    requires Safe(c) && c.slot <= d.slot
    requires d.rounds == c.rounds && d.current == c.current && d.intermission == c.intermission
    ensures Safe(d)
  {
    forall id | 1 <= id <= d.current ensures SettledInTime(d, id) {
      assert SettledInTime(c, id);
    }
    forall id | 1 <= id < d.current ensures SettledBeforeNext(d, id) {
      assert SettledBeforeNext(c, id);
    }
  }

  lemma SettleKeepsSafe(c: Chain, o: Outcomes)
    requires Safe(c) && c.current in c.rounds && c.rounds[c.current].settledAt.None?
    requires c.rounds[c.current].endSlot + c.intermission <= c.slot
    ensures Safe(Perform(c, Sends(SettleRound(c.current)), o))
  {
    var d := Perform(c, Sends(SettleRound(c.current)), o);
    forall id | 1 <= id <= d.current ensures SettledInTime(d, id) {
      assert SettledInTime(c, id);
    }
    forall id | 1 <= id < d.current ensures SettledBeforeNext(d, id) {
      assert SettledBeforeNext(c, id);
    }
  }

  lemma DecidedKeepsSafe(c: Chain, o: Outcomes)
    ensures Safe(c) ==> Safe(Perform(c, TickDecision(c, o), o))
  {
    var a := TickDecision(c, o);
    if Safe(c) && a.Sends? {
      if a.tx.StartRound? {
        StartKeepsSafe(c, o);
      } else {
        SettleKeepsSafe(c, o);
      }
    }
  }

  /** A tick keeps the game safe whichever of its reads fail and whether or not its transaction
      lands; it sends at most one. */
  lemma TickKeepsSafe(c: Chain, o: Outcomes)
    requires Safe(c)
    ensures Safe(Tick(c, o))
    ensures |Tick(c, o).sent| <= |c.sent| + 1
  {
    var d := Perform(c, TickDecision(c, o), o);
    DecidedKeepsSafe(c, o);
    SentKeepsSafe(d, Wait(d, o.advance));
  }

  /** The bootstrap entry point keeps it safe exactly unless it misses an unsettled previous round. */
  lemma OnceKeepsSafeIff(c: Chain, o: Outcomes)
    requires Safe(c)
    ensures Safe(Once(c, o)) <==>
      !(c.initialised && o.configRead && o.lands && c.current < U64_MAX
        && !CurrentSettled(c) && !o.previousRead)
  {
    var a := OnceDecision(c, o);
    var d := Perform(c, a, o);
    if a.Sends? {
      if CurrentSettled(c) {
        StartKeepsSafe(c, o);
        SentKeepsSafe(d, Wait(d, o.advance));
      } else if o.lands {
        assert !SettledBeforeNext(Once(c, o), c.current);
      } else {
        SentKeepsSafe(c, Once(c, o));
      }
    } else {
      SentKeepsSafe(c, Once(c, o));
    }
  }

  /** While a round is open the entry point is documented as a no-op. It is exactly unless its read of
      that round fails. */
  lemma OnceIsNoOpIff(c: Chain, o: Outcomes)
    requires Safe(c) && !CurrentSettled(c)
    ensures Perform(c, OnceDecision(c, o), o) == c <==>
      !(c.initialised && o.configRead && c.current < U64_MAX && !o.previousRead)
  {
    var d := Perform(c, OnceDecision(c, o), o);
    assert OnceDecision(c, o).Sends? ==> |d.sent| == |c.sent| + 1;
  }

  /** All reads succeed, the transaction lands at once, and the clock moves by one. */
  const GOOD := Outcomes(true, true, true, true, true, true, true, 0, 10, 1)

  /** A bootstrap run that breaks it, from any game without rounds: the first round is open, and the
      read of it fails. */
  lemma BootstrapCanBreakSafety(c: Chain)
    requires c.initialised && c.current == 0 && c.rounds == map[]
    ensures var first := Once(c, GOOD);
      Safe(first) && !Safe(Once(first, GOOD.(previousRead := false)))
  {
    var first := Once(c, GOOD);
    OnceKeepsSafeIff(c, GOOD);
    OnceKeepsSafeIff(first, GOOD.(previousRead := false));
    assert first.current == 1 && !CurrentSettled(first);
  }

  datatype Step = CronTick(o: Outcomes) | Bootstrap(o: Outcomes)

  function Run(c: Chain, steps: seq<Step>): Chain {
    if steps == [] then c
    else
      var before := Run(c, steps[..|steps| - 1]);
      match steps[|steps| - 1]
      case CronTick(o) => Tick(before, o)
      case Bootstrap(o) => Once(before, o)
  }

  /** Safety over whole runs from a chain without rounds. */
  lemma {:induction false} RunIsSafe(c: Chain, steps: seq<Step>)
    requires c.current == 0 && c.rounds == map[]
    requires forall i :: 0 <= i < |steps| && steps[i].Bootstrap? ==> steps[i].o.previousRead
    ensures Safe(Run(c, steps))
    ensures |Run(c, steps).sent| <= |c.sent| + |steps|
  {
    if steps == [] {
    } else {
      var init, last := steps[..|steps| - 1], steps[|steps| - 1];
      RunIsSafe(c, init);
      var before := Run(c, init);
      match last {
        case CronTick(o) => TickKeepsSafe(before, o);
        case Bootstrap(o) => OnceKeepsSafeIff(before, o);
      }
    }
  }

  // ---------------------------------------------------------------- progress

  /** Reads succeed, transactions land at once, and the clock moves. */
  predicate Healthy(o: Outcomes) {
    && o.configRead && o.slotRead && o.roundRead && o.targetRead && o.previousRead && o.deploymentsRead
    && o.lands && o.advance >= 1
  }

  predicate CanCrank(c: Chain, n: nat) {
    n in c.rounds && c.rounds[n].endSlot + c.intermission <= U64_MAX
  }

  /** Ticks left until the successor of round `n` is open. */
  function TicksLeft(c: Chain, n: nat): nat
    requires n in c.rounds
  {
    if c.current != n then 0
    else
      Max(c.rounds[n].endSlot + c.intermission - c.slot, 0) + if c.rounds[n].settledAt.Some? then 1 else 2
  }

  function RunTicks(c: Chain, os: seq<Outcomes>): Chain
    decreases |os|
  {
    if os == [] then c else RunTicks(Tick(c, os[0]), os[1..])
  }

  /** The measure: every healthy tick lowers it until round `n + 1` is open and `n` settled. */
  lemma TickLowersMeasure(c: Chain, o: Outcomes, n: nat)
    requires Safe(c) && Healthy(o) && c.initialised && 0 < n < U64_MAX && c.current == n && CanCrank(c, n)
    ensures var d := Tick(c, o);
      && CanCrank(d, n) && d.initialised
      && (d.current == n || d.current == n + 1)
      && (d.current == n ==> TicksLeft(d, n) < TicksLeft(c, n))
      && (d.current == n + 1 ==> d.rounds[n].settledAt.Some?)
  {
    assert SettledInTime(c, n);
  }

  /** An open round is settled and its successor started within
      max(crank slot - current slot, 0) + 2 healthy ticks. */
  lemma {:induction false} RoundTurnsOver(c: Chain, os: seq<Outcomes>, n: nat) returns (j: nat)
    requires Safe(c) && c.initialised && 0 < n < U64_MAX && c.current == n && CanCrank(c, n)
    requires forall i :: 0 <= i < |os| ==> Healthy(os[i])
    requires |os| >= Max(c.rounds[n].endSlot + c.intermission - c.slot, 0) + 2
    ensures j <= Max(c.rounds[n].endSlot + c.intermission - c.slot, 0) + 2
    ensures var d := RunTicks(c, os[..j]);
      d.current == n + 1 && n in d.rounds && d.rounds[n].settledAt.Some?
  {
    j := CountDown(c, os, n);
  }

  lemma {:induction false} CountDown(c: Chain, os: seq<Outcomes>, n: nat) returns (j: nat)
    requires Safe(c) && c.initialised && 0 < n < U64_MAX && c.current == n && CanCrank(c, n)
    requires forall i :: 0 <= i < |os| ==> Healthy(os[i])
    requires |os| >= TicksLeft(c, n)
    ensures j <= TicksLeft(c, n) && j <= |os|
    ensures var d := RunTicks(c, os[..j]);
      d.current == n + 1 && n in d.rounds && d.rounds[n].settledAt.Some?
    decreases TicksLeft(c, n)
  {
    var d := Tick(c, os[0]);
    TickKeepsSafe(c, os[0]);
    TickLowersMeasure(c, os[0], n);
    if d.current == n + 1 {
      j := 1;
      assert os[..1][0] == os[0] && os[..1][1..] == [];
    } else {
      var rest := CountDown(d, os[1..], n);
      j := rest + 1;
      assert os[..j][0] == os[0] && os[..j][1..] == os[1..][..rest];
    }
  }

  /** Without room for the crank slot in a u64 the round is stuck: no tick ever changes the game. */
  lemma {:induction false} OverflowIsStuck(c: Chain, os: seq<Outcomes>)
    requires c.current in c.rounds && c.current > 0 && !CanCrank(c, c.current)
    ensures var d := RunTicks(c, os); d.rounds == c.rounds && d.current == c.current && d.sent == c.sent
    decreases |os|
  {
    if os == [] {
    } else {
      OverflowIsStuck(Tick(c, os[0]), os[1..]);
    }
  }

  // ---------------------------------------------------------------- the keeper's code

  class Cranker {
    var chain: Chain

    constructor (chain: Chain)
      ensures this.chain == chain
    {
      this.chain := chain;
    }

    method Send(tx: Tx, o: Outcomes)
      modifies this
      ensures chain == Perform(old(chain), Sends(tx), o)
    {
      chain := chain.(sent := chain.sent + [tx]);
      if o.lands {
        chain := chain.(slot := chain.slot + o.delay);
        chain := ApplyTx(chain, tx, chain.slot, o.endSlot);
      }
    }

    method StartRoundIfIdle(o: Outcomes) returns (a: Action)
      modifies this
      ensures a == StartDecision(old(chain), o) && chain == Perform(old(chain), a, o)
    {
      if chain.current == U64_MAX {
        return Fails;
      }
      var next := chain.current + 1;
      var existing := LoadRound(chain, next, o.targetRead);
      if ShouldSkipStartRound(existing) {
        return Quiet;
      }
      if chain.current > 0 {
        var previous := LoadRound(chain, chain.current, o.previousRead);
        if previous.Some? && previous.value.settledAt.None? {
          return Quiet;
        }
      }
      Send(StartRound(next), o);
      a := Sends(StartRound(next));
    }

    method RunStartRoundOnce(o: Outcomes) returns (a: Action)
      modifies this
      ensures a == OnceDecision(old(chain), o) && chain == Perform(old(chain), a, o)
    {
      if !chain.initialised || !o.configRead {
        return Fails;
      }
      a := StartRoundIfIdle(o);
    }

    /** One tick: at most one transaction, and the game is as safe after as before. */
    method TickGameLoop(o: Outcomes) returns (a: Action)
      modifies this
      ensures a == TickDecision(old(chain), o) && chain == Perform(old(chain), a, o)
      ensures Safe(old(chain)) ==> Safe(chain)
      ensures chain.sent == old(chain).sent + if a.Sends? then [a.tx] else []
    {
      ghost var before := chain;
      a := Quiet;
      if chain.initialised && o.configRead {
        if !o.slotRead {
          a := Fails;
        } else if chain.current == 0 {
          a := StartRoundIfIdle(o);
        } else {
          var round := LoadRound(chain, chain.current, o.roundRead);
          if round.Some? {
            a := Crank(round.value, o);
          }
        }
      }
      DecidedKeepsSafe(before, o);
    }

    method Crank(round: Round, o: Outcomes) returns (a: Action)
      requires chain.initialised && o.configRead && o.slotRead && chain.current > 0
      requires LoadRound(chain, chain.current, o.roundRead) == Some(round)
      modifies this
      ensures a == TickDecision(old(chain), o) && chain == Perform(old(chain), a, o)
    {
      if round.endSlot + chain.intermission > U64_MAX {
        return Fails;
      }
      var crankSlot := round.endSlot + chain.intermission;
      if round.settledAt.Some? {
        if chain.slot >= crankSlot {
          a := StartRoundIfIdle(o);
        } else {
          a := Quiet;
        }
        return;
      }
      if chain.slot < crankSlot {
        return Quiet;
      }
      if !o.deploymentsRead {
        return Fails;
      }
      Send(SettleRound(chain.current), o);
      a := Sends(SettleRound(chain.current));
    }
  }
}
