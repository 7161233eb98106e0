/** The cranker when its transactions land late and its reads lag behind: several may be in flight at
    once, every account may be seen as it was earlier, and the program may reject what arrives. */
module GameRace {
  import opened Common
  import opened GameLoop

  /** What the program is trusted to reject: a start of a round that exists or a settlement of one
      that is settled; a start whose previous round is not settled. */
  datatype Checks = Checks(duplicates: bool, unsettled: bool)

  const UNCHECKED := Checks(false, false)

  /** The chain, the highest round id its config ever held, every content a round account ever had,
      and what has been sent and not arrived. */
  datatype Net = Net(chain: Chain, highest: nat, versions: set<(nat, Round)>, inFlight: multiset<Tx>)

  datatype Move =
    | Cron(view: Chain, o: Outcomes)
    | Boot(view: Chain, o: Outcomes)
    | Land(tx: Tx, endSlot: U64)
    | Drop(tx: Tx)
    | Pass(slots: nat)

  /** The accounts as lagging nodes show them, each by itself: the config held every id up to the
      highest, a round is missing or as it ever was, replaced or not, and the clock may be behind. */
  ghost predicate IsView(n: Net, v: Chain) {
    && (v.initialised ==> n.chain.initialised)
    && v.current <= n.highest && v.slot <= n.chain.slot && v.intermission == n.chain.intermission
    && (forall id :: id in v.rounds ==> (id, v.rounds[id]) in n.versions)
  }

  predicate Settled(c: Chain, id: nat) {
    id in c.rounds && c.rounds[id].settledAt.Some?
  }

  predicate Rejected(k: Checks, c: Chain, tx: Tx) {
    match tx
    case StartRound(id) =>
      (k.duplicates && id in c.rounds) || (k.unsettled && id > 1 && !Settled(c, id - 1))
    case SettleRound(id) => k.duplicates && Settled(c, id)
  }

  function Send(n: Net, a: Action): Net {
    match a
    case Sends(tx) =>
      n.(chain := n.chain.(sent := n.chain.sent + [tx]), inFlight := n.inFlight + multiset{tx})
    case _ => n
  }

  function LandStep(k: Checks, n: Net, tx: Tx, endSlot: U64): Net {
    if tx !in n.inFlight then n
    else
      var left := n.inFlight - multiset{tx};
      if Rejected(k, n.chain, tx) then n.(inFlight := left)
      else
        var chain := ApplyTx(n.chain, tx, n.chain.slot, endSlot);
        var written := if tx.id in chain.rounds then {(tx.id, chain.rounds[tx.id])} else {};
        Net(chain, Max(n.highest, chain.current), n.versions + written, left)
  }

  ghost function Next(k: Checks, n: Net, m: Move): Net {
    match m
    case Cron(v, o) => if IsView(n, v) then Send(n, TickDecision(v, o)) else n
    case Boot(v, o) => if IsView(n, v) then Send(n, OnceDecision(v, o)) else n
    case Land(tx, endSlot) => LandStep(k, n, tx, endSlot)
    case Drop(tx) => n.(inFlight := n.inFlight - multiset{tx})
    case Pass(slots) => n.(chain := Wait(n.chain, slots))
  }

  ghost function RunMoves(k: Checks, n: Net, moves: seq<Move>): Net {
    if moves == [] then n
    else Next(k, RunMoves(k, n, moves[..|moves| - 1]), moves[|moves| - 1])
  }

  /** A tick that lands at once is a special case: it sends, its transaction arrives or is lost, the
      clock moves. */
  lemma TickIsARace(c: Chain, o: Outcomes, tx: Tx)
    requires TickDecision(c, o) == Sends(tx)
    ensures var n := Next(UNCHECKED, Net(c, c.current, c.rounds.Items, multiset{}), Cron(c, o));
      var arrived := if o.lands then Next(UNCHECKED, Next(UNCHECKED, n, Pass(o.delay)), Land(tx, o.endSlot))
                     else Next(UNCHECKED, n, Drop(tx));
      arrived.inFlight == multiset{} && Next(UNCHECKED, arrived, Pass(o.advance)).chain == Tick(c, o)
  {
    var n := Net(c, c.current, c.rounds.Items, multiset{});
    assert IsView(n, c);
    ArrivesAlone(Send(n, Sends(tx)), tx);
  }

  lemma ArrivesAlone(n: Net, tx: Tx)
    requires n.inFlight == multiset{tx}
    ensures tx in n.inFlight && n.inFlight - multiset{tx} == multiset{}
  {
  }

  // ---------------------------------------------------------------- ids never skip

  predicate IdOk(n: Net, tx: Tx) {
    tx.StartRound? ==> 1 <= tx.id <= n.highest + 1 && tx.id <= U64_MAX
  }

  /** Rounds are 1..highest, and no start in flight would leave a gap. */
  ghost predicate Contiguous(n: Net) {
    && n.highest <= U64_MAX
    && (forall id :: id in n.chain.rounds <==> 1 <= id <= n.highest)
    && n.chain.current <= n.highest
    && (forall tx :: tx in n.inFlight ==> IdOk(n, tx))
  }

  /** Whatever is sent was decided on the config as seen. */
  lemma SentIds(v: Chain, o: Outcomes)
    ensures StartDecision(v, o).Sends? ==> StartDecision(v, o).tx == StartRound(v.current + 1) && v.current < U64_MAX
    ensures TickDecision(v, o).Sends? ==>
      TickDecision(v, o) == StartDecision(v, o) || TickDecision(v, o).tx == SettleRound(v.current)
  {
  }

  lemma SendKeepsContiguous(n: Net, v: Chain, o: Outcomes, a: Action)
    requires Contiguous(n) && IsView(n, v)
    requires a == TickDecision(v, o) || a == OnceDecision(v, o)
    ensures Contiguous(Send(n, a))
  {
    SentIds(v, o);
    if a.Sends? {
      assert forall tx :: tx in Send(n, a).inFlight ==> tx in n.inFlight || tx == a.tx;
    }
  }

  lemma LandKeepsContiguous(k: Checks, n: Net, tx: Tx, endSlot: U64)
    requires Contiguous(n)
    ensures Contiguous(LandStep(k, n, tx, endSlot))
  {
    if tx in n.inFlight {
      assert IdOk(n, tx);
      assert forall other :: other in n.inFlight - multiset{tx} ==> other in n.inFlight;
    }
  }

  lemma NextKeepsContiguous(k: Checks, n: Net, m: Move)
    requires Contiguous(n)
    ensures Contiguous(Next(k, n, m))
  {
    match m
    case Cron(v, o) =>
      if IsView(n, v) {
        SendKeepsContiguous(n, v, o, TickDecision(v, o));
      }
    case Boot(v, o) =>
      if IsView(n, v) {
        SendKeepsContiguous(n, v, o, OnceDecision(v, o));
      }
    case Land(tx, endSlot) =>
      LandKeepsContiguous(k, n, tx, endSlot);
    case Drop(tx) =>
      assert forall other :: other in n.inFlight - multiset{tx} ==> other in n.inFlight;
    case Pass(_) =>
  }

  ghost predicate Unopened(n: Net) {
    && n.chain.current == 0 && n.chain.rounds == map[] && n.highest == 0
    && n.versions == {} && n.inFlight == multiset{}
  }

  /** Whatever lands late, twice or never, however stale the reads, and even if the program checks
      nothing, round ids are handed out without a gap. */
  lemma {:induction false} IdsNeverSkip(k: Checks, n: Net, moves: seq<Move>)
    requires Unopened(n)
    ensures Contiguous(RunMoves(k, n, moves))
  {
    if moves == [] {
    } else {
      IdsNeverSkip(k, n, moves[..|moves| - 1]);
      NextKeepsContiguous(k, RunMoves(k, n, moves[..|moves| - 1]), moves[|moves| - 1]);
    }
  }

  /** What a round account holds now is among the versions it has had: a fresh view is a view. */
  ghost predicate RoundsShown(n: Net) {
    forall id :: id in n.chain.rounds ==> (id, n.chain.rounds[id]) in n.versions
  }

  lemma LandKeepsShown(k: Checks, n: Net, tx: Tx, endSlot: U64)
    requires RoundsShown(n)
    ensures RoundsShown(LandStep(k, n, tx, endSlot))
  {
    var t := LandStep(k, n, tx, endSlot);
    forall id | id in t.chain.rounds ensures (id, t.chain.rounds[id]) in t.versions {
      if id != tx.id {
        assert (id, n.chain.rounds[id]) in n.versions;
      }
    }
  }

  lemma {:induction false} RunShowsRounds(k: Checks, n: Net, moves: seq<Move>)
    requires Unopened(n)
    ensures RoundsShown(RunMoves(k, n, moves))
  {
    if moves == [] {
    } else {
      var before, last := RunMoves(k, n, moves[..|moves| - 1]), moves[|moves| - 1];
      RunShowsRounds(k, n, moves[..|moves| - 1]);
      if last.Land? {
        LandKeepsShown(k, before, last.tx, last.endSlot);
      }
    }
  }

  /** The read does not stop a start: it misses the round or finds it settled. */
  predicate LetsThrough(round: Option<Round>) {
    round.None? || round.value.settledAt.Some?
  }

  /** A start of a round that is there already, or whose start is under way. */
  predicate Duplicate(n: Net, tx: Tx) {
    tx.StartRound? && (tx.id in n.chain.rounds || tx in n.inFlight)
  }

  /** The first guard is there for the duplicate start. One is sent exactly when the config read is
      stale or the next start is still in flight, the read of the target misses it or finds it
      settled already, and so does the read of the previous round. */
  lemma DuplicateSentIff(n: Net, v: Chain, o: Outcomes)
    requires Contiguous(n) && IsView(n, v)
    ensures var a := StartDecision(v, o);
      a.Sends? && Duplicate(n, a.tx) <==>
        && (v.current < n.highest || StartRound(v.current + 1) in n.inFlight)
        && LetsThrough(LoadRound(v, v.current + 1, o.targetRead))
        && (v.current > 0 ==> LetsThrough(LoadRound(v, v.current, o.previousRead)))
  {
    assert StartRound(v.current + 1) in n.inFlight ==> IdOk(n, StartRound(v.current + 1));
  }

  /** A caller who sees everything as it is sends a duplicate exactly when the current round is settled
      and the start of the next is still in flight, which the guard cannot see; or, when a late start
      has set the config back, when the next round is settled. */
  lemma FreshViewDuplicates(n: Net, o: Outcomes)
    requires Contiguous(n) && RoundsShown(n) && o.targetRead && o.previousRead
    ensures var c := n.chain; var a := StartDecision(c, o);
      a.Sends? && Duplicate(n, a.tx) <==>
        && CurrentSettled(c)
        && (if c.current < n.highest then Settled(c, c.current + 1) else StartRound(c.current + 1) in n.inFlight)
  {
    assert IsView(n, n.chain);
    DuplicateSentIff(n, n.chain, o);
  }

  /** ... and that over every run. */
  lemma FreshDuplicateIff(k: Checks, n: Net, moves: seq<Move>, o: Outcomes)
    requires Unopened(n) && o.targetRead && o.previousRead
    ensures var t := RunMoves(k, n, moves); var c := t.chain; var a := StartDecision(c, o);
      a.Sends? && Duplicate(t, a.tx) <==>
        && CurrentSettled(c)
        && (if c.current < t.highest then Settled(c, c.current + 1) else StartRound(c.current + 1) in t.inFlight)
  {
    IdsNeverSkip(k, n, moves);
    RunShowsRounds(k, n, moves);
    FreshViewDuplicates(RunMoves(k, n, moves), o);
  }

  // ---------------------------------------------------------------- what the rejections save

  predicate TxSafe(k: Checks, c: Chain, tx: Tx) {
    match tx
    case StartRound(id) => 1 <= id <= c.current + 1 && id <= U64_MAX && (k.unsettled || id == 1 || Settled(c, id - 1))
    case SettleRound(id) => id in c.rounds && c.rounds[id].endSlot + c.intermission <= c.slot
  }

  /** The round is there, and as given or settled since. */
  predicate IsVersion(c: Chain, id: nat, round: Round) {
    id in c.rounds && (round == c.rounds[id] || round == c.rounds[id].(settledAt := None))
  }

  ghost predicate RaceSafe(k: Checks, n: Net) {
    && Safe(n.chain) && n.highest == n.chain.current
    && (forall w :: w in n.versions ==> IsVersion(n.chain, w.0, w.1))
    && (forall tx :: tx in n.inFlight ==> TxSafe(k, n.chain, tx))
  }

  /** The bootstrap saw the previous round, or the program does. */
  predicate Covered(k: Checks, m: Move) {
    m.Boot? ==>
      k.unsettled || m.view.current == 0 || LoadRound(m.view, m.view.current, m.o.previousRead).Some?
  }

  lemma CronSendsSafe(k: Checks, n: Net, v: Chain, o: Outcomes)
    requires RaceSafe(k, n) && IsView(n, v) && TickDecision(v, o).Sends?
    ensures TxSafe(k, n.chain, TickDecision(v, o).tx)
  {
    if v.current > 0 {
      assert IsVersion(n.chain, v.current, v.rounds[v.current]);
    }
  }

  lemma BootSendsSafe(k: Checks, n: Net, v: Chain, o: Outcomes)
    requires RaceSafe(k, n) && IsView(n, v) && OnceDecision(v, o).Sends? && Covered(k, Boot(v, o))
    ensures TxSafe(k, n.chain, OnceDecision(v, o).tx)
  {
    if !k.unsettled && v.current > 0 {
      assert IsVersion(n.chain, v.current, v.rounds[v.current]);
    }
  }

  lemma SendKeepsRaceSafe(k: Checks, n: Net, a: Action)
    requires RaceSafe(k, n) && (a.Sends? ==> TxSafe(k, n.chain, a.tx))
    ensures RaceSafe(k, Send(n, a))
  {
    if a.Sends? {
      SentKeepsSafe(n.chain, Send(n, a).chain);
      forall tx | tx in Send(n, a).inFlight ensures TxSafe(k, Send(n, a).chain, tx) {
        assert tx in n.inFlight || tx == a.tx;
        assert TxSafe(k, n.chain, tx);
      }
    }
  }

  /** Nothing about a round is taken back: when it started and ends, and how it was settled. */
  ghost predicate KeepsRounds(c: Chain, d: Chain) {
    forall id :: id in c.rounds ==> KeepsRound(c, d, id)
  }

  predicate KeepsRound(c: Chain, d: Chain, id: nat)
    requires id in c.rounds
  {
    && id in d.rounds
    && d.rounds[id].startedAt == c.rounds[id].startedAt && d.rounds[id].endSlot == c.rounds[id].endSlot
    && (c.rounds[id].settledAt.Some? ==> d.rounds[id] == c.rounds[id])
  }

  lemma LandKeepsRounds(k: Checks, n: Net, tx: Tx, endSlot: U64)
    requires k.duplicates
    ensures KeepsRounds(n.chain, LandStep(k, n, tx, endSlot).chain)
  {
  }

  /** What is safe to have in flight stays so while settled rounds and end slots stand. */
  lemma TxStaysSafe(k: Checks, c: Chain, d: Chain, tx: Tx)
    requires TxSafe(k, c, tx)
    requires c.current <= d.current && c.slot <= d.slot && c.intermission == d.intermission
    requires KeepsRounds(c, d)
    ensures TxSafe(k, d, tx)
  {
    assert tx.id in c.rounds ==> KeepsRound(c, d, tx.id);
    assert tx.StartRound? && tx.id - 1 in c.rounds ==> KeepsRound(c, d, tx.id - 1);
  }

  lemma AppliedIsSafe(k: Checks, n: Net, tx: Tx, endSlot: U64)
    requires k.duplicates && RaceSafe(k, n) && TxSafe(k, n.chain, tx) && !Rejected(k, n.chain, tx)
    ensures var d := ApplyTx(n.chain, tx, n.chain.slot, endSlot); Safe(d) && n.chain.current <= d.current
  {
    var c := n.chain;
    var o := GOOD.(endSlot := endSlot);
    match tx
    case StartRound(id) =>
      assert id == c.current + 1 && CurrentSettled(c);
      StartKeepsSafe(c, o);
      SentKeepsSafe(Perform(c, Sends(tx), o), ApplyTx(c, tx, c.slot, endSlot));
    case SettleRound(id) =>
      assert id < c.current ==> SettledBeforeNext(c, id);
      SettleKeepsSafe(c, o);
      SentKeepsSafe(Perform(c, Sends(tx), o), ApplyTx(c, tx, c.slot, endSlot));
  }

  lemma LandKeepsRaceSafe(k: Checks, n: Net, tx: Tx, endSlot: U64)
    requires k.duplicates && RaceSafe(k, n)
    ensures RaceSafe(k, LandStep(k, n, tx, endSlot))
  {
    if tx in n.inFlight {
      var t := LandStep(k, n, tx, endSlot);
      if !Rejected(k, n.chain, tx) {
        AppliedIsSafe(k, n, tx, endSlot);
      }
      LandKeepsRounds(k, n, tx, endSlot);
      forall other | other in t.inFlight ensures TxSafe(k, t.chain, other) {
        assert other in n.inFlight;
        TxStaysSafe(k, n.chain, t.chain, other);
      }
      forall w | w in t.versions ensures IsVersion(t.chain, w.0, w.1) {
        if w in n.versions {
          assert IsVersion(n.chain, w.0, w.1);
          assert KeepsRound(n.chain, t.chain, w.0);
        }
      }
    }
  }

  lemma NextKeepsRaceSafe(k: Checks, n: Net, m: Move)
    requires k.duplicates && Covered(k, m) && RaceSafe(k, n)
    ensures RaceSafe(k, Next(k, n, m))
  {
    match m
    case Cron(v, o) =>
      if IsView(n, v) {
        if TickDecision(v, o).Sends? {
          CronSendsSafe(k, n, v, o);
        }
        SendKeepsRaceSafe(k, n, TickDecision(v, o));
      }
    case Boot(v, o) =>
      if IsView(n, v) {
        if OnceDecision(v, o).Sends? {
          BootSendsSafe(k, n, v, o);
        }
        SendKeepsRaceSafe(k, n, OnceDecision(v, o));
      }
    case Land(tx, endSlot) =>
      LandKeepsRaceSafe(k, n, tx, endSlot);
    case Drop(tx) =>
      assert forall other :: other in n.inFlight - multiset{tx} ==> other in n.inFlight;
    case Pass(slots) =>
      SentKeepsSafe(n.chain, Wait(n.chain, slots));
      forall tx | tx in n.inFlight ensures TxSafe(k, Wait(n.chain, slots), tx) {
        TxStaysSafe(k, n.chain, Wait(n.chain, slots), tx);
      }
  }

  /** Once the program rejects duplicates the whole of `Safe` survives late and lost transactions,
      stale and failing reads; for bootstraps too if it rejects a start on an unsettled round or
      they see the previous one. */
  lemma {:induction false} RaceIsSafe(k: Checks, n: Net, moves: seq<Move>)
    requires k.duplicates && Unopened(n)
    requires forall i :: 0 <= i < |moves| ==> Covered(k, moves[i])
    ensures RaceSafe(k, RunMoves(k, n, moves))
  {
    if moves == [] {
    } else {
      RaceIsSafe(k, n, moves[..|moves| - 1]);
      NextKeepsRaceSafe(k, RunMoves(k, n, moves[..|moves| - 1]), moves[|moves| - 1]);
    }
  }

  /** Beside safety, permanence, which follows from the rejection of duplicates alone: over every run
      each round is started once, keeps its end and is settled at most once. */
  lemma {:induction false} RoundsArePermanent(k: Checks, n: Net, moves: seq<Move>)
    requires k.duplicates
    ensures KeepsRounds(n.chain, RunMoves(k, n, moves).chain)
  {
    if moves == [] {
    } else {
      var before, last := RunMoves(k, n, moves[..|moves| - 1]), moves[|moves| - 1];
      RoundsArePermanent(k, n, moves[..|moves| - 1]);
      if last.Land? {
        LandKeepsRounds(k, before, last.tx, last.endSlot);
      }
      forall id | id in n.chain.rounds ensures KeepsRound(n.chain, RunMoves(k, n, moves).chain, id) {
        assert KeepsRound(n.chain, before.chain, id);
        assert last.Land? ==> KeepsRound(before.chain, RunMoves(k, n, moves).chain, id);
      }
    }
  }

  // ---------------------------------------------------------------- what is lost without them

  /** Arrivals an unchecked program takes without harm: a start of the next round after a settled
      one, or of the current round over again; a settlement in time of the current round, or of one
      whose successor starts no earlier. */
  predicate Harmless(c: Chain, tx: Tx) {
    match tx
    case StartRound(id) => id == c.current || (id == c.current + 1 && (c.current == 0 || Settled(c, c.current)))
    case SettleRound(id) =>
      id in c.rounds ==>
        && c.rounds[id].endSlot + c.intermission <= c.slot
        && (id + 1 in c.rounds ==> c.slot <= c.rounds[id + 1].startedAt)
  }

  /** Exactly these arrivals keep a safe game safe when the program checks nothing. */
  lemma ArrivalKeepsSafeIff(c: Chain, tx: Tx, endSlot: U64)
    requires Safe(c) && (tx.StartRound? ==> 1 <= tx.id <= c.current + 1 && tx.id <= U64_MAX)
    ensures Safe(ApplyTx(c, tx, c.slot, endSlot)) <==> Harmless(c, tx)
  {
    if Harmless(c, tx) {
      HarmlessKeepsSafe(c, tx, endSlot);
    } else {
      HarmBreaksSafe(c, tx, endSlot);
    }
  }

  lemma HarmlessKeepsSafe(c: Chain, tx: Tx, endSlot: U64)
    requires Safe(c) && Harmless(c, tx) && (tx.StartRound? ==> 1 <= tx.id <= U64_MAX)
    ensures Safe(ApplyTx(c, tx, c.slot, endSlot))
  {
    var d := ApplyTx(c, tx, c.slot, endSlot);
    forall id | 1 <= id <= d.current ensures SettledInTime(d, id) {
      assert id <= c.current ==> SettledInTime(c, id);
    }
    forall id | 1 <= id < d.current ensures SettledBeforeNext(d, id) {
      assert SettledInTime(c, id);
      assert id < c.current ==> SettledBeforeNext(c, id);
    }
  }

  lemma HarmBreaksSafe(c: Chain, tx: Tx, endSlot: U64)
    requires Safe(c) && !Harmless(c, tx) && (tx.StartRound? ==> 1 <= tx.id <= c.current + 1 && tx.id <= U64_MAX)
    ensures !Safe(ApplyTx(c, tx, c.slot, endSlot))
  {
    var d := ApplyTx(c, tx, c.slot, endSlot);
    match tx
    case StartRound(id) =>
      if id == c.current + 1 {
        assert !SettledBeforeNext(d, c.current);
      } else {
        assert c.current in d.rounds;
      }
    case SettleRound(id) =>
      if c.rounds[id].endSlot + c.intermission <= c.slot {
        assert !SettledBeforeNext(d, id);
      } else {
        assert !SettledInTime(d, id);
      }
  }

  function FirstNet(): Net {
    Net(Chain(true, 0, 0, map[], 0, []), 0, {}, multiset{})
  }

  lemma RunSnoc(k: Checks, n: Net, moves: seq<Move>, m: Move)
    ensures RunMoves(k, n, moves + [m]) == Next(k, RunMoves(k, n, moves), m)
  {
    assert (moves + [m])[..|moves|] == moves;
  }

  const START_ONE := Sends(StartRound(1))

  /** Two ticks start the first round, the second before the first start has landed. */
  function TwoStarts(): Net {
    Send(Send(FirstNet(), START_ONE), START_ONE)
  }

  lemma StartTwice() returns (moves: seq<Move>)
    ensures RunMoves(UNCHECKED, FirstNet(), moves) == TwoStarts()
    ensures TwoStarts().chain.rounds == map[] && TwoStarts().inFlight == multiset{StartRound(1), StartRound(1)}
  {
    var n := FirstNet();
    var m := Send(n, START_ONE);
    RunSnoc(UNCHECKED, n, [], Cron(n.chain, GOOD));
    RunSnoc(UNCHECKED, n, [] + [Cron(n.chain, GOOD)], Cron(m.chain, GOOD));
    moves := [] + [Cron(n.chain, GOOD)] + [Cron(m.chain, GOOD)];
  }

  function RacingNet(): Net {
    var sent := [StartRound(1), StartRound(1), SettleRound(1)];
    var inFlight := multiset{StartRound(1), SettleRound(1)};
    Net(Chain(true, 1, 0, map[1 := Round(0, 0, None)], 0, sent), 1, {(1, Round(0, 0, None))}, inFlight)
  }

  /** One of the two starts lands, and a third tick sends the settlement. */
  lemma SettleBesideStart() returns (moves: seq<Move>)
    ensures RunMoves(UNCHECKED, FirstNet(), moves) == RacingNet()
  {
    var before := StartTwice();
    var n := LandStep(UNCHECKED, TwoStarts(), StartRound(1), 0);
    RunSnoc(UNCHECKED, FirstNet(), before, Land(StartRound(1), 0));
    RunSnoc(UNCHECKED, FirstNet(), before + [Land(StartRound(1), 0)], Cron(n.chain, GOOD));
    moves := before + [Land(StartRound(1), 0)] + [Cron(n.chain, GOOD)];
  }

  /** Without checks the late start replaces the round, and the settlement meant for the first one
      settles it early. */
  lemma LateStartSettledEarly() returns (moves: seq<Move>)
    ensures !SettledInTime(RunMoves(UNCHECKED, FirstNet(), moves).chain, 1)
  {
    var before := SettleBesideStart();
    RunSnoc(UNCHECKED, FirstNet(), before, Land(StartRound(1), 100));
    RunSnoc(UNCHECKED, FirstNet(), before + [Land(StartRound(1), 100)], Land(SettleRound(1), 0));
    moves := before + [Land(StartRound(1), 100)] + [Land(SettleRound(1), 0)];
  }

  function SettledNet(): Net {
    var sent := [StartRound(1), StartRound(1), SettleRound(1)];
    var versions := {(1, Round(0, 0, None)), (1, Round(0, 0, Some(0)))};
    Net(Chain(true, 1, 0, map[1 := Round(0, 0, Some(0))], 0, sent), 1, versions, multiset{StartRound(1)})
  }

  function SucceededNet(): Net {
    var sent := [StartRound(1), StartRound(1), SettleRound(1), StartRound(2)];
    var rounds := map[1 := Round(0, 0, Some(0)), 2 := Round(0, 0, None)];
    var versions := {(1, Round(0, 0, None)), (1, Round(0, 0, Some(0))), (2, Round(0, 0, None))};
    Net(Chain(true, 2, 0, rounds, 0, sent), 2, versions, multiset{StartRound(1)})
  }

  lemma SettlementLands()
    ensures Next(UNCHECKED, RacingNet(), Land(SettleRound(1), 0)) == SettledNet()
  {
  }

  lemma NextTickStarts()
    ensures Next(UNCHECKED, SettledNet(), Cron(SettledNet().chain, GOOD)) == Send(SettledNet(), Sends(StartRound(2)))
  {
  }

  lemma SuccessorLands()
    ensures Next(UNCHECKED, Send(SettledNet(), Sends(StartRound(2))), Land(StartRound(2), 0)) == SucceededNet()
  {
  }

  lemma RunThree(k: Checks, n: Net, moves: seq<Move>, a: Move, b: Move, c: Move)
    ensures RunMoves(k, n, moves + [a] + [b] + [c]) == Next(k, Next(k, Next(k, RunMoves(k, n, moves), a), b), c)
  {
    RunSnoc(k, n, moves, a);
    RunSnoc(k, n, moves + [a], b);
    RunSnoc(k, n, moves + [a] + [b], c);
  }

  /** The settlement lands, the next tick starts round 2, and that lands as well. */
  lemma StartSuccessor() returns (moves: seq<Move>)
    ensures RunMoves(UNCHECKED, FirstNet(), moves) == SucceededNet()
  {
    var before := SettleBesideStart();
    var settle, start, land := Land(SettleRound(1), 0), Cron(SettledNet().chain, GOOD), Land(StartRound(2), 0);
    SettlementLands();
    NextTickStarts();
    SuccessorLands();
    RunThree(UNCHECKED, FirstNet(), before, settle, start, land);
    moves := before + [settle] + [start] + [land];
  }

  /** ... or reopens it after its successor has started, and sets the game back to it. */
  lemma LateStartReopens() returns (moves: seq<Move>)
    ensures var n := RunMoves(UNCHECKED, FirstNet(), moves);
      n.highest == 2 && n.chain.current == 1 && !SettledBeforeNext(n.chain, 1)
  {
    var before := StartSuccessor();
    RunSnoc(UNCHECKED, FirstNet(), before, Land(StartRound(1), 0));
    moves := before + [Land(StartRound(1), 0)];
  }

  /** A reachable tick on a stale config: with round 2 not yet in the caller's view a duplicate start
      is sent, with it in view the guard stops it. */
  lemma GuardStopsDuplicate() returns (moves: seq<Move>, stale: Chain)
    ensures var n := RunMoves(UNCHECKED, FirstNet(), moves);
      && IsView(n, stale) && stale.current < n.highest && 2 in n.chain.rounds
      && TickDecision(stale, GOOD) == Quiet
      && TickDecision(stale, GOOD.(targetRead := false)) == Sends(StartRound(2))
  {
    moves := StartSuccessor();
    stale := SucceededNet().chain.(current := 1);
  }

  const PARTLY_CHECKED := Checks(true, false)

  function OpenNet(): Net {
    var versions := {(1, Round(0, 0, None))};
    Net(Chain(true, 1, 0, map[1 := Round(0, 0, None)], 0, [StartRound(1)]), 1, versions, multiset{})
  }

  lemma OpenFirst() returns (moves: seq<Move>)
    ensures RunMoves(PARTLY_CHECKED, FirstNet(), moves) == OpenNet()
  {
    var start := Cron(FirstNet().chain, GOOD);
    RunSnoc(PARTLY_CHECKED, FirstNet(), [], start);
    RunSnoc(PARTLY_CHECKED, FirstNet(), [] + [start], Land(StartRound(1), 0));
    moves := [] + [start] + [Land(StartRound(1), 0)];
  }

  /** Rejecting duplicates alone does not cover a bootstrap whose read of the open round fails. */
  lemma BlindBootstrapBreaks() returns (moves: seq<Move>)
    ensures !Safe(RunMoves(PARTLY_CHECKED, FirstNet(), moves).chain)
  {
    var before := OpenFirst();
    var boot := Boot(OpenNet().chain, GOOD.(previousRead := false));
    RunSnoc(PARTLY_CHECKED, FirstNet(), before, boot);
    RunSnoc(PARTLY_CHECKED, FirstNet(), before + [boot], Land(StartRound(2), 0));
    moves := before + [boot] + [Land(StartRound(2), 0)];
    assert !SettledBeforeNext(RunMoves(PARTLY_CHECKED, FirstNet(), moves).chain, 1);
  }
}
