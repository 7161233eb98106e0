/** The publisher and the endpoint as the imperative code runs them, tied to the step machine.

    One uninterrupted tick is a run of the machine; interleavings with inserts, late landings,
    requests and crashes are runs of the machine itself. */
module RewardzKeeper {
  import opened Common
  import opened Bytes
  import opened Merkle
  import opened Earnings
  import opened RewardzRail
  import opened RewardzTheorems
  import InstructionData

  // ---------------------------------------------------------------- the instruction of a transaction

  function InstructionOf(tx: Tx): InstructionData.Instruction {
    InstructionData.Instruction(tx.plan.root, tx.plan.epoch, tx.plan.total, tx.denyList)
  }

  /** The bytes submitted for a transaction are read back as its root, epoch, total and deny list
      exactly when the deny list's length fits its byte; the epoch and the total always fit. */
  lemma SubmittedBytesAreFaithful(p: Params, steps: seq<Step>, tx: Tx, disc: Byte)
    requires ValidParams(p) && p.cap <= U64_MAX && |Run(p, steps).landed| < U64_MAX
    requires tx in Run(p, steps).inFlight
    ensures InstructionData.Decode(InstructionData.Encode(disc, InstructionOf(tx)))
      == Some(InstructionData.Instruction(tx.plan.root, tx.plan.epoch, tx.plan.total, tx.denyList))
      <==> |tx.denyList| < 256
  {
    EpochsHaveNoHoles(p, steps);
    TotalsAreLeafSums(p, steps, tx);
    U64FitsEightBytes();
    assert Pow256(8) <= Pow256(16) by {
      Pow256Grows(8, 16);
    }
    InstructionData.DecodeEncode(disc, InstructionOf(tx));
  }

  lemma {:induction false} Pow256Grows(m: nat, n: nat)
    requires m <= n
    ensures Pow256(m) <= Pow256(n)
  {
    if m == n {
    } else {
      Pow256Grows(m, n - 1);
    }
  }

  // ---------------------------------------------------------------- one tick as a run

  /** What the environment decides during one publish attempt. */
  datatype Outcomes = Outcomes(
    cutoffOk: bool,
    readOk: bool,
    dryRun: bool,
    denyRead: Option<nat>,
    blockhashOk: bool,
    lands: bool,
    confirmOk: bool,
    dbOk: bool)

  function Or(ok: bool, step: Step): Step {
    if ok then step else GiveUp
  }

  function DenyStep(o: Outcomes): Step {
    if !o.dryRun && o.denyRead.Some? then ReadDenyList(o.denyRead.value) else GiveUp
  }

  function StepsToSubmit(o: Outcomes): seq<Step> {
    [Or(o.cutoffOk, CaptureCutoff), Or(o.readOk, ReadRows), DenyStep(o), Or(o.blockhashOk, Submit)]
  }

  function StepsToEnd(o: Outcomes): seq<Step> {
    [Or(o.confirmOk, Confirm), Or(o.dbOk, Record), GiveUp]
  }

  function LandSteps(t: State, o: Outcomes): seq<Step> {
    if o.lands && t.phase.Waiting? then [Land(t.phase.tx)] else []
  }

  /** The machine steps of one attempt. Steps after an early return find the machine idle. */
  function PublishSteps(p: Params, s: State, o: Outcomes): seq<Step> {
    var t := RunFrom(p, s, StepsToSubmit(o));
    StepsToSubmit(o) + LandSteps(t, o) + StepsToEnd(o)
  }

  function Publish(p: Params, s: State, o: Outcomes): State {
    RunFrom(p, s, PublishSteps(p, s, o))
  }

  // The same attempt in three stages, each ending where the code may have returned early.

  function PlanStage(p: Params, s: State, o: Outcomes): State {
    Next(p, Next(p, s, Or(o.cutoffOk, CaptureCutoff)), Or(o.readOk, ReadRows))
  }

  function SubmitStage(p: Params, s: State, o: Outcomes): State {
    Next(p, Next(p, s, DenyStep(o)), Or(o.blockhashOk, Submit))
  }

  function LandStage(s: State, o: Outcomes): State {
    if o.lands && s.phase.Waiting? then LandTx(s, s.phase.tx) else s
  }

  function SettleStage(p: Params, s: State, o: Outcomes): State {
    GiveUpStep(Next(p, Next(p, LandStage(s, o), Or(o.confirmOk, Confirm)), Or(o.dbOk, Record)))
  }

  lemma StagesToSubmit(p: Params, s: State, o: Outcomes)
    ensures RunFrom(p, s, StepsToSubmit(o)) == SubmitStage(p, PlanStage(p, s, o), o)
  {
    var first := [Or(o.cutoffOk, CaptureCutoff), Or(o.readOk, ReadRows)];
    var second := [DenyStep(o), Or(o.blockhashOk, Submit)];
    assert StepsToSubmit(o) == first + second;
    RunSplits(p, s, first, second);
    RunTwo(p, s, first[0], first[1]);
    RunTwo(p, PlanStage(p, s, o), second[0], second[1]);
  }

  lemma LandStageRuns(p: Params, t: State, o: Outcomes)
    ensures RunFrom(p, t, LandSteps(t, o)) == LandStage(t, o)
  {
    if o.lands && t.phase.Waiting? {
      RunOne(p, t, Land(t.phase.tx));
    }
  }

  lemma StagesToEnd(p: Params, t: State, o: Outcomes)
    ensures RunFrom(p, LandStage(t, o), StepsToEnd(o)) == SettleStage(p, t, o)
  {
    var a, b := Or(o.confirmOk, Confirm), Or(o.dbOk, Record);
    assert StepsToEnd(o) == [a, b] + [GiveUp];
    RunSplits(p, LandStage(t, o), [a, b], [GiveUp]);
    RunTwo(p, LandStage(t, o), a, b);
    RunOne(p, Next(p, Next(p, LandStage(t, o), a), b), GiveUp);
  }

  /** Running the steps is going through the stages. */
  lemma PublishByStages(p: Params, s: State, o: Outcomes)
    ensures Publish(p, s, o) == SettleStage(p, SubmitStage(p, PlanStage(p, s, o), o), o)
  {
    var t := SubmitStage(p, PlanStage(p, s, o), o);
    StagesToSubmit(p, s, o);
    LandStageRuns(p, t, o);
    StagesToEnd(p, t, o);
    RunSplits(p, s, StepsToSubmit(o), LandSteps(t, o));
    RunSplits(p, s, StepsToSubmit(o) + LandSteps(t, o), StepsToEnd(o));
  }

  /** An attempt that returned early stays as it was. */
  lemma IdleStays(p: Params, s: State, o: Outcomes)
    requires s.phase.Idle?
    ensures SubmitStage(p, s, o) == s && SettleStage(p, s, o) == s
  {
  }

  /** Everything goes well, and the read of the epoch is not stale. */
  predicate AllGood(s: State, o: Outcomes) {
    && o.cutoffOk && o.readOk && !o.dryRun && o.blockhashOk && o.lands && o.confirmOk && o.dbOk
    && o.denyRead.Some? && o.denyRead.value < |s.denyLog|
  }

  lemma GoodPlan(p: Params, s: State, o: Outcomes, epoch: nat) returns (plan: Plan)
    requires s.phase == Ticked(epoch) && AllGood(s, o) && !Blocked(p, s.rows)
    ensures plan.epoch == epoch && plan.rowsRead == |s.rows|
    ensures PlanStage(p, s, o) == s.(clock := s.clock + 1, phase := Built(plan))
  {
    var es := ReadEntries(p, s.rows).value;
    plan := Plan(epoch, s.clock, |s.rows|, es, RootOf(p.H, es), SumAmounts(es));
  }

  /** A tick that reads the present epoch and meets no failure publishes the next epoch over all
      rows and records it; nothing else could have taken that epoch meanwhile. */
  lemma GoodTickPublishes(p: Params, s: State, o: Outcomes)
    requires Inv(p, s) && s.phase.Idle? && AllGood(s, o) && !Blocked(p, s.rows)
    requires s.landed == [] ==> s.lastKnown == 0
    ensures var t := Publish(p, TickStep(s, ReadAt(|s.landed|)), o); var e := |s.landed| + 1;
      && t.phase.Idle?
      && |t.landed| == e && t.landed[..e - 1] == s.landed
      && t.landed[e - 1].plan.epoch == e && t.landed[e - 1].plan.rowsRead == |s.rows|
      && e in t.epochRows && t.epochRows[e].root == t.landed[e - 1].plan.root
  {
    var e := |s.landed| + 1;
    var ticked := TickStep(s, ReadAt(|s.landed|));
    assert ticked.phase == Ticked(e);
    PublishByStages(p, ticked, o);
    var plan := GoodPlan(p, ticked, o, e);
    var built := PlanStage(p, ticked, o);
    var waiting := SubmitStage(p, built, o);
    var tx := Tx(built.nextSig, plan, built.denyLog[o.denyRead.value]);
    assert waiting.phase == Waiting(tx) && waiting.landed == s.landed;
    GoodSettle(p, waiting, o, tx);
    forall f | f in s.epochRows ensures f <= |s.landed| {
      assert EpochRowOk(s, f);
    }
  }

  lemma GoodSettle(p: Params, t: State, o: Outcomes, tx: Tx)
    requires t.phase == Waiting(tx) && tx in t.inFlight && o.lands && o.confirmOk && o.dbOk
    requires tx.plan.epoch > ChainEpoch(t)
    ensures var u := SettleStage(p, t, o); var e := tx.plan.epoch;
      && u.phase.Idle? && u.landed == t.landed + [tx]
      && u.epochRows == if e in t.epochRows then t.epochRows
                        else t.epochRows[e := EpochRow(tx.plan.root, tx.sig, tx.plan.total)]
  {
    var landed := LandStage(t, o);
    assert landed.landed[|t.landed|] == tx;
  }

  // ---------------------------------------------------------------- what an attempt does, and does not

  /** The ledger reads, and its total is within the cap. */
  predicate Plannable(p: Params, rows: seq<EarningRow>) {
    ReadEntries(p, rows).Ok? && SumAmounts(ReadEntries(p, rows).value) <= p.cap
  }

  /** All that has to go well before a transaction is sent. */
  predicate MaySubmit(p: Params, s: State, o: Outcomes) {
    && o.cutoffOk && o.readOk && Plannable(p, s.rows)
    && !o.dryRun && o.denyRead.Some? && o.denyRead.value < |s.denyLog| && o.blockhashOk
  }

  /** The transaction of an attempt: the next epoch over all rows there are, and the deny list read. */
  ghost predicate IsAttempt(p: Params, s: State, o: Outcomes, tx: Tx)
    requires s.phase.Ticked? && MaySubmit(p, s, o)
  {
    && tx.sig == s.nextSig && tx.denyList == s.denyLog[o.denyRead.value]
    && tx.plan.epoch == s.phase.epoch && tx.plan.cutoff == s.clock && tx.plan.rowsRead == |s.rows|
    && ReadEntries(p, s.rows) == Ok(tx.plan.entries)
    && tx.plan.root == RootOf(p.H, tx.plan.entries) && tx.plan.total == SumAmounts(tx.plan.entries)
  }

  lemma PlanStageEffect(p: Params, s: State, o: Outcomes) returns (plan: Plan)
    requires s.phase.Ticked?
    ensures var t := PlanStage(p, s, o);
      if o.cutoffOk && o.readOk && Plannable(p, s.rows) then
        && t == s.(clock := s.clock + 1, phase := Built(plan))
        && plan.epoch == s.phase.epoch && plan.cutoff == s.clock && plan.rowsRead == |s.rows|
        && ReadEntries(p, s.rows) == Ok(plan.entries)
        && plan.root == RootOf(p.H, plan.entries) && plan.total == SumAmounts(plan.entries)
      else
        t == s.(clock := if o.cutoffOk then s.clock + 1 else s.clock, phase := Idle)
  {
    var es := if ReadEntries(p, s.rows).Ok? then ReadEntries(p, s.rows).value else [];
    plan := Plan(s.phase.epoch, s.clock, |s.rows|, es, RootOf(p.H, es), SumAmounts(es));
  }

  lemma SubmitStageEffect(p: Params, s: State, o: Outcomes)
    requires s.phase.Built?
    ensures var t := SubmitStage(p, s, o);
      if !o.dryRun && o.denyRead.Some? && o.denyRead.value < |s.denyLog| && o.blockhashOk then
        var tx := Tx(s.nextSig, s.phase.plan, s.denyLog[o.denyRead.value]);
        t == s.(phase := Waiting(tx), inFlight := s.inFlight + {tx}, nextSig := s.nextSig + 1)
      else
        GiveUpStep(t) == s.(phase := Idle) && !t.phase.Waiting? && !t.phase.Confirmed?
  {
  }

  lemma UnsentSettles(p: Params, t: State, o: Outcomes)
    requires !t.phase.Waiting? && !t.phase.Confirmed? && !t.phase.Down?
    ensures SettleStage(p, t, o) == GiveUpStep(t)
  {
  }

  /** Without all of that nothing leaves the process: no signature, no transaction, no record. A dry run
      in particular changes nothing but the clock. */
  lemma UnsentChangesNothing(p: Params, s: State, o: Outcomes)
    requires s.phase.Ticked? && !MaySubmit(p, s, o)
    ensures var t := Publish(p, s, o);
      t == s.(clock := t.clock, phase := Idle) && s.clock <= t.clock <= s.clock + 1
  {
    PublishByStages(p, s, o);
    var plan := PlanStageEffect(p, s, o);
    var planned := PlanStage(p, s, o);
    if planned.phase.Built? {
      SubmitStageEffect(p, planned, o);
      UnsentSettles(p, SubmitStage(p, planned, o), o);
    } else {
      IdleStays(p, planned, o);
    }
  }

  /** What becomes of a sent transaction: it stays in flight; or it arrives and is refused; or it is
      accepted, and the database learns of it exactly when the confirmation and the write go well. */
  ghost predicate Settled(p: Params, s: State, o: Outcomes, tx: Tx, t: State) {
    && t.phase.Idle? && t.rows == s.rows && t.clock == s.clock && t.nextSig == s.nextSig
    && t.lastKnown == s.lastKnown && t.requests == s.requests && t.replies == s.replies
    && t.inFlight == (if o.lands then s.inFlight - {tx} else s.inFlight + {tx})
    && var accepted := o.lands && tx.plan.epoch > ChainEpoch(s);
       && t.landed == s.landed + (if accepted then [tx] else [])
       && t.denyLog == s.denyLog + (if accepted then [tx.denyList] else [])
       && (if accepted && o.confirmOk && o.dbOk then Recorded(p, s, tx, t)
           else t.epochRows == s.epochRows && t.stamps == s.stamps)
  }

  ghost predicate Recorded(p: Params, s: State, tx: Tx, t: State) {
    && tx.plan.epoch in t.epochRows
    && (forall e :: e in t.epochRows <==> e in s.epochRows || e == tx.plan.epoch)
    && (forall e :: e in t.epochRows ==>
          t.epochRows[e] == if e in s.epochRows then s.epochRows[e] else EpochRow(tx.plan.root, tx.sig, tx.plan.total))
    && (forall i: nat :: i in t.stamps <==>
          i in s.stamps
          || (i < |s.rows| && HasLeaf(p, tx.plan, s.rows[i].authority) && s.rows[i].createdAt <= tx.plan.cutoff))
    && (forall i: nat :: i in t.stamps ==> t.stamps[i] == if i in s.stamps then s.stamps[i] else tx.plan.epoch)
  }

  lemma RecordStepRecords(p: Params, s: State)
    requires s.phase.Confirmed?
    ensures var t := RecordStep(p, s);
      Recorded(p, s, s.phase.tx, t) && t == s.(epochRows := t.epochRows, stamps := t.stamps, phase := Idle)
  {
    forall i: nat
      ensures Stampable(p, s, s.phase.tx.plan, i) <==>
        && i < |s.rows| && i !in s.stamps
        && HasLeaf(p, s.phase.tx.plan, s.rows[i].authority) && s.rows[i].createdAt <= s.phase.tx.plan.cutoff
    {
      if i < |s.rows| {
        LeafIsIncluded(p, s.phase.tx.plan, s.rows[i].authority);
      }
    }
  }

  /** Arrival or not, from a transaction just sent. */
  lemma LandStageEffect(s: State, o: Outcomes, tx: Tx)
    requires tx !in s.landed
    ensures var w := s.(phase := Waiting(tx), inFlight := s.inFlight + {tx}); var l := LandStage(w, o);
      var accepted := o.lands && tx.plan.epoch > ChainEpoch(s);
      && (tx in l.landed <==> accepted)
      && l == w.(
           inFlight := if o.lands then s.inFlight - {tx} else s.inFlight + {tx},
           landed := s.landed + (if accepted then [tx] else []),
           denyLog := s.denyLog + (if accepted then [tx.denyList] else []))
  {
    var w := s.(phase := Waiting(tx), inFlight := s.inFlight + {tx});
    assert ChainEpoch(w) == ChainEpoch(s);
    assert s.inFlight + {tx} - {tx} == s.inFlight - {tx};
    assert o.lands && tx.plan.epoch > ChainEpoch(s) ==> LandStage(w, o).landed[|s.landed|] == tx;
  }

  /** Confirmation and record, from a transaction that has arrived or not. */
  lemma RestEffect(p: Params, l: State, o: Outcomes, tx: Tx)
    requires l.phase == Waiting(tx)
    ensures var t := GiveUpStep(Next(p, Next(p, l, Or(o.confirmOk, Confirm)), Or(o.dbOk, Record)));
      && t == l.(phase := Idle, epochRows := t.epochRows, stamps := t.stamps)
      && (if tx in l.landed && o.confirmOk && o.dbOk then Recorded(p, l, tx, t)
          else t.epochRows == l.epochRows && t.stamps == l.stamps)
  {
    if tx in l.landed && o.confirmOk && o.dbOk {
      RecordStepRecords(p, l.(phase := Confirmed(tx)));
    }
  }

  lemma RestOfStage(p: Params, l: State, o: Outcomes, tx: Tx)
    requires l.phase == Waiting(tx)
    ensures GiveUpStep(Next(p, Next(p, l, Or(o.confirmOk, Confirm)), Or(o.dbOk, Record))) ==
      if o.confirmOk && tx in l.landed && o.dbOk then RecordStep(p, l.(phase := Confirmed(tx))) else l.(phase := Idle)
  {
  }

  lemma SettleStageEffect(p: Params, s: State, o: Outcomes, tx: Tx)
    requires tx !in s.landed
    ensures var w := s.(phase := Waiting(tx), inFlight := s.inFlight + {tx});
      Settled(p, s, o, tx, SettleStage(p, w, o))
  {
    var w := s.(phase := Waiting(tx), inFlight := s.inFlight + {tx});
    LandStageEffect(s, o, tx);
    RestEffect(p, LandStage(w, o), o, tx);
  }

  /** A cutoff taken and a signature used. */
  function Signed(s: State): State {
    s.(clock := s.clock + 1, nextSig := s.nextSig + 1)
  }

  lemma AttemptSent(p: Params, s: State, o: Outcomes) returns (tx: Tx)
    requires s.phase.Ticked? && MaySubmit(p, s, o)
    ensures IsAttempt(p, s, o, tx)
    ensures SubmitStage(p, PlanStage(p, s, o), o) ==
      Signed(s).(phase := Waiting(tx), inFlight := s.inFlight + {tx})
  {
    var plan := PlanStageEffect(p, s, o);
    tx := Tx(s.nextSig, plan, s.denyLog[o.denyRead.value]);
    SubmitStageEffect(p, PlanStage(p, s, o), o);
  }

  /** With all of that one transaction is signed, over the ledger as it stands, and settles as
      described. */
  lemma SentSettles(p: Params, s: State, o: Outcomes) returns (tx: Tx)
    requires s.phase.Ticked? && MaySubmit(p, s, o) && SigsFresh(s)
    ensures IsAttempt(p, s, o, tx)
    ensures Settled(p, Signed(s), o, tx, Publish(p, s, o))
  {
    tx := AttemptSent(p, s, o);
    PublishByStages(p, s, o);
    SettleStageEffect(p, Signed(s), o, tx);
  }

  lemma SettleKeepsSig(p: Params, t: State, o: Outcomes)
    ensures SettleStage(p, t, o).nextSig == t.nextSig
  {
  }

  /** So a transaction goes out exactly when all of it goes well. */
  lemma SendsIff(p: Params, s: State, o: Outcomes)
    requires s.phase.Ticked?
    ensures Publish(p, s, o).nextSig == s.nextSig + (if MaySubmit(p, s, o) then 1 else 0)
  {
    if MaySubmit(p, s, o) {
      PublishByStages(p, s, o);
      var tx := AttemptSent(p, s, o);
      SettleKeepsSig(p, SubmitStage(p, PlanStage(p, s, o), o), o);
    } else {
      UnsentChangesNothing(p, s, o);
    }
  }

  /** Which ticks start an attempt, and for which epoch: a failed read none; a missing account epoch 1,
      unless one was seen before; an account the epoch above the one it shows. */
  lemma TickStarts(p: Params, steps: seq<Step>, read: ChainRead)
    requires Run(p, steps).phase.Idle? && (read.ReadAt? ==> read.k <= |Run(p, steps).landed|)
    ensures var s := Run(p, steps); var t := TickStep(s, read);
      && (t.phase.Ticked? <==> read.ReadAt? && (read.k > 0 || s.lastKnown == 0))
      && (t.phase.Ticked? ==> t.phase.epoch == read.k + 1 && t.lastKnown == read.k)
      && (!t.phase.Ticked? ==> t == s)
  {
    EpochsHaveNoHoles(p, steps);
  }

  /** Row `i` is one the backfill's filter selects, stamped or not. */
  predicate Due(p: Params, rows: seq<EarningRow>, plan: Plan, i: nat) {
    i < |rows| && Included(p, plan, rows[i].authority) && rows[i].createdAt <= plan.cutoff
  }

  lemma BackfillIsRecord(p: Params, s: State, m: map<nat, nat>)
    requires s.phase.Confirmed?
    requires forall i: nat :: i in m <==> i in s.stamps || Due(p, s.rows, s.phase.tx.plan, i)
    requires forall i: nat :: i in m ==>
      m[i] == if i in s.stamps then s.stamps[i] else s.phase.tx.plan.epoch
    ensures m == RecordStep(p, s).stamps
  {
    forall i: nat
      ensures Stampable(p, s, s.phase.tx.plan, i) <==> i !in s.stamps && Due(p, s.rows, s.phase.tx.plan, i)
    {
    }
  }

  // ---------------------------------------------------------------- the keeper process

  class Keeper {
    const p: Params

    // the publisher task's own memory
    var lastKnownEpoch: nat

    // the database
    var rows: seq<EarningRow>
    var clock: nat
    var stamps: map<nat, nat>
    var epochRows: map<nat, EpochRow>

    // the chain, and the signatures handed out
    var landed: seq<Tx>
    var inFlight: set<Tx>
    var denyLog: seq<seq<Pubkey>>
    var nextSig: nat

    // the endpoint
    var requests: seq<Pending>
    var replies: seq<Reply>

    constructor (p: Params)
      ensures this.p == p && View(Idle) == INITIAL
    {
      this.p := p;
      lastKnownEpoch, rows, clock, stamps, epochRows := 0, [], 0, map[], map[];
      landed, inFlight, denyLog, nextSig, requests, replies := [], {}, [[]], 0, [], [];
    }

    ghost function View(phase: Phase): State
      reads this
    {
      State(rows, clock, stamps, epochRows, landed, inFlight, denyLog, nextSig, phase, lastKnownEpoch,
            requests, replies)
    }

    /** The account as a read saw it: `None` when missing. */
    method LoadCurrentEpoch(read: ChainRead) returns (r: Result<Option<nat>>)
      requires read.ReadAt? ==> read.k <= |landed|
      ensures r.Err? <==> read.ReadError?
      ensures read.ReadAt? && read.k == 0 ==> r == Ok(None)
      ensures read.ReadAt? && read.k > 0 ==> r == Ok(Some(landed[read.k - 1].plan.epoch))
    {
      match read
      case ReadError => r := Err;
      case ReadAt(k) => r := Ok(if k == 0 then None else Some(landed[k - 1].plan.epoch));
    }

    /** The chain's side of a submitted transaction that arrives. */
    method Deliver(tx: Tx)
      modifies this`landed, this`inFlight, this`denyLog
      ensures forall phase :: View(phase) == LandTx(old(View(phase)), tx)
    {
      if tx in inFlight {
        inFlight := inFlight - {tx};
        var current := if landed == [] then 0 else landed[|landed| - 1].plan.epoch;
        if tx.plan.epoch > current {
          landed := landed + [tx];
          denyLog := denyLog + [tx.denyList];
        }
      }
    }

    /** The backfill: walk the table and stamp what is unstamped, in the tree and within the cutoff. */
    method Backfill(plan: Plan) returns (count: nat)
      modifies this`stamps
      ensures forall i: nat :: i in stamps <==> i in old(stamps) || Due(p, rows, plan, i)
      ensures forall i: nat :: i in stamps ==>
        stamps[i] == if i in old(stamps) then old(stamps)[i] else plan.epoch
      ensures count == |stamps| - |old(stamps)|
    {
      count := 0;
      for i := 0 to |rows|
        invariant forall j: nat :: j in stamps <==> j in old(stamps) || (j < i && Due(p, rows, plan, j))
        invariant forall j: nat :: j in stamps ==>
          stamps[j] == if j in old(stamps) then old(stamps)[j] else plan.epoch
        invariant |stamps| == |old(stamps)| + count
      {
        if i !in stamps && Due(p, rows, plan, i) {
          stamps := stamps[i := plan.epoch];
          count := count + 1;
        }
      }
    }

    /** Insert the epoch row unless there is one, and backfill the earnings rows. */
    method RecordRootPublish(tx: Tx) returns (backfilled: nat)
      modifies this`stamps, this`epochRows
      ensures View(Idle) == RecordStep(p, old(View(Confirmed(tx))))
      ensures backfilled == |stamps| - |old(stamps)|
    {
      ghost var s := View(Confirmed(tx));
      var e := tx.plan.epoch;
      if e !in epochRows {
        epochRows := epochRows[e := EpochRow(tx.plan.root, tx.sig, tx.plan.total)];
      }
      backfilled := Backfill(tx.plan);
      BackfillIsRecord(p, s, stamps);
    }

    /** Cutoff, grouped read, filter, cap check, tree. */
    method BuildPlan(epoch: nat, o: Outcomes) returns (r: Option<Plan>)
      modifies this`clock
      ensures View(if r.Some? then Built(r.value) else Idle) == PlanStage(p, old(View(Ticked(epoch))), o)
    {
      if !o.cutoffOk {
        return None;
      }
      var cutoff := clock;
      clock := clock + 1;
      var read := ReadEntries(p, rows);
      if !o.readOk || read.Err? {
        return None;
      }
      var entries := read.value;
      var total := SumAmounts(entries);
      if total > p.cap {
        return None;
      }
      var tree := BuildMerkleTree(p.H, entries);
      var root: Digest := match tree case Some(t) => t.root case None => ZERO_DIGEST;
      r := Some(Plan(epoch, cutoff, |rows|, entries, root, total));
    }

    /** Dry-run exit, deny list read, signing and sending. */
    method SubmitPlan(plan: Plan, o: Outcomes) returns (r: Option<Tx>)
      requires o.denyRead.Some? ==> o.denyRead.value < |denyLog|
      modifies this`inFlight, this`nextSig
      ensures View(if r.Some? then Waiting(r.value) else Idle) == SubmitStage(p, old(View(Built(plan))), o)
    {
      if o.dryRun || o.denyRead.None? || !o.blockhashOk {
        return None;
      }
      var tx := Tx(nextSig, plan, denyLog[o.denyRead.value]);
      inFlight := inFlight + {tx};
      nextSig := nextSig + 1;
      r := Some(tx);
    }

    /** Arrival or not, confirmation or not, and the database record. */
    method AwaitAndRecord(tx: Tx, o: Outcomes)
      modifies this`landed, this`inFlight, this`denyLog, this`stamps, this`epochRows
      ensures View(Idle) == SettleStage(p, old(View(Waiting(tx))), o)
    {
      ghost var w := View(Waiting(tx));
      if o.lands {
        Deliver(tx);
      }
      assert View(Waiting(tx)) == LandStage(w, o);
      RestOfStage(p, View(Waiting(tx)), o, tx);
      if o.confirmOk && tx in landed && o.dbOk {
        var backfilled := RecordRootPublish(tx);
      }
    }

    /** One publish attempt for `epoch`. */
    method PublishRewardzRoot(epoch: nat, o: Outcomes)
      requires o.denyRead.Some? ==> o.denyRead.value < |denyLog|
      modifies this
      ensures View(Idle) == Publish(p, old(View(Ticked(epoch))), o)
    {
      PublishByStages(p, View(Ticked(epoch)), o);
      var plan := BuildPlan(epoch, o);
      if plan.None? {
        IdleStays(p, View(Idle), o);
        return;
      }
      var tx := SubmitPlan(plan.value, o);
      if tx.None? {
        IdleStays(p, View(Idle), o);
        return;
      }
      AwaitAndRecord(tx.value, o);
    }

    /** One tick of the cron. */
    method TickOnce(read: ChainRead, o: Outcomes)
      requires read.ReadAt? ==> read.k <= |landed|
      requires o.denyRead.Some? ==> o.denyRead.value < |denyLog|
      modifies this
      ensures var s := TickStep(old(View(Idle)), read);
        View(Idle) == if s.phase.Ticked? then Publish(p, s, o) else s
    {
      var epoch := LoadCurrentEpoch(read);
      var current;
      match epoch {
        case Ok(Some(e)) =>
          lastKnownEpoch := e;
          current := e;
        case Ok(None) =>
          if lastKnownEpoch > 0 {
            return;
          }
          current := 0;
        case Err =>
          return;
      }
      PublishRewardzRoot(current + 1, o);
    }

    // ---------------------------------------------------------------- the endpoint

    /** A request up to its database read: parsed, and the account read. */
    method OpenRequest(target: string, read: ChainRead)
      requires read.ReadAt? ==> read.k <= |landed|
      modifies this`requests, this`replies
      ensures View(Idle) == AskStep(p, old(View(Idle)), target, read)
    {
      var key := p.parse(target);
      if key.None? {
        replies := replies + [Refused(BadRequest)];
        return;
      }
      if read.ReadError? || read.k == 0 {
        replies := replies + [Refused(Unavailable)];
        return;
      }
      var plan := landed[read.k - 1].plan;
      requests := requests + [Pending(key.value, plan.root, plan.epoch)];
    }

    /** ... and from there to its reply. */
    method AnswerRequest(i: nat, dbOk: bool)
      requires i < |requests|
      modifies this`requests, this`replies
      ensures View(Idle) == AnswerStep(p, old(View(Idle)), i, dbOk)
    {
      var reply := GetRewardzProof(requests[i], dbOk);
      requests, replies := requests[..i] + requests[i + 1..], replies + [reply];
    }

    /** The body of the proof request after its chain read. */
    method GetRewardzProof(q: Pending, dbOk: bool) returns (reply: Reply)
      ensures reply == if dbOk then ReplyTo(p, q, rows) else Refused(Internal)
    {
      if !dbOk {
        return Refused(Internal);
      }
      var read := ReadEntries(p, rows);
      if read.Err? {
        return Refused(Internal);
      }
      var entries := read.value;
      var tree := BuildMerkleTree(p.H, entries);
      if tree.None? {
        return Refused(if q.root == ZERO_DIGEST then NotFound else Unavailable);
      }
      if tree.value.root != q.root {
        return Refused(Unavailable);
      }
      var at := LastIndex(entries, q.target);
      if at.None? || q.target !in tree.value.proofs {
        return Refused(NotFound);
      }
      assert entries[..|entries|] == entries;
      reply := Served(q.target, entries[at.value].1, q.epoch, tree.value.proofs[q.target], q.root);
    }
  }
}
