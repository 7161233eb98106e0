/** What every run of the Rewardz rail keeps. */
module RewardzTheorems {
  import opened Common
  import opened Bytes
  import opened Merkle
  import opened MerkleSoundness
  import opened Earnings
  import opened RewardzRail

  // ---------------------------------------------------------------- epochs

  /** Accepted epochs are 1, 2, 3, ... whatever reads were stale, whatever failed, landed late or
      crashed; no transaction in flight is ever more than one ahead of the chain; and every
      recorded epoch row is the root the chain took at that epoch. */
  lemma EpochsHaveNoHoles(p: Params, steps: seq<Step>)
    ensures var s := Run(p, steps);
      && ChainEpoch(s) == |s.landed|
      && (forall i :: 0 <= i < |s.landed| ==> s.landed[i].plan.epoch == i + 1)
      && (forall tx :: tx in s.inFlight ==> tx.plan.epoch <= ChainEpoch(s) + 1)
      && (forall e :: e in s.epochRows ==>
            1 <= e <= |s.landed|
            && s.epochRows[e].root == s.landed[e - 1].plan.root
            && s.epochRows[e].sig == s.landed[e - 1].sig
            && s.epochRows[e].total == s.landed[e - 1].plan.total)
  {
    RunKeepsInv(p, steps);
    var s := Run(p, steps);
    forall tx | tx in s.inFlight ensures tx.plan.epoch <= ChainEpoch(s) + 1 {
      assert TxOk(p, s, tx);
    }
    forall e | e in s.epochRows ensures EpochRowOk(s, e) {
    }
  }

  /** What the chain accepted, what the database recorded and which epoch a row was stamped with
      are never taken back by a longer run. */
  lemma {:induction false} RunGrows(p: Params, s: State, more: seq<Step>)
    ensures Grows(s, RunFrom(p, s, more))
  {
    if more == [] {
    } else {
      var init := more[..|more| - 1];
      RunGrows(p, s, init);
      NextGrows(p, RunFrom(p, s, init), more[|more| - 1]);
      GrowsTransitive(s, RunFrom(p, s, init), RunFrom(p, s, more));
    }
  }

  lemma GrowsTransitive(s: State, t: State, u: State)
    requires Grows(s, t) && Grows(t, u)
    ensures Grows(s, u)
  {
    forall i | |s.rows| <= i < |u.rows| ensures s.clock <= u.rows[i].createdAt {
      if i < |t.rows| {
        assert u.rows[i] == t.rows[i];
      }
    }
    forall i | 0 <= i < |s.landed| ensures u.landed[i] == s.landed[i] {
      assert t.landed[i] == s.landed[i];
    }
    forall i | 0 <= i < |s.rows| ensures u.rows[i] == s.rows[i] {
      assert t.rows[i] == s.rows[i];
    }
    forall i | 0 <= i < |s.denyLog| ensures u.denyLog[i] == s.denyLog[i] {
      assert t.denyLog[i] == s.denyLog[i];
    }
  }

  lemma {:induction false} RunSplits(p: Params, s: State, a: seq<Step>, b: seq<Step>)
    ensures RunFrom(p, s, a + b) == RunFrom(p, RunFrom(p, s, a), b)
    decreases |b|
  {
    if b == [] {
      assert a + b == a;
    } else {
      var n := |b| - 1;
      RunSplits(p, s, a, b[..n]);
      assert (a + b)[..|a + b| - 1] == a + b[..n] && (a + b)[|a + b| - 1] == b[n];
      assert RunFrom(p, s, a + b) == Next(p, RunFrom(p, s, a + b[..n]), b[n]);
    }
  }

  lemma RunOne(p: Params, s: State, step: Step)
    ensures RunFrom(p, s, [step]) == Next(p, s, step)
  {
    assert [step][..0] == [];
    assert RunFrom(p, s, []) == s;
  }

  lemma {:induction false} RunCons(p: Params, s: State, step: Step, rest: seq<Step>)
    ensures RunFrom(p, s, [step] + rest) == RunFrom(p, Next(p, s, step), rest)
  {
    RunSplits(p, s, [step], rest);
    RunOne(p, s, step);
  }

  lemma RunTwo(p: Params, s: State, a: Step, b: Step)
    ensures RunFrom(p, s, [a, b]) == Next(p, Next(p, s, a), b)
  {
    assert [a, b] == [a] + [b];
    RunCons(p, s, a, [b]);
    RunOne(p, Next(p, s, a), b);
  }

  /** The epoch a publish attempt is for. */
  function Target(phase: Phase): Option<nat> {
    match phase
    case Down => None
    case Idle => None
    case Ticked(e) => Some(e)
    case Cut(e, _) => Some(e)
    case Built(plan) => Some(plan.epoch)
    case Ready(plan, _) => Some(plan.epoch)
    case Waiting(tx) => Some(tx.plan.epoch)
    case Confirmed(tx) => Some(tx.plan.epoch)
  }

  /** An attempt always aims one above the last epoch this process read, and that is an epoch the
      chain held (or 0): a missing account is acted on only before any account was seen. */
  lemma {:induction false} AttemptFollowsLastRead(p: Params, steps: seq<Step>)
    ensures var s := Run(p, steps);
      && s.lastKnown <= |s.landed|
      && (Target(s.phase).Some? ==> Target(s.phase).value == s.lastKnown + 1)
  {
    if steps == [] {
    } else {
      var init, step := steps[..|steps| - 1], steps[|steps| - 1];
      AttemptFollowsLastRead(p, init);
      EpochsHaveNoHoles(p, init);
      StepFollowsLastRead(p, Run(p, init), step);
    }
  }

  lemma TickFollowsLastRead(s: State, read: ChainRead)
    requires s.lastKnown <= |s.landed|
    requires forall i :: 0 <= i < |s.landed| ==> s.landed[i].plan.epoch == i + 1
    requires Target(s.phase).Some? ==> Target(s.phase).value == s.lastKnown + 1
    ensures var t := TickStep(s, read);
      && t.lastKnown <= |t.landed|
      && (Target(t.phase).Some? ==> Target(t.phase).value == t.lastKnown + 1)
  {
  }

  /** Between ticks an attempt keeps its target or ends; a restart forgets the epoch. */
  lemma OtherStepsFollow(p: Params, s: State, step: Step)
    requires !step.Tick?
    ensures var t := Next(p, s, step);
      && |s.landed| <= |t.landed|
      && (t.lastKnown == s.lastKnown || (t.lastKnown == 0 && Target(t.phase).None?))
      && (Target(t.phase) == Target(s.phase) || Target(t.phase).None?)
  {
  }

  lemma StepFollowsLastRead(p: Params, s: State, step: Step)
    requires s.lastKnown <= |s.landed|
    requires forall i :: 0 <= i < |s.landed| ==> s.landed[i].plan.epoch == i + 1
    requires Target(s.phase).Some? ==> Target(s.phase).value == s.lastKnown + 1
    ensures var t := Next(p, s, step);
      && t.lastKnown <= |t.landed|
      && (Target(t.phase).Some? ==> Target(t.phase).value == t.lastKnown + 1)
  {
    if step.Tick? {
      TickFollowsLastRead(s, step.read);
    } else {
      OtherStepsFollow(p, s, step);
    }
  }

  /** The code calls that memory a high-water mark. It is the last value read: it falls exactly when
      a tick's read is staler than the one before. */
  lemma LastKnownFallsIff(p: Params, steps: seq<Step>, read: ChainRead)
    ensures var s := Run(p, steps);
      TickStep(s, read).lastKnown < s.lastKnown <==> s.phase.Idle? && read.ReadAt? && 0 < read.k < s.lastKnown
  {
    AttemptFollowsLastRead(p, steps);
    EpochsHaveNoHoles(p, steps);
  }

  // ---------------------------------------------------------------- totals and monotone leaves

  /** Every submitted total is the sum of the tree's leaves, within the cap, over keys that occur once. */
  lemma TotalsAreLeafSums(p: Params, steps: seq<Step>, tx: Tx)
    requires ValidParams(p)
    requires tx in Run(p, steps).inFlight || tx in Run(p, steps).landed
    ensures tx.plan.total == SumAmounts(tx.plan.entries) <= p.cap
    ensures DistinctKeys(tx.plan.entries)
    ensures tx.plan.root == RootOf(p.H, tx.plan.entries)
  {
    RunKeepsInv(p, steps);
    var s := Run(p, steps);
    assert TxOk(p, s, tx);
    EntriesDistinct(p, s.rows[..tx.plan.rowsRead]);
  }

  lemma NextReadsMore(p: Params, s: State, j: nat)
    requires ChainOk(p, s) && 1 <= j < |s.landed|
    ensures s.landed[j - 1].plan.rowsRead <= s.landed[j].plan.rowsRead
  {
    assert TxOk(p, s, s.landed[j]);
  }

  lemma {:induction false} RowsReadGrows(p: Params, s: State, i: nat, j: nat)
    requires ChainOk(p, s) && i <= j < |s.landed|
    ensures s.landed[i].plan.rowsRead <= s.landed[j].plan.rowsRead
    decreases j
  {
    if i == j {
    } else {
      RowsReadGrows(p, s, i, j - 1);
      NextReadsMore(p, s, j);
    }
  }

  predicate PaysNothingBack(steps: seq<Step>) {
    forall i :: 0 <= i < |steps| && steps[i].Insert? ==> steps[i].amount >= 0
  }

  lemma {:induction false} RowsNonNegative(p: Params, steps: seq<Step>)
    requires PaysNothingBack(steps)
    ensures NonNegative(Run(p, steps).rows)
  {
    if steps == [] {
    } else {
      RowsNonNegative(p, steps[..|steps| - 1]);
      RowsOnlyByInsert(p, Run(p, steps[..|steps| - 1]), steps[|steps| - 1]);
    }
  }

  lemma RowsOnlyByInsert(p: Params, s: State, step: Step)
    ensures var t := Next(p, s, step);
      t.rows == s.rows
      || (step.Insert? && t.rows == s.rows + [EarningRow(step.authority, step.amount, step.at)])
  {
  }

  /** With non-negative awards no leaf falls and no authority drops out between accepted epochs. */
  lemma LeavesNeverFall(p: Params, steps: seq<Step>, i: nat, j: nat, e: Entry)
    requires ValidParams(p) && PaysNothingBack(steps)
    requires i <= j < |Run(p, steps).landed|
    requires e in Run(p, steps).landed[i].plan.entries
    ensures exists later: U64 :: later >= e.1 && (e.0, later) in Run(p, steps).landed[j].plan.entries
  {
    RunKeepsInv(p, steps);
    RowsNonNegative(p, steps);
    var s := Run(p, steps);
    RowsReadGrows(p, s, i, j);
    assert TxOk(p, s, s.landed[i]) && TxOk(p, s, s.landed[j]);
    var m, n := s.landed[i].plan.rowsRead, s.landed[j].plan.rowsRead;
    assert s.rows[..n][..m] == s.rows[..m];
    EntriesGrow(p, s.rows[..n], m, e);
  }

  /** Once the ledger is refused, by overflow or by the cap, nothing in flight or accepted, then or
      ever after, includes the award that tipped it: the cap never reopens by itself. */
  lemma NothingPastTheCap(p: Params, steps: seq<Step>, n: nat, tx: Tx)
    requires ValidParams(p) && PaysNothingBack(steps)
    requires n <= |Run(p, steps).rows| && Blocked(p, Run(p, steps).rows[..n])
    requires tx in Run(p, steps).inFlight || tx in Run(p, steps).landed
    ensures tx.plan.rowsRead < n
  {
    RunKeepsInv(p, steps);
    RowsNonNegative(p, steps);
    var s := Run(p, steps);
    assert TxOk(p, s, tx);
    if n <= tx.plan.rowsRead {
      var read := s.rows[..tx.plan.rowsRead];
      assert read[..n] == s.rows[..n];
      BlockedForever(p, read, n);
    }
  }

  // ---------------------------------------------------------------- stamps

  /** Row `i` was counted in the tree accepted as epoch `f`. */
  ghost predicate Counted(p: Params, s: State, i: nat, f: nat) {
    && i < |s.rows|
    && 1 <= f <= |s.landed|
    && i < s.landed[f - 1].plan.rowsRead
    && Included(p, s.landed[f - 1].plan, s.rows[i].authority)
  }

  /** Being counted means exactly this: the tree holds a leaf for the row's authority, and the
      leaf's amount is a sum the row takes part in. */
  lemma CountedLeaf(p: Params, steps: seq<Step>, i: nat, f: nat) returns (key: Pubkey, amount: U64)
    requires ValidParams(p) && Counted(p, Run(p, steps), i, f)
    ensures var s := Run(p, steps); var plan := s.landed[f - 1].plan;
      && p.show(key) == s.rows[i].authority
      && (key, amount) in plan.entries
      && i < plan.rowsRead <= |s.rows|
      && amount == SumFor(s.rows[..plan.rowsRead], s.rows[i].authority)
  {
    RunKeepsInv(p, steps);
    var s := Run(p, steps);
    var plan := s.landed[f - 1].plan;
    assert TxOk(p, s, s.landed[f - 1]);
    var m :| 0 <= m < |plan.entries| && p.show(plan.entries[m].0) == s.rows[i].authority;
    key, amount := plan.entries[m].0, plan.entries[m].1;
    assert plan.entries[m] == (key, amount);
    EntryIff(p, s.rows[..plan.rowsRead], (key, amount));
  }

  /** A row stamped with an epoch was counted in that epoch's tree. */
  lemma StampsAreSound(p: Params, steps: seq<Step>, i: nat)
    requires i in Run(p, steps).stamps
    ensures Counted(p, Run(p, steps), i, Run(p, steps).stamps[i])
  {
    RunKeepsInv(p, steps);
    assert StampOk(p, Run(p, steps), i);
  }

  // -- is the stamp the first epoch that counted the row?

  ghost predicate SigsFresh(s: State) {
    && (forall tx :: tx in s.inFlight ==> tx.sig < s.nextSig)
    && (forall i :: 0 <= i < |s.landed| ==> s.landed[i].sig < s.nextSig)
  }

  /** While the publisher holds a transaction that has landed, the chain stands still at its epoch. */
  ghost predicate NothingNewer(s: State) {
    (s.phase.Waiting? || s.phase.Confirmed?) && s.phase.tx in s.landed ==>
      && s.phase.tx.plan.epoch == |s.landed|
      && (forall tx :: tx in s.inFlight ==> tx.plan.epoch <= |s.landed|)
  }

  ghost predicate BackfilledAt(p: Params, s: State, f: nat, i: nat) {
    && 1 <= f <= |s.landed| && i < |s.rows|
    && (Included(p, s.landed[f - 1].plan, s.rows[i].authority)
        && s.rows[i].createdAt <= s.landed[f - 1].plan.cutoff ==>
          i in s.stamps && s.stamps[i] <= f)
  }

  ghost predicate Backfilled(p: Params, s: State) {
    forall f, i :: f in s.epochRows && 0 <= i < |s.rows| ==> BackfilledAt(p, s, f, i)
  }

  ghost predicate StampInCutoff(s: State, i: nat) {
    && i in s.stamps && i < |s.rows| && 1 <= s.stamps[i] <= |s.landed|
    && s.rows[i].createdAt <= s.landed[s.stamps[i] - 1].plan.cutoff
  }

  ghost predicate StampsInCutoff(s: State) {
    forall i :: i in s.stamps ==> StampInCutoff(s, i)
  }

  lemma NextKeepsSigs(p: Params, s: State, step: Step)
    requires SigsFresh(s)
    ensures SigsFresh(Next(p, s, step))
  {
  }

  lemma NextKeepsNothingNewer(p: Params, s: State, step: Step)
    requires ChainOk(p, s) && PhaseOk(p, s) && SigsFresh(s) && NothingNewer(s)
    ensures NothingNewer(Next(p, s, step))
  {
    if step.Land? {
      LandKeepsNothingNewer(p, s, step.tx);
    } else if step.Submit? {
      SubmitKeepsNothingNewer(s);
    } else {
      ChainUntouched(p, s, step);
      HeldTransaction(p, s, step);
      NothingNewerStays(s, Next(p, s, step));
    }
  }

  lemma NothingNewerStays(s: State, t: State)
    requires NothingNewer(s) && t.landed == s.landed && t.inFlight <= s.inFlight
    requires t.phase.Waiting? || t.phase.Confirmed? ==>
      (s.phase.Waiting? || s.phase.Confirmed?) && t.phase.tx == s.phase.tx
    ensures NothingNewer(t)
  {
  }

  lemma SubmitKeepsNothingNewer(s: State)
    requires SigsFresh(s) && NothingNewer(s)
    ensures NothingNewer(SubmitStep(s))
  {
  }

  /** Only `Submit` makes the publisher hold a transaction it did not hold before. */
  lemma HeldTransaction(p: Params, s: State, step: Step)
    requires !step.Submit?
    ensures var t := Next(p, s, step);
      (t.phase.Waiting? || t.phase.Confirmed?) ==>
        (s.phase.Waiting? || s.phase.Confirmed?) && t.phase.tx == s.phase.tx
  {
  }

  lemma LandKeepsNothingNewer(p: Params, s: State, tx: Tx)
    requires ChainOk(p, s) && NothingNewer(s)
    ensures NothingNewer(LandTx(s, tx))
  {
    if tx in s.inFlight && tx.plan.epoch > ChainEpoch(s) {
      AcceptedIsNext(p, s, tx);
      forall other | other in s.inFlight ensures other.plan.epoch <= |s.landed| + 1 {
        assert TxOk(p, s, other);
      }
    }
  }

  lemma FreshStampInCutoff(p: Params, s: State, i: nat)
    requires ChainOk(p, s) && PhaseOk(p, s)
    requires i in RecordStep(p, s).stamps && i !in s.stamps
    ensures StampInCutoff(RecordStep(p, s), i)
  {
    FreshStamp(p, s, i);
    StampedNow(p, s, i);
    ConfirmedIsLanded(p, s);
    NowInCutoff(RecordStep(p, s), i, s.phase.tx.plan);
  }

  lemma NowInCutoff(t: State, i: nat, plan: Plan)
    requires i < |t.rows| && i in t.stamps && t.stamps[i] == plan.epoch
    requires 1 <= plan.epoch <= |t.landed| && t.landed[plan.epoch - 1].plan == plan
    requires t.rows[i].createdAt <= plan.cutoff
    ensures StampInCutoff(t, i)
  {
  }

  ghost predicate FreshInCutoff(s: State, t: State) {
    forall i :: i in t.stamps && i !in s.stamps ==> StampInCutoff(t, i)
  }

  lemma CutoffsGrow(s: State, t: State)
    requires StampsInCutoff(s) && Grows(s, t) && FreshInCutoff(s, t)
    ensures StampsInCutoff(t)
  {
    forall i | i in t.stamps ensures StampInCutoff(t, i) {
      if i in s.stamps {
        assert StampInCutoff(s, i);
      }
    }
  }

  lemma RecordKeepsCutoffs(p: Params, s: State)
    requires ChainOk(p, s) && PhaseOk(p, s) && StampsInCutoff(s)
    ensures StampsInCutoff(RecordStep(p, s))
  {
    RecordInCutoff(p, s);
    NextGrows(p, s, Record);
    CutoffsGrow(s, RecordStep(p, s));
  }

  lemma RecordInCutoff(p: Params, s: State)
    requires ChainOk(p, s) && PhaseOk(p, s)
    ensures FreshInCutoff(s, RecordStep(p, s))
  {
    forall i | i in RecordStep(p, s).stamps && i !in s.stamps ensures StampInCutoff(RecordStep(p, s), i) {
      FreshStampInCutoff(p, s, i);
    }
  }

  lemma RecordBackfills(p: Params, s: State)
    requires ChainOk(p, s) && PhaseOk(p, s) && StampsOk(p, s) && NothingNewer(s) && Backfilled(p, s)
    ensures Backfilled(p, RecordStep(p, s))
  {
    var t := RecordStep(p, s);
    if s.phase.Confirmed? {
      forall f, i | f in t.epochRows && 0 <= i < |t.rows| ensures BackfilledAt(p, t, f, i) {
        if f in s.epochRows {
          assert BackfilledAt(p, s, f, i);
        } else {
          RecordBackfillsRow(p, s, i);
        }
      }
    }
  }

  /** After the record step no row the confirmed publish covers is left without a stamp. */
  lemma RecordBackfillsRow(p: Params, s: State, i: nat)
    requires ChainOk(p, s) && PhaseOk(p, s) && StampsOk(p, s) && NothingNewer(s)
    requires s.phase.Confirmed? && i < |s.rows|
    ensures BackfilledAt(p, RecordStep(p, s), s.phase.tx.plan.epoch, i)
  {
    ConfirmedIsLanded(p, s);
    if i in s.stamps {
      assert StampOk(p, s, i);
    } else if Stampable(p, s, s.phase.tx.plan, i) {
      StampedNow(p, s, i);
    }
  }

  lemma BackfilledAtGrows(p: Params, s: State, t: State, f: nat, i: nat)
    requires ChainOk(p, s) && EpochRowOk(s, f) && i < |t.rows|
    requires i < |s.rows| ==> BackfilledAt(p, s, f, i)
    requires Grows(s, t) && t.stamps == s.stamps
    ensures BackfilledAt(p, t, f, i)
  {
    assert TxOk(p, s, s.landed[f - 1]);
    assert t.landed[f - 1] == s.landed[f - 1];
    if i < |s.rows| {
      assert t.rows[i] == s.rows[i];
    }
  }

  lemma BackfilledGrows(p: Params, s: State, t: State)
    requires ChainOk(p, s) && EpochRowsOk(s) && Backfilled(p, s) && StampsInCutoff(s)
    requires Grows(s, t) && t.stamps == s.stamps && t.epochRows == s.epochRows
    ensures Backfilled(p, t) && StampsInCutoff(t)
  {
    CutoffsGrow(s, t);
    forall f, i | f in t.epochRows && 0 <= i < |t.rows| ensures BackfilledAt(p, t, f, i) {
      assert i < |s.rows| ==> BackfilledAt(p, s, f, i);
      BackfilledAtGrows(p, s, t, f, i);
    }
  }

  lemma {:induction false} RunBackfills(p: Params, steps: seq<Step>)
    ensures var s := Run(p, steps); SigsFresh(s) && NothingNewer(s) && Backfilled(p, s) && StampsInCutoff(s)
  {
    if steps == [] {
    } else {
      var init, step := steps[..|steps| - 1], steps[|steps| - 1];
      var s := Run(p, init);
      RunBackfills(p, init);
      RunKeepsInv(p, init);
      NextKeepsSigs(p, s, step);
      NextKeepsNothingNewer(p, s, step);
      if step.Record? {
        RecordBackfills(p, s);
        RecordKeepsCutoffs(p, s);
      } else {
        NextGrows(p, s, step);
        DbUntouched(p, s, step);
        BackfilledGrows(p, s, Next(p, s, step));
      }
    }
  }

  lemma FirstIff(p: Params, s: State, i: nat, f: nat)
    requires StampOk(p, s, i) && StampInCutoff(s, i) && Counted(p, s, i, f)
    requires forall g :: 1 <= g < f ==> !Counted(p, s, i, g)
    requires f in s.epochRows ==> BackfilledAt(p, s, f, i)
    ensures s.stamps[i] == f <==> f in s.epochRows && s.rows[i].createdAt <= s.landed[f - 1].plan.cutoff
  {
    assert Counted(p, s, i, s.stamps[i]);
  }

  /** The column is documented as the first epoch that included the row. It is, exactly when the
      publish that first counted the row got recorded and had its cutoff after the row's insert. */
  lemma StampIsFirstIff(p: Params, steps: seq<Step>, i: nat, f: nat)
    requires i in Run(p, steps).stamps
    requires Counted(p, Run(p, steps), i, f)
    requires forall g :: 1 <= g < f ==> !Counted(p, Run(p, steps), i, g)
    ensures var s := Run(p, steps);
      s.stamps[i] == f <==> f in s.epochRows && s.rows[i].createdAt <= s.landed[f - 1].plan.cutoff
  {
    var s := Run(p, steps);
    RunStampFacts(p, steps, i, f);
    FirstIff(p, s, i, f);
  }

  lemma RunStampFacts(p: Params, steps: seq<Step>, i: nat, f: nat)
    requires i in Run(p, steps).stamps
    ensures StampOk(p, Run(p, steps), i) && StampInCutoff(Run(p, steps), i)
    ensures f in Run(p, steps).epochRows ==> BackfilledAt(p, Run(p, steps), f, i)
  {
    RunKeepsInv(p, steps);
    RunBackfills(p, steps);
    assert StampOk(p, Run(p, steps), i);
  }

  /** The tree has a leaf whose key prints as `authority`. */
  ghost predicate HasLeaf(p: Params, plan: Plan, authority: string) {
    exists j :: 0 <= j < |plan.entries| && p.show(plan.entries[j].0) == authority
  }

  lemma LeafIsIncluded(p: Params, plan: Plan, authority: string)
    ensures HasLeaf(p, plan, authority) <==> Included(p, plan, authority)
  {
  }

  /** Epoch `f` is recorded, its tree holds the row's authority and its cutoff covers the row. */
  ghost predicate Covers(p: Params, s: State, i: nat, f: nat) {
    && f in s.epochRows && 1 <= f <= |s.landed| && i < |s.rows|
    && HasLeaf(p, s.landed[f - 1].plan, s.rows[i].authority)
    && s.rows[i].createdAt <= s.landed[f - 1].plan.cutoff
  }

  ghost predicate LeastCovering(p: Params, s: State, i: nat, f: nat) {
    Covers(p, s, i, f) && forall g :: 1 <= g < f ==> !Covers(p, s, i, g)
  }

  lemma StampCovers(p: Params, steps: seq<Step>, i: nat)
    requires i in Run(p, steps).stamps
    ensures Covers(p, Run(p, steps), i, Run(p, steps).stamps[i])
  {
    var s := Run(p, steps);
    RunStampFacts(p, steps, i, s.stamps[i]);
    LeafIsIncluded(p, s.landed[s.stamps[i] - 1].plan, s.rows[i].authority);
  }

  lemma CoveredIsStamped(p: Params, steps: seq<Step>, i: nat, f: nat)
    requires Covers(p, Run(p, steps), i, f)
    ensures i in Run(p, steps).stamps && Run(p, steps).stamps[i] <= f
  {
    var s := Run(p, steps);
    RunBackfills(p, steps);
    assert BackfilledAt(p, s, f, i);
    LeafIsIncluded(p, s.landed[f - 1].plan, s.rows[i].authority);
  }

  /** Which rows are stamped, and with what: over every run a row's stamp is the least recorded epoch
      that covers it, and a row no recorded epoch covers has none. */
  lemma StampIsLeastCovering(p: Params, steps: seq<Step>, i: nat, f: nat)
    ensures var s := Run(p, steps);
      i in s.stamps && s.stamps[i] == f <==> LeastCovering(p, s, i, f)
  {
    var s := Run(p, steps);
    if i in s.stamps {
      StampCovers(p, steps, i);
    }
    if i in s.stamps && s.stamps[i] == f {
      forall g | 1 <= g < f ensures !Covers(p, s, i, g) {
        if Covers(p, s, i, g) {
          CoveredIsStamped(p, steps, i, g);
        }
      }
    }
    if LeastCovering(p, s, i, f) {
      CoveredIsStamped(p, steps, i, f);
      assert 1 <= s.stamps[i] <= f && Covers(p, s, i, s.stamps[i]);
    }
  }

  // -- a run where it is not

  /** The ledger of a single award reads as the single entry. */
  lemma OneAward(p: Params, name: string, key: Pubkey, at: nat)
    requires p.parse(name) == Some(key)
    ensures ReadEntries(p, [EarningRow(name, 5, at)]) == Ok([(key, 5)])
    ensures SumAmounts([(key, 5)]) == 5
  {
    var row := EarningRow(name, 5, at);
    var gs := [Group(name, 5)];
    var es: seq<Entry> := [(key, 5)];
    assert [row][..0] == [] && gs[..0] == [] && es[..0] == [];
    assert GroupRows(p.before, [row]) == AddRow(p.before, GroupRows(p.before, []), row) == gs;
    assert InBigint(gs[0]);
    assert ToEntries(p.parse, gs[..0]) == [];
    assert ToEntries(p.parse, gs) == es;
  }

  /** An attempt past its cutoff that goes well up to the confirmation. */
  function GoodTail(s: State, plan: Plan): seq<Step>
    requires s.denyLog != []
  {
    [ReadRows, ReadDenyList(0), Submit, Land(Tx(s.nextSig, plan, s.denyLog[0])), Confirm]
  }

  ghost predicate TailReady(p: Params, s: State, plan: Plan) {
    && s.phase == Cut(plan.epoch, plan.cutoff) && plan.epoch > ChainEpoch(s) && s.denyLog != []
    && ReadEntries(p, s.rows) == Ok(plan.entries) && plan.rowsRead == |s.rows|
    && plan.root == RootOf(p.H, plan.entries) && plan.total == SumAmounts(plan.entries) <= p.cap
  }

  function AfterTail(s: State, plan: Plan): State
    requires s.denyLog != []
  {
    var tx := Tx(s.nextSig, plan, s.denyLog[0]);
    s.(
      inFlight := s.inFlight + {tx} - {tx},
      landed := s.landed + [tx],
      denyLog := s.denyLog + [s.denyLog[0]],
      nextSig := s.nextSig + 1,
      phase := Confirmed(tx))
  }

  lemma TailToSubmit(p: Params, s: State, plan: Plan)
    requires TailReady(p, s, plan)
    ensures RunFrom(p, s, [ReadRows, ReadDenyList(0)]) == s.(phase := Ready(plan, s.denyLog[0]))
  {
    RunTwo(p, s, ReadRows, ReadDenyList(0));
    assert Next(p, s, ReadRows) == s.(phase := Built(plan));
  }

  lemma TailToEnd(p: Params, s: State, plan: Plan)
    requires s.denyLog != [] && s.phase == Ready(plan, s.denyLog[0]) && plan.epoch > ChainEpoch(s)
    ensures var tx := Tx(s.nextSig, plan, s.denyLog[0]);
      RunFrom(p, s, [Submit] + [Land(tx), Confirm]) == AfterTail(s, plan)
  {
    var tx := Tx(s.nextSig, plan, s.denyLog[0]);
    RunCons(p, s, Submit, [Land(tx), Confirm]);
    var t := s.(phase := Waiting(tx), inFlight := s.inFlight + {tx}, nextSig := s.nextSig + 1);
    assert Next(p, s, Submit) == t;
    RunTwo(p, t, Land(tx), Confirm);
    assert Next(p, t, Land(tx)).landed[|s.landed|] == tx;
  }

  lemma GoodTailRuns(p: Params, s: State, plan: Plan)
    requires TailReady(p, s, plan)
    ensures RunFrom(p, s, GoodTail(s, plan)) == AfterTail(s, plan)
  {
    var tx := Tx(s.nextSig, plan, s.denyLog[0]);
    var a, b := [ReadRows, ReadDenyList(0)], [Submit] + [Land(tx), Confirm];
    assert GoodTail(s, plan) == a + b;
    RunSplits(p, s, a, b);
    TailToSubmit(p, s, plan);
    TailToEnd(p, s.(phase := Ready(plan, s.denyLog[0])), plan);
  }

  /** A tick on a fresh read, an insert after the cutoff if `late`, and a tail that goes well. */
  function Attempt(late: seq<Step>, k: nat, s: State, plan: Plan): seq<Step>
    requires s.denyLog != []
  {
    [Tick(ReadAt(k)), CaptureCutoff] + late + GoodTail(s, plan) + [Record]
  }

  lemma AttemptRuns(p: Params, s: State, late: seq<Step>, k: nat, cut: State, plan: Plan)
    requires RunFrom(p, Next(p, Next(p, s, Tick(ReadAt(k))), CaptureCutoff), late) == cut
    requires TailReady(p, cut, plan)
    ensures RunFrom(p, s, Attempt(late, k, cut, plan)) == RecordStep(p, AfterTail(cut, plan))
  {
    var head := [Tick(ReadAt(k)), CaptureCutoff];
    RunTwo(p, s, Tick(ReadAt(k)), CaptureCutoff);
    RunSplits(p, s, head, late);
    RunSplits(p, s, head + late, GoodTail(cut, plan));
    RunSplits(p, s, head + late + GoodTail(cut, plan), [Record]);
    GoodTailRuns(p, cut, plan);
    RunOne(p, AfterTail(cut, plan), Record);
  }

  function LatePlan(p: Params, key: Pubkey, epoch: nat): Plan
    requires epoch > 0
  {
    Plan(epoch, epoch - 1, 1, [(key, 5)], RootOf(p.H, [(key, 5)]), 5)
  }

  /** The award inserted between the cutoff and the read is in the first tree, and the record step
      leaves it unstamped. */
  lemma LateInsert(p: Params, name: string, key: Pubkey) returns (steps: seq<Step>)
    requires p.parse(name) == Some(key) && p.cap >= 5
    ensures var s := Run(p, steps);
      && s.phase.Idle? && s.rows == [EarningRow(name, 5, 1)] && s.clock == 1 && s.denyLog != []
      && s.stamps == map[] && |s.landed| == 1 && s.landed[0].plan == LatePlan(p, key, 1)
  {
    OneAward(p, name, key, 1);
    var late := Insert(name, 5, 1);
    var cut := INITIAL.(rows := [EarningRow(name, 5, 1)], clock := 1, phase := Cut(1, 0));
    var plan := LatePlan(p, key, 1);
    RunOne(p, INITIAL.(clock := 1, phase := Cut(1, 0)), late);
    assert Next(p, Next(p, INITIAL, Tick(ReadAt(0))), CaptureCutoff) == INITIAL.(clock := 1, phase := Cut(1, 0));
    AttemptRuns(p, INITIAL, [late], 0, cut, plan);
    steps := Attempt([late], 0, cut, plan);
    var t := AfterTail(cut, plan);
    assert t.rows[0].createdAt > plan.cutoff;
    forall i: nat ensures !Stampable(p, t, plan, i) {
    }
    assert RecordStep(p, t).stamps == map[];
  }

  /** A concrete run in which the stamp is not the first epoch that counted the row. */
  lemma StampCanBeLate(p: Params, name: string, key: Pubkey) returns (steps: seq<Step>)
    requires ValidParams(p) && p.parse(name) == Some(key) && p.cap >= 5
    ensures var s := Run(p, steps);
      && Counted(p, s, 0, 1)
      && 0 in s.stamps && s.stamps[0] == 2
  {
    OneAward(p, name, key, 1);
    var before := LateInsert(p, name, key);
    var s := Run(p, before);
    var cut := s.(lastKnown := 1, clock := 2, phase := Cut(2, 1));
    var plan := LatePlan(p, key, 2);
    assert RunFrom(p, cut, []) == cut;
    assert Next(p, Next(p, s, Tick(ReadAt(1))), CaptureCutoff) == cut;
    AttemptRuns(p, s, [], 1, cut, plan);
    steps := before + Attempt([], 1, cut, plan);
    RunSplits(p, INITIAL, before, Attempt([], 1, cut, plan));
    var t := AfterTail(cut, plan);
    assert p.show(plan.entries[0].0) == name;
    assert Stampable(p, t, plan, 0);
    StampedNow(p, t, 0);
    assert t.landed[0] == s.landed[0];
    assert Included(p, t.landed[0].plan, name) by {
      assert p.show(t.landed[0].plan.entries[0].0) == name;
    }
  }

  // -- runs in which the remembered epoch falls

  /** A tick on a fresh read that goes well over an empty ledger adds one epoch. */
  lemma EmptyAttempt(p: Params, s: State) returns (steps: seq<Step>)
    requires s.phase.Idle? && s.rows == [] && s.denyLog != []
    requires forall i :: 0 <= i < |s.landed| ==> s.landed[i].plan.epoch == i + 1
    requires s.landed == [] ==> s.lastKnown == 0
    ensures var t := RunFrom(p, s, steps);
      t.phase.Idle? && t.rows == [] && t.denyLog != [] && |t.landed| == |s.landed| + 1
  {
    var k := |s.landed|;
    var cut := s.(lastKnown := k, clock := s.clock + 1, phase := Cut(k + 1, s.clock));
    var plan := Plan(k + 1, s.clock, 0, [], RootOf(p.H, []), 0);
    EmptyReads(p);
    assert RunFrom(p, cut, []) == cut;
    assert Next(p, Next(p, s, Tick(ReadAt(k))), CaptureCutoff) == cut;
    AttemptRuns(p, s, [], k, cut, plan);
    steps := Attempt([], k, cut, plan);
  }

  lemma EmptyReads(p: Params)
    ensures ReadEntries(p, []) == Ok([]) && SumAmounts([]) == 0
  {
  }

  lemma {:induction false} EmptyEpochs(p: Params, n: nat) returns (steps: seq<Step>)
    ensures var s := Run(p, steps); s.phase.Idle? && s.rows == [] && s.denyLog != [] && |s.landed| == n
  {
    if n == 0 {
      steps := [];
    } else {
      var before := EmptyEpochs(p, n - 1);
      EpochsHaveNoHoles(p, before);
      AttemptFollowsLastRead(p, before);
      var more := EmptyAttempt(p, Run(p, before));
      steps := before + more;
      RunSplits(p, INITIAL, before, more);
    }
  }

  /** Every fall happens in some run: from any remembered epoch to any lower one above 0. */
  lemma LastKnownCanFall(p: Params, n: nat, k: nat) returns (steps: seq<Step>)
    requires 0 < k < n
    ensures var s := Run(p, steps); s.lastKnown == n && Next(p, s, Tick(ReadAt(k))).lastKnown == k
  {
    var before := EmptyEpochs(p, n);
    EpochsHaveNoHoles(p, before);
    var s := Run(p, before);
    var more := [Tick(ReadAt(n)), GiveUp];
    steps := before + more;
    RunSplits(p, INITIAL, before, more);
    RunTwo(p, s, Tick(ReadAt(n)), GiveUp);
  }

  // ---------------------------------------------------------------- the endpoint

  /** A served proof verifies against the chain root the request read, and its leaf was in the
      publish that set that root; failing that, the proof itself yields a collision, or, when that
      publish held nothing, a preimage of 32 zero bytes. */
  lemma ServedProofsAreClaims(p: Params, steps: seq<Step>, r: Reply)
    requires r in Run(p, steps).replies && r.Served?
    ensures 1 <= r.epoch <= |Run(p, steps).landed|
    ensures r.root == Run(p, steps).landed[r.epoch - 1].plan.root
    ensures Fold(p.H, HashLeaf(p.H, (r.target, r.amount)), r.proof) == r.root
    ensures Justified(p.H, Run(p, steps).landed[r.epoch - 1].plan.entries, (r.target, r.amount), r.proof)
  {
    RunRepliesOk(p, steps);
    assert ReplyOk(p, Run(p, steps), r);
  }

  lemma RunRepliesOk(p: Params, steps: seq<Step>)
    ensures RepliesOk(p, Run(p, steps))
  {
    RunKeepsInv(p, steps);
  }

  /** When the endpoint's rebuilt root matches a published one, the two trees hold the same entries,
      or the two entry lists yield a collision. */
  lemma MatchingRootMeansSameLedger(p: Params, steps: seq<Step>, e: nat, rows: seq<EarningRow>)
    requires 1 <= e <= |Run(p, steps).landed|
    requires ReadEntries(p, rows).Ok? && ReadEntries(p, rows).value != []
    requires Run(p, steps).landed[e - 1].plan.entries != []
    requires Root(p.H, ReadEntries(p, rows).value) == Run(p, steps).landed[e - 1].plan.root
    ensures var published := Run(p, steps).landed[e - 1].plan.entries; var rebuilt := ReadEntries(p, rows).value;
      SameEntries(rebuilt, published) || IsCollision(p.H, Distinguish(p.H, rebuilt, published))
  {
    RunKeepsInv(p, steps);
    var s := Run(p, steps);
    assert TxOk(p, s, s.landed[e - 1]);
    RootBinding(p.H, ReadEntries(p, rows).value, s.landed[e - 1].plan.entries);
  }

  /** What may lie behind two different entry lists that answer for one root. */
  ghost predicate Forged(H: Hasher, rebuilt: seq<Entry>, published: seq<Entry>) {
    published != []
    && (if rebuilt == [] then H(RootPreimage(H, published)) == ZERO_DIGEST
        else IsCollision(H, Distinguish(H, rebuilt, published)))
  }

  lemma AbsentKey(H: Hasher, rebuilt: seq<Entry>, published: seq<Entry>, key: Pubkey)
    requires RootOf(H, rebuilt) == RootOf(H, published) && LastIndex(rebuilt, key).None?
    ensures (forall e :: e in published ==> e.0 != key) || Forged(H, rebuilt, published)
  {
    if published != [] {
      if rebuilt == [] {
        RootHashesItsPreimage(H, published);
      } else {
        RootBinding(H, rebuilt, published);
        assert forall e :: e in rebuilt ==> e.0 != key;
      }
    }
  }

  lemma NotFoundMeans(p: Params, q: Pending, rows: seq<EarningRow>)
    requires ReplyTo(p, q, rows) == Refused(NotFound)
    ensures ReadEntries(p, rows).Ok? && RootOf(p.H, ReadEntries(p, rows).value) == q.root
    ensures LastIndex(ReadEntries(p, rows).value, q.target).None?
  {
  }

  lemma AbsentOrForged(p: Params, s: State, q: Pending, rows: seq<EarningRow>)
    requires 1 <= q.epoch <= |s.landed| && q.root == s.landed[q.epoch - 1].plan.root
    requires var plan := s.landed[q.epoch - 1].plan; plan.root == RootOf(p.H, plan.entries)
    requires ReplyTo(p, q, rows) == Refused(NotFound)
    ensures ReadEntries(p, rows).Ok?
    ensures var published := s.landed[q.epoch - 1].plan.entries;
      (forall e :: e in published ==> e.0 != q.target) || Forged(p.H, ReadEntries(p, rows).value, published)
  {
    NotFoundMeans(p, q, rows);
    AbsentKey(p.H, ReadEntries(p, rows).value, s.landed[q.epoch - 1].plan.entries, q.target);
  }

  lemma RunPublishedRoot(p: Params, steps: seq<Step>, e: nat)
    requires 1 <= e <= |Run(p, steps).landed|
    ensures var plan := Run(p, steps).landed[e - 1].plan; plan.root == RootOf(p.H, plan.entries)
  {
    RunKeepsInv(p, steps);
    PublishedRoot(p, Run(p, steps), e);
  }

  /** A 404 is truthful: the authority has no leaf in the publish whose root the request read; failing
      that, the rebuilt and the published entries yield a collision, or the published tree a
      preimage of 32 zero bytes. */
  lemma NotFoundIsTruthful(p: Params, steps: seq<Step>, q: Pending, rows: seq<EarningRow>)
    requires 1 <= q.epoch <= |Run(p, steps).landed| && q.root == Run(p, steps).landed[q.epoch - 1].plan.root
    requires ReplyTo(p, q, rows) == Refused(NotFound)
    ensures ReadEntries(p, rows).Ok?
    ensures var published := Run(p, steps).landed[q.epoch - 1].plan.entries;
      (forall e :: e in published ==> e.0 != q.target) || Forged(p.H, ReadEntries(p, rows).value, published)
  {
    RunPublishedRoot(p, steps, q.epoch);
    AbsentOrForged(p, Run(p, steps), q, rows);
  }

  /** Conversely, while the ledger still holds the awards the publish read, in whatever order, every
      authority of the tree is served its leaf. */
  lemma UnchangedLedgerServes(p: Params, steps: seq<Step>, e: nat, rows: seq<EarningRow>, entry: Entry)
    requires ValidParams(p) && 1 <= e <= |Run(p, steps).landed|
    requires var s := Run(p, steps); var n := s.landed[e - 1].plan.rowsRead;
      n <= |s.rows| && multiset(Facts(rows)) == multiset(Facts(s.rows[..n]))
    requires entry in Run(p, steps).landed[e - 1].plan.entries
    ensures var plan := Run(p, steps).landed[e - 1].plan;
      var r := ReplyTo(p, Pending(entry.0, plan.root, e), rows);
      r.Served? && r.target == entry.0 && r.amount == entry.1
  {
    RunKeepsInv(p, steps);
    var s := Run(p, steps);
    var plan := s.landed[e - 1].plan;
    assert TxOk(p, s, s.landed[e - 1]);
    var read := s.rows[..plan.rowsRead];
    ReproducibleEntries(p, rows, read);
    EntriesDistinct(p, read);
    var m :| 0 <= m < |plan.entries| && plan.entries[m] == entry;
    var at := LastIndex(plan.entries, entry.0);
    assert at.Some? && at.value == m;
  }

  // ---------------------------------------------------------------- the deny list

  /** The list the account holds now. */
  function DenyList(s: State): seq<Pubkey> {
    if s.denyLog == [] then [] else s.denyLog[|s.denyLog| - 1]
  }

  predicate OneAttempt(steps: seq<Step>) {
    forall i :: 0 <= i < |steps| ==> !steps[i].Tick?
  }

  predicate NoEdit(steps: seq<Step>) {
    forall i :: 0 <= i < |steps| ==> !steps[i].EditDenyList?
  }

  /** The phase still belongs to the attempt that has planned `plan` and read `list`. */
  predicate Holds(phase: Phase, plan: Plan, list: seq<Pubkey>) {
    match phase
    case Down => true
    case Idle => true
    case Ready(q, l) => q == plan && l == list
    case Waiting(tx) => tx.plan == plan && tx.denyList == list
    case Confirmed(tx) => tx.plan == plan && tx.denyList == list
    case _ => false
  }

  lemma {:induction false} AttemptHolds(p: Params, s: State, mid: seq<Step>, plan: Plan, list: seq<Pubkey>)
    requires Holds(s.phase, plan, list) && OneAttempt(mid)
    ensures Holds(RunFrom(p, s, mid).phase, plan, list)
  {
    if mid == [] {
    } else {
      AttemptHolds(p, s, mid[..|mid| - 1], plan, list);
      StepHolds(p, RunFrom(p, s, mid[..|mid| - 1]), mid[|mid| - 1], plan, list);
    }
  }

  lemma StepHolds(p: Params, s: State, step: Step, plan: Plan, list: seq<Pubkey>)
    requires Holds(s.phase, plan, list) && !step.Tick?
    ensures Holds(Next(p, s, step).phase, plan, list)
  {
  }

  /** The last list the steps set, or the one given. */
  function LastList(steps: seq<Step>, list: seq<Pubkey>): seq<Pubkey> {
    if steps == [] then list
    else
      var last := steps[|steps| - 1];
      if last.EditDenyList? then last.list else LastList(steps[..|steps| - 1], list)
  }

  /** What the ops edits among the steps make of the account's list; without an account there is
      nothing to edit. */
  function Edited(s: State, steps: seq<Step>): seq<Pubkey> {
    if s.landed == [] then DenyList(s) else LastList(steps, DenyList(s))
  }

  /** As long as nothing lands, the account's list is what the edits make of it. */
  lemma {:induction false} ListByEdits(p: Params, s: State, steps: seq<Step>)
    ensures var t := RunFrom(p, s, steps);
      |s.landed| <= |t.landed| && (|s.landed| == |t.landed| ==> DenyList(t) == Edited(s, steps))
  {
    if steps == [] {
    } else {
      ListByEdits(p, s, steps[..|steps| - 1]);
      StepListByEdits(p, RunFrom(p, s, steps[..|steps| - 1]), steps[|steps| - 1]);
    }
  }

  lemma StepListByEdits(p: Params, s: State, step: Step)
    ensures var t := Next(p, s, step);
      && |s.landed| <= |t.landed|
      && (|s.landed| == |t.landed| ==>
            DenyList(t) == if step.EditDenyList? && s.landed != [] then step.list else DenyList(s))
  {
  }

  lemma {:induction false} NoEditNoChange(steps: seq<Step>, list: seq<Pubkey>)
    requires NoEdit(steps)
    ensures LastList(steps, list) == list
  {
    if steps == [] {
    } else {
      NoEditNoChange(steps[..|steps| - 1], list);
    }
  }

  /** Where an attempt that reads version `k` of the deny list stands after `mid`. */
  function Attempted(p: Params, before: seq<Step>, k: nat, mid: seq<Step>): State {
    RunFrom(p, Next(p, Run(p, before), ReadDenyList(k)), mid)
  }

  lemma WaitingHolds(p: Params, before: seq<Step>, k: nat, mid: seq<Step>)
    requires Run(p, before).phase.Built? && k < |Run(p, before).denyLog|
    requires OneAttempt(mid) && Attempted(p, before, k, mid).phase.Waiting?
    ensures var tx := Attempted(p, before, k, mid).phase.tx;
      tx.plan == Run(p, before).phase.plan && tx.denyList == Run(p, before).denyLog[k]
  {
    var s := Run(p, before);
    AttemptHolds(p, Next(p, s, ReadDenyList(k)), mid, s.phase.plan, s.denyLog[k]);
  }

  lemma LandSetsList(p: Params, t: State, tx: Tx)
    requires tx in t.inFlight && tx.plan.epoch > ChainEpoch(t)
    ensures DenyList(Next(p, t, Land(tx))) == tx.denyList
  {
  }

  lemma AttemptedIsRun(p: Params, before: seq<Step>, k: nat, mid: seq<Step>, more: seq<Step>)
    ensures RunFrom(p, Attempted(p, before, k, mid), more) == Run(p, before + [ReadDenyList(k)] + mid + more)
  {
    RunOne(p, Run(p, before), ReadDenyList(k));
    RunSplits(p, INITIAL, before, [ReadDenyList(k)]);
    RunSplits(p, INITIAL, before + [ReadDenyList(k)], mid);
    RunSplits(p, INITIAL, before + [ReadDenyList(k)] + mid, more);
  }

  /** Nothing lands between an attempt's read and the acceptance of its publish. */
  lemma NothingLandsBetween(p: Params, before: seq<Step>, k: nat, mid: seq<Step>, more: seq<Step>)
    requires Run(p, before).phase.Built?
    requires Run(p, before).phase.plan.epoch > ChainEpoch(RunFrom(p, Attempted(p, before, k, mid), more))
    ensures |RunFrom(p, Attempted(p, before, k, mid), more).landed| <= |Run(p, before).landed|
  {
    AttemptedIsRun(p, before, k, mid, more);
    EpochsHaveNoHoles(p, before + [ReadDenyList(k)] + mid + more);
    PlannedEpoch(p, before);
  }

  lemma PlannedEpoch(p: Params, steps: seq<Step>)
    requires Run(p, steps).phase.Built?
    ensures Run(p, steps).phase.plan.epoch <= |Run(p, steps).landed| + 1
  {
    RunKeepsInv(p, steps);
  }

  /** The attempt reads version `k`, submits after `mid`, and after `more` its publish is still in
      flight and about to be accepted. */
  ghost predicate AboutToLand(p: Params, before: seq<Step>, k: nat, mid: seq<Step>, more: seq<Step>) {
    && Run(p, before).phase.Built? && k < |Run(p, before).denyLog|
    && OneAttempt(mid) && Attempted(p, before, k, mid).phase.Waiting?
    && var tx := Attempted(p, before, k, mid).phase.tx;
       var t := RunFrom(p, Attempted(p, before, k, mid), more);
       tx in t.inFlight && tx.plan.epoch > ChainEpoch(t)
  }

  lemma ListWhileNothingLands(p: Params, s: State, k: nat, mid: seq<Step>, more: seq<Step>)
    requires |RunFrom(p, RunFrom(p, Next(p, s, ReadDenyList(k)), mid), more).landed| <= |s.landed|
    ensures DenyList(RunFrom(p, RunFrom(p, Next(p, s, ReadDenyList(k)), mid), more)) == Edited(s, mid + more)
  {
    var read := Next(p, s, ReadDenyList(k));
    RunSplits(p, read, mid, more);
    ListByEdits(p, read, mid + more);
    assert read.landed == s.landed && read.denyLog == s.denyLog;
  }

  /** The account's list when the publish arrives: what it was at the read, as edited since. */
  lemma ListOnArrival(p: Params, before: seq<Step>, k: nat, mid: seq<Step>, more: seq<Step>)
    requires AboutToLand(p, before, k, mid, more)
    ensures DenyList(RunFrom(p, Attempted(p, before, k, mid), more)) == Edited(Run(p, before), mid + more)
  {
    WaitingHolds(p, before, k, mid);
    NothingLandsBetween(p, before, k, mid, more);
    ListWhileNothingLands(p, Run(p, before), k, mid, more);
  }

  /** An accepted publish sets the deny list its attempt read, however late it lands and whatever else
      was in flight. The account's list stays what it was exactly when the list read is the one the
      edits since have made of the account's. */
  lemma DenyListKeptIff(p: Params, before: seq<Step>, k: nat, mid: seq<Step>, more: seq<Step>)
    requires AboutToLand(p, before, k, mid, more)
    ensures var s := Run(p, before);
      var t := RunFrom(p, Attempted(p, before, k, mid), more);
      var u := Next(p, t, Land(Attempted(p, before, k, mid).phase.tx));
      && DenyList(u) == s.denyLog[k]
      && (DenyList(u) == DenyList(t) <==> s.denyLog[k] == Edited(s, mid + more))
  {
    var w := Attempted(p, before, k, mid);
    WaitingHolds(p, before, k, mid);
    LandSetsList(p, RunFrom(p, w, more), w.phase.tx);
    ListOnArrival(p, before, k, mid, more);
  }

  /** In particular it does when the latest list was read and nobody edits it in between. */
  lemma DenyListIsEchoed(p: Params, before: seq<Step>, k: nat, mid: seq<Step>, more: seq<Step>)
    requires AboutToLand(p, before, k, mid, more)
    ensures var s := Run(p, before);
      var t := RunFrom(p, Attempted(p, before, k, mid), more);
      && DenyList(Next(p, t, Land(Attempted(p, before, k, mid).phase.tx))) == s.denyLog[k]
      && (k == |s.denyLog| - 1 && NoEdit(mid) && NoEdit(more) ==> DenyList(t) == s.denyLog[k])
  {
    DenyListKeptIff(p, before, k, mid, more);
    if NoEdit(mid) && NoEdit(more) {
      NoEditNoChange(mid + more, DenyList(Run(p, before)));
    }
  }

  /** An attempt over an empty ledger up to its read of the account's list. */
  lemma EmptyToReady(p: Params, s: State) returns (steps: seq<Step>)
    requires s.phase.Idle? && s.rows == [] && s.denyLog != []
    requires |s.landed| == 1 && s.landed[0].plan.epoch == 1
    ensures var plan := Plan(2, s.clock, 0, [], RootOf(p.H, []), 0);
      RunFrom(p, s, steps) == s.(lastKnown := 1, clock := s.clock + 1, phase := Ready(plan, DenyList(s)))
  {
    var last := |s.denyLog| - 1;
    var cut := s.(lastKnown := 1, clock := s.clock + 1, phase := Cut(2, s.clock));
    EmptyReads(p);
    RunTwo(p, s, Tick(ReadAt(1)), CaptureCutoff);
    RunTwo(p, cut, ReadRows, ReadDenyList(last));
    steps := [Tick(ReadAt(1)), CaptureCutoff] + [ReadRows, ReadDenyList(last)];
    RunSplits(p, s, [Tick(ReadAt(1)), CaptureCutoff], [ReadRows, ReadDenyList(last)]);
  }

  lemma EditThenLand(p: Params, s: State, edit: seq<Pubkey>)
    requires s.phase.Ready? && s.landed != [] && s.phase.plan.epoch > ChainEpoch(s)
    ensures var t := RunFrom(p, s, [EditDenyList(edit), Submit]);
      var tx := Tx(s.nextSig, s.phase.plan, s.phase.denyList);
      DenyList(t) == edit && DenyList(Next(p, t, Land(tx))) == s.phase.denyList
  {
    RunTwo(p, s, EditDenyList(edit), Submit);
    assert ChainEpoch(SubmitStep(s.(denyLog := s.denyLog + [edit]))) == ChainEpoch(s);
  }

  /** An edit that comes between the read and the landing is lost: a concrete run. */
  lemma DenyEditCanBeLost(p: Params, key: Pubkey) returns (steps: seq<Step>, tx: Tx)
    ensures var t := Run(p, steps);
      DenyList(t) == DenyList(Next(p, t, Land(tx))) + [key]
  {
    var before := EmptyEpochs(p, 1);
    EpochsHaveNoHoles(p, before);
    var more := EmptyToReady(p, Run(p, before));
    RunSplits(p, INITIAL, before, more);
    var s := Run(p, before + more);
    var edit := [EditDenyList(s.phase.denyList + [key]), Submit];
    EditThenLand(p, s, s.phase.denyList + [key]);
    RunSplits(p, INITIAL, before + more, edit);
    steps, tx := before + more + edit, Tx(s.nextSig, s.phase.plan, s.phase.denyList);
  }
}
