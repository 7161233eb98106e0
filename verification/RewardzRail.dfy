/** The Rewardz settlement rail as one step machine: the publisher's cron, the earnings ledger, the
    on-chain root account and the proof endpoint, interleaved in every possible way.

    A run is any list of steps. A step that is not enabled changes nothing, so every list of labels
    is a run and the labels alone carry what the environment chose: which version of the chain a
    read saw, whether it failed, when a transaction landed, when the process died. */
module RewardzRail {
  import opened Common
  import opened Bytes
  import opened Merkle
  import opened MerkleSoundness
  import opened Earnings

  // ---------------------------------------------------------------- state

  /** Everything one publish attempt computed from the database. */
  datatype Plan = Plan(
    epoch: nat,
    cutoff: nat,
    rowsRead: nat,
    entries: seq<Entry>,
    root: Digest,
    total: nat)

  /** A signed `set_rewardz_root` transaction. */
  datatype Tx = Tx(sig: nat, plan: Plan, denyList: seq<Pubkey>)

  /** Where the publisher task is within a tick. */
  datatype Phase =
    | Down
    | Idle
    | Ticked(epoch: nat)
    | Cut(epoch: nat, cutoff: nat)
    | Built(plan: Plan)
    | Ready(plan: Plan, denyList: seq<Pubkey>)
    | Waiting(tx: Tx)
    | Confirmed(tx: Tx)

  /** A row of `rewardz_root_epochs`. */
  datatype EpochRow = EpochRow(root: Digest, sig: nat, total: nat)

  /** A proof request that has read the chain and not yet the database. */
  datatype Pending = Pending(target: Pubkey, root: Digest, epoch: nat)

  datatype Status = BadRequest | NotFound | Internal | Unavailable

  datatype Reply =
    | Refused(status: Status)
    | Served(target: Pubkey, amount: U64, epoch: nat, proof: seq<Digest>, root: Digest)

  datatype State = State(
    rows: seq<EarningRow>,
    clock: nat,
    stamps: map<nat, nat>,          // row number -> included_in_root_epoch
    epochRows: map<nat, EpochRow>,
    landed: seq<Tx>,                // accepted by the chain, in order
    inFlight: set<Tx>,
    denyLog: seq<seq<Pubkey>>,      // every deny list the account held; the first stands for "no account"
    nextSig: nat,
    phase: Phase,
    lastKnown: nat,
    requests: seq<Pending>,
    replies: seq<Reply>)

  const INITIAL := State([], 0, map[], map[], [], {}, [[]], 0, Idle, 0, [], [])

  /** A chain read fails, or sees the account as it was after its first `k` accepted roots;
      `k == 0` is a missing account. Any `k` not above the present is possible: reads may be stale. */
  datatype ChainRead = ReadError | ReadAt(k: nat)

  datatype Step =
    | Tick(read: ChainRead)
    | CaptureCutoff
    | ReadRows
    | ReadDenyList(k: nat)
    | Submit
    | GiveUp                        // an error return, or the dry-run exit
    | Confirm
    | Record
    | Crash
    | Restart
    | Insert(authority: string, amount: int, at: nat)
    | Land(tx: Tx)
    | Expire(tx: Tx)
    | EditDenyList(list: seq<Pubkey>)
    | Ask(target: string, read: ChainRead)
    | Answer(i: nat, dbOk: bool)

  // ---------------------------------------------------------------- the chain

  function ChainEpoch(s: State): nat {
    if s.landed == [] then 0 else s.landed[|s.landed| - 1].plan.epoch
  }

  /** All that is assumed of the program: it rejects an epoch not above the current one. */
  function LandTx(s: State, tx: Tx): State {
    if tx !in s.inFlight then s
    else if tx.plan.epoch <= ChainEpoch(s) then s.(inFlight := s.inFlight - {tx})
    else s.(
      inFlight := s.inFlight - {tx},
      landed := s.landed + [tx],
      denyLog := s.denyLog + [tx.denyList])
  }

  // ---------------------------------------------------------------- the publisher

  function TickStep(s: State, read: ChainRead): State {
    if !s.phase.Idle? then s
    else match read
      case ReadError => s
      case ReadAt(k) =>
        if k > |s.landed| then s
        else if k == 0 then
          if s.lastKnown > 0 then s else s.(phase := Ticked(1))
        else
          var e := s.landed[k - 1].plan.epoch;
          s.(lastKnown := e, phase := Ticked(e + 1))
  }

  function CutoffStep(s: State): State {
    if !s.phase.Ticked? then s
    else s.(phase := Cut(s.phase.epoch, s.clock), clock := s.clock + 1)
  }

  /** The grouped read, the filter, the cap check and the tree. */
  function ReadRowsStep(p: Params, s: State): State {
    if !s.phase.Cut? then s
    else match ReadEntries(p, s.rows)
      case Err => s.(phase := Idle)
      case Ok(es) =>
        var total := SumAmounts(es);
        if total > p.cap then s.(phase := Idle)
        else s.(phase := Built(Plan(s.phase.epoch, s.phase.cutoff, |s.rows|, es, RootOf(p.H, es), total)))
  }

  function DenyListStep(s: State, k: nat): State {
    if !s.phase.Built? || k >= |s.denyLog| then s
    else s.(phase := Ready(s.phase.plan, s.denyLog[k]))
  }

  function SubmitStep(s: State): State {
    if !s.phase.Ready? then s
    else
      var tx := Tx(s.nextSig, s.phase.plan, s.phase.denyList);
      s.(phase := Waiting(tx), inFlight := s.inFlight + {tx}, nextSig := s.nextSig + 1)
  }

  function ConfirmStep(s: State): State {
    if !s.phase.Waiting? || s.phase.tx !in s.landed then s
    else s.(phase := Confirmed(s.phase.tx))
  }

  /** The authorities handed to the backfill: the tree's keys, printed. */
  predicate Included(p: Params, plan: Plan, authority: string) {
    exists i :: 0 <= i < |plan.entries| && p.show(plan.entries[i].0) == authority
  }

  predicate Stampable(p: Params, s: State, plan: Plan, i: nat) {
    && i < |s.rows|
    && i !in s.stamps
    && Included(p, plan, s.rows[i].authority)
    && s.rows[i].createdAt <= plan.cutoff
  }

  /** One transaction: insert the epoch row unless there is one, stamp what is not stamped yet. */
  function RecordStep(p: Params, s: State): State {
    if !s.phase.Confirmed? then s
    else
      var tx := s.phase.tx;
      var e := tx.plan.epoch;
      s.(
        epochRows := if e in s.epochRows then s.epochRows
                     else s.epochRows[e := EpochRow(tx.plan.root, tx.sig, tx.plan.total)],
        stamps := s.stamps + map i: nat | i < |s.rows| && Stampable(p, s, tx.plan, i) :: e,
        phase := Idle)
  }

  function GiveUpStep(s: State): State {
    if s.phase.Down? then s else s.(phase := Idle)
  }

  // ---------------------------------------------------------------- the endpoint

  function AskStep(p: Params, s: State, target: string, read: ChainRead): State {
    match p.parse(target)
    case None => s.(replies := s.replies + [Refused(BadRequest)])
    case Some(key) =>
      if read.ReadError? || read.k == 0 then s.(replies := s.replies + [Refused(Unavailable)])
      else if read.k > |s.landed| then s
      else
        var plan := s.landed[read.k - 1].plan;
        s.(requests := s.requests + [Pending(key, plan.root, plan.epoch)])
  }

  /** The position of the last entry for `key`, the one both lookup maps keep. */
  function LastIndex(es: seq<Entry>, key: Pubkey): (r: Option<nat>)
    ensures r.None? ==> forall i :: 0 <= i < |es| ==> es[i].0 != key
    ensures r.Some? ==> r.value < |es| && es[r.value].0 == key && IsLast(es, r.value)
  {
    if es == [] then None
    else
      var n := |es| - 1;
      if es[n].0 == key then Some(n)
      else
        assert forall i :: 0 <= i < n ==> es[..n][i] == es[i];
        LastIndex(es[..n], key)
  }

  function ReplyTo(p: Params, q: Pending, rows: seq<EarningRow>): Reply {
    match ReadEntries(p, rows)
    case Err => Refused(Internal)
    case Ok(es) =>
      if es == [] then Refused(if q.root == ZERO_DIGEST then NotFound else Unavailable)
      else if Root(p.H, es) != q.root then Refused(Unavailable)
      else match LastIndex(es, q.target)
        case None => Refused(NotFound)
        case Some(i) => Served(q.target, es[i].1, q.epoch, TreePath(p.H, Leaves(p.H, es), i), q.root)
  }

  function AnswerStep(p: Params, s: State, i: nat, dbOk: bool): State {
    if i >= |s.requests| then s
    else
      var reply := if dbOk then ReplyTo(p, s.requests[i], s.rows) else Refused(Internal);
      s.(requests := s.requests[..i] + s.requests[i + 1..], replies := s.replies + [reply])
  }

  // ---------------------------------------------------------------- runs

  function InsertStep(s: State, authority: string, amount: int, at: nat): State {
    if at < s.clock then s
    else s.(rows := s.rows + [EarningRow(authority, amount, at)], clock := at)
  }

  function Next(p: Params, s: State, step: Step): State {
    match step
    case Tick(read) => TickStep(s, read)
    case CaptureCutoff => CutoffStep(s)
    case ReadRows => ReadRowsStep(p, s)
    case ReadDenyList(k) => DenyListStep(s, k)
    case Submit => SubmitStep(s)
    case GiveUp => GiveUpStep(s)
    case Confirm => ConfirmStep(s)
    case Record => RecordStep(p, s)
    case Crash => s.(phase := Down)
    case Restart => if s.phase.Down? then s.(phase := Idle, lastKnown := 0) else s
    case Insert(authority, amount, at) => InsertStep(s, authority, amount, at)
    case Land(tx) => LandTx(s, tx)
    case Expire(tx) => s.(inFlight := s.inFlight - {tx})
    case EditDenyList(list) => if s.landed == [] then s else s.(denyLog := s.denyLog + [list])
    case Ask(target, read) => AskStep(p, s, target, read)
    case Answer(i, dbOk) => AnswerStep(p, s, i, dbOk)
  }

  function RunFrom(p: Params, s: State, steps: seq<Step>): State {
    if steps == [] then s
    else Next(p, RunFrom(p, s, steps[..|steps| - 1]), steps[|steps| - 1])
  }

  function Run(p: Params, steps: seq<Step>): State {
    RunFrom(p, INITIAL, steps)
  }

  // ---------------------------------------------------------------- the invariant

  ghost predicate PlanOk(p: Params, s: State, plan: Plan) {
    && 1 <= plan.epoch <= |s.landed| + 1
    && plan.rowsRead <= |s.rows|
    && ReadEntries(p, s.rows[..plan.rowsRead]) == Ok(plan.entries)
    && plan.root == RootOf(p.H, plan.entries)
    && plan.total == SumAmounts(plan.entries) <= p.cap
    && plan.cutoff < s.clock
    && (forall i :: 0 <= i < |s.rows| && s.rows[i].createdAt <= plan.cutoff ==> i < plan.rowsRead)
    && (plan.epoch >= 2 ==> s.landed[plan.epoch - 2].plan.rowsRead <= plan.rowsRead)
  }

  ghost predicate TxOk(p: Params, s: State, tx: Tx) {
    PlanOk(p, s, tx.plan) && tx.denyList in s.denyLog
  }

  ghost predicate ChainOk(p: Params, s: State) {
    && (forall i :: 0 <= i < |s.landed| ==> s.landed[i].plan.epoch == i + 1)
    && (forall i :: 0 <= i < |s.landed| ==> TxOk(p, s, s.landed[i]))
    && (forall tx :: tx in s.inFlight ==> TxOk(p, s, tx))
  }

  ghost predicate PhaseOk(p: Params, s: State) {
    match s.phase
    case Down => true
    case Idle => true
    case Ticked(e) => 1 <= e <= |s.landed| + 1
    case Cut(e, c) => 1 <= e <= |s.landed| + 1 && c < s.clock
    case Built(plan) => PlanOk(p, s, plan)
    case Ready(plan, deny) => PlanOk(p, s, plan) && deny in s.denyLog
    case Waiting(tx) => TxOk(p, s, tx)
    case Confirmed(tx) => TxOk(p, s, tx) && tx in s.landed
  }

  ghost predicate EpochRowOk(s: State, e: nat) {
    && e in s.epochRows
    && 1 <= e <= |s.landed|
    && var tx := s.landed[e - 1];
       s.epochRows[e] == EpochRow(tx.plan.root, tx.sig, tx.plan.total)
  }

  ghost predicate EpochRowsOk(s: State) {
    forall e :: e in s.epochRows ==> EpochRowOk(s, e)
  }

  ghost predicate StampOk(p: Params, s: State, i: nat) {
    && i < |s.rows|
    && i in s.stamps
    && 1 <= s.stamps[i] <= |s.landed|
    && s.stamps[i] in s.epochRows
    && var plan := s.landed[s.stamps[i] - 1].plan;
       i < plan.rowsRead && Included(p, plan, s.rows[i].authority)
  }

  ghost predicate StampsOk(p: Params, s: State) {
    forall i :: i in s.stamps ==> StampOk(p, s, i)
  }

  ghost predicate RequestOk(s: State, q: Pending) {
    1 <= q.epoch <= |s.landed| && q.root == s.landed[q.epoch - 1].plan.root
  }

  ghost predicate RequestsOk(s: State) {
    forall q :: q in s.requests ==> RequestOk(s, q)
  }

  /** The last preimage hashed when a proof is folded. */
  function FoldPreimage(H: Hasher, e: Entry, proof: seq<Digest>): Bytes {
    if proof == [] then LeafPreimage(e)
    else PairPreimage(Fold(H, HashLeaf(H, e), proof[..|proof| - 1]), proof[|proof| - 1])
  }

  /** Why a proof of `e` folds to the root published for `entries`: `e` is one of them, or the proof
      exhibits a collision, or, when nothing was published, a preimage of 32 zero bytes. */
  ghost predicate Justified(H: Hasher, entries: seq<Entry>, e: Entry, proof: seq<Digest>) {
    || e in entries
    || (entries != [] && IsCollision(H, Extract(H, entries, e, proof)))
    || (entries == [] && H(FoldPreimage(H, e, proof)) == ZERO_DIGEST)
  }

  ghost predicate ReplyOk(p: Params, s: State, r: Reply) {
    r.Served? ==>
      && 1 <= r.epoch <= |s.landed|
      && r.root == s.landed[r.epoch - 1].plan.root
      && Fold(p.H, HashLeaf(p.H, (r.target, r.amount)), r.proof) == r.root
      && Justified(p.H, s.landed[r.epoch - 1].plan.entries, (r.target, r.amount), r.proof)
  }

  ghost predicate RepliesOk(p: Params, s: State) {
    forall r :: r in s.replies ==> ReplyOk(p, s, r)
  }

  ghost predicate Inv(p: Params, s: State) {
    && ChainOk(p, s) && PhaseOk(p, s)
    && EpochRowsOk(s) && StampsOk(p, s)
    && RequestsOk(s) && RepliesOk(p, s)
  }

  // ---------------------------------------------------------------- preservation

  /** What no step ever takes back. */
  ghost predicate Grows(s: State, t: State) {
    && s.clock <= t.clock
    && |s.rows| <= |t.rows|
    && (forall i :: 0 <= i < |s.rows| ==> t.rows[i] == s.rows[i])
    && (forall i :: |s.rows| <= i < |t.rows| ==> s.clock <= t.rows[i].createdAt)
    && |s.landed| <= |t.landed|
    && (forall i :: 0 <= i < |s.landed| ==> t.landed[i] == s.landed[i])
    && |s.denyLog| <= |t.denyLog|
    && (forall i :: 0 <= i < |s.denyLog| ==> t.denyLog[i] == s.denyLog[i])
    && (forall i :: i in s.stamps ==> i in t.stamps && t.stamps[i] == s.stamps[i])
    && (forall e :: e in s.epochRows ==> e in t.epochRows && t.epochRows[e] == s.epochRows[e])
  }

  lemma LandGrows(s: State, tx: Tx)
    ensures Grows(s, LandTx(s, tx))
  {
  }

  lemma RecordGrows(p: Params, s: State)
    ensures Grows(s, RecordStep(p, s))
  {
  }

  lemma InsertGrows(s: State, authority: string, amount: int, at: nat)
    ensures Grows(s, InsertStep(s, authority, amount, at))
  {
  }

  /** The remaining steps touch neither ledger, chain nor database tables, except that ops may extend
      the deny list's history and a cutoff moves the clock. */
  lemma OtherStepsGrow(p: Params, s: State, step: Step)
    requires !step.Land? && !step.Record? && !step.Insert?
    ensures var t := Next(p, s, step);
      && s.clock <= t.clock && t.rows == s.rows && t.landed == s.landed
      && t.stamps == s.stamps && t.epochRows == s.epochRows
      && s.denyLog <= t.denyLog
  {
  }

  /** No step takes back a row, an accepted publish, a deny list once held, a stamp or an epoch row. */
  lemma NextGrows(p: Params, s: State, step: Step)
    ensures Grows(s, Next(p, s, step))
  {
    match step {
      case Land(tx) => LandGrows(s, tx);
      case Record => RecordGrows(p, s);
      case Insert(authority, amount, at) => InsertGrows(s, authority, amount, at);
      case _ =>
        OtherStepsGrow(p, s, step);
        LedgerSame(s, Next(p, s, step));
    }
  }

  lemma LedgerSame(s: State, t: State)
    requires s.clock <= t.clock && t.rows == s.rows && t.landed == s.landed
    requires t.stamps == s.stamps && t.epochRows == s.epochRows && s.denyLog <= t.denyLog
    ensures Grows(s, t)
  {
  }

  lemma PlanOkGrows(p: Params, s: State, t: State, plan: Plan)
    requires PlanOk(p, s, plan) && Grows(s, t)
    ensures PlanOk(p, t, plan)
  {
    assert t.rows[..plan.rowsRead] == s.rows[..plan.rowsRead];
  }

  lemma TxOkGrows(p: Params, s: State, t: State, tx: Tx)
    requires TxOk(p, s, tx) && Grows(s, t)
    ensures TxOk(p, t, tx)
  {
    PlanOkGrows(p, s, t, tx.plan);
    var i :| 0 <= i < |s.denyLog| && s.denyLog[i] == tx.denyList;
    assert t.denyLog[i] == tx.denyList;
  }

  /** A transaction the chain accepts carries exactly the next epoch. */
  lemma AcceptedIsNext(p: Params, s: State, tx: Tx)
    requires ChainOk(p, s) && tx in s.inFlight && tx.plan.epoch > ChainEpoch(s)
    ensures tx.plan.epoch == |s.landed| + 1
  {
    assert TxOk(p, s, tx);
  }

  lemma LandKeepsChain(p: Params, s: State, tx: Tx)
    requires ChainOk(p, s)
    ensures ChainOk(p, LandTx(s, tx))
  {
    var t := LandTx(s, tx);
    NextGrows(p, s, Land(tx));
    TxsStayOk(p, s, t);
    if tx in s.inFlight && tx.plan.epoch > ChainEpoch(s) {
      AcceptedIsNext(p, s, tx);
      forall i | 0 <= i < |t.landed| ensures t.landed[i].plan.epoch == i + 1 && TxOk(p, t, t.landed[i]) {
        if i < |s.landed| {
          assert t.landed[i] == s.landed[i];
        } else {
          assert t.landed[i] == tx;
        }
      }
    }
  }

  lemma TxsStayOk(p: Params, s: State, t: State)
    requires ChainOk(p, s) && Grows(s, t)
    ensures forall tx :: tx in s.inFlight ==> TxOk(p, t, tx)
    ensures forall i :: 0 <= i < |s.landed| ==> TxOk(p, t, s.landed[i])
  {
    forall tx | tx in s.inFlight ensures TxOk(p, t, tx) {
      TxOkGrows(p, s, t, tx);
    }
    forall i | 0 <= i < |s.landed| ensures TxOk(p, t, s.landed[i]) {
      TxOkGrows(p, s, t, s.landed[i]);
    }
  }

  lemma SubmitKeepsChain(p: Params, s: State)
    requires ChainOk(p, s) && PhaseOk(p, s)
    ensures ChainOk(p, SubmitStep(s)) && PhaseOk(p, SubmitStep(s))
  {
    var t := SubmitStep(s);
    TxsStayOk(p, s, t);
    if s.phase.Ready? {
      PlanOkGrows(p, s, t, s.phase.plan);
    }
  }

  lemma NextKeepsChain(p: Params, s: State, step: Step)
    requires ChainOk(p, s) && PhaseOk(p, s)
    ensures ChainOk(p, Next(p, s, step))
  {
    var t := Next(p, s, step);
    NextGrows(p, s, step);
    if step.Land? {
      LandKeepsChain(p, s, step.tx);
    } else if step.Submit? {
      SubmitKeepsChain(p, s);
    } else {
      ChainUntouched(p, s, step);
      TxsStayOk(p, s, t);
    }
  }

  lemma ChainUntouched(p: Params, s: State, step: Step)
    requires !step.Land? && !step.Submit?
    ensures Next(p, s, step).landed == s.landed && Next(p, s, step).inFlight <= s.inFlight
  {
  }

  /** A phase that a step leaves alone stays good. */
  lemma SamePhaseOk(p: Params, s: State, t: State)
    requires PhaseOk(p, s) && Grows(s, t) && t.phase == s.phase
    ensures PhaseOk(p, t)
  {
    match s.phase {
      case Built(plan) => PlanOkGrows(p, s, t, plan);
      case Ready(plan, deny) =>
        PlanOkGrows(p, s, t, plan);
        var i :| 0 <= i < |s.denyLog| && s.denyLog[i] == deny;
        assert t.denyLog[i] == deny;
      case Waiting(tx) => TxOkGrows(p, s, t, tx);
      case Confirmed(tx) =>
        TxOkGrows(p, s, t, tx);
        var i :| 0 <= i < |s.landed| && s.landed[i] == tx;
        assert t.landed[i] == tx;
      case _ =>
    }
  }

  lemma ReadRowsKeepsPhase(p: Params, s: State)
    requires ChainOk(p, s) && PhaseOk(p, s)
    ensures PhaseOk(p, ReadRowsStep(p, s))
  {
    assert s.rows[..|s.rows|] == s.rows;
    if s.phase.Cut? && s.phase.epoch >= 2 {
      assert TxOk(p, s, s.landed[s.phase.epoch - 2]);
    }
  }

  lemma TickKeepsPhase(p: Params, s: State, read: ChainRead)
    requires ChainOk(p, s) && PhaseOk(p, s)
    ensures PhaseOk(p, TickStep(s, read))
  {
  }

  lemma CutoffKeepsPhase(p: Params, s: State)
    requires PhaseOk(p, s)
    ensures PhaseOk(p, CutoffStep(s))
  {
    if !s.phase.Ticked? {
      SamePhaseOk(p, s, s);
    }
  }

  lemma DenyListKeepsPhase(p: Params, s: State, k: nat)
    requires PhaseOk(p, s)
    ensures PhaseOk(p, DenyListStep(s, k))
  {
    var t := DenyListStep(s, k);
    if t != s {
      PlanOkGrows(p, s, t, s.phase.plan);
    }
  }

  lemma ConfirmKeepsPhase(p: Params, s: State)
    requires PhaseOk(p, s)
    ensures PhaseOk(p, ConfirmStep(s))
  {
    var t := ConfirmStep(s);
    if t != s {
      TxOkGrows(p, s, t, s.phase.tx);
    }
  }

  /** The other steps leave the phase alone or end the tick. */
  lemma OtherPhases(p: Params, s: State, step: Step)
    requires !step.Tick? && !step.CaptureCutoff? && !step.ReadRows? && !step.ReadDenyList?
    requires !step.Submit? && !step.Confirm?
    ensures var t := Next(p, s, step); t.phase == s.phase || t.phase.Idle? || t.phase.Down?
  {
  }

  lemma NextKeepsPhase(p: Params, s: State, step: Step)
    requires ChainOk(p, s) && PhaseOk(p, s)
    ensures PhaseOk(p, Next(p, s, step))
  {
    match step {
      case Tick(read) => TickKeepsPhase(p, s, read);
      case CaptureCutoff => CutoffKeepsPhase(p, s);
      case ReadRows => ReadRowsKeepsPhase(p, s);
      case ReadDenyList(k) => DenyListKeepsPhase(p, s, k);
      case Submit => SubmitKeepsChain(p, s);
      case Confirm => ConfirmKeepsPhase(p, s);
      case _ =>
        NextGrows(p, s, step);
        OtherPhases(p, s, step);
        if Next(p, s, step).phase == s.phase {
          SamePhaseOk(p, s, Next(p, s, step));
        }
    }
  }

  /** A confirmed transaction is the chain's own at its epoch. */
  lemma ConfirmedIsLanded(p: Params, s: State)
    requires ChainOk(p, s) && PhaseOk(p, s) && s.phase.Confirmed?
    ensures var tx := s.phase.tx; 1 <= tx.plan.epoch <= |s.landed| && s.landed[tx.plan.epoch - 1] == tx
  {
    var i :| 0 <= i < |s.landed| && s.landed[i] == s.phase.tx;
  }

  lemma StampOkGrows(p: Params, s: State, t: State, i: nat)
    requires StampOk(p, s, i) && Grows(s, t)
    ensures StampOk(p, t, i)
  {
  }

  lemma EpochRowOkGrows(s: State, t: State, e: nat)
    requires EpochRowOk(s, e) && Grows(s, t)
    ensures EpochRowOk(t, e)
  {
  }

  /** The epoch row inserted for a confirmed transaction is the chain's. */
  lemma FreshEpochRow(p: Params, s: State, e: nat)
    requires ChainOk(p, s) && PhaseOk(p, s)
    requires e in RecordStep(p, s).epochRows && e !in s.epochRows
    ensures EpochRowOk(RecordStep(p, s), e)
  {
    ConfirmedIsLanded(p, s);
  }

  ghost predicate FreshEpochRowsOk(s: State, t: State) {
    forall e :: e in t.epochRows && e !in s.epochRows ==> EpochRowOk(t, e)
  }

  lemma EpochRowsOkGrows(s: State, t: State)
    requires EpochRowsOk(s) && Grows(s, t) && FreshEpochRowsOk(s, t)
    ensures EpochRowsOk(t)
  {
    forall e | e in t.epochRows ensures EpochRowOk(t, e) {
      if e in s.epochRows {
        EpochRowOkGrows(s, t, e);
      }
    }
  }

  lemma RecordKeepsEpochRows(p: Params, s: State)
    requires ChainOk(p, s) && PhaseOk(p, s) && EpochRowsOk(s)
    ensures EpochRowsOk(RecordStep(p, s))
  {
    RecordEpochRowsOk(p, s);
    NextGrows(p, s, Record);
    EpochRowsOkGrows(s, RecordStep(p, s));
  }

  lemma RecordEpochRowsOk(p: Params, s: State)
    requires ChainOk(p, s) && PhaseOk(p, s)
    ensures FreshEpochRowsOk(s, RecordStep(p, s))
  {
    forall e | e in RecordStep(p, s).epochRows && e !in s.epochRows ensures EpochRowOk(RecordStep(p, s), e) {
      FreshEpochRow(p, s, e);
    }
  }

  ghost predicate FreshStampsOk(p: Params, s: State, t: State) {
    forall i :: i in t.stamps && i !in s.stamps ==> StampOk(p, t, i)
  }

  lemma StampsOkGrows(p: Params, s: State, t: State)
    requires StampsOk(p, s) && Grows(s, t) && FreshStampsOk(p, s, t)
    ensures StampsOk(p, t)
  {
    forall i | i in t.stamps ensures StampOk(p, t, i) {
      if i in s.stamps {
        StampOkGrows(p, s, t, i);
      }
    }
  }

  lemma RecordKeepsStamps(p: Params, s: State)
    requires ChainOk(p, s) && PhaseOk(p, s) && StampsOk(p, s)
    ensures StampsOk(p, RecordStep(p, s))
  {
    RecordStampsOk(p, s);
    NextGrows(p, s, Record);
    StampsOkGrows(p, s, RecordStep(p, s));
  }

  lemma RecordStampsOk(p: Params, s: State)
    requires ChainOk(p, s) && PhaseOk(p, s)
    ensures FreshStampsOk(p, s, RecordStep(p, s))
  {
    forall i | i in RecordStep(p, s).stamps && i !in s.stamps ensures StampOk(p, RecordStep(p, s), i) {
      FreshStamp(p, s, i);
      FreshStampOk(p, s, i);
    }
  }

  lemma FreshStamp(p: Params, s: State, i: nat)
    requires i in RecordStep(p, s).stamps && i !in s.stamps
    ensures s.phase.Confirmed? && Stampable(p, s, s.phase.tx.plan, i)
  {
  }

  /** A row stamped now was read for the confirmed publish: it is no younger than the cutoff. */
  lemma FreshStampOk(p: Params, s: State, i: nat)
    requires ChainOk(p, s) && PhaseOk(p, s) && s.phase.Confirmed?
    requires Stampable(p, s, s.phase.tx.plan, i)
    ensures StampOk(p, RecordStep(p, s), i)
  {
    ConfirmedIsLanded(p, s);
    assert PlanOk(p, s, s.phase.tx.plan);
    StampedNow(p, s, i);
    StampIsOk(p, RecordStep(p, s), i, s.phase.tx.plan);
  }

  lemma StampedNow(p: Params, s: State, i: nat)
    requires s.phase.Confirmed? && Stampable(p, s, s.phase.tx.plan, i)
    ensures var t := RecordStep(p, s);
      && t.landed == s.landed && t.rows == s.rows
      && i in t.stamps && t.stamps[i] == s.phase.tx.plan.epoch && t.stamps[i] in t.epochRows
  {
  }

  lemma StampIsOk(p: Params, t: State, i: nat, plan: Plan)
    requires i in t.stamps && t.stamps[i] == plan.epoch && plan.epoch in t.epochRows
    requires 1 <= plan.epoch <= |t.landed| && t.landed[plan.epoch - 1].plan == plan
    requires i < plan.rowsRead <= |t.rows| && Included(p, plan, t.rows[i].authority)
    ensures StampOk(p, t, i)
  {
  }

  lemma NextKeepsDb(p: Params, s: State, step: Step)
    requires ChainOk(p, s) && PhaseOk(p, s) && EpochRowsOk(s) && StampsOk(p, s)
    ensures EpochRowsOk(Next(p, s, step)) && StampsOk(p, Next(p, s, step))
  {
    if step.Record? {
      RecordKeepsEpochRows(p, s);
      RecordKeepsStamps(p, s);
    } else {
      NextGrows(p, s, step);
      DbUntouched(p, s, step);
      var t := Next(p, s, step);
      StampsOkGrows(p, s, t);
      EpochRowsOkGrows(s, t);
    }
  }

  lemma DbUntouched(p: Params, s: State, step: Step)
    requires !step.Record?
    ensures Next(p, s, step).stamps == s.stamps && Next(p, s, step).epochRows == s.epochRows
  {
  }

  lemma JustifiedByFold(H: Hasher, entries: seq<Entry>, e: Entry, proof: seq<Digest>)
    requires Fold(H, HashLeaf(H, e), proof) == RootOf(H, entries)
    ensures Justified(H, entries, e, proof)
  {
    if entries != [] && e !in entries {
      Soundness(H, entries, e, proof);
    }
  }

  /** A served proof folds to the root the request read. */
  ghost predicate Answers(p: Params, q: Pending, r: Reply) {
    r.Served? ==>
      && r.root == q.root && r.epoch == q.epoch && r.target == q.target
      && Fold(p.H, HashLeaf(p.H, (r.target, r.amount)), r.proof) == r.root
  }

  lemma ReplyAnswers(p: Params, q: Pending, rows: seq<EarningRow>)
    ensures Answers(p, q, ReplyTo(p, q, rows))
  {
    var read := ReadEntries(p, rows);
    if read.Ok? && read.value != [] {
      var es := read.value;
      var at := LastIndex(es, q.target);
      if at.Some? {
        PathFoldsToRoot(p.H, Leaves(p.H, es), at.value);
        assert es[at.value] == (q.target, es[at.value].1);
      }
    }
  }

  /** A proof that folds to a published root is justified by what that publish held. */
  lemma AnswerIsOk(p: Params, s: State, q: Pending, r: Reply)
    requires RequestOk(s, q) && Answers(p, q, r)
    requires q.root == RootOf(p.H, s.landed[q.epoch - 1].plan.entries)
    ensures ReplyOk(p, s, r)
  {
    if r.Served? {
      JustifiedByFold(p.H, s.landed[r.epoch - 1].plan.entries, (r.target, r.amount), r.proof);
    }
  }

  lemma PublishedRoot(p: Params, s: State, e: nat)
    requires ChainOk(p, s) && 1 <= e <= |s.landed|
    ensures s.landed[e - 1].plan.root == RootOf(p.H, s.landed[e - 1].plan.entries)
  {
    assert TxOk(p, s, s.landed[e - 1]);
  }

  lemma ReplyOkGrows(p: Params, s: State, t: State, r: Reply)
    requires ReplyOk(p, s, r) && Grows(s, t)
    ensures ReplyOk(p, t, r)
  {
  }

  /** A step that adds at most one reply keeps all of them good if that one is. */
  lemma OneMoreReply(p: Params, s: State, t: State, r: Reply)
    requires RepliesOk(p, s) && Grows(s, t) && ReplyOk(p, s, r)
    requires t.replies == s.replies || t.replies == s.replies + [r]
    ensures RepliesOk(p, t)
  {
    forall x | x in t.replies ensures ReplyOk(p, t, x) {
      ReplyOkGrows(p, s, t, x);
    }
  }

  lemma AnswerReplyOk(p: Params, s: State, q: Pending)
    requires ChainOk(p, s) && RequestOk(s, q)
    ensures ReplyOk(p, s, ReplyTo(p, q, s.rows))
  {
    PublishedRoot(p, s, q.epoch);
    ReplyAnswers(p, q, s.rows);
    AnswerIsOk(p, s, q, ReplyTo(p, q, s.rows));
  }

  lemma AnswerKeepsReplies(p: Params, s: State, i: nat, dbOk: bool)
    requires ChainOk(p, s) && RequestsOk(s) && RepliesOk(p, s) && i < |s.requests|
    ensures RepliesOk(p, AnswerStep(p, s, i, dbOk))
  {
    var r := if dbOk then ReplyTo(p, s.requests[i], s.rows) else Refused(Internal);
    AnswerReplyOk(p, s, s.requests[i]);
    NextGrows(p, s, Answer(i, dbOk));
    OneMoreReply(p, s, AnswerStep(p, s, i, dbOk), r);
  }

  lemma AnswerKeepsRequests(p: Params, s: State, i: nat, dbOk: bool)
    requires RequestsOk(s)
    ensures RequestsOk(AnswerStep(p, s, i, dbOk))
  {
    NextGrows(p, s, Answer(i, dbOk));
    RequestsOkGrows(s, AnswerStep(p, s, i, dbOk));
  }

  lemma AnswerKeepsEndpoint(p: Params, s: State, i: nat, dbOk: bool)
    requires ChainOk(p, s) && RequestsOk(s) && RepliesOk(p, s)
    ensures RequestsOk(AnswerStep(p, s, i, dbOk)) && RepliesOk(p, AnswerStep(p, s, i, dbOk))
  {
    AnswerKeepsRequests(p, s, i, dbOk);
    if i < |s.requests| {
      AnswerKeepsReplies(p, s, i, dbOk);
    }
  }

  lemma RequestsOkGrows(s: State, t: State)
    requires RequestsOk(s) && Grows(s, t)
    requires forall q :: q in t.requests ==> q in s.requests || RequestOk(s, q)
    ensures RequestsOk(t)
  {
    forall q | q in t.requests ensures RequestOk(t, q) {
      assert RequestOk(s, q);
    }
  }

  /** Asking opens at most a request for a root the chain held. */
  lemma AskRequests(p: Params, s: State, target: string, read: ChainRead, q: Pending)
    requires ChainOk(p, s) && q in AskStep(p, s, target, read).requests
    ensures q in s.requests || RequestOk(s, q)
  {
  }

  lemma AskKeepsRequests(p: Params, s: State, target: string, read: ChainRead)
    requires ChainOk(p, s) && RequestsOk(s)
    ensures RequestsOk(AskStep(p, s, target, read))
  {
    NextGrows(p, s, Ask(target, read));
    forall q | q in AskStep(p, s, target, read).requests ensures q in s.requests || RequestOk(s, q) {
      AskRequests(p, s, target, read, q);
    }
    RequestsOkGrows(s, AskStep(p, s, target, read));
  }

  /** Asking adds at most an immediate refusal. */
  lemma AskReplies(p: Params, s: State, target: string, read: ChainRead) returns (r: Reply)
    ensures r.Refused?
    ensures var t := AskStep(p, s, target, read); t.replies == s.replies || t.replies == s.replies + [r]
  {
    r := Refused(if p.parse(target).None? then BadRequest else Unavailable);
  }

  lemma AskKeepsReplies(p: Params, s: State, target: string, read: ChainRead)
    requires RepliesOk(p, s)
    ensures RepliesOk(p, AskStep(p, s, target, read))
  {
    NextGrows(p, s, Ask(target, read));
    var r := AskReplies(p, s, target, read);
    OneMoreReply(p, s, AskStep(p, s, target, read), r);
  }

  lemma AskKeepsEndpoint(p: Params, s: State, target: string, read: ChainRead)
    requires ChainOk(p, s) && RequestsOk(s) && RepliesOk(p, s)
    ensures RequestsOk(AskStep(p, s, target, read)) && RepliesOk(p, AskStep(p, s, target, read))
  {
    AskKeepsRequests(p, s, target, read);
    AskKeepsReplies(p, s, target, read);
  }

  lemma NextKeepsEndpoint(p: Params, s: State, step: Step)
    requires ChainOk(p, s) && RequestsOk(s) && RepliesOk(p, s)
    ensures RequestsOk(Next(p, s, step)) && RepliesOk(p, Next(p, s, step))
  {
    if step.Answer? {
      AnswerKeepsEndpoint(p, s, step.i, step.dbOk);
    } else if step.Ask? {
      AskKeepsEndpoint(p, s, step.target, step.read);
    } else {
      NextGrows(p, s, step);
      EndpointUntouched(p, s, step);
      OneMoreReply(p, s, Next(p, s, step), Refused(BadRequest));
      RequestsOkGrows(s, Next(p, s, step));
    }
  }

  lemma EndpointUntouched(p: Params, s: State, step: Step)
    requires !step.Ask? && !step.Answer?
    ensures Next(p, s, step).requests == s.requests && Next(p, s, step).replies == s.replies
  {
  }

  lemma NextKeepsInv(p: Params, s: State, step: Step)
    requires Inv(p, s)
    ensures Inv(p, Next(p, s, step))
  {
    NextKeepsChain(p, s, step);
    NextKeepsPhase(p, s, step);
    NextKeepsDb(p, s, step);
    NextKeepsEndpoint(p, s, step);
  }

  lemma {:induction false} RunKeepsInv(p: Params, steps: seq<Step>)
    ensures Inv(p, Run(p, steps))
  {
    if steps == [] {
    } else {
      var init := steps[..|steps| - 1];
      RunKeepsInv(p, init);
      NextKeepsInv(p, Run(p, init), steps[|steps| - 1]);
    }
  }
}
