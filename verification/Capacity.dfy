/** A protocol's issuance capacity: the stake watcher's one-time unlock and the periodic reset,
    working on the same columns. */
module Capacity {
  import opened Common
  import opened Bytes

  datatype Cadence = Weekly | Yearly

  function CadenceSecs(c: Cadence): nat {
    match c
    case Weekly => 7 * 86_400
    case Yearly => 365 * 86_400
  }

  /** The cadence as the SQL statement receives it: the override, if any, wrapped into an i64. */
  function EffectiveCadence(overrideSecs: Option<U64>, c: Cadence): int {
    match overrideSecs
    case None => CadenceSecs(c)
    case Some(s) => if s <= I64_MAX then s else s - U64_MAX - 1
  }

  /** Rust's saturating u64 addition. */
  function ActiveStake(direct: U64, rented: U64): U64 {
    Min(direct + rented, U64_MAX)
  }

  const OFF_DIRECT_STAKE := 34
  const OFF_RENTED_STAKE := 42
  const MIN_ACCOUNT_LEN := 50

  /** The stake held in a `ProtocolStake` account's bytes. */
  function ReadActiveStake(data: Bytes): Result<U64> {
    if |data| < MIN_ACCOUNT_LEN then Err
    else
      Ok(ActiveStake(
        U64FromLe(data[OFF_DIRECT_STAKE..OFF_DIRECT_STAKE + 8]),
        U64FromLe(data[OFF_RENTED_STAKE..OFF_RENTED_STAKE + 8])))
  }

  /** Any account laid out as documented is read as the saturated sum, whatever surrounds the fields. */
  lemma ReadsLayout(header: Bytes, direct: U64, rented: U64, rest: Bytes)
    requires |header| == 34
    ensures ReadActiveStake(header + LeBytes(direct, 8) + LeBytes(rented, 8) + rest)
      == Ok(Min(direct + rented, U64_MAX))
  {
    var d, r := LeBytes(direct, 8), LeBytes(rented, 8);
    var data := header + d + r + rest;
    assert data[34..42] == d && data[42..50] == r;
    U64FitsEightBytes();
    LeRoundTrip(direct, 8);
    LeRoundTrip(rented, 8);
  }

  /** Fifty bytes are enough, and needed. */
  lemma ReadsIff(data: Bytes)
    ensures ReadActiveStake(data).Ok? <==> |data| >= 50
  {
  }

  function Grant(ratio: U64, stake: U64): int {
    Min(ratio * stake, I64_MAX)
  }

  datatype Config = Config(ratio: U64, baseline: int, cadence: int)

  /** The capacity columns of a `protocols` row. */
  datatype Protocol = Protocol(
    activeStake: Option<int>,
    remaining: Option<int>,
    windowStart: Option<nat>,
    unlockedAt: Option<nat>)

  datatype Event = CapacityUnlocked(stake: U64, ratio: U64, capacity: int)

  /** What a watcher tick remembers of the row from its opening query. */
  datatype Loaded = Loaded(prevStake: Option<int>, alreadyUnlocked: bool)

  function Load(row: Protocol): Loaded {
    Loaded(row.activeStake, row.unlockedAt.Some?)
  }

  // ---------------------------------------------------------------- one sample, one reset

  predicate IsFirstUnlock(l: Loaded, stake: U64) {
    stake > 0 && !l.alreadyUnlocked
  }

  /** The transaction of `apply_sample`, with no fast path in front of it. */
  function SlowSample(cfg: Config, row: Protocol, l: Loaded, stake: U64, now: nat): Protocol {
    var mirrored := row.(activeStake := Some(Min(stake, I64_MAX)));
    if IsFirstUnlock(l, stake) then
      mirrored.(remaining := Some(Grant(cfg.ratio, stake)), windowStart := Some(now), unlockedAt := Some(now))
    else
      mirrored
  }

  function SampleEvents(cfg: Config, l: Loaded, stake: U64): seq<Event> {
    if IsFirstUnlock(l, stake) then [CapacityUnlocked(stake, cfg.ratio, Grant(cfg.ratio, stake))] else []
  }

  function Sample(cfg: Config, row: Protocol, l: Loaded, stake: U64, now: nat): Protocol {
    if !IsFirstUnlock(l, stake) && l.prevStake == Some(Min(stake, I64_MAX)) then row
    else SlowSample(cfg, row, l, stake, now)
  }

  predicate ResetDue(cfg: Config, row: Protocol, now: nat) {
    row.windowStart.None? || now - row.windowStart.value >= cfg.cadence
  }

  function Reset(cfg: Config, row: Protocol, now: nat): Protocol {
    if ResetDue(cfg, row, now) then row.(remaining := Some(cfg.baseline), windowStart := Some(now)) else row
  }

  /** The skipped transaction would have changed nothing, as long as the row is as loaded. */
  lemma FastPathIsSlowPath(cfg: Config, row: Protocol, stake: U64, now: nat)
    ensures Sample(cfg, row, Load(row), stake, now) == SlowSample(cfg, row, Load(row), stake, now)
  {
    if Load(row).prevStake == Some(Min(stake, I64_MAX)) {
      assert row == row.(activeStake := row.activeStake);
    }
  }

  /** The product fits 128 bits, and the granted value an i64. */
  lemma GrantFits(ratio: U64, direct: U64, rented: U64)
    ensures ratio * ActiveStake(direct, rented) < 0x1_0000_0000_0000_0000_0000_0000_0000_0000
    ensures 0 <= Grant(ratio, ActiveStake(direct, rented)) <= I64_MAX
  {
    ProductBound(ratio, ActiveStake(direct, rented), U64_MAX);
  }

  lemma ProductBound(a: nat, b: nat, m: nat)
    requires a <= m && b <= m
    ensures 0 <= a * b <= m * m
  {
    assert (m - a) * b >= 0 && m * (m - b) >= 0;
  }

  // ---------------------------------------------------------------- one protocol's history

  datatype State = State(
    row: Protocol,
    events: seq<Event>,
    loaded: Option<Loaded>,
    clock: nat,
    unlocks: nat,        // times the stake branch refilled the capacity
    resets: nat)         // times the reset cron did

  datatype Step =
    | TickLoads
    | TickSamples(stake: U64, dbOk: bool)
    | TickSkips                            // bad wallet, missing account, RPC error, crash
    | ResetRuns
    | Spend(left: int)
    | Wait(secs: nat)

  function SampleStep(cfg: Config, s: State, stake: U64, dbOk: bool): State {
    if s.loaded.None? then s
    else if !dbOk then s.(loaded := None)
    else
      var l := s.loaded.value;
      s.(
        row := Sample(cfg, s.row, l, stake, s.clock),
        events := s.events + SampleEvents(cfg, l, stake),
        loaded := None,
        unlocks := s.unlocks + if IsFirstUnlock(l, stake) then 1 else 0)
  }

  function ResetStep(cfg: Config, s: State): State {
    s.(
      row := Reset(cfg, s.row, s.clock),
      resets := s.resets + if ResetDue(cfg, s.row, s.clock) then 1 else 0)
  }

  function Next(cfg: Config, s: State, step: Step): State {
    match step
    case TickLoads => s.(loaded := Some(Load(s.row)))
    case TickSamples(stake, dbOk) => SampleStep(cfg, s, stake, dbOk)
    case TickSkips => s.(loaded := None)
    case ResetRuns => ResetStep(cfg, s)
    case Spend(left) =>
      if s.row.remaining.Some? && left <= s.row.remaining.value then s.(row := s.row.(remaining := Some(left))) else s
    case Wait(secs) => s.(clock := s.clock + secs)
  }

  function Run(cfg: Config, s: State, steps: seq<Step>): State {
    if steps == [] then s else Next(cfg, Run(cfg, s, steps[..|steps| - 1]), steps[|steps| - 1])
  }

  ghost predicate Consistent(s: State) {
    && (s.loaded.Some? ==> s.loaded.value == Load(s.row))
    && |s.events| == (if s.row.unlockedAt.Some? then 1 else 0)
  }

  /** A span about to begin, possibly during a watcher tick: nothing counted yet, no unlock event
      unless the marker says so, and a tick under way knows the row as it is. */
  ghost predicate Opening(s: State) {
    && s.unlocks == 0 && s.resets == 0 && Consistent(s)
    && (s.row.windowStart.Some? ==> s.row.windowStart.value <= s.clock)
  }

  /** What one step does to the row, for every step: the stake branch and the reset cron are the only
      ones that refill, each exactly when it is due. */
  ghost predicate Unlocks(s: State, step: Step) {
    step.TickSamples? && step.dbOk && step.stake > 0 && s.loaded.Some? && s.row.unlockedAt.None?
  }

  ghost predicate Resets(cfg: Config, s: State, step: Step) {
    step.ResetRuns? && (s.row.windowStart.None? || s.clock - s.row.windowStart.value >= cfg.cadence)
  }

  /** The grant, the window and the marker of an unlock, with the one event that tells of it. */
  ghost predicate UnlockedBy(cfg: Config, s: State, stake: U64, t: State) {
    && t.unlocks == s.unlocks + 1 && t.resets == s.resets
    && t.row.windowStart == t.row.unlockedAt == Some(s.clock)
    && (exists e :: t.events == s.events + [e] && e.stake == stake && e.ratio == cfg.ratio
          && e.capacity == Min(cfg.ratio * stake, I64_MAX) && t.row.remaining == Some(e.capacity))
  }

  ghost predicate ResetBy(cfg: Config, s: State, t: State) {
    && t.resets == s.resets + 1 && t.unlocks == s.unlocks && t.events == s.events
    && t.row == s.row.(remaining := Some(cfg.baseline), windowStart := Some(s.clock))
  }

  /** The capacity only falls, by spending, and window, marker, events and counters stand. */
  ghost predicate NotRefilled(s: State, t: State) {
    && t.unlocks == s.unlocks && t.resets == s.resets && t.events == s.events
    && t.row.windowStart == s.row.windowStart && t.row.unlockedAt == s.row.unlockedAt
    && !Rises(s, t)
  }

  predicate Rises(s: State, t: State) {
    t.row.remaining.Some? && (s.row.remaining.None? || t.row.remaining.value > s.row.remaining.value)
  }

  lemma StepEffect(cfg: Config, s: State, step: Step)
    requires Consistent(s)
    ensures var t := Next(cfg, s, step);
      if Unlocks(s, step) then UnlockedBy(cfg, s, step.stake, t)
      else if Resets(cfg, s, step) then ResetBy(cfg, s, t)
      else NotRefilled(s, t)
  {
    if Unlocks(s, step) {
      var e := CapacityUnlocked(step.stake, cfg.ratio, Grant(cfg.ratio, step.stake));
      assert Next(cfg, s, step).events == s.events + [e];
    }
  }

  /** The mirrored stake is the last one sampled, clamped; no other step touches it; and only spending
      moves the capacity otherwise, never up. */
  lemma StakeIsMirrored(cfg: Config, s: State, step: Step)
    requires Consistent(s)
    ensures var t := Next(cfg, s, step);
      && t.row.activeStake ==
           (if step.TickSamples? && step.dbOk && s.loaded.Some? then Some(Min(step.stake, I64_MAX))
            else s.row.activeStake)
      && (!Unlocks(s, step) && !Resets(cfg, s, step) && !step.Spend? ==> t.row.remaining == s.row.remaining)
  {
  }

  lemma {:induction false} RunConsistent(cfg: Config, s: State, steps: seq<Step>)
    requires Opening(s)
    ensures Consistent(Run(cfg, s, steps))
  {
    if steps == [] {
    } else {
      RunConsistent(cfg, s, steps[..|steps| - 1]);
    }
  }

  /** Unlocking happens at most once in any history, its event is there exactly when the sticky
      marker is, and the event's amount is the clamped product. */
  lemma SingleUnlock(cfg: Config, s: State, steps: seq<Step>)
    requires Opening(s) && s.events == []
    ensures var t := Run(cfg, s, steps);
      && |t.events| <= 1
      && (|t.events| == 1 <==> t.row.unlockedAt.Some?)
      && (forall e :: e in t.events ==> e.stake > 0 && e.capacity == Min(cfg.ratio * e.stake, I64_MAX))
  {
    RunConsistent(cfg, s, steps);
    RunEventsExact(cfg, s, steps);
  }

  lemma {:induction false} RunEventsExact(cfg: Config, s: State, steps: seq<Step>)
    requires s.events == []
    ensures forall e :: e in Run(cfg, s, steps).events ==>
      e.stake > 0 && e.capacity == Min(cfg.ratio * e.stake, I64_MAX)
  {
    if steps == [] {
    } else {
      RunEventsExact(cfg, s, steps[..|steps| - 1]);
    }
  }

  // ---------------------------------------------------------------- the farming bound

  ghost predicate Paced(cfg: Config, start: nat, s: State) {
    && start <= s.clock
    && s.unlocks <= (if s.row.unlockedAt.Some? then 1 else 0)
    && (s.row.windowStart.Some? ==> s.row.windowStart.value <= s.clock)
    && (s.resets > 0 ==>
          s.row.windowStart.Some? && start + cfg.cadence * (s.resets - 1) <= s.row.windowStart.value)
  }

  lemma NextKeepsPaced(cfg: Config, start: nat, s: State, step: Step)
    requires cfg.cadence > 0 && Consistent(s) && Paced(cfg, start, s)
    ensures Paced(cfg, start, Next(cfg, s, step))
  {
    if step.ResetRuns? && ResetDue(cfg, s.row, s.clock) && s.resets > 0 {
      assert cfg.cadence * s.resets == cfg.cadence * (s.resets - 1) + cfg.cadence;
    }
  }

  lemma {:induction false} RunPaced(cfg: Config, s: State, steps: seq<Step>)
    requires cfg.cadence > 0 && Opening(s)
    ensures Paced(cfg, s.clock, Run(cfg, s, steps))
  {
    if steps == [] {
    } else {
      var init := steps[..|steps| - 1];
      RunPaced(cfg, s, init);
      RunConsistent(cfg, s, init);
      NextKeepsPaced(cfg, s.clock, Run(cfg, s, init), steps[|steps| - 1]);
    }
  }

  lemma PacedIsBounded(cfg: Config, start: nat, t: State)
    requires cfg.cadence > 0 && Paced(cfg, start, t)
    ensures t.unlocks + t.resets <= 2 + (t.clock - start) / cfg.cadence
  {
    if t.resets > 0 {
      DivLowerBound(t.clock - start, cfg.cadence, t.resets - 1);
    }
  }

  /** Whatever stake and unstake cycle is played, over a span of `T` seconds the capacity is refilled
      at most 2 + floor(T / cadence) times. */
  lemma RefillBound(cfg: Config, s: State, steps: seq<Step>)
    requires cfg.cadence > 0 && Opening(s)
    ensures var t := Run(cfg, s, steps);
      t.clock >= s.clock && t.unlocks + t.resets <= 2 + (t.clock - s.clock) / cfg.cadence
  {
    RunPaced(cfg, s, steps);
    PacedIsBounded(cfg, s.clock, Run(cfg, s, steps));
  }

  /** How often the capacity rose, or appeared, along the run. */
  function CountRises(cfg: Config, s: State, steps: seq<Step>): nat {
    if steps == [] then 0
    else
      var before := Run(cfg, s, steps[..|steps| - 1]);
      CountRises(cfg, s, steps[..|steps| - 1])
        + if Rises(before, Next(cfg, before, steps[|steps| - 1])) then 1 else 0
  }

  /** Every rise is a counted refill. */
  lemma {:induction false} RisesAreRefills(cfg: Config, s: State, steps: seq<Step>)
    requires Opening(s)
    ensures CountRises(cfg, s, steps) <= Run(cfg, s, steps).unlocks + Run(cfg, s, steps).resets
  {
    if steps == [] {
    } else {
      var init, last := steps[..|steps| - 1], steps[|steps| - 1];
      RisesAreRefills(cfg, s, init);
      RunConsistent(cfg, s, init);
      StepEffect(cfg, Run(cfg, s, init), last);
    }
  }

  /** The bound on what the protocol sees: over `T` seconds its capacity rises at most
      2 + floor(T / cadence) times. */
  lemma RiseBound(cfg: Config, s: State, steps: seq<Step>)
    requires cfg.cadence > 0 && Opening(s)
    ensures var t := Run(cfg, s, steps);
      t.clock >= s.clock && CountRises(cfg, s, steps) <= 2 + (t.clock - s.clock) / cfg.cadence
  {
    RefillBound(cfg, s, steps);
    RisesAreRefills(cfg, s, steps);
  }

  lemma MulMonotone(c: int, a: int, b: int)
    requires c > 0
    ensures a >= b ==> c * a >= c * b
  {
    if a >= b {
      assert c * (a - b) >= 0;
    }
  }

  lemma DivLowerBound(n: nat, c: int, k: nat)
    requires c > 0 && c * k <= n
    ensures k <= n / c
  {
    var q := n / c;
    assert n < c * q + c == c * (q + 1);
    MulMonotone(c, k, q + 1);
  }

  /** The bound is reached, for every number of cadences: reset at once and after each cadence, and
      stake at the end. */
  lemma BoundIsReached(cfg: Config, s: State, k: nat, stake: U64) returns (steps: seq<Step>)
    requires cfg.cadence > 0 && stake > 0
    requires Opening(s) && s.row.windowStart.None? && s.row.unlockedAt.None?
    ensures var t := Run(cfg, s, steps);
      t.clock - s.clock == k * cfg.cadence && t.unlocks + t.resets == 2 + k
  {
    var resets := ResetEachCadence(cfg, s, k);
    var t := Run(cfg, s, resets);
    RunSnoc(cfg, s, resets, TickLoads);
    RunSnoc(cfg, s, resets + [TickLoads], TickSamples(stake, true));
    steps := resets + [TickLoads] + [TickSamples(stake, true)];
  }

  lemma RunSnoc(cfg: Config, s: State, steps: seq<Step>, step: Step)
    ensures var t := Run(cfg, s, steps);
      && Run(cfg, s, steps + [step]) == Next(cfg, t, step)
      && CountRises(cfg, s, steps + [step]) ==
           CountRises(cfg, s, steps) + if Rises(t, Next(cfg, t, step)) then 1 else 0
  {
    assert (steps + [step])[..|steps|] == steps;
  }

  lemma {:induction false} ResetEachCadence(cfg: Config, s: State, k: nat) returns (steps: seq<Step>)
    requires cfg.cadence > 0 && Opening(s) && s.row.windowStart.None? && s.row.unlockedAt.None?
    ensures var t := Run(cfg, s, steps);
      && t.clock == s.clock + k * cfg.cadence && t.resets == k + 1 && t.unlocks == 0
      && t.row.windowStart == Some(t.clock) && t.row.unlockedAt.None?
  {
    if k == 0 {
      RunSnoc(cfg, s, [], ResetRuns);
      steps := [] + [ResetRuns];
    } else {
      var before := ResetEachCadence(cfg, s, k - 1);
      RunSnoc(cfg, s, before, Wait(cfg.cadence));
      RunSnoc(cfg, s, before + [Wait(cfg.cadence)], ResetRuns);
      steps := before + [Wait(cfg.cadence)] + [ResetRuns];
      assert k * cfg.cadence == (k - 1) * cfg.cadence + cfg.cadence;
    }
  }

  lemma ResetAtOnce(cfg: Config, s: State)
    requires cfg.cadence <= 0 && (s.row.windowStart.Some? ==> s.row.windowStart.value <= s.clock)
    ensures var t := Next(cfg, s, ResetRuns);
      t.clock == s.clock && t.resets == s.resets + 1 && t.row.windowStart == Some(t.clock)
  {
  }

  /** As many rises are reached as well, by a protocol that spends what it has before each refill. */
  lemma RiseBoundIsReached(cfg: Config, s: State, k: nat, stake: U64) returns (steps: seq<Step>)
    requires cfg.cadence > 0 && stake > 0 && cfg.ratio > 0 && cfg.baseline > 0
    requires Opening(s) && s.row.windowStart.None? && s.row.unlockedAt.None?
    ensures var t := Run(cfg, s, steps);
      t.clock - s.clock == k * cfg.cadence && CountRises(cfg, s, steps) == 2 + k
  {
    var before := SpendAndReset(cfg, s, k);
    var spent := before + [Spend(0)];
    RunSnoc(cfg, s, before, Spend(0));
    RunSnoc(cfg, s, spent, TickLoads);
    RunSnoc(cfg, s, spent + [TickLoads], TickSamples(stake, true));
    GrantIsPositive(cfg.ratio, stake);
    steps := spent + [TickLoads] + [TickSamples(stake, true)];
  }

  lemma GrantIsPositive(ratio: U64, stake: U64)
    requires ratio > 0 && stake > 0
    ensures Grant(ratio, stake) > 0
  {
    assert ratio * stake >= stake;
  }

  lemma ResetRises(cfg: Config, s: State)
    requires cfg.baseline > 0
    requires s.row.windowStart.None? || s.clock - s.row.windowStart.value >= cfg.cadence
    ensures var t := Next(cfg, s, Spend(0)); var u := Next(cfg, t, ResetRuns);
      && !Rises(s, t) && Rises(t, u) && u.clock == s.clock
      && u.row.windowStart == Some(s.clock) && u.row.unlockedAt == s.row.unlockedAt
  {
  }

  lemma {:induction false} SpendAndReset(cfg: Config, s: State, k: nat) returns (steps: seq<Step>)
    requires cfg.cadence > 0 && cfg.baseline > 0
    requires s.row.windowStart.None? && s.row.unlockedAt.None?
    ensures var t := Run(cfg, s, steps);
      && t.clock == s.clock + k * cfg.cadence && CountRises(cfg, s, steps) == k + 1
      && t.row.windowStart == Some(t.clock) && t.row.unlockedAt.None?
  {
    var ready := [];
    if k == 0 {
      assert CountRises(cfg, s, []) == 0;
    } else {
      var before := SpendAndReset(cfg, s, k - 1);
      RunSnoc(cfg, s, before, Wait(cfg.cadence));
      ready := before + [Wait(cfg.cadence)];
      assert k * cfg.cadence == (k - 1) * cfg.cadence + cfg.cadence;
    }
    ResetRises(cfg, Run(cfg, s, ready));
    RunSnoc(cfg, s, ready, Spend(0));
    RunSnoc(cfg, s, ready + [Spend(0)], ResetRuns);
    steps := ready + [Spend(0)] + [ResetRuns];
  }

  /** The bound needs a positive cadence: without one, any number of refills fits in no time. */
  lemma {:induction false} NoBoundWithoutCadence(cfg: Config, s: State, n: nat) returns (steps: seq<Step>)
    requires cfg.cadence <= 0 && Opening(s)
    ensures var t := Run(cfg, s, steps);
      t.clock == s.clock && t.resets == n && (t.row.windowStart.Some? ==> t.row.windowStart.value <= t.clock)
  {
    if n == 0 {
      steps := [];
    } else {
      var before := NoBoundWithoutCadence(cfg, s, n - 1);
      ResetAtOnce(cfg, Run(cfg, s, before));
      RunSnoc(cfg, s, before, ResetRuns);
      steps := before + [ResetRuns];
    }
  }

  /** ... and the override makes it so exactly for 0 and for values that do not fit an i64. */
  lemma CadencePositiveIff(overrideSecs: Option<U64>, c: Cadence)
    ensures EffectiveCadence(overrideSecs, c) > 0 <==>
      overrideSecs.None? || 0 < overrideSecs.value <= I64_MAX
  {
  }

  /** The cadence itself: a week or a year, or the override wrapped into 64 signed bits. */
  lemma CadenceIs(c: Cadence, s: U64)
    ensures EffectiveCadence(None, Weekly) == 604_800 && EffectiveCadence(None, Yearly) == 31_536_000
    ensures var r := EffectiveCadence(Some(s), c);
      -0x8000_0000_0000_0000 <= r < 0x8000_0000_0000_0000 && (r - s) % 0x1_0000_0000_0000_0000 == 0
  {
  }

  // ---------------------------------------------------------------- the crons over the table

  type Id = string

  /** What the chain read of one protocol came to. */
  datatype Reading = BadWallet | Missing | RpcError | Stake(direct: U64, rented: U64, dbOk: bool)

  function TickRow(cfg: Config, row: Protocol, r: Reading, now: nat): Protocol {
    if r.Stake? && r.dbOk then SlowSample(cfg, row, Load(row), ActiveStake(r.direct, r.rented), now) else row
  }

  predicate TickUnlocks(row: Protocol, r: Reading) {
    r.Stake? && r.dbOk && IsFirstUnlock(Load(row), ActiveStake(r.direct, r.rented))
  }

  /** The unlock events of one tick over `league`, in the order the rows were visited. */
  function TickEvents(cfg: Config, was: map<Id, Protocol>, readings: map<Id, Reading>, league: seq<Id>)
    : seq<(Id, Event)>
    requires forall id :: id in league ==> id in was && id in readings
  {
    if league == [] then []
    else
      var id := league[|league| - 1];
      var r := readings[id];
      TickEvents(cfg, was, readings, league[..|league| - 1])
        + if TickUnlocks(was[id], r) then
            var stake := ActiveStake(r.direct, r.rented);
            [(id, CapacityUnlocked(stake, cfg.ratio, Grant(cfg.ratio, stake)))]
          else []
  }

  /** How many of the first readings found a stake account. */
  function CountStakes(readings: map<Id, Reading>, league: seq<Id>): nat
    requires forall id :: id in league ==> id in readings
  {
    if league == [] then 0
    else CountStakes(readings, league[..|league| - 1]) + if readings[league[|league| - 1]].Stake? then 1 else 0
  }

  /** What a reading does to its row, and when it unlocks: nothing without a stake or when the write
      fails; otherwise the sum of both stakes is mirrored, and unlocks a row never unlocked before. */
  lemma TickRowIs(cfg: Config, row: Protocol, r: Reading, now: nat)
    ensures var t := TickRow(cfg, row, r, now);
      if !r.Stake? || !r.dbOk then t == row && !TickUnlocks(row, r)
      else
        var stake := Min(r.direct + r.rented, U64_MAX);
        && t.activeStake == Some(Min(stake, I64_MAX))
        && (TickUnlocks(row, r) <==> stake > 0 && row.unlockedAt.None?)
        && (if TickUnlocks(row, r) then
              t.remaining == Some(Min(cfg.ratio * stake, I64_MAX)) && t.windowStart == t.unlockedAt == Some(now)
            else t == row.(activeStake := t.activeStake))
  {
  }

  /** The events of a tick are those of the rows it unlocked. */
  lemma {:induction false} TickEventsMember(
      cfg: Config, was: map<Id, Protocol>, readings: map<Id, Reading>, league: seq<Id>, x: (Id, Event))
    requires forall id :: id in league ==> id in was && id in readings
    ensures x in TickEvents(cfg, was, readings, league) <==>
      && x.0 in league && TickUnlocks(was[x.0], readings[x.0])
      && var stake := Min(readings[x.0].direct + readings[x.0].rented, U64_MAX);
         x.1 == CapacityUnlocked(stake, cfg.ratio, Min(cfg.ratio * stake, I64_MAX))
  {
    if league == [] {
    } else {
      var n := |league| - 1;
      TickEventsMember(cfg, was, readings, league[..n], x);
      assert x.0 in league <==> x.0 in league[..n] || x.0 == league[n];
    }
  }

  lemma PrefixGrows(league: seq<Id>, i: nat)
    requires i < |league|
    requires forall a, b :: 0 <= a < b < |league| ==> league[a] != league[b]
    ensures league[..i + 1][..i] == league[..i] && league[..i + 1][i] == league[i]
    ensures forall id :: id in league[..i + 1] <==> id in league[..i] || id == league[i]
    ensures league[i] !in league[..i]
  {
  }

  class Crons {
    const cfg: Config
    var table: map<Id, Protocol>
    var events: seq<(Id, Event)>
    var now: nat

    constructor (cfg: Config, table: map<Id, Protocol>, now: nat)
      ensures this.cfg == cfg && this.table == table && this.events == [] && this.now == now
    {
      this.cfg, this.table, this.events, this.now := cfg, table, [], now;
    }

    method ApplySample(id: Id, stake: U64, l: Loaded) returns (unlocked: bool)
      requires id in table
      modifies this`table, this`events
      ensures table == old(table)[id := Sample(cfg, old(table)[id], l, stake, now)]
      ensures unlocked <==> IsFirstUnlock(l, stake)
      ensures events == old(events) + if unlocked then [(id, SampleEvents(cfg, l, stake)[0])] else []
    {
      var observed := if stake <= I64_MAX then stake else I64_MAX;
      unlocked := stake > 0 && !l.alreadyUnlocked;
      if !unlocked && l.prevStake == Some(observed) {
        return;
      }
      var row := table[id];
      if row.activeStake != Some(observed) {
        row := row.(activeStake := Some(observed));
      }
      if unlocked {
        var capacity := cfg.ratio * stake;
        if capacity > I64_MAX {
          capacity := I64_MAX;
        }
        row := row.(remaining := Some(capacity), windowStart := Some(now), unlockedAt := Some(now));
        events := events + [(id, CapacityUnlocked(stake, cfg.ratio, capacity))];
      }
      table := table[id := row];
    }

    /** What the tick does with one protocol, given the row as loaded. */
    method Visit(id: Id, l: Loaded, r: Reading) returns (seen: bool, unlocked: bool)
      requires id in table && l == Load(table[id])
      modifies this`table, this`events
      ensures seen <==> r.Stake?
      ensures unlocked <==> TickUnlocks(old(table)[id], r)
      ensures table == old(table)[id := TickRow(cfg, old(table)[id], r, now)]
      ensures events == old(events) +
        if unlocked then
          var stake := ActiveStake(r.direct, r.rented);
          [(id, CapacityUnlocked(stake, cfg.ratio, Grant(cfg.ratio, stake)))]
        else []
    {
      seen, unlocked := r.Stake?, false;
      if r.Stake? && r.dbOk {
        var stake := ActiveStake(r.direct, r.rented);
        FastPathIsSlowPath(cfg, table[id], stake, now);
        unlocked := ApplySample(id, stake, l);
      }
    }

    /** One watcher tick over the league's protocols, in any order without repeats. */
    method WatcherTick(league: seq<Id>, readings: map<Id, Reading>) returns (observed: nat, unlocked: nat)
      requires forall i :: 0 <= i < |league| ==> league[i] in table && league[i] in readings
      requires forall i, j :: 0 <= i < j < |league| ==> league[i] != league[j]
      modifies this`table, this`events
      ensures table.Keys == old(table).Keys
      ensures forall id :: id in league ==> table[id] == TickRow(cfg, old(table)[id], readings[id], now)
      ensures forall id :: id in table && id !in league ==> table[id] == old(table)[id]
      ensures events == old(events) + TickEvents(cfg, old(table), readings, league)
      ensures unlocked == |TickEvents(cfg, old(table), readings, league)|
      ensures observed == CountStakes(readings, league)
    {
      observed, unlocked := 0, 0;
      ghost var was := table;
      var rows := table;
      for i := 0 to |league|
        invariant table.Keys == was.Keys
        invariant forall id :: id in table && id !in league[..i] ==> table[id] == was[id]
        invariant forall id :: id in league[..i] ==> table[id] == TickRow(cfg, was[id], readings[id], now)
        invariant events == old(events) + TickEvents(cfg, was, readings, league[..i])
        invariant unlocked == |TickEvents(cfg, was, readings, league[..i])|
        invariant observed == CountStakes(readings, league[..i])
      {
        var id := league[i];
        PrefixGrows(league, i);
        var seen, did := Visit(id, Load(rows[id]), readings[id]);
        observed := observed + if seen then 1 else 0;
        unlocked := unlocked + if did then 1 else 0;
      }
      assert league[..|league|] == league;
    }

    /** The reset statement over every row; the count is the rows it touched. */
    method ResetCapacities() returns (affected: nat)
      modifies this`table
      ensures table == map id | id in old(table) :: Reset(cfg, old(table)[id], now)
      ensures affected == |set id | id in old(table) && ResetDue(cfg, old(table)[id], now)|
    {
      affected := 0;
      ghost var was := table;
      var todo := table.Keys;
      ghost var hit: set<Id> := {};
      while todo != {}
        invariant todo <= was.Keys && table.Keys == was.Keys
        invariant forall id :: id in todo ==> table[id] == was[id]
        invariant forall id :: id in was && id !in todo ==> table[id] == Reset(cfg, was[id], now)
        invariant hit == set id | id in was && id !in todo && ResetDue(cfg, was[id], now)
        invariant affected == |hit|
        decreases todo
      {
        var id :| id in todo;
        todo := todo - {id};
        if ResetDue(cfg, table[id], now) {
          table := table[id := table[id].(remaining := Some(cfg.baseline), windowStart := Some(now))];
          affected := affected + 1;
          hit := hit + {id};
        }
      }
      assert hit == set id | id in was && ResetDue(cfg, was[id], now);
    }
  }
}
